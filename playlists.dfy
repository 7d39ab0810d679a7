/**
 * The playlist file: one JSON document mapping a guild id to `{"queue": [[title, webpage], ...]}`.
 * The file is a value here; the `Mixer` class holds the current one in a field, and every read
 * and write of the cog goes through the functions below. The commands use the readings as
 * written; `ReadPlaylist` and `PlaylistAppend` state what the code evidently intends.
 */
module Playlists {
  import opened Wrappers
  import opened Tracks
  import opened QueueOps

  /** What is on disk: no file, an empty file, a file that does not parse (or cannot be
      opened), a JSON value that is not an object, or a document of guild playlists. */
  datatype PlaylistFile =
    | Missing
    | Blank
    | Unreadable
    | NotObject
    | Document(guilds: map<string, seq<Entry>>)

  /** The error strings of `read_playlist` and `write_playlist`. */
  datatype PlaylistError = OsError | NotFound | KeyErr | UnknownError

  datatype ReadResult = Read(entries: seq<Entry>) | ReadFailed(error: PlaylistError)

  /** The document every creating write produces: this guild only, with the given entries. */
  function GuildDocument(guild: string, entries: seq<Entry>): (f: PlaylistFile)
    ensures f.Document? && f.guilds.Keys == {guild} && f.guilds[guild] == entries
  {
    Document(map[guild := entries])
  }

  /** `check_for_json`: a missing or empty file is replaced by this guild's empty playlist and
      `false` is returned; any other file is left as it is. */
  function CheckForJson(file: PlaylistFile, guild: string): (r: (bool, PlaylistFile))
    ensures r.0 <==> !(file.Missing? || file.Blank?)
    ensures r.0 ==> r.1 == file
    ensures !r.0 ==> r.1 == GuildDocument(guild, [])
  {
    if file.Missing? || file.Blank? then (false, GuildDocument(guild, [])) else (true, file)
  }

  /** `read_playlist` as written. The first `except` clause names `OSError`, of which
      `FileNotFoundError` is a subclass, so a missing file comes back as "os_error" and the
      "not_found" clause never runs; an empty or unparsable file fails to decode. */
  function ReadPlaylistAsWritten(file: PlaylistFile, guild: string): (r: ReadResult)
    ensures r != ReadFailed(NotFound)
    ensures r.Read? <==> file.Document? && guild in file.guilds
    ensures r.Read? ==> r.entries == file.guilds[guild]
  {
    match file
    case Missing => ReadFailed(OsError)
    case Blank => ReadFailed(OsError)
    case Unreadable => ReadFailed(OsError)
    case NotObject => ReadFailed(KeyErr)
    case Document(guilds) => if guild in guilds then Read(guilds[guild]) else ReadFailed(KeyErr)
  }

  /** `read_playlist` with the `FileNotFoundError` clause ahead of the `OSError` one, as its
      error strings intend: a missing file is reported as "not_found". */
  function ReadPlaylist(file: PlaylistFile, guild: string): (r: ReadResult)
    ensures r == ReadFailed(NotFound) <==> file.Missing?
    ensures r == ReadFailed(OsError) <==> file.Blank? || file.Unreadable?
    ensures r == ReadFailed(KeyErr) <==> file.NotObject? || (file.Document? && guild !in file.guilds)
    ensures r.Read? ==> file.Document? && r.entries == file.guilds[guild]
  {
    if file.Missing? then ReadFailed(NotFound) else ReadPlaylistAsWritten(file, guild)
  }

  /** The two readings differ exactly on a missing file. */
  lemma MissingFileReportedAsOsError(guild: string)
    ensures ReadPlaylistAsWritten(Missing, guild) == ReadFailed(OsError)
    ensures ReadPlaylist(Missing, guild) == ReadFailed(NotFound)
    ensures forall f :: f != Missing ==> ReadPlaylistAsWritten(f, guild) == ReadPlaylist(f, guild)
  {
  }

  /** `handle_error`: every error string makes the command stop; "not_found" also recreates the
      file with `check_for_json`. Nothing else touches the file. */
  function AfterError(e: PlaylistError, file: PlaylistFile, guild: string): (f: PlaylistFile)
    ensures e != NotFound ==> f == file
    ensures e == NotFound && file.Missing? ==> ReadPlaylistAsWritten(f, guild) == Read([])
  {
    if e == NotFound then CheckForJson(file, guild).1 else file
  }

  /** As written, a missing file is read as "os_error", which `handle_error` only reports: the
      file stays missing. */
  lemma MissingFileStaysMissing(guild: string)
    ensures var e := ReadPlaylistAsWritten(Missing, guild);
      e == ReadFailed(OsError) && AfterError(e.error, Missing, guild) == Missing
  {
  }

  /** As intended, a missing file, read and handled, leaves a file from which the guild reads
      an empty playlist. */
  lemma MissingFileRecovers(guild: string)
    ensures var e := ReadPlaylist(Missing, guild);
      e.ReadFailed? && ReadPlaylist(AfterError(e.error, Missing, guild), guild) == Read([])
  {
  }

  /** A write is read back as written, and leaves no other guild in the file. */
  lemma ReadAfterWrite(guild: string, other: string, entries: seq<Entry>)
    ensures ReadPlaylistAsWritten(GuildDocument(guild, entries), guild) == Read(entries)
    ensures other != guild ==> ReadPlaylistAsWritten(GuildDocument(guild, entries), other) == ReadFailed(KeyErr)
  {
  }

  /** After `check_for_json` the file is never missing or empty, and a file it creates reads as
      this guild's empty playlist. */
  lemma CheckForJsonThenRead(file: PlaylistFile, guild: string)
    ensures var (ok, f) := CheckForJson(file, guild);
      && !f.Missing? && !f.Blank?
      && (!ok ==> ReadPlaylistAsWritten(f, guild) == Read([]))
      && (ok ==> ReadPlaylistAsWritten(f, guild) == ReadPlaylistAsWritten(file, guild))
  {
  }

  // ---------------------------------------------------------------- playlistadd

  /** playlistadd as written: the stored entries come back from JSON as lists, which never equal
      the `(title, webpage)` tuple it looks for, so only entries appended earlier in the same
      call are recognised as duplicates. */
  function PlaylistAppendAsWritten(current: seq<Entry>, added: seq<Entry>): (r: seq<Entry>)
    ensures |current| <= |r| <= |current| + |added| && r[..|current|] == current
    ensures forall e :: e in r <==> e in current || e in added
    ensures forall e :: e in added ==> e in r[|current|..]
    ensures NoDuplicates(r[|current|..])
  {
    AppendAbsentSpec([], added);
    var r := current + AppendAbsent([], added);
    assert r[|current|..] == AppendAbsent([], added);
    r
  }

  /** playlistadd as intended: append each entry that is not in the playlist yet. */
  function PlaylistAppend(current: seq<Entry>, added: seq<Entry>): (r: seq<Entry>)
    ensures |current| <= |r| && r[..|current|] == current
    ensures forall e :: e in r <==> e in current || e in added
    ensures NoDuplicates(current) ==> NoDuplicates(r)
  {
    AppendAbsentSpec(current, added);
    AppendAbsent(current, added)
  }

  /** Adding an entry the playlist already holds stores it a second time as written, and leaves
      the playlist unchanged as intended. */
  lemma PlaylistAppendDuplicates(e: Entry)
    ensures PlaylistAppendAsWritten([e], [e]) == [e, e]
    ensures !NoDuplicates(PlaylistAppendAsWritten([e], [e]))
    ensures PlaylistAppend([e], [e]) == [e]
  {
    assert [e][..0] == [];
    assert AppendAbsent([], [e]) == [e];
    assert PlaylistAppendAsWritten([e], [e]) == [e, e];
    assert AppendAbsent([e], [e]) == [e] by {
      assert AppendAbsent([e], [e][..0]) == [e];
    }
    var w := [e, e];
    assert w[0] == w[1];
  }

  /** Both readings agree when none of the added entries is stored already. */
  lemma {:induction false} PlaylistAppendAgrees(current: seq<Entry>, added: seq<Entry>)
    requires forall e :: e in added ==> e !in current
    ensures PlaylistAppendAsWritten(current, added) == PlaylistAppend(current, added)
    decreases |added|
  {
    if added != [] {
      var init := added[..|added| - 1];
      var x := added[|added| - 1];
      assert forall e :: e in init ==> e in added;
      PlaylistAppendAgrees(current, init);
      AppendAbsentSpec([], init);
      assert x in AppendAbsent(current, init) <==> x in AppendAbsent([], init);
    }
  }
}
