/**
 * The playlist commands of the `Mixer` cog over the playlist file of one guild `g`:
 * playlistcreate, playlistadd, playlistaddcurrent, playlistdelete, playlistselect,
 * playlistqueue, playlistfetch, playlistremove, playlistreposition, playlistshuffle,
 * playlistrewrite and playlistgetindex. Every write stores a document holding this guild
 * only. Reads go through `ReadPlaylistAsWritten` and failed reads through `AfterError`.
 */
module PlaylistCommands {
  import opened Wrappers
  import opened Text
  import opened Tracks
  import opened Playlists
  import QueueOps
  import opened Player
  import QueueCommands

  /** State with the playlist file replaced. */
  function WithFile(s: State, f: PlaylistFile): State {
    s.(file := f)
  }

  /** State with `is_modifying_playlist` set to `b`. */
  function WithPlaylistBusy(s: State, b: bool): State {
    s.(modes := s.modes.(isModifyingPlaylist := b))
  }

  /** The file after `check_for_json`. */
  function Checked(s: State, g: string): PlaylistFile {
    CheckForJson(s.file, g).1
  }

  /** The entries this guild reads from the file, or none when the read fails. */
  function Stored(f: PlaylistFile, g: string): (r: seq<Entry>)
    ensures ReadPlaylistAsWritten(f, g).Read? ==> r == ReadPlaylistAsWritten(f, g).entries
  {
    match ReadPlaylistAsWritten(f, g)
    case Read(entries) => entries
    case ReadFailed(_) => []
  }

  /** `check_for_json` found no file (or an empty one) and created it. */
  predicate Created(s: State, g: string) {
    !CheckForJson(s.file, g).0
  }

  /** `playlistcreate`: stores the queue's (title, webpage) pairs as this guild's playlist. A
      missing file is created first and the command goes on; an empty queue stores nothing. */
  function Create(s: State, g: string): (r: (State, Outcome))
    ensures Valid(s) ==> Valid(r.0)
    ensures r.0 == WithFile(s, r.0.file)
    ensures s.store.queue == [] ==> r == (WithFile(s, Checked(s, g)), QueueEmpty)
    ensures s.store.queue != [] ==> r.1 == Done && ReadPlaylistAsWritten(r.0.file, g) == Read(EntriesOf(s.store.queue))
    ensures r.1 == Done ==> r.0.file.Document? && r.0.file.guilds.Keys == {g}
  {
    var f := Checked(s, g);
    if s.store.queue == [] then (WithFile(s, f), QueueEmpty)
    else (WithFile(s, GuildDocument(g, EntriesOf(s.store.queue))), Done)
  }

  /** `playlistadd *queries`: appends the (title, webpage) pair of each resolved query. The
      duplicate test compares a tuple with the stored JSON lists, so it only skips a pair
      already appended in the same call. */
  function Add(s: State, g: string, queries: seq<string>, resolve: string -> Resolution): (r: (State, Outcome))
    ensures Valid(s) ==> Valid(r.0)
    ensures r.0 == WithFile(s, r.0.file)
    ensures r.1 == Done || r.1.FileError?
    ensures r.1.FileError? <==> ReadPlaylistAsWritten(Checked(s, g), g).ReadFailed?
    ensures r.1.FileError? ==>
      (r.1.error == ReadPlaylistAsWritten(Checked(s, g), g).error && r.0.file == AfterError(r.1.error, Checked(s, g), g))
    ensures r.1 == Done ==>
      var before := Stored(Checked(s, g), g);
      var after := ReadPlaylistAsWritten(r.0.file, g);
      && after.Read?
      && |before| <= |after.entries| && after.entries[..|before|] == before
      && (forall e :: e in after.entries <==> e in before || e in EntriesOf(QueueOps.ResolveAll(queries, resolve)))
      && NoDuplicates(after.entries[|before|..])
      && (forall e :: e in EntriesOf(QueueOps.ResolveAll(queries, resolve)) ==> e in after.entries[|before|..])
  {
    var f := Checked(s, g);
    match ReadPlaylistAsWritten(f, g)
    case ReadFailed(e) => (WithFile(s, AfterError(e, f, g)), FileError(e))
    case Read(entries) =>
      (WithFile(s, GuildDocument(g, PlaylistAppendAsWritten(entries, EntriesOf(QueueOps.ResolveAll(queries, resolve))))), Done)
  }

  /** playlistadd stores a second copy of a pair the playlist already holds. */
  lemma AddRepeatsStoredPair(s: State, g: string, query: string, resolve: string -> Resolution, t: Track)
    requires s.file == GuildDocument(g, [EntryOf(t)]) && resolve(query) == Resolved(t)
    ensures var r := Add(s, g, [query], resolve);
      r.1 == Done && ReadPlaylistAsWritten(r.0.file, g) == Read([EntryOf(t), EntryOf(t)])
  {
    var e := EntryOf(t);
    assert [query][..0] == [];
    assert QueueOps.ResolveAll([query], resolve) == [t];
    assert EntriesOf([t]) == [e];
    assert Checked(s, g) == s.file;
    assert ReadPlaylistAsWritten(s.file, g) == Read([e]);
    PlaylistAppendDuplicates(e);
  }

  /** The duplicate test of playlistaddcurrent: some stored title equals this one once case
      and spaces are ignored. */
  predicate HasSameTitle(entries: seq<Entry>, title: string) {
    exists k :: 0 <= k < |entries| && SameTitle(title, entries[k].title)
  }

  /** `playlistaddcurrent`: appends the current track unless a stored title equals its title
      once case and spaces are ignored. The empty `data` dictionary raises inside the `try`,
      which ends the command; an empty title or webpage does nothing. */
  function AddCurrent(s: State, g: string): (r: (State, Outcome))
    ensures Valid(s) ==> Valid(r.0)
    ensures r.0 == WithFile(s, r.0.file)
    ensures s.current.data.None? ==> r == (WithFile(s, Checked(s, g)), Caught)
    ensures r.1 == AlreadyInPlaylist ==>
      (r.0.file == Checked(s, g) && HasSameTitle(Stored(Checked(s, g), g), s.current.data.value.title))
    ensures r.1 == Done <==> (s.current.data.Some? && s.current.data.value.title != "" && s.current.data.value.webpage != ""
      && ReadPlaylistAsWritten(Checked(s, g), g).Read?
      && !HasSameTitle(Stored(Checked(s, g), g), s.current.data.value.title))
    ensures r.1 == Done ==>
      var d := s.current.data.value;
      ReadPlaylistAsWritten(r.0.file, g) == Read(Stored(Checked(s, g), g) + [Entry(d.title, d.webpage)])
  {
    var f := Checked(s, g);
    match s.current.data
    case None => (WithFile(s, f), Caught)
    case Some(d) =>
      if d.title == "" || d.webpage == "" then (WithFile(s, f), Silent)
      else match ReadPlaylistAsWritten(f, g)
        case ReadFailed(e) => (WithFile(s, AfterError(e, f, g)), FileError(e))
        case Read(entries) =>
          if HasSameTitle(entries, d.title) then (WithFile(s, f), AlreadyInPlaylist)
          else (WithFile(s, GuildDocument(g, entries + [Entry(d.title, d.webpage)])), Done)
  }

  /** playlistaddcurrent refuses a title that differs from a stored one only in case and
      spaces, although the stored entry may point at another webpage. */
  lemma AddCurrentIgnoresCaseAndSpaces(s: State, g: string, stored: Entry)
    requires s.current.data.Some? && s.current.data.value.title != "" && s.current.data.value.webpage != ""
    requires s.file == GuildDocument(g, [stored])
    requires SameTitle(s.current.data.value.title, stored.title)
    ensures AddCurrent(s, g).1 == AlreadyInPlaylist
  {
    assert SameTitle(s.current.data.value.title, [stored][0].title);
  }

  /** `playlistdelete`: stores an empty playlist for this guild; with no file, it is only
      created. */
  function Delete(s: State, g: string): (r: (State, Outcome))
    ensures Valid(s) ==> Valid(r.0)
    ensures r.0 == WithFile(s, r.0.file)
    ensures r.1 == FileCreated <==> Created(s, g)
    ensures ReadPlaylistAsWritten(r.0.file, g) == Read([])
    ensures r.1 == Done ==> r.0.file == GuildDocument(g, [])
  {
    if Created(s, g) then (WithFile(s, Checked(s, g)), FileCreated)
    else (WithFile(s, GuildDocument(g, [])), Done)
  }

  /** `playlistqueue`: the titles of this guild's playlist. */
  function Queue(s: State, g: string): (r: (State, Outcome))
    ensures Valid(s) ==> Valid(r.0)
    ensures r.0 == WithFile(s, r.0.file)
    ensures r.1 == FileCreated <==> Created(s, g)
    ensures r.1.Titles? ==>
      (ReadPlaylistAsWritten(s.file, g).Read? && r.1.titles == TitlesOf(Stored(s.file, g), EntryTitle) && r.1.titles != [] && r.0 == s)
    ensures r.1 == NoTracks ==> ReadPlaylistAsWritten(s.file, g) == Read([]) && r.0 == s
  {
    if Created(s, g) then (WithFile(s, Checked(s, g)), FileCreated)
    else match ReadPlaylistAsWritten(s.file, g)
      case ReadFailed(e) => (WithFile(s, AfterError(e, s.file, g)), FileError(e))
      case Read(entries) =>
        if entries == [] then (s, NoTracks) else (s, Titles(TitlesOf(entries, EntryTitle)))
  }

  /** After playlistdelete, playlistqueue finds no tracks. */
  lemma DeleteThenQueue(s: State, g: string)
    ensures Queue(Delete(s, g).0, g).1 == NoTracks
  {
    CheckForJsonThenRead(s.file, g);
  }

  /** `playlistselect`: loads the whole playlist into the queue, clearing a non-empty queue
      first, by handing every webpage to add. Exceptions escaping add are caught here. */
  function Select(s: State, g: string, resolve: string -> Resolution, v: Voice, now: int, pick: nat, ok: bool): (r: (State, Outcome))
    ensures Valid(s) ==> Valid(r.0)
    ensures r.1 == FileCreated <==> Created(s, g)
    ensures r.1 == NoTracks ==> ReadPlaylistAsWritten(s.file, g) == Read([]) && r.0 == s
    ensures r.1 != Raised
    ensures ReadPlaylistAsWritten(s.file, g).Read? && Stored(s.file, g) != [] && !Created(s, g) ==>
      var entries := Stored(s.file, g);
      var start := if s.store.queue != [] then QueueCommands.Clear(s).0 else s;
      var a := QueueCommands.Add(start, Webpages(entries), resolve, v, now, pick, ok);
      r == (a.0, if a.1 == Raised then Caught else a.1)
  {
    if Created(s, g) then (WithFile(s, Checked(s, g)), FileCreated)
    else match ReadPlaylistAsWritten(s.file, g)
      case ReadFailed(e) => (WithFile(s, AfterError(e, s.file, g)), FileError(e))
      case Read(entries) =>
        if entries == [] then (s, NoTracks)
        else
          var start := if s.store.queue != [] then QueueCommands.Clear(s).0 else s;
          var a := QueueCommands.Add(start, Webpages(entries), resolve, v, now, pick, ok);
          (a.0, if a.1 == Raised then Caught else a.1)
  }

  /** Selecting a playlist while something plays replaces the queue with the resolved
      playlist, whatever the busy flag says: clear does not test it, and add runs on the
      unlocked queue clear leaves. */
  lemma SelectReplacesQueue(s: State, g: string, resolve: string -> Resolution, v: Voice, now: int, pick: nat, ok: bool)
    requires v.playing && s.store.queue != []
    requires ReadPlaylistAsWritten(s.file, g).Read? && Stored(s.file, g) != [] && !Created(s, g)
    ensures var r := Select(s, g, resolve, v, now, pick, ok);
      r.1 == Done && r.0.store.queue == QueueOps.ResolveAll(Webpages(Stored(s.file, g)), resolve)
  {
  }

  /** `playlistfetch *names`: hands add the webpage of every entry each name fuzzily matches,
      name by name. An exception escaping add escapes this command too. */
  function Fetch(s: State, g: string, names: seq<string>, resolve: string -> Resolution, v: Voice, now: int, pick: nat, ok: bool): (r: (State, Outcome))
    ensures Valid(s) ==> Valid(r.0)
    ensures r.1 == FileCreated <==> Created(s, g)
    ensures !Created(s, g) && names == [] ==> r == (s, NoQuery)
    ensures r.1 == NoMatch ==> (r.0 == s && ReadPlaylistAsWritten(s.file, g).Read? && FetchUrlsOf(s, g, names) == [])
    ensures (!Created(s, g) && names != [] && ReadPlaylistAsWritten(s.file, g).Read? && Stored(s.file, g) != []
      && FetchUrlsOf(s, g, names) != []) ==>
      r == QueueCommands.Add(s, FetchUrlsOf(s, g, names), resolve, v, now, pick, ok)
  {
    if Created(s, g) then (WithFile(s, Checked(s, g)), FileCreated)
    else if names == [] then (s, NoQuery)
    else match ReadPlaylistAsWritten(s.file, g)
      case ReadFailed(e) => (WithFile(s, AfterError(e, s.file, g)), FileError(e))
      case Read(entries) =>
        if entries == [] then (s, NoTracks)
        else
          var urls := QueueOps.FetchUrls(entries, names);
          if urls == [] then (s, NoMatch)
          else QueueCommands.Add(s, urls, resolve, v, now, pick, ok)
  }

  /** The webpages playlistfetch collects from the stored playlist. */
  function FetchUrlsOf(s: State, g: string, names: seq<string>): seq<string> {
    match ReadPlaylistAsWritten(s.file, g)
    case Read(entries) => QueueOps.FetchUrls(entries, names)
    case ReadFailed(_) => []
  }

  /** playlistfetch queries exactly the webpages of entries some name matches. */
  lemma FetchQueriesMatches(s: State, g: string, names: seq<string>, u: string)
    requires ReadPlaylistAsWritten(s.file, g).Read?
    ensures var entries := Stored(s.file, g);
      u in FetchUrlsOf(s, g, names) <==>
        exists i, j :: 0 <= i < |names| && 0 <= j < |entries| && entries[j].webpage == u && Matches(names[i], entries[j].title)
  {
    var entries := Stored(s.file, g);
    if u in FetchUrlsOf(s, g, names) {
      QueueOps.FetchUrlsSound(entries, names, u);
    }
    if exists i, j :: 0 <= i < |names| && 0 <= j < |entries| && entries[j].webpage == u && Matches(names[i], entries[j].title) {
      var i, j :| 0 <= i < |names| && 0 <= j < |entries| && entries[j].webpage == u && Matches(names[i], entries[j].title);
      QueueOps.FetchUrlsComplete(entries, names, i, j);
    }
  }

  /** `playlistremove *names`: `remove_track` on the stored pairs, then the rest is stored. */
  function Remove(s: State, g: string, names: seq<string>): (r: (State, Outcome))
    ensures Valid(s) ==> Valid(r.0)
    ensures r.0 == WithFile(s, r.0.file)
    ensures r.1 == FileCreated <==> Created(s, g)
    ensures r.1 == NoTracks ==> ReadPlaylistAsWritten(s.file, g) == Read([]) && r.0 == s
    ensures r.1.Removed? ==>
      ReadPlaylistAsWritten(s.file, g).Read? &&
      var rm := QueueOps.RemoveNames(Stored(s.file, g), EntryTitle, names);
      && r.0.file == GuildDocument(g, rm.rest)
      && r.1 == Removed(TitlesOf(rm.removed, EntryTitle), rm.notFound)
  {
    if Created(s, g) then (WithFile(s, Checked(s, g)), FileCreated)
    else match ReadPlaylistAsWritten(s.file, g)
      case ReadFailed(e) => (WithFile(s, AfterError(e, s.file, g)), FileError(e))
      case Read(entries) =>
        if entries == [] then (s, NoTracks)
        else
          var rm := QueueOps.RemoveNames(entries, EntryTitle, names);
          (WithFile(s, GuildDocument(g, rm.rest)), Removed(TitlesOf(rm.removed, EntryTitle), rm.notFound))
  }

  /** What playlistremove stores: the entries left keep their order, and together with the
      removed ones they are the old playlist. */
  lemma RemoveKeepsRest(s: State, g: string, names: seq<string>)
    requires Remove(s, g, names).1.Removed?
    ensures var entries := Stored(s.file, g);
      var left := Stored(Remove(s, g, names).0.file, g);
      var rm := QueueOps.RemoveNames(entries, EntryTitle, names);
      IsSubseq(left, entries) && multiset(left) + multiset(rm.removed) == multiset(entries)
  {
    var entries := Stored(s.file, g);
    QueueOps.RemoveNamesConserves(entries, EntryTitle, names);
    QueueOps.RemoveNamesKeepsOrder(entries, EntryTitle, names);
  }

  /** `playlistreposition name index` with a 1-based index. The busy flag is cleared on
      every path, so only the playlist file and the reply change. */
  function Reposition(s: State, g: string, name: string, index: int): (r: (State, Outcome))
    ensures Valid(s) ==> Valid(r.0)
    ensures r.1 == FileCreated <==> Created(s, g)
    ensures !Created(s, g) && s.modes.isModifyingPlaylist ==> r == (s, Busy)
    ensures r.0 == WithFile(s, r.0.file)
    ensures r.1 == OutOfRange ==>
      (r.0 == s && ReadPlaylistAsWritten(s.file, g).Read? && !(1 <= index <= |Stored(s.file, g)| + 1))
    ensures r.1 == SamePosition ==> r.0.file == GuildDocument(g, Stored(s.file, g))
    ensures r.1 == Done ==> RepositionStored(s.file, r.0.file, g, name, index)
  {
    if Created(s, g) then (WithFile(s, Checked(s, g)), FileCreated)
    else if s.modes.isModifyingPlaylist then (s, Busy)
    else
      var (f, o) := RepositionFile(s.file, g, name, index);
      (WithFile(s, f), o)
  }

  /** The part of playlistreposition past its guards: read, range check, move, write. The
      range check admits one past the last entry, where `insert` appends. */
  function RepositionFile(file: PlaylistFile, g: string, name: string, index: int): (r: (PlaylistFile, Outcome))
    ensures r.1 != FileCreated && r.1 != Busy
    ensures r.1 in {OutOfRange, NoTracks, Caught} ==> r.0 == file
    ensures r.1 == OutOfRange ==> ReadPlaylistAsWritten(file, g).Read? && !(1 <= index <= |Stored(file, g)| + 1)
    ensures r.1 == SamePosition ==> r.0 == GuildDocument(g, Stored(file, g))
    ensures r.1 == Done ==> RepositionStored(file, r.0, g, name, index)
    ensures ReadPlaylistAsWritten(file, g).ReadFailed? ==>
      r == (AfterError(ReadPlaylistAsWritten(file, g).error, file, g), FileError(ReadPlaylistAsWritten(file, g).error))
  {
    match ReadPlaylistAsWritten(file, g)
    case ReadFailed(e) => (AfterError(e, file, g), FileError(e))
    case Read(entries) =>
      if entries == [] then (file, NoTracks)
      else if index - 1 < 0 || index - 1 > |entries| then (file, OutOfRange)
      else match QueueOps.Reposition(entries, EntryTitle, name, index - 1)
        case NotInQueue => (file, Caught)
        case SameIndex => (GuildDocument(g, entries), SamePosition)
        case Moved(_, q) => (GuildDocument(g, q), Done)
  }

  /** What a successful playlistreposition stores: the first entry the name matches, found
      at another index, is taken out and put back at the requested slot (the last slot for one
      past the end), the other entries keeping their order. */
  predicate RepositionStored(before: PlaylistFile, after: PlaylistFile, g: string, name: string, index: int) {
    var entries := Stored(before, g);
    && ReadPlaylistAsWritten(before, g).Read? && entries != [] && 1 <= index <= |entries| + 1
    && after.Document? && after.guilds.Keys == {g}
    && |after.guilds[g]| == |entries|
    && multiset(after.guilds[g]) == multiset(entries)
    && FirstMatch(entries, EntryTitle, name).Some?
    && var i := FirstMatch(entries, EntryTitle, name).value;
      var p := Min(index - 1, |entries| - 1);
      && i != index - 1 && after.guilds[g][p] == entries[i] && Matches(name, entries[i].title)
      && RemoveAt(after.guilds[g], p) == RemoveAt(entries, i)
  }

  /** The index one past the end is accepted and moves the entry to the end. */
  lemma RepositionPastEndAppends(s: State, g: string, a: Entry, b: Entry, name: string)
    requires !Created(s, g) && !s.modes.isModifyingPlaylist
    requires s.file == GuildDocument(g, [a, b]) && Matches(name, a.title)
    ensures Reposition(s, g, name, 3) == (WithFile(s, GuildDocument(g, [b, a])), Done)
  {
    assert FirstMatch([a, b], EntryTitle, name) == Some(0);
    assert RemoveAt([a, b], 0) == [b];
    assert InsertAt([b], 2, a) == [b, a];
  }

  /** `playlistshuffle`: stores a permutation of the playlist. An empty playlist returns
      before the `try` whose `finally` clears the busy flag, so the flag stays set. */
  function Shuffle(s: State, g: string, draw: nat -> nat): (r: (State, Outcome))
    ensures Valid(s) ==> Valid(r.0)
    ensures r.1 == FileCreated <==> Created(s, g)
    ensures !Created(s, g) && s.modes.isModifyingPlaylist ==> r == (s, Busy)
    ensures r.1 == NoTracks ==> r.0 == WithPlaylistBusy(s, true) && ReadPlaylistAsWritten(s.file, g) == Read([])
    ensures r.1 != NoTracks ==> r.0 == WithFile(s, r.0.file)
    ensures r.1 == Done ==>
      && ReadPlaylistAsWritten(s.file, g).Read?
      && r.0.file.Document? && r.0.file.guilds.Keys == {g}
      && multiset(r.0.file.guilds[g]) == multiset(Stored(s.file, g))
  {
    if Created(s, g) then (WithFile(s, Checked(s, g)), FileCreated)
    else if s.modes.isModifyingPlaylist then (s, Busy)
    else match ReadPlaylistAsWritten(s.file, g)
      case ReadFailed(e) => (WithFile(s, AfterError(e, s.file, g)), FileError(e))
      case Read(entries) =>
        if entries == [] then (WithPlaylistBusy(s, true), NoTracks)
        else (WithFile(s, GuildDocument(g, QueueOps.Shuffled(entries, draw))), Done)
  }

  /** Shuffling an empty playlist leaves the flag set, so playlistshuffle, playlistreposition,
      playlistrewrite and playlistgetindex all answer that the playlist is busy until `reset`
      clears it. */
  lemma ShuffleEmptyLocks(s: State, g: string, draw: nat -> nat, name: string, index: int)
    requires !Created(s, g) && !s.modes.isModifyingPlaylist && ReadPlaylistAsWritten(s.file, g) == Read([])
    ensures var r := Shuffle(s, g, draw).0;
      Shuffle(r, g, draw).1 == Busy && Reposition(r, g, name, index).1 == Busy
      && Rewrite(r, g).1 == Busy && GetIndex(r, g, name) == (r, Busy)
  {
  }

  /** `playlistrewrite`: replaces whatever file there is with this guild's empty playlist. */
  function Rewrite(s: State, g: string): (r: (State, Outcome))
    ensures Valid(s) ==> Valid(r.0)
    ensures s.modes.isModifyingPlaylist ==> r == (s, Busy)
    ensures !s.modes.isModifyingPlaylist ==> r == (WithFile(s, GuildDocument(g, [])), Done)
  {
    if s.modes.isModifyingPlaylist then (s, Busy) else (WithFile(s, GuildDocument(g, [])), Done)
  }

  /** A rewrite repairs any file: afterwards this guild reads an empty playlist. */
  lemma RewriteRepairs(s: State, g: string)
    requires !s.modes.isModifyingPlaylist
    ensures ReadPlaylistAsWritten(Rewrite(s, g).0.file, g) == Read([]) && Rewrite(s, g).1 == Done
  {
  }

  /** `playlistgetindex name`: the 1-based position and title of the first fuzzy match in
      the playlist. It reads without `check_for_json`. */
  function GetIndex(s: State, g: string, name: string): (r: (State, Outcome))
    ensures Valid(s) ==> Valid(r.0)
    ensures r.0 == WithFile(s, r.0.file)
    ensures s.modes.isModifyingPlaylist ==> r == (s, Busy)
    ensures r.1.At? ==>
      var entries := Stored(s.file, g);
      && ReadPlaylistAsWritten(s.file, g).Read? && r.0 == s
      && 1 <= r.1.position <= |entries| && r.1.title == entries[r.1.position - 1].title
      && Matches(name, r.1.title)
      && forall j :: 0 <= j < r.1.position - 1 ==> !Matches(name, entries[j].title)
    ensures r.1.FileError? ==> r.0.file == AfterError(r.1.error, s.file, g)
    ensures r.1 == NoMatch ==> r.0 == s
  {
    if s.modes.isModifyingPlaylist then (s, Busy)
    else match ReadPlaylistAsWritten(s.file, g)
      case ReadFailed(e) => (WithFile(s, AfterError(e, s.file, g)), FileError(e))
      case Read(entries) =>
        if entries == [] then (s, NoTracks)
        else
          var f := GetTrackIndex(entries, EntryTitle, name);
          if ReportsFound(f) then (s, At(f.value.0 + 1, f.value.1)) else (s, NoMatch)
  }

  /** playlistgetindex on a missing file reports a failed read and leaves the file missing,
      so every later call fails the same way. */
  lemma GetIndexMissingFile(s: State, g: string, name: string)
    requires s.file == Missing && !s.modes.isModifyingPlaylist
    ensures var r := GetIndex(s, g, name);
      r == (s, FileError(OsError)) && GetIndex(r.0, g, name) == r
  {
  }
}
