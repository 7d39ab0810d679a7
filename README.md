# Mixer: a verified model of the music cog

This project models the `Mixer` cog of a Discord music bot (`music.py`). The model covers:

- its **queue store**: the per-guild track queue, its loop snapshot `queue_to_loop` and the track to loop, together with the commands that edit them;
- its **playback state machine**: `play_track`, `play_next` and the commands around them;
- its **playlist file**: a JSON document mapping guild ids to lists of (title, webpage) pairs, and the `playlist*` commands over it;
- the **pure helpers** those build on: `format_time`, `get_seconds`, the truncating list renderers, `remove_duplicates` and `get_track_index`.

Each piece comes in two forms:

- Functions in `Player`, `QueueCommands` and `PlaylistCommands`. Each takes the state before a command, plus what the voice client, the clock, the resolver and FFmpeg report, and returns the state after the command and its reply (`Outcome`). The properties of the commands are proved about these functions.
- The class `Mixer.Mixer`. It holds the cog's fields and has one method per command. The methods update the fields step by step, with the cog's own loops, `pop`, `insert`, `remove` and `append`. Each method is proved to leave the fields exactly as the matching function says. The loops are static methods next to the class, proved against the value-level definitions in `QueueOps`, `Tracks` and `Playlists`.

The class keeps eighteen of the cog's fields in four records, plus the playlist file:

| record | fields |
|---|---|
| `store` | `queue`, `queue_to_loop`, `track_to_loop` |
| `current` | `data`, `current_track`, `track_duration`, `thumbnail_url`, `webpage`, `source`, `queue_history` |
| `clock` | `start_time`, `last_elapsed_time`, `after` |
| `modes` | `is_looping`, `is_random`, `is_looping_queue`, `is_modifying_queue`, `is_modifying_playlist` |
| `file` | the playlist file on disk |

`thumbnail_url` is set only by `play_track`, not by `__init__`. Four fields that `__init__` sets are not held:

- `client` is Discord plumbing; it only schedules the `play_next` callback.
- `voice_client` is the voice client, which comes in as the `Voice` parameter.
- `file_lock` belongs to `asyncio`, which is left out.
- `is_playing` is assigned in `__init__` and never read.

Each command replaces the records it changes.

Modules (one per file):

- `Wrappers`: `Option`.
- `Text`: ASCII lower-casing, deletion of spaces, the fuzzy match, `strip`, `join`.
- `TimeFormat`: `format_time` and `get_seconds`, with `str(int)` and `int(str)`.
- `Tracks`: the 5-tuple `Track`, the pair `Entry`, the list primitives and the first-match search.
- `Render`: the listings.
- `QueueOps`: `remove_track`, `reposition_track`, `remove_duplicates`, the sort, the shuffle, append-if-absent and the fetch URLs.
- `Playlists`: the file, `check_for_json`, `read_playlist`, `handle_error`, the append of playlistadd.
- `Player`: the state and the playback commands.
- `QueueCommands` and `PlaylistCommands`: the other commands.
- `Mixer`: the class.

Behaviour of the source that is reproduced as written, not corrected:

- `add` checks the 100-track limit once, before its query loop. One `add` can therefore grow the queue past 100.
- When `play_next` raises out of `add`, the busy flag `is_modifying_queue` stays set.
- When `reposition` refuses an out-of-range position, it keeps the busy flag set, which locks the queue.
- When `reposition_track` finds no match, it reads an unbound variable. The exception is caught and nothing changes.
- `sort` sets the busy flag while it runs and clears it at the end. Its snapshot refresh `queue_to_loop.copy()` discards its result, so the snapshot keeps its old order.
- `stop` refuses whenever the voice client is not playing, so it refuses while paused.
- `rewind` and `forward` test the step's sign before they read `data`. A step of zero or less is refused even when `data` is empty.
- `rewind` and `forward` range-check only the step. The new position can be negative, or beyond the duration.
- `play_next`: the `queue` test inside its main branch cannot fail unless queue looping is on with an empty snapshot. That case is the `IndexError` escaping `pop`.
- `select` on an empty queue reads an unbound `found` and ends in the caught exception.
- `playlistadd` appends a pair that is already stored (see Findings).
- A missing playlist file is read as "os_error" and stays missing in the commands that read without `check_for_json`, such as `playlistgetindex` (see Findings).
- `playlistcreate`, `playlistadd` and `playlistaddcurrent` carry on after `check_for_json` creates a missing file. `playlistdelete`, `playlistselect`, `playlistqueue`, `playlistfetch`, `playlistremove`, `playlistreposition` and `playlistshuffle` return there. `playlistrewrite` and `playlistgetindex` do not call `check_for_json`.
- `playlistreposition` accepts the index one past the last entry. `insert` then appends there.
- `playlistshuffle` on an empty playlist returns before the `try` whose `finally` clears `is_modifying_playlist`. The flag then stays set until `reset`.
- `playlistselect` catches an exception escaping `add`. `playlistfetch` does not.
- The getindex commands test `not index and not title`. A match at the head with an empty title is therefore reported as not found.

## Model

| member | source | states |
|---|---|---|
| Text.LowerStr | music.py:146 | `str.lower()` on ASCII keeps the length |
| Text.LowerStrAt | music.py:146 | lower-casing works character by character |
| Text.DeleteSpaces | music.py:146 | `replace(" ", "")` never lengthens a string |
| Text.DeleteSpacesFacts | music.py:146 | no space is left, and a string without spaces is unchanged |
| Text.ContainsIffOccurs | music.py:146 | the `in` test on strings holds exactly when the pattern occurs at some index |
| Text.LowerIdempotent | music.py:146 | lower-casing twice is lower-casing once |
| Text.DeleteSpacesIdempotent | music.py:146 | deleting spaces twice is deleting them once |
| Text.LowerDeleteCommute | music.py:146 | lower-casing and deleting spaces commute |
| Text.FoldIdempotent | music.py:146 | the normal form of titles and queries is idempotent |
| Text.MatchesIgnoresCaseAndSpaces | music.py:146 | the fuzzy match gives the same answer on the folded query and title |
| Text.SameTitleMatches | music.py:1669-1677 | titles equal up to case and spaces also match fuzzily, both ways |
| Text.BlankQueryMatchesAll | music.py:1281 | a query made of spaces matches every title |
| Text.EmptyTitleMatchesAll | music.py:2105 | a query that matches the empty title matches every title |
| Text.BlankFoldsToEmpty | music.py:146 | a string of spaces folds to the empty string |
| Text.Matches | music.py:146 | the fuzzy test: the query, lower-cased and without spaces, occurs in the title treated the same way |
| Text.Join | music.py:79 | `sep.join(parts)`: the parts in order with the separator between neighbours |
| Text.TrimLeft | music.py:72 | no longer than the input, does not start with whitespace, and is the input itself when that does not start with whitespace |
| Text.TrimRight | music.py:72 | no longer than the input, does not end with whitespace, and is the input itself when that does not end with whitespace |
| Text.Strip | music.py:72-76 | `strip()`: no leading or trailing whitespace, and a string without surrounding whitespace is unchanged |
| Text.TrimLeftRemovesSpace | music.py:72 | only whitespace goes: the input is whitespace followed by the result |
| Text.TrimRightRemovesSpace | music.py:72 | only whitespace goes: the input is the result followed by whitespace |
| Text.StripRemovesOnlySpace | music.py:72-76 | `strip()` yields a slice of the input with only whitespace around it |
| TimeFormat.DigitChar | music.py:24 | the digit character has the digit's value |
| TimeFormat.NatToString | music.py:24 | `str(n)` is a non-empty string of digits |
| TimeFormat.IntToString | music.py:24 | `str(i)`: a minus sign exactly for a negative number, then digits |
| TimeFormat.NumeralOf | music.py:28 | the numerals `int` accepts, digits with single underscores between them; a plain digit string reads as its decimal value |
| TimeFormat.ParseInt | music.py:28 | `int(s)`: surrounding whitespace stripped, an optional sign; digits read as their value, a minus sign then digits as its negation |
| TimeFormat.NatToStringValue | music.py:24-28 | the digits of `str(n)` have value `n` |
| TimeFormat.ParseIntToString | music.py:24-28 | `int(str(i)) == i` for every integer, negative ones included |
| TimeFormat.Pad2TwoDigits | music.py:24 | `{:02d}` below 100 is exactly two digits with the same value |
| TimeFormat.ParsePad2 | music.py:24-28 | the padded seconds read back as their value |
| TimeFormat.FormatTime | music.py:20-24 | `format_time` ends in ':' and two digits whose value is the seconds part, in 0..59 |
| TimeFormat.IndexOfChar | music.py:27 | the first position of the separator |
| TimeFormat.Split | music.py:27 | `split` always yields at least one piece, and a string without the separator splits into itself |
| TimeFormat.SplitAtSep | music.py:27 | splitting at the first separator yields the part before it, then the splits of the rest |
| TimeFormat.DigitsHaveNoColon | music.py:27 | a digit string contains no ':' |
| TimeFormat.IntStringHasNoColon | music.py:24-27 | `str(i)` contains no ':' |
| TimeFormat.GetSeconds | music.py:26-30 | `get_seconds`: the two pieces around the first ':' read as minutes and seconds; a text without ':' is refused |
| TimeFormat.SplitFormatTime | music.py:20-27 | `format_time(n)` splits into `str(n // 60)` and the padded seconds |
| TimeFormat.GetSecondsOfPieces | music.py:26-30 | a text that splits into those two pieces reads as `n` |
| TimeFormat.GetSecondsFormatTime | music.py:20-30 | `get_seconds(format_time(n)) == n` for every integer |
| Tracks.TitlesOf | music.py:79 | the titles of a list, in order, one per element |
| Tracks.EntriesOf | music.py:1530-1532 | the (title, webpage) pair of each queued track, in order |
| Tracks.Webpages | music.py:1759-1760 | the webpage of each entry, in order |
| Tracks.FirstMatch | music.py:145-158 | the index of the first fuzzy match: a match with no match before it, or none when nothing matches |
| Tracks.FindFirst | music.py:145-158 | the search loop agrees with the first match, returning the length when there is none |
| Tracks.GetTrackIndex | music.py:2056-2079 | the index and title of the first fuzzy match, or none exactly when nothing matches |
| Tracks.RemoveAt | music.py:151 | `pop(i)`: one shorter, the elements before `i` kept, the later ones moved down one |
| Tracks.RemoveAtMultiset | music.py:151 | `pop(i)` removes exactly the element at `i` |
| Tracks.InsertAt | music.py:152 | `insert(i, x)`: `x` at `i` (at the end past the end), the rest in order, one element added |
| Tracks.IndexOf | music.py:552 | `index(x)`: the first position of `x`, or none exactly when `x` is absent |
| Tracks.RemoveFirst | music.py:204-205 | `remove(x)` drops the first occurrence of `x` and nothing else |
| Tracks.RemoveFirstSubseq | music.py:204-205 | `remove(x)` keeps the order of the rest |
| Tracks.SubseqRefl | music.py:196-225 | every list is a subsequence of itself |
| Tracks.SubseqTrans | music.py:196-225 | being a subsequence is transitive |
| Tracks.SubseqRemoveAt | music.py:196-225 | `pop(i)` leaves a subsequence |
| Tracks.SubseqLength | music.py:196-225 | a subsequence is no longer and holds no more of any element |
| Render.Truncate | music.py:79-92 | at most 1024 characters; a fitting string is kept; a longer one keeps 1009 characters and gets the marker |
| Render.StrippedTitles | music.py:67-77 | the stripped title of each element, in order |
| Render.GetTracks | music.py:67-84 | `get_tracks`: the stripped titles joined by ", ", then cut to fit; Render.ListingsFit states its bounds |
| Render.GetSingleTrackQueue | music.py:86-92 | `get_single_track_queue`: the titles joined by ", ", then cut to fit; Render.ListingsFit states its bounds |
| Render.GetPlaylistTracks | music.py:1496-1501 | the playlist listing is at most 1023 characters |
| Render.ListingsFit | music.py:67-92 | both queue listings fit 1024 characters; a fitting listing is shown whole; a cut listing keeps its beginning; likewise for the playlist listing with 1010 characters |
| Render.SingleListing | music.py:67-84 | a one-track list is shown as its stripped title |
| QueueOps.RemoveOne | music.py:196-225 | one name of `remove_track`: its first fuzzy match is popped, or the name is reported once |
| QueueOps.RemoveNames | music.py:196-225 | the name loop of `remove_track`, names taken in order |
| QueueOps.RemoveNamesConserves | music.py:196-225 | what is left plus what is popped is the input; each name pops at most one element or is reported |
| QueueOps.RemoveNamesAccountsForNames | music.py:196-225 | every name is reported as not found or matches a popped element |
| QueueOps.RemoveNamesKeepsOrder | music.py:196-225 | the elements left keep their order |
| QueueOps.RemoveNamesNotFoundOnce | music.py:196-225 | a name reported as not found is an argument, reported once |
| QueueOps.RemoveNamesNotFoundUnmatched | music.py:196-225 | a name reported as not found matches nothing left |
| QueueOps.RemoveSingleName | music.py:196-225 | one name pops its first match, or leaves the list unchanged and is reported |
| QueueOps.RemoveEach | music.py:204-205 | the snapshot side: each popped track drops its first copy there, when there is one |
| QueueOps.RemoveEachOnlyRemoves | music.py:204-205 | the loop snapshot only loses elements, at most one per pop, and keeps its order |
| QueueOps.RemoveEachMultiset | music.py:204-205 | the snapshot loses exactly one copy of each popped track it holds: a multiset difference |
| QueueOps.RemoveEachKeepsOthers | music.py:204-205 | a track that was not popped keeps all its copies in the snapshot |
| QueueOps.RemoveFromPlaylist | music.py:211-225 | the loops of `remove_track` on playlist pairs agree with the list-level removal |
| QueueOps.Reposition | music.py:133-189 | no match; or the match already at the target; or a permutation with the match at the target (at the end past the end) |
| QueueOps.RepositionAgainIsNoOp | music.py:133-189 | after a move inside the list, the same request is a no-op when nothing earlier matches |
| QueueOps.RepositionAgainCanMove | music.py:133-189 | with two matches, repeating the request moves a different track |
| QueueOps.RepositionSnapshot | music.py:154-156 | a track in the snapshot moves to the same index there, the other tracks keeping their order; without it the snapshot is unchanged |
| QueueOps.RepositionIn | music.py:133-189 | the search loop plus `pop`/`insert` agrees with the list-level definition |
| QueueOps.TitleIndex | music.py:102-112 | the first track with exactly this title |
| QueueOps.DedupeFromShape | music.py:102-112 | the kept tracks are a subsequence, with distinct titles not seen before |
| QueueOps.DedupeFromCovers | music.py:102-112 | every title not yet seen survives |
| QueueOps.DedupeFromKeepsFirst | music.py:102-112 | every kept track is the first occurrence of its title |
| QueueOps.DedupeFromIdentity | music.py:102-112 | a list with distinct, unseen titles passes through unchanged |
| QueueOps.RemoveDuplicates | music.py:102-112 | `remove_duplicates`: the tracks whose title was not seen before, in order |
| QueueOps.RemoveDuplicatesSpec | music.py:102-112 | `remove_duplicates` keeps exactly the first track of each title, in order, and is idempotent |
| QueueOps.RemoveDuplicatesExample | music.py:102-112 | of two tracks with one title, the later one goes |
| QueueOps.Less | music.py:1170 | Python's string order: code points compared left to right, a proper prefix first |
| QueueOps.LessIrreflexive | music.py:1170 | string order is irreflexive |
| QueueOps.LessAsymmetric | music.py:1170 | string order is asymmetric |
| QueueOps.LessTransitive | music.py:1170 | string order is transitive |
| QueueOps.LessTotal | music.py:1170 | of two distinct strings, one is smaller |
| QueueOps.NotLessTransitive | music.py:1170 | "not greater" is transitive |
| QueueOps.InsertByTitle | music.py:1170 | one insertion step adds exactly the track |
| QueueOps.InsertByTitleSorted | music.py:1170 | inserting into a sorted list keeps it sorted |
| QueueOps.WithTitleCons | music.py:1170 | the tracks of one title, for a list with a new head |
| QueueOps.InsertByTitleWithTitle | music.py:1170 | inserting a track puts it after the earlier tracks of its title |
| QueueOps.SortByTitle | music.py:1170 | `sorted(..., key=title)` is a permutation |
| QueueOps.SortByTitleSpec | music.py:1170 | the sort orders by title, is a permutation, and is stable |
| QueueOps.SortSortedIsIdentity | music.py:1170 | sorting a list already sorted by title changes nothing |
| QueueOps.ShuffleFrom | music.py:94-97 | each Fisher-Yates step keeps the list's elements |
| QueueOps.Shuffled | music.py:94-97 | `random.shuffle` yields a permutation, whatever the draws |
| QueueOps.AppendAbsent | music.py:496-498 | each added element is appended unless already present |
| QueueOps.AppendAbsentSpec | music.py:496-498 | the old list stays in front; every added element is present; nothing else is added; no repeats are created |
| QueueOps.ResolveAll | music.py:475-500 | the resolved tracks, in query order, failed queries skipped |
| QueueOps.ResolveAllMembers | music.py:475-500 | a track is resolved exactly when some query resolves to it |
| QueueOps.MatchingUrls | music.py:1840-1842 | the webpages of the entries a name matches |
| QueueOps.MatchingUrlsComplete | music.py:1839-1842 | every matching entry contributes its webpage |
| QueueOps.MatchingUrlsSound | music.py:1839-1842 | every collected webpage comes from a matching entry |
| QueueOps.FetchUrls | music.py:1839-1842 | the webpages the names match, name by name |
| QueueOps.FetchUrlsComplete | music.py:1839-1842 | every (name, matching entry) pair contributes the entry's webpage |
| QueueOps.FetchUrlsSound | music.py:1839-1842 | every fetched webpage belongs to an entry some name matches |
| Playlists.GuildDocument | music.py:1530-1541 | a written document holds this guild only, with the given entries |
| Playlists.CheckForJson | music.py:1422-1438 | a missing or empty file becomes this guild's empty playlist and reports `false`; any other file is kept |
| Playlists.ReadPlaylistAsWritten | music.py:1458-1479 | as written: a read succeeds exactly on a document with the guild; "not_found" never comes back |
| Playlists.ReadPlaylist | music.py:1458-1479 | an absent file is "not_found"; an empty or unparsable one is "os_error"; a missing guild is "key_error" |
| Playlists.MissingFileReportedAsOsError | music.py:1468-1473 | the two readings differ on the missing file, and only there |
| Playlists.AfterError | music.py:1440-1456 | only "not_found" touches the file, recreating it so that the guild reads an empty playlist |
| Playlists.MissingFileStaysMissing | music.py:1440-1473 | as written, a missing file is reported as "os_error" and stays missing |
| Playlists.MissingFileRecovers | music.py:1440-1479 | as intended, a missing file, read and handled, then reads as an empty playlist |
| Playlists.ReadAfterWrite | music.py:1458-1494 | a write reads back as written, and no other guild is left |
| Playlists.CheckForJsonThenRead | music.py:1422-1479 | after `check_for_json` the file is never missing or empty |
| Playlists.PlaylistAppendAsWritten | music.py:1593-1596 | playlistadd as written: the old playlist in front, exactly the old and new pairs present, every new pair among the appended ones, no repeats among them |
| Playlists.PlaylistAppend | music.py:1593-1596 | intended append: the old playlist in front, exactly the old and new entries present, no repeats created |
| Playlists.PlaylistAppendDuplicates | music.py:1593-1596 | as written, re-adding a stored entry stores it twice |
| Playlists.PlaylistAppendAgrees | music.py:1593-1596 | both readings agree when nothing added is already stored |
| Player.Init | music.py:35-57 | the `__init__` values: empty queue, history and data; `after` set; all flags off |
| Player.Reset | music.py:244-262 | every field back to its `__init__` value except `thumbnail_url`; the invariant holds |
| Player.Record | music.py:322-324 | a title enters the history once, appended only when absent |
| Player.PlayTrack | music.py:287-340 | the elapsed time is refreshed; on success the clock restarts at `seconds` and the track is described; nothing else changes |
| Player.Refill | music.py:546-547 | with queue looping, an empty queue is refilled from the snapshot |
| Player.PickIndex | music.py:552 | the random pick is the first index holding the chosen track |
| Player.StartTrack | music.py:551-563 | the clock restarts at `now`; when FFmpeg starts the track is described and recorded in the history, otherwise only `data` is set; the store, modes and file are unchanged |
| Player.PlayNext | music.py:521-578 | a cleared `after` only sets it; one listener disconnects; looping replays; otherwise one track is popped and remembered; an idle empty queue clears queue looping |
| Player.Skip | music.py:581-609 | `skip` stops playback only with something next, not busy, and playing or paused, switching looping off |
| Player.Stop | music.py:403-429 | `stop` resets, except while it refuses or raises |
| Player.Pause | music.py:612-632 | `pause` freezes the elapsed time |
| Player.Resume | music.py:634-653 | `resume` moves the start so that the frozen time continues |
| Player.Seek | music.py:656-688 | `seek` succeeds exactly on a parseable position within the duration, replaying from it |
| Player.Jump | music.py:690-762 | the shared step of rewind and forward, on the parsed step: refused when not playing, on an unparseable step and on a step of zero or less before `data` is read; an empty `data` raises; a step beyond the duration is refused; otherwise it replays at the target |
| Player.Rewind | music.py:690-725 | `rewind` succeeds exactly while playing with a step in 1..duration, replaying from the elapsed time minus the step; otherwise nothing changes |
| Player.Forward | music.py:727-762 | `forward` succeeds exactly while playing with a step in 1..duration, replaying from the elapsed time plus the step; otherwise nothing changes |
| Player.Restart | music.py:851-874 | `restart` replays from 0 while playing or paused: the clock restarts at `now` and, when FFmpeg starts, the track is described again |
| Player.Loop | music.py:954-989 | `loop` is refused while random; otherwise it toggles looping; the invariant is kept |
| Player.Random | music.py:991-1019 | `random` is refused while looping; otherwise it toggles random; the invariant is kept |
| Player.LoopQueue | music.py:1021-1056 | `loopqueue` toggles queue looping, snapshotting the queue on and clearing it off; nothing else changes |
| Player.PauseResumeKeepsElapsed | music.py:625-649 | the elapsed time survives a pause |
| Player.PlayTrackRecordsOnce | music.py:311-324 | the history stays free of repeats and the position is `seconds` |
| Player.LoopingReplays | music.py:543-563 | looping replays the remembered track and leaves the queue alone |
| Player.LoopQueueRefills | music.py:546-563 | after the last track, queue looping plays the snapshot's head |
| Player.AfterIsOneShot | music.py:525-527 | a cleared `after` swallows exactly one callback |
| Player.StopRefusesWhilePaused | music.py:419 | `stop` refuses while paused, whatever `data` holds, and stops while playing |
| Player.RewindCanGoNegative | music.py:714-715 | rewinding further than the elapsed time gives a negative position |
| Player.LoopAndLoopQueueTogether | music.py:954-1056 | looping and queue looping can both be on |
| QueueCommands.Add | music.py:435-519 | refused at the limit or when busy; appends the resolved tracks, and to the snapshot those it lacks; starts an idle player; a raise keeps the flag |
| QueueCommands.AddAppendsResolved | music.py:475-500 | while playing, exactly the resolved tracks are appended, and the snapshot stays free of repeats |
| QueueCommands.AddCanExceedLimit | music.py:452 | one add takes 99 tracks to 101 |
| QueueCommands.AddStartsIdlePlayer | music.py:515-518 | on an idle player, the first resolved track plays at once |
| QueueCommands.Remove | music.py:877-908 | `remove` applies `remove_track` to the queue and snapshot, reporting the removed titles and the names not found |
| QueueCommands.RemoveSpec | music.py:196-241 | the popped and kept tracks make up the queue; order is kept; the snapshot loses one copy of each popped track it holds; every name is reported or matches a popped track |
| QueueCommands.Reposition | music.py:764-817 | refusals; an out-of-range position leaves the flag set; a move puts the first match at the target, the other tracks in order, and moves it to the same index of the snapshot |
| QueueCommands.MoveTrack | music.py:133-189 | an in-range move: no match, already there, or the first match moved in queue and snapshot, the rest in order |
| QueueCommands.RepositionOutOfRangeLocks | music.py:797-799 | after an out-of-range reposition, later queue commands answer busy |
| QueueCommands.RepositionThenGetIndex | music.py:764-817 | getindex finds a moved track at its new position |
| QueueCommands.GetIndexFinds | music.py:2082-2109 | getindex reports the first match at its 1-based position |
| QueueCommands.Select | music.py:1251-1306 | the first match plays, is popped and remembered, and loses one copy in the snapshot; an empty queue is caught |
| QueueCommands.SelectBlankTakesHead | music.py:1279-1281 | a blank name selects the head |
| QueueCommands.OldTrack | music.py:1384-1386 | the interrupted track is rebuilt only when every field is truthy |
| QueueCommands.PlayNow | music.py:1366-1416 | plays the resolved track and requeues the interrupted one at the head; raises on an empty `data` with a source set |
| QueueCommands.Interrupt | music.py:1399-1411 | the new track is described, and the old one heads the queue |
| QueueCommands.PlayNowRequeues | music.py:1384-1411 | the interrupted track heads the queue after playnow |
| QueueCommands.Shuffle | music.py:1079-1132 | the queue is permuted and the snapshot copies it |
| QueueCommands.Sort | music.py:1135-1179 | sorted stably by title; snapshot untouched; flag cleared; reply only on change |
| QueueCommands.SortTwiceSilent | music.py:1135-1179 | a second sort finds the queue sorted and replies nothing |
| QueueCommands.SortIsStable | music.py:1170 | each title keeps its tracks' order |
| QueueCommands.RemoveDupes | music.py:1309-1363 | the first track of each title is kept and the snapshot copies the queue |
| QueueCommands.RemoveDupesSpec | music.py:1309-1363 | the new queue is a subsequence with distinct titles covering all of them, and a second run finds nothing |
| QueueCommands.Clear | music.py:911-951 | queue, history and snapshot emptied; modes off; the queue flag cleared |
| QueueCommands.GetIndex | music.py:2082-2109 | the 1-based position and title of the first match, or not found |
| PlaylistCommands.Stored | music.py:1458-1479 | the entries a successful read returns |
| PlaylistCommands.Create | music.py:1503-1553 | stores the queue's pairs for this guild; an empty queue stores nothing |
| PlaylistCommands.Add | music.py:1556-1628 | appends the pairs of the resolved tracks, skipping only pairs appended earlier in the same call; a failed read is handled |
| PlaylistCommands.AddRepeatsStoredPair | music.py:1593-1596 | adding a stored pair again stores it twice |
| PlaylistCommands.AddCurrent | music.py:1631-1696 | appends the current track unless a stored title equals its own up to case and spaces |
| PlaylistCommands.AddCurrentIgnoresCaseAndSpaces | music.py:1669-1677 | a title differing only in case and spaces is refused |
| PlaylistCommands.Delete | music.py:1699-1727 | stores an empty playlist, or only creates a missing file |
| PlaylistCommands.Queue | music.py:1769-1801 | lists the stored titles, changing nothing |
| PlaylistCommands.DeleteThenQueue | music.py:1699-1801 | after delete, queue finds no tracks |
| PlaylistCommands.Select | music.py:1730-1766 | clears a non-empty queue, then adds every webpage; a raise is caught |
| PlaylistCommands.SelectReplacesQueue | music.py:1730-1766 | while playing, the queue becomes the resolved playlist, even when locked |
| PlaylistCommands.Fetch | music.py:1804-1851 | adds the webpage of every entry each name matches |
| PlaylistCommands.FetchQueriesMatches | music.py:1839-1842 | the queries are exactly the webpages of matching entries |
| PlaylistCommands.Remove | music.py:1854-1889 | `remove_track` on the stored pairs, then the rest is stored |
| PlaylistCommands.RemoveKeepsRest | music.py:1854-1889 | the stored rest keeps its order and, with the removed entries, makes up the old playlist |
| PlaylistCommands.Reposition | music.py:1892-1946 | refusals; the flag is cleared on every path; a move puts the first match at the slot, the other entries in order |
| PlaylistCommands.RepositionFile | music.py:1912-1941 | the read, range check (admitting one past the end), move of the first match and write |
| PlaylistCommands.RepositionPastEndAppends | music.py:1924-1929 | the index one past the end moves the entry to the end |
| PlaylistCommands.Shuffle | music.py:1949-2018 | stores a permutation; an empty playlist leaves the flag set |
| PlaylistCommands.ShuffleEmptyLocks | music.py:1979-1981 | after shuffling an empty playlist, the flag-checking commands answer busy |
| PlaylistCommands.Rewrite | music.py:2021-2054 | replaces any file with this guild's empty playlist |
| PlaylistCommands.RewriteRepairs | music.py:2021-2054 | after rewrite, the guild reads an empty playlist |
| PlaylistCommands.GetIndex | music.py:2112-2147 | the 1-based position and title of the first match, reading without `check_for_json` |
| PlaylistCommands.GetIndexMissingFile | music.py:2112-2147 | on a missing file, playlistgetindex reports a failed read and the file stays missing |
| Mixer.IndexIn | music.py:552 | the `index` loop finds the first position of the element |
| Mixer.ShuffleSeq | music.py:94-97 | the in-place Fisher-Yates loop yields the specified permutation |
| Mixer.ResolveInto | music.py:475-500 | the query loop of add appends to the queue and the snapshot as specified |
| Mixer.RemoveTracks | music.py:196-209 | the loops of `remove_track` on the queue agree with the list-level removal |
| Mixer.CollectEntries | music.py:1530-1532 | the pairs playlistcreate collects |
| Mixer.AppendResolved | music.py:1580-1604 | the query loop of playlistadd as written: a pair is skipped only when appended earlier in the loop |
| Mixer.FindSameTitle | music.py:1669-1677 | the duplicate scan of playlistaddcurrent |
| Mixer.CollectTitles | music.py:1790-1792 | the titles playlistqueue lists |
| Mixer.CollectWebpages | music.py:1758-1760 | the webpages playlistselect hands to add |
| Mixer.CollectMatches | music.py:1839-1842 | the nested loops of playlistfetch |
| Mixer.MoveInQueue | music.py:145-158 | the move of reposition, on the queue and on the snapshot |
| Mixer.RepositionPlaylist | music.py:1912-1941 | the file steps of playlistreposition |
| Mixer.Mixer.constructor | music.py:35-57 | the fields as `__init__` sets them |
| Mixer.Mixer.Reset | music.py:244-262 | the fields after `reset` |
| Mixer.Mixer.PlayTrack | music.py:287-340 | the fields after `play_track` |
| Mixer.Mixer.StartTrack | music.py:551-563 | the fields after the play path of `play_next` |
| Mixer.Mixer.PlayNext | music.py:521-578 | the fields and reply of `play_next` |
| Mixer.Mixer.Skip | music.py:581-609 | the fields and reply of `skip` |
| Mixer.Mixer.Stop | music.py:403-429 | the fields and reply of `stop` |
| Mixer.Mixer.Pause | music.py:612-632 | the fields and reply of `pause` |
| Mixer.Mixer.Resume | music.py:634-653 | the fields and reply of `resume` |
| Mixer.Mixer.Seek | music.py:656-688 | the fields and reply of `seek` |
| Mixer.Mixer.Jump | music.py:690-762 | the fields and reply of the rewind and forward step |
| Mixer.Mixer.Rewind | music.py:690-725 | the fields and reply of `rewind` |
| Mixer.Mixer.Forward | music.py:727-762 | the fields and reply of `forward` |
| Mixer.Mixer.Restart | music.py:851-874 | the fields and reply of `restart` |
| Mixer.Mixer.Loop | music.py:954-989 | the fields and reply of `loop` |
| Mixer.Mixer.Random | music.py:991-1019 | the fields and reply of `random` |
| Mixer.Mixer.LoopQueue | music.py:1021-1056 | the fields and reply of `loopqueue` |
| Mixer.Mixer.Add | music.py:435-519 | the fields and reply of `add` |
| Mixer.Mixer.Remove | music.py:877-908 | the fields and reply of `remove` |
| Mixer.Mixer.Reposition | music.py:764-817 | the fields and reply of `reposition` |
| Mixer.Mixer.Select | music.py:1251-1306 | the fields and reply of `select` |
| Mixer.Mixer.PlayNow | music.py:1366-1416 | the fields and reply of `playnow` |
| Mixer.Mixer.Shuffle | music.py:1079-1132 | the fields and reply of `shuffle` |
| Mixer.Mixer.Sort | music.py:1135-1179 | the fields and reply of `sort` |
| Mixer.Mixer.RemoveDupes | music.py:1309-1363 | the fields and reply of `removedupes` |
| Mixer.Mixer.Clear | music.py:911-951 | the fields and reply of `clear` |
| Mixer.Mixer.GetIndex | music.py:2082-2109 | the reply of `getindex`, changing nothing |
| Mixer.Mixer.PlaylistCreate | music.py:1503-1553 | the file and reply of `playlistcreate` |
| Mixer.Mixer.PlaylistAdd | music.py:1556-1628 | the file and reply of `playlistadd` |
| Mixer.Mixer.PlaylistAddCurrent | music.py:1631-1696 | the file and reply of `playlistaddcurrent` |
| Mixer.Mixer.PlaylistDelete | music.py:1699-1727 | the file and reply of `playlistdelete` |
| Mixer.Mixer.PlaylistQueue | music.py:1769-1801 | the file and reply of `playlistqueue` |
| Mixer.Mixer.PlaylistSelect | music.py:1730-1766 | the fields and reply of `playlistselect` |
| Mixer.Mixer.PlaylistFetch | music.py:1804-1851 | the fields and reply of `playlistfetch` |
| Mixer.Mixer.PlaylistRemove | music.py:1854-1889 | the file and reply of `playlistremove` |
| Mixer.Mixer.PlaylistReposition | music.py:1892-1946 | the file, flag and reply of `playlistreposition` |
| Mixer.Mixer.PlaylistShuffle | music.py:1949-2018 | the file, flag and reply of `playlistshuffle` |
| Mixer.Mixer.PlaylistRewrite | music.py:2021-2054 | the file and reply of `playlistrewrite` |
| Mixer.Mixer.PlaylistGetIndex | music.py:2112-2147 | the file and reply of `playlistgetindex` |

Each `Mixer.Mixer` method's postcondition equates its new fields, read together as a `State`, and its reply with the function of the same name in `Player`, `QueueCommands` or `PlaylistCommands`. The properties proved about those functions therefore hold of the object.

## Left out

- Discord itself is not modelled: role checks, channel membership, embeds, message text and the `join`/`leave`/`nowplaying`/`history`/`list` commands. Replies are reduced to an `Outcome` value.
- `fetch_track` (yt_dlp) and `get_query_type` are not modelled. Both become the `resolve` parameter, which yields a track, "no_entry", "invalid_query" or an exception.
- FFmpeg and the voice client are not modelled. `is_playing()`, `is_paused()` and the listener count come in as a `Voice` parameter, and whether FFmpeg starts comes in as the flag `ok`.
- The `play_next` callbacks that `stop` and `skip` start through the voice client are separate calls of `PlayNext`.
- `asyncio` is not modelled: `to_thread`, `file_lock` and concurrent commands. The busy flags are plain booleans on a sequential object.
- `time.time()` is an integer `now` parameter, so fractional seconds are not modelled.
- `random.choice` is the `pick` parameter and `random.shuffle` the `draw` function. Every sequence of draws yields a permutation of the queue.
- The file system and JSON encoding are not modelled. The file is a `PlaylistFile` value, so writes cannot fail and the `write_playlist` error path is not modelled.
- A stored guild entry is assumed to hold the "queue" key, so the `KeyError` on a malformed entry is not modelled.
- `thumbnail_url` is read as `None` when `reset` has not set it, so an attribute that was never set and `None` are not told apart.
- The author-voice check of playlistfetch is not modelled.
- The rendering commands that only display state are not modelled.
- Lower-casing covers ASCII only; `str.strip()` covers the ASCII whitespace characters only.
- TimeFormat.ParseInt: `int()` also accepts non-ASCII decimal digits and strips non-ASCII whitespace. Strings are taken as ASCII here, so those are refused.
- Mixer.Mixer.Seek: inherits that gap of `TimeFormat.ParseInt`, as do `Player.Seek`, `Player.Jump` and the rewind and forward commands.

## Findings

| source | as written | input that shows it | evidently intended | confidence | as-written member | corrected member |
|---|---|---|---|---|---|---|
| music.py:1593-1596 | playlistadd compares a `(title, webpage)` tuple with stored entries, which JSON returns as lists; a tuple never equals a list, so stored entries are never recognised as duplicates | playlist `[[t, w]]`, then add a query resolving to (t, w): the playlist becomes `[[t, w], [t, w]]` | an entry already in the playlist is not appended again | high, not executed | Playlists.PlaylistAppendAsWritten, shown by Playlists.PlaylistAppendDuplicates and PlaylistCommands.AddRepeatsStoredPair | Playlists.PlaylistAppend |
| music.py:1468-1473 | read_playlist catches `OSError` before `FileNotFoundError`, a subclass; a missing file therefore is reported as "os_error", and the "not_found" handling that recreates the file is dead | no playlist file: the read returns "os_error" | a missing file is reported as "not_found", and `handle_error` recreates it | high, not executed | Playlists.ReadPlaylistAsWritten, shown by Playlists.MissingFileReportedAsOsError and PlaylistCommands.GetIndexMissingFile | Playlists.ReadPlaylist |

The commands and the `Mixer` class use the as-written members. The corrected members state what the code evidently intends, and `Playlists.MissingFileReportedAsOsError`, `Playlists.MissingFileRecovers` and `Playlists.PlaylistAppendAgrees` relate the two readings.
