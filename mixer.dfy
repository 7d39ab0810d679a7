/**
 * The `Mixer` cog as an object: every field the cog keeps, and one method per command that
 * updates those fields step by step the way the cog does (the search loops, `pop`, `insert`,
 * `remove`, `append`). Each method is proved to leave the fields, read together as a `State`,
 * exactly as the matching function of `Player`, `QueueCommands` or `PlaylistCommands` says, so
 * the properties proved about those functions hold of the object.
 */
module Mixer {
  import opened Wrappers
  import opened Text
  import opened TimeFormat
  import opened Tracks
  import opened Playlists
  import QueueOps
  import opened Player
  import QueueCommands
  import PlaylistCommands

  /** `list.index(x)`: the position of the first element equal to `x`. */
  method IndexIn<T(==)>(q: seq<T>, x: T) returns (i: nat)
    requires x in q
    ensures i < |q| && q[i] == x && x !in q[..i]
    ensures IndexOf(q, x) == Some(i)
  {
    i := 0;
    while q[i] != x
      invariant i < |q| && x !in q[..i] && x in q[i..]
      decreases |q| - i
    {
      assert q[..i + 1] == q[..i] + [q[i]];
      assert q[i..] == [q[i]] + q[i + 1..];
      i := i + 1;
    }
  }

  /** `random.shuffle` on a copy: Fisher-Yates from the back with `draw` standing for the
      random indices. */
  method ShuffleSeq<T>(q: seq<T>, draw: nat -> nat) returns (r: seq<T>)
    ensures r == QueueOps.Shuffled(q, draw)
    ensures |r| == |q| && multiset(r) == multiset(q)
  {
    r := q;
    var i := |q|;
    while i > 1
      invariant 0 <= i <= |q| && |r| == |q|
      invariant QueueOps.ShuffleFrom(r, i, draw) == QueueOps.Shuffled(q, draw)
    {
      var k := i - 1;
      var j := draw(k) % (k + 1);
      r := r[k := r[j]][j := r[k]];
      i := k;
    }
  }

  /** The query loop of `add`: each resolved track is appended to the queue, and to the loop
      snapshot unless an equal track is there already. */
  method ResolveInto(queue: seq<Track>, loop: seq<Track>, queries: seq<string>, resolve: string -> Resolution)
    returns (q: seq<Track>, l: seq<Track>)
    ensures q == queue + QueueOps.ResolveAll(queries, resolve)
    ensures l == QueueOps.AppendAbsent(loop, QueueOps.ResolveAll(queries, resolve))
  {
    q, l := queue, loop;
    var k := 0;
    while k < |queries|
      invariant 0 <= k <= |queries|
      invariant q == queue + QueueOps.ResolveAll(queries[..k], resolve)
      invariant l == QueueOps.AppendAbsent(loop, QueueOps.ResolveAll(queries[..k], resolve))
    {
      assert queries[..k + 1][..k] == queries[..k];
      var added := QueueOps.ResolveAll(queries[..k], resolve);
      match resolve(queries[k]) {
        case Resolved(t) =>
          assert (added + [t])[..|added|] == added;
          q := q + [t];
          if t !in l {
            l := l + [t];
          }
        case _ =>
      }
      k := k + 1;
    }
    assert queries[..k] == queries;
  }

  /** `remove_track` on the queue: each name pops its first fuzzy match, whose first equal
      copy also leaves the loop snapshot. */
  method RemoveTracks(queue: seq<Track>, loop: seq<Track>, names: seq<string>)
    returns (rest: seq<Track>, l: seq<Track>, titles: seq<string>, notFound: seq<string>)
    ensures var rm := QueueOps.RemoveNames(queue, TrackTitle, names);
      && rest == rm.rest && notFound == rm.notFound
      && l == QueueOps.RemoveEach(loop, rm.removed)
      && titles == TitlesOf(rm.removed, TrackTitle)
  {
    rest, l, titles, notFound := queue, loop, [], [];
    ghost var removed: seq<Track> := [];
    var k := 0;
    while k < |names|
      invariant 0 <= k <= |names|
      invariant QueueOps.RemoveNames(queue, TrackTitle, names[..k]) == QueueOps.Removal(rest, removed, notFound)
      invariant l == QueueOps.RemoveEach(loop, removed)
      invariant titles == TitlesOf(removed, TrackTitle)
    {
      var name := names[k];
      assert names[..k + 1][..k] == names[..k];
      var i := FindFirst(rest, TrackTitle, name);
      if i < |rest| {
        var t := rest[i];
        assert (removed + [t])[..|removed|] == removed;
        assert TitlesOf(removed + [t], TrackTitle) == titles + [t.title];
        removed := removed + [t];
        titles := titles + [t.title];
        rest := RemoveAt(rest, i);
        if t in l {
          l := RemoveFirst(l, t);
        }
      } else if name !in notFound {
        notFound := notFound + [name];
      }
      k := k + 1;
    }
    assert names[..k] == names;
  }

  /** The (title, webpage) pairs playlistcreate collects from the queue. */
  method CollectEntries(queue: seq<Track>) returns (tracks: seq<Entry>)
    ensures tracks == EntriesOf(queue)
  {
    tracks := [];
    var k := 0;
    while k < |queue|
      invariant 0 <= k <= |queue| && |tracks| == k
      invariant forall j :: 0 <= j < k ==> tracks[j] == EntryOf(queue[j])
    {
      tracks := tracks + [EntryOf(queue[k])];
      k := k + 1;
    }
  }

  /** The query loop of playlistadd: each resolved track's pair is appended unless the same
      pair was appended earlier in the loop. The stored entries are JSON lists, which the compared
      tuple never equals, so the membership test only sees `r[|current|..]`. */
  method AppendResolved(current: seq<Entry>, queries: seq<string>, resolve: string -> Resolution) returns (r: seq<Entry>)
    ensures r == PlaylistAppendAsWritten(current, EntriesOf(QueueOps.ResolveAll(queries, resolve)))
  {
    r := current;
    var k := 0;
    while k < |queries|
      invariant 0 <= k <= |queries|
      invariant r == current + QueueOps.AppendAbsent([], EntriesOf(QueueOps.ResolveAll(queries[..k], resolve)))
    {
      assert queries[..k + 1][..k] == queries[..k];
      var added := EntriesOf(QueueOps.ResolveAll(queries[..k], resolve));
      match resolve(queries[k]) {
        case Resolved(t) =>
          var e := EntryOf(t);
          assert EntriesOf(QueueOps.ResolveAll(queries[..k + 1], resolve)) == added + [e];
          assert (added + [e])[..|added|] == added;
          assert r[|current|..] == QueueOps.AppendAbsent([], added);
          if e !in r[|current|..] {
            r := r + [e];
          }
        case _ =>
      }
      k := k + 1;
    }
    assert queries[..k] == queries;
  }

  /** The duplicate scan of playlistaddcurrent. */
  method FindSameTitle(playlist: seq<Entry>, title: string) returns (found: bool)
    ensures found == PlaylistCommands.HasSameTitle(playlist, title)
  {
    var k := 0;
    while k < |playlist|
      invariant 0 <= k <= |playlist|
      invariant forall j :: 0 <= j < k ==> !SameTitle(title, playlist[j].title)
    {
      if SameTitle(title, playlist[k].title) {
        return true;
      }
      k := k + 1;
    }
    return false;
  }

  /** The titles playlistqueue lists. */
  method CollectTitles(playlist: seq<Entry>) returns (tracks: seq<string>)
    ensures tracks == TitlesOf(playlist, EntryTitle)
  {
    tracks := [];
    var k := 0;
    while k < |playlist|
      invariant 0 <= k <= |playlist| && |tracks| == k
      invariant forall j :: 0 <= j < k ==> tracks[j] == playlist[j].title
    {
      tracks := tracks + [playlist[k].title];
      k := k + 1;
    }
  }

  /** The webpages playlistselect hands to add. */
  method CollectWebpages(playlist: seq<Entry>) returns (urls: seq<string>)
    ensures urls == Webpages(playlist)
  {
    urls := [];
    var k := 0;
    while k < |playlist|
      invariant 0 <= k <= |playlist| && |urls| == k
      invariant forall j :: 0 <= j < k ==> urls[j] == playlist[j].webpage
    {
      urls := urls + [playlist[k].webpage];
      k := k + 1;
    }
  }

  /** The nested loops of playlistfetch: for each name, the webpage of every entry it
      matches. */
  method CollectMatches(playlist: seq<Entry>, names: seq<string>) returns (urls: seq<string>)
    ensures urls == QueueOps.FetchUrls(playlist, names)
  {
    urls := [];
    var a := 0;
    while a < |names|
      invariant 0 <= a <= |names|
      invariant urls == QueueOps.FetchUrls(playlist, names[..a])
    {
      var name := names[a];
      var prefix := urls;
      var b := 0;
      while b < |playlist|
        invariant 0 <= b <= |playlist|
        invariant urls == prefix + QueueOps.MatchingUrls(playlist[..b], name)
      {
        assert playlist[..b + 1][..b] == playlist[..b];
        if Matches(name, playlist[b].title) {
          urls := urls + [playlist[b].webpage];
        }
        b := b + 1;
      }
      assert playlist[..b] == playlist;
      assert names[..a + 1][..a] == names[..a];
      a := a + 1;
    }
    assert names[..a] == names;
  }

  /** The move of `reposition`, with `reposition_track`'s loop. */
  method MoveInQueue(store: Store, name: string, p: nat) returns (r: Store, o: Outcome)
    requires p < |store.queue|
    ensures (r, o) == QueueCommands.MoveTrack(store, name, p)
  {
    var m := QueueOps.RepositionIn(store.queue, TrackTitle, name, p);
    match m {
      case NotInQueue => return store, Caught;
      case SameIndex => return store, SamePosition;
      case Moved(i, q) =>
        var t := store.queue[i];
        var loop := store.queueToLoop;
        if t in loop {
          loop := InsertAt(RemoveFirst(loop, t), p, t);
        }
        return store.(queue := q, queueToLoop := loop), Done;
    }
  }

  /** The read, check, move and write of `playlistreposition`, with `reposition_track`'s loop. */
  method RepositionPlaylist(file: PlaylistFile, g: string, name: string, index: int) returns (f: PlaylistFile, o: Outcome)
    ensures (f, o) == PlaylistCommands.RepositionFile(file, g, name, index)
  {
    var read := ReadPlaylistAsWritten(file, g);
    if read.ReadFailed? {
      return AfterError(read.error, file, g), FileError(read.error);
    }
    var entries := read.entries;
    if entries == [] {
      return file, NoTracks;
    }
    if index - 1 < 0 || index - 1 > |entries| {
      return file, OutOfRange;
    }
    var r := QueueOps.RepositionIn(entries, EntryTitle, name, index - 1);
    match r {
      case NotInQueue => return file, Caught;
      case SameIndex => return GuildDocument(g, entries), SamePosition;
      case Moved(_, q) => return GuildDocument(g, q), Done;
    }
  }

  /** The cog. Its fields are kept in the four groups the commands change together: the
      queue store (`queue`, `queue_to_loop`, `track_to_loop`), the current track (`data`,
      `current_track`, `track_duration`, `thumbnail_url`, `webpage`, `source`,
      `queue_history`), the clock (`start_time`, `last_elapsed_time`, `after`) and the modes
      (`is_looping`, `is_random`, `is_looping_queue`, `is_modifying_queue`,
      `is_modifying_playlist`); `file` is the playlist file on disk. */
  class Mixer {
    var store: Store
    var current: Current
    var clock: Clock
    var modes: Modes
    var file: PlaylistFile

    /** `__init__`, next to the playlist file found on disk. */
    constructor (onDisk: PlaylistFile)
      ensures State(store, current, clock, modes, file) == Init(onDisk) && Player.Valid(State(store, current, clock, modes, file))
    {
      store := Store([], [], None);
      current := Current(None, None, 0, None, None, None, []);
      clock := Clock(0, 0, true);
      modes := AllOff();
      file := onDisk;
    }

    // -------------------------------------------------------------- playback

    /** `reset` */
    method Reset()
      modifies this
      ensures State(store, current, clock, modes, file) == Player.Reset(old(State(store, current, clock, modes, file)))
      ensures Player.Valid(State(store, current, clock, modes, file))
    {
      store := Store([], [], None);
      current := Current(None, None, 0, current.thumbnail, None, None, []);
      clock := Clock(0, 0, true);
      modes := AllOff();
    }

    /** `play_track(url, data, seconds)` */
    method PlayTrack(url: Option<string>, d: Option<TrackData>, seconds: int, v: Voice, now: int, ok: bool)
      modifies this
      ensures State(store, current, clock, modes, file) == Player.PlayTrack(old(State(store, current, clock, modes, file)), url, d, seconds, v, now, ok)
      ensures Player.Valid(old(State(store, current, clock, modes, file))) ==> Player.Valid(State(store, current, clock, modes, file))
    {
      var c := clock.(lastElapsed := now - clock.startTime);
      if !ok || url.None? {
        clock := c;
        return;
      }
      if v.playing || v.paused {
        c := c.(after := false);
      }
      clock := c.(startTime := now - seconds, lastElapsed := seconds);
      if d.Some? {
        var t := d.value;
        var history := current.history;
        if t.title !in history {
          history := history + [t.title];
        }
        current := current.(currentTrack := Some(t.title), trackDuration := t.duration, thumbnail := t.thumbnail,
                            webpage := Some(t.webpage), source := url, history := history);
      }
    }

    /** The play path of `play_next`. */
    method StartTrack(t: Track, v: Voice, now: int, ok: bool)
      modifies this
      ensures State(store, current, clock, modes, file) == Player.StartTrack(old(State(store, current, clock, modes, file)), t, v, now, ok)
    {
      current := current.(data := Some(DataOf(t)));
      clock := clock.(startTime := now, lastElapsed := 0);
      PlayTrack(Some(t.url), Some(DataOf(t)), 0, v, now, ok);
    }

    /** `play_next` */
    method PlayNext(v: Voice, now: int, pick: nat, ok: bool) returns (o: Outcome)
      modifies this
      ensures (State(store, current, clock, modes, file), o) == Player.PlayNext(old(State(store, current, clock, modes, file)), v, now, pick, ok)
      ensures Player.Valid(old(State(store, current, clock, modes, file))) ==> Player.Valid(State(store, current, clock, modes, file))
    {
      if !clock.after {
        clock := clock.(after := true);
        return Silent;
      }
      if v.listeners == 1 {
        clock := clock.(after := false);
        return Disconnected;
      }
      var queue := store.queue;
      if modes.isLoopingQueue && queue == [] && store.queueToLoop != [] {
        queue := store.queueToLoop;
      }
      store := store.(queue := queue);
      if queue != [] || modes.isLooping || modes.isLoopingQueue {
        if !modes.isLooping {
          if queue == [] {
            return Raised;
          }
          var i: nat := 0;
          if modes.isRandom {
            i := IndexIn(queue, queue[pick % |queue|]);
          }
          var t := queue[i];
          store := store.(queue := RemoveAt(queue, i), trackToLoop := Some(t));
          StartTrack(t, v, now, ok);
        } else if store.trackToLoop.Some? && !modes.isRandom {
          StartTrack(store.trackToLoop.value, v, now, ok);
        } else {
          return Caught;
        }
        return Done;
      }
      if !v.playing {
        store := store.(queueToLoop := []);
        modes := modes.(isLoopingQueue := false);
        return QueueEmpty;
      }
      return Silent;
    }

    /** `skip` */
    method Skip(v: Voice) returns (o: Outcome)
      modifies this
      ensures (State(store, current, clock, modes, file), o) == Player.Skip(old(State(store, current, clock, modes, file)), v)
    {
      if store.queue == [] && store.queueToLoop == [] {
        return NothingNext;
      }
      if modes.isModifyingQueue {
        return Busy;
      }
      if v.playing || v.paused {
        modes := modes.(isLooping := false);
        return Done;
      }
      return Silent;
    }

    /** `stop` */
    method Stop(v: Voice) returns (o: Outcome)
      modifies this
      ensures (State(store, current, clock, modes, file), o) == Player.Stop(old(State(store, current, clock, modes, file)), v)
    {
      if !v.playing {
        return NotPlaying;
      }
      if current.data.None? {
        return Raised;
      }
      if current.data.value.title != "" && v.paused {
        return NotPlaying;
      }
      Reset();
      clock := clock.(after := false);
      return Done;
    }

    /** `pause` */
    method Pause(v: Voice, now: int) returns (o: Outcome)
      modifies this
      ensures (State(store, current, clock, modes, file), o) == Player.Pause(old(State(store, current, clock, modes, file)), v, now)
    {
      if !v.playing {
        return NotPlaying;
      }
      clock := clock.(lastElapsed := now - clock.startTime);
      return Done;
    }

    /** `resume` */
    method Resume(v: Voice, now: int) returns (o: Outcome)
      modifies this
      ensures (State(store, current, clock, modes, file), o) == Player.Resume(old(State(store, current, clock, modes, file)), v, now)
    {
      if !v.paused {
        return NotPaused;
      }
      clock := clock.(startTime := now - clock.lastElapsed);
      return Done;
    }

    /** `seek MM:SS` */
    method Seek(position: string, v: Voice, now: int, ok: bool) returns (o: Outcome)
      modifies this
      ensures (State(store, current, clock, modes, file), o) == Player.Seek(old(State(store, current, clock, modes, file)), position, v, now, ok)
    {
      if !v.playing {
        return NotPlaying;
      }
      var p := GetSeconds(position);
      if p.None? {
        return InvalidTime;
      }
      if current.data.None? {
        return Raised;
      }
      if 0 <= p.value <= current.data.value.duration {
        PlayTrack(current.source, current.data, p.value, v, now, ok);
        return Done;
      }
      return OutOfRange;
    }

    /** The shared body of `rewind` and `forward`, given the parsed step. */
    method Jump(step: Option<int>, backwards: bool, v: Voice, now: int, ok: bool) returns (o: Outcome)
      modifies this
      ensures (State(store, current, clock, modes, file), o) == Player.Jump(old(State(store, current, clock, modes, file)), step, backwards, v, now, ok)
    {
      if !v.playing {
        return NotPlaying;
      }
      if step.None? {
        return InvalidTime;
      }
      var p := step.value;
      if !(0 < p) {
        return OutOfRange;
      }
      if current.data.None? {
        return Raised;
      }
      if p <= current.data.value.duration {
        var elapsed := now - clock.startTime;
        var target := if backwards then elapsed - p else elapsed + p;
        PlayTrack(current.source, current.data, target, v, now, ok);
        return Done;
      }
      return OutOfRange;
    }

    /** `rewind MM:SS` */
    method Rewind(position: string, v: Voice, now: int, ok: bool) returns (o: Outcome)
      modifies this
      ensures (State(store, current, clock, modes, file), o) == Player.Rewind(old(State(store, current, clock, modes, file)), position, v, now, ok)
    {
      o := Jump(GetSeconds(position), true, v, now, ok);
    }

    /** `forward MM:SS` */
    method Forward(position: string, v: Voice, now: int, ok: bool) returns (o: Outcome)
      modifies this
      ensures (State(store, current, clock, modes, file), o) == Player.Forward(old(State(store, current, clock, modes, file)), position, v, now, ok)
    {
      o := Jump(GetSeconds(position), false, v, now, ok);
    }

    /** `restart` */
    method Restart(v: Voice, now: int, ok: bool) returns (o: Outcome)
      modifies this
      ensures (State(store, current, clock, modes, file), o) == Player.Restart(old(State(store, current, clock, modes, file)), v, now, ok)
    {
      if !(v.playing || v.paused) {
        return NotPlaying;
      }
      clock := clock.(startTime := now, lastElapsed := 0);
      PlayTrack(current.source, current.data, 0, v, now, ok);
      return Done;
    }

    /** `loop` */
    method Loop(v: Voice) returns (o: Outcome)
      modifies this
      ensures (State(store, current, clock, modes, file), o) == Player.Loop(old(State(store, current, clock, modes, file)), v)
      ensures Player.Valid(old(State(store, current, clock, modes, file))) ==> Player.Valid(State(store, current, clock, modes, file))
    {
      if modes.isRandom {
        return Conflict;
      }
      if !v.playing {
        return NotPlaying;
      }
      if modes.isModifyingQueue {
        return Busy;
      }
      modes := modes.(isLooping := !modes.isLooping);
      return Done;
    }

    /** `random` */
    method Random() returns (o: Outcome)
      modifies this
      ensures (State(store, current, clock, modes, file), o) == Player.Random(old(State(store, current, clock, modes, file)))
      ensures Player.Valid(old(State(store, current, clock, modes, file))) ==> Player.Valid(State(store, current, clock, modes, file))
    {
      if modes.isLooping {
        return Conflict;
      }
      if modes.isModifyingQueue {
        return Busy;
      }
      modes := modes.(isRandom := !modes.isRandom);
      return Done;
    }

    /** `loopqueue` */
    method LoopQueue() returns (o: Outcome)
      modifies this
      ensures (State(store, current, clock, modes, file), o) == Player.LoopQueue(old(State(store, current, clock, modes, file)))
    {
      if modes.isLooping {
        return Conflict;
      }
      if store.queue == [] && store.queueToLoop == [] {
        return QueueEmpty;
      }
      if modes.isModifyingQueue {
        return Busy;
      }
      if !modes.isLoopingQueue {
        store := store.(queueToLoop := store.queue);
        modes := modes.(isLoopingQueue := true);
      } else {
        store := store.(queueToLoop := []);
        modes := modes.(isLoopingQueue := false);
      }
      return Done;
    }

    // -------------------------------------------------------------- queue

    /** `add *queries` */
    method Add(queries: seq<string>, resolve: string -> Resolution, v: Voice, now: int, pick: nat, ok: bool) returns (o: Outcome)
      modifies this
      ensures (State(store, current, clock, modes, file), o) == QueueCommands.Add(old(State(store, current, clock, modes, file)), queries, resolve, v, now, pick, ok)
      ensures Player.Valid(old(State(store, current, clock, modes, file))) ==> Player.Valid(State(store, current, clock, modes, file))
    {
      if |store.queue| >= QueueCommands.QueueLimit {
        return LimitReached;
      }
      if modes.isModifyingQueue {
        return Busy;
      }
      if queries == [] {
        return NoQuery;
      }
      var q, loop := ResolveInto(store.queue, store.queueToLoop, queries, resolve);
      store := store.(queue := q, queueToLoop := loop);
      modes := modes.(isModifyingQueue := true);
      if v.playing {
        modes := modes.(isModifyingQueue := false);
        return Done;
      }
      o := PlayNext(v, now, pick, ok);
      if o == Raised {
        return Raised;
      }
      modes := modes.(isModifyingQueue := false);
      return Done;
    }

    /** `remove *names` */
    method Remove(names: seq<string>) returns (o: Outcome)
      modifies this
      ensures (State(store, current, clock, modes, file), o) == QueueCommands.Remove(old(State(store, current, clock, modes, file)), names)
      ensures Player.Valid(old(State(store, current, clock, modes, file))) ==> Player.Valid(State(store, current, clock, modes, file))
    {
      if store.queue == [] {
        return QueueEmpty;
      }
      if modes.isModifyingQueue {
        return Busy;
      }
      var rest, loop, titles, notFound := RemoveTracks(store.queue, store.queueToLoop, names);
      store := store.(queue := rest, queueToLoop := loop);
      return Removed(titles, notFound);
    }

    /** `reposition name position` */
    method Reposition(name: string, position: int) returns (o: Outcome)
      modifies this
      ensures (State(store, current, clock, modes, file), o) == QueueCommands.Reposition(old(State(store, current, clock, modes, file)), name, position)
    {
      if store.queue == [] {
        return QueueEmpty;
      }
      if modes.isModifyingQueue {
        return Busy;
      }
      if position < 1 || position > |store.queue| {
        modes := modes.(isModifyingQueue := true);
        return OutOfRange;
      }
      store, o := MoveInQueue(store, name, position - 1);
    }

    /** `select name` */
    method Select(name: string, v: Voice, now: int, ok: bool) returns (o: Outcome)
      modifies this
      ensures (State(store, current, clock, modes, file), o) == QueueCommands.Select(old(State(store, current, clock, modes, file)), name, v, now, ok)
    {
      if name == "" {
        return NoQuery;
      }
      if modes.isModifyingQueue {
        return Busy;
      }
      if store.queue == [] {
        return Caught;
      }
      var queue := store.queue;
      var i := FindFirst(queue, TrackTitle, name);
      if i == |queue| {
        return NoMatch;
      }
      var t := queue[i];
      var loop := store.queueToLoop;
      current := current.(data := Some(DataOf(t)));
      store := store.(trackToLoop := Some(t));
      PlayTrack(Some(t.url), Some(DataOf(t)), 0, v, now, ok);
      if t in loop {
        loop := RemoveFirst(loop, t);
      }
      store := store.(queue := RemoveAt(queue, i), queueToLoop := loop);
      return Done;
    }

    /** `playnow query` */
    method PlayNow(query: string, resolve: string -> Resolution, v: Voice, now: int, ok: bool) returns (o: Outcome)
      modifies this
      ensures (State(store, current, clock, modes, file), o) == QueueCommands.PlayNow(old(State(store, current, clock, modes, file)), query, resolve, v, now, ok)
    {
      if query == "" {
        return NoQuery;
      }
      if current.source.Some? && current.source.value != "" && current.data.None? {
        return Raised;
      }
      var prev := QueueCommands.OldTrack(current);
      match resolve(query) {
        case NoEntry => return NoResult;
        case InvalidQuery => return BadQuery;
        case Failed => return Caught;
        case Resolved(t) =>
          current := current.(data := Some(DataOf(t)));
          PlayTrack(Some(t.url), Some(DataOf(t)), 0, v, now, ok);
          if prev.Some? {
            store := store.(queue := InsertAt(store.queue, 0, prev.value));
          }
          return Done;
      }
    }

    /** `shuffle` */
    method Shuffle(draw: nat -> nat) returns (o: Outcome)
      modifies this
      ensures (State(store, current, clock, modes, file), o) == QueueCommands.Shuffle(old(State(store, current, clock, modes, file)), draw)
    {
      if store.queue == [] {
        return QueueEmpty;
      }
      if modes.isModifyingQueue {
        return Busy;
      }
      var q := ShuffleSeq(store.queue, draw);
      store := store.(queue := q, queueToLoop := q);
      return Done;
    }

    /** `sort` */
    method Sort() returns (o: Outcome)
      modifies this
      ensures (State(store, current, clock, modes, file), o) == QueueCommands.Sort(old(State(store, current, clock, modes, file)))
    {
      if store.queue == [] {
        return QueueEmpty;
      }
      if |store.queue| <= 1 {
        return TooShort;
      }
      if modes.isModifyingQueue {
        return Busy;
      }
      modes := modes.(isModifyingQueue := true);
      var q := QueueOps.SortByTitle(store.queue);
      o := if q == store.queue then Silent else Done;
      store := store.(queue := q);
      modes := modes.(isModifyingQueue := false);
    }

    /** `removedupes` */
    method RemoveDupes() returns (o: Outcome)
      modifies this
      ensures (State(store, current, clock, modes, file), o) == QueueCommands.RemoveDupes(old(State(store, current, clock, modes, file)))
    {
      if store.queue == [] {
        return QueueEmpty;
      }
      if modes.isModifyingQueue {
        return Busy;
      }
      var q := QueueOps.RemoveDuplicates(store.queue);
      o := if q == store.queue then NoDuplicatesFound else Done;
      store := store.(queue := q, queueToLoop := q);
    }

    /** `clear` */
    method Clear() returns (o: Outcome)
      modifies this
      ensures (State(store, current, clock, modes, file), o) == QueueCommands.Clear(old(State(store, current, clock, modes, file)))
      ensures Player.Valid(State(store, current, clock, modes, file))
    {
      modes := modes.(isModifyingQueue := true);
      store := store.(queue := [], queueToLoop := []);
      current := current.(history := []);
      modes := modes.(isLooping := false, isRandom := false, isLoopingQueue := false);
      modes := modes.(isModifyingQueue := false);
      return Done;
    }

    /** `getindex name` */
    method GetIndex(name: string) returns (o: Outcome)
      ensures o == QueueCommands.GetIndex(State(store, current, clock, modes, file), name)
    {
      var queue := store.queue;
      if queue == [] {
        return QueueEmpty;
      }
      if modes.isModifyingQueue {
        return Busy;
      }
      var i := FindFirst(queue, TrackTitle, name);
      if i == |queue| || (i == 0 && queue[0].title == "") {
        return NoMatch;
      }
      return At(i + 1, queue[i].title);
    }

    // -------------------------------------------------------------- playlists

    /** `playlistcreate` */
    method PlaylistCreate(g: string) returns (o: Outcome)
      modifies this
      ensures (State(store, current, clock, modes, file), o) == PlaylistCommands.Create(old(State(store, current, clock, modes, file)), g)
    {
      file := CheckForJson(file, g).1;
      if store.queue == [] {
        return QueueEmpty;
      }
      var tracks := CollectEntries(store.queue);
      file := GuildDocument(g, tracks);
      return Done;
    }

    /** `playlistadd *queries` */
    method PlaylistAdd(g: string, queries: seq<string>, resolve: string -> Resolution) returns (o: Outcome)
      modifies this
      ensures (State(store, current, clock, modes, file), o) == PlaylistCommands.Add(old(State(store, current, clock, modes, file)), g, queries, resolve)
    {
      var f := CheckForJson(file, g).1;
      var read := ReadPlaylistAsWritten(f, g);
      if read.ReadFailed? {
        file := AfterError(read.error, f, g);
        return FileError(read.error);
      }
      var playlist := AppendResolved(read.entries, queries, resolve);
      file := GuildDocument(g, playlist);
      return Done;
    }

    /** `playlistaddcurrent` */
    method PlaylistAddCurrent(g: string) returns (o: Outcome)
      modifies this
      ensures (State(store, current, clock, modes, file), o) == PlaylistCommands.AddCurrent(old(State(store, current, clock, modes, file)), g)
    {
      var f := CheckForJson(file, g).1;
      file := f;
      if current.data.None? {
        return Caught;
      }
      var d := current.data.value;
      if d.title == "" || d.webpage == "" {
        return Silent;
      }
      var read := ReadPlaylistAsWritten(f, g);
      if read.ReadFailed? {
        file := AfterError(read.error, f, g);
        return FileError(read.error);
      }
      var found := FindSameTitle(read.entries, d.title);
      if found {
        return AlreadyInPlaylist;
      }
      file := GuildDocument(g, read.entries + [Entry(d.title, d.webpage)]);
      return Done;
    }

    /** `playlistdelete` */
    method PlaylistDelete(g: string) returns (o: Outcome)
      modifies this
      ensures (State(store, current, clock, modes, file), o) == PlaylistCommands.Delete(old(State(store, current, clock, modes, file)), g)
    {
      var c := CheckForJson(file, g);
      if !c.0 {
        file := c.1;
        return FileCreated;
      }
      file := GuildDocument(g, []);
      return Done;
    }

    /** `playlistqueue` */
    method PlaylistQueue(g: string) returns (o: Outcome)
      modifies this
      ensures (State(store, current, clock, modes, file), o) == PlaylistCommands.Queue(old(State(store, current, clock, modes, file)), g)
    {
      var c := CheckForJson(file, g);
      if !c.0 {
        file := c.1;
        return FileCreated;
      }
      var read := ReadPlaylistAsWritten(file, g);
      if read.ReadFailed? {
        file := AfterError(read.error, file, g);
        return FileError(read.error);
      }
      if read.entries == [] {
        return NoTracks;
      }
      var tracks := CollectTitles(read.entries);
      return Titles(tracks);
    }

    /** `playlistselect` */
    method PlaylistSelect(g: string, resolve: string -> Resolution, v: Voice, now: int, pick: nat, ok: bool) returns (o: Outcome)
      modifies this
      ensures (State(store, current, clock, modes, file), o) == PlaylistCommands.Select(old(State(store, current, clock, modes, file)), g, resolve, v, now, pick, ok)
    {
      var c := CheckForJson(file, g);
      if !c.0 {
        file := c.1;
        return FileCreated;
      }
      var read := ReadPlaylistAsWritten(file, g);
      if read.ReadFailed? {
        file := AfterError(read.error, file, g);
        return FileError(read.error);
      }
      if read.entries == [] {
        return NoTracks;
      }
      if store.queue != [] {
        var _ := Clear();
      }
      var urls := CollectWebpages(read.entries);
      o := Add(urls, resolve, v, now, pick, ok);
      if o == Raised {
        o := Caught;
      }
    }

    /** `playlistfetch *names` */
    method PlaylistFetch(g: string, names: seq<string>, resolve: string -> Resolution, v: Voice, now: int, pick: nat, ok: bool) returns (o: Outcome)
      modifies this
      ensures (State(store, current, clock, modes, file), o) == PlaylistCommands.Fetch(old(State(store, current, clock, modes, file)), g, names, resolve, v, now, pick, ok)
    {
      var c := CheckForJson(file, g);
      if !c.0 {
        file := c.1;
        return FileCreated;
      }
      if names == [] {
        return NoQuery;
      }
      var read := ReadPlaylistAsWritten(file, g);
      if read.ReadFailed? {
        file := AfterError(read.error, file, g);
        return FileError(read.error);
      }
      if read.entries == [] {
        return NoTracks;
      }
      var urls := CollectMatches(read.entries, names);
      if urls == [] {
        return NoMatch;
      }
      o := Add(urls, resolve, v, now, pick, ok);
    }

    /** `playlistremove *names` */
    method PlaylistRemove(g: string, names: seq<string>) returns (o: Outcome)
      modifies this
      ensures (State(store, current, clock, modes, file), o) == PlaylistCommands.Remove(old(State(store, current, clock, modes, file)), g, names)
    {
      var c := CheckForJson(file, g);
      if !c.0 {
        file := c.1;
        return FileCreated;
      }
      var read := ReadPlaylistAsWritten(file, g);
      if read.ReadFailed? {
        file := AfterError(read.error, file, g);
        return FileError(read.error);
      }
      var playlist := read.entries;
      if playlist == [] {
        return NoTracks;
      }
      var rest, removedTitles, notFound := QueueOps.RemoveFromPlaylist(playlist, names);
      assert removedTitles == TitlesOf(QueueOps.RemoveNames(playlist, EntryTitle, names).removed, EntryTitle);
      file := GuildDocument(g, rest);
      return Removed(removedTitles, notFound);
    }

    /** `playlistreposition name index` */
    method PlaylistReposition(g: string, name: string, index: int) returns (o: Outcome)
      modifies this
      ensures (State(store, current, clock, modes, file), o) == PlaylistCommands.Reposition(old(State(store, current, clock, modes, file)), g, name, index)
    {
      var c := CheckForJson(file, g);
      if !c.0 {
        file := c.1;
        return FileCreated;
      }
      if modes.isModifyingPlaylist {
        return Busy;
      }
      modes := modes.(isModifyingPlaylist := true);
      var f;
      f, o := RepositionPlaylist(file, g, name, index);
      file := f;
      modes := modes.(isModifyingPlaylist := false);
    }

    /** `playlistshuffle` */
    method PlaylistShuffle(g: string, draw: nat -> nat) returns (o: Outcome)
      modifies this
      ensures (State(store, current, clock, modes, file), o) == PlaylistCommands.Shuffle(old(State(store, current, clock, modes, file)), g, draw)
    {
      var c := CheckForJson(file, g);
      if !c.0 {
        file := c.1;
        return FileCreated;
      }
      if modes.isModifyingPlaylist {
        return Busy;
      }
      modes := modes.(isModifyingPlaylist := true);
      var read := ReadPlaylistAsWritten(file, g);
      if read.ReadFailed? {
        file := AfterError(read.error, file, g);
        modes := modes.(isModifyingPlaylist := false);
        return FileError(read.error);
      }
      if read.entries == [] {
        return NoTracks;
      }
      var playlist := ShuffleSeq(read.entries, draw);
      file := GuildDocument(g, playlist);
      modes := modes.(isModifyingPlaylist := false);
      return Done;
    }

    /** `playlistrewrite` */
    method PlaylistRewrite(g: string) returns (o: Outcome)
      modifies this
      ensures (State(store, current, clock, modes, file), o) == PlaylistCommands.Rewrite(old(State(store, current, clock, modes, file)), g)
    {
      if modes.isModifyingPlaylist {
        return Busy;
      }
      modes := modes.(isModifyingPlaylist := true);
      file := GuildDocument(g, []);
      modes := modes.(isModifyingPlaylist := false);
      return Done;
    }

    /** `playlistgetindex name` */
    method PlaylistGetIndex(g: string, name: string) returns (o: Outcome)
      modifies this
      ensures (State(store, current, clock, modes, file), o) == PlaylistCommands.GetIndex(old(State(store, current, clock, modes, file)), g, name)
    {
      if modes.isModifyingPlaylist {
        return Busy;
      }
      var read := ReadPlaylistAsWritten(file, g);
      if read.ReadFailed? {
        file := AfterError(read.error, file, g);
        return FileError(read.error);
      }
      var playlist := read.entries;
      if playlist == [] {
        return NoTracks;
      }
      var i := FindFirst(playlist, EntryTitle, name);
      if i == |playlist| || (i == 0 && playlist[0].title == "") {
        return NoMatch;
      }
      return At(i + 1, playlist[i].title);
    }
  }
}
