/**
 * The queue commands of the `Mixer` cog: add, remove, reposition, select, playnow, shuffle,
 * sort, removedupes, clear and getindex, each a function from the state before the command
 * to the state after it and its reply. The searching and list surgery come from `QueueOps`;
 * the busy flag `is_modifying_queue` is reproduced with the places where the source leaves
 * it set.
 */
module QueueCommands {
  import opened Wrappers
  import opened Text
  import opened Tracks
  import QueueOps
  import opened Player

  /** The queue length at which add refuses. */
  const QueueLimit: nat := 100

  /** State with the queue replaced. */
  function WithQueue(s: State, q: seq<Track>): State {
    s.(store := s.store.(queue := q))
  }

  /** State with `is_modifying_queue` set to `b`. */
  function WithBusy(s: State, b: bool): State {
    s.(modes := s.modes.(isModifyingQueue := b))
  }

  // ---------------------------------------------------------------- add

  /** `add *queries`. The limit is checked once, before any query is resolved. Every
      resolved track is appended to the queue, and to the loop snapshot unless an equal track
      is there already. When nothing is playing, `play_next` starts the queue; an exception
      escaping it leaves the busy flag set. */
  function Add(s: State, queries: seq<string>, resolve: string -> Resolution,
               v: Voice, now: int, pick: nat, ok: bool): (r: (State, Outcome))
    ensures Valid(s) ==> Valid(r.0)
    ensures r.0.file == s.file
    ensures r.1 == LimitReached <==> |s.store.queue| >= QueueLimit
    ensures r.1 == Busy <==> |s.store.queue| < QueueLimit && s.modes.isModifyingQueue
    ensures r.1 == NoQuery <==> |s.store.queue| < QueueLimit && !s.modes.isModifyingQueue && queries == []
    ensures r.1 in {LimitReached, Busy, NoQuery} ==> r.0 == s
    ensures r.1 !in {LimitReached, Busy, NoQuery} ==> r.1 == Done || r.1 == Raised
    ensures r.1 == Done ==> !r.0.modes.isModifyingQueue
    ensures r.1 == Raised ==> r.0.modes.isModifyingQueue && !v.playing
    ensures r.1 == Done && v.playing ==>
      var added := QueueOps.ResolveAll(queries, resolve);
      r.0 == s.(store := s.store.(queue := s.store.queue + added,
                                  queueToLoop := QueueOps.AppendAbsent(s.store.queueToLoop, added)))
  {
    if |s.store.queue| >= QueueLimit then (s, LimitReached)
    else if s.modes.isModifyingQueue then (s, Busy)
    else if queries == [] then (s, NoQuery)
    else
      var added := QueueOps.ResolveAll(queries, resolve);
      var s1 := WithBusy(s.(store := s.store.(queue := s.store.queue + added,
                                              queueToLoop := QueueOps.AppendAbsent(s.store.queueToLoop, added))), true);
      if v.playing then (WithBusy(s1, false), Done)
      else
        var n := PlayNext(s1, v, now, pick, ok);
        if n.1 == Raised then (n.0, Raised) else (WithBusy(n.0, false), Done)
  }

  /** While something plays, add appends exactly the resolved tracks to the queue; the loop
      snapshot keeps its order, gains exactly the resolved tracks it lacked, and stays free of
      repeats. */
  lemma AddAppendsResolved(s: State, queries: seq<string>, resolve: string -> Resolution, v: Voice, now: int, pick: nat, ok: bool, t: Track)
    requires v.playing && |s.store.queue| < QueueLimit && !s.modes.isModifyingQueue && queries != []
    ensures var r := Add(s, queries, resolve, v, now, pick, ok).0;
      && r.store.queue[..|s.store.queue|] == s.store.queue
      && (t in r.store.queue[|s.store.queue|..] <==> exists i :: 0 <= i < |queries| && resolve(queries[i]) == Resolved(t))
      && |s.store.queueToLoop| <= |r.store.queueToLoop|
      && r.store.queueToLoop[..|s.store.queueToLoop|] == s.store.queueToLoop
      && (t in r.store.queueToLoop <==> t in s.store.queueToLoop || exists i :: 0 <= i < |queries| && resolve(queries[i]) == Resolved(t))
      && (NoDuplicates(s.store.queueToLoop) ==> NoDuplicates(r.store.queueToLoop))
  {
    var added := QueueOps.ResolveAll(queries, resolve);
    QueueOps.ResolveAllMembers(queries, resolve, t);
    QueueOps.AppendAbsentSpec(s.store.queueToLoop, added);
    var q := s.store.queue + added;
    assert q[|s.store.queue|..] == added;
  }

  /** The limit is checked before the loop, so one add can take a queue of 99 tracks to 101. */
  lemma AddCanExceedLimit(s: State, q1: string, q2: string, resolve: string -> Resolution, v: Voice, now: int, pick: nat, ok: bool)
    requires |s.store.queue| == QueueLimit - 1 && !s.modes.isModifyingQueue && v.playing
    requires resolve(q1).Resolved? && resolve(q2).Resolved?
    ensures var r := Add(s, [q1, q2], resolve, v, now, pick, ok);
      r.1 == Done && |r.0.store.queue| == QueueLimit + 1
  {
    assert [q1, q2][..1] == [q1];
    assert [q1][..0] == [];
    assert |QueueOps.ResolveAll([q1, q2], resolve)| == 2;
  }

  /** On an idle player, add starts the first resolved track at once: with an empty queue and
      no mode set, the queue keeps the other resolved tracks and the first is remembered for
      looping. */
  lemma AddStartsIdlePlayer(s: State, queries: seq<string>, resolve: string -> Resolution, v: Voice, now: int, pick: nat, ok: bool)
    requires !v.playing && v.listeners != 1 && s.clock.after
    requires s.store.queue == [] && !s.modes.isModifyingQueue && !s.modes.isLooping && !s.modes.isRandom
    requires QueueOps.ResolveAll(queries, resolve) != []
    ensures var added := QueueOps.ResolveAll(queries, resolve);
      var r := Add(s, queries, resolve, v, now, pick, ok);
      r.1 == Done && r.0.store.queue == added[1..] && r.0.store.trackToLoop == Some(added[0])
      && r.0.current.data == Some(DataOf(added[0])) && !r.0.modes.isModifyingQueue
  {
    var added := QueueOps.ResolveAll(queries, resolve);
    assert [] + added == added;
    assert RemoveAt(added, 0) == added[1..];
  }

  // ---------------------------------------------------------------- remove

  /** `remove *names`: each name pops its first fuzzy match from the queue, and the popped
      track's first equal copy leaves the loop snapshot; the reply lists the removed titles
      and the names not found. */
  function Remove(s: State, names: seq<string>): (r: (State, Outcome))
    ensures Valid(s) ==> Valid(r.0)
    ensures r.0 == s.(store := r.0.store) && r.0.store.trackToLoop == s.store.trackToLoop
    ensures s.store.queue == [] ==> r == (s, QueueEmpty)
    ensures s.store.queue != [] && s.modes.isModifyingQueue ==> r == (s, Busy)
    ensures s.store.queue != [] && !s.modes.isModifyingQueue ==> r.1.Removed?
    ensures r.1.Removed? ==>
      var rm := QueueOps.RemoveNames(s.store.queue, TrackTitle, names);
      && r.0.store.queue == rm.rest
      && r.0.store.queueToLoop == QueueOps.RemoveEach(s.store.queueToLoop, rm.removed)
      && r.1 == Removed(TitlesOf(rm.removed, TrackTitle), rm.notFound)
  {
    if s.store.queue == [] then (s, QueueEmpty)
    else if s.modes.isModifyingQueue then (s, Busy)
    else
      var rm := QueueOps.RemoveNames(s.store.queue, TrackTitle, names);
      (s.(store := s.store.(queue := rm.rest, queueToLoop := QueueOps.RemoveEach(s.store.queueToLoop, rm.removed))),
       Removed(TitlesOf(rm.removed, TrackTitle), rm.notFound))
  }

  /** What remove promises: the tracks left plus the ones removed are the queue, the tracks
      left keep their order, the snapshot loses one copy of each removed track it holds
      (keeping its order), a title is reported for each removal and every name is reported at
      most once; a name reported as not found matches nothing left, and every other name
      matches a removed track. */
  lemma RemoveSpec(s: State, names: seq<string>, n: string)
    requires s.store.queue != [] && !s.modes.isModifyingQueue
    ensures var r := Remove(s, names);
      var rm := QueueOps.RemoveNames(s.store.queue, TrackTitle, names);
      && multiset(r.0.store.queue) + multiset(rm.removed) == multiset(s.store.queue)
      && IsSubseq(r.0.store.queue, s.store.queue)
      && IsSubseq(r.0.store.queueToLoop, s.store.queueToLoop)
      && multiset(r.0.store.queueToLoop) == multiset(s.store.queueToLoop) - multiset(rm.removed)
      && |r.1.titles| + |r.1.notFound| <= |names|
      && NoDuplicates(r.1.notFound)
      && (n in r.1.notFound ==> n in names && forall j :: 0 <= j < |r.0.store.queue| ==> !Matches(n, r.0.store.queue[j].title))
      && (n in names ==> QueueOps.Accounted(rm, TrackTitle, n))
  {
    var rm := QueueOps.RemoveNames(s.store.queue, TrackTitle, names);
    QueueOps.RemoveNamesConserves(s.store.queue, TrackTitle, names);
    QueueOps.RemoveNamesKeepsOrder(s.store.queue, TrackTitle, names);
    QueueOps.RemoveEachOnlyRemoves(s.store.queueToLoop, rm.removed);
    QueueOps.RemoveEachMultiset(s.store.queueToLoop, rm.removed);
    QueueOps.RemoveNamesNotFoundOnce(s.store.queue, TrackTitle, names);
    if n in names {
      QueueOps.RemoveNamesAccountsForNames(s.store.queue, TrackTitle, names, n);
    }
    if n in rm.notFound {
      QueueOps.RemoveNamesNotFoundUnmatched(s.store.queue, TrackTitle, names, n);
    }
  }

  // ---------------------------------------------------------------- reposition

  /** `reposition name position` with a 1-based position. An out-of-range position is
      refused without clearing the busy flag. The first fuzzy match is moved to the target in
      the queue, and to the same index in the loop snapshot when it is there; no match is the
      caught exception of the unbound variable, with nothing changed. */
  function Reposition(s: State, name: string, position: int): (r: (State, Outcome))
    ensures Valid(s) ==> Valid(r.0)
    ensures r.0 == s.(store := r.0.store, modes := r.0.modes)
    ensures r.0.store.trackToLoop == s.store.trackToLoop
    ensures s.store.queue == [] ==> r == (s, QueueEmpty)
    ensures s.store.queue != [] && s.modes.isModifyingQueue ==> r == (s, Busy)
    ensures r.1 == OutOfRange <==> (s.store.queue != [] && !s.modes.isModifyingQueue && !(1 <= position <= |s.store.queue|))
    ensures r.1 == OutOfRange ==> r.0 == WithBusy(s, true)
    ensures r.1 == Caught ==> r.0 == s && forall j :: 0 <= j < |s.store.queue| ==> !Matches(name, s.store.queue[j].title)
    ensures r.1 == SamePosition ==> r.0 == s && Matches(name, s.store.queue[position - 1].title)
    ensures r.1 == Done ==>
      && 1 <= position <= |s.store.queue| && r.0.modes == s.modes
      && Moves(s.store, r.0.store, name, position - 1)
    ensures r.1 in {QueueEmpty, Busy, OutOfRange, Caught, SamePosition, Done}
  {
    if s.store.queue == [] then (s, QueueEmpty)
    else if s.modes.isModifyingQueue then (s, Busy)
    else if position < 1 || position > |s.store.queue| then (WithBusy(s, true), OutOfRange)
    else
      var (store, o) := MoveTrack(s.store, name, position - 1);
      (s.(store := store), o)
  }

  /** What a move does to the queue and its loop snapshot: the first track the name matches,
      found at another index, is taken out and put back at the target, the others keeping their
      order; the snapshot's first copy of that track goes to the same index there, and a
      snapshot without it is unchanged. */
  predicate Moves(before: Store, after: Store, name: string, p: nat) {
    && p < |after.queue| == |before.queue|
    && FirstMatch(before.queue, TrackTitle, name).Some?
    && var i := FirstMatch(before.queue, TrackTitle, name).value;
      var t := before.queue[i];
      var loop := before.queueToLoop;
      && i != p && after.queue[p] == t && Matches(name, t.title)
      && RemoveAt(after.queue, p) == RemoveAt(before.queue, i)
      && multiset(after.queue) == multiset(before.queue)
      && (t !in loop ==> after.queueToLoop == loop)
      && (t in loop ==>
            && |after.queueToLoop| == |loop| && multiset(after.queueToLoop) == multiset(loop)
            && after.queueToLoop[Min(p, |loop| - 1)] == t
            && RemoveAt(after.queueToLoop, Min(p, |loop| - 1)) == RemoveFirst(loop, t))
      && after.trackToLoop == before.trackToLoop
  }

  /** The move of `reposition` once the position is known to be in range. */
  function MoveTrack(store: Store, name: string, p: nat): (r: (Store, Outcome))
    requires p < |store.queue|
    ensures r.1 in {Caught, SamePosition, Done}
    ensures r.1 != Done ==> r.0 == store
    ensures r.1 == Caught ==> forall j :: 0 <= j < |store.queue| ==> !Matches(name, store.queue[j].title)
    ensures r.1 == SamePosition ==> Matches(name, store.queue[p].title)
    ensures r.1 == Done ==> Moves(store, r.0, name, p)
  {
    match QueueOps.Reposition(store.queue, TrackTitle, name, p)
    case NotInQueue => (store, Caught)
    case SameIndex => (store, SamePosition)
    case Moved(i, q) =>
      (store.(queue := q, queueToLoop := QueueOps.RepositionSnapshot(store.queueToLoop, store.queue[i], p)), Done)
  }

  /** The refused out-of-range position leaves the queue locked: every later queue command
      that checks the flag answers that the queue is busy. */
  lemma RepositionOutOfRangeLocks(s: State, name: string, position: int, names: seq<string>, other: string)
    requires s.store.queue != [] && !s.modes.isModifyingQueue && position > |s.store.queue|
    ensures var r := Reposition(s, name, position).0;
      Reposition(s, name, position).1 == OutOfRange
      && Remove(r, names).1 == Busy && Reposition(r, other, 1).1 == Busy
  {
  }

  /** After a move, getindex reports the moved track at its new position, provided no track
      before it also matches the name. */
  lemma RepositionThenGetIndex(s: State, name: string, position: int)
    requires Reposition(s, name, position).1 == Done
    requires var q := Reposition(s, name, position).0.store.queue;
      forall j :: 0 <= j < position - 1 ==> !Matches(name, q[j].title)
    ensures var r := Reposition(s, name, position).0;
      GetIndex(r, name) == At(position, r.store.queue[position - 1].title)
  {
    var r := Reposition(s, name, position).0;
    var m := QueueOps.Reposition(s.store.queue, TrackTitle, name, position - 1);
    assert r.store.queue == m.result && r.store.queue[position - 1] == s.store.queue[m.from];
    if position == 1 && r.store.queue[0].title == "" {
      EmptyTitleMatchesAll(name, s.store.queue[0].title);
      assert false;
    }
    GetIndexFinds(r, name, position);
  }

  /** getindex reports the first match, at its 1-based position. */
  lemma GetIndexFinds(s: State, name: string, position: int)
    requires 1 <= position <= |s.store.queue| && !s.modes.isModifyingQueue
    requires Matches(name, s.store.queue[position - 1].title)
    requires forall j :: 0 <= j < position - 1 ==> !Matches(name, s.store.queue[j].title)
    requires position != 1 || s.store.queue[0].title != ""
    ensures GetIndex(s, name) == At(position, s.store.queue[position - 1].title)
  {
    var f := GetTrackIndex(s.store.queue, TrackTitle, name);
    assert f.Some? && f.value.0 == position - 1;
  }

  // ---------------------------------------------------------------- select

  /** `select name`: play the first fuzzy match now. It becomes the track to loop, is popped
      from the queue and loses its first copy in the loop snapshot. An empty queue ends in
      the caught exception of the unbound `found`. */
  function Select(s: State, name: string, v: Voice, now: int, ok: bool): (r: (State, Outcome))
    ensures Valid(s) ==> Valid(r.0)
    ensures r.0.file == s.file && r.0.modes == s.modes
    ensures name == "" ==> r == (s, NoQuery)
    ensures name != "" && s.modes.isModifyingQueue ==> r == (s, Busy)
    ensures r.1 == Done <==> (name != "" && !s.modes.isModifyingQueue
      && exists j :: 0 <= j < |s.store.queue| && Matches(name, s.store.queue[j].title))
    ensures r.1 != Done ==> r.0 == s
    ensures r.1 == Done ==>
      var i := FirstMatch(s.store.queue, TrackTitle, name).value;
      var t := s.store.queue[i];
      && r.0.store.queue == RemoveAt(s.store.queue, i)
      && r.0.store.trackToLoop == Some(t)
      && r.0.current.data == Some(DataOf(t))
      && r.0.store.queueToLoop == (if t in s.store.queueToLoop then RemoveFirst(s.store.queueToLoop, t) else s.store.queueToLoop)
      && (ok ==> r.0.current.currentTrack == Some(t.title) && now - r.0.clock.startTime == 0)
  {
    if name == "" then (s, NoQuery)
    else if s.modes.isModifyingQueue then (s, Busy)
    else if s.store.queue == [] then (s, Caught)
    else match FirstMatch(s.store.queue, TrackTitle, name)
      case None => (s, NoMatch)
      case Some(i) =>
        var t := s.store.queue[i];
        var s1 := s.(current := s.current.(data := Some(DataOf(t))), store := s.store.(trackToLoop := Some(t)));
        var s2 := PlayTrack(s1, Some(t.url), Some(DataOf(t)), 0, v, now, ok);
        var loop := s.store.queueToLoop;
        (s2.(store := s2.store.(queue := RemoveAt(s.store.queue, i), queueToLoop := if t in loop then RemoveFirst(loop, t) else loop)), Done)
  }

  /** A name of spaces only selects the head of the queue. */
  lemma SelectBlankTakesHead(s: State, v: Voice, now: int, ok: bool)
    requires s.store.queue != [] && !s.modes.isModifyingQueue
    ensures var r := Select(s, " ", v, now, ok);
      r.1 == Done && r.0.store.trackToLoop == Some(s.store.queue[0]) && r.0.store.queue == s.store.queue[1..]
  {
    BlankQueryMatchesAll(" ", s.store.queue[0].title);
    assert RemoveAt(s.store.queue, 0) == s.store.queue[1..];
  }

  // ---------------------------------------------------------------- playnow

  /** playnow's `old_track`: the current track rebuilt from `data`, when the source and every
      field are truthy (a zero duration, a missing thumbnail or an empty string is not). */
  function OldTrack(c: Current): (r: Option<Track>)
    ensures r.Some? ==> c.source.Some? && c.data.Some? && r.value.url == c.source.value && DataOf(r.value) == c.data.value
    ensures r.Some? ==> r.value.title != "" && r.value.duration != 0 && r.value.webpage != ""
  {
    match (c.source, c.data)
    case (Some(u), Some(d)) =>
      if u != "" && d.title != "" && d.duration != 0 && d.thumbnail.Some? && d.thumbnail.value != "" && d.webpage != ""
      then Some(Track(u, d.title, d.duration, d.thumbnail, d.webpage))
      else None
    case _ => None
  }

  /** `playnow query`: resolve the query and play it at once, and put the interrupted track
      back at the head of the queue. The title lookup on an empty `data` raises when a source
      is set. playnow neither checks nor sets the busy flag and does not touch the track to
      loop. */
  function PlayNow(s: State, query: string, resolve: string -> Resolution, v: Voice, now: int, ok: bool): (r: (State, Outcome))
    ensures Valid(s) ==> Valid(r.0)
    ensures r.0.file == s.file && r.0.modes == s.modes
    ensures r.0.store.queueToLoop == s.store.queueToLoop && r.0.store.trackToLoop == s.store.trackToLoop
    ensures r.1 != Done ==> r.0 == s
    ensures query == "" ==> r.1 == NoQuery
    ensures query != "" && s.current.source.Some? && s.current.source.value != "" && s.current.data.None? ==> r.1 == Raised
    ensures r.1 == Done <==> (query != "" && resolve(query).Resolved?
      && !(s.current.source.Some? && s.current.source.value != "" && s.current.data.None?))
    ensures r.1 == Done ==>
      && r.0.current.data == Some(DataOf(resolve(query).track))
      && r.0.store.queue == (match OldTrack(s.current) case Some(o) => [o] + s.store.queue case None => s.store.queue)
  {
    if query == "" then (s, NoQuery)
    else if s.current.source.Some? && s.current.source.value != "" && s.current.data.None? then (s, Raised)
    else
      match resolve(query)
      case NoEntry => (s, NoResult)
      case InvalidQuery => (s, BadQuery)
      case Failed => (s, Caught)
      case Resolved(t) => (Interrupt(s, t, v, now, ok), Done)
  }

  /** playnow once the query has resolved to `t`: play `t` and requeue the track it cuts off. */
  function Interrupt(s: State, t: Track, v: Voice, now: int, ok: bool): (r: State)
    ensures Valid(s) ==> Valid(r)
    ensures r.file == s.file && r.modes == s.modes
    ensures r.store.queueToLoop == s.store.queueToLoop && r.store.trackToLoop == s.store.trackToLoop
    ensures r.current.data == Some(DataOf(t))
    ensures r.store.queue == (match OldTrack(s.current) case Some(o) => [o] + s.store.queue case None => s.store.queue)
  {
    var prev := OldTrack(s.current);
    var s1 := s.(current := s.current.(data := Some(DataOf(t))));
    var s2 := PlayTrack(s1, Some(t.url), Some(DataOf(t)), 0, v, now, ok);
    match prev
    case None => s2
    case Some(o) => WithQueue(s2, InsertAt(s2.store.queue, 0, o))
  }

  /** The track playnow interrupts comes back as the next track: when the current track was
      started from a fully described track `t`, that very track heads the queue after
      playnow. */
  lemma PlayNowRequeues(s: State, t: Track, query: string, resolve: string -> Resolution, v: Voice, now: int, ok: bool)
    requires s.current.source == Some(t.url) && s.current.data == Some(DataOf(t))
    requires t.url != "" && t.title != "" && t.duration != 0 && t.webpage != ""
    requires t.thumbnail.Some? && t.thumbnail.value != ""
    requires query != "" && resolve(query).Resolved?
    ensures var r := PlayNow(s, query, resolve, v, now, ok);
      r.1 == Done && r.0.store.queue == [t] + s.store.queue
  {
  }

  // ---------------------------------------------------------------- shuffle, sort, removedupes

  /** `shuffle`: the queue is permuted and the loop snapshot becomes a copy of it. */
  function Shuffle(s: State, draw: nat -> nat): (r: (State, Outcome))
    ensures Valid(s) ==> Valid(r.0)
    ensures r.0 == s.(store := r.0.store) && r.0.store.trackToLoop == s.store.trackToLoop
    ensures s.store.queue == [] ==> r == (s, QueueEmpty)
    ensures s.store.queue != [] && s.modes.isModifyingQueue ==> r == (s, Busy)
    ensures r.1 == Done <==> s.store.queue != [] && !s.modes.isModifyingQueue
    ensures r.1 == Done ==>
      multiset(r.0.store.queue) == multiset(s.store.queue) && r.0.store.queueToLoop == r.0.store.queue
    ensures r.1 != Done ==> r.0 == s
  {
    if s.store.queue == [] then (s, QueueEmpty)
    else if s.modes.isModifyingQueue then (s, Busy)
    else
      var q := QueueOps.Shuffled(s.store.queue, draw);
      (s.(store := s.store.(queue := q, queueToLoop := q)), Done)
  }

  /** `sort`: the queue is sorted by title, stably. The statement meant to refresh the loop
      snapshot only copies it, so the snapshot keeps the old order. The busy flag is set for the
      duration of the command and cleared at its end. The reply is sent only when the order
      changed. */
  function Sort(s: State): (r: (State, Outcome))
    ensures Valid(s) ==> Valid(r.0)
    ensures s.store.queue == [] ==> r == (s, QueueEmpty)
    ensures |s.store.queue| == 1 ==> r == (s, TooShort)
    ensures |s.store.queue| > 1 && s.modes.isModifyingQueue ==> r == (s, Busy)
    ensures r.1 in {Done, Silent} <==> |s.store.queue| > 1 && !s.modes.isModifyingQueue
    ensures r.1 in {Done, Silent} ==>
      && r.0 == WithQueue(s, r.0.store.queue) && !r.0.modes.isModifyingQueue
      && QueueOps.SortedByTitle(r.0.store.queue)
      && multiset(r.0.store.queue) == multiset(s.store.queue)
      && (r.1 == Silent <==> r.0.store.queue == s.store.queue)
    ensures r.1 !in {Done, Silent} ==> r.0 == s
  {
    if s.store.queue == [] then (s, QueueEmpty)
    else if |s.store.queue| <= 1 then (s, TooShort)
    else if s.modes.isModifyingQueue then (s, Busy)
    else
      var q := QueueOps.SortByTitle(s.store.queue);
      QueueOps.SortByTitleSpec(s.store.queue);
      (WithQueue(s, q), if q == s.store.queue then Silent else Done)
  }

  /** The sort is stable: the tracks of each title keep their relative order. */
  lemma SortIsStable(s: State, t: string)
    requires |s.store.queue| > 1 && !s.modes.isModifyingQueue
    ensures QueueOps.WithTitle(Sort(s).0.store.queue, t) == QueueOps.WithTitle(s.store.queue, t)
  {
    QueueOps.SortByTitleSpec(s.store.queue);
  }

  /** Sorting a second time changes nothing and sends no reply: the queue is already in
      order, and the first sort released the busy flag. */
  lemma SortTwiceSilent(s: State)
    requires |s.store.queue| > 1 && !s.modes.isModifyingQueue
    ensures var r := Sort(s).0; Sort(r) == (r, Silent)
  {
    var r := Sort(s).0;
    QueueOps.SortSortedIsIdentity(r.store.queue);
  }

  /** `removedupes`: the queue keeps the first track of each title and the loop snapshot
      becomes a copy of it. */
  function RemoveDupes(s: State): (r: (State, Outcome))
    ensures Valid(s) ==> Valid(r.0)
    ensures r.0 == s.(store := r.0.store) && r.0.store.trackToLoop == s.store.trackToLoop
    ensures s.store.queue == [] ==> r == (s, QueueEmpty)
    ensures s.store.queue != [] && s.modes.isModifyingQueue ==> r == (s, Busy)
    ensures r.1 in {Done, NoDuplicatesFound} <==> s.store.queue != [] && !s.modes.isModifyingQueue
    ensures r.1 in {Done, NoDuplicatesFound} ==>
      && r.0.store.queue == QueueOps.RemoveDuplicates(s.store.queue)
      && r.0.store.queueToLoop == r.0.store.queue
      && (r.1 == NoDuplicatesFound <==> r.0.store.queue == s.store.queue)
  {
    if s.store.queue == [] then (s, QueueEmpty)
    else if s.modes.isModifyingQueue then (s, Busy)
    else
      var q := QueueOps.RemoveDuplicates(s.store.queue);
      (s.(store := s.store.(queue := q, queueToLoop := q)), if q == s.store.queue then NoDuplicatesFound else Done)
  }

  /** What removedupes promises: the new queue is the old one with tracks left out, it has no
      repeated title, it keeps one track of every title, and running it again finds no
      duplicates. */
  lemma RemoveDupesSpec(s: State)
    requires s.store.queue != [] && !s.modes.isModifyingQueue
    ensures var r := RemoveDupes(s).0;
      && IsSubseq(r.store.queue, s.store.queue)
      && QueueOps.DistinctTitles(r.store.queue)
      && (forall i :: 0 <= i < |s.store.queue| ==> exists k :: 0 <= k < |r.store.queue| && r.store.queue[k].title == s.store.queue[i].title)
      && RemoveDupes(r) == (r, NoDuplicatesFound)
  {
    var q := QueueOps.RemoveDuplicates(s.store.queue);
    QueueOps.RemoveDuplicatesSpec(s.store.queue);
    assert q != [] by {
      assert exists k :: 0 <= k < |q| && q[k].title == s.store.queue[0].title;
    }
  }

  // ---------------------------------------------------------------- clear, getindex

  /** `clear`: empties the queue, the history and the loop snapshot and switches all three
      modes off. It does not check the busy flag: it sets it and clears it, so it also clears
      a flag another command left set. */
  function Clear(s: State): (r: (State, Outcome))
    ensures Valid(r.0) && r.1 == Done
    ensures r.0.store == Store([], [], s.store.trackToLoop)
    ensures r.0.current == s.current.(history := []) && r.0.clock == s.clock && r.0.file == s.file
    ensures r.0.modes == Modes(false, false, false, false, s.modes.isModifyingPlaylist)
  {
    (s.(store := Store([], [], s.store.trackToLoop), current := s.current.(history := []),
        modes := Modes(false, false, false, false, s.modes.isModifyingPlaylist)), Done)
  }

  /** `getindex name`: the 1-based position and title of the first fuzzy match. A match at
      the head whose title is empty is reported as not found, since the source tests
      `not index and not title`. */
  function GetIndex(s: State, name: string): (r: Outcome)
    ensures s.store.queue == [] ==> r == QueueEmpty
    ensures s.store.queue != [] && s.modes.isModifyingQueue ==> r == Busy
    ensures r.At? ==>
      && 1 <= r.position <= |s.store.queue| && r.title == s.store.queue[r.position - 1].title
      && Matches(name, r.title)
      && forall j :: 0 <= j < r.position - 1 ==> !Matches(name, s.store.queue[j].title)
    ensures s.store.queue != [] && !s.modes.isModifyingQueue ==> r.At? || r == NoMatch
    ensures r == NoMatch ==>
      (forall j :: 0 <= j < |s.store.queue| ==> !Matches(name, s.store.queue[j].title))
      || (s.store.queue[0].title == "" && Matches(name, ""))
  {
    if s.store.queue == [] then QueueEmpty
    else if s.modes.isModifyingQueue then Busy
    else
      var f := GetTrackIndex(s.store.queue, TrackTitle, name);
      if ReportsFound(f) then At(f.value.0 + 1, f.value.1) else NoMatch
  }
}
