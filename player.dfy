/**
 * The playback state machine of the `Mixer` cog. `State` is a snapshot of every field of the
 * cog, grouped by what changes them together; each command is a function from the snapshot
 * before it runs (and what the voice client, the clock and FFmpeg report at that moment) to
 * the snapshot after it and the reply it ends with. The `Mixer` class in mixer.dfy runs the
 * same commands on its fields and is proved to agree with these functions.
 */
module Player {
  import opened Wrappers
  import opened TimeFormat
  import opened Tracks
  import opened Playlists

  /** What the voice client reports when a command runs: `is_playing()`, `is_paused()` and the
      number of members in its channel (the bot included). */
  datatype Voice = Voice(playing: bool, paused: bool, listeners: nat)

  /** The queue, its loop snapshot `queue_to_loop`, and `track_to_loop`. */
  datatype Store = Store(queue: seq<Track>, queueToLoop: seq<Track>, trackToLoop: Option<Track>)

  /** The `data` dictionary (`None` is the empty dictionary of `__init__` and `reset`, on
      which `data["title"]` raises `KeyError`), the fields `play_track` copies out of it, and
      `queue_history`. `None` in the other fields is Python's `None`. */
  datatype Current = Current(
    data: Option<TrackData>,
    currentTrack: Option<string>,
    trackDuration: int,
    thumbnail: Option<string>,
    webpage: Option<string>,
    source: Option<string>,
    history: seq<string>)

  /** `start_time`, `last_elapsed_time` and the one-shot `after` flag. */
  datatype Clock = Clock(startTime: int, lastElapsed: int, after: bool)

  /** The mode flags and the two busy flags. */
  datatype Modes = Modes(
    isLooping: bool,
    isRandom: bool,
    isLoopingQueue: bool,
    isModifyingQueue: bool,
    isModifyingPlaylist: bool)

  /** Every field of the cog, and the playlist file on disk. */
  datatype State = State(store: Store, current: Current, clock: Clock, modes: Modes, file: PlaylistFile)

  /** How a command ends: the reply it sends, or `Caught` when an exception is caught and
      reported, or `Raised` when one escapes the command. */
  datatype Outcome =
    | Done
    | Silent
    | NotPlaying
    | NotPaused
    | Busy
    | QueueEmpty
    | TooShort
    | LimitReached
    | NothingNext
    | Conflict
    | NoQuery
    | InvalidTime
    | OutOfRange
    | NoMatch
    | SamePosition
    | NoDuplicatesFound
    | Disconnected
    | NoResult
    | BadQuery
    | Caught
    | Raised
    | Removed(titles: seq<string>, notFound: seq<string>)
    | At(position: nat, title: string)
    | Titles(titles: seq<string>)
    | FileCreated
    | FileError(error: PlaylistError)
    | NoTracks
    | AlreadyInPlaylist

  /** The invariant the commands keep: looping the current track and picking a random track
      are never both on, and every title is recorded in the history at most once. */
  predicate Valid(s: State) {
    !(s.modes.isLooping && s.modes.isRandom) && NoDuplicates(s.current.history)
  }

  function AllOff(): Modes { Modes(false, false, false, false, false) }

  /** The fields as `__init__` sets them; `thumbnail_url` is not set there and reads as `None`. */
  function Init(file: PlaylistFile): (s: State)
    ensures Valid(s) && s.file == file
    ensures s.store.queue == [] && s.store.queueToLoop == [] && s.store.trackToLoop == None
    ensures s.current.data == None && s.current.history == [] && s.current.source == None
    ensures s.clock.after && s.clock.startTime == 0 && s.clock.lastElapsed == 0
    ensures !s.modes.isLooping && !s.modes.isRandom && !s.modes.isLoopingQueue
    ensures !s.modes.isModifyingQueue && !s.modes.isModifyingPlaylist
  {
    State(Store([], [], None), Current(None, None, 0, None, None, None, []), Clock(0, 0, true), AllOff(), file)
  }

  /** `reset`: every field back to its `__init__` value, except `thumbnail_url`, which `reset`
      does not list, and the file on disk. */
  function Reset(s: State): (r: State)
    ensures r == Init(s.file).(current := Init(s.file).current.(thumbnail := s.current.thumbnail))
    ensures Valid(r)
  {
    s.(store := Store([], [], None),
       current := Current(None, None, 0, s.current.thumbnail, None, None, []),
       clock := Clock(0, 0, true),
       modes := AllOff())
  }

  /** The history update of `play_track`: a title is appended only when it is absent. */
  function Record(h: seq<string>, title: string): (r: seq<string>)
    ensures title in r && (title in h ==> r == h)
    ensures |h| <= |r| <= |h| + 1 && r[..|h|] == h
    ensures NoDuplicates(h) ==> NoDuplicates(r)
  {
    if title in h then h else h + [title]
  }

  /** `play_track(url, data, seconds)`. The elapsed time is refreshed from the clock first.
      `ok` says whether FFmpeg opened the source (there is nothing to open when `url` is
      `None`); when it did not, nothing else changes. When it did, a running player is
      stopped with `after` cleared so that its callback does not advance the queue, the clock
      is set so that `seconds` have elapsed, and the track's details are copied from `data`;
      when `data` is the empty dictionary the `KeyError` comes after the clock update and is
      caught. */
  function PlayTrack(s: State, url: Option<string>, d: Option<TrackData>, seconds: int,
                     v: Voice, now: int, ok: bool): (r: State)
    ensures r.store == s.store && r.modes == s.modes && r.file == s.file
    ensures r.current.data == s.current.data
    ensures Valid(s) ==> Valid(r)
    ensures !(ok && url.Some?) ==> r == s.(clock := s.clock.(lastElapsed := now - s.clock.startTime))
    ensures ok && url.Some? ==> r.clock == Clock(now - seconds, seconds, s.clock.after && !v.playing && !v.paused)
    ensures ok && url.Some? && d.Some? ==>
      r.current.currentTrack == Some(d.value.title) && r.current.trackDuration == d.value.duration
      && r.current.thumbnail == d.value.thumbnail && r.current.webpage == Some(d.value.webpage)
      && r.current.source == url && r.current.history == Record(s.current.history, d.value.title)
    ensures !(ok && url.Some? && d.Some?) ==> r.current == s.current
  {
    var c1 := s.clock.(lastElapsed := now - s.clock.startTime);
    if !ok || url.None? then s.(clock := c1)
    else
      var c2 := c1.(after := c1.after && !v.playing && !v.paused, startTime := now - seconds, lastElapsed := seconds);
      match d
      case None => s.(clock := c2)
      case Some(t) =>
        s.(clock := c2,
           current := s.current.(currentTrack := Some(t.title), trackDuration := t.duration,
                                 thumbnail := t.thumbnail, webpage := Some(t.webpage), source := url,
                                 history := Record(s.current.history, t.title)))
  }

  /** The queue `play_next` works on: with queue looping on, an empty queue is refilled from
      a copy of the loop snapshot. */
  function Refill(s: Store, loopingQueue: bool): (q: seq<Track>)
    ensures s.queue != [] ==> q == s.queue
    ensures s.queue == [] && loopingQueue ==> q == s.queueToLoop
    ensures !loopingQueue ==> q == s.queue
  {
    if loopingQueue && s.queue == [] && s.queueToLoop != [] then s.queueToLoop else s.queue
  }

  /** `queue.index(random.choice(queue))`: `pick` stands for the choice, and the index found
      is that of the first track equal to the chosen one. */
  function PickIndex(q: seq<Track>, pick: nat): (i: nat)
    requires q != []
    ensures i < |q| && q[i] == q[pick % |q|]
    ensures i <= pick % |q| && q[i] !in q[..i]
  {
    IndexOf(q, q[pick % |q|]).value
  }

  /** The play path of `play_next`: describe the track in `data`, start the clock at 0 and
      play it. The clock reads 0 elapsed from `now` whether or not FFmpeg opened the source;
      when it did, a running player is stopped with `after` cleared, and the track's details
      are copied into the current fields. */
  function StartTrack(s: State, t: Track, v: Voice, now: int, ok: bool): (r: State)
    ensures r.store == s.store && r.modes == s.modes && r.file == s.file
    ensures r.clock == Clock(now, 0, s.clock.after && !(ok && (v.playing || v.paused)))
    ensures ok ==> r.current == Current(Some(DataOf(t)), Some(t.title), t.duration, t.thumbnail,
                                        Some(t.webpage), Some(t.url), Record(s.current.history, t.title))
    ensures !ok ==> r.current == s.current.(data := Some(DataOf(t)))
    ensures Valid(s) ==> Valid(r)
  {
    var d := DataOf(t);
    PlayTrack(s.(current := s.current.(data := Some(d)), clock := s.clock.(startTime := now, lastElapsed := 0)),
              Some(t.url), Some(d), 0, v, now, ok)
  }

  /** `play_next`, the callback run when a track ends (and called by add when idle). A cleared
      `after` flag only re-arms itself. Alone in the channel, the bot leaves. Otherwise, with
      looping off, the next track is popped (the head, or a random one) and remembered as
      `track_to_loop`; with looping on, `track_to_loop` is replayed and the queue is left
      alone; with nothing to play and nothing playing, queue looping is switched off. */
  function PlayNext(s: State, v: Voice, now: int, pick: nat, ok: bool): (r: (State, Outcome))
    ensures Valid(s) ==> Valid(r.0)
    ensures r.0.file == s.file
    ensures r.0.modes.isLooping == s.modes.isLooping && r.0.modes.isRandom == s.modes.isRandom
    ensures r.0.modes.isModifyingQueue == s.modes.isModifyingQueue
    ensures !s.clock.after ==> r == (s.(clock := s.clock.(after := true)), Silent)
    ensures s.clock.after && v.listeners == 1 ==> r == (s.(clock := s.clock.(after := false)), Disconnected)
    ensures r.1 == Raised <==> (s.clock.after && v.listeners != 1 && !s.modes.isLooping && s.modes.isLoopingQueue
      && s.store.queue == [] && s.store.queueToLoop == [])
    ensures r.1 == Raised ==> r.0 == s
    ensures var q := Refill(s.store, s.modes.isLoopingQueue);
      s.clock.after && v.listeners != 1 && !s.modes.isLooping && q != [] ==>
        r.1 == Done
        && exists i :: 0 <= i < |q| && (!s.modes.isRandom ==> i == 0)
             && r.0.store == Store(RemoveAt(q, i), s.store.queueToLoop, Some(q[i]))
             && r.0.current.data == Some(DataOf(q[i]))
    ensures s.clock.after && v.listeners != 1 && s.modes.isLooping && s.store.trackToLoop.Some? && !s.modes.isRandom ==>
      r.1 == Done && r.0.store == s.store.(queue := Refill(s.store, s.modes.isLoopingQueue))
      && r.0.current.data == Some(DataOf(s.store.trackToLoop.value))
    ensures (s.clock.after && v.listeners != 1 && s.store.queue == [] && !s.modes.isLooping
      && !s.modes.isLoopingQueue && !v.playing) ==>
      r == (s.(store := s.store.(queueToLoop := [])), QueueEmpty)
  {
    if !s.clock.after then (s.(clock := s.clock.(after := true)), Silent)
    else if v.listeners == 1 then (s.(clock := s.clock.(after := false)), Disconnected)
    else
      var m := s.modes;
      var q := Refill(s.store, m.isLoopingQueue);
      var s1 := s.(store := s.store.(queue := q));
      if q != [] || m.isLooping || m.isLoopingQueue then
        if !m.isLooping then
          if q == [] then (s1, Raised)
          else
            var i := if m.isRandom then PickIndex(q, pick) else 0;
            var t := q[i];
            (StartTrack(s1.(store := s1.store.(queue := RemoveAt(q, i), trackToLoop := Some(t))), t, v, now, ok), Done)
        else if s.store.trackToLoop.Some? && !m.isRandom then
          (StartTrack(s1, s.store.trackToLoop.value, v, now, ok), Done)
        else
          // `url` was never bound: the `NameError` is caught and reported
          (s1, Caught)
      else if !v.playing then (s1.(store := s1.store.(queueToLoop := []), modes := m.(isLoopingQueue := false)), QueueEmpty)
      else (s1, Silent)
  }

  /** `skip`: stopping the player runs the `play_next` callback; looping is switched off first
      so that the callback moves on. */
  function Skip(s: State, v: Voice): (r: (State, Outcome))
    ensures Valid(s) ==> Valid(r.0)
    ensures r.1 == Done <==>
      (s.store.queue != [] || s.store.queueToLoop != []) && !s.modes.isModifyingQueue && (v.playing || v.paused)
    ensures r.1 == Done ==> r.0 == s.(modes := s.modes.(isLooping := false))
    ensures r.1 != Done ==> r.0 == s
  {
    if s.store.queue == [] && s.store.queueToLoop == [] then (s, NothingNext)
    else if s.modes.isModifyingQueue then (s, Busy)
    else if v.playing || v.paused then (s.(modes := s.modes.(isLooping := false)), Done)
    else (s, Silent)
  }

  /** `stop`. Its guard refuses when nothing plays; its second half, a titled track while
      paused, can only matter when both flags are reported, and a paused voice client does not
      report playing. When `data` is empty the title lookup raises. Otherwise the state is
      reset and `after` is cleared so that stopping the player does not start the next track. */
  function Stop(s: State, v: Voice): (r: (State, Outcome))
    ensures Valid(s) ==> Valid(r.0)
    ensures r.1 == Done <==> v.playing && s.current.data.Some? && !(s.current.data.value.title != "" && v.paused)
    ensures r.1 == Done ==> r.0 == Reset(s).(clock := Clock(0, 0, false))
    ensures r.1 != Done ==> r.0 == s
    ensures v.playing && s.current.data.None? ==> r.1 == Raised
  {
    if !v.playing then (s, NotPlaying)
    else if s.current.data.None? then (s, Raised)
    else if s.current.data.value.title != "" && v.paused then (s, NotPlaying)
    else (Reset(s).(clock := Clock(0, 0, false)), Done)
  }

  /** `pause`: the elapsed time is frozen at the moment of pausing. */
  function Pause(s: State, v: Voice, now: int): (r: (State, Outcome))
    ensures Valid(s) ==> Valid(r.0)
    ensures r.0 == s.(clock := r.0.clock) && r.0.clock.startTime == s.clock.startTime && r.0.clock.after == s.clock.after
    ensures v.playing ==> r.1 == Done && r.0.clock.lastElapsed == now - s.clock.startTime
    ensures !v.playing ==> r == (s, NotPlaying)
  {
    if v.playing then (s.(clock := s.clock.(lastElapsed := now - s.clock.startTime)), Done) else (s, NotPlaying)
  }

  /** `resume`: the clock is moved so that the frozen elapsed time continues from now. */
  function Resume(s: State, v: Voice, now: int): (r: (State, Outcome))
    ensures Valid(s) ==> Valid(r.0)
    ensures r.0 == s.(clock := r.0.clock) && r.0.clock.lastElapsed == s.clock.lastElapsed && r.0.clock.after == s.clock.after
    ensures v.paused ==> r.1 == Done && now - r.0.clock.startTime == s.clock.lastElapsed
    ensures !v.paused ==> r == (s, NotPaused)
  {
    if v.paused then (s.(clock := s.clock.(startTime := now - s.clock.lastElapsed)), Done) else (s, NotPaused)
  }

  /** `seek MM:SS`: a parseable position between 0 and the duration replays the source from
      there; `data["duration"]` raises on the empty dictionary. */
  function Seek(s: State, position: string, v: Voice, now: int, ok: bool): (r: (State, Outcome))
    ensures Valid(s) ==> Valid(r.0)
    ensures r.1 == Done <==> (v.playing && GetSeconds(position).Some? && s.current.data.Some?
      && 0 <= GetSeconds(position).value <= s.current.data.value.duration)
    ensures r.1 == Done ==> r.0 == PlayTrack(s, s.current.source, s.current.data, GetSeconds(position).value, v, now, ok)
    ensures r.1 != Done ==> r.0 == s
    ensures v.playing && GetSeconds(position).None? ==> r.1 == InvalidTime
  {
    if !v.playing then (s, NotPlaying)
    else match GetSeconds(position)
      case None => (s, InvalidTime)
      case Some(p) =>
        if s.current.data.None? then (s, Raised)
        else if 0 <= p <= s.current.data.value.duration then
          (PlayTrack(s, s.current.source, s.current.data, p, v, now, ok), Done)
        else (s, OutOfRange)
  }

  /** The shared body of `rewind` and `forward`, given the step as `get_seconds` parsed it
      (`None` for the error path). Only the step is range-checked, against
      `0 < step <= duration`, and the new position is the elapsed time minus (`backwards`)
      or plus the step. The test `step > 0` comes first and short-circuits, so a step that
      is not positive is refused without looking at `data`; the refusal names no duration. */
  function Jump(s: State, step: Option<int>, backwards: bool, v: Voice, now: int, ok: bool): (r: (State, Outcome))
    ensures Valid(s) ==> Valid(r.0)
    ensures r.1 == Done <==> (v.playing && step.Some? && s.current.data.Some?
      && 0 < step.value <= s.current.data.value.duration)
    ensures r.1 == Done ==>
      var target := if backwards then (now - s.clock.startTime) - step.value else (now - s.clock.startTime) + step.value;
      r.0 == PlayTrack(s, s.current.source, s.current.data, target, v, now, ok)
    ensures r.1 != Done ==> r.0 == s
    ensures !v.playing ==> r.1 == NotPlaying
    ensures v.playing && step.None? ==> r.1 == InvalidTime
    ensures v.playing && step.Some? && step.value <= 0 ==> r.1 == OutOfRange
    ensures v.playing && step.Some? && step.value > 0 && s.current.data.None? ==> r.1 == Raised
    ensures (v.playing && step.Some? && s.current.data.Some?
             && step.value > s.current.data.value.duration) ==> r.1 == OutOfRange
  {
    if !v.playing then (s, NotPlaying)
    else match step
      case None => (s, InvalidTime)
      case Some(p) =>
        if !(0 < p) then (s, OutOfRange)
        else if s.current.data.None? then (s, Raised)
        else if p <= s.current.data.value.duration then
          var elapsed := now - s.clock.startTime;
          (PlayTrack(s, s.current.source, s.current.data, if backwards then elapsed - p else elapsed + p, v, now, ok), Done)
        else (s, OutOfRange)
  }

  /** `rewind MM:SS`: a step between 1 second and the duration replays the source from the
      elapsed time minus the step; when FFmpeg opens the source, that is the new elapsed time,
      and otherwise the clock only records the elapsed time. */
  function Rewind(s: State, position: string, v: Voice, now: int, ok: bool): (r: (State, Outcome))
    ensures Valid(s) ==> Valid(r.0)
    ensures r.1 == Done <==> (v.playing && GetSeconds(position).Some? && s.current.data.Some?
      && 0 < GetSeconds(position).value <= s.current.data.value.duration)
    ensures r.1 == Done ==>
      r.0 == PlayTrack(s, s.current.source, s.current.data, (now - s.clock.startTime) - GetSeconds(position).value, v, now, ok)
      && r.0.clock.lastElapsed == if ok && s.current.source.Some? then (now - s.clock.startTime) - GetSeconds(position).value
                                  else now - s.clock.startTime
    ensures r.1 != Done ==> r.0 == s
    ensures v.playing && GetSeconds(position).Some? && GetSeconds(position).value <= 0 ==> r.1 == OutOfRange
  {
    Jump(s, GetSeconds(position), true, v, now, ok)
  }

  /** `forward MM:SS`: as rewind, with the step added; nothing keeps the new position within
      the track. */
  function Forward(s: State, position: string, v: Voice, now: int, ok: bool): (r: (State, Outcome))
    ensures Valid(s) ==> Valid(r.0)
    ensures r.1 == Done <==> (v.playing && GetSeconds(position).Some? && s.current.data.Some?
      && 0 < GetSeconds(position).value <= s.current.data.value.duration)
    ensures r.1 == Done ==>
      r.0 == PlayTrack(s, s.current.source, s.current.data, (now - s.clock.startTime) + GetSeconds(position).value, v, now, ok)
      && r.0.clock.lastElapsed == if ok && s.current.source.Some? then (now - s.clock.startTime) + GetSeconds(position).value
                                  else now - s.clock.startTime
    ensures r.1 != Done ==> r.0 == s
    ensures v.playing && GetSeconds(position).Some? && GetSeconds(position).value <= 0 ==> r.1 == OutOfRange
  {
    Jump(s, GetSeconds(position), false, v, now, ok)
  }

  /** `restart`: replay the source from 0 while playing or paused. The clock reads 0 elapsed
      from `now`; when FFmpeg opens the source, `after` is cleared for the stopped player and
      the current fields are refreshed from `data` (with the `KeyError` of an empty `data`
      caught after the clock update). */
  function Restart(s: State, v: Voice, now: int, ok: bool): (r: (State, Outcome))
    ensures Valid(s) ==> Valid(r.0)
    ensures r.0.store == s.store && r.0.modes == s.modes && r.0.file == s.file
    ensures (v.playing || v.paused) ==>
      && r.1 == Done
      && r.0.clock == Clock(now, 0, s.clock.after && !(ok && s.current.source.Some?))
      && (ok && s.current.source.Some? && s.current.data.Some? ==>
            var d := s.current.data.value;
            r.0.current == s.current.(currentTrack := Some(d.title), trackDuration := d.duration,
                                      thumbnail := d.thumbnail, webpage := Some(d.webpage),
                                      history := Record(s.current.history, d.title)))
      && (!(ok && s.current.source.Some? && s.current.data.Some?) ==> r.0.current == s.current)
    ensures !(v.playing || v.paused) ==> r == (s, NotPlaying)
  {
    if v.playing || v.paused then
      (PlayTrack(s.(clock := s.clock.(startTime := now, lastElapsed := 0)), s.current.source, s.current.data, 0, v, now, ok), Done)
    else (s, NotPlaying)
  }

  /** `loop`: refused while random selection is on, when nothing plays, or while the queue is
      being modified; otherwise looping is toggled. Queue looping is not consulted. */
  function Loop(s: State, v: Voice): (r: (State, Outcome))
    ensures Valid(s) ==> Valid(r.0)
    ensures s.modes.isRandom ==> r == (s, Conflict)
    ensures r.1 == Done <==> !s.modes.isRandom && v.playing && !s.modes.isModifyingQueue
    ensures r.1 == Done ==> r.0 == s.(modes := s.modes.(isLooping := !s.modes.isLooping))
    ensures r.1 != Done ==> r.0 == s
  {
    if s.modes.isRandom then (s, Conflict)
    else if !v.playing then (s, NotPlaying)
    else if s.modes.isModifyingQueue then (s, Busy)
    else (s.(modes := s.modes.(isLooping := !s.modes.isLooping)), Done)
  }

  /** `random`: refused while looping or while the queue is being modified; otherwise random
      selection is toggled. */
  function Random(s: State): (r: (State, Outcome))
    ensures Valid(s) ==> Valid(r.0)
    ensures s.modes.isLooping ==> r == (s, Conflict)
    ensures r.1 == Done <==> !s.modes.isLooping && !s.modes.isModifyingQueue
    ensures r.1 == Done ==> r.0 == s.(modes := s.modes.(isRandom := !s.modes.isRandom))
    ensures r.1 != Done ==> r.0 == s
  {
    if s.modes.isLooping then (s, Conflict)
    else if s.modes.isModifyingQueue then (s, Busy)
    else (s.(modes := s.modes.(isRandom := !s.modes.isRandom)), Done)
  }

  /** `loopqueue`: refused while looping, with nothing queued or snapshotted, or while the
      queue is being modified. Switching it on snapshots the queue (the source copies it
      unless the snapshot already equals it); switching it off empties the snapshot. */
  function LoopQueue(s: State): (r: (State, Outcome))
    ensures Valid(s) ==> Valid(r.0)
    ensures r.1 == Done <==>
      !s.modes.isLooping && (s.store.queue != [] || s.store.queueToLoop != []) && !s.modes.isModifyingQueue
    ensures r.1 == Done ==> r.0.modes == s.modes.(isLoopingQueue := !s.modes.isLoopingQueue)
    ensures r.1 == Done ==>
      && r.0.store == s.store.(queueToLoop := if s.modes.isLoopingQueue then [] else s.store.queue)
      && r.0.current == s.current && r.0.clock == s.clock && r.0.file == s.file
    ensures r.1 != Done ==> r.0 == s
  {
    if s.modes.isLooping then (s, Conflict)
    else if s.store.queue == [] && s.store.queueToLoop == [] then (s, QueueEmpty)
    else if s.modes.isModifyingQueue then (s, Busy)
    else if !s.modes.isLoopingQueue then
      (s.(store := s.store.(queueToLoop := s.store.queue), modes := s.modes.(isLoopingQueue := true)), Done)
    else (s.(store := s.store.(queueToLoop := []), modes := s.modes.(isLoopingQueue := false)), Done)
  }

  // ---------------------------------------------------------------- properties

  /** The elapsed time survives a pause: after pausing at `t1` and resuming at `t2`, the clock
      reads at `t2` what it read at `t1`. */
  lemma PauseResumeKeepsElapsed(s: State, v1: Voice, v2: Voice, t1: int, t2: int)
    requires v1.playing && v2.paused
    ensures var p := Pause(s, v1, t1).0;
      var r := Resume(p, v2, t2).0;
      t2 - r.clock.startTime == t1 - s.clock.startTime && r.clock.lastElapsed == t1 - s.clock.startTime
  {
  }

  /** `play_track` keeps the history free of repeats and records the played title, once. */
  lemma PlayTrackRecordsOnce(s: State, url: string, d: TrackData, seconds: int, v: Voice, now: int)
    requires NoDuplicates(s.current.history)
    ensures var r := PlayTrack(s, Some(url), Some(d), seconds, v, now, true);
      NoDuplicates(r.current.history) && d.title in r.current.history
      && (d.title in s.current.history ==> r.current.history == s.current.history)
      && now - r.clock.startTime == seconds
  {
  }

  /** With looping on and a remembered track, `play_next` replays that track and leaves a
      non-empty queue as it is. */
  lemma LoopingReplays(s: State, v: Voice, now: int, pick: nat, ok: bool)
    requires s.clock.after && v.listeners != 1 && s.modes.isLooping && !s.modes.isRandom
    requires s.store.trackToLoop.Some? && s.store.queue != []
    ensures var r := PlayNext(s, v, now, pick, ok);
      r.1 == Done && r.0.store == s.store
      && (ok ==> r.0.current.currentTrack == Some(s.store.trackToLoop.value.title))
  {
  }

  /** With queue looping on, the track after the last one is the first of the snapshot, and
      the snapshot itself is kept. */
  lemma LoopQueueRefills(s: State, v: Voice, now: int, ok: bool, pick: nat)
    requires s.clock.after && v.listeners != 1 && !s.modes.isLooping && !s.modes.isRandom
    requires s.modes.isLoopingQueue && s.store.queue == [] && s.store.queueToLoop != []
    ensures var r := PlayNext(s, v, now, pick, ok);
      r.1 == Done && r.0.store == Store(s.store.queueToLoop[1..], s.store.queueToLoop, Some(s.store.queueToLoop[0]))
  {
    var q := s.store.queueToLoop;
    assert RemoveAt(q, 0) == q[1..];
  }

  /** A cleared `after` flag swallows exactly one callback: the next one runs as if the flag
      had never been cleared. */
  lemma AfterIsOneShot(s: State, v: Voice, now: int, pick: nat, ok: bool)
    requires !s.clock.after
    ensures var r := PlayNext(s, v, now, pick, ok);
      r.1 == Silent && r.0.store == s.store
      && PlayNext(r.0, v, now, pick, ok) == PlayNext(s.(clock := s.clock.(after := true)), v, now, pick, ok)
  {
  }

  /** A paused player is not playing, so `stop` refuses it whatever `data` holds; a playing
      player with a non-empty `data` is stopped. */
  lemma StopRefusesWhilePaused(s: State, listeners: nat)
    ensures Stop(s, Voice(false, true, listeners)) == (s, NotPlaying)
    ensures s.current.data.Some? ==> Stop(s, Voice(true, false, listeners)).1 == Done
  {
  }

  /** `rewind` checks only the step, so rewinding by more than has elapsed asks FFmpeg for a
      negative position. */
  lemma RewindCanGoNegative(s: State, v: Voice, now: int, step: int)
    requires v.playing && s.current.data.Some? && s.current.source.Some?
    requires 0 < step <= s.current.data.value.duration && now - s.clock.startTime < step
    ensures Rewind(s, FormatTime(step), v, now, true).1 == Done
    ensures Rewind(s, FormatTime(step), v, now, true).0.clock.lastElapsed < 0
  {
    GetSecondsFormatTime(step);
  }

  /** Looping and queue looping can both be on, since `loop` does not look at queue looping;
      the invariant still holds. */
  lemma LoopAndLoopQueueTogether(s: State, v: Voice)
    requires !s.modes.isLooping && !s.modes.isRandom && !s.modes.isModifyingQueue && v.playing
    requires !s.modes.isLoopingQueue && s.store.queue != []
    ensures var q := LoopQueue(s).0;
      var l := Loop(q, v).0;
      l.modes.isLooping && l.modes.isLoopingQueue && (Valid(s) ==> Valid(l))
  {
  }
}
