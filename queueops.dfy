/**
 * The value-level operations of the queue store: `remove_track`, `reposition_track`,
 * `remove_duplicates`, the title sort, `random.shuffle`, the append-if-absent of add and
 * playlistadd, and the URL collection of playlistfetch. Each comes with the properties the
 * commands rely on; the `Mixer` class applies them to its fields.
 */
module QueueOps {
  import opened Wrappers
  import opened Text
  import opened Tracks

  // ---------------------------------------------------------------- remove_track

  /** State of `remove_track` after some names: the list left, the elements popped (in order)
      and the names reported as not found. */
  datatype Removal<T> = Removal(rest: seq<T>, removed: seq<T>, notFound: seq<string>)

  /** One name: pop the first fuzzy match, or record the name as not found (once). */
  function RemoveOne<T>(st: Removal<T>, title: T -> string, name: string): Removal<T> {
    match FirstMatch(st.rest, title, name)
    case Some(i) => Removal(RemoveAt(st.rest, i), st.removed + [st.rest[i]], st.notFound)
    case None =>
      Removal(st.rest, st.removed, if name in st.notFound then st.notFound else st.notFound + [name])
  }

  /** `remove_track(queue, *names)` on the list alone, names taken in order. */
  function RemoveNames<T>(q: seq<T>, title: T -> string, names: seq<string>): Removal<T>
    decreases |names|
  {
    if names == [] then Removal(q, [], [])
    else RemoveOne(RemoveNames(q, title, names[..|names| - 1]), title, names[|names| - 1])
  }

  /** Nothing is lost or invented: what is left plus what was popped is the input, and each
      name pops at most one element or is reported. */
  lemma {:induction false} RemoveNamesConserves<T>(q: seq<T>, title: T -> string, names: seq<string>)
    ensures var r := RemoveNames(q, title, names);
      && multiset(r.rest) + multiset(r.removed) == multiset(q)
      && |r.rest| + |r.removed| == |q|
      && |r.removed| + |r.notFound| <= |names|
    decreases |names|
  {
    if names != [] {
      var prev := RemoveNames(q, title, names[..|names| - 1]);
      RemoveNamesConserves(q, title, names[..|names| - 1]);
      match FirstMatch(prev.rest, title, names[|names| - 1])
      case Some(i) => RemoveAtMultiset(prev.rest, i);
      case None =>
    }
  }

  /** The name `n` was reported as not found, or some popped element matches it. */
  predicate Accounted<T>(r: Removal<T>, title: T -> string, n: string) {
    n in r.notFound || exists k :: 0 <= k < |r.removed| && Matches(n, title(r.removed[k]))
  }

  /** No name is ignored: each is reported as not found or matches a popped element. */
  lemma {:induction false} RemoveNamesAccountsForNames<T>(q: seq<T>, title: T -> string, names: seq<string>, n: string)
    requires n in names
    ensures Accounted(RemoveNames(q, title, names), title, n)
    decreases |names|
  {
    var init := names[..|names| - 1];
    var last := names[|names| - 1];
    var prev := RemoveNames(q, title, init);
    var r := RemoveNames(q, title, names);
    assert r == RemoveOne(prev, title, last);
    assert |prev.removed| <= |r.removed| && r.removed[..|prev.removed|] == prev.removed;
    if n == last {
      match FirstMatch(prev.rest, title, last)
      case Some(i) =>
        assert Matches(last, title(r.removed[|prev.removed|]));
      case None =>
    } else {
      assert n in init by { var j :| 0 <= j < |names| && names[j] == n; assert init[j] == n; }
      RemoveNamesAccountsForNames(q, title, init, n);
      if n !in prev.notFound {
        var k :| 0 <= k < |prev.removed| && Matches(n, title(prev.removed[k]));
        assert r.removed[k] == prev.removed[k];
      }
    }
  }

  /** The elements left keep their relative order. */
  lemma {:induction false} RemoveNamesKeepsOrder<T>(q: seq<T>, title: T -> string, names: seq<string>)
    ensures IsSubseq(RemoveNames(q, title, names).rest, q)
    decreases |names|
  {
    if names == [] {
      SubseqRefl(q);
    } else {
      var prev := RemoveNames(q, title, names[..|names| - 1]);
      RemoveNamesKeepsOrder(q, title, names[..|names| - 1]);
      match FirstMatch(prev.rest, title, names[|names| - 1])
      case Some(i) =>
        SubseqRemoveAt(prev.rest, i);
        SubseqTrans(RemoveAt(prev.rest, i), prev.rest, q);
      case None =>
    }
  }

  /** Each name reported as not found comes from the arguments and is reported once. */
  lemma {:induction false} RemoveNamesNotFoundOnce<T>(q: seq<T>, title: T -> string, names: seq<string>)
    ensures var r := RemoveNames(q, title, names);
      NoDuplicates(r.notFound) && forall n :: n in r.notFound ==> n in names
    decreases |names|
  {
    if names != [] {
      var init := names[..|names| - 1];
      RemoveNamesNotFoundOnce(q, title, init);
      assert forall n :: n in init ==> n in names;
    }
  }

  /** A name reported as not found matches nothing that is left. */
  lemma {:induction false} RemoveNamesNotFoundUnmatched<T>(q: seq<T>, title: T -> string, names: seq<string>, n: string)
    requires n in RemoveNames(q, title, names).notFound
    ensures var r := RemoveNames(q, title, names);
      forall j :: 0 <= j < |r.rest| ==> !Matches(n, title(r.rest[j]))
    decreases |names|
  {
    if names != [] {
      var init := names[..|names| - 1];
      var prev := RemoveNames(q, title, init);
      match FirstMatch(prev.rest, title, names[|names| - 1])
      case Some(i) =>
        RemoveNamesNotFoundUnmatched(q, title, init, n);
        var rest := RemoveAt(prev.rest, i);
        forall j | 0 <= j < |rest|
          ensures !Matches(n, title(rest[j]))
        {
          assert rest[j] == prev.rest[if j < i then j else j + 1];
        }
      case None =>
        if n in prev.notFound {
          RemoveNamesNotFoundUnmatched(q, title, init, n);
        }
    }
  }

  /** A single name: the first fuzzy match is popped and reported, or, with no match, the list
      is unchanged and the name is reported as not found. */
  lemma RemoveSingleName<T>(q: seq<T>, title: T -> string, name: string)
    ensures var r := RemoveNames(q, title, [name]);
      match FirstMatch(q, title, name)
      case Some(i) => r.rest == q[..i] + q[i + 1..] && r.removed == [q[i]] && r.notFound == []
      case None => r.rest == q && r.removed == [] && r.notFound == [name]
  {
    assert [name][..0] == [];
  }

  /** The loop snapshot side of `remove_track`: for each popped track, in order, drop the first
      equal tuple from `queue_to_loop` when there is one. */
  function RemoveEach<T(==)>(s: seq<T>, xs: seq<T>): seq<T>
    decreases |xs|
  {
    if xs == [] then s
    else
      var p := RemoveEach(s, xs[..|xs| - 1]);
      var x := xs[|xs| - 1];
      if x in p then RemoveFirst(p, x) else p
  }

  /** Only the popped tracks leave the snapshot, at most one copy per pop, in order. */
  lemma {:induction false} RemoveEachOnlyRemoves<T>(s: seq<T>, xs: seq<T>)
    ensures IsSubseq(RemoveEach(s, xs), s)
    ensures |s| - |xs| <= |RemoveEach(s, xs)|
    decreases |xs|
  {
    if xs == [] {
      SubseqRefl(s);
    } else {
      var p := RemoveEach(s, xs[..|xs| - 1]);
      var x := xs[|xs| - 1];
      RemoveEachOnlyRemoves(s, xs[..|xs| - 1]);
      if x in p {
        RemoveFirstSubseq(p, x);
        SubseqTrans(RemoveFirst(p, x), p, s);
      }
    }
  }

  /** The snapshot loses one copy per popped track, as far as it has copies: a multiset
      difference. */
  lemma {:induction false} RemoveEachMultiset<T>(s: seq<T>, xs: seq<T>)
    ensures multiset(RemoveEach(s, xs)) == multiset(s) - multiset(xs)
    decreases |xs|
  {
    if xs != [] {
      var init := xs[..|xs| - 1];
      var x := xs[|xs| - 1];
      RemoveEachMultiset(s, init);
      assert xs == init + [x];
      var p := RemoveEach(s, init);
      if x !in p {
        assert multiset(p)[x] == 0;
      }
    }
  }

  /** A track that was not popped keeps all its copies in the snapshot. */
  lemma {:induction false} RemoveEachKeepsOthers<T>(s: seq<T>, xs: seq<T>, y: T)
    requires y !in xs
    ensures multiset(RemoveEach(s, xs))[y] == multiset(s)[y]
    decreases |xs|
  {
    if xs != [] {
      var init := xs[..|xs| - 1];
      assert y !in init by { assert forall z :: z in init ==> z in xs; }
      RemoveEachKeepsOthers(s, init, y);
    }
  }

  /** `remove_track` on a playlist: the same loops as on the queue, over (title, webpage) pairs,
      without a loop snapshot. Returns the list left, the removed titles and the names not
      found. */
  method RemoveFromPlaylist(playlist: seq<Entry>, names: seq<string>)
    returns (rest: seq<Entry>, removedTitles: seq<string>, notFound: seq<string>)
    ensures var r := RemoveNames(playlist, EntryTitle, names);
      rest == r.rest && notFound == r.notFound && |removedTitles| == |r.removed|
      && forall m :: 0 <= m < |r.removed| ==> removedTitles[m] == r.removed[m].title
  {
    rest, removedTitles, notFound := playlist, [], [];
    ghost var removed: seq<Entry> := [];
    var k := 0;
    while k < |names|
      invariant 0 <= k <= |names|
      invariant RemoveNames(playlist, EntryTitle, names[..k]) == Removal(rest, removed, notFound)
      invariant |removedTitles| == |removed|
      invariant forall m :: 0 <= m < |removed| ==> removedTitles[m] == removed[m].title
    {
      var name := names[k];
      assert names[..k + 1][..k] == names[..k];
      var i := FindFirst(rest, EntryTitle, name);
      if i < |rest| {
        removed := removed + [rest[i]];
        removedTitles := removedTitles + [rest[i].title];
        rest := RemoveAt(rest, i);
      } else if name !in notFound {
        notFound := notFound + [name];
      }
      k := k + 1;
    }
    assert names[..k] == names;
  }

  // ---------------------------------------------------------------- reposition_track

  /** Outcome of `reposition_track`: no match (the source then reads an unbound variable and
      fails), the match already at the target index, or the reordered list. */
  datatype Repositioned<T> = NotInQueue | SameIndex | Moved(from: nat, result: seq<T>)

  /** `reposition_track(queue, name, position)` with a 0-based target: pop the first fuzzy
      match and `insert` it at the target, which appends when the target is past the end. */
  function Reposition<T>(q: seq<T>, title: T -> string, name: string, position: nat): (r: Repositioned<T>)
    ensures r.NotInQueue? <==> forall j :: 0 <= j < |q| ==> !Matches(name, title(q[j]))
    ensures r.SameIndex? ==> position < |q| && Matches(name, title(q[position]))
    ensures r.SameIndex? ==> forall j :: 0 <= j < position ==> !Matches(name, title(q[j]))
    ensures r.Moved? ==> FirstMatch(q, title, name) == Some(r.from) && r.from != position
    ensures r.Moved? ==> forall j :: 0 <= j < r.from ==> !Matches(name, title(q[j]))
    ensures r.Moved? ==> |r.result| == |q| && multiset(r.result) == multiset(q)
    ensures r.Moved? ==> r.result[Min(position, |q| - 1)] == q[r.from]
    ensures r.Moved? ==> RemoveAt(r.result, Min(position, |q| - 1)) == RemoveAt(q, r.from)
  {
    match FirstMatch(q, title, name)
    case None => NotInQueue
    case Some(i) =>
      if i == position then SameIndex
      else
        RemoveAtMultiset(q, i);
        Moved(i, InsertAt(RemoveAt(q, i), position, q[i]))
  }

  /** After a move to an index inside the list, repeating the same request is a no-op when no
      entry before the target also matches the name. */
  lemma RepositionAgainIsNoOp<T>(q: seq<T>, title: T -> string, name: string, position: nat)
    requires Reposition(q, title, name, position).Moved? && position < |q|
    requires var r := Reposition(q, title, name, position).result;
      forall j :: 0 <= j < position ==> !Matches(name, title(r[j]))
    ensures Reposition(Reposition(q, title, name, position).result, title, name, position).SameIndex?
  {
  }

  /** ... and is not one in general: when two entries match the name, moving it from the
      front to the second slot twice moves a different entry each time and restores the
      list. */
  lemma RepositionAgainCanMove<T>(x: T, y: T, title: T -> string, name: string)
    requires Matches(name, title(x)) && Matches(name, title(y))
    ensures Reposition([x, y], title, name, 1) == Moved(0, [y, x])
    ensures Reposition([y, x], title, name, 1) == Moved(0, [x, y])
  {
    assert FirstMatch([x, y], title, name) == Some(0);
    assert FirstMatch([y, x], title, name) == Some(0);
    assert RemoveAt([x, y], 0) == [y];
    assert RemoveAt([y, x], 0) == [x];
    assert InsertAt([y], 1, x) == [y, x];
    assert InsertAt([x], 1, y) == [x, y];
  }

  /** The snapshot side: a track found in `queue_to_loop` is moved to the same index there. */
  function RepositionSnapshot<T(==)>(loop: seq<T>, item: T, position: nat): (r: seq<T>)
    ensures item !in loop ==> r == loop
    ensures item in loop ==> |r| == |loop| && multiset(r) == multiset(loop)
    ensures item in loop ==> r[Min(position, |loop| - 1)] == item
    ensures item in loop ==> RemoveAt(r, Min(position, |loop| - 1)) == RemoveFirst(loop, item)
  {
    if item in loop then InsertAt(RemoveFirst(loop, item), position, item) else loop
  }

  /** `reposition_track` with its search loop, on the queue or on a playlist. */
  method RepositionIn<T>(q: seq<T>, title: T -> string, name: string, position: nat) returns (r: Repositioned<T>)
    ensures r == Reposition(q, title, name, position)
  {
    var i := FindFirst(q, title, name);
    if i == |q| {
      return NotInQueue;
    }
    if i == position {
      return SameIndex;
    }
    var item := q[i];
    var rest := RemoveAt(q, i);
    r := Moved(i, InsertAt(rest, position, item));
  }

  // ---------------------------------------------------------------- remove_duplicates

  predicate DistinctTitles(q: seq<Track>) {
    forall i, j :: 0 <= i < j < |q| ==> q[i].title != q[j].title
  }

  /** Index of the first track with exactly this title. */
  function TitleIndex(q: seq<Track>, t: string): (r: Option<nat>)
    ensures r.Some? ==> r.value < |q| && q[r.value].title == t
    ensures r.Some? ==> forall j :: 0 <= j < r.value ==> q[j].title != t
    ensures r.None? <==> forall j :: 0 <= j < |q| ==> q[j].title != t
  {
    if q == [] then None
    else if q[0].title == t then Some(0)
    else match TitleIndex(q[1..], t)
      case Some(i) => Some(i + 1)
      case None => None
  }

  /** The loop of `remove_duplicates` from a given `seen` set on. */
  function DedupeFrom(q: seq<Track>, seen: set<string>): seq<Track>
  {
    if q == [] then []
    else if q[0].title in seen then DedupeFrom(q[1..], seen)
    else [q[0]] + DedupeFrom(q[1..], seen + {q[0].title})
  }

  /** `remove_duplicates`: keep the first track of every exact title. */
  function RemoveDuplicates(q: seq<Track>): seq<Track> {
    DedupeFrom(q, {})
  }

  /** What `remove_duplicates` keeps keeps its order, has no repeated title and avoids the
      titles already seen. */
  lemma {:induction false} DedupeFromShape(q: seq<Track>, seen: set<string>)
    ensures var r := DedupeFrom(q, seen);
      && IsSubseq(r, q)
      && DistinctTitles(r)
      && forall k :: 0 <= k < |r| ==> r[k].title !in seen
  {
    if q == [] {
    } else if q[0].title in seen {
      DedupeFromShape(q[1..], seen);
      var r := DedupeFrom(q[1..], seen);
      assert IsSubseq(r, q[1..]);
    } else {
      DedupeFromShape(q[1..], seen + {q[0].title});
    }
  }

  /** Every title not yet seen survives. */
  lemma {:induction false} DedupeFromCovers(q: seq<Track>, seen: set<string>)
    ensures var r := DedupeFrom(q, seen);
      forall i :: 0 <= i < |q| && q[i].title !in seen ==> exists k :: 0 <= k < |r| && r[k].title == q[i].title
  {
    if q != [] {
      var r := DedupeFrom(q, seen);
      if q[0].title in seen {
        DedupeFromCovers(q[1..], seen);
        assert r == DedupeFrom(q[1..], seen);
        forall i | 0 <= i < |q| && q[i].title !in seen
          ensures exists k :: 0 <= k < |r| && r[k].title == q[i].title
        {
          assert i > 0 && q[i] == q[1..][i - 1];
          var k :| 0 <= k < |r| && r[k].title == q[1..][i - 1].title;
          assert r[k].title == q[i].title;
        }
        assert forall i :: 0 <= i < |q| && q[i].title !in seen ==> exists k :: 0 <= k < |r| && r[k].title == q[i].title;
      } else {
        var seen' := seen + {q[0].title};
        var tail := DedupeFrom(q[1..], seen');
        DedupeFromCovers(q[1..], seen');
        assert r == [q[0]] + tail;
        forall i | 0 <= i < |q| && q[i].title !in seen
          ensures exists k :: 0 <= k < |r| && r[k].title == q[i].title
        {
          if q[i].title == q[0].title {
            assert r[0].title == q[i].title;
          } else {
            assert q[i] == q[1..][i - 1];
            assert q[1..][i - 1].title !in seen';
            var k :| 0 <= k < |tail| && tail[k].title == q[i].title;
            assert r[k + 1] == tail[k];
          }
        }
        assert forall i :: 0 <= i < |q| && q[i].title !in seen ==> exists k :: 0 <= k < |r| && r[k].title == q[i].title;
        assert r == DedupeFrom(q, seen);
      }
    }
  }

  /** Every kept track is the first occurrence of its title. */
  lemma {:induction false} DedupeFromKeepsFirst(q: seq<Track>, seen: set<string>)
    ensures var r := DedupeFrom(q, seen);
      forall k :: 0 <= k < |r| ==> TitleIndex(q, r[k].title).Some? && q[TitleIndex(q, r[k].title).value] == r[k]
  {
    if q != [] {
      var r := DedupeFrom(q, seen);
      if q[0].title in seen {
        DedupeFromKeepsFirst(q[1..], seen);
        DedupeFromShape(q[1..], seen);
        forall k | 0 <= k < |r|
          ensures TitleIndex(q, r[k].title).Some? && q[TitleIndex(q, r[k].title).value] == r[k]
        {
          assert r[k].title != q[0].title;
        }
      } else {
        var seen' := seen + {q[0].title};
        var tail := DedupeFrom(q[1..], seen');
        DedupeFromKeepsFirst(q[1..], seen');
        DedupeFromShape(q[1..], seen');
        forall k | 0 <= k < |r|
          ensures TitleIndex(q, r[k].title).Some? && q[TitleIndex(q, r[k].title).value] == r[k]
        {
          if k > 0 {
            assert r[k] == tail[k - 1];
            assert r[k].title != q[0].title;
          }
        }
      }
    }
  }

  /** A list whose titles are distinct and unseen passes through unchanged. */
  lemma {:induction false} DedupeFromIdentity(q: seq<Track>, seen: set<string>)
    requires DistinctTitles(q)
    requires forall k :: 0 <= k < |q| ==> q[k].title !in seen
    ensures DedupeFrom(q, seen) == q
  {
    if q != [] {
      assert forall k :: 1 <= k < |q| ==> q[k].title != q[0].title;
      DedupeFromIdentity(q[1..], seen + {q[0].title});
    }
  }

  /** `remove_duplicates`: the result keeps the queue's order, has no repeated title, keeps
      exactly the first track of every title of the queue, and a second pass changes nothing. */
  lemma RemoveDuplicatesSpec(q: seq<Track>)
    ensures var r := RemoveDuplicates(q);
      && IsSubseq(r, q)
      && DistinctTitles(r)
      && (forall i :: 0 <= i < |q| ==> exists k :: 0 <= k < |r| && r[k].title == q[i].title)
      && (forall k :: 0 <= k < |r| ==> TitleIndex(q, r[k].title).Some? && q[TitleIndex(q, r[k].title).value] == r[k])
      && RemoveDuplicates(r) == r
  {
    DedupeFromShape(q, {});
    DedupeFromCovers(q, {});
    DedupeFromKeepsFirst(q, {});
    DedupeFromIdentity(RemoveDuplicates(q), {});
  }

  /** A queue with two equal titles loses the later track. */
  lemma RemoveDuplicatesExample(a: Track, b: Track)
    requires a.title == b.title
    ensures RemoveDuplicates([a, b]) == [a]
  {
    var seen: set<string> := {} + {a.title};
    assert [a, b][1..] == [b];
    assert [b][1..] == [];
    assert DedupeFrom([b], seen) == [];
  }

  // ---------------------------------------------------------------- sort

  /** Python's comparison of two strings: lexicographic on code points, a proper prefix first. */
  function Less(a: string, b: string): bool {
    if a == [] then b != []
    else if b == [] then false
    else if a[0] != b[0] then a[0] < b[0]
    else Less(a[1..], b[1..])
  }

  lemma {:induction false} LessIrreflexive(a: string)
    ensures !Less(a, a)
  {
    if a != [] { LessIrreflexive(a[1..]); }
  }

  lemma {:induction false} LessAsymmetric(a: string, b: string)
    ensures Less(a, b) ==> !Less(b, a)
  {
    if a != [] && b != [] && a[0] == b[0] { LessAsymmetric(a[1..], b[1..]); }
  }

  lemma {:induction false} LessTransitive(a: string, b: string, c: string)
    requires Less(a, b) && Less(b, c)
    ensures Less(a, c)
  {
    if a != [] && a[0] == b[0] && b[0] == c[0] { LessTransitive(a[1..], b[1..], c[1..]); }
  }

  lemma {:induction false} LessTotal(a: string, b: string)
    ensures a == b || Less(a, b) || Less(b, a)
  {
    if a != [] && b != [] && a[0] == b[0] {
      LessTotal(a[1..], b[1..]);
      if a[1..] == b[1..] { assert a == [a[0]] + a[1..] && b == [b[0]] + b[1..]; }
    }
  }

  /** "Not greater" is transitive, which sortedness needs. */
  lemma NotLessTransitive(a: string, b: string, c: string)
    requires !Less(b, a) && !Less(c, b)
    ensures !Less(c, a)
  {
    LessTotal(a, b);
    if Less(c, a) && Less(a, b) { LessTransitive(c, a, b); }
  }

  /** Sorted by title, ascending. */
  predicate SortedByTitle(q: seq<Track>) {
    forall i, j :: 0 <= i < j < |q| ==> !Less(q[j].title, q[i].title)
  }

  /** The tracks having exactly this title, in order. */
  function WithTitle(q: seq<Track>, t: string): seq<Track>
  {
    if q == [] then []
    else (if q[0].title == t then [q[0]] else []) + WithTitle(q[1..], t)
  }

  /** Insert before the first track that is not smaller, so that earlier tracks with an equal
      title stay in front. */
  function InsertByTitle(x: Track, s: seq<Track>): (r: seq<Track>)
    ensures |r| == |s| + 1 && multiset(r) == multiset(s) + multiset{x}
  {
    if s == [] then [x]
    else if Less(s[0].title, x.title) then
      assert s == [s[0]] + s[1..];
      [s[0]] + InsertByTitle(x, s[1..])
    else [x] + s
  }

  lemma {:induction false} InsertByTitleSorted(x: Track, s: seq<Track>)
    requires SortedByTitle(s)
    ensures SortedByTitle(InsertByTitle(x, s))
  {
    if s != [] {
      var r := InsertByTitle(x, s);
      if Less(s[0].title, x.title) {
        var tail := InsertByTitle(x, s[1..]);
        InsertByTitleSorted(x, s[1..]);
        assert r == [s[0]] + tail;
        LessAsymmetric(s[0].title, x.title);
        forall j | 0 < j < |r| ensures !Less(r[j].title, r[0].title)
        {
          assert r[j] in multiset(tail);
          if r[j] != x {
            assert r[j] in s[1..];
          }
        }
      } else {
        forall i, j | 0 <= i < j < |r| ensures !Less(r[j].title, r[i].title)
        {
          if i == 0 {
            if j > 1 { NotLessTransitive(x.title, s[0].title, s[j - 1].title); }
          } else {
            assert r[i] == s[i - 1] && r[j] == s[j - 1];
          }
        }
      }
    }
  }

  lemma WithTitleCons(x: Track, s: seq<Track>, t: string)
    ensures WithTitle([x] + s, t) == (if x.title == t then [x] else []) + WithTitle(s, t)
  {
    assert ([x] + s)[1..] == s;
  }

  lemma {:induction false} InsertByTitleWithTitle(x: Track, s: seq<Track>, t: string)
    ensures WithTitle(InsertByTitle(x, s), t) == (if x.title == t then [x] else []) + WithTitle(s, t)
  {
    if s == [] {
      WithTitleCons(x, [], t);
      assert [x] + [] == [x];
    } else if Less(s[0].title, x.title) {
      var tail := InsertByTitle(x, s[1..]);
      InsertByTitleWithTitle(x, s[1..], t);
      var head := if s[0].title == t then [s[0]] else [];
      var mid := if x.title == t then [x] else [];
      var rest := WithTitle(s[1..], t);
      WithTitleCons(s[0], tail, t);
      assert InsertByTitle(x, s) == [s[0]] + tail;
      assert WithTitle(InsertByTitle(x, s), t) == head + (mid + rest);
      WithTitleCons(s[0], s[1..], t);
      assert s == [s[0]] + s[1..];
      assert WithTitle(s, t) == head + rest;
      if t == x.title {
        LessIrreflexive(t);
        assert head == [];
        assert head + rest == rest;
        assert head + (mid + rest) == mid + rest;
      } else {
        assert mid == [];
        assert mid + rest == rest;
      }
    } else {
      WithTitleCons(x, s, t);
    }
  }

  /** `sorted(queue, key=title)`: a stable insertion sort. */
  function SortByTitle(q: seq<Track>): (r: seq<Track>)
    ensures |r| == |q| && multiset(r) == multiset(q)
  {
    if q == [] then []
    else
      assert q == [q[0]] + q[1..];
      InsertByTitle(q[0], SortByTitle(q[1..]))
  }

  /** The sort orders by title, is a permutation, and is stable: the tracks of any one title
      appear in the same order as in the queue. */
  lemma {:induction false} SortByTitleSpec(q: seq<Track>)
    ensures var r := SortByTitle(q);
      && SortedByTitle(r)
      && multiset(r) == multiset(q)
      && forall t :: WithTitle(r, t) == WithTitle(q, t)
  {
    if q != [] {
      SortByTitleSpec(q[1..]);
      InsertByTitleSorted(q[0], SortByTitle(q[1..]));
      forall t ensures WithTitle(SortByTitle(q), t) == WithTitle(q, t) {
        InsertByTitleWithTitle(q[0], SortByTitle(q[1..]), t);
      }
    }
  }

  /** A queue already in title order is left as it is. */
  lemma {:induction false} SortSortedIsIdentity(q: seq<Track>)
    requires SortedByTitle(q)
    ensures SortByTitle(q) == q
  {
    if q != [] {
      SortSortedIsIdentity(q[1..]);
      if |q| > 1 {
        assert !Less(q[1].title, q[0].title);
      }
      assert [q[0]] + q[1..] == q;
    }
  }

  // ---------------------------------------------------------------- shuffle

  /** `random.shuffle`, Fisher-Yates from the back: positions `i - 1` down to 1 are each swapped
      with an index drawn as `draw(i - 1) % i`. */
  function ShuffleFrom<T>(s: seq<T>, i: nat, draw: nat -> nat): (r: seq<T>)
    requires i <= |s|
    ensures |r| == |s| && multiset(r) == multiset(s)
    decreases i
  {
    if i <= 1 then s
    else
      var k := i - 1;
      var j := draw(k) % (k + 1);
      ShuffleFrom(s[k := s[j]][j := s[k]], k, draw)
  }

  /** The shuffled list is a permutation of the input. */
  function Shuffled<T>(q: seq<T>, draw: nat -> nat): (r: seq<T>)
    ensures |r| == |q| && multiset(r) == multiset(q)
  {
    ShuffleFrom(q, |q|, draw)
  }

  // ---------------------------------------------------------------- append if absent

  /** Append each element that is not already there (the snapshot side of `add`, and the
      duplicate-free append of playlistadd). */
  function AppendAbsent<T(==)>(s: seq<T>, xs: seq<T>): seq<T>
    decreases |xs|
  {
    if xs == [] then s
    else
      var p := AppendAbsent(s, xs[..|xs| - 1]);
      if xs[|xs| - 1] in p then p else p + [xs[|xs| - 1]]
  }

  /** The old list stays in front, every added element ends up present, nothing else is added,
      and a list without repeats stays without repeats. */
  lemma {:induction false} AppendAbsentSpec<T>(s: seq<T>, xs: seq<T>)
    ensures var r := AppendAbsent(s, xs);
      && |s| <= |r| <= |s| + |xs|
      && r[..|s|] == s
      && (forall x :: x in r <==> x in s || x in xs)
      && (NoDuplicates(s) ==> NoDuplicates(r))
    decreases |xs|
  {
    if xs != [] {
      var init := xs[..|xs| - 1];
      AppendAbsentSpec(s, init);
      var p := AppendAbsent(s, init);
      assert xs == init + [xs[|xs| - 1]];
      if xs[|xs| - 1] !in p {
        assert (p + [xs[|xs| - 1]])[..|s|] == p[..|s|];
      }
    }
  }

  // ---------------------------------------------------------------- resolve and fetch

  /** The tracks the resolver returns for the queries, in order; failed queries are skipped. */
  function ResolveAll(queries: seq<string>, resolve: string -> Resolution): (r: seq<Track>)
    ensures |r| <= |queries|
    decreases |queries|
  {
    if queries == [] then []
    else
      var p := ResolveAll(queries[..|queries| - 1], resolve);
      match resolve(queries[|queries| - 1])
      case Resolved(t) => p + [t]
      case _ => p
  }

  /** A track is resolved for the queries exactly when some query resolves to it. */
  lemma {:induction false} ResolveAllMembers(queries: seq<string>, resolve: string -> Resolution, t: Track)
    ensures t in ResolveAll(queries, resolve) <==> exists i :: 0 <= i < |queries| && resolve(queries[i]) == Resolved(t)
    decreases |queries|
  {
    if queries != [] {
      var init := queries[..|queries| - 1];
      ResolveAllMembers(init, resolve, t);
      if exists i :: 0 <= i < |queries| && resolve(queries[i]) == Resolved(t) {
        var i :| 0 <= i < |queries| && resolve(queries[i]) == Resolved(t);
        if i < |init| { assert init[i] == queries[i]; }
      }
      if exists i :: 0 <= i < |init| && resolve(init[i]) == Resolved(t) {
        var i :| 0 <= i < |init| && resolve(init[i]) == Resolved(t);
        assert queries[i] == init[i];
      }
    }
  }

  /** playlistfetch's inner loop: the webpage of every entry the name matches, in playlist
      order. */
  function MatchingUrls(entries: seq<Entry>, name: string): (r: seq<string>)
    ensures |r| <= |entries|
    decreases |entries|
  {
    if entries == [] then []
    else
      var p := MatchingUrls(entries[..|entries| - 1], name);
      var e := entries[|entries| - 1];
      if Matches(name, e.title) then p + [e.webpage] else p
  }

  /** playlistfetch's outer loop: the matching webpages of each name in turn. */
  function FetchUrls(entries: seq<Entry>, names: seq<string>): (r: seq<string>)
    decreases |names|
  {
    if names == [] then []
    else FetchUrls(entries, names[..|names| - 1]) + MatchingUrls(entries, names[|names| - 1])
  }

  /** Every matching entry contributes its webpage ... */
  lemma {:induction false} MatchingUrlsComplete(entries: seq<Entry>, name: string, j: nat)
    requires j < |entries| && Matches(name, entries[j].title)
    ensures entries[j].webpage in MatchingUrls(entries, name)
    decreases |entries|
  {
    var init := entries[..|entries| - 1];
    if j < |init| {
      assert init[j] == entries[j];
      MatchingUrlsComplete(init, name, j);
    }
  }

  /** ... and every webpage collected comes from a matching entry. */
  lemma {:induction false} MatchingUrlsSound(entries: seq<Entry>, name: string, u: string)
    requires u in MatchingUrls(entries, name)
    ensures exists j :: 0 <= j < |entries| && entries[j].webpage == u && Matches(name, entries[j].title)
    decreases |entries|
  {
    var init := entries[..|entries| - 1];
    var e := entries[|entries| - 1];
    if u in MatchingUrls(init, name) {
      MatchingUrlsSound(init, name, u);
      var j :| 0 <= j < |init| && init[j].webpage == u && Matches(name, init[j].title);
      assert entries[j] == init[j];
    } else {
      assert e == entries[|entries| - 1];
    }
  }

  /** A webpage is fetched exactly when one of the names matches an entry with that webpage;
      every match counts, so an entry matched by two names is fetched twice. */
  lemma {:induction false} FetchUrlsComplete(entries: seq<Entry>, names: seq<string>, i: nat, j: nat)
    requires i < |names| && j < |entries| && Matches(names[i], entries[j].title)
    ensures entries[j].webpage in FetchUrls(entries, names)
    decreases |names|
  {
    var init := names[..|names| - 1];
    if i < |init| {
      assert init[i] == names[i];
      FetchUrlsComplete(entries, init, i, j);
    } else {
      MatchingUrlsComplete(entries, names[i], j);
    }
  }

  lemma {:induction false} FetchUrlsSound(entries: seq<Entry>, names: seq<string>, u: string)
    requires u in FetchUrls(entries, names)
    ensures exists i, j :: 0 <= i < |names| && 0 <= j < |entries| && entries[j].webpage == u && Matches(names[i], entries[j].title)
    decreases |names|
  {
    var init := names[..|names| - 1];
    var last := names[|names| - 1];
    if u in FetchUrls(entries, init) {
      FetchUrlsSound(entries, init, u);
      var i, j :| 0 <= i < |init| && 0 <= j < |entries| && entries[j].webpage == u && Matches(init[i], entries[j].title);
      assert names[i] == init[i];
    } else {
      MatchingUrlsSound(entries, last, u);
      var j :| 0 <= j < |entries| && entries[j].webpage == u && Matches(last, entries[j].title);
      assert names[|names| - 1] == last;
    }
  }
}
