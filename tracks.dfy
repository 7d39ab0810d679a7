/**
 * The two shapes of queue element the cog handles, and the list primitives its commands are
 * built from: the first fuzzy match, `pop(i)`, `insert(i, x)`, `index(x)` and `remove(x)`.
 */
module Tracks {
  import opened Wrappers
  import opened Text

  /** A queued track: the 5-tuple (url, title, duration, thumbnail, webpage). */
  datatype Track = Track(url: string, title: string, duration: int, thumbnail: Option<string>, webpage: string)

  /** A stored playlist entry: the pair (title, webpage). */
  datatype Entry = Entry(title: string, webpage: string)

  /** The `data` dictionary that describes the current track. */
  datatype TrackData = TrackData(title: string, duration: int, thumbnail: Option<string>, webpage: string)

  /** What resolving one query yields: a track, "no_entry", "invalid_query", or an exception. */
  datatype Resolution = Resolved(track: Track) | NoEntry | InvalidQuery | Failed

  function TrackTitle(t: Track): string { t.title }

  function EntryTitle(e: Entry): string { e.title }

  function DataOf(t: Track): TrackData {
    TrackData(t.title, t.duration, t.thumbnail, t.webpage)
  }

  /** The (title, webpage) pair playlistcreate stores for a queued track. */
  function EntryOf(t: Track): Entry {
    Entry(t.title, t.webpage)
  }

  /** The titles of a list of tracks or entries, in order. */
  function TitlesOf<T>(q: seq<T>, title: T -> string): (r: seq<string>)
    ensures |r| == |q| && forall k :: 0 <= k < |q| ==> r[k] == title(q[k])
  {
    seq(|q|, k requires 0 <= k < |q| => title(q[k]))
  }

  /** The entries playlistcreate stores for the queue, in order. */
  function EntriesOf(q: seq<Track>): (r: seq<Entry>)
    ensures |r| == |q| && forall k :: 0 <= k < |q| ==> r[k] == EntryOf(q[k])
  {
    seq(|q|, k requires 0 <= k < |q| => EntryOf(q[k]))
  }

  /** The webpages of a playlist, in order: the queries playlistselect passes to add. */
  function Webpages(entries: seq<Entry>): (r: seq<string>)
    ensures |r| == |entries| && forall k :: 0 <= k < |entries| ==> r[k] == entries[k].webpage
  {
    seq(|entries|, k requires 0 <= k < |entries| => entries[k].webpage)
  }

  function Min(a: int, b: int): int {
    if a <= b then a else b
  }

  predicate NoDuplicates<T(==)>(s: seq<T>) {
    forall i, j :: 0 <= i < j < |s| ==> s[i] != s[j]
  }

  /** Index of the first element whose title the name fuzzily matches: the `for ... enumerate`
      loop with `break` that remove, reposition, select and getindex share. */
  function FirstMatch<T>(q: seq<T>, title: T -> string, name: string): (r: Option<nat>)
    ensures r.Some? ==> r.value < |q| && Matches(name, title(q[r.value]))
    ensures r.Some? ==> forall j :: 0 <= j < r.value ==> !Matches(name, title(q[j]))
    ensures r.None? <==> forall j :: 0 <= j < |q| ==> !Matches(name, title(q[j]))
  {
    if q == [] then None
    else if Matches(name, title(q[0])) then Some(0)
    else match FirstMatch(q[1..], title, name)
      case Some(i) => Some(i + 1)
      case None => None
  }

  /** The search loop itself: `|q|` when nothing matches. */
  method FindFirst<T>(q: seq<T>, title: T -> string, name: string) returns (i: nat)
    ensures i <= |q|
    ensures FirstMatch(q, title, name) == if i == |q| then None else Some(i)
  {
    i := 0;
    while i < |q| && !Matches(name, title(q[i]))
      invariant i <= |q|
      invariant forall j :: 0 <= j < i ==> !Matches(name, title(q[j]))
    {
      i := i + 1;
    }
  }

  /** `get_track_index`: the index and title of the first fuzzy match, or `None` for the
      `(None, None)` answer. */
  function GetTrackIndex<T>(q: seq<T>, title: T -> string, name: string): (r: Option<(nat, string)>)
    ensures r.Some? ==> r.value.0 < |q| && r.value.1 == title(q[r.value.0]) && Matches(name, r.value.1)
    ensures r.Some? ==> forall j :: 0 <= j < r.value.0 ==> !Matches(name, title(q[j]))
    ensures r.None? <==> forall j :: 0 <= j < |q| ==> !Matches(name, title(q[j]))
  {
    match FirstMatch(q, title, name)
    case Some(i) => Some((i, title(q[i])))
    case None => None
  }

  /** The getindex commands test `not index and not title`, so a match at index 0 whose title
      is empty is reported as "not found". */
  predicate ReportsFound(r: Option<(nat, string)>) {
    r.Some? && !(r.value.0 == 0 && r.value.1 == "")
  }

  /** `list.pop(i)` */
  function RemoveAt<T>(s: seq<T>, i: nat): (r: seq<T>)
    requires i < |s|
    ensures |r| == |s| - 1
    ensures forall j :: 0 <= j < i ==> r[j] == s[j]
    ensures forall j :: i <= j < |r| ==> r[j] == s[j + 1]
  {
    s[..i] + s[i + 1..]
  }

  lemma RemoveAtMultiset<T>(s: seq<T>, i: nat)
    requires i < |s|
    ensures multiset(RemoveAt(s, i)) + multiset{s[i]} == multiset(s)
  {
    assert s == s[..i] + [s[i]] + s[i + 1..];
  }

  /** `list.insert(i, x)` for a non-negative index: an index past the end appends. */
  function InsertAt<T>(s: seq<T>, i: nat, x: T): (r: seq<T>)
    ensures |r| == |s| + 1
    ensures r[Min(i, |s|)] == x
    ensures RemoveAt(r, Min(i, |s|)) == s
    ensures multiset(r) == multiset(s) + multiset{x}
  {
    if i >= |s| then s + [x]
    else
      assert s == s[..i] + s[i..];
      s[..i] + [x] + s[i..]
  }

  /** `list.index(x)`, with `None` for the `ValueError` case. */
  function IndexOf<T(==)>(s: seq<T>, x: T): (r: Option<nat>)
    ensures r.Some? ==> r.value < |s| && s[r.value] == x && x !in s[..r.value]
    ensures r.None? <==> x !in s
  {
    if s == [] then None
    else if s[0] == x then Some(0)
    else match IndexOf(s[1..], x)
      case Some(i) => assert s[..i + 1] == [s[0]] + s[1..][..i]; Some(i + 1)
      case None => None
  }

  /** `list.remove(x)`: drop the first element equal to `x`. The source only calls it after
      testing `x in list`. */
  function RemoveFirst<T(==)>(s: seq<T>, x: T): (r: seq<T>)
    requires x in s
    ensures |r| == |s| - 1
    ensures multiset(r) + multiset{x} == multiset(s)
    ensures exists i :: 0 <= i < |s| && s[i] == x && x !in s[..i] && r == RemoveAt(s, i)
  {
    var i := IndexOf(s, x).value;
    RemoveAtMultiset(s, i);
    RemoveAt(s, i)
  }

  lemma RemoveFirstSubseq<T>(s: seq<T>, x: T)
    requires x in s
    ensures IsSubseq(RemoveFirst(s, x), s)
  {
    var i := IndexOf(s, x).value;
    SubseqRemoveAt(s, i);
  }

  /** Order-preserving sub-sequence: `a` is `b` with some elements left out. */
  predicate IsSubseq<T(==)>(a: seq<T>, b: seq<T>)
    decreases |b|
  {
    a == [] || (b != [] && ((a[0] == b[0] && IsSubseq(a[1..], b[1..])) || IsSubseq(a, b[1..])))
  }

  lemma {:induction false} SubseqRefl<T>(s: seq<T>)
    ensures IsSubseq(s, s)
  {
    if s != [] {
      SubseqRefl(s[1..]);
    }
  }

  lemma {:induction false} SubseqTrans<T>(a: seq<T>, b: seq<T>, c: seq<T>)
    requires IsSubseq(a, b) && IsSubseq(b, c)
    ensures IsSubseq(a, c)
    decreases |c|
  {
    if a != [] {
      if b[0] == c[0] && IsSubseq(b[1..], c[1..]) {
        if a[0] == b[0] && IsSubseq(a[1..], b[1..]) {
          SubseqTrans(a[1..], b[1..], c[1..]);
        } else {
          SubseqTrans(a, b[1..], c[1..]);
        }
      } else {
        SubseqTrans(a, b, c[1..]);
      }
    }
  }

  lemma {:induction false} SubseqRemoveAt<T>(s: seq<T>, i: nat)
    requires i < |s|
    ensures IsSubseq(RemoveAt(s, i), s)
  {
    if i == 0 {
      SubseqRefl(s[1..]);
      assert RemoveAt(s, 0) == s[1..];
    } else {
      SubseqRemoveAt(s[1..], i - 1);
      assert RemoveAt(s, i)[1..] == RemoveAt(s[1..], i - 1);
    }
  }

  lemma {:induction false} SubseqLength<T>(a: seq<T>, b: seq<T>)
    requires IsSubseq(a, b)
    ensures |a| <= |b|
    ensures multiset(a) <= multiset(b)
    decreases |b|
  {
    if a != [] {
      assert b == [b[0]] + b[1..];
      if a[0] == b[0] && IsSubseq(a[1..], b[1..]) {
        SubseqLength(a[1..], b[1..]);
        assert a == [a[0]] + a[1..];
      } else {
        SubseqLength(a, b[1..]);
      }
    }
  }
}
