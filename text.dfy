/**
 * String helpers the music cog uses on titles and queries: ASCII lower-casing, deletion of
 * spaces, the fuzzy match `query in title` after both are folded, Python's `str.strip()`
 * and `", ".join(...)`.
 */
module Text {

  /** ASCII part of Python's `str.lower()` for one character. */
  function Lower(c: char): char {
    if 'A' <= c <= 'Z' then (c as int + 32) as char else c
  }

  function LowerStr(s: string): (r: string)
    ensures |r| == |s|
  {
    if s == [] then [] else [Lower(s[0])] + LowerStr(s[1..])
  }

  /** Lower-casing works character by character. */
  lemma {:induction false} LowerStrAt(s: string)
    ensures forall i :: 0 <= i < |s| ==> LowerStr(s)[i] == Lower(s[i])
  {
    if s != [] {
      LowerStrAt(s[1..]);
    }
  }

  /** `s.replace(" ", "")` */
  function DeleteSpaces(s: string): (r: string)
    ensures |r| <= |s|
  {
    if s == [] then [] else (if s[0] == ' ' then [] else [s[0]]) + DeleteSpaces(s[1..])
  }

  /** No space is left, and a string without spaces is returned as it is. */
  lemma {:induction false} DeleteSpacesFacts(s: string)
    ensures ' ' !in DeleteSpaces(s)
    ensures (forall i :: 0 <= i < |s| ==> s[i] != ' ') ==> DeleteSpaces(s) == s
  {
    if s != [] {
      DeleteSpacesFacts(s[1..]);
    }
  }

  /** `s.lower().replace(" ", "")`: the normal form every title and query is compared in. */
  function Fold(s: string): string {
    DeleteSpaces(LowerStr(s))
  }

  /** `p` occurs in `s` starting at index `i`. */
  predicate OccursAt(p: string, s: string, i: int) {
    0 <= i && i + |p| <= |s| && s[i..i + |p|] == p
  }

  /** Python's `p in s` for strings, computed by trying every start position in turn. */
  predicate Contains(s: string, p: string)
    decreases |s|
  {
    (|p| <= |s| && s[..|p|] == p) || (s != [] && Contains(s[1..], p))
  }

  /** The fuzzy name match shared by remove, reposition, select, getindex and playlistfetch. */
  predicate Matches(query: string, title: string) {
    Contains(Fold(title), Fold(query))
  }

  /** The duplicate test of playlistaddcurrent: equality, not containment, of the folded titles. */
  predicate SameTitle(a: string, b: string) {
    Fold(a) == Fold(b)
  }

  /** `Contains` is exactly substring occurrence at some position. */
  lemma {:induction false} ContainsIffOccurs(s: string, p: string)
    ensures Contains(s, p) <==> exists i :: OccursAt(p, s, i)
    decreases |s|
  {
    if |p| <= |s| && s[..|p|] == p {
      assert OccursAt(p, s, 0);
    } else if s == [] {
      assert forall i :: !OccursAt(p, s, i);
    } else {
      ContainsIffOccurs(s[1..], p);
      if exists i :: OccursAt(p, s[1..], i) {
        var i :| OccursAt(p, s[1..], i);
        assert s[i + 1..i + 1 + |p|] == s[1..][i..i + |p|];
        assert OccursAt(p, s, i + 1);
      }
      if exists i :: OccursAt(p, s, i) {
        var i :| OccursAt(p, s, i);
        assert i != 0;
        assert s[1..][i - 1..i - 1 + |p|] == s[i..i + |p|];
        assert OccursAt(p, s[1..], i - 1);
      }
    }
  }

  lemma {:induction false} LowerIdempotent(s: string)
    ensures LowerStr(LowerStr(s)) == LowerStr(s)
  {
    var l := LowerStr(s);
    LowerStrAt(s);
    LowerStrAt(l);
    assert forall i :: 0 <= i < |s| ==> LowerStr(l)[i] == Lower(Lower(s[i])) == Lower(s[i]);
  }

  lemma {:induction false} DeleteSpacesIdempotent(s: string)
    ensures DeleteSpaces(DeleteSpaces(s)) == DeleteSpaces(s)
  {
    DeleteSpacesFacts(s);
    DeleteSpacesFacts(DeleteSpaces(s));
  }

  lemma {:induction false} LowerDeleteCommute(s: string)
    ensures LowerStr(DeleteSpaces(s)) == DeleteSpaces(LowerStr(s))
  {
    if s != [] {
      LowerDeleteCommute(s[1..]);
      var l := LowerStr(s);
      assert l == [Lower(s[0])] + LowerStr(s[1..]);
      assert l[0] == Lower(s[0]) && l[1..] == LowerStr(s[1..]);
      var rest := DeleteSpaces(s[1..]);
      if s[0] != ' ' {
        var d := [s[0]] + rest;
        assert DeleteSpaces(s) == d;
        assert d[0] == s[0] && d[1..] == rest;
        assert LowerStr(d) == [Lower(s[0])] + LowerStr(rest);
        assert Lower(s[0]) != ' ';
        assert DeleteSpaces(l) == [l[0]] + DeleteSpaces(l[1..]);
      } else {
        assert DeleteSpaces(s) == [] + rest == rest;
        assert DeleteSpaces(l) == [] + DeleteSpaces(l[1..]);
      }
    }
  }

  /** Folding twice is folding once. */
  lemma {:induction false} FoldIdempotent(s: string)
    ensures Fold(Fold(s)) == Fold(s)
  {
    var l := LowerStr(s);
    LowerDeleteCommute(l);
    LowerIdempotent(s);
    DeleteSpacesIdempotent(l);
  }

  /** The fuzzy match ignores case and spaces in both the query and the title. */
  lemma MatchesIgnoresCaseAndSpaces(query: string, title: string)
    ensures Matches(query, title) <==> Matches(Fold(query), Fold(title))
  {
    FoldIdempotent(query);
    FoldIdempotent(title);
  }

  /** An equal folded title is also a fuzzy match, so the duplicate test of playlistaddcurrent
      is stricter than the lookup used everywhere else. */
  lemma SameTitleMatches(a: string, b: string)
    requires SameTitle(a, b)
    ensures Matches(a, b) && Matches(b, a)
  {
    ContainsIffOccurs(Fold(b), Fold(a));
    assert OccursAt(Fold(a), Fold(b), 0);
  }

  /** A query made only of spaces (or empty) matches every title, in particular the first one. */
  lemma {:induction false} BlankQueryMatchesAll(query: string, title: string)
    requires forall i :: 0 <= i < |query| ==> query[i] == ' '
    ensures Matches(query, title)
  {
    BlankFoldsToEmpty(query);
  }

  /** A query that matches the empty title folds to the empty string, so it matches every
      title. */
  lemma EmptyTitleMatchesAll(query: string, title: string)
    requires Matches(query, "")
    ensures Matches(query, title)
  {
    assert Fold("") == [];
  }

  lemma {:induction false} BlankFoldsToEmpty(s: string)
    requires forall i :: 0 <= i < |s| ==> s[i] == ' '
    ensures Fold(s) == []
  {
    if s != [] {
      BlankFoldsToEmpty(s[1..]);
      assert LowerStr(s)[1..] == LowerStr(s[1..]);
    }
  }

  /** Python's `sep.join(parts)`. */
  function Join(parts: seq<string>, sep: string): string
  {
    if parts == [] then []
    else if |parts| == 1 then parts[0]
    else parts[0] + sep + Join(parts[1..], sep)
  }

  /** The characters the model's `str.strip()` removes: the ASCII characters Python counts as
      whitespace (tab to carriage return, the four separators 0x1c-0x1f, and the space). */
  predicate IsSpace(c: char) {
    c == ' ' || ('\t' <= c <= '\r') || (28 <= c as int <= 31)
  }

  /** `s` without its leading whitespace; TrimLeftRemovesSpace says what it takes off. */
  function TrimLeft(s: string): (r: string)
    ensures |r| <= |s|
    ensures r == [] || !IsSpace(r[0])
    ensures s == [] || !IsSpace(s[0]) ==> r == s
  {
    if s != [] && IsSpace(s[0]) then TrimLeft(s[1..]) else s
  }

  /** `s` without its trailing whitespace; TrimRightRemovesSpace says what it takes off. */
  function TrimRight(s: string): (r: string)
    ensures |r| <= |s|
    ensures r == [] || !IsSpace(r[|r| - 1])
    ensures s == [] || !IsSpace(s[|s| - 1]) ==> r == s
  {
    if s != [] && IsSpace(s[|s| - 1]) then TrimRight(s[..|s| - 1]) else s
  }

  /** `r` is the slice of `s` starting at `a`, and only whitespace lies outside it. */
  predicate AmidSpace(s: string, a: int, r: string) {
    0 <= a && a + |r| <= |s| && s[a..a + |r|] == r
    && (forall i :: 0 <= i < a ==> IsSpace(s[i]))
    && (forall i :: a + |r| <= i < |s| ==> IsSpace(s[i]))
  }

  /** `lstrip()` takes off a prefix made only of whitespace. */
  lemma {:induction false} TrimLeftRemovesSpace(s: string)
    ensures AmidSpace(s, |s| - |TrimLeft(s)|, TrimLeft(s))
    decreases |s|
  {
    if s != [] && IsSpace(s[0]) {
      TrimLeftRemovesSpace(s[1..]);
    }
  }

  /** `rstrip()` takes off a suffix made only of whitespace. */
  lemma {:induction false} TrimRightRemovesSpace(s: string)
    ensures AmidSpace(s, 0, TrimRight(s))
    decreases |s|
  {
    if s != [] && IsSpace(s[|s| - 1]) {
      TrimRightRemovesSpace(s[..|s| - 1]);
    }
  }

  /** Python's `str.strip()`: the result neither starts nor ends with whitespace, and a string
      without surrounding whitespace is returned as it is; StripRemovesOnlySpace says that only
      whitespace is taken off. */
  function Strip(s: string): (r: string)
    ensures |r| <= |s|
    ensures r == [] || (!IsSpace(r[0]) && !IsSpace(r[|r| - 1]))
    ensures s == [] || (!IsSpace(s[0]) && !IsSpace(s[|s| - 1])) ==> r == s
  {
    var l := TrimLeft(s);
    var t := TrimRight(l);
    TrimRightRemovesSpace(l);
    assert t != [] ==> t[0] == l[0];
    t
  }

  /** `strip()` removes whitespace only: the result is a slice of `s` outside of which there is
      only whitespace. */
  lemma StripRemovesOnlySpace(s: string)
    ensures exists a :: AmidSpace(s, a, Strip(s))
  {
    var l := TrimLeft(s);
    var r := TrimRight(l);
    TrimLeftRemovesSpace(s);
    TrimRightRemovesSpace(l);
    assert r == Strip(s);
    var a := |s| - |l|;
    forall i | a + |r| <= i < |s| ensures IsSpace(s[i]) {
      assert s[i] == l[i - a];
    }
    assert s[a..a + |r|] == r;
    assert AmidSpace(s, a, r);
  }
}
