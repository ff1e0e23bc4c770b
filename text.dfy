/** Python string operations used throughout the core, on `seq<char>`.
    Case mapping, whitespace and digits follow Python's rules restricted
    to the ASCII range. */
module Text {

  // ---------------------------------------------------------------------
  // Sequences of any element type
  // ---------------------------------------------------------------------

  /** A member of a non-empty sequence is in its front or is its last. */
  lemma InFrontOrLast<T>(xs: seq<T>, x: T)
    requires xs != []
    ensures x in xs <==> x in xs[..|xs| - 1] || x == xs[|xs| - 1]
  {
    assert xs == xs[..|xs| - 1] + [xs[|xs| - 1]];
  }

  /** Moving the head of the remainder onto the end of the finished part. */
  lemma MoveFirst<T>(done: seq<T>, x: T, rest: seq<T>, all: seq<T>)
    requires done + ([x] + rest) == all
    ensures (done + [x]) + rest == all
  {
    assert (done + [x]) + rest == done + ([x] + rest);
  }

  // ---------------------------------------------------------------------
  // Characters
  // ---------------------------------------------------------------------

  function LowerChar(c: char): char {
    if 'A' <= c <= 'Z' then (c as int + 32) as char else c
  }

  function UpperChar(c: char): char {
    if 'a' <= c <= 'z' then (c as int - 32) as char else c
  }

  /** `s.lower()` */
  function Lower(s: string): (r: string)
    ensures |r| == |s|
  {
    seq(|s|, i requires 0 <= i < |s| => LowerChar(s[i]))
  }

  /** `s.upper()` */
  function Upper(s: string): (r: string)
    ensures |r| == |s|
  {
    seq(|s|, i requires 0 <= i < |s| => UpperChar(s[i]))
  }

  /** `c.isspace()` on ASCII: space, \t \n \v \f \r and the separators 0x1c-0x1f. */
  predicate IsSpace(c: char) {
    var n := c as int;
    n == 32 || 9 <= n <= 13 || 28 <= n <= 31
  }

  /** `c.isdigit()` on ASCII. */
  predicate IsDigit(c: char) {
    '0' <= c <= '9'
  }

  // ---------------------------------------------------------------------
  // Prefixes, suffixes, slices
  // ---------------------------------------------------------------------

  predicate StartsWith(s: string, t: string) {
    |t| <= |s| && s[..|t|] == t
  }

  predicate EndsWith(s: string, t: string) {
    |t| <= |s| && s[|s| - |t|..] == t
  }

  /** `s[:n]` for a non-negative n. */
  function Take(s: string, n: nat): (r: string)
    ensures |r| == (if |s| <= n then |s| else n)
    ensures r == s[..|r|]
    ensures |s| <= n ==> r == s
  {
    if |s| <= n then s else s[..n]
  }

  /** `s[lo:hi]` for non-negative bounds: both ends are clamped to the length. */
  function Slice(s: string, lo: nat, hi: nat): (r: string)
    ensures |r| <= |s|
    ensures lo <= hi <= |s| ==> r == s[lo..hi]
  {
    var h := if hi < |s| then hi else |s|;
    var l := if lo < h then lo else h;
    s[l..h]
  }

  // ---------------------------------------------------------------------
  // Substring search: `t in s`, `s.find(t, start)`
  // ---------------------------------------------------------------------

  /** `t` occurs in `s` starting at position `p`. */
  predicate MatchAt(s: string, t: string, p: int) {
    0 <= p && p + |t| <= |s| && s[p..p + |t|] == t
  }

  /** `t in s` */
  predicate Contains(s: string, t: string) {
    exists p | 0 <= p <= |s| - |t| :: MatchAt(s, t, p)
  }

  /** `any(t in s for t in terms)` */
  predicate ContainsAny(s: string, terms: seq<string>) {
    exists t | t in terms :: Contains(s, t)
  }

  /** An occurrence cannot start inside a prefix that lacks the pattern's
      first character. */
  lemma ContainsPastPrefix(p: string, r: string, t: string)
    requires t != [] && t[0] !in p
    ensures Contains(p + r, t) ==> Contains(r, t)
  {
    forall q | 0 <= q <= |p + r| - |t| && MatchAt(p + r, t, q)
      ensures MatchAt(r, t, q - |p|)
    {
      MatchAtChar(p + r, t, q, q);
      assert (p + r)[|p|..] == r;
      MatchAtShift(p + r, t, |p|, q - |p|);
    }
  }

  lemma MatchAtChar(s: string, t: string, p: int, i: int)
    requires 0 <= p <= i < p + |t|
    ensures MatchAt(s, t, p) ==> i < |s| && s[i] == t[i - p]
  {
    if MatchAt(s, t, p) {
      assert s[p..p + |t|][i - p] == s[i];
    }
  }

  /** Matches in a suffix are matches in the whole text, shifted. */
  lemma MatchAtShift(s: string, t: string, k: nat, p: int)
    requires k <= |s|
    ensures MatchAt(s[k..], t, p) <==> 0 <= p && MatchAt(s, t, p + k)
  {
    if 0 <= p && p + |t| <= |s| - k {
      assert s[k..][p..p + |t|] == s[p + k..p + k + |t|];
    }
  }

  /** Matches in a prefix are the matches in the whole text that end inside it. */
  lemma MatchAtPrefix(s: string, n: nat, t: string, q: int)
    requires n <= |s|
    ensures MatchAt(s[..n], t, q) <==> MatchAt(s, t, q) && q + |t| <= n
  {
    if 0 <= q && q + |t| <= n {
      assert s[..n][q..q + |t|] == s[q..q + |t|];
    }
  }

  /** An occurrence inside a middle piece is an occurrence in the whole. */
  lemma ContainsInside(a: string, b: string, c: string, t: string)
    requires Contains(b, t)
    ensures Contains(a + b + c, t)
  {
    var p :| 0 <= p <= |b| - |t| && MatchAt(b, t, p);
    var s := a + b + c;
    assert s[|a| + p..|a| + p + |t|] == b[p..p + |t|];
    assert MatchAt(s, t, |a| + p);
  }

  /** A text cannot contain `t` when the character `t[k]` never occurs at
      or after position `k` of the text. */
  lemma NotContainsPastChar(a: string, r: string, t: string, k: nat)
    requires k < |t| && |a| <= k && t[k] !in r
    ensures !Contains(a + r, t)
  {
    var s := a + r;
    forall q | 0 <= q <= |s| - |t|
      ensures !MatchAt(s, t, q)
    {
      MatchAtChar(s, t, q, q + k);
      assert s[q + k] == r[q + k - |a|];
      assert r[q + k - |a|] in r;
    }
  }

  /** A pattern that contains a character the text lacks cannot occur in it. */
  lemma NotContainsByChar(s: string, t: string, c: char)
    requires c in t && c !in s
    ensures !Contains(s, t)
  {
    var k :| 0 <= k < |t| && t[k] == c;
    forall p | 0 <= p <= |s| - |t|
      ensures !MatchAt(s, t, p)
    {
      MatchAtChar(s, t, p, p + k);
      assert s[p + k] in s;
    }
  }

  /** `s.find(t, start)`: the least position at or after `start` where `t`
      occurs, or -1. */
  function Find(s: string, t: string, start: nat): (r: int)
    ensures r == -1 || (start <= r && r + |t| <= |s|)
    decreases |s| - start
  {
    if start + |t| > |s| then -1
    else if s[start..start + |t|] == t then start
    else Find(s, t, start + 1)
  }

  /** `find` gives the first occurrence at or after `start`, or -1 when there
      is none. */
  lemma {:induction false} FindFirst(s: string, t: string, start: nat)
    ensures Find(s, t, start) == -1 || MatchAt(s, t, Find(s, t, start))
    ensures Find(s, t, start) == -1 ==> forall q :: start <= q ==> !MatchAt(s, t, q)
    ensures Find(s, t, start) != -1 ==> forall q :: start <= q < Find(s, t, start) ==> !MatchAt(s, t, q)
    decreases |s| - start
  {
    if start + |t| <= |s| && s[start..start + |t|] != t {
      FindFirst(s, t, start + 1);
    }
  }

  lemma ContainsIffFound(s: string, t: string)
    ensures Contains(s, t) <==> Find(s, t, 0) != -1
  {
    FindFirst(s, t, 0);
  }

  /** Every position at or after `start` where `t` occurs, in increasing order,
      overlapping occurrences included. */
  function Occurrences(s: string, t: string, start: nat): (ps: seq<nat>)
    decreases |s| + 1 - start
  {
    if start > |s| then []
    else (if MatchAt(s, t, start) then [start] else []) + Occurrences(s, t, start + 1)
  }

  predicate StrictlyIncreasing(ps: seq<nat>) {
    forall i, j :: 0 <= i < j < |ps| ==> ps[i] < ps[j]
  }

  /** Occurrences lists exactly the matching positions, each once, in order. */
  lemma OccurrencesExact(s: string, t: string, start: nat)
    ensures forall p :: p in Occurrences(s, t, start) <==> start <= p && MatchAt(s, t, p)
    ensures StrictlyIncreasing(Occurrences(s, t, start))
  {
    OccurrencesMembers(s, t, start);
    OccurrencesIncreasing(s, t, start);
  }

  lemma {:induction false} OccurrencesMembers(s: string, t: string, start: nat)
    ensures forall p :: p in Occurrences(s, t, start) <==> start <= p && MatchAt(s, t, p)
    decreases |s| + 1 - start
  {
    if start <= |s| {
      OccurrencesMembers(s, t, start + 1);
      var head := if MatchAt(s, t, start) then [start] else [];
      var rest := Occurrences(s, t, start + 1);
      assert Occurrences(s, t, start) == head + rest;
      assert forall p :: p in head + rest <==> p in head || p in rest;
    } else {
      forall p | start <= p
        ensures !MatchAt(s, t, p)
      {
      }
    }
  }

  lemma {:induction false} OccurrencesIncreasing(s: string, t: string, start: nat)
    ensures StrictlyIncreasing(Occurrences(s, t, start))
    decreases |s| + 1 - start
  {
    if start <= |s| {
      OccurrencesIncreasing(s, t, start + 1);
      OccurrencesMembers(s, t, start + 1);
      var head := if MatchAt(s, t, start) then [start] else [];
      var rest := Occurrences(s, t, start + 1);
      IncreasingAfter(head, rest, start);
      assert Occurrences(s, t, start) == head + rest;
    }
  }

  /** An increasing list after a position stays increasing with that
      position in front. */
  lemma IncreasingAfter(head: seq<nat>, rest: seq<nat>, start: nat)
    requires head == [] || head == [start]
    requires StrictlyIncreasing(rest) && forall p :: p in rest ==> start < p
    ensures StrictlyIncreasing(head + rest)
  {
    var ps := head + rest;
    forall i, j | 0 <= i < j < |ps|
      ensures ps[i] < ps[j]
    {
      assert ps[j] == rest[j - |head|];
      assert rest[j - |head|] in rest;
      if i >= |head| {
        assert ps[i] == rest[i - |head|];
      }
    }
  }

  /** One step of the `find` loop: the first hit, then the hits after it. */
  lemma {:induction false} FindThenRest(s: string, t: string, start: nat)
    ensures Find(s, t, start) == -1 ==> Occurrences(s, t, start) == []
    ensures Find(s, t, start) != -1 ==>
      Occurrences(s, t, start) == [Find(s, t, start)] + Occurrences(s, t, Find(s, t, start) + 1)
    decreases |s| + 1 - start
  {
    if start > |s| {
    } else if start + |t| > |s| || s[start..start + |t|] != t {
      assert !MatchAt(s, t, start);
      assert Occurrences(s, t, start) == Occurrences(s, t, start + 1);
      assert Find(s, t, start) == Find(s, t, start + 1) || start + |t| > |s|;
      FindThenRest(s, t, start + 1);
      if start + |t| > |s| {
        assert Find(s, t, start + 1) == -1;
      }
    } else {
      assert MatchAt(s, t, start);
    }
  }

  // ---------------------------------------------------------------------
  // `s.replace(pat, rep)`: left-to-right, non-overlapping
  // ---------------------------------------------------------------------

  function ReplaceAll(s: string, pat: string, rep: string): string
    requires pat != []
    decreases |s|
  {
    if |s| < |pat| then s
    else if s[..|pat|] == pat then rep + ReplaceAll(s[|pat|..], pat, rep)
    else [s[0]] + ReplaceAll(s[1..], pat, rep)
  }

  /** A text that does not contain the pattern is left unchanged. */
  lemma {:induction false} ReplaceAllAbsent(s: string, pat: string, rep: string)
    requires pat != [] && !Contains(s, pat)
    ensures ReplaceAll(s, pat, rep) == s
    decreases |s|
  {
    if |s| >= |pat| {
      assert !MatchAt(s, pat, 0);
      assert s[..|pat|] != pat;
      forall p | 0 <= p <= |s[1..]| - |pat|
        ensures !MatchAt(s[1..], pat, p)
      {
        MatchAtShift(s, pat, 1, p);
      }
      ReplaceAllAbsent(s[1..], pat, rep);
      assert s == [s[0]] + s[1..];
    }
  }

  /** A text shorter than the pattern is copied unchanged. */
  lemma ReplaceAllShort(s: string, pat: string, rep: string)
    requires pat != [] && |s| < |pat|
    ensures ReplaceAll(s, pat, rep) == s
  {
  }

  /** No occurrence straddles the seam between `a` and `b`. */
  predicate NoStraddle(a: string, b: string, pat: string) {
    forall q :: q < |a| < q + |pat| ==> !MatchAt(a + b, pat, q)
  }

  lemma StraddleDrop(a: string, b: string, pat: string, k: nat)
    requires k <= |a| && NoStraddle(a, b, pat)
    ensures NoStraddle(a[k..], b, pat)
  {
    assert a[k..] + b == (a + b)[k..];
    forall q | q < |a[k..]| < q + |pat|
      ensures !MatchAt(a[k..] + b, pat, q)
    {
      MatchAtShift(a + b, pat, k, q);
    }
  }

  /** Replacement distributes over a concatenation when no occurrence of the
      pattern straddles the seam. */
  lemma {:induction false} ReplaceAllAppend(a: string, b: string, pat: string, rep: string)
    requires pat != [] && NoStraddle(a, b, pat)
    ensures ReplaceAll(a + b, pat, rep) == ReplaceAll(a, pat, rep) + ReplaceAll(b, pat, rep)
    decreases |a|
  {
    var ab := a + b;
    if a == [] {
      assert ab == b;
    } else if |ab| < |pat| {
      ReplaceAllShort(ab, pat, rep);
      ReplaceAllShort(a, pat, rep);
      ReplaceAllShort(b, pat, rep);
    } else if ab[..|pat|] == pat {
      assert MatchAt(ab, pat, 0);
      StraddleDrop(a, b, pat, |pat|);
      ReplaceAllAppend(a[|pat|..], b, pat, rep);
      AppendAtMatch(a, b, pat, rep);
    } else {
      StraddleDrop(a, b, pat, 1);
      ReplaceAllAppend(a[1..], b, pat, rep);
      AppendAtOther(a, b, pat, rep);
    }
  }

  /** The step of ReplaceAllAppend where the text starts with the pattern. */
  lemma {:induction false} AppendAtMatch(a: string, b: string, pat: string, rep: string)
    requires pat != [] && |pat| <= |a| && a[..|pat|] == pat
    requires ReplaceAll(a[|pat|..] + b, pat, rep) == ReplaceAll(a[|pat|..], pat, rep) + ReplaceAll(b, pat, rep)
    ensures ReplaceAll(a + b, pat, rep) == ReplaceAll(a, pat, rep) + ReplaceAll(b, pat, rep)
  {
    var ab := a + b;
    var p := ReplaceAll(a[|pat|..], pat, rep);
    var q := ReplaceAll(b, pat, rep);
    assert ab[..|pat|] == pat;
    assert ab[|pat|..] == a[|pat|..] + b;
    ReplaceAllAtMatch(ab, pat, rep);
    ReplaceAllAtMatch(a, pat, rep);
    assert rep + (p + q) == (rep + p) + q;
  }

  /** A text that starts with the pattern has it replaced first. */
  lemma {:induction false} ReplaceAllAtMatch(s: string, pat: string, rep: string)
    requires pat != [] && |pat| <= |s| && s[..|pat|] == pat
    ensures ReplaceAll(s, pat, rep) == rep + ReplaceAll(s[|pat|..], pat, rep)
  {
  }

  /** The step of ReplaceAllAppend where the text starts otherwise. */
  lemma {:induction false} AppendAtOther(a: string, b: string, pat: string, rep: string)
    requires pat != [] && a != [] && |a + b| >= |pat| && (a + b)[..|pat|] != pat
    requires ReplaceAll(a[1..] + b, pat, rep) == ReplaceAll(a[1..], pat, rep) + ReplaceAll(b, pat, rep)
    ensures ReplaceAll(a + b, pat, rep) == ReplaceAll(a, pat, rep) + ReplaceAll(b, pat, rep)
  {
    var p := ReplaceAll(a[1..], pat, rep);
    var q := ReplaceAll(b, pat, rep);
    JoinedKeepsFirst(a, b, pat, rep);
    PrefixKeepsFirst(a, b, pat, rep);
    assert [a[0]] + (p + q) == ([a[0]] + p) + q;
  }

  /** When `a + b` does not start with the pattern, its first character stays. */
  lemma {:induction false} JoinedKeepsFirst(a: string, b: string, pat: string, rep: string)
    requires pat != [] && a != [] && |a + b| >= |pat| && (a + b)[..|pat|] != pat
    ensures ReplaceAll(a + b, pat, rep) == [a[0]] + ReplaceAll(a[1..] + b, pat, rep)
  {
    var ab := a + b;
    assert ab[0] == a[0] && ab[1..] == a[1..] + b;
    ReplaceAllKeepsFirst(ab, pat, rep);
  }

  /** When `a + b` does not start with the pattern, neither does `a`. */
  lemma {:induction false} PrefixKeepsFirst(a: string, b: string, pat: string, rep: string)
    requires pat != [] && a != [] && |a + b| >= |pat| && (a + b)[..|pat|] != pat
    ensures ReplaceAll(a, pat, rep) == [a[0]] + ReplaceAll(a[1..], pat, rep)
  {
    if |a| >= |pat| {
      assert a[..|pat|] == (a + b)[..|pat|];
    }
    ReplaceAllKeepsFirst(a, pat, rep);
  }

  /** A text that does not start with the pattern keeps its first character. */
  lemma {:induction false} ReplaceAllKeepsFirst(s: string, pat: string, rep: string)
    requires pat != [] && s != [] && (|s| < |pat| || s[..|pat|] != pat)
    ensures ReplaceAll(s, pat, rep) == [s[0]] + ReplaceAll(s[1..], pat, rep)
  {
    if |s| < |pat| {
      ReplaceAllShort(s, pat, rep);
      ReplaceAllShort(s[1..], pat, rep);
      assert s == [s[0]] + s[1..];
    }
  }

  /** No occurrence straddles the seam when the first character after it does
      not occur in the pattern except at its start. */
  lemma NoStraddleBySeamChar(a: string, b: string, pat: string)
    requires pat != [] && b != [] && b[0] !in pat[1..]
    ensures NoStraddle(a, b, pat)
  {
    forall q | q < |a| < q + |pat|
      ensures !MatchAt(a + b, pat, q)
    {
      if 0 <= q {
        MatchAtChar(a + b, pat, q, |a|);
        assert (a + b)[|a|] == b[0];
        assert pat[|a| - q] == pat[1..][|a| - q - 1];
      }
    }
  }

  /** Removing a prefix that does not occur again: `(p + rest).replace(p, '')`
      is `rest`. */
  lemma DropPrefix(p: string, rest: string)
    requires p != [] && !Contains(rest, p)
    ensures ReplaceAll(p + rest, p, "") == rest
  {
    var s := p + rest;
    assert s[..|p|] == p && s[|p|..] == rest;
    ReplaceAllAbsent(rest, p, "");
  }

  /** Replacing an extension: `(stem + ext).replace(ext, rep)` is `stem + rep`
      when the stem holds no `ext` and the extension's first character does
      not recur in it. */
  lemma ReplaceSuffix(stem: string, ext: string, rep: string)
    requires ext != [] && ext[0] !in ext[1..] && !Contains(stem, ext)
    ensures ReplaceAll(stem + ext, ext, rep) == stem + rep
  {
    NoStraddleBySeamChar(stem, ext, ext);
    ReplaceAllAppend(stem, ext, ext, rep);
    ReplaceAllAbsent(stem, ext, rep);
    assert ext[..|ext|] == ext && ext[|ext|..] == [];
    assert ReplaceAll(ext, ext, rep) == rep + ReplaceAll([], ext, rep);
  }

  // ---------------------------------------------------------------------
  // `s.split(c)` and `c.join(parts)` for a single-character separator
  // ---------------------------------------------------------------------

  /** The index of the first `c` in `s`. */
  function IndexOf(s: string, c: char): (i: nat)
    requires c in s
    ensures i < |s| && s[i] == c && c !in s[..i]
  {
    if s[0] == c then 0
    else
      assert c in s[1..] by { assert s == [s[0]] + s[1..]; }
      var j := IndexOf(s[1..], c);
      assert s[..j + 1] == [s[0]] + s[1..][..j];
      j + 1
  }

  /** Every position before `i` holds a member of the prefix `s[..i]`. */
  lemma InPrefix(s: string, i: nat, j: nat)
    requires i <= |s|
    ensures j < i ==> s[j] in s[..i]
  {
    if j < i {
      assert s[..i][j] == s[j];
    }
  }

  /** The first `c` is at `i` exactly when the text before `i` has none. */
  lemma IndexOfAt(s: string, c: char, i: nat)
    requires i < |s| && s[i] == c && c !in s[..i]
    ensures IndexOf(s, c) == i
  {
    var j := IndexOf(s, c);
    InPrefix(s, i, j);
    InPrefix(s, j, i);
  }

  /** `s.split(c)`: the pieces between the separators, in order. */
  function Split(s: string, c: char): (parts: seq<string>)
    ensures |parts| >= 1
  {
    if s == [] then [[]]
    else
      var rest := Split(s[1..], c);
      if s[0] == c then [[]] + rest else [[s[0]] + rest[0]] + rest[1..]
  }

  function Join(parts: seq<string>, sep: string): string {
    if |parts| == 0 then ""
    else if |parts| == 1 then parts[0]
    else parts[0] + sep + Join(parts[1..], sep)
  }

  /** No piece of a split holds the separator. */
  lemma {:induction false} SplitPiecesClean(s: string, c: char)
    ensures forall i :: 0 <= i < |Split(s, c)| ==> c !in Split(s, c)[i]
  {
    if s != [] {
      SplitPiecesClean(s[1..], c);
    }
  }

  /** A text without the separator is one piece. */
  lemma {:induction false} SplitNone(a: string, c: char)
    requires c !in a
    ensures Split(a, c) == [a]
  {
    if a != [] {
      assert c !in a[1..];
      SplitNone(a[1..], c);
      assert a == [a[0]] + a[1..];
    }
  }

  /** Splitting text joined at a separator splits each side. */
  lemma {:induction false} SplitAppend(x: string, c: char, y: string)
    ensures Split(x + [c] + y, c) == Split(x, c) + Split(y, c)
  {
    var s := x + [c] + y;
    if x == [] {
      assert s[0] == c && s[1..] == y;
    } else {
      assert s[0] == x[0] && s[1..] == x[1..] + [c] + y;
      SplitAppend(x[1..], c, y);
    }
  }

  /** Splitting at a first separator: the piece before it, then the pieces
      of the rest. */
  lemma SplitFirst(a: string, c: char, b: string)
    requires c !in a
    ensures Split(a + [c] + b, c) == [a] + Split(b, c)
  {
    SplitAppend(a, c, b);
    SplitNone(a, c);
  }

  /** The last piece of a split is the text after the last separator. */
  lemma SplitLast(a: string, c: char, b: string)
    requires c !in b
    ensures Split(a + [c] + b, c)[|Split(a + [c] + b, c)| - 1] == b
  {
    SplitAppend(a, c, b);
    SplitNone(b, c);
  }

  /** Joining the pieces of a split gives the text back. */
  lemma {:induction false} JoinSplit(s: string, c: char)
    ensures Join(Split(s, c), [c]) == s
  {
    if s != [] {
      var rest := Split(s[1..], c);
      JoinSplit(s[1..], c);
      if s[0] == c {
        assert ([[]] + rest)[1..] == rest;
      } else {
        var parts := [[s[0]] + rest[0]] + rest[1..];
        if |rest| > 1 {
          assert parts[1..] == rest[1..];
          assert Join(rest, [c]) == rest[0] + [c] + Join(rest[1..], [c]);
        }
      }
      assert s == [s[0]] + s[1..];
    }
  }

  /** Splitting a join gives the pieces back when none holds the separator. */
  lemma {:induction false} SplitJoin(parts: seq<string>, c: char)
    requires |parts| >= 1
    requires forall i :: 0 <= i < |parts| ==> c !in parts[i]
    ensures Split(Join(parts, [c]), c) == parts
    decreases |parts|
  {
    assert c !in parts[0];
    if |parts| == 1 {
      SplitNone(parts[0], c);
    } else {
      var rest := parts[1..];
      assert forall i :: 0 <= i < |rest| ==> c !in rest[i] by {
        assert forall i :: 0 <= i < |rest| ==> rest[i] == parts[i + 1];
      }
      SplitJoin(rest, c);
      SplitFirst(parts[0], c, Join(rest, [c]));
      assert parts == [parts[0]] + rest;
    }
  }

  /** Joining peels off the last piece. */
  lemma {:induction false} JoinLast(parts: seq<string>, sep: string)
    requires |parts| > 1
    ensures Join(parts, sep) == Join(parts[..|parts| - 1], sep) + sep + parts[|parts| - 1]
    decreases |parts|
  {
    if |parts| > 2 {
      JoinLast(parts[1..], sep);
      assert parts[1..][..|parts| - 2] == parts[..|parts| - 1][1..];
    }
  }

  /** `s.split(c, 1)` */
  function SplitOnce(s: string, c: char): (parts: seq<string>)
    ensures 1 <= |parts| <= 2
    ensures |parts| == 1 <==> c !in s
    ensures |parts| == 1 ==> parts[0] == s
    ensures |parts| == 2 ==> c !in parts[0] && s == parts[0] + [c] + parts[1]
  {
    if c in s then
      var i := IndexOf(s, c);
      assert s == s[..i] + [c] + s[i + 1..];
      [s[..i], s[i + 1..]]
    else [s]
  }

  /** Splitting once at a separator that the first part does not hold
      gives back both parts. */
  lemma SplitOnceAt(a: string, c: char, b: string)
    requires c !in a
    ensures SplitOnce(a + [c] + b, c) == [a, b]
  {
    var s := a + [c] + b;
    assert s[..|a|] == a;
    IndexOfAt(s, c, |a|);
    assert s[|a| + 1..] == b;
  }

  /** The text before the first occurrence of `sep`: `s.split(sep)[0]`. */
  function BeforeFirst(s: string, sep: string): (r: string)
    ensures StartsWith(s, r)
    ensures !Contains(s, sep) ==> r == s
    ensures Contains(s, sep) ==> MatchAt(s, sep, |r|)
    ensures Contains(s, sep) ==> forall q :: 0 <= q < |r| ==> !MatchAt(s, sep, q)
    ensures sep != [] ==> !Contains(r, sep)
  {
    FindFirst(s, sep, 0);
    var p := Find(s, sep, 0);
    if p == -1 then s
    else
      assert sep != [] ==> !Contains(s[..p], sep) by {
        if sep != [] {
          forall q | 0 <= q <= p - |sep|
            ensures !MatchAt(s[..p], sep, q)
          {
            MatchAtPrefix(s, p, sep, q);
          }
        }
      }
      s[..p]
  }

  // ---------------------------------------------------------------------
  // Whitespace: `s.strip()` and `s.split()`
  // ---------------------------------------------------------------------

  /** How many white-space characters `s` starts with. */
  function LeadingSpace(s: string): (n: nat)
    ensures n <= |s|
    ensures forall i :: 0 <= i < n ==> IsSpace(s[i])
    ensures n < |s| ==> !IsSpace(s[n])
    decreases |s|
  {
    if s != [] && IsSpace(s[0]) then 1 + LeadingSpace(s[1..]) else 0
  }

  /** Where the trailing run of white space of `s` begins. */
  function TrailingSpace(s: string): (n: nat)
    ensures n <= |s|
    ensures forall i :: n <= i < |s| ==> IsSpace(s[i])
    ensures n > 0 ==> !IsSpace(s[n - 1])
    decreases |s|
  {
    if s != [] && IsSpace(s[|s| - 1]) then TrailingSpace(s[..|s| - 1]) else |s|
  }

  /** `s.strip()`: the text between its leading and its trailing run of
      white space. */
  function Strip(s: string): (r: string)
    ensures r == [] || (!IsSpace(r[0]) && !IsSpace(r[|r| - 1]))
    ensures r == [] <==> forall i :: 0 <= i < |s| ==> IsSpace(s[i])
    ensures exists a :: StrippedAt(s, r, a)
  {
    var a := LeadingSpace(s);
    if a == |s| then
      assert StrippedAt(s, [], a);
      []
    else
      var b := TrailingSpace(s);
      var r := s[a..b];
      assert StrippedAt(s, r, a);
      r
  }

  /** `r` stands at position `a` of `s`, with only white space around it. */
  predicate StrippedAt(s: string, r: string, a: int) {
    && 0 <= a <= |s| - |r| && r == s[a..a + |r|]
    && (forall i :: 0 <= i < a ==> IsSpace(s[i]))
    && (forall i :: a + |r| <= i < |s| ==> IsSpace(s[i]))
  }

  predicate IsWord(w: string) {
    w != [] && forall j :: 0 <= j < |w| ==> !IsSpace(w[j])
  }

  /** Length of the leading run of non-whitespace characters. */
  function WordLength(s: string): (n: nat)
    ensures n <= |s|
    ensures forall i :: 0 <= i < n ==> !IsSpace(s[i])
    ensures n < |s| ==> IsSpace(s[n])
    decreases |s|
  {
    if s == [] || IsSpace(s[0]) then 0 else 1 + WordLength(s[1..])
  }

  /** `s.split()`: the maximal runs of non-whitespace characters. */
  function Words(s: string): (ws: seq<string>)
    ensures forall i :: 0 <= i < |ws| ==> IsWord(ws[i])
    ensures ws == [] <==> forall i :: 0 <= i < |s| ==> IsSpace(s[i])
    decreases |s|
  {
    if s == [] then []
    else if IsSpace(s[0]) then
      assert forall i :: 1 <= i < |s| ==> s[i] == s[1..][i - 1];
      Words(s[1..])
    else
      var n := WordLength(s);
      [s[..n]] + Words(s[n..])
  }

  /** A word followed by white space or the end is the first word. */
  lemma {:induction false} WordsFront(w: string, t: string)
    requires IsWord(w) && (t == [] || IsSpace(t[0]))
    ensures WordLength(w + t) == |w|
    ensures Words(w + t) == [w] + Words(t)
    decreases |w|
  {
    if |w| > 1 {
      assert (w + t)[1..] == w[1..] + t;
      WordsFront(w[1..], t);
    }
    assert (w + t)[..|w|] == w && (w + t)[|w|..] == t;
  }

  /** Words joined by single spaces split back into those words. */
  lemma {:induction false} WordsJoin(ws: seq<string>)
    requires forall k :: 0 <= k < |ws| ==> IsWord(ws[k])
    ensures Words(Join(ws, " ")) == ws
    decreases |ws|
  {
    if |ws| == 1 {
      WordsFront(ws[0], []);
      assert ws[0] + [] == ws[0];
    } else if |ws| > 1 {
      var rest := Join(ws[1..], " ");
      WordsJoin(ws[1..]);
      assert ws[0] + " " + rest == ws[0] + (" " + rest);
      WordsFront(ws[0], " " + rest);
      assert (" " + rest)[1..] == rest;
      assert [ws[0]] + ws[1..] == ws;
    }
  }

  // ---------------------------------------------------------------------
  // Decimal digits: `filter(str.isdigit, s)`, `int(...)`, `str(n)`
  // ---------------------------------------------------------------------

  predicate AllDigits(s: string) {
    forall i :: 0 <= i < |s| ==> IsDigit(s[i])
  }

  /** `''.join(filter(str.isdigit, s))` */
  function DigitsOf(s: string): (ds: string)
    ensures AllDigits(ds) && |ds| <= |s|
    ensures ds == [] <==> forall i :: 0 <= i < |s| ==> !IsDigit(s[i])
    ensures |s| == 1 ==> ds == if IsDigit(s[0]) then s else []
  {
    if s == [] then []
    else
      var rest := DigitsOf(s[1..]);
      assert forall i :: 1 <= i < |s| ==> s[i] == s[1..][i - 1];
      (if IsDigit(s[0]) then [s[0]] else []) + rest
  }

  /** The digits of two texts joined are the digits of each, in order. */
  lemma {:induction false} DigitsOfAppend(s: string, t: string)
    ensures DigitsOf(s + t) == DigitsOf(s) + DigitsOf(t)
    decreases |s|
  {
    if s != [] {
      assert (s + t)[0] == s[0] && (s + t)[1..] == s[1..] + t;
      DigitsOfAppend(s[1..], t);
    } else {
      assert s + t == t;
    }
  }

  function DigitValue(c: char): nat
    requires IsDigit(c)
  {
    c as int - '0' as int
  }

  function DigitChar(d: nat): (c: char)
    requires d < 10
    ensures IsDigit(c) && DigitValue(c) == d
  {
    ('0' as int + d) as char
  }

  /** `int(ds)` for a string of decimal digits. */
  function DigitsValue(ds: string): nat
    requires AllDigits(ds)
  {
    if ds == [] then 0
    else DigitsValue(ds[..|ds| - 1]) * 10 + DigitValue(ds[|ds| - 1])
  }

  /** `str(n)` for a natural number. */
  function NatToString(n: nat): (s: string)
    ensures s != [] && AllDigits(s)
  {
    if n < 10 then [DigitChar(n)] else NatToString(n / 10) + [DigitChar(n % 10)]
  }

  /** `str(i)` for an integer. */
  function IntToString(i: int): string {
    if i < 0 then "-" + NatToString(-i) else NatToString(i)
  }

  /** Reading back the decimal rendering of a number gives the number. */
  lemma {:induction false} NatToStringRoundTrip(n: nat)
    ensures DigitsValue(NatToString(n)) == n
  {
    if n >= 10 {
      var s := NatToString(n);
      assert s[..|s| - 1] == NatToString(n / 10);
      NatToStringRoundTrip(n / 10);
    }
  }
}
