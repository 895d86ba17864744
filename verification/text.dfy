/**
 * The few Python string operations the scraper relies on, restricted to
 * ASCII: `lower`/`upper`, `in` and `find`, `split()` with no separator,
 * `" ".join`, `strip()` with no argument and `replace(p, "")`.
 */
module Text {
  import opened Wrappers

  /** The ASCII characters for which Python's `str.isspace` holds. */
  predicate IsSpace(c: char) {
    c == ' ' || c == '\t' || c == '\n' || c == '\r' || c == '\U{B}' || c == '\U{C}'
    || ('\U{1C}' <= c <= '\U{1F}')
  }

  predicate NoSpace(s: string) {
    forall i :: 0 <= i < |s| ==> !IsSpace(s[i])
  }

  function LowerChar(c: char): char {
    if 'A' <= c <= 'Z' then (c as int + 32) as char else c
  }

  function UpperChar(c: char): char {
    if 'a' <= c <= 'z' then (c as int - 32) as char else c
  }

  /** `s.lower()` on ASCII text. */
  function Lower(s: string): (r: string)
    ensures |r| == |s|
    ensures forall i :: 0 <= i < |s| ==> r[i] == LowerChar(s[i])
  {
    seq(|s|, i requires 0 <= i < |s| => LowerChar(s[i]))
  }

  /** `s.upper()` on ASCII text. */
  function Upper(s: string): (r: string)
    ensures |r| == |s|
    ensures forall i :: 0 <= i < |s| ==> r[i] == UpperChar(s[i])
  {
    seq(|s|, i requires 0 <= i < |s| => UpperChar(s[i]))
  }

  predicate OccursAt(s: string, p: string, i: nat) {
    i + |p| <= |s| && s[i..i + |p|] == p
  }

  /** An occurrence at `j` in `s` is an occurrence at `j - 1` in `s[1..]`. */
  lemma OccursAtTail(s: string, p: string, j: nat)
    requires s != [] && 1 <= j
    ensures OccursAt(s, p, j) <==> OccursAt(s[1..], p, j - 1)
  {
    if j + |p| <= |s| {
      var a, b := s[j..j + |p|], s[1..][j - 1..j - 1 + |p|];
      assert |a| == |b|;
      forall k | 0 <= k < |a| ensures a[k] == b[k] {
        assert a[k] == s[j + k];
        assert b[k] == s[1..][j - 1 + k];
      }
      assert a == b;
    }
  }

  /** `s.find(p)`, with `None` for Python's -1. */
  function Find(s: string, p: string): (r: Option<nat>)
    ensures r.Some? ==> OccursAt(s, p, r.value)
    ensures r.Some? ==> forall j :: 0 <= j < r.value ==> !OccursAt(s, p, j)
    ensures r.None? ==> forall j :: 0 <= j <= |s| ==> !OccursAt(s, p, j)
    decreases |s|
  {
    if |p| <= |s| && s[..|p|] == p then Some(0)
    else if s == [] then None
    else
      var rest := Find(s[1..], p);
      assert !OccursAt(s, p, 0) by {
        assert |p| <= |s| ==> s[0..|p|] == s[..|p|];
      }
      forall j: nat | 1 <= j
        ensures OccursAt(s, p, j) <==> OccursAt(s[1..], p, j - 1)
      {
        OccursAtTail(s, p, j);
      }
      match rest
      case Some(i) => Some(i + 1)
      case None => None
  }

  /** Python's `p in s`: `p` occurs somewhere in `s`. */
  predicate Contains(s: string, p: string)
    ensures Contains(s, p) <==> exists j :: 0 <= j <= |s| && OccursAt(s, p, j)
  {
    Find(s, p).Some?
  }

  /** Length of the run of non-whitespace characters `s` starts with. */
  function TokenLen(s: string): (n: nat)
    ensures n <= |s|
    ensures NoSpace(s[..n])
    ensures n < |s| ==> IsSpace(s[n])
  {
    if s == [] || IsSpace(s[0]) then 0 else 1 + TokenLen(s[1..])
  }

  /** `s.split()`: the maximal runs of non-whitespace characters, in order. */
  function Split(s: string): (r: seq<string>)
    ensures forall k :: 0 <= k < |r| ==> |r[k]| > 0 && NoSpace(r[k])
    decreases |s|
  {
    if s == [] then []
    else if IsSpace(s[0]) then Split(s[1..])
    else
      var n := TokenLen(s);
      [s[..n]] + Split(s[n..])
  }

  /** The total length of `parts`. */
  function TotalLen(parts: seq<string>): nat {
    if parts == [] then 0 else |parts[0]| + TotalLen(parts[1..])
  }

  /** `" ".join(parts)`: the parts with one separator between each two of them. */
  function Join(parts: seq<string>): (r: string)
    ensures parts == [] ==> r == ""
    ensures parts != [] ==> |r| == TotalLen(parts) + |parts| - 1
  {
    if parts == [] then ""
    else if |parts| == 1 then parts[0]
    else parts[0] + " " + Join(parts[1..])
  }

  /** `xs[:n]`. */
  function Take<T>(xs: seq<T>, n: nat): (r: seq<T>)
    ensures |r| == if |xs| < n then |xs| else n
    ensures r <= xs
  {
    if |xs| <= n then xs else xs[..n]
  }

  /** The first position at or after `k` that does not hold whitespace, or `|s|`. */
  function SkipSpace(s: string, k: nat): (n: nat)
    requires k <= |s|
    ensures k <= n <= |s|
    ensures forall i :: k <= i < n ==> IsSpace(s[i])
    ensures n < |s| ==> !IsSpace(s[n])
    decreases |s| - k
  {
    if k < |s| && IsSpace(s[k]) then SkipSpace(s, k + 1) else k
  }

  /** The end of `s[..k]` once its trailing whitespace is dropped. */
  function SkipSpaceBack(s: string, k: nat): (n: nat)
    requires k <= |s|
    ensures n <= k
    ensures forall i :: n <= i < k ==> IsSpace(s[i])
    ensures 0 < n ==> !IsSpace(s[n - 1])
    decreases k
  {
    if 0 < k && IsSpace(s[k - 1]) then SkipSpaceBack(s, k - 1) else k
  }

  /** `s.lstrip()`: drops the leading whitespace. */
  function LStrip(s: string): (r: string)
    ensures |r| <= |s|
    ensures forall i :: 0 <= i < |s| - |r| ==> IsSpace(s[i])
    ensures forall i :: 0 <= i < |r| ==> r[i] == s[|s| - |r| + i]
    ensures r == [] || !IsSpace(r[0])
  {
    s[SkipSpace(s, 0)..]
  }

  /** `s.rstrip()`: drops the trailing whitespace. */
  function RStrip(s: string): (r: string)
    ensures |r| <= |s|
    ensures forall i :: |r| <= i < |s| ==> IsSpace(s[i])
    ensures forall i :: 0 <= i < |r| ==> r[i] == s[i]
    ensures r == [] || !IsSpace(r[|r| - 1])
  {
    s[..SkipSpaceBack(s, |s|)]
  }

  /**
   * `s.strip()`: the run `s[a..a + |r|]` with `a = SkipSpace(s, 0)`; only
   * whitespace lies before and after it, and it neither starts nor ends
   * with whitespace.
   */
  function Strip(s: string): (r: string)
    ensures SkipSpace(s, 0) + |r| <= |s|
    ensures forall i :: 0 <= i < |r| ==> r[i] == s[SkipSpace(s, 0) + i]
    ensures forall i :: SkipSpace(s, 0) + |r| <= i < |s| ==> IsSpace(s[i])
    ensures r == [] || (!IsSpace(r[0]) && !IsSpace(r[|r| - 1]))
  {
    RStrip(LStrip(s))
  }

  /**
   * `s.replace(p, "")`: every non-overlapping occurrence of `p`, scanned
   * left to right, is deleted; an empty `p` leaves `s` as it is.
   */
  function RemoveAll(s: string, p: string): (r: string)
    ensures |r| <= |s|
    ensures |p| == 0 ==> r == s
    decreases |s|
  {
    if |p| == 0 || |s| < |p| then s
    else if s[..|p|] == p then RemoveAll(s[|p|..], p)
    else [s[0]] + RemoveAll(s[1..], p)
  }

  /** Lower-casing works character by character, so it distributes over `+`. */
  lemma LowerAppend(a: string, b: string)
    ensures Lower(a + b) == Lower(a) + Lower(b)
  {
    assert forall i :: 0 <= i < |a + b| ==> Lower(a + b)[i] == (Lower(a) + Lower(b))[i];
  }

  /** Upper-casing twice is upper-casing once. */
  lemma UpperIdempotent(s: string)
    ensures Upper(Upper(s)) == Upper(s)
  {
    assert forall i :: 0 <= i < |s| ==> Upper(Upper(s))[i] == Upper(s)[i];
  }

  lemma {:induction false} TokenLenOfToken(t: string, rest: string)
    requires NoSpace(t)
    requires rest == [] || IsSpace(rest[0])
    ensures TokenLen(t + rest) == |t|
    decreases |t|
  {
    if t == [] {
      assert t + rest == rest;
    } else {
      assert (t + rest)[1..] == t[1..] + rest;
      TokenLenOfToken(t[1..], rest);
    }
  }

  /** A whole token followed by whitespace (or nothing) splits off as one part. */
  lemma SplitToken(t: string, rest: string)
    requires |t| > 0 && NoSpace(t)
    requires rest == [] || IsSpace(rest[0])
    ensures Split(t + rest) == [t] + Split(rest)
  {
    TokenLenOfToken(t, rest);
    assert (t + rest)[..|t|] == t;
    assert (t + rest)[|t|..] == rest;
  }

  /** Leading whitespace does not change the split. */
  lemma SplitSpace(c: char, rest: string)
    requires IsSpace(c)
    ensures Split([c] + rest) == Split(rest)
  {
    assert ([c] + rest)[1..] == rest;
  }

  lemma JoinCons(ts: seq<string>)
    requires |ts| >= 2
    ensures Join(ts) == ts[0] + " " + Join(ts[1..])
  {
  }

  /** Round trip: splitting tokens joined by single spaces gives the tokens back. */
  lemma {:induction false} SplitJoin(ts: seq<string>)
    requires forall k :: 0 <= k < |ts| ==> |ts[k]| > 0 && NoSpace(ts[k])
    ensures Split(Join(ts)) == ts
    decreases |ts|
  {
    if ts == [] {
    } else if |ts| == 1 {
      SplitToken(ts[0], []);
      assert ts[0] + [] == ts[0];
    } else {
      var rest := Join(ts[1..]);
      assert Join(ts) == ts[0] + (" " + rest);
      SplitToken(ts[0], " " + rest);
      SplitSpace(' ', rest);
      SplitJoin(ts[1..]);
    }
  }

  /** Removing a pattern that never occurs leaves the text as it is. */
  lemma {:induction false} RemoveAllAbsent(s: string, p: string)
    requires Find(s, p).None?
    ensures RemoveAll(s, p) == s
    decreases |s|
  {
    if |p| == 0 || |s| < |p| {
    } else {
      assert !OccursAt(s, p, 0);
      assert s[..|p|] != p by { assert s[0..|p|] == s[..|p|]; }
      forall j | 0 <= j <= |s[1..]| ensures !OccursAt(s[1..], p, j) {
        OccursAtTail(s, p, j + 1);
      }
      RemoveAllAbsent(s[1..], p);
    }
  }

  /** A non-empty run without whitespace splits into itself alone. */
  lemma SplitWord(t: string)
    requires |t| > 0 && NoSpace(t)
    ensures Split(t) == [t]
  {
    SplitToken(t, []);
    assert t + [] == t;
  }

  /** A whitespace character separates: the split of `a + [c] + b` is that of `a`, then that of `b`. */
  lemma {:induction false} SplitAroundSpace(a: string, c: char, b: string)
    requires IsSpace(c)
    ensures Split(a + [c] + b) == Split(a) + Split(b)
    decreases |a|
  {
    if a == [] {
      assert a + [c] + b == [c] + b;
      SplitSpace(c, b);
    } else if IsSpace(a[0]) {
      SplitAroundSpace(a[1..], c, b);
      SpaceThenSpace(a[0], a[1..], c, b);
      assert a == [a[0]] + a[1..];
    } else {
      var n := TokenLen(a);
      var t, rest := a[..n], a[n..];
      SplitAroundSpace(rest, c, b);
      TokenThenSpace(t, rest, c, b);
      assert a == t + rest;
    }
  }

  /** One step of `SplitAroundSpace` past a leading whitespace character `d`. */
  lemma SpaceThenSpace(d: char, rest: string, c: char, b: string)
    requires IsSpace(d)
    requires Split(rest + [c] + b) == Split(rest) + Split(b)
    ensures Split([d] + rest + [c] + b) == Split([d] + rest) + Split(b)
  {
    assert [d] + rest + [c] + b == [d] + (rest + [c] + b);
    SplitSpace(d, rest + [c] + b);
    SplitSpace(d, rest);
  }

  /** One step of `SplitAroundSpace` past a leading token `t`. */
  lemma TokenThenSpace(t: string, rest: string, c: char, b: string)
    requires |t| > 0 && NoSpace(t) && (rest == [] || IsSpace(rest[0])) && IsSpace(c)
    requires Split(rest + [c] + b) == Split(rest) + Split(b)
    ensures Split(t + rest + [c] + b) == Split(t + rest) + Split(b)
  {
    var x := rest + [c] + b;
    assert t + rest + [c] + b == t + x;
    SplitToken(t, x);
    SplitToken(t, rest);
    AppendAssoc([t], Split(rest), Split(b));
  }

  lemma AppendAssoc<T>(a: seq<T>, b: seq<T>, c: seq<T>)
    ensures a + (b + c) == (a + b) + c
  {
  }

  /** The characters of `s` that are not whitespace, in order. */
  function NonSpace(s: string): (r: string)
    ensures |r| <= |s|
    ensures NoSpace(r)
  {
    if s == [] then []
    else if IsSpace(s[0]) then NonSpace(s[1..])
    else [s[0]] + NonSpace(s[1..])
  }

  /** `"".join(parts)`. */
  function Concat(parts: seq<string>): string {
    if parts == [] then [] else parts[0] + Concat(parts[1..])
  }

  lemma {:induction false} NonSpaceAfterToken(t: string, u: string)
    requires NoSpace(t)
    ensures NonSpace(t + u) == t + NonSpace(u)
    decreases |t|
  {
    if t == [] {
      assert t + u == u;
    } else {
      assert (t + u)[1..] == t[1..] + u;
      NonSpaceAfterToken(t[1..], u);
      assert t == [t[0]] + t[1..];
    }
  }

  /** The tokens of `s.split()`, put back together, are exactly the non-whitespace characters of `s`. */
  lemma {:induction false} SplitKeepsCharacters(s: string)
    ensures Concat(Split(s)) == NonSpace(s)
    decreases |s|
  {
    if s == [] {
    } else if IsSpace(s[0]) {
      SplitKeepsCharacters(s[1..]);
    } else {
      var n := TokenLen(s);
      var parts := Split(s[n..]);
      assert Split(s) == [s[..n]] + parts;
      assert ([s[..n]] + parts)[1..] == parts;
      SplitKeepsCharacters(s[n..]);
      assert s == s[..n] + s[n..];
      NonSpaceAfterToken(s[..n], s[n..]);
    }
  }

  /**
   * `s.replace(p, "")` up to the first occurrence: the text before it is
   * kept, the occurrence is dropped, and the scan resumes right after it.
   */
  lemma RemoveAllAtFirst(s: string, p: string, i: nat)
    requires |p| > 0 && Find(s, p) == Some(i)
    ensures i + |p| <= |s|
    ensures RemoveAll(s, p) == s[..i] + RemoveAll(s[i + |p|..], p)
  {
    assert OccursAt(s, p, i);
    var a, b := s[..i], s[i + |p|..];
    CutAround(s, i, i + |p|);
    RemoveAllSplice(a, p, b);
  }

  lemma CutAround(s: string, i: nat, j: nat)
    requires i <= j <= |s|
    ensures s == s[..i] + s[i..j] + s[j..]
  {
  }

  lemma {:induction false} RemoveAllSplice(a: string, p: string, b: string)
    requires |p| > 0
    requires forall j :: 0 <= j < |a| ==> !OccursAt(a + p + b, p, j)
    ensures RemoveAll(a + p + b, p) == a + RemoveAll(b, p)
    decreases |a|
  {
    var x := a + p + b;
    if a == [] {
      assert x == p + b;
      assert x[..|p|] == p;
      assert x[|p|..] == b;
    } else {
      assert x[..|p|] != p by {
        assert !OccursAt(x, p, 0);
        assert x[0..|p|] == x[..|p|];
      }
      assert x[1..] == a[1..] + p + b;
      forall j | 0 <= j < |a| - 1 ensures !OccursAt(a[1..] + p + b, p, j) {
        OccursAtTail(x, p, j + 1);
      }
      RemoveAllSplice(a[1..], p, b);
      assert [a[0]] + (a[1..] + RemoveAll(b, p)) == a + RemoveAll(b, p);
    }
  }

  /**
   * `Strip` finds the only way to cut `s` into leading whitespace, a run
   * that neither starts nor ends with whitespace, and trailing whitespace.
   */
  lemma StripTrims(s: string, a: nat, b: nat)
    requires a <= b <= |s|
    requires forall i :: 0 <= i < a ==> IsSpace(s[i])
    requires forall i :: b <= i < |s| ==> IsSpace(s[i])
    requires a == b || (!IsSpace(s[a]) && !IsSpace(s[b - 1]))
    ensures Strip(s) == s[a..b]
  {
    var r, k := Strip(s), SkipSpace(s, 0);
    if a < b {
      assert k == a;
      assert k + |r| == b;
    }
  }
}
