/**
 * The Python string operations the layer checks are written with:
 * `startswith`, `find`, `in`, `strip`, `split('\n')`, `'\n'.join`,
 * `split(':', 1)` and slicing with possibly negative bounds.
 * Strings are sequences of Unicode code points, as Python's `str` is.
 */
module Text {
  import opened Wrappers

  /** `s.startswith(p)` */
  predicate StartsWith(s: string, p: string)
  {
    |p| <= |s| && s[..|p|] == p
  }

  /** `p` occurs in `s` starting at index `i`. */
  predicate OccursAt(s: string, p: string, i: int)
  {
    0 <= i && i + |p| <= |s| && s[i..i + |p|] == p
  }

  /** `s.find(p, k)` for a start `k` inside `s`. */
  function FindFrom(s: string, p: string, k: nat): (r: int)
    requires k <= |s|
    ensures r == -1 ==> forall i :: k <= i ==> !OccursAt(s, p, i)
    ensures r != -1 ==> k <= r && OccursAt(s, p, r) && forall i :: k <= i < r ==> !OccursAt(s, p, i)
    decreases |s| - k
  {
    if k + |p| > |s| then -1
    else if s[k..k + |p|] == p then k
    else FindFrom(s, p, k + 1)
  }

  /** `s.find(p)`: the index of the first occurrence of `p` in `s`, or -1. */
  function Find(s: string, p: string): (r: int)
    ensures r == -1 <==> forall i :: !OccursAt(s, p, i)
    ensures r != -1 ==> OccursAt(s, p, r) && forall i :: 0 <= i < r ==> !OccursAt(s, p, i)
  {
    FindFrom(s, p, 0)
  }

  /** `p in s` */
  function Contains(s: string, p: string): (b: bool)
    ensures b <==> exists i :: OccursAt(s, p, i)
  {
    Find(s, p) != -1
  }

  /** An occurrence in `s` is still one after text is added on either side. */
  lemma ContainsExtended(s: string, p: string, before: string, after: string)
    requires Contains(s, p)
    ensures Contains(before + s + after, p)
  {
    var i := Find(s, p);
    var t := before + s + after;
    assert t[|before| + i..|before| + i + |p|] == s[i..i + |p|];
    assert OccursAt(t, p, |before| + i);
  }

  /** Every pattern found in `s` is still found after text is appended to it. */
  lemma AllContainedAppend(s: string, patterns: seq<string>, extra: string)
    requires forall k :: 0 <= k < |patterns| ==> Contains(s, patterns[k])
    ensures forall k :: 0 <= k < |patterns| ==> Contains(s + extra, patterns[k])
  {
    forall k | 0 <= k < |patterns|
      ensures Contains(s + extra, patterns[k])
    {
      ContainsExtended(s, patterns[k], "", extra);
      assert "" + s + extra == s + extra;
    }
  }

  /** `p in s[a:b]` holds exactly when `p` occurs in `s` wholly between `a` and `b`. */
  lemma ContainsInSlice(s: string, p: string, a: nat, b: nat)
    requires a <= b <= |s|
    ensures Contains(s[a..b], p) <==> exists i :: a <= i && i + |p| <= b && OccursAt(s, p, i)
  {
    var t := s[a..b];
    if Contains(t, p) {
      var j :| OccursAt(t, p, j);
      SliceOfSlice(s, a, b, j, j + |p|);
      assert OccursAt(s, p, a + j);
    }
    if i :| a <= i && i + |p| <= b && OccursAt(s, p, i) {
      SliceOfSlice(s, a, b, i - a, i - a + |p|);
      assert OccursAt(t, p, i - a);
    }
  }

  lemma SliceOfSlice(s: string, a: nat, b: nat, i: nat, j: nat)
    requires a <= b <= |s| && i <= j <= b - a
    ensures s[a..b][i..j] == s[a + i..a + j]
  {
    forall q | 0 <= q < j - i ensures s[a..b][i..j][q] == s[a + i..a + j][q] { }
  }

  /** When `q` is a prefix of `p`, every occurrence of `p` is one of `q`. */
  lemma ContainsPrefixOf(s: string, p: string, q: string)
    requires Contains(s, p) && StartsWith(p, q)
    ensures Contains(s, q)
  {
    var i := Find(s, p);
    SliceOfSlice(s, i, i + |p|, 0, |q|);
    assert p[..|q|] == q;
    assert OccursAt(s, q, i);
  }

  /** A text starting with `p` contains `p`. */
  lemma StartsWithContains(s: string, p: string)
    requires StartsWith(s, p)
    ensures Contains(s, p)
  {
    assert OccursAt(s, p, 0);
  }

  /** Index of the first pattern that does not occur in `s` (the loop `for f in fields: if f not in s: return ...`). */
  function FirstAbsent(s: string, patterns: seq<string>): (r: Option<nat>)
    ensures r == None <==> forall k :: 0 <= k < |patterns| ==> Contains(s, patterns[k])
    ensures r != None ==>
      r.value < |patterns| && !Contains(s, patterns[r.value]) &&
      forall k :: 0 <= k < r.value ==> Contains(s, patterns[k])
  {
    if patterns == [] then None
    else if !Contains(s, patterns[0]) then Some(0)
    else match FirstAbsent(s, patterns[1..])
      case None => None
      case Some(k) => Some(k + 1)
  }

  /** Index of the first pattern that occurs in `s` (the loop `for p in patterns: if p in s: return ...`). */
  function FirstPresent(s: string, patterns: seq<string>): (r: Option<nat>)
    ensures r == None <==> forall k :: 0 <= k < |patterns| ==> !Contains(s, patterns[k])
    ensures r != None ==>
      r.value < |patterns| && Contains(s, patterns[r.value]) &&
      forall k :: 0 <= k < r.value ==> !Contains(s, patterns[k])
  {
    if patterns == [] then None
    else if Contains(s, patterns[0]) then Some(0)
    else match FirstPresent(s, patterns[1..])
      case None => None
      case Some(k) => Some(k + 1)
  }

  /** `any(p in s for p in patterns)` */
  function ContainsAny(s: string, patterns: seq<string>): (b: bool)
    ensures b <==> exists k :: 0 <= k < |patterns| && Contains(s, patterns[k])
  {
    FirstPresent(s, patterns) != None
  }

  /** The characters for which Python's `str.isspace()` holds. */
  predicate IsSpace(c: char)
  {
    ('\t' <= c <= '\r') || ('\U{1C}' <= c <= ' ') || c == '\U{85}' || c == '\U{A0}' ||
    c == '\U{1680}' || ('\U{2000}' <= c <= '\U{200A}') || c == '\U{2028}' || c == '\U{2029}' ||
    c == '\U{202F}' || c == '\U{205F}' || c == '\U{3000}'
  }

  function TrimStart(s: string): string
  {
    if s != [] && IsSpace(s[0]) then TrimStart(s[1..]) else s
  }

  function TrimEnd(s: string): string
  {
    if s != [] && IsSpace(s[|s| - 1]) then TrimEnd(s[..|s| - 1]) else s
  }

  /** `s.strip()` */
  function Strip(s: string): string
  {
    TrimEnd(TrimStart(s))
  }

  lemma {:induction false} TrimStartSpec(s: string)
    ensures |TrimStart(s)| <= |s| && TrimStart(s) == s[|s| - |TrimStart(s)|..]
    ensures forall k :: 0 <= k < |s| - |TrimStart(s)| ==> IsSpace(s[k])
    ensures TrimStart(s) != [] ==> !IsSpace(TrimStart(s)[0])
  {
    if s != [] && IsSpace(s[0]) {
      var tail := s[1..];
      TrimStartSpec(tail);
      var t := TrimStart(tail);
      assert TrimStart(s) == t;
      assert tail[|tail| - |t|..] == s[|s| - |t|..];
      forall k | 1 <= k < |s| - |t|
        ensures IsSpace(s[k])
      {
        assert s[k] == tail[k - 1];
      }
    }
  }

  lemma {:induction false} TrimEndSpec(s: string)
    ensures |TrimEnd(s)| <= |s| && TrimEnd(s) == s[..|TrimEnd(s)|]
    ensures forall k :: |TrimEnd(s)| <= k < |s| ==> IsSpace(s[k])
    ensures TrimEnd(s) != [] ==> !IsSpace(TrimEnd(s)[|TrimEnd(s)| - 1])
  {
    if s != [] && IsSpace(s[|s| - 1]) {
      var init := s[..|s| - 1];
      TrimEndSpec(init);
      var t := TrimEnd(init);
      assert TrimEnd(s) == t;
      assert init[..|t|] == s[..|t|];
      forall k | |t| <= k < |s| - 1
        ensures IsSpace(s[k])
      {
        assert s[k] == init[k];
      }
    }
  }

  /** `s[i:i + |r|] == r` with only whitespace around it in `s`. */
  predicate StrippedAt(s: string, r: string, i: int)
  {
    0 <= i && i + |r| <= |s| && s[i..i + |r|] == r &&
    (forall k :: 0 <= k < i ==> IsSpace(s[k])) &&
    (forall k :: i + |r| <= k < |s| ==> IsSpace(s[k]))
  }

  /** `s.strip()` is `s` with its leading and trailing whitespace removed, and nothing more. */
  lemma StripSpec(s: string)
    ensures exists i :: StrippedAt(s, Strip(s), i)
    ensures Strip(s) != [] ==> !IsSpace(Strip(s)[0]) && !IsSpace(Strip(s)[|Strip(s)| - 1])
    ensures Strip(s) == [] <==> forall k :: 0 <= k < |s| ==> IsSpace(s[k])
  {
    var t := TrimStart(s);
    TrimStartSpec(s);
    TrimEndSpec(t);
    var r := TrimEnd(t);
    assert Strip(s) == r;
    var i := |s| - |t|;
    assert forall k :: 0 <= k < |t| ==> t[k] == s[i + k];
    assert StrippedAt(s, r, i);
    if r != [] {
      assert r[0] == s[i];
    } else {
      // a leading non-space would have survived the trimming of the end
      assert t == [];
    }
  }

  /** `sep.join(parts)` */
  function Join(parts: seq<string>, sep: char): (r: string)
  {
    if parts == [] then ""
    else if |parts| == 1 then parts[0]
    else parts[0] + [sep] + Join(parts[1..], sep)
  }

  /** `s.split(sep)` for a one-character separator. */
  function Split(s: string, sep: char): (r: seq<string>)
    ensures |r| >= 1
    ensures forall k :: 0 <= k < |r| ==> sep !in r[k] && |r[k]| <= |s|
    ensures Join(r, sep) == s
  {
    if s == [] then [""]
    else
      var rest := Split(s[1..], sep);
      if s[0] == sep then
        assert Join([""] + rest, sep) == [sep] + Join(rest, sep);
        [""] + rest
      else
        var r := [[s[0]] + rest[0]] + rest[1..];
        assert Join(rest, sep) == if |rest| == 1 then rest[0] else rest[0] + [sep] + Join(rest[1..], sep);
        assert r[1..] == rest[1..];
        assert Join(r, sep) == [s[0]] + Join(rest, sep);
        r
  }

  /** Splitting a join of separator-free parts gives the parts back. */
  lemma {:induction false} SplitJoin(parts: seq<string>, sep: char)
    requires |parts| >= 1
    requires forall k :: 0 <= k < |parts| ==> sep !in parts[k]
    ensures Split(Join(parts, sep), sep) == parts
  {
    if |parts| == 1 {
      SplitNoSeparator(parts[0], sep);
    } else {
      SplitJoin(parts[1..], sep);
      SplitAfterPart(parts[0], sep, Join(parts[1..], sep));
    }
  }

  lemma {:induction false} SplitNoSeparator(s: string, sep: char)
    requires sep !in s
    ensures Split(s, sep) == [s]
  {
    if s != [] {
      SplitNoSeparator(s[1..], sep);
    }
  }

  lemma {:induction false} SplitAfterPart(p: string, sep: char, rest: string)
    requires sep !in p
    ensures Split(p + [sep] + rest, sep) == [p] + Split(rest, sep)
  {
    if p == [] {
      assert p + [sep] + rest == [sep] + rest;
      SplitCons(sep, rest, sep);
    } else {
      var x := p + [sep] + rest;
      SplitAfterPart(p[1..], sep, rest);
      assert x == [p[0]] + (p[1..] + [sep] + rest);
      SplitCons(p[0], p[1..] + [sep] + rest, sep);
      var tail := Split(p[1..] + [sep] + rest, sep);
      assert tail[0] == p[1..] && tail[1..] == Split(rest, sep);
      assert [p[0]] + p[1..] == p;
    }
  }

  /** One character in front: a separator starts a new part, any other character joins the first part. */
  lemma SplitCons(c: char, t: string, sep: char)
    ensures Split([c] + t, sep) ==
      if c == sep then [""] + Split(t, sep)
      else [[c] + Split(t, sep)[0]] + Split(t, sep)[1..]
  {
    assert ([c] + t)[1..] == t;
  }

  /** Python's normalisation of a slice bound `i` against a length `n`. */
  function SliceBound(i: int, n: nat): (r: nat)
    ensures r <= n
    ensures 0 <= i <= n ==> r == i
    ensures i < 0 ==> r == if n + i < 0 then 0 else n + i
    ensures i > n ==> r == n
  {
    if i < 0 then (if n + i < 0 then 0 else n + i)
    else if i > n then n
    else i
  }

  /** `s[i:j]`, where negative bounds count from the end and bounds are clamped. */
  function PySlice(s: string, i: int, j: int): (r: string)
    ensures 0 <= i <= j <= |s| ==> r == s[i..j]
    ensures |r| <= |s|
  {
    var a := SliceBound(i, |s|);
    var b := SliceBound(j, |s|);
    if a <= b then s[a..b] else ""
  }

  /** `s.split(c, 1)[1]`, or None where Python would raise an IndexError because `c` is absent. */
  function AfterFirst(s: string, c: char): (r: Option<string>)
    ensures r == None <==> c !in s
    ensures r != None ==>
      |r.value| < |s| && r.value == s[|s| - |r.value|..] &&
      s[|s| - |r.value| - 1] == c && c !in s[..|s| - |r.value| - 1]
  {
    if s == [] then None
    else if s[0] == c then Some(s[1..])
    else AfterFirst(s[1..], c)
  }

  /** When a line starts with a prefix whose only `c` is its last character, `split(c, 1)[1]` is the rest of the line. */
  lemma AfterFirstPastPrefix(s: string, prefix: string, c: char)
    requires StartsWith(s, prefix) && |prefix| > 0
    requires prefix[|prefix| - 1] == c && c !in prefix[..|prefix| - 1]
    ensures AfterFirst(s, c) == Some(s[|prefix|..])
  {
    assert s[|prefix| - 1] == c;
  }
}
