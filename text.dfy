/** The Python `str` operations the backend relies on, over `seq<char>`:
    `strip`, `startswith`, `in` (substring test), `split(sep)`, `sep.join`,
    `replace(pat, "")`, `str(int)`, and the ASCII case folding that SQLite's
    `LIKE`/`ilike` applies. */
module Text {

  /** Python's `str.isspace()` for one character (the Unicode White_Space
      characters together with the ASCII separators 0x1C-0x1F). */
  predicate IsSpace(c: char) {
    c == ' ' || ('\t' <= c <= '\r') || ('\U{1c}' <= c <= '\U{1f}')
    || c == '\U{85}' || c == '\U{a0}' || c == '\U{1680}'
    || ('\U{2000}' <= c <= '\U{200a}') || c == '\U{2028}' || c == '\U{2029}'
    || c == '\U{202f}' || c == '\U{205f}' || c == '\U{3000}'
  }

  predicate AllSpace(s: string) {
    forall i :: 0 <= i < |s| ==> IsSpace(s[i])
  }

  /** Every character of `s` from `lo` up to `hi` is whitespace. */
  predicate SpacesBetween(s: string, lo: nat, hi: nat)
    requires lo <= hi <= |s|
  {
    forall i | lo <= i < hi :: IsSpace(s[i])
  }

  /** The first position from `i` on that does not hold whitespace, or
      `|s|` when there is none. */
  function SkipSpaces(s: string, i: nat): (k: nat)
    requires i <= |s|
    ensures i <= k <= |s| && SpacesBetween(s, i, k)
    ensures k < |s| ==> !IsSpace(s[k])
    decreases |s| - i
  {
    if i < |s| && IsSpace(s[i]) then SkipSpaces(s, i + 1) else i
  }

  /** The end left once the whitespace before `e`, down to `k`, is cut. */
  function TrimEnd(s: string, k: nat, e: nat): (f: nat)
    requires k <= e <= |s|
    ensures k <= f <= e && SpacesBetween(s, f, e)
    ensures f > k ==> !IsSpace(s[f - 1])
    decreases e
  {
    if e > k && IsSpace(s[e - 1]) then TrimEnd(s, k, e - 1) else e
  }

  predicate OccursAt(s: string, sub: string, i: int) {
    0 <= i && i + |sub| <= |s| && s[i..i + |sub|] == sub
  }

  /** Python's `sub in s`. */
  predicate Contains(s: string, sub: string) {
    exists i | 0 <= i <= |s| - |sub| :: OccursAt(s, sub, i)
  }

  /** Python's `s.startswith(p)`. */
  predicate StartsWith(s: string, p: string) {
    |p| <= |s| && s[..|p|] == p
  }

  /** Python's `s.strip()`: the text left once leading and trailing
      whitespace is removed. */
  function Strip(s: string): (r: string)
    ensures r == "" <==> AllSpace(s)
    ensures r != "" ==> !IsSpace(r[0]) && !IsSpace(r[|r| - 1])
    ensures exists i | 0 <= i <= |s| - |r| ::
      OccursAt(s, r, i) && AllSpace(s[..i]) && AllSpace(s[i + |r|..])
  {
    var k := SkipSpaces(s, 0);
    var e := TrimEnd(s, k, |s|);
    StripCut(s, k, e);
    StripEmpty(s, k, e);
    s[k..e]
  }

  /** What `Strip` keeps sits between whitespace, and starts and ends with
      a non-space character. */
  lemma StripCut(s: string, k: nat, e: nat)
    requires k <= e <= |s| && SpacesBetween(s, 0, k) && SpacesBetween(s, e, |s|)
    requires e > k ==> !IsSpace(s[k]) && !IsSpace(s[e - 1])
    ensures OccursAt(s, s[k..e], k) && AllSpace(s[..k]) && AllSpace(s[e..])
    ensures s[k..e] != "" ==> !IsSpace(s[k..e][0]) && !IsSpace(s[k..e][e - k - 1])
  {
    forall i | 0 <= i < k ensures IsSpace(s[..k][i]) {
      assert s[..k][i] == s[i];
    }
    forall i | 0 <= i < |s| - e ensures IsSpace(s[e..][i]) {
      assert s[e..][i] == s[e + i];
    }
  }

  /** `Strip` leaves nothing exactly when the text is all whitespace. */
  lemma StripEmpty(s: string, k: nat, e: nat)
    requires k <= e <= |s| && SpacesBetween(s, 0, k) && SpacesBetween(s, e, |s|)
    requires k < |s| ==> !IsSpace(s[k])
    ensures k == e <==> AllSpace(s)
  {
  }

  function IndexOf(s: string, c: char): (i: nat)
    requires c in s
    ensures i < |s| && s[i] == c && c !in s[..i]
  {
    if s[0] == c then 0
    else
      var i := 1 + IndexOf(s[1..], c);
      assert s[..i] == [s[0]] + s[1..][..i - 1];
      i
  }

  /** Python's `s.split(sep)` for a one-character separator: every
      occurrence separates two pieces, so there is always one piece more
      than there are separators, and pieces may be empty. */
  function Split(s: string, sep: char): (parts: seq<string>)
    ensures |parts| >= 1
    ensures forall p | p in parts :: sep !in p
    decreases |s|
  {
    if sep !in s then [s]
    else
      var i := IndexOf(s, sep);
      [s[..i]] + Split(s[i + 1..], sep)
  }

  /** Python's `sep.join(parts)`. */
  function Join(parts: seq<string>, sep: string): string {
    if |parts| == 0 then ""
    else if |parts| == 1 then parts[0]
    else parts[0] + sep + Join(parts[1..], sep)
  }

  /** Python's `s.replace(pat, rep)`: occurrences are found left to right
      and do not overlap. */
  function ReplaceAll(s: string, pat: string, rep: string): string
    requires |pat| > 0
    decreases |s|
  {
    if |s| < |pat| then s
    else if s[..|pat|] == pat then rep + ReplaceAll(s[|pat|..], pat, rep)
    else [s[0]] + ReplaceAll(s[1..], pat, rep)
  }

  /** ASCII lower-casing: the case folding SQLite applies in `LIKE`. */
  function Lower(s: string): (r: string)
    ensures |r| == |s|
    ensures forall i | 0 <= i < |s| :: r[i] == if 'A' <= s[i] <= 'Z' then (s[i] as int + 32) as char else s[i]
  {
    seq(|s|, i requires 0 <= i < |s| => if 'A' <= s[i] <= 'Z' then (s[i] as int + 32) as char else s[i])
  }

  /** `LIKE '%q%'`: `q` occurs in `s` up to ASCII case. */
  predicate ContainsIgnoreCase(s: string, q: string) {
    Contains(Lower(s), Lower(q))
  }

  function Digit(d: nat): char
    requires d < 10
  {
    "0123456789"[d]
  }

  /** Python's `str(n)` for a natural number. */
  function NatToString(n: nat): (r: string)
    ensures |r| >= 1 && forall i | 0 <= i < |r| :: '0' <= r[i] <= '9'
  {
    if n < 10 then [Digit(n)] else NatToString(n / 10) + [Digit(n % 10)]
  }

  // ---------------------------------------------------------------------
  // Split and Join are inverse to each other.

  lemma {:induction false} JoinSplit(s: string, c: char)
    ensures Join(Split(s, c), [c]) == s
    decreases |s|
  {
    if c in s {
      var i := IndexOf(s, c);
      var rest := s[i + 1..];
      JoinSplit(rest, c);
      assert Split(s, c) == [s[..i]] + Split(rest, c);
      assert s == s[..i] + [c] + rest;
    }
  }

  lemma {:induction false} SplitJoin(parts: seq<string>, c: char)
    requires |parts| >= 1
    requires forall p | p in parts :: c !in p
    ensures Split(Join(parts, [c]), c) == parts
  {
    if |parts| > 1 {
      var p, rest := parts[0], parts[1..];
      var j := Join(rest, [c]);
      var s := Join(parts, [c]);
      assert s == p + [c] + j;
      assert parts[0] in parts;
      forall k | 0 <= k < |p| ensures s[k] != c {
        assert s[k] == p[k];
      }
      IndexOfIs(s, c, |p|);
      assert s[..|p|] == p;
      assert s[|p| + 1..] == j;
      forall q | q in rest ensures c !in q {
        assert q in parts;
      }
      SplitJoin(rest, c);
    }
  }

  /** The first occurrence of `c` is at `n` when `s[n]` is `c` and no
      character before it is. */
  lemma IndexOfIs(s: string, c: char, n: nat)
    requires n < |s| && s[n] == c
    requires forall j | 0 <= j < n :: s[j] != c
    ensures c in s && IndexOf(s, c) == n
  {
    assert s[n] in s;
    var i := IndexOf(s, c);
    forall j | 0 <= j < i ensures s[j] != c {
      assert s[..i][j] == s[j];
    }
  }

  // ---------------------------------------------------------------------
  // Removing every "```" leaves no "```" behind, although removing other
  // patterns can create new occurrences ("aabb".replace("ab", "") == "ab").

  const Fence := "```"

  /** Length of the run of backticks at the front of `s`. */
  function BacktickRun(s: string): (n: nat)
    ensures n <= |s|
  {
    if |s| > 0 && s[0] == '`' then 1 + BacktickRun(s[1..]) else 0
  }

  lemma ConsNoFence(a: char, x: string)
    requires !Contains(x, Fence)
    requires a != '`' || BacktickRun(x) < 2
    ensures !Contains([a] + x, Fence)
  {
    var s := [a] + x;
    forall i | 0 <= i <= |s| - 3
      ensures !OccursAt(s, Fence, i)
    {
      if i == 0 {
        assert BacktickRun(x) == (if x[0] == '`' then 1 + BacktickRun(x[1..]) else 0);
        assert BacktickRun(x[1..]) == (if x[1] == '`' then 1 + BacktickRun(x[2..]) else 0);
        assert s[0] == a && s[1] == x[0] && s[2] == x[1];
      } else {
        assert s[i..i + 3] == x[i - 1..i + 2];
        assert !OccursAt(x, Fence, i - 1);
      }
    }
  }

  lemma {:induction false} FenceRemoval(s: string)
    ensures !Contains(ReplaceAll(s, Fence, ""), Fence)
    ensures BacktickRun(ReplaceAll(s, Fence, "")) == BacktickRun(s) % 3
    decreases |s|
  {
    if |s| < 3 {
      assert ReplaceAll(s, Fence, "") == s;
    } else if s[..3] == Fence {
      FenceRemoval(s[3..]);
      FenceRemovalAtFence(s);
    } else {
      FenceRemoval(s[1..]);
      FenceRemovalPastChar(s);
    }
  }

  /** The step of `FenceRemoval` where the text starts with a fence: the
      fence goes, and with it three backticks of the leading run. */
  lemma {:induction false} FenceRemovalAtFence(s: string)
    requires |s| >= 3 && s[..3] == Fence
    requires !Contains(ReplaceAll(s[3..], Fence, ""), Fence)
    requires BacktickRun(ReplaceAll(s[3..], Fence, "")) == BacktickRun(s[3..]) % 3
    ensures !Contains(ReplaceAll(s, Fence, ""), Fence)
    ensures BacktickRun(ReplaceAll(s, Fence, "")) == BacktickRun(s) % 3
  {
    var t := s[3..];
    assert ReplaceAll(s, Fence, "") == "" + ReplaceAll(t, Fence, "");
    assert "" + ReplaceAll(t, Fence, "") == ReplaceAll(t, Fence, "");
    var u1 := s[1..];
    var u2 := u1[1..];
    assert s[0] == '`' && u1[0] == '`' && u2[0] == '`';
    assert u2[1..] == t;
    assert BacktickRun(u2) == 1 + BacktickRun(t);
    assert BacktickRun(u1) == 1 + BacktickRun(u2);
    assert BacktickRun(s) == 1 + BacktickRun(u1);
    assert (3 + BacktickRun(t)) % 3 == BacktickRun(t) % 3;
  }

  /** The step of `FenceRemoval` where the text does not start with a
      fence: its first character stays, and cannot complete a fence. */
  lemma {:induction false} FenceRemovalPastChar(s: string)
    requires |s| >= 3 && s[..3] != Fence
    requires !Contains(ReplaceAll(s[1..], Fence, ""), Fence)
    requires BacktickRun(ReplaceAll(s[1..], Fence, "")) == BacktickRun(s[1..]) % 3
    ensures !Contains(ReplaceAll(s, Fence, ""), Fence)
    ensures BacktickRun(ReplaceAll(s, Fence, "")) == BacktickRun(s) % 3
  {
    var t := s[1..];
    var rt := ReplaceAll(t, Fence, "");
    assert ReplaceAll(s, Fence, "") == [s[0]] + rt;
    if s[0] == '`' {
      ShortRun(s);
      assert BacktickRun(s) == 1 + BacktickRun(t);
      ConsNoFence(s[0], rt);
      assert ([s[0]] + rt)[1..] == rt;
    } else {
      ConsNoFence(s[0], rt);
    }
  }

  /** A text that starts with a backtick but not with a fence starts with
      a run of fewer than three backticks. */
  lemma ShortRun(s: string)
    requires |s| >= 3 && s[0] == '`' && s[..3] != Fence
    ensures BacktickRun(s) < 3
  {
    var t := s[1..];
    assert BacktickRun(s) == 1 + BacktickRun(t);
    assert BacktickRun(t) == (if t[0] == '`' then 1 + BacktickRun(t[1..]) else 0);
    assert BacktickRun(t[1..]) == (if t[1] == '`' then 1 + BacktickRun(t[2..]) else 0);
    assert s[..3] == [s[0], t[0], t[1]];
  }

  lemma InfixNoFence(s: string, i: int, j: int)
    requires 0 <= i <= j <= |s|
    requires !Contains(s, Fence)
    ensures !Contains(s[i..j], Fence)
  {
    var t := s[i..j];
    forall k | 0 <= k <= |t| - 3
      ensures !OccursAt(t, Fence, k)
    {
      assert t[k] == s[i + k] && t[k + 1] == s[i + k + 1] && t[k + 2] == s[i + k + 2];
      assert !OccursAt(s, Fence, i + k);
      assert s[i + k..i + k + 3] == [s[i + k], s[i + k + 1], s[i + k + 2]];
      assert t[k..k + 3] == [t[k], t[k + 1], t[k + 2]];
    }
  }

  /** An occurrence inside a text free of fences is free of them too. */
  lemma OccursNoFence(s: string, r: string, i: int)
    requires OccursAt(s, r, i) && !Contains(s, Fence)
    ensures !Contains(r, Fence)
  {
    assert s[i..i + |r|] == r;
    InfixNoFence(s, i, i + |r|);
  }

  // ---------------------------------------------------------------------
  // Strip removes exactly the surrounding whitespace.

  lemma StripIdempotent(s: string)
    ensures Strip(Strip(s)) == Strip(s)
  {
    var r := Strip(s);
    if r != "" {
      assert SkipSpaces(r, 0) == 0;
      assert TrimEnd(r, 0, |r|) == |r|;
    }
  }
}
