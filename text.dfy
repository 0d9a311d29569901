/**
 * The pieces of Python's string handling that the extractor relies on: `str.strip()`,
 * the `\s` class of the `re` module, plain and case-insensitive substring search,
 * `str.rfind` of one character, and slicing with `[:n]`.
 */
module Text {
  import opened Wrappers

  /**
   * Python's whitespace (`str.isspace()`), which is also what `\s` matches in a `str`
   * pattern: U+0009..U+000D, U+001C..U+0020, U+0085, U+00A0, U+1680, U+2000..U+200A,
   * U+2028, U+2029, U+202F, U+205F and U+3000.
   */
  predicate IsSpace(c: char) {
    if c <= ' ' then '\t' <= c <= '\r' || '\U{1c}' <= c
    else if c < '\U{85}' then false
    else if c <= '\U{a0}' then c == '\U{85}' || c == '\U{a0}'
    else if c < '\U{1680}' then false
    else if c < '\U{2000}' then c == '\U{1680}'
    else if c <= '\U{200a}' then true
    else if c < '\U{2028}' then false
    else if c <= '\U{205f}' then c == '\U{2028}' || c == '\U{2029}' || c == '\U{202f}' || c == '\U{205f}'
    else c == '\U{3000}'
  }

  predicate AllSpace(s: string) {
    forall i :: 0 <= i < |s| ==> IsSpace(s[i])
  }

  /** `s.lstrip()`: `s` without its leading whitespace. */
  function LStrip(s: string): string {
    if s != [] && IsSpace(s[0]) then LStrip(s[1..]) else s
  }

  /** `s.rstrip()`: `s` without its trailing whitespace. */
  function RStrip(s: string): string {
    if s != [] && IsSpace(s[|s| - 1]) then RStrip(s[..|s| - 1]) else s
  }

  /** `lstrip` keeps a suffix, drops only whitespace, and leaves no whitespace at the front. */
  lemma {:induction false} LStripSuffix(s: string)
    ensures |LStrip(s)| <= |s| && LStrip(s) == s[|s| - |LStrip(s)|..]
    ensures AllSpace(s[..|s| - |LStrip(s)|])
    ensures LStrip(s) != [] ==> !IsSpace(LStrip(s)[0])
  {
    if s != [] && IsSpace(s[0]) {
      LStripSuffix(s[1..]);
      var r := LStrip(s);
      assert s[..|s| - |r|] == [s[0]] + s[1..][..|s| - 1 - |r|];
    }
  }

  /** `rstrip` keeps a prefix, drops only whitespace, and leaves no whitespace at the back. */
  lemma {:induction false} RStripPrefix(s: string)
    ensures |RStrip(s)| <= |s| && RStrip(s) == s[..|RStrip(s)|]
    ensures AllSpace(s[|RStrip(s)|..])
    ensures RStrip(s) != [] ==> !IsSpace(RStrip(s)[|RStrip(s)| - 1])
  {
    if s != [] && IsSpace(s[|s| - 1]) {
      RStripPrefix(s[..|s| - 1]);
      var r := RStrip(s);
      assert s[|r|..] == s[..|s| - 1][|r|..] + [s[|s| - 1]];
    }
  }

  /** Where `s.strip()` begins inside `s`: the length of its leading whitespace. */
  function StripStart(s: string): (n: nat)
    ensures n <= |s|
  {
    LStripSuffix(s);
    |s| - |LStrip(s)|
  }

  /** `s.strip()`: `lstrip` and then `rstrip`. */
  function Strip(s: string): string {
    RStrip(LStrip(s))
  }

  /**
   * `s.strip()` is the slice of `s` between its leading and its trailing whitespace, and
   * it neither begins nor ends with whitespace.
   */
  lemma StripSlice(s: string)
    ensures StripStart(s) + |Strip(s)| <= |s|
    ensures Strip(s) == s[StripStart(s)..StripStart(s) + |Strip(s)|]
    ensures forall i :: 0 <= i < StripStart(s) ==> IsSpace(s[i])
    ensures forall i :: StripStart(s) + |Strip(s)| <= i < |s| ==> IsSpace(s[i])
    ensures Strip(s) != [] ==> !IsSpace(Strip(s)[0]) && !IsSpace(Strip(s)[|Strip(s)| - 1])
  {
    var l := LStrip(s);
    var r := RStrip(l);
    LStripSuffix(s);
    RStripPrefix(l);
    var k := |s| - |l|;
    assert Strip(s) == r && StripStart(s) == k;
    TwoSlices(s, k, l, r);
    forall i | 0 <= i < k ensures IsSpace(s[i]) {
      assert s[i] == s[..k][i];
    }
    forall i | k + |r| <= i < |s| ensures IsSpace(s[i]) {
      assert s[i] == l[|r|..][i - k - |r|];
    }
  }

  /**
   * Every string is a run of whitespace, its `strip()`, and another run of whitespace,
   * and what `strip()` returns neither begins nor ends with whitespace.
   */
  lemma StripSplit(x: string)
    ensures exists lead, trail :: AllSpace(lead) && AllSpace(trail) && x == lead + Strip(x) + trail
    ensures var g := Strip(x); g != [] ==> !IsSpace(g[0]) && !IsSpace(g[|g| - 1])
  {
    var g := Strip(x);
    StripSlice(x);
    var k := StripStart(x);
    var lead, trail := x[..k], x[k + |g|..];
    assert AllSpace(lead) by {
      forall i | 0 <= i < |lead| ensures IsSpace(lead[i]) {
        assert lead[i] == x[i];
      }
    }
    assert AllSpace(trail) by {
      forall i | 0 <= i < |trail| ensures IsSpace(trail[i]) {
        assert trail[i] == x[k + |g| + i];
      }
    }
    assert x == lead + g + trail;
  }

  /** A prefix of a suffix of `s` is a slice of `s`, followed in `s` by the rest of that suffix. */
  lemma TwoSlices(s: string, k: nat, l: string, r: string)
    requires k <= |s| && l == s[k..] && |r| <= |l| && r == l[..|r|]
    ensures s[k..k + |r|] == r && s[k + |r|..] == l[|r|..]
    ensures r != [] ==> r[0] == l[0]
  {
  }

  lemma {:induction false} LStripSpacePrefix(w: string, y: string)
    requires AllSpace(w)
    ensures LStrip(w + y) == LStrip(y)
  {
    if w != [] {
      assert (w + y)[1..] == w[1..] + y;
      LStripSpacePrefix(w[1..], y);
    } else {
      assert w + y == y;
    }
  }

  lemma {:induction false} LStripAppend(x: string, y: string)
    requires LStrip(x) != []
    ensures LStrip(x + y) == LStrip(x) + y
  {
    if x != [] && IsSpace(x[0]) {
      assert (x + y)[1..] == x[1..] + y;
      LStripAppend(x[1..], y);
    }
  }

  lemma {:induction false} RStripSpaceSuffix(y: string, w: string)
    requires AllSpace(w)
    ensures RStrip(y + w) == RStrip(y)
  {
    if w != [] {
      assert (y + w)[..|y + w| - 1] == y + w[..|w| - 1];
      RStripSpaceSuffix(y, w[..|w| - 1]);
    } else {
      assert y + w == y;
    }
  }

  /** Whitespace around a string never changes what `strip()` returns. */
  lemma StripPadded(w1: string, x: string, w2: string)
    requires AllSpace(w1) && AllSpace(w2)
    ensures Strip(w1 + x + w2) == Strip(x)
  {
    var y := x + w2;
    assert w1 + x + w2 == w1 + y;
    LStripSpacePrefix(w1, y);
    assert LStrip(w1 + x + w2) == LStrip(y);
    RStripLStripSuffix(x, w2);
    assert RStrip(LStrip(y)) == RStrip(LStrip(x));
    assert Strip(w1 + x + w2) == RStrip(LStrip(w1 + x + w2));
  }

  /** Trailing whitespace disappears once both ends are stripped. */
  lemma RStripLStripSuffix(x: string, w: string)
    requires AllSpace(w)
    ensures RStrip(LStrip(x + w)) == RStrip(LStrip(x))
  {
    if LStrip(x) != [] {
      LStripAppend(x, w);
      RStripSpaceSuffix(LStrip(x), w);
    } else {
      LStripSuffix(x);
      assert AllSpace(x + w);
      LStripSpacePrefix(x + w, []);
      assert x + w + [] == x + w;
    }
  }

  /** `strip()` is idempotent: a stripped string has nothing left to strip. */
  lemma StripIdempotent(s: string)
    ensures Strip(Strip(s)) == Strip(s)
  {
    StripSlice(s);
    StripUnpadded(Strip(s));
  }

  /** A string that neither begins nor ends with whitespace is left as it is by `strip()`. */
  lemma StripUnpadded(s: string)
    requires s != [] ==> !IsSpace(s[0]) && !IsSpace(s[|s| - 1])
    ensures Strip(s) == s
  {
    assert LStrip(s) == s;
    assert RStrip(s) == s;
  }

  /** `s[:n]` in Python: the first `n` characters, or all of `s` when it is shorter. */
  function Take(s: string, n: nat): (r: string)
    ensures |r| <= n && |r| <= |s| && r == s[..|r|]
    ensures |r| == n || r == s
  {
    if |s| <= n then s else s[..n]
  }

  /**
   * A pattern searched for in a response. `Literal` is matched character for character;
   * `JsonFence` is the opening marker "```json" matched as `re.IGNORECASE` matches it: the
   * backticks exactly, each letter in either case, and the letter s also as U+017F (long s),
   * which Python's regular expressions fold together with s.
   */
  datatype Marker = Literal(text: string) | JsonFence

  function MarkerLength(m: Marker): nat {
    match m
    case Literal(p) => |p|
    case JsonFence => 7
  }

  predicate JsonLabel(w: string)
    requires |w| == 4
  {
    && (w[0] == 'j' || w[0] == 'J')
    && (w[1] == 's' || w[1] == 'S' || w[1] == '\U{17f}')
    && (w[2] == 'o' || w[2] == 'O')
    && (w[3] == 'n' || w[3] == 'N')
  }

  /** Does `m` occur in `t` starting at index `i`? */
  predicate MatchesAt(t: string, m: Marker, i: nat) {
    && i + MarkerLength(m) <= |t|
    && match m
       case Literal(p) => t[i..i + |p|] == p
       case JsonFence => t[i..i + 3] == "```" && JsonLabel(t[i + 3..i + 7])
  }

  /** The first index at or after `from` where `m` occurs in `t` (the start of a `re.search` hit). */
  function IndexOf(t: string, m: Marker, from: nat): (r: Option<nat>)
    decreases |t| - from
    ensures r.Some? ==> from <= r.value && MatchesAt(t, m, r.value)
    ensures forall i :: from <= i && (r.None? || i < r.value) ==> !MatchesAt(t, m, i)
  {
    if from + MarkerLength(m) > |t| then None
    else if MatchesAt(t, m, from) then Some(from)
    else
      assert MarkerLength(m) > 0;
      IndexOf(t, m, from + 1)
  }

  /** `t.rfind(c)`: the last index holding `c`, if any. */
  function LastIndexOf(t: string, c: char): (r: Option<nat>)
    ensures r.Some? ==> r.value < |t| && t[r.value] == c
    ensures forall i :: (if r.Some? then r.value < i else 0 <= i) && i < |t| ==> t[i] != c
  {
    if t == [] then None
    else if t[|t| - 1] == c then Some(|t| - 1)
    else LastIndexOf(t[..|t| - 1], c)
  }
}
