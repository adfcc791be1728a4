/** The string operations the resolvers apply: `trim()`, `split(',').shift()`,
    `replace(/:\d+$/, '')` and `toLowerCase()` (on ASCII letters). */
module Text {

  /** ECMAScript WhiteSpace and LineTerminator code points: what
      `String.prototype.trim` removes at either end. */
  predicate IsSpace(c: char) {
    var n := c as int;
    n == 0x09 || n == 0x0A || n == 0x0B || n == 0x0C || n == 0x0D || n == 0x20
    || n == 0xA0 || n == 0x1680 || (0x2000 <= n <= 0x200A) || n == 0x2028 || n == 0x2029
    || n == 0x202F || n == 0x205F || n == 0x3000 || n == 0xFEFF
  }

  predicate AllSpace(s: string) {
    forall k :: 0 <= k < |s| ==> IsSpace(s[k])
  }

  /** No white space at either end. */
  predicate IsTrimmed(s: string) {
    s == [] || (!IsSpace(s[0]) && !IsSpace(s[|s| - 1]))
  }

  /** The suffix of `s` left after its leading white space. */
  function TrimStart(s: string): (r: string)
    ensures |r| <= |s| && r == s[|s| - |r|..]
    ensures AllSpace(s[..|s| - |r|])
    ensures r == [] || !IsSpace(r[0])
  {
    if s != [] && IsSpace(s[0]) then
      var r := TrimStart(s[1..]);
      SpacePrefixGrows(s, r);
      r
    else s
  }

  lemma SpacePrefixGrows(s: string, r: string)
    requires s != [] && IsSpace(s[0])
    requires |r| <= |s| - 1 && r == s[1..][|s| - 1 - |r|..] && AllSpace(s[1..][..|s| - 1 - |r|])
    ensures r == s[|s| - |r|..] && AllSpace(s[..|s| - |r|])
  {
    var n := |s| - |r|;
    assert s[1..][|s| - 1 - |r|..] == s[n..];
    forall k | 0 <= k < n ensures IsSpace(s[..n][k]) {
      if k > 0 {
        assert s[..n][k] == s[1..][..|s| - 1 - |r|][k - 1];
      }
    }
  }

  /** The prefix of `s` left after its trailing white space. */
  function TrimEnd(s: string): (r: string)
    ensures |r| <= |s| && r == s[..|r|]
    ensures AllSpace(s[|r|..])
    ensures r == [] || !IsSpace(r[|r| - 1])
  {
    if s != [] && IsSpace(s[|s| - 1]) then
      var r := TrimEnd(s[..|s| - 1]);
      SpaceSuffixGrows(s, r);
      r
    else s
  }

  lemma SpaceSuffixGrows(s: string, r: string)
    requires s != [] && IsSpace(s[|s| - 1])
    requires |r| <= |s| - 1 && r == s[..|s| - 1][..|r|] && AllSpace(s[..|s| - 1][|r|..])
    ensures r == s[..|r|] && AllSpace(s[|r|..])
  {
    assert s[..|s| - 1][..|r|] == s[..|r|];
    forall k | 0 <= k < |s| - |r| ensures IsSpace(s[|r|..][k]) {
      if |r| + k < |s| - 1 {
        assert s[|r|..][k] == s[..|s| - 1][|r|..][k];
      }
    }
  }

  /** `r` sits in `s` at `i` with nothing but white space around it. */
  predicate Padded(s: string, i: int, r: string) {
    0 <= i <= |s| - |r| && r == s[i..i + |r|] && AllSpace(s[..i]) && AllSpace(s[i + |r|..])
  }

  /** `s.trim()`: a slice of `s` with nothing but white space around it and
      none at its own ends. */
  function Trim(s: string): (r: string)
    ensures IsTrimmed(r)
    ensures exists i :: Padded(s, i, r)
  {
    var t := TrimStart(s);
    var r := TrimEnd(t);
    SpaceAround(s, t, r);
    r
  }

  /** A prefix `r` of a suffix `t` of `s`, each cut at white space, is a
      trimmed slice of `s` with white space on either side. */
  lemma SpaceAround(s: string, t: string, r: string)
    requires |t| <= |s| && t == s[|s| - |t|..] && AllSpace(s[..|s| - |t|])
    requires t == [] || !IsSpace(t[0])
    requires |r| <= |t| && r == t[..|r|] && AllSpace(t[|r|..])
    requires r == [] || !IsSpace(r[|r| - 1])
    ensures IsTrimmed(r)
    ensures exists i :: Padded(s, i, r)
  {
    var i := |s| - |t|;
    if r != [] {
      assert r[0] == t[0];
    }
    assert s[i + |r|..] == t[|r|..];
    assert r == s[i..i + |r|];
    assert Padded(s, i, r);
  }

  /** Trimming adds no character. */
  lemma TrimAddsNothing(s: string, c: char)
    requires c !in s
    ensures c !in Trim(s)
  {
    var t := TrimStart(s);
    var r := TrimEnd(t);
    forall k | 0 <= k < |r| ensures r[k] != c {
      assert r[k] == t[k] == s[|s| - |t| + k];
    }
  }

  lemma {:induction false} TrimStartPadded(w: string, t: string)
    requires AllSpace(w) && (t == [] || !IsSpace(t[0]))
    ensures TrimStart(w + t) == t
  {
    if w != [] {
      assert (w + t)[1..] == w[1..] + t;
      TrimStartPadded(w[1..], t);
    } else {
      assert w + t == t;
    }
  }

  lemma {:induction false} TrimEndPadded(t: string, w: string)
    requires AllSpace(w) && (t == [] || !IsSpace(t[|t| - 1]))
    ensures TrimEnd(t + w) == t
  {
    if w != [] {
      assert (t + w)[..|t + w| - 1] == t + w[..|w| - 1];
      TrimEndPadded(t, w[..|w| - 1]);
    } else {
      assert t + w == t;
    }
  }

  /** Trimming removes exactly the white space around a trimmed core. */
  lemma {:induction false} TrimPadded(w1: string, p: string, w2: string)
    requires AllSpace(w1) && AllSpace(w2) && IsTrimmed(p)
    ensures Trim(w1 + p + w2) == p
  {
    if p == [] {
      assert w1 + p + w2 == w1 + w2;
      assert AllSpace(w1 + w2);
      assert w1 + w2 + [] == w1 + w2;
      TrimStartPadded(w1 + w2, []);
    } else {
      assert w1 + p + w2 == w1 + (p + w2);
      TrimStartPadded(w1, p + w2);
      TrimEndPadded(p, w2);
    }
  }

  /** `s.split(',').shift()`: the longest prefix of `s` without a comma. */
  function FirstValue(s: string): (r: string)
    ensures r <= s && ',' !in r
    ensures |r| == |s| || s[|r|] == ','
  {
    if s == [] || s[0] == ',' then [] else [s[0]] + FirstValue(s[1..])
  }

  /** The first comma-separated value of `p + rest` is `p` when `rest` is
      empty or starts the next value. */
  lemma {:induction false} FirstValueOf(p: string, rest: string)
    requires ',' !in p && (rest == [] || rest[0] == ',')
    ensures FirstValue(p + rest) == p
  {
    var s := p + rest;
    var r := FirstValue(s);
    assert r == s[..|r|] && p == s[..|p|];
  }

  predicate IsDigit(c: char) {
    '0' <= c <= '9'
  }

  predicate AllDigits(s: string) {
    forall k :: 0 <= k < |s| ==> IsDigit(s[k])
  }

  /** Where the longest run of digits at the end of `s` starts. */
  function DigitSuffixStart(s: string): (k: nat)
    ensures k <= |s| && AllDigits(s[k..])
    ensures k == 0 || !IsDigit(s[k - 1])
  {
    if s == [] || !IsDigit(s[|s| - 1]) then |s|
    else
      var k := DigitSuffixStart(s[..|s| - 1]);
      assert s[k..] == s[..|s| - 1][k..] + [s[|s| - 1]];
      k
  }

  /** `s` ends in `:` followed by one or more digits. */
  ghost predicate HasPortSuffix(s: string) {
    exists i :: 0 <= i < |s| - 1 && s[i] == ':' && AllDigits(s[i + 1..])
  }

  /** `s.replace(/:\d+$/, '')`: drops a final `:<digits>`, and nothing else. */
  function StripPort(s: string): (r: string)
    ensures r <= s
    ensures r == s <==> !HasPortSuffix(s)
    ensures r != s ==> |r| + 1 < |s| && s[|r|] == ':' && AllDigits(s[|r| + 1..])
  {
    var k := DigitSuffixStart(s);
    if 0 < k < |s| && s[k - 1] == ':' then
      s[..k - 1]
    else
      assert !HasPortSuffix(s) by {
        forall j | k <= j < |s| ensures IsDigit(s[j]) {
          assert s[j] == s[k..][j - k];
        }
        forall i | 0 <= i < |s| - 1 && s[i] == ':' ensures !AllDigits(s[i + 1..]) {
          assert k > i + 1 ==> s[k - 1] == s[i + 1..][k - 1 - (i + 1)];
        }
      }
      s
  }

  /** A port suffix is removed whatever the host part before it is. */
  lemma {:induction false} StripPortOf(name: string, port: string)
    requires port != [] && AllDigits(port)
    ensures StripPort(name + ":" + port) == name
  {
    var s := name + ":" + port;
    assert s[|name|] == ':' && s[|name| + 1..] == port;
    assert HasPortSuffix(s);
    var r := StripPort(s);
    assert r == s[..|r|] && name == s[..|name|];
  }

  function LowerChar(c: char): char {
    if 'A' <= c <= 'Z' then (c as int + 32) as char else c
  }

  /** `s.toLowerCase()` on ASCII letters; every other character is kept. */
  function ToLower(s: string): (r: string)
    ensures |r| == |s|
    ensures forall k :: 0 <= k < |s| ==> r[k] == LowerChar(s[k])
    ensures forall k :: 0 <= k < |r| ==> !('A' <= r[k] <= 'Z')
  {
    if s == [] then [] else [LowerChar(s[0])] + ToLower(s[1..])
  }

  /** Lower-casing leaves a string without capitals as it is. */
  lemma ToLowerKeeps(s: string)
    requires forall k :: 0 <= k < |s| ==> !('A' <= s[k] <= 'Z')
    ensures ToLower(s) == s
  {
  }
}
