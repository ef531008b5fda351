/** String vocabulary of the JavaScript and Python sources: whitespace classes,
    `trim`/`strip`, `split` on one character, `join`, `includes`/`in`, and the
    decimal rendering of numbers inside template strings. */
module Strings {

  /** Characters matched by JavaScript's `\s` and removed by `String.prototype.trim`. */
  predicate IsJsSpace(c: char) {
    c == '\t' || c == '\n' || c == '\U{B}' || c == '\U{C}' || c == '\r' || c == ' '
    || c == '\U{A0}' || c == '\U{1680}' || ('\U{2000}' <= c <= '\U{200A}')
    || c == '\U{2028}' || c == '\U{2029}' || c == '\U{202F}' || c == '\U{205F}'
    || c == '\U{3000}' || c == '\U{FEFF}'
  }

  /** Characters for which Python's `str.isspace` holds (what `str.strip()` removes). */
  predicate IsPySpace(c: char) {
    c == '\t' || c == '\n' || c == '\U{B}' || c == '\U{C}' || c == '\r'
    || ('\U{1C}' <= c <= '\U{1F}') || c == ' ' || c == '\U{85}' || c == '\U{A0}'
    || c == '\U{1680}' || ('\U{2000}' <= c <= '\U{200A}') || c == '\U{2028}'
    || c == '\U{2029}' || c == '\U{202F}' || c == '\U{205F}' || c == '\U{3000}'
  }

  predicate IsAsciiDigit(c: char) {
    '0' <= c <= '9'
  }

  function TrimLeft(s: string, ws: char -> bool): (r: string)
    ensures |r| <= |s|
    ensures |r| == 0 || !ws(r[0])
  {
    if |s| > 0 && ws(s[0]) then TrimLeft(s[1..], ws) else s
  }

  function TrimRight(s: string, ws: char -> bool): (r: string)
    ensures |r| <= |s|
    ensures |r| == 0 || !ws(r[|r| - 1])
  {
    if |s| > 0 && ws(s[|s| - 1]) then TrimRight(s[..|s| - 1], ws) else s
  }

  /** Trimming on the left keeps a suffix. */
  lemma {:induction false} TrimLeftSuffix(s: string, ws: char -> bool)
    ensures TrimLeft(s, ws) == s[|s| - |TrimLeft(s, ws)|..]
  {
    if |s| > 0 && ws(s[0]) {
      TrimLeftSuffix(s[1..], ws);
    }
  }

  /** Trimming on the right keeps a prefix. */
  lemma {:induction false} TrimRightPrefix(s: string, ws: char -> bool)
    ensures TrimRight(s, ws) == s[..|TrimRight(s, ws)|]
  {
    if |s| > 0 && ws(s[|s| - 1]) {
      TrimRightPrefix(s[..|s| - 1], ws);
    }
  }

  function Trim(s: string, ws: char -> bool): (r: string)
    ensures |r| <= |s|
  {
    TrimRight(TrimLeft(s, ws), ws)
  }

  /** JavaScript `String.prototype.trim`. */
  function TrimJs(s: string): (r: string)
    ensures |r| <= |s|
  {
    Trim(s, IsJsSpace)
  }

  /** Python `str.strip()` with no argument. */
  function TrimPy(s: string): string {
    Trim(s, IsPySpace)
  }

  /** An index clamped to [0, n], as `substring` clamps its arguments. */
  function Clamp(x: int, n: nat): (r: nat)
    ensures r <= n
    ensures 0 <= x <= n ==> r == x
  {
    if x < 0 then 0 else if x > n then n else x
  }

  /** `s.substring(a, b)`: both ends clamped to the string, swapped when out of order. */
  function Substring(s: string, a: int, b: int): (r: string)
    ensures 0 <= a <= b <= |s| ==> r == s[a..b]
    ensures b <= a ==> r == s[Clamp(b, |s|)..Clamp(a, |s|)]
  {
    var x := Clamp(a, |s|);
    var y := Clamp(b, |s|);
    if x <= y then s[x..y] else s[y..x]
  }

  /** `sub` occurs in `s` starting at index `i`. */
  predicate OccursAt(s: string, sub: string, i: int) {
    0 <= i && i + |sub| <= |s| && s[i..i + |sub|] == sub
  }

  lemma {:induction false} TrimLeftDropsSpace(s: string, ws: char -> bool)
    ensures forall i :: 0 <= i < |s| - |TrimLeft(s, ws)| ==> ws(s[i])
    decreases |s|
  {
    if |s| > 0 && ws(s[0]) {
      TrimLeftDropsSpace(s[1..], ws);
      forall i | 1 <= i < |s| - |TrimLeft(s, ws)| ensures ws(s[i]) {
        assert s[i] == s[1..][i - 1];
      }
    }
  }

  lemma {:induction false} TrimRightDropsSpace(s: string, ws: char -> bool)
    ensures forall i :: |TrimRight(s, ws)| <= i < |s| ==> ws(s[i])
    decreases |s|
  {
    if |s| > 0 && ws(s[|s| - 1]) {
      TrimRightDropsSpace(s[..|s| - 1], ws);
    }
  }

  /** Trimming keeps a slice of the input that neither starts nor ends with whitespace. */
  lemma TrimSlice(s: string, ws: char -> bool)
    ensures var r := Trim(s, ws);
      && (exists i :: OccursAt(s, r, i))
      && (|r| == 0 || (!ws(r[0]) && !ws(r[|r| - 1])))
  {
    var l := TrimLeft(s, ws);
    var r := TrimRight(l, ws);
    var k := |s| - |l|;
    TrimLeftSuffix(s, ws);
    TrimRightPrefix(l, ws);
    assert l == s[k..] && r == l[..|r|];
    assert s[k..k + |r|] == r;
    assert OccursAt(s, Trim(s, ws), k);
  }

  /** Trimming yields the empty string exactly when the input is all whitespace. */
  lemma TrimEmpty(s: string, ws: char -> bool)
    ensures |Trim(s, ws)| == 0 <==> forall i :: 0 <= i < |s| ==> ws(s[i])
  {
    var l := TrimLeft(s, ws);
    TrimLeftDropsSpace(s, ws);
    TrimLeftSuffix(s, ws);
    if |l| > 0 {
      TrimRightDropsSpace(l, ws);
      assert l[0] == s[|s| - |l|];
    }
  }

  /** JavaScript/Python `s.split(c)` for a one-character separator: never empty,
      and no piece contains the separator. */
  function Split(s: string, c: char): (r: seq<string>)
    ensures |r| >= 1
    ensures forall i :: 0 <= i < |r| ==> c !in r[i]
  {
    if |s| == 0 then [""]
    else
      var rest := Split(s[1..], c);
      if s[0] == c then [""] + rest
      else [[s[0]] + rest[0]] + rest[1..]
  }

  /** `Array.prototype.join(sep)` / Python `sep.join(xs)`. */
  function Join(xs: seq<string>, sep: string): string {
    if |xs| == 0 then ""
    else if |xs| == 1 then xs[0]
    else xs[0] + sep + Join(xs[1..], sep)
  }

  /** Splitting on a character and joining the pieces with it restores the text. */
  lemma {:induction false} JoinSplit(s: string, c: char)
    ensures Join(Split(s, c), [c]) == s
  {
    if |s| > 0 {
      var rest := Split(s[1..], c);
      JoinSplit(s[1..], c);
      if s[0] == c {
        assert s == [c] + s[1..];
      } else {
        if |rest| == 1 {
          assert Join(Split(s, c), [c]) == [s[0]] + rest[0];
        } else {
          assert Join(Split(s, c), [c]) == [s[0]] + rest[0] + [c] + Join(rest[1..], [c]);
        }
        assert s == [s[0]] + s[1..];
      }
    }
  }

  /** Joining pieces that do not contain the separator and splitting again gives the pieces back. */
  lemma {:induction false} SplitJoin(xs: seq<string>, c: char)
    requires |xs| >= 1
    requires forall i :: 0 <= i < |xs| ==> c !in xs[i]
    ensures Split(Join(xs, [c]), c) == xs
  {
    if |xs| == 1 {
      SplitNoSep(xs[0], c);
    } else {
      SplitJoin(xs[1..], c);
      SplitPrefix(xs[0], c, Join(xs[1..], [c]));
      assert Join(xs, [c]) == xs[0] + ([c] + Join(xs[1..], [c]));
      assert xs == [xs[0]] + xs[1..];
    }
  }

  lemma {:induction false} SplitNoSep(s: string, c: char)
    requires c !in s
    ensures Split(s, c) == [s]
  {
    if |s| > 0 {
      SplitNoSep(s[1..], c);
      assert s == [s[0]] + s[1..];
    }
  }

  lemma {:induction false} SplitPrefix(a: string, c: char, t: string)
    requires c !in a
    ensures Split(a + ([c] + t), c) == [a] + Split(t, c)
  {
    if |a| == 0 {
      assert a + ([c] + t) == [c] + t;
      assert ([c] + t)[1..] == t;
    } else {
      assert (a + ([c] + t))[1..] == a[1..] + ([c] + t);
      SplitPrefix(a[1..], c, t);
      assert a == [a[0]] + a[1..];
    }
  }

  predicate StartsWith(s: string, prefix: string) {
    |prefix| <= |s| && s[..|prefix|] == prefix
  }

  predicate EndsWith(s: string, suffix: string) {
    |suffix| <= |s| && s[|s| - |suffix|..] == suffix
  }

  /** `s.includes(sub)` / Python `sub in s`. */
  predicate Contains(s: string, sub: string)
    decreases |s|
  {
    StartsWith(s, sub) || (|s| > 0 && Contains(s[1..], sub))
  }

  lemma {:induction false} ContainsAt(s: string, sub: string, i: nat)
    requires OccursAt(s, sub, i)
    ensures Contains(s, sub)
    decreases i
  {
    if i > 0 {
      assert s[1..][i - 1..i - 1 + |sub|] == s[i..i + |sub|];
      ContainsAt(s[1..], sub, i - 1);
    }
  }

  lemma {:induction false} ContainsWitness(s: string, sub: string)
    requires Contains(s, sub)
    ensures exists i :: OccursAt(s, sub, i)
    decreases |s|
  {
    if StartsWith(s, sub) {
      assert OccursAt(s, sub, 0);
    } else {
      ContainsWitness(s[1..], sub);
      var i :| OccursAt(s[1..], sub, i);
      assert s[i + 1..i + 1 + |sub|] == s[1..][i..i + |sub|];
      assert OccursAt(s, sub, i + 1);
    }
  }

  function DigitChar(d: nat): char
    requires d < 10
  {
    "0123456789"[d]
  }

  /** The decimal rendering of a natural number, as a template string `${n}` writes it. */
  function NatToString(n: nat): (r: string)
    ensures |r| >= 1
    ensures forall i :: 0 <= i < |r| ==> IsAsciiDigit(r[i])
  {
    if n < 10 then [DigitChar(n)] else NatToString(n / 10) + [DigitChar(n % 10)]
  }

  function DigitValue(c: char): nat
    requires IsAsciiDigit(c)
  {
    c as int - '0' as int
  }

  /** The number a decimal string denotes (`parseInt` of a digit string). */
  function ParseNat(s: string): nat
    requires forall i :: 0 <= i < |s| ==> IsAsciiDigit(s[i])
  {
    if |s| == 0 then 0 else 10 * ParseNat(s[..|s| - 1]) + DigitValue(s[|s| - 1])
  }

  lemma {:induction false} ParseNatToString(n: nat)
    ensures ParseNat(NatToString(n)) == n
  {
    if n >= 10 {
      ParseNatToString(n / 10);
      var r := NatToString(n);
      assert r[..|r| - 1] == NatToString(n / 10);
    }
  }
}
