/** `toUpperCase`/`toLowerCase` (JavaScript) and `upper()` (Python) on the
    ASCII and Latin-1 letters the Portuguese texts use. Characters above
    U+00FF are left unchanged by this model. */
module CaseMap {

  /** Upper-case form of one character; `ß` expands to two letters as in both languages. */
  function UpperChar(c: char): string {
    if 'a' <= c <= 'z' then [(c as int - 32) as char]
    else if c == '\U{B5}' then "\U{39C}"
    else if c == '\U{DF}' then "SS"
    else if '\U{E0}' <= c <= '\U{FE}' && c != '\U{F7}' then [(c as int - 32) as char]
    else if c == '\U{FF}' then "\U{178}"
    else [c]
  }

  function LowerChar(c: char): char {
    if 'A' <= c <= 'Z' then (c as int + 32) as char
    else if '\U{C0}' <= c <= '\U{DE}' && c != '\U{D7}' then (c as int + 32) as char
    else c
  }

  function ToUpper(s: string): string {
    if |s| == 0 then "" else UpperChar(s[0]) + ToUpper(s[1..])
  }

  function ToLower(s: string): (r: string)
    ensures |r| == |s|
    ensures forall i :: 0 <= i < |s| ==> r[i] == LowerChar(s[i])
  {
    if |s| == 0 then "" else [LowerChar(s[0])] + ToLower(s[1..])
  }

  /** Canonical form used by a case-insensitive (`/i`) regular expression without
      the `u` flag: the one-character upper case, when it exists. */
  function FoldChar(c: char): char {
    var u := UpperChar(c);
    if |u| == 1 then u[0] else c
  }

  lemma ToUpperAppend(a: string, b: string)
    ensures ToUpper(a + b) == ToUpper(a) + ToUpper(b)
  {
    if |a| == 0 {
      assert a + b == b;
    } else {
      assert (a + b)[1..] == a[1..] + b;
      ToUpperAppend(a[1..], b);
    }
  }
}
