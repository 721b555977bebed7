/** Go strings: one `char` stands for one byte of the Go string. */
module Text {
  import opened Base

  // ---- strings.TrimSpace -------------------------------------------------

  predicate AsciiSpace(c: char) {
    c == ' ' || c == '\t' || c == '\n' || c == '\U{0B}' || c == '\U{0C}' || c == '\r'
  }

  /** The two-byte UTF-8 encodings of U+0085 and U+00A0. */
  predicate Space2(a: char, b: char) {
    a == '\U{C2}' && (b == '\U{85}' || b == '\U{A0}')
  }

  /** The three-byte UTF-8 encodings of the remaining White_Space code points. */
  predicate Space3(a: char, b: char, c: char) {
    || (a == '\U{E1}' && b == '\U{9A}' && c == '\U{80}')
    || (a == '\U{E2}' && b == '\U{80}'
        && ('\U{80}' <= c <= '\U{8A}' || c == '\U{A8}' || c == '\U{A9}' || c == '\U{AF}'))
    || (a == '\U{E2}' && b == '\U{81}' && c == '\U{9F}')
    || (a == '\U{E3}' && b == '\U{80}' && c == '\U{80}')
  }

  /** Bytes of white space at the front of `s`, 0 when there is none. */
  function SpaceAt(s: string): (n: nat)
    ensures n <= |s|
  {
    if |s| >= 1 && AsciiSpace(s[0]) then 1
    else if |s| >= 2 && Space2(s[0], s[1]) then 2
    else if |s| >= 3 && Space3(s[0], s[1], s[2]) then 3
    else 0
  }

  /** Bytes of white space at the back of `s`, 0 when there is none. */
  function SpaceBefore(s: string): (n: nat)
    ensures n <= |s|
  {
    var e := |s|;
    if e >= 1 && AsciiSpace(s[e - 1]) then 1
    else if e >= 2 && Space2(s[e - 2], s[e - 1]) then 2
    else if e >= 3 && Space3(s[e - 3], s[e - 2], s[e - 1]) then 3
    else 0
  }

  function TrimLeft(s: string): (t: string)
    ensures SpaceAt(t) == 0
    decreases |s|
  {
    if SpaceAt(s) == 0 then s else TrimLeft(s[SpaceAt(s)..])
  }

  function TrimRight(s: string): (t: string)
    ensures SpaceBefore(t) == 0 && t <= s
    decreases |s|
  {
    if SpaceBefore(s) == 0 then s else TrimRight(s[..|s| - SpaceBefore(s)])
  }

  function Trim(s: string): (t: string)
    ensures SpaceAt(t) == 0 && SpaceBefore(t) == 0
  {
    TrimRight(TrimLeft(s))
  }

  /** A string with no white space at either end is left alone. */
  lemma TrimFixed(s: string)
    requires SpaceAt(s) == 0 && SpaceBefore(s) == 0
    ensures Trim(s) == s
  {
  }

  lemma TrimTwice(s: string)
    ensures Trim(Trim(s)) == Trim(s)
  {
    TrimFixed(Trim(s));
  }

  /** A byte that starts, continues or ends no white space survives trimming at the front. */
  predicate Solid(c: char) {
    '!' <= c <= '~'
  }

  lemma SolidHeadSurvives(s: string)
    requires s != "" && Solid(s[0])
    ensures Trim(s) != "" && Trim(s)[0] == s[0]
  {
    TrimRightKeepsHead(s);
  }

  lemma {:induction false} TrimRightKeepsHead(s: string)
    requires s != "" && Solid(s[0])
    ensures TrimRight(s) != "" && TrimRight(s)[0] == s[0]
    decreases |s|
  {
    if SpaceBefore(s) != 0 {
      TrimRightKeepsHead(s[..|s| - SpaceBefore(s)]);
    }
  }

  lemma SolidEndsTrim(s: string)
    requires s != "" && Solid(s[0]) && Solid(s[|s| - 1])
    ensures Trim(s) == s
  {
    TrimFixed(s);
  }

  // ---- strings.ToLower on ASCII letters -----------------------------------

  function LowerChar(c: char): char {
    if 'A' <= c <= 'Z' then (c as int + 32) as char else c
  }

  function Lower(s: string): (t: string)
    ensures |t| == |s|
    ensures forall i | 0 <= i < |s| :: t[i] == LowerChar(s[i])
  {
    seq(|s|, i requires 0 <= i < |s| => LowerChar(s[i]))
  }

  /** `NormalizeSignerAddress`: trim, then lower-case. */
  function Normalize(s: string): string {
    Lower(Trim(s))
  }

  lemma NormalizeTwice(s: string)
    ensures Normalize(Normalize(s)) == Normalize(s)
    ensures Trim(Normalize(s)) == Normalize(s)
  {
    var t := Trim(s);
    assert SpaceAt(Lower(t)) == SpaceAt(t) && SpaceBefore(Lower(t)) == SpaceBefore(t);
    TrimFixed(Lower(t));
    assert Lower(Lower(t)) == Lower(t);
  }

  // ---- decimal rendering and parsing --------------------------------------

  function Digit(n: nat): (c: char)
    requires n < 10
    ensures IsDigit(c) && DigitValue(c) == n
  {
    ('0' as int + n) as char
  }

  predicate IsDigit(c: char) {
    '0' <= c <= '9'
  }

  function DigitValue(c: char): (n: nat)
    requires IsDigit(c)
    ensures n < 10
  {
    c as int - '0' as int
  }

  predicate Digits(s: string) {
    forall i | 0 <= i < |s| :: IsDigit(s[i])
  }

  /** `%d` of a natural number. */
  function Dec(n: nat): (s: string)
    ensures s != "" && Digits(s)
    decreases n
  {
    if n < 10 then [Digit(n)] else Dec(n / 10) + [Digit(n % 10)]
  }

  function DigitsValue(s: string): nat
    requires Digits(s)
  {
    if s == "" then 0 else 10 * DigitsValue(s[..|s| - 1]) + DigitValue(s[|s| - 1])
  }

  lemma {:induction false} DecValue(n: nat)
    ensures DigitsValue(Dec(n)) == n
    decreases n
  {
    if n >= 10 {
      DecValue(n / 10);
      var s := Dec(n);
      assert s[..|s| - 1] == Dec(n / 10);
    } else {
      var s := Dec(n);
      assert s[..|s| - 1] == "" && DigitsValue(s[..|s| - 1]) == 0;
    }
  }

  /** `(*big.Int).String()`. */
  function Render(n: int): (s: string)
    ensures s != ""
  {
    if n < 0 then "-" + Dec(-n) else Dec(n)
  }

  /** `(*big.Int).SetString(s, 10)`: an optional sign, then at least one digit. */
  function ParseInt(s: string): Option<int> {
    if s != "" && (s[0] == '-' || s[0] == '+') then
      if s[1..] == "" || !Digits(s[1..]) then None
      else
        var v: int := DigitsValue(s[1..]);
        Some(if s[0] == '-' then -v else v)
    else if s == "" || !Digits(s) then None
    else Some(DigitsValue(s))
  }

  lemma ParseRender(n: int)
    ensures ParseInt(Render(n)) == Some(n)
    ensures Trim(Render(n)) == Render(n)
  {
    hide Trim, DigitsValue, Dec;
    var m: nat := if n < 0 then -n else n;
    DecValue(m);
    var d := Dec(m);
    var s := Render(n);
    assert IsDigit(d[0]) && IsDigit(d[|d| - 1]);
    assert s[|s| - 1] == d[|d| - 1];
    assert n < 0 ==> s[1..] == d;
    SolidEndsTrim(s);
  }

  lemma RenderInjective(a: int, b: int)
    requires Render(a) == Render(b)
    ensures a == b
  {
    ParseRender(a);
    ParseRender(b);
  }

  /** `strconv.ParseUint(s, 10, 64)`: digits only, below 2^64. */
  function ParseUint(s: string): Option<U64> {
    if s == "" || !Digits(s) || DigitsValue(s) >= TWO_64 then None
    else Some(DigitsValue(s))
  }

  // ---- strings.Split and strings.Cut on a one-byte separator --------------

  /** Index of the first `c` in `s`, or `|s|`. */
  function Find(s: string, c: char): (i: nat)
    ensures i <= |s|
    ensures i < |s| ==> s[i] == c
    ensures forall j | 0 <= j < i :: s[j] != c
  {
    if s == "" then 0
    else if s[0] == c then 0
    else
      var r := Find(s[1..], c);
      assert forall j | 1 <= j < 1 + r :: s[j] == s[1..][j - 1];
      1 + r
  }

  function Split(s: string, c: char): (parts: seq<string>)
    ensures parts != []
    ensures parts[0] == s[..Find(s, c)]
    ensures |parts| == 1 <==> Find(s, c) == |s|
    decreases |s|
  {
    var i := Find(s, c);
    if i == |s| then [s] else [s[..i]] + Split(s[i + 1..], c)
  }

  lemma FindAt(a: string, c: char, b: string)
    requires c !in a
    ensures Find(a + [c] + b, c) == |a| && Split(a + [c] + b, c) == [a] + Split(b, c)
    ensures Find(a, c) == |a| && Split(a, c) == [a]
  {
    var s := a + [c] + b;
    assert s[|a|] == c && s[..|a|] == a && s[|a| + 1..] == b;
    assert forall i | 0 <= i < |a| :: s[i] == a[i] && a[i] in a;
  }

  function Last<T>(xs: seq<T>): T
    requires xs != []
  {
    xs[|xs| - 1]
  }

  /** Whatever the front holds, the last part is what follows the last separator. */
  lemma {:induction false} SplitLast(front: string, c: char, tail: string)
    requires c !in tail
    ensures Last(Split(front + [c] + tail, c)) == tail
    decreases |front|
  {
    var s := front + [c] + tail;
    var i := Find(s, c);
    assert s[|front|] == c;
    assert i <= |front|;
    if i == |front| {
      assert s[i + 1..] == tail;
    } else {
      assert s[i + 1..] == front[i + 1..] + [c] + tail;
      SplitLast(front[i + 1..], c, tail);
    }
  }
}
