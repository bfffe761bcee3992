/** Character classes, maximal runs and decimal rendering of naturals. */
module Text {
  import opened Wrappers

  /** JavaScript truthiness of a string-or-undefined: present and not the empty string. */
  predicate Truthy(o: Option<string>) {
    o.Some? && o.value != ""
  }

  /** The two regular-expression classes the gateway uses: `[a-zA-Z0-9]` and `\d`. */
  datatype CharClass = Alnum | Digit

  predicate IsDigit(c: char) {
    '0' <= c <= '9'
  }

  predicate IsAlnum(c: char) {
    'a' <= c <= 'z' || 'A' <= c <= 'Z' || IsDigit(c)
  }

  predicate InClass(cls: CharClass, c: char) {
    match cls
    case Alnum => IsAlnum(c)
    case Digit => IsDigit(c)
  }

  /** Every character of `s` belongs to `cls`. */
  predicate AllIn(s: string, cls: CharClass) {
    forall k :: 0 <= k < |s| ==> InClass(cls, s[k])
  }

  /** `s[i..e]` is a run of `cls` characters that cannot be extended to the right. */
  predicate MaximalRun(s: string, i: nat, e: nat, cls: CharClass) {
    && i <= e <= |s|
    && (forall k :: i <= k < e ==> InClass(cls, s[k]))
    && (e == |s| || !InClass(cls, s[e]))
  }

  /** End of the longest run of `cls` characters starting at `i`. */
  function RunEnd(s: string, i: nat, cls: CharClass): (e: nat)
    requires i <= |s|
    ensures MaximalRun(s, i, e, cls)
    decreases |s| - i
  {
    if i == |s| || !InClass(cls, s[i]) then i else RunEnd(s, i + 1, cls)
  }

  /** A maximal run from a given start has exactly one end. */
  lemma MaximalRunUnique(s: string, i: nat, e1: nat, e2: nat, cls: CharClass)
    requires MaximalRun(s, i, e1, cls) && MaximalRun(s, i, e2, cls)
    ensures e1 == e2
  {
  }

  function DigitChar(d: nat): (c: char)
    requires d < 10
    ensures IsDigit(c)
  {
    ['0', '1', '2', '3', '4', '5', '6', '7', '8', '9'][d]
  }

  function DigitValue(c: char): (d: nat)
    requires IsDigit(c)
    ensures d < 10
  {
    (c as int - '0' as int) as nat
  }

  lemma DigitRoundTrip(d: nat)
    requires d < 10
    ensures DigitValue(DigitChar(d)) == d
  {
  }

  /** The number a string of decimal digits denotes. */
  function DecimalValue(s: string): nat
    requires AllIn(s, Digit)
    decreases |s|
  {
    if s == [] then 0
    else DecimalValue(s[..|s| - 1]) * 10 + DigitValue(s[|s| - 1])
  }

  /**
   * The decimal text JavaScript produces for a non-negative integer (`String(n)`,
   * or `${n}` in a template literal): digits only, no leading zero, denoting `n`.
   */
  function Decimal(n: nat): (r: string)
    ensures |r| > 0 && AllIn(r, Digit)
    ensures r[0] == '0' ==> r == "0"
    ensures DecimalValue(r) == n
    decreases n
  {
    if n < 10 then
      DigitRoundTrip(n);
      [DigitChar(n)]
    else
      var front := Decimal(n / 10);
      var r := front + [DigitChar(n % 10)];
      assert r[..|r| - 1] == front;
      DigitRoundTrip(n % 10);
      r
  }

  /** One digit at a time: the last digit of `n` ends its decimal text. */
  lemma DecimalStep(n: nat)
    requires n >= 10
    ensures Decimal(n) == Decimal(n / 10) + [DigitChar(n % 10)]
  {
  }

  /** Equal texts with the same surroundings are equal. */
  lemma CancelAround(pre: string, a: string, b: string, post: string)
    requires pre + a + post == pre + b + post
    ensures a == b
  {
    var x := pre + a + post;
    var y := pre + b + post;
    assert a == x[|pre|..|x| - |post|];
    assert b == y[|pre|..|y| - |post|];
  }

  /** Equal texts behind the same prefix are equal. */
  lemma CancelPrefix(pre: string, a: string, b: string)
    requires pre + a == pre + b
    ensures a == b
  {
    assert a == (pre + a)[|pre|..];
    assert b == (pre + b)[|pre|..];
  }

  /** Text in front of the first `sep` is fixed by where that `sep` is. */
  lemma FirstSeparator(a1: string, r1: string, a2: string, r2: string, sep: char)
    requires sep !in a1 && sep !in a2
    requires a1 + [sep] + r1 == a2 + [sep] + r2
    ensures a1 == a2 && r1 == r2
  {
    var s := a1 + [sep] + r1;
    assert s[|a1|] == sep && s[|a2|] == sep;
    assert forall i :: 0 <= i < |a1| ==> a1[i] == s[i];
    assert forall i :: 0 <= i < |a2| ==> a2[i] == s[i];
    assert a1 == s[..|a1|] == a2;
    assert r1 == s[|a1| + 1..] == r2;
  }
}
