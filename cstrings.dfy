/** Character classes and small string helpers shared by the C code being modelled.
    A C string is modelled by its characters before the terminating NUL. */
module CStrings {

  /** The characters of a NUL-terminated C string, without the terminator. */
  type CString = s: string | '\0' !in s

  datatype Option<T> = None | Some(value: T)

  /** `isspace` in the C locale (also the `space_chars` set " \f\n\r\t\v" of impexp.c). */
  predicate IsSpace(c: char) {
    c == ' ' || c == '\t' || c == '\n' || c == '\U{B}' || c == '\U{C}' || c == '\r'
  }

  predicate IsDigit(c: char) {
    '0' <= c <= '9'
  }

  predicate AllDigits(s: string) {
    forall i :: 0 <= i < |s| ==> IsDigit(s[i])
  }

  predicate NoDigits(s: string) {
    forall i :: 0 <= i < |s| ==> !IsDigit(s[i])
  }

  predicate AllSpace(s: string) {
    forall i :: 0 <= i < |s| ==> IsSpace(s[i])
  }

  /** `tolower` in the C locale. */
  function ToLower(c: char): (r: char)
    ensures 'A' <= c <= 'Z' ==> r as int == c as int + 32
    ensures !('A' <= c <= 'Z') ==> r == c
  {
    if 'A' <= c <= 'Z' then (c as int + 32) as char else c
  }

  function Lower(s: string): (r: string)
    ensures |r| == |s|
    ensures forall i :: 0 <= i < |s| ==> r[i] == ToLower(s[i])
  {
    if s == [] then [] else [ToLower(s[0])] + Lower(s[1..])
  }

  /** `strncasecmp(a, b, |a|) == 0` for two strings of the same length. */
  predicate EqualIgnoreCase(a: string, b: string) {
    |a| == |b| && Lower(a) == Lower(b)
  }

  predicate IsPrefix(p: string, s: string) {
    |p| <= |s| && s[..|p|] == p
  }

  /** `t` occurs in `s` at index `i`. */
  predicate OccursAt(s: string, t: string, i: int) {
    0 <= i && i + |t| <= |s| && s[i..i + |t|] == t
  }

  /** `strstr(s, t) != NULL`. */
  predicate Contains(s: string, t: string) {
    exists i :: 0 <= i <= |s| && OccursAt(s, t, i)
  }

  /** Decimal value of a run of digits, most significant first. */
  function DecimalValue(ds: string): (v: nat)
    requires AllDigits(ds)
  {
    if ds == [] then 0 else DecimalValue(ds[..|ds| - 1]) * 10 + (ds[|ds| - 1] as int - '0' as int)
  }

  /** First index at or after `i` that holds `c`, or |s| when there is none: `strchr`
      and the `while (*p && *p != c) ++p` loops of the driver. */
  function CharEnd(s: string, i: nat, c: char): (e: nat)
    requires i <= |s|
    ensures i <= e <= |s|
    ensures e < |s| ==> s[e] == c
    ensures forall j :: i <= j < e ==> s[j] != c
    decreases |s| - i
  {
    if i == |s| || s[i] == c then i else CharEnd(s, i + 1, c)
  }

  /** `CharEnd` is the first `c` from `i`, whichever way it was found. */
  lemma {:induction false} CharEndAt(s: string, i: nat, e: nat, c: char)
    requires i <= e <= |s| && (e == |s| || s[e] == c)
    requires forall j :: i <= j < e ==> s[j] != c
    ensures CharEnd(s, i, c) == e
    decreases e - i
  {
    if i < e {
      CharEndAt(s, i + 1, e, c);
    }
  }

  /** The scanning loop that `CharEnd` specifies. */
  method FindChar(s: string, i: nat, c: char) returns (e: nat)
    requires i <= |s|
    ensures e == CharEnd(s, i, c)
  {
    e := i;
    while e < |s| && s[e] != c
      invariant i <= e <= |s|
      invariant CharEnd(s, e, c) == CharEnd(s, i, c)
    {
      e := e + 1;
    }
  }

  function Count<T(==)>(x: T, s: seq<T>): (n: nat)
    ensures n <= |s|
  {
    if s == [] then 0 else (if s[0] == x then 1 else 0) + Count(x, s[1..])
  }

  lemma {:induction false} CountAppend<T>(x: T, a: seq<T>, b: seq<T>)
    ensures Count(x, a + b) == Count(x, a) + Count(x, b)
  {
    if a == [] {
      assert a + b == b;
    } else {
      assert (a + b)[1..] == a[1..] + b;
      CountAppend(x, a[1..], b);
    }
  }

  function Min(a: int, b: int): int {
    if a < b then a else b
  }

  function Max(a: int, b: int): int {
    if a < b then b else a
  }

  /** First index at or after `i` whose character is not a digit. */
  function DigitEnd(s: string, i: nat): (e: nat)
    requires i <= |s|
    ensures i <= e <= |s|
    ensures AllDigits(s[i..e])
    ensures e < |s| ==> !IsDigit(s[e])
    decreases |s| - i
  {
    if i < |s| && IsDigit(s[i]) then
      var e := DigitEnd(s, i + 1);
      assert s[i..e] == [s[i]] + s[i + 1..e];
      e
    else i
  }

  /** First index at or after `i` whose character is a digit: the loops
      `while (*q && !isdigit(*q)) ++q`. */
  function NonDigitEnd(s: string, i: nat): (e: nat)
    requires i <= |s|
    ensures i <= e <= |s|
    ensures NoDigits(s[i..e])
    ensures e < |s| ==> IsDigit(s[e])
    decreases |s| - i
  {
    if i < |s| && !IsDigit(s[i]) then
      var e := NonDigitEnd(s, i + 1);
      assert s[i..e] == [s[i]] + s[i + 1..e];
      e
    else i
  }

  function SpaceEnd(s: string, i: nat): (e: nat)
    requires i <= |s|
    ensures i <= e <= |s|
    ensures i < |s| && !IsSpace(s[i]) ==> e == i
    decreases |s| - i
  {
    if i < |s| && IsSpace(s[i]) then SpaceEnd(s, i + 1) else i
  }

  /** `strtol(s + p, &q, 10)`: white space, an optional sign, then decimal digits. The
      result is the value and the index `q`; without digits the value is 0 and `q == p`.
      The clamping to the range of `long` is not modelled. */
  function StrToL(s: string, p: nat): (r: (int, nat))
    requires p <= |s|
    ensures p <= r.1 <= |s|
    ensures r.1 == p ==> r.0 == 0
    ensures p < |s| && IsDigit(s[p]) ==> r.1 > p
  {
    var j := SpaceEnd(s, p);
    var signed := j < |s| && (s[j] == '-' || s[j] == '+');
    var d := if signed then j + 1 else j;
    var e := DigitEnd(s, d);
    if e == d then (0, p)
    else
      ((if signed && s[j] == '-' then -1 else 1) * DecimalValue(s[d..e]), e)
  }

  /** A run of digits followed by a non-digit (or the end) is read whole by `strtol`. */
  lemma {:induction false} DigitEndOfRun(s: string, i: nat, ds: string)
    requires i + |ds| <= |s| && s[i..i + |ds|] == ds && AllDigits(ds)
    requires i + |ds| == |s| || !IsDigit(s[i + |ds|])
    ensures DigitEnd(s, i) == i + |ds|
    decreases |ds|
  {
    if ds != [] {
      assert s[i] == ds[0];
      assert s[i + 1..i + 1 + |ds[1..]|] == ds[1..];
      DigitEndOfRun(s, i + 1, ds[1..]);
    }
  }

  lemma StrToLOfRun(s: string, i: nat, ds: string)
    requires i + |ds| <= |s| && s[i..i + |ds|] == ds && AllDigits(ds) && ds != []
    requires i + |ds| == |s| || !IsDigit(s[i + |ds|])
    ensures StrToL(s, i) == (DecimalValue(ds), i + |ds|)
  {
    assert IsDigit(s[i]) by { assert s[i] == ds[0]; }
    StrToLAtDigit(s, i);
    DigitEndOfRun(s, i, ds);
  }

  /** At a digit `strtol` reads the digit run that starts there. */
  lemma StrToLAtDigit(s: string, i: nat)
    requires i < |s| && IsDigit(s[i])
    ensures StrToL(s, i) == (DecimalValue(s[i..DigitEnd(s, i)]), DigitEnd(s, i))
  {
    assert SpaceEnd(s, i) == i;
  }
}
