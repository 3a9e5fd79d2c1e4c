/**
 * The fragment of JavaScript semantics the book handlers rely on: the values a
 * JSON request payload can carry, truthiness, `toString`, `trim`, strict
 * equality and `Array.prototype.splice`. Numbers are integers here; NaN,
 * -0 and fractional numbers are not modelled.
 */
module Js {

  /** A JavaScript value as it can arrive in a parsed JSON payload. */
  datatype Value = Undefined | Null | Num(n: int) | Str(s: string) | Bool(b: bool)

  /** The values ToBoolean maps to false (NaN and -0 aside). */
  const FalsyValues: set<Value> := {Undefined, Null, Num(0), Str(""), Bool(false)}

  /** ToBoolean: what `!v` negates and what `Boolean(v)` returns. */
  predicate Truthy(v: Value)
    ensures Truthy(v) <==> v !in FalsyValues
  {
    match v
    case Undefined => false
    case Null => false
    case Num(n) => n != 0
    case Str(s) => s != ""
    case Bool(b) => b
  }

  /** `a === b`. Without NaN, strict equality is equality of type and value. */
  predicate StrictEquals(a: Value, b: Value)
    ensures StrictEquals(a, b) <==> a == b
  {
    match (a, b)
    case (Undefined, Undefined) => true
    case (Null, Null) => true
    case (Num(x), Num(y)) => x == y
    case (Str(x), Str(y)) => x == y
    case (Bool(x), Bool(y)) => x == y
    case _ => false
  }

  /** The code points String.prototype.trim strips: WhiteSpace and LineTerminator. */
  predicate IsWhiteSpace(c: char)
  {
    var k := c as int;
    k == 0x09 || k == 0x0B || k == 0x0C || k == 0x20 || k == 0xA0 || k == 0xFEFF
    || k == 0x1680 || 0x2000 <= k <= 0x200A || k == 0x202F || k == 0x205F || k == 0x3000
    || k == 0x0A || k == 0x0D || k == 0x2028 || k == 0x2029
  }

  /** Drops leading white space: the result is the suffix of `s` after a white-space prefix. */
  function TrimStart(s: string): (r: string)
    ensures |r| <= |s| && r == s[|s| - |r|..]
    ensures forall i :: 0 <= i < |s| - |r| ==> IsWhiteSpace(s[i])
    ensures r == [] || !IsWhiteSpace(r[0])
  {
    if s != [] && IsWhiteSpace(s[0]) then TrimStart(s[1..]) else s
  }

  /** Drops trailing white space: the result is the prefix of `s` before a white-space suffix. */
  function TrimEnd(s: string): (r: string)
    ensures |r| <= |s| && r == s[..|r|]
    ensures forall i :: |r| <= i < |s| ==> IsWhiteSpace(s[i])
    ensures r == [] || !IsWhiteSpace(r[|r| - 1])
  {
    if s != [] && IsWhiteSpace(s[|s| - 1]) then TrimEnd(s[..|s| - 1]) else s
  }

  /** String.prototype.trim. */
  function Trim(s: string): string
  {
    TrimEnd(TrimStart(s))
  }

  /** A string trims to "" exactly when every character of it is white space. */
  lemma TrimBlankIff(s: string)
    ensures Trim(s) == [] <==> forall i :: 0 <= i < |s| ==> IsWhiteSpace(s[i])
  {
    var t := TrimStart(s);
    if t != [] {
      assert !IsWhiteSpace(t[0]);
      assert !IsWhiteSpace(s[|s| - |t|]);
      assert TrimEnd(t) != [];
    }
  }

  /** The decimal digit for `d`. */
  function Digit(d: nat): char
    requires d < 10
  {
    "0123456789"[d]
  }

  /**
   * The decimal numeral of `n`, as Number.prototype.toString writes it for
   * n < 10^21 (from 10^21 on JavaScript switches to exponent form). There is no
   * leading zero: only the numeral of 0 starts with '0'.
   */
  function NatToDecimal(n: nat): (r: string)
    ensures |r| >= 1
    ensures forall i :: 0 <= i < |r| ==> '0' <= r[i] <= '9'
    ensures r[0] == '0' <==> n == 0
    ensures n == 0 ==> r == "0"
  {
    if n < 10 then [Digit(n)] else NatToDecimal(n / 10) + [Digit(n % 10)]
  }

  /** The number a string of decimal digits denotes. */
  function DecimalValue(s: string): nat
    requires forall i :: 0 <= i < |s| ==> '0' <= s[i] <= '9'
  {
    if s == [] then 0 else DecimalValue(s[..|s| - 1]) * 10 + (s[|s| - 1] as int - '0' as int)
  }

  /** Reading the numeral back gives the number: toString loses nothing. */
  lemma {:induction false} DecimalRoundTrip(n: nat)
    ensures DecimalValue(NatToDecimal(n)) == n
  {
    if n >= 10 {
      var s := NatToDecimal(n);
      assert s[..|s| - 1] == NatToDecimal(n / 10);
      DecimalRoundTrip(n / 10);
    }
  }

  /** Number.prototype.toString for an integer of magnitude below 10^21. */
  function IntToDecimal(n: int): string
  {
    if n < 0 then "-" + NatToDecimal(-n) else NatToDecimal(n)
  }

  /**
   * `v.toString()`. Calling it on undefined or null throws a TypeError, so the
   * caller must have ruled those out.
   */
  function ToString(v: Value): string
    requires !v.Undefined? && !v.Null?
  {
    match v
    case Num(n) => IntToDecimal(n)
    case Str(s) => s
    case Bool(b) => if b then "true" else "false"
  }

  /** A string that starts with a visible ASCII character does not trim to "". */
  lemma VisibleStartNotBlank(t: string)
    requires |t| > 0 && 0x21 <= t[0] as int <= 0x7E
    ensures Trim(t) != []
  {
    TrimBlankIff(t);
    assert !IsWhiteSpace(t[0]);
  }

  /** Only a string can be blank after `toString().trim()`; a number or boolean never is. */
  lemma ToStringBlankIff(v: Value)
    requires !v.Undefined? && !v.Null?
    ensures Trim(ToString(v)) == [] <==> v.Str? && forall i :: 0 <= i < |v.s| ==> IsWhiteSpace(v.s[i])
  {
    match v
    case Str(s) =>
      TrimBlankIff(s);
    case Bool(b) =>
      var t := ToString(v);
      assert t[0] == (if b then 't' else 'f');
      VisibleStartNotBlank(t);
    case Num(n) =>
      var t := ToString(v);
      var digits := NatToDecimal(if n < 0 then -n else n);
      assert t == if n < 0 then "-" + digits else digits;
      assert t[0] == (if n < 0 then '-' else digits[0]);
      VisibleStartNotBlank(t);
  }

  /**
   * The array `s` after `s.splice(start, deleteCount)` (ECMAScript section
   * 23.1.3.31): a negative start counts back from the end and is clamped to 0,
   * a start past the end is clamped to the length, and the delete count is
   * clamped to what remains after the start.
   */
  function Splice<T>(s: seq<T>, start: int, deleteCount: int): seq<T>
  {
    var k := if start < 0 then (if |s| + start < 0 then 0 else |s| + start)
             else (if start > |s| then |s| else start);
    var d := if deleteCount < 0 then 0 else (if deleteCount > |s| - k then |s| - k else deleteCount);
    s[..k] + s[k + d..]
  }

  /** `s.splice(i, 1)` at an index inside the array removes exactly the element at `i`. */
  lemma SpliceAt<T>(s: seq<T>, i: int)
    requires 0 <= i < |s|
    ensures |Splice(s, i, 1)| == |s| - 1
    ensures forall j :: 0 <= j < i ==> Splice(s, i, 1)[j] == s[j]
    ensures forall j :: i <= j < |s| - 1 ==> Splice(s, i, 1)[j] == s[j + 1]
  {
  }

  /** `s.splice(-1, 1)` removes the last element, or nothing from an empty array. */
  lemma SpliceMinusOne<T>(s: seq<T>)
    ensures Splice(s, -1, 1) == if s == [] then s else s[..|s| - 1]
  {
  }
}
