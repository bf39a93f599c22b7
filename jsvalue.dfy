/**
 * The JavaScript conversions the host relies on: truthiness (`!x`, `x || d`),
 * `Number(x)`, `String(x)` and template-literal interpolation, `trim()` and
 * the `\s` class, and strict equality between parsed values.
 */
module JsValue {
  import opened Wrappers
  import opened Json

  /** `!!x`; an absent property (undefined) is falsy. */
  predicate Truthy(j: Json) {
    match j
    case JNull => false
    case JBool(b) => b
    case JNum(n) => n != 0
    case JStr(s) => s != ""
    case _ => true
  }

  predicate TruthyOpt(o: Option<Json>) {
    o.Some? && Truthy(o.value)
  }

  /** A JavaScript number as far as the host uses it: an integer or NaN. */
  datatype Num = Int(i: int) | NaN

  /** The characters `trim()` removes and `\s` matches: WhiteSpace and
      LineTerminator of the ECMAScript grammar. */
  predicate IsSpace(c: char) {
    var n := c as int;
    (0x09 <= n <= 0x0D) || n == 0x20 || n == 0xA0 || n == 0x1680
    || (0x2000 <= n <= 0x200A) || n == 0x2028 || n == 0x2029
    || n == 0x202F || n == 0x205F || n == 0x3000 || n == 0xFEFF
  }

  function TrimStart(s: string): (r: string)
    ensures |r| <= |s| && r == s[|s| - |r|..]
    ensures r != [] ==> !IsSpace(r[0])
    ensures forall i :: 0 <= i < |s| - |r| ==> IsSpace(s[i])
  {
    if s != [] && IsSpace(s[0]) then TrimStart(s[1..]) else s
  }

  function TrimEnd(s: string): (r: string)
    ensures |r| <= |s| && r == s[..|r|]
    ensures r != [] ==> !IsSpace(r[|r| - 1])
    ensures forall i :: |r| <= i < |s| ==> IsSpace(s[i])
  {
    if s != [] && IsSpace(s[|s| - 1]) then TrimEnd(s[..|s| - 1]) else s
  }

  /** `s.trim()`. */
  function Trim(s: string): string {
    TrimEnd(TrimStart(s))
  }

  /** The value of a digit character: `0`-`9`, then `a`-`f` in either
      case; 16 for any other character. */
  function DigitValue(c: char): nat {
    if '0' <= c <= '9' then c as int - '0' as int
    else if 'a' <= c <= 'f' then c as int - 'a' as int + 10
    else if 'A' <= c <= 'F' then c as int - 'A' as int + 10
    else 16
  }

  predicate AllDigitsIn(s: string, radix: nat) {
    forall i :: 0 <= i < |s| ==> DigitValue(s[i]) < radix
  }

  /** The value of a run of digits in the given radix. */
  function DigitsValue(s: string, radix: nat): nat
    requires AllDigitsIn(s, radix)
  {
    if s == [] then 0 else radix * DigitsValue(s[..|s| - 1], radix) + DigitValue(s[|s| - 1])
  }

  /** The radix a `0x`, `0o` or `0b` prefix names (either case), else 0. */
  function RadixOf(c: char): nat {
    if c == 'x' || c == 'X' then 16
    else if c == 'o' || c == 'O' then 8
    else if c == 'b' || c == 'B' then 2
    else 0
  }

  /** `Number(s)` for the integer forms: blank is 0; `0x`, `0o` or `0b`
      followed by digits of that radix is their value (no sign allowed);
      an optionally signed run of decimal digits is its value; anything
      else NaN. */
  function StringToNumber(s: string): Num {
    var t := Trim(s);
    if t == [] then Int(0)
    else if |t| > 2 && t[0] == '0' && RadixOf(t[1]) > 0 && AllDigitsIn(t[2..], RadixOf(t[1])) then
      Int(DigitsValue(t[2..], RadixOf(t[1])))
    else if t[0] == '-' && |t| > 1 && AllDigitsIn(t[1..], 10) then Int(0 - DigitsValue(t[1..], 10) as int)
    else if t[0] == '+' && |t| > 1 && AllDigitsIn(t[1..], 10) then Int(DigitsValue(t[1..], 10))
    else if AllDigitsIn(t, 10) then Int(DigitsValue(t, 10))
    else NaN
  }

  /** A string with no whitespace at either end is its own trim. */
  lemma TrimUnspaced(s: string)
    requires s != [] && !IsSpace(s[0]) && !IsSpace(s[|s| - 1])
    ensures Trim(s) == s
  {
    assert TrimStart(s) == s;
  }

  /** The decimal digits of `n` read back as `n`. */
  lemma {:induction false} DecimalDigitsValue(n: nat)
    ensures AllDigitsIn(NatToDecimal(n), 10)
    ensures DigitsValue(NatToDecimal(n), 10) == n
  {
    var s := NatToDecimal(n);
    if n >= 10 {
      DecimalDigitsValue(n / 10);
      assert s[..|s| - 1] == NatToDecimal(n / 10);
      assert DigitValue(s[|s| - 1]) == n % 10;
    }
  }

  /** `Number(String(n))` is `n` for every integer. */
  lemma NumberOfDecimal(n: int)
    ensures StringToNumber(IntToDecimal(n)) == Int(n)
  {
    if n < 0 {
      NumberOfNegative(n);
    } else {
      NumberOfNatural(n);
    }
  }

  lemma NumberOfNatural(n: nat)
    ensures StringToNumber(NatToDecimal(n)) == Int(n)
  {
    DecimalDigitsValue(n);
    NumberOfDigits(NatToDecimal(n));
  }

  lemma NumberOfNegative(n: int)
    requires n < 0
    ensures StringToNumber(IntToDecimal(n)) == Int(n)
  {
    var m: nat := -n;
    var digits := NatToDecimal(m);
    DecimalDigitsValue(m);
    var v := DigitsValue(digits, 10);
    assert v == m;
    assert IntToDecimal(n) == "-" + digits;
    NumberOfNegatedDigits(digits);
  }

  /** `Number` of a run of decimal digits is their value. */
  lemma NumberOfDigits(t: string)
    requires t != [] && AllDigitsIn(t, 10)
    ensures StringToNumber(t) == Int(DigitsValue(t, 10))
  {
    assert DigitValue(t[0]) < 10 && DigitValue(t[|t| - 1]) < 10;
    TrimUnspaced(t);
    assert |t| > 1 ==> DigitValue(t[1]) < 10;
  }

  /** `Number` of a minus sign and decimal digits is their negated value. */
  lemma NumberOfNegatedDigits(d: string)
    requires d != [] && AllDigitsIn(d, 10)
    ensures StringToNumber("-" + d) == Int(0 - DigitsValue(d, 10) as int)
  {
    var t := "-" + d;
    assert t[1..] == d;
    assert t[|t| - 1] == d[|d| - 1] && DigitValue(d[|d| - 1]) < 10;
    TrimUnspaced(t);
  }

  /** `Number("0x…")`, `Number("0o…")` and `Number("0b…")`: the prefix
      names the radix of the digits after it. */
  lemma NumberOfRadixLiteral(p: char, digits: string)
    requires RadixOf(p) > 0 && digits != [] && AllDigitsIn(digits, RadixOf(p))
    ensures StringToNumber(['0', p] + digits) == Int(DigitsValue(digits, RadixOf(p)))
  {
    var t := ['0', p] + digits;
    assert t[|t| - 1] == digits[|digits| - 1];
    TrimUnspaced(t);
    assert t[2..] == digits;
  }

  /** `String(x)`, also what `${x}` and `Array.prototype.join` produce. */
  function ToStr(j: Json): string
    decreases j
  {
    match j
    case JNull => "null"
    case JBool(b) => if b then "true" else "false"
    case JNum(n) => IntToDecimal(n)
    case JStr(s) => s
    case JArr(items) => JoinElements(seq(|items|, i requires 0 <= i < |items| =>
                                           if items[i].JNull? then "" else ToStr(items[i])))
    case JObj(_) => "[object Object]"
  }

  function JoinElements(parts: seq<string>): string {
    if parts == [] then ""
    else if |parts| == 1 then parts[0]
    else parts[0] + "," + JoinElements(parts[1..])
  }

  /** `Number(x)`; undefined is NaN. */
  function ToNumber(o: Option<Json>): Num {
    match o
    case None => NaN
    case Some(j) =>
      match j
      case JNull => Int(0)
      case JBool(b) => Int(if b then 1 else 0)
      case JNum(n) => Int(n)
      case JStr(s) => StringToNumber(s)
      case JArr(_) => StringToNumber(ToStr(j))
      case JObj(_) => NaN
  }

  /** `x || d` where the default is a value. */
  function OrElse(o: Option<Json>, d: Json): Json {
    if TruthyOpt(o) then o.value else d
  }

  /** `a === b` between two values read from separately parsed documents:
      primitives compare by value, undefined equals undefined, and two
      objects or arrays are never the same object. */
  predicate StrictEquals(a: Option<Json>, b: Option<Json>) {
    match a
    case None => b.None?
    case Some(x) => b.Some? && x == b.value && !x.JArr? && !x.JObj?
  }

  /** The key `obj[x]` looks up: undefined becomes "undefined". */
  function PropertyKey(o: Option<Json>): string {
    if o.None? then "undefined" else ToStr(o.value)
  }

  /** `s.startsWith(prefix)`. */
  predicate StartsWith(s: string, prefix: string) {
    |prefix| <= |s| && s[..|prefix|] == prefix
  }

  /** A configured string read with `cfg.x || d`. */
  function StrOr(o: Option<string>, d: string): string {
    if o.Some? && o.value != "" then o.value else d
  }
}
