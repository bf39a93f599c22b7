/**
 * JSON values as the host's JavaScript sees them after `JSON.parse`, the
 * object operations the host uses on them (property read, spread with one
 * overriding key, `delete`), and `JSON.stringify` (RFC 8259) without
 * indentation.
 */
module Json {
  import opened Wrappers

  /** Numbers are integers: every number the host writes (`v`, chunk
      numbering, `vote`) is one. */
  datatype Json =
    | JNull
    | JBool(b: bool)
    | JNum(n: int)
    | JStr(s: string)
    | JArr(items: seq<Json>)
    | JObj(fields: seq<Field>)

  /** One own property of an object, in insertion order. */
  datatype Field = Field(key: string, value: Json)

  function Keys(fs: seq<Field>): (ks: seq<string>)
    ensures |ks| == |fs|
    ensures forall i :: 0 <= i < |fs| ==> ks[i] == fs[i].key
  {
    if fs == [] then [] else [fs[0].key] + Keys(fs[1..])
  }

  /** A JavaScript object never holds the same key twice. */
  predicate DistinctKeys(fs: seq<Field>) {
    forall i, j :: 0 <= i < j < |fs| ==> fs[i].key != fs[j].key
  }

  /** `obj[k]`: the value of the first field named `k`, or undefined. */
  function Get(fs: seq<Field>, k: string): (r: Option<Json>)
    ensures r.None? <==> k !in Keys(fs)
    ensures r.Some? ==> Field(k, r.value) in fs
  {
    if fs == [] then None
    else if fs[0].key == k then Some(fs[0].value)
    else Get(fs[1..], k)
  }

  /** `{ ...obj, [k]: v }`: an existing key keeps its position and takes the
      new value; a new key goes last. */
  function Put(fs: seq<Field>, k: string, v: Json): (r: seq<Field>)
    ensures Get(r, k) == Some(v)
    ensures forall k' :: k' != k ==> Get(r, k') == Get(fs, k')
  {
    if fs == [] then [Field(k, v)]
    else if fs[0].key == k then [Field(k, v)] + fs[1..]
    else
      var rest := Put(fs[1..], k, v);
      assert forall k' :: k' != fs[0].key ==> Get([fs[0]] + rest, k') == Get(rest, k');
      [fs[0]] + rest
  }

  /** The spread keeps the key order: an existing key stays where it was. */
  lemma {:induction false} PutKeys(fs: seq<Field>, k: string, v: Json)
    ensures k in Keys(fs) ==> Keys(Put(fs, k, v)) == Keys(fs)
    ensures k !in Keys(fs) ==> Keys(Put(fs, k, v)) == Keys(fs) + [k]
  {
    if fs != [] && fs[0].key != k {
      PutKeys(fs[1..], k, v);
      assert Keys(fs) == [fs[0].key] + Keys(fs[1..]);
    }
  }

  /** In a JavaScript object a key names one field, so reading it finds that
      field's value. */
  lemma {:induction false} GetDistinct(fs: seq<Field>, k: string, v: Json)
    requires DistinctKeys(fs)
    requires Field(k, v) in fs
    ensures Get(fs, k) == Some(v)
  {
    if fs[0] != Field(k, v) {
      assert fs[0].key != k by {
        var i :| 0 <= i < |fs| && fs[i] == Field(k, v);
        assert i != 0;
      }
      GetDistinct(fs[1..], k, v);
    }
  }

  /** Spreading one key into a JavaScript object yields a JavaScript object. */
  lemma PutDistinct(fs: seq<Field>, k: string, v: Json)
    requires DistinctKeys(fs)
    ensures DistinctKeys(Put(fs, k, v))
  {
    PutKeys(fs, k, v);
    var r := Put(fs, k, v);
    if k !in Keys(fs) {
      assert forall i :: 0 <= i < |fs| ==> r[i].key == fs[i].key;
    }
  }

  /** `delete obj[k]` on a copy: every field named `k` goes, the others keep
      their order. */
  function Remove(fs: seq<Field>, k: string): (r: seq<Field>)
    ensures forall f :: f in r <==> f in fs && f.key != k
    ensures Get(r, k) == None
    ensures forall k' :: k' != k ==> Get(r, k') == Get(fs, k')
    ensures DistinctKeys(fs) ==> DistinctKeys(r)
  {
    if fs == [] then []
    else if fs[0].key == k then Remove(fs[1..], k)
    else
      var rest := Remove(fs[1..], k);
      assert forall k' :: k' != fs[0].key ==> Get([fs[0]] + rest, k') == Get(rest, k');
      [fs[0]] + rest
  }

  /** `obj.k` on any value: only objects have the host's properties, so any
      other value reads as undefined. */
  function Prop(j: Json, k: string): Option<Json> {
    if j.JObj? then Get(j.fields, k) else None
  }

  // ---------------------------------------------------------------------
  // JSON.stringify

  function DigitChar(d: nat): (c: char)
    requires d < 10
    ensures '0' <= c <= '9'
  {
    ('0' as int + d) as char
  }

  /** `String(n)` for a non-negative integer: its decimal digits. */
  function NatToDecimal(n: nat): (s: string)
    ensures |s| >= 1
    ensures forall i :: 0 <= i < |s| ==> '0' <= s[i] <= '9'
  {
    if n < 10 then [DigitChar(n)] else NatToDecimal(n / 10) + [DigitChar(n % 10)]
  }

  function IntToDecimal(n: int): string {
    if n < 0 then "-" + NatToDecimal(-n) else NatToDecimal(n)
  }

  function LowerHexDigit(d: nat): (c: char)
    requires d < 16
  {
    if d < 10 then DigitChar(d) else ('a' as int + d - 10) as char
  }

  /** How JSON.stringify writes one character inside a string literal. */
  function EscapeChar(c: char): string {
    if c == '"' then "\\\""
    else if c == '\\' then "\\\\"
    else if c == 8 as char then "\\b"
    else if c == '\t' then "\\t"
    else if c == '\n' then "\\n"
    else if c == 12 as char then "\\f"
    else if c == '\r' then "\\r"
    else if (c as int) < 0x20 then "\\u00" + [LowerHexDigit(c as int / 16), LowerHexDigit(c as int % 16)]
    else [c]
  }

  function Escape(s: string): string {
    if s == [] then "" else EscapeChar(s[0]) + Escape(s[1..])
  }

  function Quote(s: string): string {
    "\"" + Escape(s) + "\""
  }

  function JoinComma(parts: seq<string>): string {
    if parts == [] then ""
    else if |parts| == 1 then parts[0]
    else parts[0] + "," + JoinComma(parts[1..])
  }

  /** `JSON.stringify(j)`: keys in insertion order, no whitespace. */
  function Stringify(j: Json): string
    decreases j
  {
    match j
    case JNull => "null"
    case JBool(b) => if b then "true" else "false"
    case JNum(n) => IntToDecimal(n)
    case JStr(s) => Quote(s)
    case JArr(items) =>
      "[" + JoinComma(seq(|items|, i requires 0 <= i < |items| => Stringify(items[i]))) + "]"
    case JObj(fs) =>
      "{" + JoinComma(seq(|fs|, i requires 0 <= i < |fs| =>
                            Quote(fs[i].key) + ":" + Stringify(fs[i].value))) + "}"
  }

  // ---------------------------------------------------------------------
  // Latin-1: the characters the hex wire codec carries unchanged

  predicate Latin1(s: string) {
    forall i :: 0 <= i < |s| ==> s[i] as int <= 255
  }

  /** Every string in `j`, keys included, is Latin-1. */
  predicate Latin1Json(j: Json)
    decreases j
  {
    match j
    case JStr(s) => Latin1(s)
    case JArr(items) => forall i :: 0 <= i < |items| ==> Latin1Json(items[i])
    case JObj(fs) => forall i :: 0 <= i < |fs| ==> Latin1(fs[i].key) && Latin1Json(fs[i].value)
    case _ => true
  }

  lemma {:induction false} EscapeLatin1(s: string)
    requires Latin1(s)
    ensures Latin1(Escape(s))
  {
    if s != [] {
      EscapeLatin1(s[1..]);
    }
  }

  lemma {:induction false} JoinCommaLatin1(parts: seq<string>)
    requires forall i :: 0 <= i < |parts| ==> Latin1(parts[i])
    ensures Latin1(JoinComma(parts))
  {
    if |parts| > 1 {
      JoinCommaLatin1(parts[1..]);
    }
  }

  lemma {:induction false} NatToDecimalLatin1(n: nat)
    ensures Latin1(NatToDecimal(n))
  {
  }

  /** JSON.stringify adds only ASCII punctuation, digits and escapes, so an
      envelope whose strings are Latin-1 serialises to Latin-1 text. */
  lemma {:induction false} StringifyLatin1(j: Json)
    requires Latin1Json(j)
    ensures Latin1(Stringify(j))
    decreases j
  {
    match j
    case JNull =>
    case JBool(b) =>
    case JNum(n) =>
      NatToDecimalLatin1(if n < 0 then -n else n);
    case JStr(s) =>
      EscapeLatin1(s);
    case JArr(items) =>
      var parts := seq(|items|, i requires 0 <= i < |items| => Stringify(items[i]));
      forall i | 0 <= i < |items| ensures Latin1(parts[i]) {
        StringifyLatin1(items[i]);
      }
      JoinCommaLatin1(parts);
    case JObj(fs) =>
      var parts := seq(|fs|, i requires 0 <= i < |fs| => Quote(fs[i].key) + ":" + Stringify(fs[i].value));
      forall i | 0 <= i < |fs| ensures Latin1(parts[i]) {
        EscapeLatin1(fs[i].key);
        StringifyLatin1(fs[i].value);
      }
      JoinCommaLatin1(parts);
  }
}
