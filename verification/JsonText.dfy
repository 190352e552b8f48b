/** JSON text as `json.dumps` writes it without indentation. */
module JsonText {
  type Byte = x: int | 0 <= x < 256

  /** What a message is made of, with the members of an object in the order they are written. */
  datatype Value =
    | Null
    | Bool(flag: bool)
    | Int(number: int)
    | Float(repr: FloatText)
    | Text(text: string)
    | List(items: seq<Value>)
    | Object(members: seq<Entry>)

  datatype Entry = Entry(key: string, value: Value)

  // ------------------------------------------------- numbers, section 6 of RFC 8259

  predicate IsDigit(b: Byte) { 48 <= b <= 57 }

  /** The number of digits at the start of a text. */
  function Run(t: seq<Byte>): (n: nat)
    ensures n <= |t|
  {
    if t != [] && IsDigit(t[0]) then 1 + Run(t[1..]) else 0
  }

  function SignLength(t: seq<Byte>): (n: nat)
    ensures n <= |t|
  {
    if t != [] && t[0] == 45 then 1 else 0
  }

  /** A zero, or digits that do not start with one. */
  function IntegerLength(t: seq<Byte>): (n: nat)
    ensures n <= |t|
  {
    if t != [] && t[0] == 48 then 1 else Run(t)
  }

  /** A point and digits, or nothing. */
  function FractionLength(t: seq<Byte>): (n: nat)
    ensures n <= |t|
  {
    if t != [] && t[0] == 46 && Run(t[1..]) > 0 then 1 + Run(t[1..]) else 0
  }

  /** Digits behind a sign or without one, or nothing. */
  function SignedLength(t: seq<Byte>): (n: nat)
    ensures n <= |t|
  {
    var sign := if t != [] && (t[0] == 43 || t[0] == 45) then 1 else 0;
    if Run(t[sign..]) > 0 then sign + Run(t[sign..]) else 0
  }

  /** An `e` and signed digits, or nothing. */
  function ExponentLength(t: seq<Byte>): (n: nat)
    ensures n <= |t|
  {
    if t != [] && (t[0] == 101 || t[0] == 69) && SignedLength(t[1..]) > 0 then 1 + SignedLength(t[1..]) else 0
  }

  /** What makes a number a floating-point one. */
  function TailLength(t: seq<Byte>): (n: nat)
    ensures n <= |t|
  {
    FractionLength(t) + ExponentLength(t[FractionLength(t)..])
  }

  /** The number that a text starts with: its integer after the sign, and what follows that. */
  datatype Shape = Shape(sign: nat, integer: nat, tail: nat) {
    function Length(): nat { sign + integer + tail }
  }

  function Measure(t: seq<Byte>): (m: Shape)
    ensures m.Length() <= |t|
  {
    var sign := SignLength(t);
    var integer := IntegerLength(t[sign..]);
    Shape(sign, integer, TailLength(t[sign..][integer..]))
  }

  const NAN: seq<Byte> := [78, 97, 78]
  const INFINITY: seq<Byte> := [73, 110, 102, 105, 110, 105, 116, 121]
  const NEGATIVE: seq<Byte> := [45, 73, 110, 102, 105, 110, 105, 116, 121]

  /** The text of a floating-point number, which determines it: a number with a fraction or an
      exponent, or one of the three special values of `json`. */
  type FloatText = t: seq<Byte> | IsFloat(t) witness NAN

  predicate IsFloat(t: seq<Byte>) {
    t == NAN || t == INFINITY || t == NEGATIVE || IsDecimal(t)
  }

  predicate IsDecimal(t: seq<Byte>) {
    var m := Measure(t);
    m.integer > 0 && m.tail > 0 && m.Length() == |t|
  }

  // ---------------------------------------------------------------------- the writer

  predicate Printable(bytes: seq<Byte>) {
    forall i :: 0 <= i < |bytes| ==> 32 <= bytes[i] <= 126
  }

  const COMMA: seq<Byte> := [44, 32]
  const COLON: seq<Byte> := [58, 32]

  function HexDigit(n: nat): (b: Byte)
    requires n < 16
    ensures 32 <= b <= 126
  {
    if n < 10 then 48 + n else 87 + n
  }

  /** A code unit as `\uXXXX`. */
  function Escape(unit: nat): (r: seq<Byte>)
    requires unit < 0x10000
    ensures Printable(r)
  {
    var a := unit / 16;
    var b := a / 16;
    [92, 117, HexDigit(b / 16), HexDigit(b % 16), HexDigit(a % 16), HexDigit(unit % 16)]
  }

  /** The code unit of a code point, or the high half of its surrogate pair. */
  function High(n: nat): nat { if n < 0x10000 then n else 0xD800 + (n - 0x10000) / 1024 % 1024 }

  function Low(n: nat): nat
    requires n >= 0x10000
  {
    0xDC00 + (n - 0x10000) % 1024
  }

  /** The `\u` escapes of a code point. */
  function Units(n: nat): (r: seq<Byte>)
    ensures Printable(r)
  {
    Escape(High(n)) + if n < 0x10000 then [] else Escape(Low(n))
  }

  /** One character of a string literal, ASCII only, with surrogate pairs beyond 16 bits. */
  function Quoted(c: char): (r: seq<Byte>)
    ensures Printable(r)
  {
    var n := c as int;
    if n == 34 || n == 92 then [92, n]
    else if 32 <= n <= 126 then [n]
    else if n == 10 then [92, 110]
    else if n == 13 then [92, 114]
    else if n == 9 then [92, 116]
    else if n == 12 then [92, 102]
    else if n == 8 then [92, 98]
    else Units(n)
  }

  function Characters(s: string): (r: seq<Byte>)
    ensures Printable(r)
  {
    if s == "" then [] else Quoted(s[0]) + Characters(s[1..])
  }

  function Literal(s: string): (r: seq<Byte>)
    ensures Printable(r)
  {
    [34] + Characters(s) + [34]
  }

  function Digits(n: nat): (r: seq<Byte>)
    ensures Printable(r)
  {
    if n < 10 then [48 + n] else Digits(n / 10) + [48 + n % 10]
  }

  lemma {:induction false} RunPrints(t: seq<Byte>)
    ensures Printable(t[..Run(t)])
  {
    if t != [] && IsDigit(t[0]) {
      RunPrints(t[1..]);
      assert t[..Run(t)] == [t[0]] + t[1..][..Run(t[1..])];
    }
  }

  lemma {:induction false} PrintsBoth(t: seq<Byte>, a: nat, b: nat)
    requires a <= |t| && b <= |t[a..]| && Printable(t[..a]) && Printable(t[a..][..b])
    ensures Printable(t[..a + b])
  {
    assert t[..a + b] == t[..a] + t[a..][..b];
  }

  lemma {:induction false} ExponentPrints(t: seq<Byte>)
    ensures Printable(t[..ExponentLength(t)])
  {
    if ExponentLength(t) > 0 {
      var u := t[1..];
      var sign := if u[0] == 43 || u[0] == 45 then 1 else 0;
      RunPrints(u[sign..]);
      PrintsBoth(u, sign, Run(u[sign..]));
      PrintsBoth(t, 1, SignedLength(u));
    }
  }

  lemma {:induction false} TailPrints(t: seq<Byte>)
    ensures Printable(t[..TailLength(t)])
  {
    if FractionLength(t) > 0 {
      RunPrints(t[1..]);
      PrintsBoth(t, 1, Run(t[1..]));
    }
    ExponentPrints(t[FractionLength(t)..]);
    PrintsBoth(t, FractionLength(t), ExponentLength(t[FractionLength(t)..]));
  }

  lemma {:induction false} UnsignedPrints(t: seq<Byte>)
    ensures Printable(t[..IntegerLength(t) + TailLength(t[IntegerLength(t)..])])
  {
    RunPrints(t);
    TailPrints(t[IntegerLength(t)..]);
    PrintsBoth(t, IntegerLength(t), TailLength(t[IntegerLength(t)..]));
  }

  lemma {:induction false} DecimalPrints(t: seq<Byte>)
    requires IsDecimal(t)
    ensures Printable(t)
  {
    var sign := SignLength(t);
    UnsignedPrints(t[sign..]);
    PrintsBoth(t, sign, |t| - sign);
    assert t[..|t|] == t;
  }

  lemma {:induction false} FloatPrints(t: FloatText)
    ensures Printable(t)
  {
    if t != NAN && t != INFINITY && t != NEGATIVE {
      DecimalPrints(t);
    }
  }

  /** `json.dumps` without indentation: whatever the value holds, the text stays on one line. */
  function Dumps(v: Value): (r: seq<Byte>)
    ensures Printable(r)
  {
    match v
    case Null => [110, 117, 108, 108]
    case Bool(flag) => if flag then [116, 114, 117, 101] else [102, 97, 108, 115, 101]
    case Int(n) => if n < 0 then [45] + Digits(-n) else Digits(n)
    case Float(repr) => FloatPrints(repr); repr
    case Text(s) => Literal(s)
    case List(items) => [91] + DumpItems(items) + [93]
    case Object(members) => [123] + DumpMembers(members) + [125]
  }

  function DumpItems(items: seq<Value>): (r: seq<Byte>)
    ensures Printable(r)
  {
    if items == [] then []
    else Dumps(items[0]) + (if |items| > 1 then COMMA else []) + DumpItems(items[1..])
  }

  function DumpMembers(members: seq<Entry>): (r: seq<Byte>)
    ensures Printable(r)
  {
    if members == [] then []
    else
      Literal(members[0].key) + COLON + Dumps(members[0].value) +
      (if |members| > 1 then COMMA else []) + DumpMembers(members[1..])
  }
}
