/** A JSON reader after sections 2 to 7 of RFC 8259, over ASCII texts, with the special numbers that
    `json.loads` also takes; and that it reads back whatever `json.dumps` writes. */
module JsonReader {
  import opened Outcomes
  import opened JsonText

  type Bytes = seq<Byte>

  /** Insignificant whitespace: space, tab, line feed and carriage return. */
  predicate IsSpace(b: Byte) { b == 32 || b == 9 || b == 10 || b == 13 }

  function Skip(t: Bytes): (r: Bytes)
    ensures |r| <= |t|
  {
    if t != [] && IsSpace(t[0]) then Skip(t[1..]) else t
  }

  // ------------------------------------------------------------------------- strings

  function HexValue(b: Byte): Option<nat> {
    if 48 <= b <= 57 then Some(b - 48)
    else if 97 <= b <= 102 then Some(b - 97 + 10)
    else if 65 <= b <= 70 then Some(b - 65 + 10)
    else None
  }

  /** Four hexadecimal digits. */
  function ReadUnit(t: Bytes): (r: Option<nat>)
    ensures r.Some? ==> |t| >= 4
  {
    if |t| < 4 then None
    else
      var a, b, c, d := HexValue(t[0]), HexValue(t[1]), HexValue(t[2]), HexValue(t[3]);
      if a.None? || b.None? || c.None? || d.None? then None
      else Some(4096 * a.value + 256 * b.value + 16 * c.value + d.value)
  }

  /** The code point of one escape, or of two that are a surrogate pair. */
  function ReadUnits(t: Bytes): (r: Option<(char, Bytes)>)
    ensures r.Some? ==> |r.value.1| < |t|
  {
    var high := ReadUnit(t);
    if high.None? then None
    else if high.value < 0xD800 || 0xE000 <= high.value < 0x10000 then Some((high.value as char, t[4..]))
    else
      var low := if |t| >= 6 && t[4] == 92 && t[5] == 117 then ReadUnit(t[6..]) else None;
      if high.value < 0xDC00 && low.Some? && 0xDC00 <= low.value < 0xE000
      then Some(((0x10000 + 1024 * (high.value - 0xD800) + (low.value - 0xDC00)) as char, t[10..]))
      else None
  }

  /** What follows a backslash. */
  function ReadEscape(t: Bytes): (r: Option<(char, Bytes)>)
    ensures r.Some? ==> |r.value.1| < |t|
  {
    if t == [] then None
    else
      match t[0]
      case 34 => Some(('\"', t[1..]))
      case 92 => Some(('\\', t[1..]))
      case 47 => Some(('/', t[1..]))
      case 98 => Some((8 as char, t[1..]))
      case 102 => Some((12 as char, t[1..]))
      case 110 => Some(('\n', t[1..]))
      case 114 => Some(('\r', t[1..]))
      case 116 => Some(('\t', t[1..]))
      case 117 => ReadUnits(t[1..])
      case _ => None
  }

  function ReadCharacter(t: Bytes): (r: Option<(char, Bytes)>)
    ensures r.Some? ==> |r.value.1| < |t|
  {
    if t == [] then None
    else if t[0] == 92 then ReadEscape(t[1..])
    else if 32 <= t[0] < 128 then Some((t[0] as char, t[1..]))
    else None
  }

  /** The rest of a string, up to its closing quotation mark. */
  function ReadString(t: Bytes): (r: Option<(string, Bytes)>)
    ensures r.Some? ==> |r.value.1| < |t|
    decreases |t|
  {
    if t != [] && t[0] == 34 then Some(("", t[1..]))
    else
      var first := ReadCharacter(t);
      if first.None? then None
      else
        var more := ReadString(first.value.1);
        if more.None? then None else Some(([first.value.0] + more.value.0, more.value.1))
  }

  // -------------------------------------------------------------------------- values

  /** The value of a run of decimal digits. */
  function Decimal(digits: Bytes): int {
    if digits == [] then 0 else 10 * Decimal(digits[..|digits| - 1]) + digits[|digits| - 1] as int - 48
  }

  function ReadNumber(t: Bytes): (r: Option<(Value, Bytes)>)
    ensures r.Some? ==> |r.value.1| < |t|
  {
    var m := Measure(t);
    if m.integer == 0 then None
    else if m.tail > 0 then
      TokenIsDecimal(t);
      Some((Float(t[..m.Length()]), t[m.Length()..]))
    else
      var n := Decimal(t[m.sign..][..m.integer]);
      Some((Int(if m.sign == 1 then -n else n), t[m.Length()..]))
  }

  /** The literal names `null`, `true` and `false`. */
  const NULL: Bytes := [110, 117, 108, 108]
  const TRUE: Bytes := [116, 114, 117, 101]
  const FALSE: Bytes := [102, 97, 108, 115, 101]

  /** A literal name or a number. */
  function ReadWord(t: Bytes): (r: Option<(Value, Bytes)>)
    ensures r.Some? ==> |r.value.1| < |t|
  {
    if NULL <= t then Some((Null, t[4..]))
    else if TRUE <= t then Some((Bool(true), t[4..]))
    else if FALSE <= t then Some((Bool(false), t[5..]))
    else if NAN <= t then Some((Float(NAN), t[3..]))
    else if INFINITY <= t then Some((Float(INFINITY), t[8..]))
    else if NEGATIVE <= t then Some((Float(NEGATIVE), t[9..]))
    else ReadNumber(t)
  }

  function Read(t: Bytes): (r: Option<(Value, Bytes)>)
    ensures r.Some? ==> |r.value.1| < |t|
    decreases |t|, 0
  {
    var u := Skip(t);
    if u == [] then None
    else if u[0] == 34 then
      var s := ReadString(u[1..]);
      if s.None? then None else Some((Text(s.value.0), s.value.1))
    else if u[0] == 91 then
      var w := Skip(u[1..]);
      if w != [] && w[0] == 93 then Some((List([]), w[1..]))
      else
        var items := ReadItems(u[1..]);
        if items.None? then None else Some((List(items.value.0), items.value.1))
    else if u[0] == 123 then
      var w := Skip(u[1..]);
      if w != [] && w[0] == 125 then Some((Object([]), w[1..]))
      else
        var members := ReadMembers(u[1..]);
        if members.None? then None else Some((Object(members.value.0), members.value.1))
    else ReadWord(u)
  }

  /** Values separated by commas, and the closing bracket. */
  function ReadItems(t: Bytes): (r: Option<(seq<Value>, Bytes)>)
    ensures r.Some? ==> |r.value.1| < |t|
    decreases |t|, 1
  {
    var first := Read(t);
    if first.None? then None
    else
      var u := Skip(first.value.1);
      if u == [] then None
      else if u[0] == 93 then Some(([first.value.0], u[1..]))
      else if u[0] != 44 then None
      else
        var more := ReadItems(u[1..]);
        if more.None? then None else Some(([first.value.0] + more.value.0, more.value.1))
  }

  /** A name, a colon and a value. */
  function ReadMember(t: Bytes): (r: Option<(Entry, Bytes)>)
    ensures r.Some? ==> |r.value.1| < |t|
    decreases |t|, 1
  {
    var u := Skip(t);
    if u == [] || u[0] != 34 then None
    else
      var key := ReadString(u[1..]);
      if key.None? then None
      else
        var w := Skip(key.value.1);
        if w == [] || w[0] != 58 then None
        else
          var value := Read(w[1..]);
          if value.None? then None else Some((Entry(key.value.0, value.value.0), value.value.1))
  }

  function ReadMembers(t: Bytes): (r: Option<(seq<Entry>, Bytes)>)
    ensures r.Some? ==> |r.value.1| < |t|
    decreases |t|, 2
  {
    var first := ReadMember(t);
    if first.None? then None
    else
      var u := Skip(first.value.1);
      if u == [] then None
      else if u[0] == 125 then Some(([first.value.0], u[1..]))
      else if u[0] != 44 then None
      else
        var more := ReadMembers(u[1..]);
        if more.None? then None else Some(([first.value.0] + more.value.0, more.value.1))
  }

  /** `json.loads`: one value and nothing but whitespace after it. */
  function Loads(t: Bytes): Option<Value> {
    var r := Read(t);
    if r.Some? && Skip(r.value.1) == [] then Some(r.value.0) else None
  }

  // -------------------------------------------------------------- numbers, read back

  /** What can follow a value: nothing, a separator, a closing bracket or the end of the line. */
  predicate Ends(x: Bytes) {
    x == [] || x[0] == 44 || x[0] == 93 || x[0] == 125 || x[0] == 10
  }

  lemma {:induction false} RunConcat(t: Bytes, x: Bytes)
    requires Ends(x)
    ensures Run(t + x) == Run(t)
  {
    if t != [] && IsDigit(t[0]) {
      assert (t + x)[1..] == t[1..] + x;
      RunConcat(t[1..], x);
    } else if t == [] {
      assert t + x == x;
    }
  }

  lemma {:induction false} FractionConcat(t: Bytes, x: Bytes)
    requires Ends(x)
    ensures FractionLength(t + x) == FractionLength(t)
  {
    if t != [] {
      assert (t + x)[1..] == t[1..] + x;
      RunConcat(t[1..], x);
    } else {
      assert t + x == x;
    }
  }

  lemma {:induction false} SignedConcat(t: Bytes, x: Bytes)
    requires Ends(x)
    ensures SignedLength(t + x) == SignedLength(t)
  {
    if t != [] {
      assert (t + x)[1..] == t[1..] + x;
      RunConcat(t[1..], x);
      RunConcat(t, x);
      assert t[0..] == t && (t + x)[0..] == t + x;
    } else {
      assert t + x == x && x[0..] == x;
    }
  }

  lemma {:induction false} ExponentConcat(t: Bytes, x: Bytes)
    requires Ends(x)
    ensures ExponentLength(t + x) == ExponentLength(t)
  {
    if t != [] {
      assert (t + x)[1..] == t[1..] + x;
      SignedConcat(t[1..], x);
    } else {
      assert t + x == x;
    }
  }

  lemma {:induction false} TailConcat(t: Bytes, x: Bytes)
    requires Ends(x)
    ensures TailLength(t + x) == TailLength(t)
  {
    var n := FractionLength(t);
    FractionConcat(t, x);
    assert (t + x)[n..] == t[n..] + x;
    ExponentConcat(t[n..], x);
  }

  lemma {:induction false} IntegerConcat(t: Bytes, x: Bytes)
    requires Ends(x)
    ensures IntegerLength(t + x) == IntegerLength(t)
  {
    RunConcat(t, x);
    assert t == [] ==> t + x == x;
  }

  /** What follows a number does not change how it is read. */
  lemma {:induction false} MeasureConcat(t: Bytes, x: Bytes)
    requires Ends(x)
    ensures Measure(t + x) == Measure(t)
  {
    var sign := SignLength(t);
    assert t == [] ==> t + x == x;
    var u := t[sign..];
    assert (t + x)[sign..] == u + x;
    IntegerConcat(u, x);
    var integer := IntegerLength(u);
    assert (u + x)[integer..] == u[integer..] + x;
    TailConcat(u[integer..], x);
  }

  lemma {:induction false} RunPrefix(t: Bytes, k: nat)
    requires Run(t) <= k <= |t|
    ensures Run(t[..k]) == Run(t)
  {
    if t != [] && IsDigit(t[0]) {
      assert t[..k][1..] == t[1..][..k - 1];
      RunPrefix(t[1..], k - 1);
    }
  }

  lemma {:induction false} FractionPrefix(t: Bytes, k: nat)
    requires FractionLength(t) <= k <= |t|
    ensures FractionLength(t[..k]) == FractionLength(t)
  {
    if t != [] && t[0] == 46 && k > 0 {
      assert t[..k][1..] == t[1..][..k - 1];
      RunPrefix(t[1..], k - 1);
    }
  }

  lemma {:induction false} ExponentPrefix(t: Bytes, k: nat)
    requires k == ExponentLength(t)
    ensures ExponentLength(t[..k]) == k
  {
    if k > 0 {
      var u := t[1..];
      var sign := if u[0] == 43 || u[0] == 45 then 1 else 0;
      assert t[..k][1..] == u[..k - 1];
      assert u[..k - 1][sign..] == u[sign..][..k - 1 - sign];
      RunPrefix(u[sign..], k - 1 - sign);
    }
  }

  lemma {:induction false} TailPrefix(t: Bytes, k: nat)
    requires k == TailLength(t)
    ensures TailLength(t[..k]) == k
  {
    var n := FractionLength(t);
    FractionPrefix(t, k);
    assert t[..k][n..] == t[n..][..k - n];
    ExponentPrefix(t[n..], k - n);
  }

  lemma {:induction false} IntegerPrefix(t: Bytes, k: nat)
    requires 0 < IntegerLength(t) <= k <= |t|
    ensures IntegerLength(t[..k]) == IntegerLength(t)
  {
    if t[0] != 48 {
      RunPrefix(t, k);
    }
  }

  /** The number that a text starts with is a number on its own. */
  lemma {:induction false} TokenIsDecimal(t: Bytes)
    requires Measure(t).integer > 0 && Measure(t).tail > 0
    ensures IsDecimal(t[..Measure(t).Length()])
  {
    var m := Measure(t);
    var token, u := t[..m.Length()], t[m.sign..];
    var rest := m.integer + m.tail;
    assert token[m.sign..] == u[..rest];
    IntegerPrefix(u, rest);
    assert u[..rest][m.integer..] == u[m.integer..][..m.tail];
    TailPrefix(u[m.integer..], m.tail);
  }

  lemma {:induction false} DigitsRead(n: nat)
    ensures |Digits(n)| > 0 && Run(Digits(n)) == |Digits(n)| && Decimal(Digits(n)) == n
    ensures n > 0 ==> Digits(n)[0] != 48
  {
    if n < 10 {
      assert Digits(n)[..0] == [] && Digits(n)[1..] == [];
    } else {
      var front, last: Byte := Digits(n / 10), 48 + n % 10;
      DigitsRead(n / 10);
      RunSnoc(front, last);
      assert Digits(n)[..|front|] == front && Digits(n)[|front|] == last;
    }
  }

  lemma {:induction false} RunSnoc(t: Bytes, b: Byte)
    requires Run(t) == |t| && IsDigit(b)
    ensures Run(t + [b]) == |t| + 1
  {
    if t != [] {
      assert (t + [b])[1..] == t[1..] + [b];
      RunSnoc(t[1..], b);
    } else {
      assert t + [b] == [b] && [b][1..] == [];
    }
  }

  lemma {:induction false} MeasureDigits(n: nat, negative: bool)
    requires negative ==> n > 0
    ensures var t := if negative then [45] + Digits(n) else Digits(n);
            Measure(t) == Shape(if negative then 1 else 0, |Digits(n)|, 0)
  {
    DigitsRead(n);
    var d := Digits(n);
    var t := if negative then [45] + d else d;
    assert IsDigit(d[0]);
    assert t[SignLength(t)..] == d;
    assert n == 0 ==> d == [48];
    assert d[|d|..] == [];
  }

  lemma {:induction false} IntegerFrom(t: Bytes, digits: Bytes, x: Bytes)
    requires Measure(t + x) == Shape(SignLength(t), |digits|, 0) && digits != []
    requires |t| == SignLength(t) + |digits| && t[SignLength(t)..] == digits
    ensures ReadNumber(t + x) ==
              Some((Int(if SignLength(t) == 1 then -Decimal(digits) else Decimal(digits)), x))
  {
    var sign := SignLength(t);
    assert (t + x)[sign..] == digits + x && (digits + x)[..|digits|] == digits;
    assert (t + x)[|t|..] == x;
  }

  lemma {:induction false} ReadDigits(n: nat, negative: bool, t: Bytes, x: Bytes)
    requires Ends(x) && (negative ==> n > 0) && t == if negative then [45] + Digits(n) else Digits(n)
    ensures ReadNumber(t + x) == Some((Int(if negative then 0 - n else n), x))
  {
    var digits := Digits(n);
    DigitsRead(n);
    MeasureDigits(n, negative);
    MeasureConcat(t, x);
    assert t[SignLength(t)..] == digits;
    IntegerFrom(t, digits, x);
  }

  /** A number is read back, integers and floating-point numbers apart. */
  lemma {:induction false} ReadInteger(n: int, x: Bytes)
    requires Ends(x)
    ensures ReadNumber(Dumps(Int(n)) + x) == Some((Int(n), x))
  {
    var t := Dumps(Int(n));
    if n < 0 {
      assert t == [45] + Digits(-n);
      ReadDigits(-n, true, t, x);
    } else {
      assert t == Digits(n);
      ReadDigits(n, false, t, x);
    }
  }

  lemma {:induction false} ReadDecimal(t: FloatText, x: Bytes)
    requires Ends(x) && IsDecimal(t)
    ensures ReadNumber(t + x) == Some((Float(t), x))
  {
    MeasureConcat(t, x);
    assert (t + x)[..|t|] == t && (t + x)[|t|..] == x;
  }

  lemma {:induction false} NotPrefix(word: Bytes, t: Bytes, i: nat)
    requires i < |word| && i < |t| && word[i] != t[i]
    ensures !(word <= t)
  {
  }

  /** A text that starts like a number. */
  predicate Numeric(t: Bytes) {
    t != [] && (IsDigit(t[0]) || (t[0] == 45 && |t| > 1 && IsDigit(t[1])))
  }

  lemma {:induction false} DecimalStarts(t: Bytes)
    requires Measure(t).integer > 0
    ensures Numeric(t)
  {
    var u := t[SignLength(t)..];
    assert u != [] && IsDigit(u[0]);
    assert t[SignLength(t)] == u[0];
  }

  lemma {:induction false} IntegerStarts(n: int)
    ensures Numeric(Dumps(Int(n)))
  {
    DigitsRead(if n < 0 then -n else n);
  }

  /** Numbers do not start like literal names. */
  lemma {:induction false} NumberIsNoName(t: Bytes)
    requires Numeric(t)
    ensures ReadWord(t) == ReadNumber(t)
  {
    NotPrefix(NULL, t, 0);
    NotPrefix(TRUE, t, 0);
    NotPrefix(FALSE, t, 0);
    NotPrefix(NAN, t, 0);
    NotPrefix(INFINITY, t, 0);
    NotPrefix(NEGATIVE, t, if t[0] == 45 then 1 else 0);
  }

  // -------------------------------------------------------------- strings, read back

  lemma {:induction false} HexRead(n: nat)
    requires n < 16
    ensures HexValue(HexDigit(n)) == Some(n)
  {
  }

  lemma {:induction false} UnitRead(unit: nat, x: Bytes)
    requires unit < 0x10000
    ensures Escape(unit) + x == [92, 117] + (Escape(unit)[2..] + x)
    ensures ReadUnit(Escape(unit)[2..] + x) == Some(unit) && (Escape(unit)[2..] + x)[4..] == x
  {
    var a := unit / 16;
    var b := a / 16;
    HexRead(b / 16);
    HexRead(b % 16);
    HexRead(a % 16);
    HexRead(unit % 16);
    var t := Escape(unit)[2..] + x;
    assert t[0] == HexDigit(b / 16) && t[1] == HexDigit(b % 16);
    assert t[2] == HexDigit(a % 16) && t[3] == HexDigit(unit % 16);
    assert unit == 16 * a + unit % 16 && a == 16 * b + a % 16 && b == 16 * (b / 16) + b % 16;
  }

  /** Scalar values are not surrogates. */
  predicate Scalar(n: int) { 0 <= n < 0xD800 || 0xE000 <= n < 0x110000 }

  lemma {:induction false} PairRead(n: nat)
    requires 0x10000 <= n < 0x110000
    ensures 0xD800 <= High(n) < 0xDC00 && 0xDC00 <= Low(n) < 0xE000
    ensures 0x10000 + 1024 * (High(n) - 0xD800) + (Low(n) - 0xDC00) == n
  {
    var m := n - 0x10000;
    assert m / 1024 < 1024 && m == 1024 * (m / 1024) + m % 1024;
  }

  lemma {:induction false} UnitsRead(c: char, x: Bytes)
    ensures ReadEscape(Units(c as int)[1..] + x) == Some((c, x))
  {
    var n := c as int;
    if n < 0x10000 {
      assert Units(n) == Escape(n);
      UnitRead(n, x);
      assert Units(n)[1..] + x == [117] + (Escape(n)[2..] + x);
    } else {
      PairRead(n);
      var more := Escape(Low(n)) + x;
      UnitRead(High(n), more);
      UnitRead(Low(n), x);
      var t := Escape(High(n))[2..] + more;
      assert Units(n)[1..] + x == [117] + t;
      assert t[4..] == more && t[4] == more[0] && t[5] == more[1] && t[6..] == more[2..];
      assert more[2..] == Escape(Low(n))[2..] + x;
      assert t[10..] == x;
    }
  }

  lemma {:induction false} CharacterRead(c: char, x: Bytes)
    ensures Quoted(c) != [] && Quoted(c)[0] != 34
    ensures ReadCharacter(Quoted(c) + x) == Some((c, x))
  {
    var n, q := c as int, Quoted(c);
    assert (q + x)[0] == q[0] && (q + x)[1..] == q[1..] + x;
    if |q| == 1 {
      assert q[1..] + x == x;
    } else if |q| == 2 {
      assert (q[1..] + x)[0] == q[1] && (q[1..] + x)[1..] == x;
    } else {
      UnitsRead(c, x);
    }
  }

  lemma {:induction false} StringStep(q: Bytes, rest: Bytes, c: char, s: string, x: Bytes)
    requires q != [] && q[0] != 34 && ReadCharacter(q + rest) == Some((c, rest)) && ReadString(rest) == Some((s, x))
    ensures ReadString(q + rest) == Some(([c] + s, x))
  {
  }

  /** A string is read back up to its closing quotation mark. */
  lemma {:induction false} StringRead(s: string, x: Bytes)
    ensures ReadString(Characters(s) + ([34] + x)) == Some((s, x))
  {
    if s == "" {
      assert Characters(s) + ([34] + x) == [34] + x && ([34] + x)[1..] == x;
    } else {
      var q, more, tail := Quoted(s[0]), Characters(s[1..]), [34] + x;
      Regroup(q, more, tail);
      CharacterRead(s[0], more + tail);
      StringRead(s[1..], x);
      StringStep(q, more + tail, s[0], s[1..], x);
      assert s == [s[0]] + s[1..];
    }
  }

  lemma {:induction false} Regroup(a: Bytes, b: Bytes, c: Bytes)
    ensures (a + b) + c == a + (b + c)
  {
  }

  // --------------------------------------------------------------- values, read back

  lemma {:induction false} SkipNone(t: Bytes)
    requires t != [] && !IsSpace(t[0])
    ensures Skip(t) == t
  {
  }

  lemma {:induction false} SpaceFirst(t: Bytes)
    ensures Skip([32] + t) == Skip(t) && Read([32] + t) == Read(t)
    ensures ReadItems([32] + t) == ReadItems(t) && ReadMembers([32] + t) == ReadMembers(t)
  {
    assert ([32] + t)[1..] == t;
  }

  /** What one more byte in front of some text makes of it. */
  lemma {:induction false} WordFirst(t: Bytes)
    requires t != [] && !IsSpace(t[0]) && t[0] != 34 && t[0] != 91 && t[0] != 123
    ensures Read(t) == ReadWord(t)
  {
  }

  lemma {:induction false} TextFirst(t: Bytes, s: string, x: Bytes)
    requires ReadString(t) == Some((s, x))
    ensures Read([34] + t) == Some((Text(s), x))
  {
    assert ([34] + t)[1..] == t;
  }

  lemma {:induction false} EmptyFirst(x: Bytes)
    ensures Read([91] + ([93] + x)) == Some((List([]), x)) && Read([123] + ([125] + x)) == Some((Object([]), x))
  {
    assert ([91] + ([93] + x))[1..] == [93] + x && ([93] + x)[1..] == x;
    assert ([123] + ([125] + x))[1..] == [125] + x && ([125] + x)[1..] == x;
  }

  /** A text that starts neither with whitespace nor with a closing bracket. */
  predicate Opens(t: Bytes) { t != [] && !IsSpace(t[0]) && t[0] != 93 && t[0] != 125 }

  lemma {:induction false} ListFirst(t: Bytes, items: seq<Value>, x: Bytes)
    requires Opens(t) && ReadItems(t) == Some((items, x))
    ensures Read([91] + t) == Some((List(items), x))
  {
    assert ([91] + t)[1..] == t;
  }

  lemma {:induction false} ObjectFirst(t: Bytes, members: seq<Entry>, x: Bytes)
    requires Opens(t) && ReadMembers(t) == Some((members, x))
    ensures Read([123] + t) == Some((Object(members), x))
  {
    assert ([123] + t)[1..] == t;
  }

  lemma {:induction false} LastItem(first: Bytes, v: Value, x: Bytes)
    requires Opens(first) && Read(first + ([93] + x)) == Some((v, [93] + x))
    ensures Opens(first + ([93] + x)) && ReadItems(first + ([93] + x)) == Some(([v], x))
  {
    assert ([93] + x)[1..] == x;
  }

  lemma {:induction false} MoreItems(first: Bytes, v: Value, u: Bytes, items: seq<Value>, x: Bytes)
    requires Opens(first) && ReadItems(u) == Some((items, x))
    requires Read(first + ([44] + ([32] + u))) == Some((v, [44] + ([32] + u)))
    ensures var t := first + ([44] + ([32] + u));
            Opens(t) && ReadItems(t) == Some(([v] + items, x))
  {
    assert ([44] + ([32] + u))[1..] == [32] + u;
    SpaceFirst(u);
  }

  lemma {:induction false} LastMember(t: Bytes, entry: Entry, x: Bytes)
    requires ReadMember(t) == Some((entry, [125] + x))
    ensures ReadMembers(t) == Some(([entry], x))
  {
    assert ([125] + x)[1..] == x;
  }

  lemma {:induction false} MoreMembers(t: Bytes, entry: Entry, u: Bytes, members: seq<Entry>, x: Bytes)
    requires ReadMember(t) == Some((entry, [44] + ([32] + u))) && ReadMembers(u) == Some((members, x))
    ensures ReadMembers(t) == Some(([entry] + members, x))
  {
    var w := [44] + ([32] + u);
    assert w[1..] == [32] + u;
    SkipNone(w);
    SpaceFirst(u);
  }

  lemma {:induction false} OneMember(key: string, name: Bytes, value: Bytes, v: Value, x: Bytes)
    requires ReadString(name) == Some((key, [58] + ([32] + value))) && Read(value) == Some((v, x))
    ensures ReadMember([34] + name) == Some((Entry(key, v), x))
  {
    var u, w := [34] + name, [58] + ([32] + value);
    assert u[1..] == name && w[1..] == [32] + value;
    SkipNone(u);
    SkipNone(w);
    SpaceFirst(value);
  }

  /** The text of a value does not start with whitespace or a closing bracket. */
  lemma {:induction false} DumpsStarts(v: Value)
    ensures Opens(Dumps(v))
  {
    match v
    case Int(n) => IntegerStarts(n);
    case Float(t) => FloatStarts(t);
    case _ =>
  }

  lemma {:induction false} FloatStarts(t: FloatText)
    ensures Opens(t)
  {
    if t != NAN && t != INFINITY && t != NEGATIVE {
      DecimalStarts(t);
    }
  }

  /** A word is read back. */
  lemma {:induction false} WordRead(word: Bytes, x: Bytes)
    requires word in {NULL, TRUE, FALSE, NAN, INFINITY, NEGATIVE}
    ensures Read(word + x) ==
              Some((if word == NULL then Null else if word == TRUE then Bool(true)
                    else if word == FALSE then Bool(false) else Float(word), x))
  {
    var t := word + x;
    assert t[..|word|] == word && t[|word|..] == x && t[0] == word[0];
    WordFirst(t);
  }

  lemma {:induction false} NumberRead(t: Bytes, v: Value, x: Bytes)
    requires Numeric(t) && ReadNumber(t + x) == Some((v, x))
    ensures Read(t + x) == Some((v, x))
  {
    var u := t + x;
    assert u[0] == t[0] && (|t| > 1 ==> u[1] == t[1]);
    NumberIsNoName(u);
    WordFirst(u);
  }

  /** Everything after the first item of a nonempty list. */
  lemma {:induction false} ItemsParts(items: seq<Value>, x: Bytes)
    requires items != []
    ensures |items| == 1 ==> DumpItems(items) + ([93] + x) == Dumps(items[0]) + ([93] + x)
    ensures |items| > 1 ==>
              DumpItems(items) + ([93] + x) ==
              Dumps(items[0]) + ([44] + ([32] + (DumpItems(items[1..]) + ([93] + x))))
  {
    var first, rest, tail := Dumps(items[0]), DumpItems(items[1..]), [93] + x;
    if |items| == 1 {
      assert rest == [] && DumpItems(items) == first;
    } else {
      CommaParts(first, rest, tail);
    }
  }

  lemma {:induction false} CommaParts(first: Bytes, rest: Bytes, tail: Bytes)
    ensures (first + COMMA + rest) + tail == first + ([44] + ([32] + (rest + tail)))
  {
    assert COMMA == [44] + [32];
  }

  lemma {:induction false} BracketParts(open: Byte, body: Bytes, close: Byte, x: Bytes)
    ensures ([open] + body + [close]) + x == [open] + (body + ([close] + x))
  {
  }

  lemma {:induction false} MemberParts(key: string, value: Bytes, after: Bytes)
    ensures (Literal(key) + COLON + value) + after ==
              [34] + (Characters(key) + ([34] + ([58] + ([32] + (value + after)))))
  {
    var name := Characters(key);
    BracketParts(34, name, 34, [58] + ([32] + (value + after)));
    ColonParts(Literal(key), value, after);
  }

  lemma {:induction false} ColonParts(name: Bytes, value: Bytes, after: Bytes)
    ensures (name + COLON + value) + after == name + ([58] + ([32] + (value + after)))
  {
    assert COLON == [58] + [32];
  }

  lemma {:induction false} MembersParts(members: seq<Entry>, x: Bytes)
    requires members != []
    ensures var first := Literal(members[0].key) + COLON + Dumps(members[0].value);
            && (|members| == 1 ==> DumpMembers(members) + ([125] + x) == first + ([125] + x))
            && (|members| > 1 ==>
                  DumpMembers(members) + ([125] + x) ==
                  first + ([44] + ([32] + (DumpMembers(members[1..]) + ([125] + x)))))
  {
    var first := Literal(members[0].key) + COLON + Dumps(members[0].value);
    var rest, tail := DumpMembers(members[1..]), [125] + x;
    if |members| == 1 {
      assert rest == [] && DumpMembers(members) == first;
    } else {
      CommaParts(first, rest, tail);
    }
  }

  /** Whatever `json.dumps` writes is read back, up to what follows it. */
  lemma {:induction false} ReadDumps(v: Value, x: Bytes)
    requires Ends(x)
    ensures Read(Dumps(v) + x) == Some((v, x))
    decreases v, 1
  {
    match v
    case Null => WordRead(NULL, x);
    case Bool(flag) => WordRead(if flag then TRUE else FALSE, x);
    case Int(n) =>
      IntegerStarts(n);
      ReadInteger(n, x);
      NumberRead(Dumps(v), v, x);
    case Float(repr) => FloatRead(repr, x);
    case Text(s) =>
      BracketParts(34, Characters(s), 34, x);
      StringRead(s, x);
      TextFirst(Characters(s) + ([34] + x), s, x);
    case List(items) =>
      BracketParts(91, DumpItems(items), 93, x);
      if items == [] {
        assert DumpItems(items) + ([93] + x) == [93] + x;
        EmptyFirst(x);
      } else {
        ItemsRead(items, x);
        ListFirst(DumpItems(items) + ([93] + x), items, x);
      }
    case Object(members) =>
      BracketParts(123, DumpMembers(members), 125, x);
      if members == [] {
        assert DumpMembers(members) + ([125] + x) == [125] + x;
        EmptyFirst(x);
      } else {
        MembersRead(members, x);
        ObjectFirst(DumpMembers(members) + ([125] + x), members, x);
      }
  }

  lemma {:induction false} FloatRead(t: FloatText, x: Bytes)
    requires Ends(x)
    ensures Read(t + x) == Some((Float(t), x))
  {
    if t == NAN || t == INFINITY || t == NEGATIVE {
      WordRead(t, x);
    } else {
      DecimalStarts(t);
      ReadDecimal(t, x);
      NumberRead(t, Float(t), x);
    }
  }

  lemma {:induction false} ItemsRead(items: seq<Value>, x: Bytes)
    requires items != [] && Ends(x)
    ensures var t := DumpItems(items) + ([93] + x);
            Opens(t) && ReadItems(t) == Some((items, x))
    decreases items, 0
  {
    var first := Dumps(items[0]);
    ItemsParts(items, x);
    DumpsStarts(items[0]);
    if |items| == 1 {
      ReadDumps(items[0], [93] + x);
      LastItem(first, items[0], x);
      assert items == [items[0]];
    } else {
      var rest := DumpItems(items[1..]) + ([93] + x);
      ReadDumps(items[0], [44] + ([32] + rest));
      ItemsRead(items[1..], x);
      MoreItems(first, items[0], rest, items[1..], x);
      assert items == [items[0]] + items[1..];
    }
  }

  lemma {:induction false} MemberRead(entry: Entry, after: Bytes)
    requires Read(Dumps(entry.value) + after) == Some((entry.value, after))
    ensures var t := (Literal(entry.key) + COLON + Dumps(entry.value)) + after;
            t != [] && t[0] == 34 && ReadMember(t) == Some((entry, after))
  {
    var value := Dumps(entry.value) + after;
    var rest := [58] + ([32] + value);
    MemberParts(entry.key, Dumps(entry.value), after);
    StringRead(entry.key, rest);
    OneMember(entry.key, Characters(entry.key) + ([34] + rest), value, entry.value, after);
  }

  lemma {:induction false} MembersRead(members: seq<Entry>, x: Bytes)
    requires members != [] && Ends(x)
    ensures Opens(DumpMembers(members) + ([125] + x))
    ensures ReadMembers(DumpMembers(members) + ([125] + x)) == Some((members, x))
    decreases members, 0
  {
    var entry, t := members[0], DumpMembers(members) + ([125] + x);
    MembersParts(members, x);
    if |members| == 1 {
      ReadDumps(entry.value, [125] + x);
      OnlyMember(entry, t, x);
      assert members == [entry];
    } else {
      var rest := DumpMembers(members[1..]) + ([125] + x);
      ReadDumps(entry.value, [44] + ([32] + rest));
      MembersRead(members[1..], x);
      NextMember(entry, t, rest, members[1..], x);
      assert members == [entry] + members[1..];
    }
  }

  lemma {:induction false} OnlyMember(entry: Entry, t: Bytes, x: Bytes)
    requires t == (Literal(entry.key) + COLON + Dumps(entry.value)) + ([125] + x)
    requires Read(Dumps(entry.value) + ([125] + x)) == Some((entry.value, [125] + x))
    ensures Opens(t) && ReadMembers(t) == Some(([entry], x))
  {
    MemberRead(entry, [125] + x);
    LastMember(t, entry, x);
  }

  lemma {:induction false} NextMember(entry: Entry, t: Bytes, rest: Bytes, members: seq<Entry>, x: Bytes)
    requires t == (Literal(entry.key) + COLON + Dumps(entry.value)) + ([44] + ([32] + rest))
    requires Read(Dumps(entry.value) + ([44] + ([32] + rest))) == Some((entry.value, [44] + ([32] + rest)))
    requires ReadMembers(rest) == Some((members, x))
    ensures Opens(t) && ReadMembers(t) == Some(([entry] + members, x))
  {
    MemberRead(entry, [44] + ([32] + rest));
    MoreMembers(t, entry, rest, members, x);
  }

  /** JSON text is uniquely readable: two values whose texts agree up to what follows them are the
      same value. */
  lemma {:induction false} Unique(v: Value, w: Value, x: Bytes, y: Bytes)
    requires Dumps(v) + x == Dumps(w) + y && Ends(x) && Ends(y)
    ensures v == w && x == y
  {
    ReadDumps(v, x);
    ReadDumps(w, y);
  }
}
