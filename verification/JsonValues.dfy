/**
 * Parsed JSON values as text and back: what json.dumps and json.loads do with them.  An object
 * is written with its keys in some fixed order; how a float is written is a parameter.
 */
module JsonValues {
  import opened Results
  import opened Json
  import opened Texts
  import JsonText

  // ---------------------------------------------------------------- integers

  function IntText(n: int): string {
    if n < 0 then ['-'] + Decimal(-n) else Decimal(n)
  }

  function DigitValue(c: char): Option<nat> {
    if '0' <= c <= '9' then Some(c as int - '0' as int) else None
  }

  function NatOf(s: string): Option<nat> {
    if s == "" then None
    else
      var last, front := DigitValue(s[|s| - 1]), if |s| == 1 then Some(0) else NatOf(s[..|s| - 1]);
      if last.None? || front.None? then None else Some(10 * front.value + last.value)
  }

  function IntOf(s: string): Option<int> {
    var negative := s != "" && s[0] == '-';
    var n := NatOf(if negative then s[1..] else s);
    if n.None? then None
    else
      var size: int := n.value;
      Some(if negative then 0 - size else size)
  }

  lemma {:induction false} DigitIsRead(d: nat)
    requires d < 10
    ensures DigitValue(Digit(d)) == Some(d)
  {
    var digits := "0123456789";
    assert digits[0] == '0' && digits[1] == '1' && digits[2] == '2' && digits[3] == '3' && digits[4] == '4';
    assert digits[5] == '5' && digits[6] == '6' && digits[7] == '7' && digits[8] == '8' && digits[9] == '9';
  }

  lemma {:induction false} DecimalIsRead(n: nat)
    ensures NatOf(Decimal(n)) == Some(n)
    ensures forall i :: 0 <= i < |Decimal(n)| ==> DigitValue(Decimal(n)[i]).Some?
    decreases n
  {
    var s := Decimal(n);
    DigitIsRead(n % 10);
    if n >= 10 {
      DecimalIsRead(n / 10);
      assert s[..|s| - 1] == Decimal(n / 10) && s[|s| - 1] == Digit(n % 10);
    }
  }

  lemma {:induction false} IntIsRead(n: int)
    ensures IntOf(IntText(n)) == Some(n) && JsonText.Plain(JsonText.Number(IntText(n))) && !Fractional(IntText(n))
  {
    var size: nat := if n < 0 then -n else n;
    DecimalIsRead(size);
    if n < 0 {
      MinusIsRead(Decimal(size), size);
    } else {
      DigitsAreRead(Decimal(size), size);
    }
  }

  lemma {:induction false} DigitsAreRead(digits: string, n: nat)
    requires NatOf(digits) == Some(n) && forall i :: 0 <= i < |digits| ==> DigitValue(digits[i]).Some?
    ensures IntOf(digits) == Some(n as int) && JsonText.Plain(JsonText.Number(digits)) && !Fractional(digits)
  {
    assert DigitValue(digits[0]).Some?;
  }

  lemma {:induction false} MinusIsRead(digits: string, n: nat)
    requires NatOf(digits) == Some(n) && forall i :: 0 <= i < |digits| ==> DigitValue(digits[i]).Some?
    ensures var text := ['-'] + digits;
            IntOf(text) == Some(0 - n) && JsonText.Plain(JsonText.Number(text)) && !Fractional(text)
  {
    assert JsonText.IsNumberChar('-');
    assert (['-'] + digits)[1..] == digits;
  }

  // ---------------------------------------------------------------- fractional numbers

  // How Python's repr writes a float and how float() reads it.
  datatype Floats = Floats(write: real -> string, read: string -> Option<real>)

  // A number text with a point or an exponent is read as a float, any other as an integer.
  predicate Fractional(text: string) {
    exists i :: 0 <= i < |text| && text[i] in ".eE"
  }

  // Reading what is written for this float gives it back.
  predicate Exact(x: real, floats: Floats) {
    var text := floats.write(x);
    floats.read(text) == Some(x) && JsonText.Plain(JsonText.Number(text)) && Fractional(text)
  }

  function NumberOf(text: string, floats: Floats): Option<Value> {
    if Fractional(text) then
      var x := floats.read(text);
      if x.None? then None else Some(Float(x.value))
    else
      var n := IntOf(text);
      if n.None? then None else Some(Int(n.value))
  }

  // ---------------------------------------------------------------- values and documents

  // Some fixed order of the keys.
  ghost function KeyOrder(keys: set<string>): (ks: seq<string>)
    ensures forall k :: k in ks <==> k in keys
    ensures forall i, j :: 0 <= i < j < |ks| ==> ks[i] != ks[j]
  {
    if keys == {} then []
    else
      var k :| k in keys;
      [k] + KeyOrder(keys - {k})
  }

  predicate Writable(v: Value, floats: Floats)
    decreases v
  {
    match v
    case Float(x) => Exact(x, floats)
    case List(items) => forall i :: 0 <= i < |items| ==> Writable(items[i], floats)
    case Obj(fields) => forall k :: k in fields ==> Writable(fields[k], floats)
    case _ => true
  }

  ghost function ToDocument(v: Value, floats: Floats): JsonText.Document
    requires Writable(v, floats)
    decreases v
  {
    match v
    case Null => JsonText.Nothing
    case Bool(b) => JsonText.Flag(b)
    case Int(n) => JsonText.Number(IntText(n))
    case Float(x) => JsonText.Number(floats.write(x))
    case Str(s) => JsonText.Text(s)
    case List(items) => JsonText.List(seq(|items|, i requires 0 <= i < |items| => ToDocument(items[i], floats)))
    case Obj(fields) =>
      var keys := KeyOrder(fields.Keys);
      JsonText.Object(seq(|keys|, i requires 0 <= i < |keys| => assert keys[i] in fields; (keys[i], ToDocument(fields[keys[i]], floats))))
  }

  function FromDocument(d: JsonText.Document, floats: Floats): Option<Value>
    decreases d, 1, 0
  {
    match d
    case Nothing => Some(Null)
    case Flag(b) => Some(Bool(b))
    case Number(text) => NumberOf(text, floats)
    case Text(s) => Some(Str(s))
    case List(_) => var items := FromItems(d, 0, floats); if items.None? then None else Some(List(items.value))
    case Object(_) => var fields := FromMembers(d, |d.members|, floats); if fields.None? then None else Some(Obj(fields.value))
  }

  function FromItems(d: JsonText.Document, i: nat, floats: Floats): Option<seq<Value>>
    requires d.List? && i <= |d.items|
    decreases d, 0, |d.items| - i
  {
    if i == |d.items| then Some([])
    else
      var head, tail := FromDocument(d.items[i], floats), FromItems(d, i + 1, floats);
      if head.None? || tail.None? then None else Some([head.value] + tail.value)
  }

  // The first n members; of a repeated key the last value counts.
  function FromMembers(d: JsonText.Document, n: nat, floats: Floats): Option<map<string, Value>>
    requires d.Object? && n <= |d.members|
    decreases d, 0, n
  {
    if n == 0 then Some(map[])
    else
      var front, last := FromMembers(d, n - 1, floats), FromDocument(d.members[n - 1].1, floats);
      if front.None? || last.None? then None else Some(front.value[d.members[n - 1].0 := last.value])
  }

  lemma {:induction false} ItemsComeBack(v: Value, i: nat, floats: Floats)
    requires v.List? && Writable(v, floats) && i <= |v.items|
    requires forall k :: 0 <= k < |v.items| ==> FromDocument(ToDocument(v.items[k], floats), floats) == Some(v.items[k])
    ensures FromItems(ToDocument(v, floats), i, floats) == Some(v.items[i..])
    decreases |v.items| - i
  {
    if i == |v.items| {
      assert v.items[i..] == [];
    } else {
      ItemsComeBack(v, i + 1, floats);
      assert ToDocument(v, floats).items[i] == ToDocument(v.items[i], floats);
      assert v.items[i..] == [v.items[i]] + v.items[i + 1..];
    }
  }

  // The part of an object that stands under the first n keys.
  ghost function Part(fields: map<string, Value>, n: nat): map<string, Value>
    requires n <= |KeyOrder(fields.Keys)|
  {
    map k | k in fields && k in KeyOrder(fields.Keys)[..n] :: fields[k]
  }

  lemma {:induction false} PartGrows(fields: map<string, Value>, n: nat)
    requires n < |KeyOrder(fields.Keys)|
    ensures KeyOrder(fields.Keys)[n] in fields
    ensures Part(fields, n + 1) == Part(fields, n)[KeyOrder(fields.Keys)[n] := fields[KeyOrder(fields.Keys)[n]]]
  {
    var keys := KeyOrder(fields.Keys);
    assert keys[..n + 1] == keys[..n] + [keys[n]] && keys[n] in keys;
  }

  lemma {:induction false} MembersComeBack(v: Value, n: nat, floats: Floats)
    requires v.Obj? && Writable(v, floats) && n <= |KeyOrder(v.fields.Keys)|
    requires forall k :: k in v.fields ==> FromDocument(ToDocument(v.fields[k], floats), floats) == Some(v.fields[k])
    ensures FromMembers(ToDocument(v, floats), n, floats) == Some(Part(v.fields, n))
    decreases n
  {
    if n == 0 {
      assert Part(v.fields, 0) == map[];
    } else {
      MembersComeBack(v, n - 1, floats);
      PartGrows(v.fields, n - 1);
    }
  }

  lemma {:induction false} WholePart(fields: map<string, Value>)
    ensures Part(fields, |KeyOrder(fields.Keys)|) == fields
  {
    var keys := KeyOrder(fields.Keys);
    assert keys[..|keys|] == keys;
  }

  /** A value comes back from its document. */
  lemma {:induction false} ValueComesBack(v: Value, floats: Floats)
    requires Writable(v, floats)
    ensures FromDocument(ToDocument(v, floats), floats) == Some(v) && JsonText.Plain(ToDocument(v, floats))
    decreases v
  {
    match v
    case Int(n) => IntIsRead(n);
    case List(items) =>
      forall i | 0 <= i < |items|
        ensures FromDocument(ToDocument(items[i], floats), floats) == Some(items[i]) && JsonText.Plain(ToDocument(items[i], floats))
      {
        ValueComesBack(items[i], floats);
      }
      ItemsComeBack(v, 0, floats);
      assert items[0..] == items;
    case Obj(fields) =>
      forall k | k in fields
        ensures FromDocument(ToDocument(fields[k], floats), floats) == Some(fields[k]) && JsonText.Plain(ToDocument(fields[k], floats))
      {
        ValueComesBack(fields[k], floats);
      }
      MembersComeBack(v, |KeyOrder(fields.Keys)|, floats);
      WholePart(fields);
      MembersArePlain(v, floats);
    case _ =>
  }

  lemma {:induction false} MembersArePlain(v: Value, floats: Floats)
    requires v.Obj? && Writable(v, floats) && forall k :: k in v.fields ==> JsonText.Plain(ToDocument(v.fields[k], floats))
    ensures JsonText.Plain(ToDocument(v, floats))
  {
    var keys := KeyOrder(v.fields.Keys);
    forall i | 0 <= i < |keys|
      ensures JsonText.Plain(ToDocument(v, floats).members[i].1)
    {
      assert keys[i] in keys;
    }
  }

  // ---------------------------------------------------------------- text

  ghost function Write(v: Value, floats: Floats): string {
    if Writable(v, floats) then JsonText.Dumps(ToDocument(v, floats)) else ""
  }

  function Parse(s: string, floats: Floats): Option<Value> {
    var d := JsonText.Loads(s);
    if d.None? then None else FromDocument(d.value, floats)
  }

  ghost function Writer(floats: Floats): Value -> string {
    v => Write(v, floats)
  }

  function Parser(floats: Floats): string -> Option<Value> {
    s => Parse(s, floats)
  }

  /** Parsing inverts writing. */
  lemma {:induction false} ParseInvertsWrite(v: Value, floats: Floats)
    requires Writable(v, floats)
    ensures Parse(Write(v, floats), floats) == Some(v)
  {
    ValueComesBack(v, floats);
    JsonText.LoadsInvertsDumps(ToDocument(v, floats));
  }
}
