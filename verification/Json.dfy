/** The manifest printer and a reader for what it prints: the grammar of RFC 8259, sections 2,
    6 and 7. */
module Json {
  import opened Basics
  import opened Texts

  /** A number by its sign, its shortest decimal digits and where they stand: digits * 10^scale. */
  datatype Numeral = NotFinite | Finite(negative: bool, digits: nat, scale: int)

  /** The digits end in no zero; zero has scale 0, and a sign. */
  predicate Shortest(x: Numeral) {
    x.Finite? ==> if x.digits == 0 then x.scale == 0 else x.digits % 10 != 0
  }

  type Number = x: Numeral | Shortest(x) witness NotFinite

  datatype Json =
    | Undefined
    | Null
    | Bool(b: bool)
    | Num(x: Number)
    | Str(s: Text)
    | Arr(items: seq<Json>)
    | Obj(members: seq<Member>)

  datatype Member = Member(key: Text, value: Json)

  const UNDEFINED_TEXT: Text := [117, 110, 100, 101, 102, 105, 110, 101, 100]
  const NULL_TEXT: Text := [110, 117, 108, 108]
  const TRUE_TEXT: Text := [116, 114, 117, 101]
  const FALSE_TEXT: Text := [102, 97, 108, 115, 101]

  const TAB: Unit := 9
  const NEWLINE: Unit := 10
  const SPACE: Unit := 32
  const COMMA: Unit := 44
  const COLON: Unit := 58
  const PLUS: Unit := 43
  const MINUS: Unit := 45
  const POINT: Unit := 46
  const ZERO: Unit := 48
  const SMALL_E: Unit := 101
  const OPEN_LIST: Unit := 91
  const CLOSE_LIST: Unit := 93
  const OPEN_OBJECT: Unit := 123
  const CLOSE_OBJECT: Unit := 125

  const PRINT_WIDTH := 80
  const TAB_WIDTH := 2

  /* Printing. */

  predicate IsDigit(u: Unit) {
    48 <= u <= 57
  }

  function Digits(n: nat): (t: Text)
    ensures t != [] && (forall i :: 0 <= i < |t| ==> IsDigit(t[i]))
    ensures |t| > 1 ==> t[0] != 48
  {
    if n < 10 then [48 + n] else Digits(n / 10) + [48 + n % 10]
  }

  function Zeros(n: nat): (t: Text)
    ensures |t| == n && forall i :: 0 <= i < n ==> t[i] == ZERO
  {
    if n == 0 then [] else [ZERO] + Zeros(n - 1)
  }

  function Power(e: int): Text {
    [SMALL_E] + if e < 0 then [MINUS] + Digits(-e) else [PLUS] + Digits(e)
  }

  /** The decimal text of s * 10^scale (Number::toString, section 6.1.6.1.20 of ECMA-262). */
  function Magnitude(s: nat, scale: int): Text {
    var d := Digits(s);
    var k := |d|;
    var n := k + scale;
    if n < -5 || n > 21 then
      (if k == 1 then d else d[..1] + ([POINT] + d[1..])) + Power(n - 1)
    else if n >= k then d + Zeros(n - k)
    else if n > 0 then d[..n] + [POINT] + d[n..]
    else [ZERO, POINT] + Zeros(-n) + d
  }

  /** JSON.stringify of a number. */
  function NumberText(x: Number): Text {
    match x
    case NotFinite => NULL_TEXT
    case Finite(negative, s, scale) =>
      if s == 0 then [ZERO] else if negative then [MINUS] + Magnitude(s, scale) else Magnitude(s, scale)
  }

  predicate Primitive(v: Json) {
    !v.Arr? && !v.Obj?
  }

  /** JSON.stringify of a primitive, as a template shows it. */
  function Stringify(v: Json): Text
    requires Primitive(v)
  {
    match v
    case Undefined => UNDEFINED_TEXT
    case Null => NULL_TEXT
    case Bool(b) => if b then TRUE_TEXT else FALSE_TEXT
    case Num(x) => NumberText(x)
    case Str(s) => Quoted(s)
  }

  function Join(separator: Text, parts: seq<Text>): Text {
    if parts == [] then []
    else if |parts| == 1 then parts[0]
    else parts[0] + separator + Join(separator, parts[1..])
  }

  function Tabs(n: nat): (t: Text)
    ensures |t| == n && forall i :: 0 <= i < n ==> t[i] == TAB
  {
    if n == 0 then [] else [TAB] + Tabs(n - 1)
  }

  function Indented(indent: Text, parts: seq<Text>): seq<Text> {
    Map((t: Text) => indent + t, parts)
  }

  /** Between the brackets of a list or an object that breaks. */
  function Broken(parts: seq<Text>, depth: nat): Text {
    [NEWLINE] + Join([COMMA, NEWLINE], Indented(Tabs(depth + 1), parts)) + [NEWLINE] + Tabs(depth)
  }

  predicate AllPrimitive(items: seq<Json>) {
    forall v :: v in items ==> Primitive(v)
  }

  /** The texts a join puts between commas: nothing for an undefined item. */
  function StringifyAll(items: seq<Json>): seq<Text>
    requires AllPrimitive(items)
  {
    if items == [] then []
    else [if items[0].Undefined? then [] else Stringify(items[0])] + StringifyAll(items[1..])
  }

  function Inline(items: seq<Json>): Text
    requires AllPrimitive(items)
  {
    [OPEN_LIST] + Join([COMMA, SPACE], StringifyAll(items)) + [CLOSE_LIST]
  }

  /** The prefix a member's value is printed after. */
  function Prefix(key: Text): Text {
    Quoted(key) + [COLON, SPACE]
  }

  function Print(v: Json, depth: nat, width: nat): Text
    decreases v, 0
  {
    match v
    case Arr(items) =>
      if items == [] then [OPEN_LIST, CLOSE_LIST]
      else if AllPrimitive(items) && depth * TAB_WIDTH + width + |Inline(items)| + 1 <= PRINT_WIDTH then Inline(items)
      else [OPEN_LIST] + Broken(PrintItems(items, depth + 1), depth) + [CLOSE_LIST]
    case Obj(members) =>
      var parts := PrintMembers(members, depth + 1);
      if parts == [] then [OPEN_OBJECT, CLOSE_OBJECT]
      else [OPEN_OBJECT] + Broken(parts, depth) + [CLOSE_OBJECT]
    case _ => Stringify(v)
  }

  function PrintItems(items: seq<Json>, depth: nat): (parts: seq<Text>)
    ensures |parts| == |items|
    decreases items, 1
  {
    if items == [] then [] else [Print(items[0], depth, 0)] + PrintItems(items[1..], depth)
  }

  /** The members that are not undefined. */
  function PrintMembers(members: seq<Member>, depth: nat): seq<Text>
    decreases members, 1
  {
    if members == [] then []
    else if members[0].value.Undefined? then PrintMembers(members[1..], depth)
    else
      [Prefix(members[0].key) + Print(members[0].value, depth, |Prefix(members[0].key)|)]
      + PrintMembers(members[1..], depth)
  }

  /** A whole file. */
  function PrintFile(v: Json): Text {
    Print(v, 0, 0) + [NEWLINE]
  }

  /* Reading. */

  predicate White(u: Unit) {
    u == SPACE || u == TAB || u == NEWLINE || u == 13
  }

  function Skip(t: Text): (r: Text)
    ensures |r| <= |t|
    ensures r != [] ==> !White(r[0])
  {
    if t != [] && White(t[0]) then Skip(t[1..]) else t
  }

  function DigitRun(t: Text): (n: nat)
    ensures n <= |t| && (forall i :: 0 <= i < n ==> IsDigit(t[i]))
    ensures n < |t| ==> !IsDigit(t[n])
  {
    if t != [] && IsDigit(t[0]) then 1 + DigitRun(t[1..]) else 0
  }

  function Decimal(digits: Text): nat
    requires forall i :: 0 <= i < |digits| ==> IsDigit(digits[i])
  {
    if digits == [] then 0
    else
      var n := |digits| - 1;
      assert IsDigit(digits[n]);
      Decimal(digits[..n]) * 10 + (digits[n] as int - 48)
  }

  predicate GoesOnAsNumber(t: Text) {
    t != [] && (IsDigit(t[0]) || t[0] == POINT || t[0] == 69 || t[0] == SMALL_E)
  }

  /** A value's digits without the zeros at their end. */
  function Reduced(s: nat, scale: int): (r: (nat, int))
    ensures Shortest(Finite(false, r.0, r.1))
  {
    if s == 0 then (0, 0) else if s % 10 == 0 then Reduced(s / 10, scale + 1) else (s, scale)
  }

  /** One digit or more. */
  function ReadDigits(t: Text): (r: Option<(Text, Text)>)
    ensures r.Some? ==> |r.value.1| < |t| && forall i :: 0 <= i < |r.value.0| ==> IsDigit(r.value.0[i])
  {
    var n := DigitRun(t);
    if n == 0 then None else Some((t[..n], t[n..]))
  }

  function ReadFraction(t: Text): (r: Option<(Text, Text)>)
    ensures r.Some? ==> |r.value.1| <= |t| && forall i :: 0 <= i < |r.value.0| ==> IsDigit(r.value.0[i])
  {
    if t != [] && t[0] == POINT then ReadDigits(t[1..]) else Some(([], t))
  }

  function ReadExponent(t: Text): (r: Option<(int, Text)>)
    ensures r.Some? ==> |r.value.1| <= |t|
  {
    if t == [] || (t[0] != 69 && t[0] != SMALL_E) then Some((0, t))
    else
      var signed := |t| > 1 && (t[1] == PLUS || t[1] == MINUS);
      match ReadDigits(t[if signed then 2 else 1..])
      case None => None
      case Some((digits, rest)) =>
        var n := Decimal(digits);
        Some((if t[1] == MINUS then 0 - n else n, rest))
  }

  /** A number without its sign: digits without leading zeros, then a fraction and an exponent. */
  function ReadMagnitude(t: Text): (r: Option<((nat, int), Text)>)
    ensures r.Some? ==> |r.value.1| < |t| && Shortest(Finite(false, r.value.0.0, r.value.0.1))
  {
    var n := DigitRun(t);
    if n == 0 || (n > 1 && t[0] == ZERO) then None
    else
      match ReadFraction(t[n..])
      case None => None
      case Some((fraction, w)) =>
        match ReadExponent(w)
        case None => None
        case Some((e, rest)) => Some((Reduced(Decimal(t[..n] + fraction), e - |fraction|), rest))
  }

  function ReadWord(word: Text, v: Json, t: Text): (r: Option<(Json, Text)>)
    requires word != []
    ensures r.Some? ==> |r.value.1| < |t|
  {
    if word <= t then Some((v, t[|word|..])) else None
  }

  function ReadPrimitive(t: Text): (r: Option<(Json, Text)>)
    ensures r.Some? ==> |r.value.1| < |t|
  {
    if t == [] then None
    else if t[0] == QUOTE then
      match ReadCharacters(t[1..]) case None => None case Some((s, rest)) => Some((Str(s), rest))
    else if t[0] == MINUS then
      match ReadMagnitude(t[1..])
      case None => None
      case Some((x, rest)) => Some((Num(Finite(true, x.0, x.1)), rest))
    else if IsDigit(t[0]) then
      match ReadMagnitude(t)
      case None => None
      case Some((x, rest)) => Some((Num(Finite(false, x.0, x.1)), rest))
    else if t[0] == 110 then ReadWord(NULL_TEXT, Null, t)
    else if t[0] == 116 then ReadWord(TRUE_TEXT, Bool(true), t)
    else ReadWord(FALSE_TEXT, Bool(false), t)
  }

  /** A value and what follows it. */
  function Read(t: Text): (r: Option<(Json, Text)>)
    ensures r.Some? ==> |r.value.1| < |t|
    decreases |t|, 0
  {
    var u := Skip(t);
    if u == [] then None
    else if u[0] == OPEN_LIST then
      var inside := Skip(u[1..]);
      if inside != [] && inside[0] == CLOSE_LIST then Some((Arr([]), inside[1..]))
      else
        match ReadItems(u[1..]) case None => None case Some((items, rest)) => Some((Arr(items), rest))
    else if u[0] == OPEN_OBJECT then
      var inside := Skip(u[1..]);
      if inside != [] && inside[0] == CLOSE_OBJECT then Some((Obj([]), inside[1..]))
      else
        match ReadMembers(u[1..]) case None => None case Some((members, rest)) => Some((Obj(members), rest))
    else ReadPrimitive(u)
  }

  /** The items of a list that is not empty, up to and with its closing bracket. */
  function ReadItems(t: Text): (r: Option<(seq<Json>, Text)>)
    ensures r.Some? ==> |r.value.1| < |t|
    decreases |t|, 1
  {
    match Read(t)
    case None => None
    case Some((v, after)) =>
      var u := Skip(after);
      if u == [] then None
      else if u[0] == CLOSE_LIST then Some(([v], u[1..]))
      else if u[0] == COMMA then
        match ReadItems(u[1..]) case None => None case Some((items, rest)) => Some(([v] + items, rest))
      else None
  }

  function ReadMember(t: Text): (r: Option<(Member, Text)>)
    ensures r.Some? ==> |r.value.1| < |t|
    decreases |t|, 1
  {
    var u := Skip(t);
    if u == [] || u[0] != QUOTE then None
    else
      match ReadCharacters(u[1..])
      case None => None
      case Some((key, after)) =>
        var w := Skip(after);
        if w == [] || w[0] != COLON then None
        else
          match Read(w[1..]) case None => None case Some((v, rest)) => Some((Member(key, v), rest))
  }

  /** The members of an object that is not empty, up to and with its closing brace. */
  function ReadMembers(t: Text): (r: Option<(seq<Member>, Text)>)
    ensures r.Some? ==> |r.value.1| < |t|
    decreases |t|, 2
  {
    match ReadMember(t)
    case None => None
    case Some((m, after)) =>
      var u := Skip(after);
      if u == [] then None
      else if u[0] == CLOSE_OBJECT then Some(([m], u[1..]))
      else if u[0] == COMMA then
        match ReadMembers(u[1..]) case None => None case Some((members, rest)) => Some(([m] + members, rest))
      else None
  }

  /** A text that is one value and white space. */
  function ReadFile(t: Text): Option<Json> {
    match Read(t)
    case None => None
    case Some((v, rest)) => if Skip(rest) == [] then Some(v) else None
  }

  /* What printing keeps. */

  /** The value without its undefined members; a number that is not finite is null, and zero has
      no sign. */
  function Kept(v: Json): Json
    decreases v, 0
  {
    match v
    case Num(NotFinite) => Null
    case Num(Finite(true, 0, _)) => Num(Finite(false, 0, 0))
    case Arr(items) => Arr(KeptItems(items))
    case Obj(members) => Obj(KeptMembers(members))
    case _ => v
  }

  function KeptItems(items: seq<Json>): seq<Json>
    decreases items, 1
  {
    if items == [] then [] else [Kept(items[0])] + KeptItems(items[1..])
  }

  function KeptMembers(members: seq<Member>): seq<Member>
    decreases members, 1
  {
    if members == [] then []
    else if members[0].value.Undefined? then KeptMembers(members[1..])
    else [Member(members[0].key, Kept(members[0].value))] + KeptMembers(members[1..])
  }

  /** Undefined is found nowhere but as the value of a member. */
  predicate Defined(v: Json)
    decreases v, 0
  {
    match v
    case Undefined => false
    case Arr(items) => DefinedItems(items)
    case Obj(members) => DefinedMembers(members)
    case _ => true
  }

  predicate DefinedItems(items: seq<Json>)
    decreases items, 1
  {
    items == [] || (Defined(items[0]) && DefinedItems(items[1..]))
  }

  predicate DefinedMembers(members: seq<Member>)
    decreases members, 1
  {
    members == [] || ((members[0].value.Undefined? || Defined(members[0].value)) && DefinedMembers(members[1..]))
  }
}
