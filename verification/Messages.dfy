/**
 * Trees of protobuf fields, their encoding with lengths of fixed width, and a decoder that is told by a schema
 * what each field number holds, as in the Protocol Buffers Encoding guide, section "Message Structure".
 */
module Messages {
  import opened Options
  import opened Varints

  const TWO32: nat := 0x1_0000_0000
  const TWO64: nat := 0x1_0000_0000_0000_0000

  type Width = n: nat | n >= 1 witness 2

  /** `width` is the number of bytes reserved for the length of a sub-message. */
  datatype Field =
    | UInt64(id: nat, number: nat)
    | Int64(id: nat, value: int)
    | Fixed64(id: nat, number: nat)
    | UInt32(id: nat, number: nat)
    | Int32(id: nat, value: int)
    | Text(id: nat, chars: seq<Byte>)
    | Sub(id: nat, width: Width, body: Message)

  datatype Message = End | More(head: Field, tail: Message)

  // ----- Encoding -----

  /** The field number shifted by three bits in 32-bit arithmetic, and the wire type. */
  function Key(id: nat, wireType: nat): nat {
    (id * 8) % TWO32 + wireType
  }

  function Delimited(chars: seq<Byte>): seq<Byte> {
    Varint(|chars| % TWO32) + chars
  }

  function EncodeValue(f: Field): seq<Byte>
    decreases f, 0
  {
    match f
    case UInt64(_, n) => Varint(n)
    case Int64(_, v) => Varint(v % TWO64)
    case Fixed64(_, n) => Fixed(n, 8)
    case UInt32(_, n) => Varint(n)
    case Int32(_, v) => Varint(v % TWO32)
    case Text(_, chars) => Delimited(chars)
    case Sub(_, width, body) => Redundant(|Encode(body)| % TWO32, width) + Encode(body)
  }

  function FieldType(f: Field): (w: nat)
    ensures w <= 2
  {
    if f.Fixed64? then 1 else if f.Text? || f.Sub? then 2 else 0
  }

  function EncodeField(f: Field): seq<Byte>
    decreases f, 1
  {
    Varint(Key(f.id, FieldType(f))) + EncodeValue(f)
  }

  function Encode(m: Message): seq<Byte>
    decreases m, 0
  {
    match m
    case End => []
    case More(head, tail) => EncodeField(head) + Encode(tail)
  }

  // ----- Decoding -----

  datatype Kind = UInt64Kind | Int64Kind | Fixed64Kind | UInt32Kind | Int32Kind | TextKind | SubKind(schema: Schema)

  datatype Schema = NoFields | WithField(id: nat, kind: Kind, others: Schema)

  function Lookup(schema: Schema, id: nat): Option<Kind> {
    match schema
    case NoFields => None
    case WithField(i, kind, others) => if i == id then Some(kind) else Lookup(others, id)
  }

  function KindType(kind: Kind): nat {
    if kind.Fixed64Kind? then 1 else if kind.TextKind? || kind.SubKind? then 2 else 0
  }

  function Signed(u: nat, modulus: nat): int {
    if u < modulus / 2 then u else u - modulus
  }

  datatype Parsed = Parsed(field: Field, rest: seq<Byte>)

  function ParseScalar(kind: Kind, id: nat, s: seq<Byte>): (r: Option<Parsed>)
    requires !kind.SubKind?
    ensures r.Some? ==> |r.value.rest| < |s|
  {
    match if kind.Fixed64Kind? then ReadFixed(s, 8) else ReadVarint(s)
    case None => None
    case Some(Read(u, rest)) =>
      if |rest| >= |s| then None
      else match kind
           case UInt64Kind => Some(Parsed(UInt64(id, u % TWO64), rest))
           case Int64Kind => Some(Parsed(Int64(id, Signed(u % TWO64, TWO64)), rest))
           case Fixed64Kind => Some(Parsed(Fixed64(id, u), rest))
           case UInt32Kind => Some(Parsed(UInt32(id, u % TWO32), rest))
           case Int32Kind => Some(Parsed(Int32(id, Signed(u % TWO32, TWO32)), rest))
           case TextKind => if u <= |rest| then Some(Parsed(Text(id, rest[..u]), rest[u..])) else None
  }

  function ParseField(schema: Schema, s: seq<Byte>): (r: Option<Parsed>)
    ensures r.Some? ==> |r.value.rest| < |s|
    decreases |s|, 0
  {
    match ReadVarint(s)
    case None => None
    case Some(Read(key, t)) =>
      match Lookup(schema, key / 8)
      case None => None
      case Some(kind) =>
        if key % 8 != KindType(kind) then None
        else if kind.SubKind? then ParseSub(kind.schema, key / 8, t)
        else ParseScalar(kind, key / 8, t)
  }

  function ParseSub(schema: Schema, id: nat, s: seq<Byte>): (r: Option<Parsed>)
    ensures r.Some? ==> |r.value.rest| < |s|
    decreases |s|, 0
  {
    match ReadVarint(s)
    case None => None
    case Some(Read(size, rest)) =>
      if size > |rest| then None
      else
        match Parse(schema, rest[..size])
        case None => None
        case Some(body) => Some(Parsed(Sub(id, |s| - |rest|, body), rest[size..]))
  }

  function Parse(schema: Schema, s: seq<Byte>): Option<Message>
    decreases |s|, 1
  {
    if s == [] then Some(End)
    else
      match ParseField(schema, s)
      case None => None
      case Some(Parsed(head, rest)) =>
        match Parse(schema, rest)
        case None => None
        case Some(tail) => Some(More(head, tail))
  }

  // ----- The round trip -----

  predicate IsKind(f: Field, kind: Kind) {
    match f
    case UInt64(_, _) => kind.UInt64Kind?
    case Int64(_, _) => kind.Int64Kind?
    case Fixed64(_, _) => kind.Fixed64Kind?
    case UInt32(_, _) => kind.UInt32Kind?
    case Int32(_, _) => kind.Int32Kind?
    case Text(_, _) => kind.TextKind?
    case Sub(_, _, body) => kind.SubKind? && Follows(body, kind.schema)
  }

  /** Every field is in the schema and of the kind the schema gives. */
  predicate Follows(m: Message, schema: Schema) {
    match m
    case End => true
    case More(head, tail) =>
      Lookup(schema, head.id).Some? && IsKind(head, Lookup(schema, head.id).value) && Follows(tail, schema)
  }

  /** A field number below 2^29 and a value that fits. */
  predicate FieldOk(f: Field)
    decreases f, 1
  {
    f.id < 0x2000_0000 && ValueOk(f)
  }

  /** What the C++ types hold, and a length that fits the bytes reserved for it. */
  predicate ValueOk(f: Field)
    decreases f, 0
  {
    match f
    case UInt64(_, n) => n < TWO64
    case Int64(_, v) => -0x8000_0000_0000_0000 <= v < 0x8000_0000_0000_0000
    case Fixed64(_, n) => n < TWO64
    case UInt32(_, n) => n < TWO32
    case Int32(_, v) => -0x8000_0000 <= v < 0x8000_0000
    case Text(_, chars) => |chars| < TWO32
    case Sub(_, width, body) => |Encode(body)| < TWO32 && |Encode(body)| < Power(128, width) && MessageOk(body)
  }

  predicate MessageOk(m: Message)
    decreases m, 0
  {
    match m
    case End => true
    case More(head, tail) => FieldOk(head) && MessageOk(tail)
  }

  /** The shift keeps 29 bits of the field number. */
  lemma {:induction false} KeyParts(id: nat, wireType: nat)
    requires wireType < 8
    ensures Key(id, wireType) / 8 == id % 0x2000_0000 && Key(id, wireType) % 8 == wireType
  {
    assert id * 8 == TWO32 * (id / 0x2000_0000) + 8 * (id % 0x2000_0000);
  }

  /** A field number survives the shift exactly when it is below 2^29. */
  lemma {:induction false} KeyExactly(id: nat, wireType: nat)
    requires wireType < 8
    ensures Key(id, wireType) / 8 == id <==> id < 0x2000_0000
  {
    KeyParts(id, wireType);
  }

  lemma SignedWraps(v: int)
    ensures -0x8000_0000_0000_0000 <= v < 0x8000_0000_0000_0000 ==> Signed(v % TWO64, TWO64) == v
    ensures -0x8000_0000 <= v < 0x8000_0000 ==> Signed(v % TWO32, TWO32) == v
  {
  }

  lemma WrapsSigned(u: nat)
    ensures u < TWO64 ==> Signed(u, TWO64) % TWO64 == u
    ensures u < TWO32 ==> Signed(u, TWO32) % TWO32 == u
  {
  }

  lemma {:induction false} FixedBound()
    ensures Power(256, 8) == TWO64
  {
    assert Power(256, 4) == 256 * (256 * (256 * (256 * Power(256, 0))));
    assert Power(256, 8) == 256 * (256 * (256 * (256 * Power(256, 4))));
  }

  lemma InThree(a: seq<Byte>, e: seq<Byte>, rest: seq<Byte>)
    ensures a + e + rest == a + (e + rest) && (e + rest)[..|e|] == e && (e + rest)[|e|..] == rest
  {
  }

  lemma {:induction false} TextRead(id: nat, n: nat, s: seq<Byte>)
    requires n <= |s|
    ensures ParseScalar(TextKind, id, Varint(n) + s) == Some(Parsed(Text(id, s[..n]), s[n..]))
  {
    VarintRoundTrip(n, s);
  }

  lemma {:induction false} TextRoundTrip(id: nat, chars: seq<Byte>, rest: seq<Byte>)
    requires |chars| < TWO32
    ensures ParseScalar(TextKind, id, Delimited(chars) + rest) == Some(Parsed(Text(id, chars), rest))
  {
    SmallMod(|chars|, TWO32);
    InThree(Varint(|chars|), chars, rest);
    TextRead(id, |chars|, chars + rest);
  }

  lemma {:induction false} NumberRoundTrip(f: Field, kind: Kind, u: nat, rest: seq<Byte>)
    requires FieldOk(f) && IsKind(f, kind) && EncodeValue(f) == Varint(u)
    requires match f
             case UInt64(_, n) => u == n
             case Int64(_, v) => u == v % TWO64
             case UInt32(_, n) => u == n
             case Int32(_, v) => u == v % TWO32
             case _ => false
    ensures ParseScalar(kind, f.id, EncodeValue(f) + rest) == Some(Parsed(f, rest))
  {
    VarintRoundTrip(u, rest);
    if f.Int64? || f.Int32? {
      SignedWraps(f.value);
    }
  }

  lemma {:induction false} WordRoundTrip(id: nat, n: nat, rest: seq<Byte>)
    requires n < TWO64
    ensures ParseScalar(Fixed64Kind, id, Fixed(n, 8) + rest) == Some(Parsed(Fixed64(id, n), rest))
  {
    FixedBound();
    FixedRoundTrip(n, 8, rest);
  }

  lemma {:induction false} ScalarRoundTrip(f: Field, kind: Kind, rest: seq<Byte>)
    requires FieldOk(f) && !f.Sub? && IsKind(f, kind)
    ensures ParseScalar(kind, f.id, EncodeValue(f) + rest) == Some(Parsed(f, rest))
  {
    match f
    case UInt64(_, n) => NumberRoundTrip(f, kind, n, rest);
    case Int64(_, v) => NumberRoundTrip(f, kind, v % TWO64, rest);
    case Fixed64(id, n) => WordRoundTrip(id, n, rest);
    case UInt32(_, n) => NumberRoundTrip(f, kind, n, rest);
    case Int32(_, v) => NumberRoundTrip(f, kind, v % TWO32, rest);
    case Text(id, chars) => TextRoundTrip(id, chars, rest);
  }

  lemma {:induction false} SizedRead(schema: Schema, id: nat, width: Width, n: nat, s: seq<Byte>)
    requires n <= |s| && n < Power(128, width)
    ensures ParseSub(schema, id, Redundant(n, width) + s)
         == match Parse(schema, s[..n])
            case None => None
            case Some(body) => Some(Parsed(Sub(id, width, body), s[n..]))
  {
    RedundantExactly(n, width, s);
  }

  lemma {:induction false} SubRoundTrip(
    id: nat, width: Width, body: Message, e: seq<Byte>, schema: Schema, rest: seq<Byte>)
    requires |e| < TWO32 && |e| < Power(128, width) && Parse(schema, e) == Some(body)
    ensures ParseSub(schema, id, Redundant(|e|, width) + e + rest) == Some(Parsed(Sub(id, width, body), rest))
  {
    SizedRead(schema, id, width, |e|, e + rest);
    InThree(Redundant(|e|, width), e, rest);
  }

  function ParseValue(kind: Kind, id: nat, s: seq<Byte>): Option<Parsed> {
    if kind.SubKind? then ParseSub(kind.schema, id, s) else ParseScalar(kind, id, s)
  }

  /** After the key, decoding goes on with what the schema says. */
  lemma {:induction false} HeaderRead(f: Field, schema: Schema, rest: seq<Byte>)
    ensures ParseField(schema, EncodeField(f) + rest)
         == match Lookup(schema, f.id % 0x2000_0000)
            case None => None
            case Some(kind) =>
              if FieldType(f) != KindType(kind) then None
              else ParseValue(kind, f.id % 0x2000_0000, EncodeValue(f) + rest)
  {
    var key := Key(f.id, FieldType(f));
    KeyParts(f.id, FieldType(f));
    VarintRoundTrip(key, EncodeValue(f) + rest);
    assert EncodeField(f) + rest == Varint(key) + (EncodeValue(f) + rest);
  }

  lemma {:induction false} HeaderRoundTrip(f: Field, kind: Kind, schema: Schema, rest: seq<Byte>)
    requires f.id < 0x2000_0000 && Lookup(schema, f.id) == Some(kind) && IsKind(f, kind)
    ensures ParseField(schema, EncodeField(f) + rest) == ParseValue(kind, f.id, EncodeValue(f) + rest)
  {
    SmallMod(f.id, 0x2000_0000);
    HeaderRead(f, schema, rest);
  }

  lemma {:induction false} FieldRoundTrip(f: Field, schema: Schema, rest: seq<Byte>)
    requires FieldOk(f) && Lookup(schema, f.id).Some? && IsKind(f, Lookup(schema, f.id).value)
    ensures ParseField(schema, EncodeField(f) + rest) == Some(Parsed(f, rest))
    decreases f, 1
  {
    HeaderRoundTrip(f, Lookup(schema, f.id).value, schema, rest);
    ValueRoundTrip(f, Lookup(schema, f.id).value, rest);
  }

  lemma {:induction false} ValueRoundTrip(f: Field, kind: Kind, rest: seq<Byte>)
    requires FieldOk(f) && IsKind(f, kind)
    ensures ParseValue(kind, f.id, EncodeValue(f) + rest) == Some(Parsed(f, rest))
    decreases f, 0
  {
    match f
    case Sub(id, width, body) =>
      RoundTrip(body, kind.schema);
      SmallMod(|Encode(body)|, TWO32);
      SubRoundTrip(id, width, body, Encode(body), kind.schema, rest);
    case _ =>
      ScalarRoundTrip(f, kind, rest);
  }

  /** The decoder returns the tree. */
  lemma {:induction false} RoundTrip(m: Message, schema: Schema)
    requires MessageOk(m) && Follows(m, schema)
    ensures Parse(schema, Encode(m)) == Some(m)
    decreases m, 0
  {
    match m
    case End =>
    case More(head, tail) =>
      FieldRoundTrip(head, schema, Encode(tail));
      RoundTrip(tail, schema);
  }

  // ----- No encoding is shorter -----

  lemma {:induction false} NumberIsMinimal(kind: Kind, id: nat, s: seq<Byte>, u: nat, rest: seq<Byte>, f: Field)
    requires !kind.SubKind? && !kind.Fixed64Kind? && !kind.TextKind? && ReadVarint(s) == Some(Read(u, rest))
    requires ParseScalar(kind, id, s) == Some(Parsed(f, rest))
    ensures |EncodeValue(f)| <= |s| - |rest|
  {
    VarintIsMinimal(s, u, rest);
    VarintGrows(u % TWO64, u);
    VarintGrows(u % TWO32, u);
    WrapsSigned(u % TWO64);
    WrapsSigned(u % TWO32);
  }

  lemma {:induction false} ScalarIsMinimal(kind: Kind, id: nat, s: seq<Byte>, f: Field, rest: seq<Byte>)
    requires !kind.SubKind? && ParseScalar(kind, id, s) == Some(Parsed(f, rest))
    ensures |EncodeValue(f)| <= |s| - |rest|
  {
    if kind.Fixed64Kind? {
      ReadFixedBound(s, 8, ReadFixed(s, 8).value.value, rest);
    } else {
      var Read(u, t) := ReadVarint(s).value;
      if kind.TextKind? {
        VarintIsMinimal(s, u, t);
        VarintGrows(u % TWO32, u);
      } else {
        NumberIsMinimal(kind, id, s, u, rest, f);
      }
    }
  }

  lemma {:induction false} SubIsMinimal(schema: Schema, id: nat, s: seq<Byte>, f: Field, rest: seq<Byte>)
    requires ParseSub(schema, id, s) == Some(Parsed(f, rest))
    ensures |EncodeValue(f)| <= |s| - |rest|
    decreases |s|, 0
  {
    var Read(size, t) := ReadVarint(s).value;
    MessageIsMinimal(schema, t[..size], f.body);
  }

  lemma {:induction false} KeyIsMinimal(id: nat, wireType: nat, s: seq<Byte>, key: nat, rest: seq<Byte>)
    requires ReadVarint(s) == Some(Read(key, rest)) && id == key / 8 && wireType == key % 8
    ensures |Varint(Key(id, wireType))| <= |s| - |rest|
  {
    VarintIsMinimal(s, key, rest);
    VarintGrows(Key(id, wireType), key);
  }

  lemma {:induction false} FieldParts(schema: Schema, s: seq<Byte>, f: Field, rest: seq<Byte>)
    returns (key: nat, t: seq<Byte>, kind: Kind)
    requires ParseField(schema, s) == Some(Parsed(f, rest))
    ensures ReadVarint(s) == Some(Read(key, t)) && Lookup(schema, key / 8) == Some(kind)
    ensures f.id == key / 8 && FieldType(f) == key % 8 && ParseValue(kind, key / 8, t) == Some(Parsed(f, rest))
  {
    key, t := ReadVarint(s).value.value, ReadVarint(s).value.rest;
    kind := Lookup(schema, key / 8).value;
  }

  lemma {:induction false} FieldIsMinimal(schema: Schema, s: seq<Byte>, f: Field, rest: seq<Byte>)
    requires ParseField(schema, s) == Some(Parsed(f, rest))
    ensures |EncodeField(f)| <= |s| - |rest|
    decreases |s|, 0
  {
    var key, t, kind := FieldParts(schema, s, f, rest);
    KeyIsMinimal(f.id, FieldType(f), s, key, t);
    if kind.SubKind? {
      SubIsMinimal(kind.schema, key / 8, t, f, rest);
    } else {
      ScalarIsMinimal(kind, key / 8, t, f, rest);
    }
  }

  /** Whatever decodes to a tree is at least as long as the encoding of the tree. */
  lemma {:induction false} MessageIsMinimal(schema: Schema, s: seq<Byte>, m: Message)
    requires Parse(schema, s) == Some(m)
    ensures |Encode(m)| <= |s|
    decreases |s|, 1
  {
    if s != [] {
      var Parsed(head, rest) := ParseField(schema, s).value;
      FieldIsMinimal(schema, s, head, rest);
      MessageIsMinimal(schema, rest, m.tail);
    }
  }

  // ----- What does not fit does not read back -----

  lemma {:induction false} ScalarIsOk(kind: Kind, id: nat, s: seq<Byte>, f: Field, rest: seq<Byte>)
    requires !kind.SubKind? && ParseScalar(kind, id, s) == Some(Parsed(f, rest))
    ensures f.id == id && IsKind(f, kind) && (f.Text? || ValueOk(f))
  {
    if kind.Fixed64Kind? {
      ReadFixedBound(s, 8, f.number, rest);
      FixedBound();
    }
  }

  lemma {:induction false} TextIsOk(id: nat, chars: seq<Byte>, rest: seq<Byte>, t: seq<Byte>)
    requires ParseScalar(TextKind, id, Delimited(chars) + rest) == Some(Parsed(Text(id, chars), t))
    ensures |chars| < TWO32
  {
    InThree(Varint(|chars| % TWO32), chars, rest);
    TextRead(id, |chars| % TWO32, chars + rest);
  }

  /** The body is decoded from as many bytes as the cut-off length says. */
  lemma {:induction false} SubRead(schema: Schema, id: nat, v: nat, width: Width, s: seq<Byte>, f: Field, t: seq<Byte>)
    requires ParseSub(schema, id, Redundant(v, width) + s) == Some(Parsed(f, t))
    ensures f.Sub? && f.id == id && v % Power(128, width) <= |s|
    ensures Parse(schema, s[..v % Power(128, width)]) == Some(f.body)
  {
    RedundantRoundTrip(v, width, s);
  }

  lemma {:induction false} NothingIsCutOff(n: nat, p: nat)
    requires p > 0 && n <= n % TWO32 % p
    ensures n < TWO32 && n < p && n % TWO32 % p == n
  {
    DivMod(n % TWO32, p);
  }

  /** A body whose length is cut off would have to be decoded from fewer bytes than its encoding has. */
  lemma {:induction false} SubIsOk(
    schema: Schema, id: nat, width: Width, body: Message, e: seq<Byte>, rest: seq<Byte>, t: seq<Byte>)
    requires e == Encode(body)
    requires ParseSub(schema, id, Redundant(|e| % TWO32, width) + e + rest) == Some(Parsed(Sub(id, width, body), t))
    ensures |e| < TWO32 && |e| < Power(128, width) && Parse(schema, e) == Some(body)
  {
    var size := |e| % TWO32 % Power(128, width);
    InThree(Redundant(|e| % TWO32, width), e, rest);
    SubRead(schema, id, |e| % TWO32, width, e + rest, Sub(id, width, body), t);
    MessageIsMinimal(schema, (e + rest)[..size], body);
    NothingIsCutOff(|e|, Power(128, width));
  }

  lemma {:induction false} ValueIsOk(f: Field, kind: Kind, id: nat, rest: seq<Byte>, t: seq<Byte>)
    requires ParseValue(kind, id, EncodeValue(f) + rest) == Some(Parsed(f, t))
    ensures f.id == id && ValueOk(f) && IsKind(f, kind)
    decreases f, 0
  {
    if kind.SubKind? {
      SubIsOk(kind.schema, id, f.width, f.body, Encode(f.body), rest, t);
      ReadBackIsOk(f.body, kind.schema);
    } else {
      ScalarIsOk(kind, id, EncodeValue(f) + rest, f, t);
      if f.Text? {
        TextIsOk(id, f.chars, rest, t);
      }
    }
  }

  lemma {:induction false} FieldIsOk(f: Field, schema: Schema, rest: seq<Byte>, t: seq<Byte>)
    requires ParseField(schema, EncodeField(f) + rest) == Some(Parsed(f, t))
    ensures FieldOk(f) && Lookup(schema, f.id).Some? && IsKind(f, Lookup(schema, f.id).value)
    decreases f, 1
  {
    HeaderRead(f, schema, rest);
    ValueIsOk(f, Lookup(schema, f.id % 0x2000_0000).value, f.id % 0x2000_0000, rest, t);
  }

  lemma {:induction false} ReadBackIsOk(m: Message, schema: Schema)
    requires Parse(schema, Encode(m)) == Some(m)
    ensures MessageOk(m) && Follows(m, schema)
    decreases m, 0
  {
    match m
    case End =>
    case More(head, tail) =>
      var Parsed(_, t) := ParseField(schema, Encode(m)).value;
      FieldIsOk(head, schema, Encode(tail), t);
      FieldRoundTrip(head, schema, Encode(tail));
      ReadBackIsOk(tail, schema);
  }

  /** The decoder returns the tree if and only if everything fits and the tree follows the schema. */
  lemma {:induction false} RoundTripExactly(m: Message, schema: Schema)
    ensures Parse(schema, Encode(m)) == Some(m) <==> MessageOk(m) && Follows(m, schema)
  {
    if Parse(schema, Encode(m)) == Some(m) {
      ReadBackIsOk(m, schema);
    }
    if MessageOk(m) && Follows(m, schema) {
      RoundTrip(m, schema);
    }
  }

  /** The two bytes reserved by default hold the length of a body exactly when it is shorter than 2^14 bytes. */
  lemma {:induction false} DefaultWidthExactly(body: seq<Byte>, rest: seq<Byte>)
    requires |body| < TWO32
    ensures ReadVarint(Redundant(|body|, 2) + rest) == Some(Read(|body|, rest)) <==> |body| < 0x4000
  {
    RedundantExactly(|body|, 2, rest);
    assert Power(128, 2) == 128 * (128 * Power(128, 0));
  }

  // ----- Reference bytes -----

  lemma {:induction false} SmallKey(id: nat, wireType: nat)
    requires id < 16 && wireType < 8
    ensures Varint(Key(id, wireType)) == [8 * id + wireType]
  {
    SmallMod(id * 8, TWO32);
  }

  /** The first byte of a field with a number below 16 is eight times the number plus the wire type of the guide. */
  lemma {:induction false} WireTypes(f: Field)
    requires f.id < 16
    ensures EncodeField(f)[0] == 8 * f.id + match f
                                            case Fixed64(_, _) => 1
                                            case Text(_, _) => 2
                                            case Sub(_, _, _) => 2
                                            case _ => 0
  {
    SmallKey(f.id, FieldType(f));
  }

  /** The example of the guide: the number 150 in field 1. */
  lemma {:induction false} NumberExample()
    ensures EncodeField(UInt64(1, 150)) == [0x08, 0x96, 0x01]
  {
    SmallKey(1, 0);
    assert Varint(150) == [0x96, 0x01];
  }

  /** A message with that number in field 3, with one byte for the length. */
  lemma {:induction false} SubExample()
    ensures EncodeField(Sub(3, 1, More(UInt64(1, 150), End))) == [0x1a, 0x03, 0x08, 0x96, 0x01]
  {
    var m := More(UInt64(1, 150), End);
    NumberExample();
    SmallKey(3, 2);
    assert Encode(m) == EncodeField(UInt64(1, 150)) + Encode(End) == [0x08, 0x96, 0x01];
    assert EncodeValue(Sub(3, 1, m)) == Redundant(3, 1) + Encode(m) == [0x03, 0x08, 0x96, 0x01];
  }

  /** Two characters in field 2, and a fixed-width number in field 4. */
  lemma {:induction false} TextAndFixedExamples()
    ensures EncodeField(Text(2, [0x74, 0x65])) == [0x12, 0x02, 0x74, 0x65]
    ensures EncodeField(Fixed64(4, 0x0102)) == [0x21, 0x02, 0x01, 0, 0, 0, 0, 0, 0]
  {
    SmallKey(2, 2);
    SmallKey(4, 1);
    assert Delimited([0x74, 0x65]) == [0x02] + [0x74, 0x65];
    FixedExample();
  }

  lemma {:induction false} FixedExample()
    ensures Fixed(0x0102, 8) == [0x02, 0x01, 0, 0, 0, 0, 0, 0]
  {
    assert Fixed(0, 2) == [0, 0];
    assert Fixed(0, 4) == [0, 0] + Fixed(0, 2);
    assert Fixed(0, 6) == [0, 0] + Fixed(0, 4);
    assert Fixed(0x0102, 8) == [0x02, 0x01] + Fixed(0, 6);
  }

  /** A negative value takes ten bytes as a 64-bit field and five as a 32-bit one. */
  lemma {:induction false} NegativeWidths(id: nat, v: int)
    ensures -0x8000_0000_0000_0000 <= v < 0 ==> |EncodeValue(Int64(id, v))| == 10
    ensures -0x8000_0000 <= v < 0 ==> |EncodeValue(Int32(id, v))| == 5
  {
    if -0x8000_0000_0000_0000 <= v < 0 {
      NineBytes();
      VarintLength(v % TWO64, 9);
      WideVarints(v % TWO64);
    }
    if -0x8000_0000 <= v < 0 {
      NineBytes();
      VarintLength(v % TWO32, 4);
      WideVarints(v % TWO32);
    }
  }

  lemma {:induction false} NineBytes()
    ensures Power(128, 4) == 0x1000_0000 && Power(128, 9) == 0x8000_0000_0000_0000
  {
    assert Power(128, 3) == 128 * (128 * (128 * Power(128, 0)));
    assert Power(128, 4) == 128 * Power(128, 3);
    assert Power(128, 6) == 128 * (128 * Power(128, 4));
    assert Power(128, 9) == 128 * (128 * (128 * Power(128, 6)));
  }
}
