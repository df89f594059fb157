/** The canonical byte encoding over a grammar of types: integers, bool, unit,
    strings, vectors, options, tuples (and structs) and enums. */
module Codec {
  import opened Bytes

  /** A struct is the tuple of its fields in declaration order. */
  datatype Type =
    | UInt(width: nat) | SInt(width: nat) | Bool | Unit | Str
    | Vec(elem: Type) | Opt(elem: Type)
    | Tuple(fields: Types) | Enum(variants: Variants)

  datatype Types = Nil | Cons(head: Type, tail: Types)

  datatype Variants = NoMore | Variant(fields: Types, rest: Variants)

  datatype Value =
    | VUInt(n: nat) | VSInt(i: int) | VBool(b: bool) | VUnit | VStr(bytes: seq<byte>)
    | VVec(items: seq<Value>) | VNone | VSome(value: Value)
    | VTuple(fields: seq<Value>) | VEnum(tag: nat, fields: seq<Value>)

  datatype CodecError = UnexpectedEof | InvalidValue | InvalidUtf8 | TrailingBytes(count: nat)

  datatype Decoded<+T> = Got(value: T, rest: seq<byte>) | Bad(error: CodecError)

  const U16_LIMIT := 0x1_0000

  // ----- well-typed values -----

  /** `utf8` says which byte strings are valid text. */
  ghost predicate HasType(utf8: seq<byte> -> bool, t: Type, v: Value)
    decreases t, 0
  {
    match t
    case UInt(width) => v.VUInt? && v.n < Pow256(width)
    case SInt(width) => v.VSInt? && width > 0 && -(Pow256(width) as int) <= 2 * v.i < Pow256(width)
    case Bool => v.VBool?
    case Unit => v.VUnit?
    case Str => v.VStr? && utf8(v.bytes) && |v.bytes| < U32_LIMIT
    case Vec(elem) => v.VVec? && |v.items| < U32_LIMIT && AllHaveType(utf8, elem, v.items)
    case Opt(elem) => v.VNone? || (v.VSome? && HasType(utf8, elem, v.value))
    case Tuple(fields) => v.VTuple? && FieldsHaveType(utf8, fields, v.fields)
    case Enum(variants) => v.VEnum? && v.tag < U16_LIMIT && VariantHasType(utf8, variants, v.tag, v.fields)
  }

  ghost predicate AllHaveType(utf8: seq<byte> -> bool, t: Type, items: seq<Value>)
    decreases t, |items| + 1
  {
    items == [] || (HasType(utf8, t, items[0]) && AllHaveType(utf8, t, items[1..]))
  }

  ghost predicate FieldsHaveType(utf8: seq<byte> -> bool, ts: Types, vs: seq<Value>)
    decreases ts, 0
  {
    match ts
    case Nil => vs == []
    case Cons(t, tail) => vs != [] && HasType(utf8, t, vs[0]) && FieldsHaveType(utf8, tail, vs[1..])
  }

  ghost predicate VariantHasType(utf8: seq<byte> -> bool, variants: Variants, tag: nat, vs: seq<Value>)
    decreases variants, 0
  {
    match variants
    case NoMore => false
    case Variant(fields, rest) => if tag == 0 then FieldsHaveType(utf8, fields, vs) else VariantHasType(utf8, rest, tag - 1, vs)
  }

  // ----- encoding -----

  function Encode(t: Type, v: Value): (r: seq<byte>)
    decreases t, 0
  {
    match t
    case UInt(width) => if v.VUInt? then LittleEndian(v.n, width) else []
    case SInt(width) => if v.VSInt? then LittleEndian(TwosComplement(v.i, width), width) else []
    case Bool => if v.VBool? then [if v.b then 1 else 0] else []
    case Unit => []
    case Str => if v.VStr? then LittleEndian(|v.bytes|, 4) + v.bytes else []
    case Vec(elem) => if v.VVec? then LittleEndian(|v.items|, 4) + EncodeItems(elem, v.items) else []
    case Opt(elem) => if v.VSome? then [1] + Encode(elem, v.value) else [0]
    case Tuple(fields) => if v.VTuple? then EncodeFields(fields, v.fields) else []
    case Enum(variants) => if v.VEnum? then LittleEndian(v.tag, 2) + EncodeVariant(variants, v.tag, v.fields) else []
  }

  function TwosComplement(i: int, width: nat): nat {
    if i >= 0 then i else if i + Pow256(width) >= 0 then i + Pow256(width) else 0
  }

  function FromTwosComplement(n: nat, width: nat): int {
    if 2 * n < Pow256(width) then n else n - Pow256(width)
  }

  function EncodeItems(t: Type, items: seq<Value>): seq<byte>
    decreases t, |items| + 1
  {
    if items == [] then [] else Encode(t, items[0]) + EncodeItems(t, items[1..])
  }

  function EncodeFields(ts: Types, vs: seq<Value>): seq<byte>
    decreases ts, 0
  {
    match ts
    case Nil => []
    case Cons(t, tail) => if vs == [] then [] else Encode(t, vs[0]) + EncodeFields(tail, vs[1..])
  }

  function EncodeVariant(variants: Variants, tag: nat, vs: seq<Value>): seq<byte>
    decreases variants, 0
  {
    match variants
    case NoMore => []
    case Variant(fields, rest) => if tag == 0 then EncodeFields(fields, vs) else EncodeVariant(rest, tag - 1, vs)
  }

  /** The exact size announced before encoding. */
  function EncodedLen(t: Type, v: Value): nat
    decreases t, 0
  {
    match t
    case UInt(width) => if v.VUInt? then width else 0
    case SInt(width) => if v.VSInt? then width else 0
    case Bool => if v.VBool? then 1 else 0
    case Unit => 0
    case Str => if v.VStr? then 4 + |v.bytes| else 0
    case Vec(elem) => if v.VVec? then 4 + ItemsLen(elem, v.items) else 0
    case Opt(elem) => if v.VSome? then 1 + EncodedLen(elem, v.value) else 1
    case Tuple(fields) => if v.VTuple? then FieldsLen(fields, v.fields) else 0
    case Enum(variants) => if v.VEnum? then 2 + VariantLen(variants, v.tag, v.fields) else 0
  }

  function ItemsLen(t: Type, items: seq<Value>): nat
    decreases t, |items| + 1
  {
    if items == [] then 0 else EncodedLen(t, items[0]) + ItemsLen(t, items[1..])
  }

  function FieldsLen(ts: Types, vs: seq<Value>): nat
    decreases ts, 0
  {
    match ts
    case Nil => 0
    case Cons(t, tail) => if vs == [] then 0 else EncodedLen(t, vs[0]) + FieldsLen(tail, vs[1..])
  }

  function VariantLen(variants: Variants, tag: nat, vs: seq<Value>): nat
    decreases variants, 0
  {
    match variants
    case NoMore => 0
    case Variant(fields, rest) => if tag == 0 then FieldsLen(fields, vs) else VariantLen(rest, tag - 1, vs)
  }

  // ----- decoding -----

  /** Take `n` bytes off the front. */
  function Take(buf: seq<byte>, n: nat): (r: Decoded<seq<byte>>)
    ensures r.Got? ==> |r.value| == n && buf == r.value + r.rest
  {
    if |buf| < n then Bad(UnexpectedEof) else Got(buf[..n], buf[n..])
  }

  function DecodeNat(buf: seq<byte>, width: nat): Decoded<nat> {
    match Take(buf, width)
    case Bad(e) => Bad(e)
    case Got(bytes, rest) => Got(FromLittleEndian(bytes), rest)
  }

  function Decode(utf8: seq<byte> -> bool, t: Type, buf: seq<byte>): (r: Decoded<Value>)
    decreases t, 0
  {
    match t
    case UInt(width) =>
      (match DecodeNat(buf, width) case Bad(e) => Bad(e) case Got(n, rest) => Got(VUInt(n), rest))
    case SInt(width) =>
      (match DecodeNat(buf, width) case Bad(e) => Bad(e)
       case Got(n, rest) => if width == 0 then Bad(InvalidValue) else Got(VSInt(FromTwosComplement(n, width)), rest))
    case Bool =>
      (match DecodeNat(buf, 1) case Bad(e) => Bad(e)
       case Got(n, rest) => if n == 0 then Got(VBool(false), rest) else if n == 1 then Got(VBool(true), rest) else Bad(InvalidValue))
    case Unit => Got(VUnit, buf)
    case Str =>
      (match DecodeNat(buf, 4) case Bad(e) => Bad(e)
       case Got(len, rest) =>
         match Take(rest, len) case Bad(e) => Bad(e)
         case Got(bytes, tail) => if utf8(bytes) then Got(VStr(bytes), tail) else Bad(InvalidUtf8))
    case Vec(elem) =>
      (match DecodeNat(buf, 4) case Bad(e) => Bad(e)
       case Got(len, rest) =>
         match DecodeItems(utf8, elem, len, rest) case Bad(e) => Bad(e) case Got(items, tail) => Got(VVec(items), tail))
    case Opt(elem) =>
      (match DecodeNat(buf, 1) case Bad(e) => Bad(e)
       case Got(n, rest) =>
         if n == 0 then Got(VNone, rest)
         else if n != 1 then Bad(InvalidValue)
         else match Decode(utf8, elem, rest) case Bad(e) => Bad(e) case Got(v, tail) => Got(VSome(v), tail))
    case Tuple(fields) =>
      (match DecodeFields(utf8, fields, buf) case Bad(e) => Bad(e) case Got(vs, tail) => Got(VTuple(vs), tail))
    case Enum(variants) =>
      (match DecodeNat(buf, 2) case Bad(e) => Bad(e)
       case Got(tag, rest) =>
         match DecodeVariant(utf8, variants, tag, rest) case Bad(e) => Bad(e) case Got(vs, tail) => Got(VEnum(tag, vs), tail))
  }

  function DecodeItems(utf8: seq<byte> -> bool, t: Type, n: nat, buf: seq<byte>): (r: Decoded<seq<Value>>)
    decreases t, n + 1
  {
    if n == 0 then Got([], buf)
    else
      match Decode(utf8, t, buf)
      case Bad(e) => Bad(e)
      case Got(v, rest) =>
        match DecodeItems(utf8, t, n - 1, rest)
        case Bad(e) => Bad(e)
        case Got(vs, tail) => Got([v] + vs, tail)
  }

  function DecodeFields(utf8: seq<byte> -> bool, ts: Types, buf: seq<byte>): (r: Decoded<seq<Value>>)
    decreases ts, 0
  {
    match ts
    case Nil => Got([], buf)
    case Cons(t, tail) =>
      match Decode(utf8, t, buf)
      case Bad(e) => Bad(e)
      case Got(v, rest) =>
        match DecodeFields(utf8, tail, rest)
        case Bad(e) => Bad(e)
        case Got(vs, left) => Got([v] + vs, left)
  }

  function DecodeVariant(utf8: seq<byte> -> bool, variants: Variants, tag: nat, buf: seq<byte>): (r: Decoded<seq<Value>>)
    decreases variants, 0
  {
    match variants
    case NoMore => Bad(InvalidValue)
    case Variant(fields, rest) => if tag == 0 then DecodeFields(utf8, fields, buf) else DecodeVariant(utf8, rest, tag - 1, buf)
  }

  /** Decode a value that must use up the whole buffer. */
  function DecodeAll(utf8: seq<byte> -> bool, t: Type, buf: seq<byte>): (r: Decoded<Value>) {
    match Decode(utf8, t, buf)
    case Bad(e) => Bad(e)
    case Got(v, rest) => if rest == [] then Got(v, rest) else Bad(TrailingBytes(|rest|))
  }

  // ----- encoded_len is exact -----

  lemma {:induction false} LenExact(t: Type, v: Value)
    ensures |Encode(t, v)| == EncodedLen(t, v)
    decreases t, 0
  {
    match t {
      case Vec(elem) => if v.VVec? { ItemsLenExact(elem, v.items); }
      case Opt(elem) => if v.VSome? { LenExact(elem, v.value); }
      case Tuple(fields) => if v.VTuple? { FieldsLenExact(fields, v.fields); }
      case Enum(variants) => if v.VEnum? { VariantLenExact(variants, v.tag, v.fields); }
      case _ =>
    }
  }

  lemma {:induction false} ItemsLenExact(t: Type, items: seq<Value>)
    ensures |EncodeItems(t, items)| == ItemsLen(t, items)
    decreases t, |items| + 1
  {
    if items != [] {
      LenExact(t, items[0]);
      ItemsLenExact(t, items[1..]);
    }
  }

  lemma {:induction false} FieldsLenExact(ts: Types, vs: seq<Value>)
    ensures |EncodeFields(ts, vs)| == FieldsLen(ts, vs)
    decreases ts, 0
  {
    if ts.Cons? && vs != [] {
      LenExact(ts.head, vs[0]);
      FieldsLenExact(ts.tail, vs[1..]);
    }
  }

  lemma {:induction false} VariantLenExact(variants: Variants, tag: nat, vs: seq<Value>)
    ensures |EncodeVariant(variants, tag, vs)| == VariantLen(variants, tag, vs)
    decreases variants, 0
  {
    if variants.Variant? {
      if tag == 0 {
        FieldsLenExact(variants.fields, vs);
      } else {
        VariantLenExact(variants.rest, tag - 1, vs);
      }
    }
  }

  // ----- round trip -----

  lemma Limits()
    ensures Pow256(1) == 256 && Pow256(2) == U16_LIMIT && Pow256(4) == U32_LIMIT
  {
    assert Pow256(1) == 256 * Pow256(0);
    assert Pow256(2) == 256 * Pow256(1);
    assert Pow256(4) == 256 * Pow256(3) == 256 * 256 * Pow256(2);
  }

  lemma NatRoundTrip(n: nat, width: nat, rest: seq<byte>)
    requires n < Pow256(width)
    ensures DecodeNat(LittleEndian(n, width) + rest, width) == Got(n, rest)
  {
    hide LittleEndian, FromLittleEndian;
    var buf := LittleEndian(n, width) + rest;
    LittleEndianRoundTrip(n, width);
    assert buf[..width] == LittleEndian(n, width) && buf[width..] == rest;
  }

  lemma ByteRoundTrip(b: byte, rest: seq<byte>)
    ensures DecodeNat([b] + rest, 1) == Got(b as nat, rest)
  {
    assert ([b] + rest)[..1] == [b] && ([b] + rest)[1..] == rest;
    assert FromLittleEndian([b]) == b as nat + 256 * FromLittleEndian([]) by { assert [b][1..] == []; }
  }

  lemma Regroup(a: seq<byte>, b: seq<byte>, c: seq<byte>)
    ensures (a + b) + c == a + (b + c)
  {
  }

  lemma TwosComplementInverse(i: int, width: nat)
    requires width > 0 && -(Pow256(width) as int) <= 2 * i < Pow256(width)
    ensures TwosComplement(i, width) < Pow256(width)
    ensures FromTwosComplement(TwosComplement(i, width), width) == i
  {
  }

  /** Decoding an encoding followed by any bytes returns the value and exactly
      those bytes. */
  lemma {:induction false} RoundTrip(utf8: seq<byte> -> bool, t: Type, v: Value, rest: seq<byte>)
    requires HasType(utf8, t, v)
    ensures Decode(utf8, t, Encode(t, v) + rest) == Got(v, rest)
    decreases t, 0
  {
    hide LittleEndian, DecodeNat;
    Limits();
    match t {
      case UInt(width) => NatRoundTrip(v.n, width, rest);
      case SInt(width) =>
        TwosComplementInverse(v.i, width);
        NatRoundTrip(TwosComplement(v.i, width), width, rest);
      case Bool => ByteRoundTrip(if v.b then 1 else 0, rest);
      case Unit => assert [] + rest == rest;
      case Str =>
        Regroup(LittleEndian(|v.bytes|, 4), v.bytes, rest);
        NatRoundTrip(|v.bytes|, 4, v.bytes + rest);
        assert (v.bytes + rest)[..|v.bytes|] == v.bytes && (v.bytes + rest)[|v.bytes|..] == rest;
      case Vec(elem) =>
        Regroup(LittleEndian(|v.items|, 4), EncodeItems(elem, v.items), rest);
        NatRoundTrip(|v.items|, 4, EncodeItems(elem, v.items) + rest);
        ItemsRoundTrip(utf8, elem, v.items, rest);
      case Opt(elem) =>
        if v.VSome? {
          Regroup([1], Encode(elem, v.value), rest);
          ByteRoundTrip(1, Encode(elem, v.value) + rest);
          RoundTrip(utf8, elem, v.value, rest);
        } else {
          ByteRoundTrip(0, rest);
        }
      case Tuple(fields) => FieldsRoundTrip(utf8, fields, v.fields, rest);
      case Enum(variants) =>
        Regroup(LittleEndian(v.tag, 2), EncodeVariant(variants, v.tag, v.fields), rest);
        NatRoundTrip(v.tag, 2, EncodeVariant(variants, v.tag, v.fields) + rest);
        VariantRoundTrip(utf8, variants, v.tag, v.fields, rest);
    }
  }

  lemma {:induction false} ItemsRoundTrip(utf8: seq<byte> -> bool, t: Type, items: seq<Value>, rest: seq<byte>)
    requires AllHaveType(utf8, t, items)
    ensures DecodeItems(utf8, t, |items|, EncodeItems(t, items) + rest) == Got(items, rest)
    decreases t, |items| + 1
  {
    hide HasType, Encode, Decode;
    if items == [] {
      assert [] + rest == rest;
    } else {
      var tail := EncodeItems(t, items[1..]);
      Regroup(Encode(t, items[0]), tail, rest);
      RoundTrip(utf8, t, items[0], tail + rest);
      ItemsRoundTrip(utf8, t, items[1..], rest);
      assert [items[0]] + items[1..] == items;
    }
  }

  lemma {:induction false} FieldsRoundTrip(utf8: seq<byte> -> bool, ts: Types, vs: seq<Value>, rest: seq<byte>)
    requires FieldsHaveType(utf8, ts, vs)
    ensures DecodeFields(utf8, ts, EncodeFields(ts, vs) + rest) == Got(vs, rest)
    decreases ts, 0
  {
    hide HasType, Encode, Decode;
    match ts {
      case Nil => assert [] + rest == rest;
      case Cons(t, more) =>
        var tail := EncodeFields(more, vs[1..]);
        Regroup(Encode(t, vs[0]), tail, rest);
        RoundTrip(utf8, t, vs[0], tail + rest);
        FieldsRoundTrip(utf8, more, vs[1..], rest);
        assert [vs[0]] + vs[1..] == vs;
    }
  }

  lemma {:induction false} VariantRoundTrip(utf8: seq<byte> -> bool, variants: Variants, tag: nat, vs: seq<Value>, rest: seq<byte>)
    requires VariantHasType(utf8, variants, tag, vs)
    ensures DecodeVariant(utf8, variants, tag, EncodeVariant(variants, tag, vs) + rest) == Got(vs, rest)
    decreases variants, 0
  {
    if tag == 0 {
      FieldsRoundTrip(utf8, variants.fields, vs, rest);
    } else {
      VariantRoundTrip(utf8, variants.rest, tag - 1, vs, rest);
    }
  }

  // ----- canonical: decoding has only one source -----

  lemma NatCanonical(buf: seq<byte>, width: nat)
    requires DecodeNat(buf, width).Got?
    ensures var d := DecodeNat(buf, width);
            d.value < Pow256(width) && buf == LittleEndian(d.value, width) + d.rest
  {
    hide LittleEndian, FromLittleEndian;
    LittleEndianOfValue(buf[..width]);
  }

  lemma ByteCanonical(buf: seq<byte>)
    requires DecodeNat(buf, 1).Got?
    ensures var d := DecodeNat(buf, 1); |buf| > 0 && d.value == buf[0] as nat && buf == [buf[0]] + d.rest
  {
    assert buf[..1] == [buf[0]];
    ByteRoundTrip(buf[0], buf[1..]);
    assert [buf[0]] + buf[1..] == buf;
  }

  /** Whenever decoding succeeds the value is well typed and encoding it again
      reproduces exactly the bytes consumed. */
  lemma {:induction false} Canonical(utf8: seq<byte> -> bool, t: Type, buf: seq<byte>)
    requires Decode(utf8, t, buf).Got?
    ensures var d := Decode(utf8, t, buf);
            HasType(utf8, t, d.value) && buf == Encode(t, d.value) + d.rest
    decreases t, 0
  {
    hide LittleEndian, DecodeNat, Pow256, FromLittleEndian;
    Limits();
    match t {
      case UInt(width) => NatCanonical(buf, width);
      case SInt(width) =>
        NatCanonical(buf, width);
        SignedCanonical(DecodeNat(buf, width).value, width);
      case Bool => ByteCanonical(buf);
      case Unit => assert [] + buf == buf;
      case Str =>
        NatCanonical(buf, 4);
        var len := DecodeNat(buf, 4);
        var text := Take(len.rest, len.value);
        Regroup(LittleEndian(len.value, 4), text.value, text.rest);
      case Vec(elem) =>
        NatCanonical(buf, 4);
        var len := DecodeNat(buf, 4);
        ItemsCanonical(utf8, elem, len.value, len.rest);
        var items := DecodeItems(utf8, elem, len.value, len.rest);
        Regroup(LittleEndian(len.value, 4), EncodeItems(elem, items.value), items.rest);
      case Opt(elem) =>
        ByteCanonical(buf);
        var tag := DecodeNat(buf, 1);
        if tag.value == 1 {
          Canonical(utf8, elem, tag.rest);
          var v := Decode(utf8, elem, tag.rest);
          Regroup([1], Encode(elem, v.value), v.rest);
        }
      case Tuple(fields) => FieldsCanonical(utf8, fields, buf);
      case Enum(variants) =>
        NatCanonical(buf, 2);
        var tag := DecodeNat(buf, 2);
        VariantCanonical(utf8, variants, tag.value, tag.rest);
        var vs := DecodeVariant(utf8, variants, tag.value, tag.rest);
        Regroup(LittleEndian(tag.value, 2), EncodeVariant(variants, tag.value, vs.value), vs.rest);
    }
  }

  lemma SignedCanonical(n: nat, width: nat)
    requires width > 0 && n < Pow256(width)
    ensures var i := FromTwosComplement(n, width);
            -(Pow256(width) as int) <= 2 * i < Pow256(width) && TwosComplement(i, width) == n
  {
    EvenPower(width);
  }

  lemma EvenPower(width: nat)
    requires width > 0
    ensures Pow256(width) % 2 == 0
  {
    assert Pow256(width) == 256 * Pow256(width - 1);
  }

  lemma {:induction false} ItemsCanonical(utf8: seq<byte> -> bool, t: Type, n: nat, buf: seq<byte>)
    requires DecodeItems(utf8, t, n, buf).Got?
    ensures var d := DecodeItems(utf8, t, n, buf);
            |d.value| == n && AllHaveType(utf8, t, d.value) && buf == EncodeItems(t, d.value) + d.rest
    decreases t, n + 1
  {
    hide HasType, Encode, Decode;
    if n == 0 {
      assert [] + buf == buf;
    } else {
      Canonical(utf8, t, buf);
      var v := Decode(utf8, t, buf);
      ItemsCanonical(utf8, t, n - 1, v.rest);
      var vs := DecodeItems(utf8, t, n - 1, v.rest);
      assert ([v.value] + vs.value)[1..] == vs.value;
      Regroup(Encode(t, v.value), EncodeItems(t, vs.value), vs.rest);
    }
  }

  lemma {:induction false} FieldsCanonical(utf8: seq<byte> -> bool, ts: Types, buf: seq<byte>)
    requires DecodeFields(utf8, ts, buf).Got?
    ensures var d := DecodeFields(utf8, ts, buf);
            FieldsHaveType(utf8, ts, d.value) && buf == EncodeFields(ts, d.value) + d.rest
    decreases ts, 0
  {
    hide HasType, Encode, Decode;
    match ts {
      case Nil => assert [] + buf == buf;
      case Cons(t, more) =>
        Canonical(utf8, t, buf);
        var v := Decode(utf8, t, buf);
        FieldsCanonical(utf8, more, v.rest);
        var vs := DecodeFields(utf8, more, v.rest);
        assert ([v.value] + vs.value)[1..] == vs.value;
        Regroup(Encode(t, v.value), EncodeFields(more, vs.value), vs.rest);
    }
  }

  lemma {:induction false} VariantCanonical(utf8: seq<byte> -> bool, variants: Variants, tag: nat, buf: seq<byte>)
    requires DecodeVariant(utf8, variants, tag, buf).Got?
    ensures var d := DecodeVariant(utf8, variants, tag, buf);
            VariantHasType(utf8, variants, tag, d.value) && buf == EncodeVariant(variants, tag, d.value) + d.rest
    decreases variants, 0
  {
    if tag == 0 {
      FieldsCanonical(utf8, variants.fields, buf);
    } else {
      VariantCanonical(utf8, variants.rest, tag - 1, buf);
    }
  }

  // ----- a bijection onto its image -----

  /** A buffer decodes in full to a value exactly when it is that value's
      encoding. */
  lemma DecodeAllIff(utf8: seq<byte> -> bool, t: Type, v: Value, buf: seq<byte>)
    requires HasType(utf8, t, v)
    ensures DecodeAll(utf8, t, buf) == Got(v, []) <==> buf == Encode(t, v)
  {
    hide HasType, Encode, Decode;
    assert Encode(t, v) + [] == Encode(t, v);
    RoundTrip(utf8, t, v, []);
    if DecodeAll(utf8, t, buf) == Got(v, []) {
      Canonical(utf8, t, buf);
    }
  }

  /** No encoding is a proper prefix of another of the same type, and distinct
      values have distinct encodings. */
  lemma PrefixFree(utf8: seq<byte> -> bool, t: Type, v: Value, w: Value, more: seq<byte>)
    requires HasType(utf8, t, v) && HasType(utf8, t, w)
    requires Encode(t, v) == Encode(t, w) + more
    ensures v == w && more == []
  {
    hide HasType, Encode, Decode;
    RoundTrip(utf8, t, v, []);
    RoundTrip(utf8, t, w, more);
    assert Encode(t, v) + [] == Encode(t, v);
  }
}
