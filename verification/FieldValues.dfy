/**
 The typed values of the fielded buffer: the type that is part of every field id, the bytes a
 value is stored as, and what the put and remove-id operations mean for a list of records.
 */
module FieldValues {
  import opened ByteOrder
  import opened FieldRecords
  import opened Sequences
  import opened Wrappers

  const TYPE_BASE: int := 0x2000000
  const NO_ID: long := 0

  datatype Status =
    Success | InvalidHandle | InvalidArgument | OutOfMemory | OutOfBounds | InternalFailure

  datatype FieldType = Short | Long | Char | Float | Double | String | Binary

  /** Integer division as the host does it, towards zero. */
  function Quotient(a: int, b: int): int
    requires b > 0
  {
    if a >= 0 then a / b else -((-a) / b)
  }

  /** The type that an id carries, if it is one of the seven known ones. */
  function TypeOf(id: long): Option<FieldType>
  {
    match Quotient(id, TYPE_BASE)
    case 1 => Some(Short)
    case 2 => Some(Long)
    case 3 => Some(Char)
    case 4 => Some(Float)
    case 5 => Some(Double)
    case 6 => Some(String)
    case 7 => Some(Binary)
    case _ => None
  }

  /** A host string: no terminator inside, and room for one at the end. */
  type Text = s: seq<byte> | 0 !in s && |s| < LONG_MAX

  type short = x: int | Fits(x, 2) witness 0
  type word = x: int | 0 <= x < Span(4) witness 0
  type giant = x: int | 0 <= x < Span(8) witness 0

  /** A value of one of the seven types; a float is the bits of its IEEE 754 form. */
  datatype Value =
    | ShortValue(number: short)
    | LongValue(value: long)
    | CharValue(code: byte)
    | FloatValue(single: word)
    | DoubleValue(bits: giant)
    | StringValue(text: Text)
    | BinaryValue(binary: Data)

  function ValueType(v: Value): FieldType
  {
    match v
    case ShortValue(_) => Short
    case LongValue(_) => Long
    case CharValue(_) => Char
    case FloatValue(_) => Float
    case DoubleValue(_) => Double
    case StringValue(_) => String
    case BinaryValue(_) => Binary
  }

  /** The bytes a value is stored as; a string is stored with its terminator. */
  function Bytes(v: Value): Data
  {
    match v
    case ShortValue(x) => Encode(x, 2)
    case LongValue(x) => EncodeLong(x)
    case CharValue(x) => [x]
    case FloatValue(x) => EncodeUnsigned(x, 4)
    case DoubleValue(x) => EncodeUnsigned(x, 8)
    case StringValue(x) => x + [0]
    case BinaryValue(x) => x
  }

  /** The value that a new empty occurrence of a type holds. */
  function EmptyValue(t: FieldType): (v: Value)
    ensures ValueType(v) == t
  {
    match t
    case Short => ShortValue(0)
    case Long => LongValue(0)
    case Char => CharValue(0)
    case Float => FloatValue(0)
    case Double => DoubleValue(0)
    case String => StringValue([])
    case Binary => BinaryValue([])
  }

  /** The ids of each type are a range of their own, and there are no others of a known type. */
  lemma TypesOfIds(id: long)
    ensures TypeOf(id) == Some(Short) <==> 0x200_0000 <= id <= 0x3ff_ffff
    ensures TypeOf(id) == Some(Long) <==> 0x400_0000 <= id <= 0x5ff_ffff
    ensures TypeOf(id) == Some(Char) <==> 0x600_0000 <= id <= 0x7ff_ffff
    ensures TypeOf(id) == Some(Float) <==> 0x800_0000 <= id <= 0x9ff_ffff
    ensures TypeOf(id) == Some(Double) <==> 0xa00_0000 <= id <= 0xbff_ffff
    ensures TypeOf(id) == Some(String) <==> 0xc00_0000 <= id <= 0xdff_ffff
    ensures TypeOf(id) == Some(Binary) <==> 0xe00_0000 <= id <= 0xfff_ffff
  {
  }

  /** The ids that a value can be added to. */
  lemma IdsOfValues(id: long, v: Value)
    ensures v.ShortValue? ==> (TypeOf(id) == Some(ValueType(v)) <==> 0x200_0000 <= id <= 0x3ff_ffff)
    ensures v.LongValue? ==> (TypeOf(id) == Some(ValueType(v)) <==> 0x400_0000 <= id <= 0x5ff_ffff)
    ensures v.CharValue? ==> (TypeOf(id) == Some(ValueType(v)) <==> 0x600_0000 <= id <= 0x7ff_ffff)
    ensures v.FloatValue? ==> (TypeOf(id) == Some(ValueType(v)) <==> 0x800_0000 <= id <= 0x9ff_ffff)
    ensures v.DoubleValue? ==> (TypeOf(id) == Some(ValueType(v)) <==> 0xa00_0000 <= id <= 0xbff_ffff)
    ensures v.StringValue? ==> (TypeOf(id) == Some(ValueType(v)) <==> 0xc00_0000 <= id <= 0xdff_ffff)
    ensures v.BinaryValue? ==> (TypeOf(id) == Some(ValueType(v)) <==> 0xe00_0000 <= id <= 0xfff_ffff)
  {
    TypesOfIds(id);
  }

  /** The unsigned number that is stored for a value of a numeric type, and in how many bytes. */
  function Pattern(v: Value): (p: Option<(nat, nat)>)
  {
    match v
    case ShortValue(x) => Some((if x < 0 then x + 0x1_0000 else x, 2))
    case LongValue(x) => Some((Bits(x), 8))
    case CharValue(x) => Some((x, 1))
    case FloatValue(x) => Some((x, 4))
    case DoubleValue(x) => Some((x, 8))
    case _ => None
  }

  /** Numbers are stored with their most significant byte first, the rest as it is. */
  lemma StoredBytes(v: Value)
    ensures v.StringValue? ==> Bytes(v) == v.text + [0]
    ensures v.BinaryValue? ==> Bytes(v) == v.binary
    ensures Pattern(v).Some? ==>
      var (number, width) := Pattern(v).value;
      |Bytes(v)| == width && forall i | 0 <= i < width :: Bytes(v)[i] == number / Span(width - 1 - i) % 256
  {
    SpanPowers();
    if Pattern(v).Some? {
      var (number, width) := Pattern(v).value;
      forall i | 0 <= i < width ensures |Bytes(v)| == width && Bytes(v)[i] == number / Span(width - 1 - i) % 256 {
        match v
        case ShortValue(x) => ByteAt(x, 2, i);
        case LongValue(x) => LongByteAt(x, i);
        case CharValue(x) =>
        case FloatValue(x) => UnsignedByteAt(x, 4, i);
        case DoubleValue(x) => UnsignedByteAt(x, 8, i);
      }
    }
  }

  /** How many bytes the empty value of a type takes. */
  function EmptySize(t: FieldType): nat
  {
    match t
    case Short => 2
    case Long => 8
    case Char => 1
    case Float => 4
    case Double => 8
    case String => 1
    case Binary => 0
  }

  /** All of them are 0; the one of a string is its terminator. */
  lemma EmptyBytes(t: FieldType)
    ensures Bytes(EmptyValue(t)) == Zeros(EmptySize(t))
  {
    ZeroBytes(EmptySize(t));
    SpanOfLong();
  }

  /** The value of a type that is stored as these bytes, if there is one. */
  function ValueOf(t: FieldType, data: Data): (r: Option<Value>)
  {
    match t
    case Short => if |data| == 2 then Some(ShortValue(Decode(data))) else None
    case Long => if |data| == 8 then Some(LongValue(DecodeLong(data))) else None
    case Char => if |data| == 1 then Some(CharValue(data[0])) else None
    case Float => if |data| == 4 then Some(FloatValue(DecodeUnsigned(data))) else None
    case Double => if |data| == 8 then Some(DoubleValue(DecodeUnsigned(data))) else None
    case String =>
      if data != [] && Last(data) == 0 && 0 !in Init(data) then Some(StringValue(Init(data))) else None
    case Binary => Some(BinaryValue(data))
  }

  /** Every value reads back from its bytes. */
  lemma ValueOfBytes(v: Value)
    ensures ValueOf(ValueType(v), Bytes(v)) == Some(v)
  {
    match v
    case ShortValue(x) => DecodeEncode(x, 2);
    case LongValue(x) => DecodeEncodeLong(x);
    case FloatValue(x) => DecodeEncodeUnsigned(x, 4);
    case DoubleValue(x) => DecodeEncodeUnsigned(x, 8);
    case StringValue(x) => assert Init(x + [0]) == x;
    case _ =>
  }

  /** Bytes that are a value of the type are the bytes of that value and of no other. */
  lemma BytesOfValue(t: FieldType, data: Data)
    requires ValueOf(t, data).Some?
    ensures ValueType(ValueOf(t, data).value) == t && Bytes(ValueOf(t, data).value) == data
  {
    match t
    case Short => EncodeDecode(data);
    case Long => EncodeDecodeLong(data);
    case Float => EncodeDecodeUnsigned(data);
    case Double => EncodeDecodeUnsigned(data);
    case String => assert data == Init(data) + [0];
    case _ =>
  }

  // ----- put

  function Repeated(r: Record, n: nat): (rs: seq<Record>)
    ensures |rs| == n
  {
    if n == 0 then [] else [r] + Repeated(r, n - 1)
  }

  /** Occurrence `k` holds `data`; if there are too few occurrences, empty ones come first. */
  function PutAt(rs: seq<Record>, id: long, k: nat, data: Data, empty: Data): seq<Record>
  {
    var count := |Values(rs, id)|;
    if k < count then Update(rs, id, k, data)
    else rs + Repeated(Record(id, empty), k - count) + [Record(id, data)]
  }

  /** Adding one empty occurrence first makes no difference while there are too few. */
  lemma PutAfterEmpty(rs: seq<Record>, id: long, k: nat, data: Data, empty: Data)
    requires k >= |Values(rs, id)|
    ensures PutAt(Append(rs, id, empty), id, k, data, empty) == PutAt(rs, id, k, data, empty)
  {
    var more, e, count := Append(rs, id, empty), Record(id, empty), |Values(rs, id)|;
    AppendValues(rs, id, empty, id);
    if k == count {
      AppendInit(rs, id, empty);
      assert Position(more, id, k) == |rs|;
      assert Update(more, id, k, data) == rs + [] + [Record(id, data)];
    } else {
      assert more + Repeated(e, k - count - 1) == rs + Repeated(e, k - count);
    }
  }

  function Times(d: Data, n: nat): (s: seq<Data>)
    ensures |s| == n
  {
    if n == 0 then [] else [d] + Times(d, n - 1)
  }

  /** The values of `id` padded with empty ones, with `data` at place `k`. */
  function Padded(values: seq<Data>, k: nat, data: Data, empty: Data): (s: seq<Data>)
    ensures |s| == if k < |values| then |values| else k + 1
  {
    if k < |values| then values[k := data] else values + Times(empty, k - |values|) + [data]
  }

  lemma {:induction false} RepeatedValues(rs: seq<Record>, id: long, empty: Data, n: nat, other: long)
    ensures Values(rs + Repeated(Record(id, empty), n), other)
         == if other == id then Values(rs, id) + Times(empty, n) else Values(rs, other)
    decreases n
  {
    var e := Record(id, empty);
    if n == 0 {
      assert rs + Repeated(e, n) == rs;
    } else {
      RepeatedValues(rs + [e], id, empty, n - 1, other);
      ValuesSnoc(rs, e, other);
      Associate(rs, [e], Repeated(e, n - 1));
      Associate(Values(rs, id), [empty], Times(empty, n - 1));
    }
  }

  /**
   After a put the id has max(old count, k + 1) occurrences: the put value at `k`, empty ones
   before it where there were none, every older one as it was. Other ids are untouched.
   */
  lemma PutValues(rs: seq<Record>, id: long, k: nat, data: Data, empty: Data, other: long)
    ensures Values(PutAt(rs, id, k, data, empty), other)
         == if other == id then Padded(Values(rs, id), k, data, empty) else Values(rs, other)
  {
    var count := |Values(rs, id)|;
    if k < count {
      UpdateValues(rs, id, k, data, other);
    } else {
      RepeatedValues(rs, id, empty, k - count, other);
      ValuesSnoc(rs + Repeated(Record(id, empty), k - count), Record(id, data), other);
    }
  }

  lemma {:induction false} TimesAt(d: Data, n: nat, i: nat)
    requires i < n
    ensures Times(d, n)[i] == d
  {
    if i > 0 {
      TimesAt(d, n - 1, i - 1);
    }
  }

  /** A put beyond the occurrences there are pads them with zeros, as many as the type takes. */
  lemma PutPads(rs: seq<Record>, id: long, k: nat, v: Value, i: nat)
    requires TypeOf(id) == Some(ValueType(v)) && |Values(rs, id)| <= i <= k
    ensures var after := Values(PutAt(rs, id, k, Bytes(v), Bytes(EmptyValue(ValueType(v)))), id);
            && |after| == k + 1
            && after[i] == if i == k then Bytes(v) else Zeros(EmptySize(TypeOf(id).value))
  {
    PutValues(rs, id, k, Bytes(v), Bytes(EmptyValue(ValueType(v))), id);
    EmptyBytes(ValueType(v));
    if i < k {
      TimesAt(Bytes(EmptyValue(ValueType(v))), k - |Values(rs, id)|, i - |Values(rs, id)|);
    }
  }

  // ----- remove id

  /** The records of all other ids, in their order. */
  function Without(rs: seq<Record>, id: long): seq<Record>
  {
    if rs == [] then []
    else if Last(rs).id == id then Without(Init(rs), id)
    else Without(Init(rs), id) + [Last(rs)]
  }

  lemma {:induction false} WithoutAbsent(rs: seq<Record>, id: long)
    requires Values(rs, id) == []
    ensures Without(rs, id) == rs
  {
    if rs != [] {
      WithoutAbsent(Init(rs), id);
      InitLast(rs);
    }
  }

  lemma {:induction false} WithoutRemoved(rs: seq<Record>, p: nat)
    requires p < |rs|
    ensures Without(RemoveAt(rs, p), rs[p].id) == Without(rs, rs[p].id)
  {
    EditInit(rs, p, []);
    if p < |rs| - 1 {
      WithoutRemoved(Init(rs), p);
      assert Init(RemoveAt(Init(rs), p) + [Last(rs)]) == RemoveAt(Init(rs), p);
    }
  }

  /** Without an id: none of its occurrences, all occurrences of the others. */
  lemma {:induction false} WithoutValues(rs: seq<Record>, id: long, other: long)
    ensures Values(Without(rs, id), other) == if other == id then [] else Values(rs, other)
  {
    if rs != [] {
      WithoutValues(Init(rs), id, other);
      ValuesSnoc(Without(Init(rs), id), Last(rs), other);
    }
  }
}
