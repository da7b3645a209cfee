/**
 The bytes of the fielded buffer: `id(8) | size(8) | data` for each record, both numbers in
 network byte order. The layout can be parsed back, and the three edits of the record list are
 splices of the bytes.
 */
module FieldLayout {
  import opened ByteOrder
  import opened FieldRecords
  import opened Sequences
  import opened Wrappers

  const SIZE_OFFSET: int := 8

  /** The id and size parts of a record. */
  function Header(id: long, size: long): (b: seq<byte>)
    ensures |b| == DATA_OFFSET
  {
    EncodeLong(id) + EncodeLong(size)
  }

  function HeaderId(b: seq<byte>): long
    requires |b| >= DATA_OFFSET
  {
    DecodeLong(b[..SIZE_OFFSET])
  }

  function HeaderSize(b: seq<byte>): long
    requires |b| >= DATA_OFFSET
  {
    DecodeLong(b[SIZE_OFFSET..DATA_OFFSET])
  }

  lemma HeaderRoundTrip(id: long, size: long, rest: seq<byte>)
    ensures HeaderId(Header(id, size) + rest) == id
    ensures HeaderSize(Header(id, size) + rest) == size
  {
    var b := Header(id, size) + rest;
    assert b[..SIZE_OFFSET] == EncodeLong(id);
    assert b[SIZE_OFFSET..DATA_OFFSET] == EncodeLong(size);
    DecodeEncodeLong(id);
    DecodeEncodeLong(size);
  }

  lemma HeaderOf(b: seq<byte>)
    requires |b| >= DATA_OFFSET
    ensures b[..DATA_OFFSET] == Header(HeaderId(b), HeaderSize(b))
  {
    EncodeDecodeLong(b[..SIZE_OFFSET]);
    EncodeDecodeLong(b[SIZE_OFFSET..DATA_OFFSET]);
    assert b[..DATA_OFFSET] == b[..SIZE_OFFSET] + b[SIZE_OFFSET..DATA_OFFSET];
  }

  function Pack(r: Record): (b: seq<byte>)
    ensures |b| == Size(r)
  {
    Header(r.id, |r.data|) + r.data
  }

  function Memory(rs: seq<Record>): (b: seq<byte>)
    ensures |b| == TotalSize(rs)
  {
    if rs == [] then [] else Memory(Init(rs)) + Pack(Last(rs))
  }

  lemma {:induction false} MemoryConcat(a: seq<Record>, b: seq<Record>)
    ensures Memory(a + b) == Memory(a) + Memory(b)
  {
    if b == [] {
      assert a + b == a;
    } else {
      MemoryConcat(a, Init(b));
      assert Init(a + b) == a + Init(b);
      Associate(Memory(a), Memory(Init(b)), Pack(Last(b)));
    }
  }

  lemma MemorySnoc(rs: seq<Record>, r: Record)
    ensures Memory(rs + [r]) == Memory(rs) + Pack(r)
  {
    assert Init(rs + [r]) == rs;
  }

  /** Byte i of an appended record: the id, the size of the data, and the data. */
  lemma AppendedBytes(rs: seq<Record>, id: long, data: Data, i: nat)
    requires i < DATA_OFFSET + |data|
    ensures var memory := Memory(Append(rs, id, data));
            && |memory| == |Memory(rs)| + DATA_OFFSET + |data| && memory[..|Memory(rs)|] == Memory(rs)
            && memory[|Memory(rs)| + i] == if i < 8 then Bits(id) / Span(7 - i) % 256
                                           else if i < 16 then |data| / Span(15 - i) % 256
                                           else data[i - 16]
  {
    var record := Record(id, data);
    MemorySnoc(rs, record);
    assert Pack(record)[i] == if i < 8 then EncodeLong(id)[i]
                              else if i < 16 then EncodeLong(|data|)[i - 8] else data[i - 16];
    if i < 8 {
      LongByteAt(id, i);
    } else if i < 16 {
      LongByteAt(|data|, i - 8);
    }
  }

  lemma MemoryCons(r: Record, rs: seq<Record>)
    ensures Memory([r] + rs) == Pack(r) + Memory(rs)
  {
    MemoryConcat([r], rs);
    MemorySnoc([], r);
    assert [] + [r] == [r] && Memory([]) + Pack(r) == Pack(r);
  }

  lemma MemoryOf(a: seq<Record>, r: Record, b: seq<Record>, rs: seq<Record>)
    requires rs == a + [r] + b
    ensures Memory(rs) == Memory(a) + Pack(r) + Memory(b)
  {
    MemorySnoc(a, r);
    MemoryConcat(a + [r], b);
  }

  /** The bytes split at a record. */
  lemma MemoryAround(rs: seq<Record>, p: nat)
    requires p < |rs|
    ensures Memory(rs) == Memory(rs[..p]) + Pack(rs[p]) + Memory(rs[p + 1..])
  {
    SplitAround(rs, p);
    MemoryOf(rs[..p], rs[p], rs[p + 1..], rs);
  }

  // ----- parsing

  /** The record at the start of the bytes, if there is a whole one. */
  function ParseHead(memory: seq<byte>): (r: Option<Record>)
    ensures r.Some? ==> Size(r.value) <= |memory| && memory[..Size(r.value)] == Pack(r.value)
  {
    if |memory| < DATA_OFFSET then None
    else
      var size := HeaderSize(memory);
      if size < 0 || size > |memory| - DATA_OFFSET then None
      else
        HeaderOf(memory);
        var data := memory[DATA_OFFSET..DATA_OFFSET + size];
        assert memory[..DATA_OFFSET + size] == memory[..DATA_OFFSET] + data;
        Some(Record(HeaderId(memory), data))
  }

  lemma ParsePacked(r: Record, rest: seq<byte>)
    ensures ParseHead(Pack(r) + rest) == Some(r)
  {
    var m := Pack(r) + rest;
    Associate(Header(r.id, |r.data|), r.data, rest);
    HeaderRoundTrip(r.id, |r.data|, r.data + rest);
    assert m[DATA_OFFSET..DATA_OFFSET + |r.data|] == r.data;
  }

  /** The records of a byte string, or none if it is not a concatenation of records. */
  function Parse(memory: seq<byte>): (r: Option<seq<Record>>)
  {
    if memory == [] then Some([])
    else match ParseHead(memory)
      case None => None
      case Some(head) =>
        match Parse(memory[Size(head)..])
        case None => None
        case Some(tail) => Some([head] + tail)
  }

  lemma ParseSplit(memory: seq<byte>) returns (head: Record, rest: seq<byte>, tail: seq<Record>)
    requires memory != [] && Parse(memory).Some?
    ensures memory == Pack(head) + rest && |rest| < |memory|
    ensures Parse(rest) == Some(tail) && Parse(memory).value == [head] + tail
  {
    head := ParseHead(memory).value;
    rest := memory[Size(head)..];
    tail := Parse(rest).value;
    assert memory == memory[..Size(head)] + rest;
  }

  /** Bytes that parse are exactly the layout of the records found. */
  lemma {:induction false} MemoryParse(memory: seq<byte>)
    requires Parse(memory).Some?
    ensures Memory(Parse(memory).value) == memory
    decreases |memory|
  {
    if memory != [] {
      var head, rest, tail := ParseSplit(memory);
      MemoryParse(rest);
      MemoryCons(head, tail);
    }
  }

  /** `rs` in front of the outcome of parsing the bytes behind it. */
  function Before(rs: seq<Record>, rest: Option<seq<Record>>): Option<seq<Record>>
  {
    match rest
    case None => None
    case Some(tail) => Some(rs + tail)
  }

  lemma BeforeNone(rest: Option<seq<Record>>)
    ensures Before([], rest) == rest
  {
    if rest.Some? {
      assert [] + rest.value == rest.value;
    }
  }

  lemma BeforeSnoc(rs: seq<Record>, r: Record, rest: Option<seq<Record>>)
    ensures Before(rs, Before([r], rest)) == Before(rs + [r], rest)
  {
    if rest.Some? {
      Associate(rs, [r], rest.value);
    }
  }

  lemma ParseCons(r: Record, rest: seq<byte>)
    ensures Parse(Pack(r) + rest) == Before([r], Parse(rest))
  {
    ParsePacked(r, rest);
    assert (Pack(r) + rest)[Size(r)..] == rest;
  }

  /** Whole records in front do not influence how the remaining bytes are parsed. */
  lemma {:induction false} ParseAfter(rs: seq<Record>, rest: seq<byte>)
    ensures Parse(Memory(rs) + rest) == Before(rs, Parse(rest))
  {
    if rs == [] {
      assert Memory(rs) + rest == rest;
      BeforeNone(Parse(rest));
    } else {
      var t, last := Init(rs), Last(rs);
      assert Parse(Memory(rs) + rest) == Before(t, Parse(Pack(last) + rest)) by {
        ParseAfter(t, Pack(last) + rest);
        Associate(Memory(t), Pack(last), rest);
      }
      ParseCons(last, rest);
      BeforeSnoc(t, last, Parse(rest));
      InitLast(rs);
    }
  }

  /** The layout is unambiguous: the records can be read back from the bytes alone. */
  lemma ParseMemory(rs: seq<Record>)
    ensures Parse(Memory(rs)) == Some(rs)
  {
    ParseAfter(rs, []);
    assert Memory(rs) + [] == Memory(rs);
    assert rs + [] == rs;
  }

  // ----- what is found at an offset

  lemma RecordInside(before: seq<byte>, r: Record, rest: seq<byte>, m: seq<byte>, at: int)
    requires m == before + Pack(r) + rest && at == |before|
    ensures at + DATA_OFFSET + |r.data| <= |m|
    ensures HeaderId(m[at..]) == r.id && HeaderSize(m[at..]) == |r.data|
    ensures m[at + DATA_OFFSET..at + DATA_OFFSET + |r.data|] == r.data
  {
    assert m[at..] == Pack(r) + rest;
    Associate(Header(r.id, |r.data|), r.data, rest);
    HeaderRoundTrip(r.id, |r.data|, r.data + rest);
  }

  /** The record an offset in the index refers to lies there, header and data. */
  lemma RecordAtOffset(rs: seq<Record>, id: long, k: nat, at: int)
    requires k < |Values(rs, id)| && at == Offsets(rs, id)[k]
    ensures 0 <= at && at + DATA_OFFSET + |Values(rs, id)[k]| <= |Memory(rs)|
    ensures HeaderSize(Memory(rs)[at..]) == |Values(rs, id)[k]|
    ensures Memory(rs)[at + DATA_OFFSET..at + DATA_OFFSET + |Values(rs, id)[k]|] == Values(rs, id)[k]
  {
    var p := Position(rs, id, k);
    OffsetOfPosition(rs, id, k);
    MemoryAround(rs, p);
    RecordInside(Memory(rs[..p]), rs[p], Memory(rs[p + 1..]), Memory(rs), at);
  }

  predicate IsHeaderAt(memory: seq<byte>, at: int, id: long)
  {
    0 <= at && at + DATA_OFFSET <= |memory| && HeaderId(memory[at..]) == id
  }

  lemma HeaderAtOffset(rs: seq<Record>, id: long, k: nat, at: int)
    requires k < |Values(rs, id)| && at == Offsets(rs, id)[k]
    ensures IsHeaderAt(Memory(rs), at, id)
  {
    var p := Position(rs, id, k);
    OffsetOfPosition(rs, id, k);
    MemoryAround(rs, p);
    RecordInside(Memory(rs[..p]), rs[p], Memory(rs[p + 1..]), Memory(rs), at);
  }

  // ----- the edits, on bytes

  lemma AppendMemory(rs: seq<Record>, id: long, data: Data)
    ensures Memory(Append(rs, id, data)) == Memory(rs) + EncodeLong(id) + EncodeLong(|data|) + data
  {
    AppendInit(rs, id, data);
    Associate(Memory(rs), EncodeLong(id), EncodeLong(|data|));
    Associate(Memory(rs), Header(id, |data|), data);
  }

  /** The bytes a splice at a record leaves in front and behind. */
  lemma SpliceInside(before: seq<byte>, r: Record, rest: seq<byte>, m: seq<byte>, at: int)
    requires m == before + Pack(r) + rest && at == |before|
    ensures at + DATA_OFFSET + |r.data| <= |m|
    ensures m[..at] == before
    ensures m[..at + SIZE_OFFSET] == before + EncodeLong(r.id)
    ensures m[at + DATA_OFFSET + |r.data|..] == rest
  {
  }

  /** Erases the old data, inserts the new and then writes the new size. */
  method ExchangeData(memory: seq<byte>, at: int, current: int, data: Data) returns (m: seq<byte>)
    requires 0 <= at && 0 <= current && at + DATA_OFFSET + current <= |memory|
    ensures m == memory[..at + SIZE_OFFSET] + EncodeLong(|data|) + data + memory[at + DATA_OFFSET + current..]
  {
    m := memory[..at + DATA_OFFSET] + memory[at + DATA_OFFSET + current..];
    m := m[..at + DATA_OFFSET] + data + m[at + DATA_OFFSET..];
    assert m == memory[..at + DATA_OFFSET] + data + memory[at + DATA_OFFSET + current..];
    m := m[..at + SIZE_OFFSET] + EncodeLong(|data|) + m[at + DATA_OFFSET..];
  }

  /** Exchanging the data in place and then writing the new size gives the layout of the update. */
  lemma UpdateMemory(rs: seq<Record>, id: long, k: nat, data: Data, at: int, current: int)
    requires k < |Values(rs, id)|
    requires at == Offsets(rs, id)[k] && current == |Values(rs, id)[k]|
    ensures 0 <= at && at + DATA_OFFSET + current <= |Memory(rs)|
    ensures Memory(Update(rs, id, k, data))
         == Memory(rs)[..at + SIZE_OFFSET] + EncodeLong(|data|) + data + Memory(rs)[at + DATA_OFFSET + current..]
  {
    var p, after := Position(rs, id, k), Update(rs, id, k, data);
    var before, behind := Memory(rs[..p]), Memory(rs[p + 1..]);
    OffsetOfPosition(rs, id, k);
    MemoryAround(rs, p);
    SpliceInside(before, rs[p], behind, Memory(rs), at);
    assert Memory(after) == before + Pack(Record(id, data)) + behind by {
      MemoryAround(after, p);
      assert after[..p] == rs[..p] && after[p + 1..] == rs[p + 1..];
    }
    Associate(before, EncodeLong(id), EncodeLong(|data|));
    Associate(before, Header(id, |data|), data);
  }

  /** Erasing header and data gives the layout of the removal. */
  lemma RemoveMemory(rs: seq<Record>, id: long, k: nat, at: int, size: int)
    requires k < |Values(rs, id)|
    requires at == Offsets(rs, id)[k] && size == |Values(rs, id)[k]|
    ensures 0 <= at && at + DATA_OFFSET + size <= |Memory(rs)|
    ensures Memory(Remove(rs, id, k)) == Memory(rs)[..at] + Memory(rs)[at + DATA_OFFSET + size..]
  {
    var p := Position(rs, id, k);
    OffsetOfPosition(rs, id, k);
    MemoryAround(rs, p);
    SpliceInside(Memory(rs[..p]), rs[p], Memory(rs[p + 1..]), Memory(rs), at);
    MemoryConcat(rs[..p], rs[p + 1..]);
  }
}
