// The order buffer: values appended one after another, without names, and read back in the
// same order with a cursor.
module OrderBuffer {
  import opened ByteOrder
  import opened FieldRecords
  import opened Sequences
  import opened Wrappers
  import FV = FieldValues

  // ----- Items -----

  // What can be added: a truth value, or a value of one of the types of the fielded buffer.
  datatype Item = Flag(flag: bool) | Of(value: FV.Value)

  datatype Kind = FlagKind | KindOf(fieldType: FV.FieldType)

  function KindOfItem(item: Item): Kind {
    match item
    case Flag(_) => FlagKind
    case Of(value) => KindOf(FV.ValueType(value))
  }

  // The bytes of an item. Binary data is preceded by its size, the rest ends by itself.
  function Image(item: Item): seq<byte> {
    match item
    case Flag(flag) => [if flag then 1 else 0]
    case Of(BinaryValue(binary)) => EncodeLong(|binary|) + binary
    case Of(value) => FV.Bytes(value)
  }

  function Images(items: seq<Item>): seq<byte> {
    if items == [] then [] else Image(items[0]) + Images(items[1..])
  }

  // What is stored: a byte 1 or 0, the size of binary data in eight bytes and then the data,
  // and any other value as in the fielded buffer.
  lemma StoredImage(item: Item)
    ensures item.Flag? ==> Image(item) == if item.flag then [1] else [0]
    ensures item.Of? && !item.value.BinaryValue? ==> Image(item) == FV.Bytes(item.value)
    ensures item.Of? && item.value.BinaryValue? ==>
      var binary := item.value.binary;
      && |Image(item)| == 8 + |binary| && Image(item)[8..] == binary
      && forall i :: 0 <= i < 8 ==> Image(item)[i] == |binary| / Span(7 - i) % 256
  {
    if item.Of? && item.value.BinaryValue? {
      forall i | 0 <= i < 8 ensures Image(item)[i] == |item.value.binary| / Span(7 - i) % 256 {
        LongByteAt(|item.value.binary|, i);
      }
    }
  }

  // ----- Reading one item -----

  // A read can find no room, an item, or binary data whose size, as it is stored, is negative.
  // It has no defined outcome when it starts before the memory or its reach overflows.
  datatype Reading = Outside | Got(item: Item, next: int) | Broken(size: int, next: int) | Undefined

  function Width(t: FV.FieldType): nat {
    match t
    case Short => 2 case Char => 1 case Float => 4 case _ => 8
  }

  // The first terminator from `at` on, or the end.
  function Terminator(memory: seq<byte>, at: nat): (n: nat)
    requires at <= |memory|
    ensures at <= n <= |memory| && 0 !in memory[at..n]
    ensures n < |memory| ==> memory[n] == 0
    decreases |memory| - at
  {
    if at == |memory| || memory[at] == 0 then at
    else
      var n := Terminator(memory, at + 1);
      assert memory[at..n] == [memory[at]] + memory[at + 1..n];
      n
  }

  function ReadFixed(t: FV.FieldType, memory: Data, at: nat): Reading
    requires at <= |memory| && t != FV.String && t != FV.Binary
  {
    var end := at + Width(t);
    if end > |memory| then Outside
    else
      var value := FV.ValueOf(t, memory[at..end]);
      if value.Some? then Got(Of(value.value), end) else Outside
  }

  function ReadText(memory: Data, at: nat): Reading
    requires at <= |memory|
  {
    var n := Terminator(memory, at);
    if n == |memory| then Outside else Got(Of(FV.StringValue(memory[at..n])), n + 1)
  }

  // The stored size moves the cursor whatever its sign, and only a reach past the end is out
  // of bounds: the sum and the comparison are signed.
  function ReadBinary(memory: Data, at: nat): Reading
    requires at <= |memory|
  {
    if at + 8 > |memory| then Outside
    else
      var size := DecodeLong(memory[at..at + 8]);
      var end := at + 8 + size;
      if end > LONG_MAX then Undefined
      else if end > |memory| then Outside
      else if size < 0 then Broken(size, end)
      else Got(Of(FV.BinaryValue(memory[at + 8..end])), end)
  }

  function ReadAt(kind: Kind, memory: Data, at: int): Reading {
    if at < 0 then Undefined
    else if at > |memory| then Outside
    else
      match kind
      case FlagKind => if at == |memory| then Outside else Got(Flag(memory[at] != 0), at + 1)
      case KindOf(String) => ReadText(memory, at)
      case KindOf(Binary) => ReadBinary(memory, at)
      case KindOf(t) => ReadFixed(t, memory, at)
  }

  // ----- Operations -----

  datatype Operation = AddPrepare | GetPrepare | AddItem(item: Item) | GetItem(kind: Kind)

  // The memory and the cursor, which is kept unsigned and read back signed.
  datatype State = State(memory: Data, cursor: int)

  predicate Inside(st: State) { 0 <= st.cursor <= |st.memory| }

  function CursorAfter(reading: Reading, cursor: int): int
    requires !reading.Undefined?
  {
    match reading
    case Outside => cursor
    case Got(_, next) => next
    case Broken(_, next) => next
  }

  // None when the operation has no defined outcome.
  function Step(st: State, op: Operation): Option<State> {
    match op
    case AddPrepare => Some(st.(memory := []))
    case GetPrepare => Some(st.(cursor := 0))
    case AddItem(item) =>
      Some(if |st.memory| + |Image(item)| <= LONG_MAX then st.(memory := st.memory + Image(item)) else st)
    case GetItem(kind) =>
      var reading := ReadAt(kind, st.memory, st.cursor);
      if reading.Undefined? then None else Some(st.(cursor := CursorAfter(reading, st.cursor)))
  }

  // ----- The code -----

  datatype Status = Success | InvalidArgument | OutOfMemory | OutOfBounds

  class Buffer {
    var memory: Data
    var selector: int

    constructor ()
      ensures memory == [] && selector == 0
    {
      memory, selector := [], 0;
    }

    ghost function Value(): State
      reads this
    {
      State(memory, selector)
    }

    method AddPrepare()
      modifies this`memory
      ensures memory == []
    {
      memory := [];
    }

    method GetPrepare()
      modifies this`selector
      ensures selector == 0
    {
      selector := 0;
    }

    // Appends; what does not fit is not added, also when it is the second of two pieces.
    method Append(bytes: seq<byte>) returns (status: Status)
      modifies this`memory
      ensures status == if |old(memory)| + |bytes| <= LONG_MAX then Success else OutOfMemory
      ensures memory == if status == Success then old(memory) + bytes else old(memory)
    {
      if |memory| + |bytes| > LONG_MAX { return OutOfMemory; }
      memory := memory + bytes;
      return Success;
    }

    method AddBinary(data: Data) returns (status: Status)
      modifies this`memory
      ensures status == Success <==> |old(memory)| + |Image(Of(FV.BinaryValue(data)))| <= LONG_MAX
      ensures memory == if status == Success then old(memory) + Image(Of(FV.BinaryValue(data))) else old(memory)
    {
      var used := |memory|;
      Associate(memory, EncodeLong(|data|), data);
      status := Append(EncodeLong(|data|));
      if status != Success { return; }
      status := Append(data);
      if status != Success { memory := memory[..used]; }
    }

    method Add(item: Item) returns (status: Status)
      modifies this`memory
      ensures status == Success <==> |old(memory)| + |Image(item)| <= LONG_MAX
      ensures memory == if status == Success then old(memory) + Image(item) else old(memory)
    {
      match item
      case Flag(flag) => status := Append([if flag then 1 else 0]);
      case Of(value) =>
        if value.BinaryValue? {
          status := AddBinary(value.binary);
        } else {
          status := Append(FV.Bytes(value));
        }
    }

    // Reads at the cursor and moves it, unless the read would pass the end. Nothing is said
    // of the cursor after a read without defined outcome.
    method Get(kind: Kind) returns (reading: Reading)
      modifies this`selector
      ensures reading == ReadAt(kind, memory, old(selector))
      ensures reading.Outside? ==> selector == old(selector)
      ensures reading.Got? || reading.Broken? ==> selector == reading.next
    {
      reading := ReadAt(kind, memory, selector);
      if reading.Got? || reading.Broken? { selector := reading.next; }
    }

    method Perform(op: Operation)
      requires Step(Value(), op).Some?
      modifies this
      ensures Some(Value()) == Step(old(Value()), op)
    {
      match op
      case AddPrepare => AddPrepare();
      case GetPrepare => GetPrepare();
      case AddItem(item) => var _ := Add(item);
      case GetItem(kind) => var _ := Get(kind);
    }

    method AddAll(items: seq<Item>)
      requires memory == [] && |Images(items)| <= LONG_MAX
      modifies this`memory
      ensures memory == Images(items)
    {
      for n := 0 to |items|
        invariant memory == Images(items[..n])
      {
        ImagesCut(items, n);
        var status := Add(items[n]);
      }
      assert items[..|items|] == items;
    }

    method GetAll(items: seq<Item>) returns (read: seq<Item>)
      requires memory == Images(items) && selector == 0
      modifies this`selector
      ensures read == items && selector == |memory|
    {
      read := [];
      for n := 0 to |items|
        invariant read == items[..n]
        invariant selector == |Images(items[..n])| <= |memory|
      {
        ReadsNext(items, n, memory);
        PrefixNext(items, n);
        var reading := Get(KindOfItem(items[n]));
        read := read + [reading.item];
      }
      assert items[..|items|] == items;
    }

    // A list of items added, then as many read by their kinds: the same come back, and
    // nothing is left to read.
    method RoundTrip(items: seq<Item>) returns (read: seq<Item>)
      requires |Images(items)| <= LONG_MAX
      modifies this
      ensures read == items
      ensures memory == Images(items) && selector == |memory|
    {
      AddPrepare();
      AddAll(items);
      GetPrepare();
      read := GetAll(items);
    }
  }

  // ----- What is added reads back -----

  lemma {:induction false} ImagesJoined(a: seq<Item>, b: seq<Item>)
    ensures Images(a + b) == Images(a) + Images(b)
    decreases |a|
  {
    if a == [] {
      assert a + b == b;
    } else {
      assert (a + b)[1..] == a[1..] + b;
      ImagesJoined(a[1..], b);
      Associate(Image(a[0]), Images(a[1..]), Images(b));
    }
  }

  lemma ImagesOne(item: Item)
    ensures Images([item]) == Image(item)
  {
    assert [item][1..] == [];
  }

  // The image of the n-th item stands after those of the items before it.
  lemma ImagesCut(items: seq<Item>, n: nat)
    requires n < |items|
    ensures Images(items[..n + 1]) == Images(items[..n]) + Image(items[n])
    ensures Images(items) == Images(items[..n]) + Image(items[n]) + Images(items[n + 1..])
  {
    ImagesNext(items, n);
    SplitAround(items, n);
    ImagesJoined(items[..n] + [items[n]], items[n + 1..]);
    ImagesJoined(items[..n], [items[n]]);
    ImagesOne(items[n]);
  }

  lemma ImagesNext(items: seq<Item>, n: nat)
    requires n < |items|
    ensures Images(items[..n + 1]) == Images(items[..n]) + Image(items[n])
  {
    PrefixNext(items, n);
    ImagesJoined(items[..n], [items[n]]);
    ImagesOne(items[n]);
  }

  lemma {:induction false} TerminatorOf(memory: seq<byte>, at: nat, end: nat)
    requires at <= end < |memory| && memory[end] == 0 && 0 !in memory[at..end]
    ensures Terminator(memory, at) == end
    decreases end - at
  {
    if at < end {
      assert memory[at] in memory[at..end];
      assert memory[at + 1..end] == memory[at..end][1..];
      TerminatorOf(memory, at + 1, end);
    }
  }

  lemma TextReadsBack(text: FV.Text, at: nat, memory: Data)
    requires at + |text| < |memory| && memory[at..at + |text|] == text && memory[at + |text|] == 0
    ensures ReadText(memory, at) == Got(Of(FV.StringValue(text)), at + |text| + 1)
  {
    TerminatorOf(memory, at, at + |text|);
  }

  lemma BinaryReadsBack(data: Data, at: nat, memory: Data)
    requires at + 8 + |data| <= |memory|
    requires memory[at..at + 8] == EncodeLong(|data|) && memory[at + 8..at + 8 + |data|] == data
    ensures ReadBinary(memory, at) == Got(Of(FV.BinaryValue(data)), at + 8 + |data|)
  {
    DecodeEncodeLong(|data|);
  }

  lemma FixedReadsBack(value: FV.Value, at: nat, memory: Data)
    requires !value.StringValue? && !value.BinaryValue?
    requires at + |FV.Bytes(value)| <= |memory| && memory[at..at + |FV.Bytes(value)|] == FV.Bytes(value)
    ensures ReadFixed(FV.ValueType(value), memory, at) == Got(Of(value), at + |FV.Bytes(value)|)
  {
    FV.ValueOfBytes(value);
  }

  // Wherever an item's image stands, with anything before and after it, a read of its kind
  // gives the item and ends right after it.
  lemma ReadsBack(before: seq<byte>, item: Item, after: seq<byte>, memory: Data)
    requires memory == before + Image(item) + after
    ensures ReadAt(KindOfItem(item), memory, |before|) == Got(item, |before| + |Image(item)|)
  {
    SliceInside(before, Image(item), after);
    match item
    case Flag(flag) => assert memory[|before|] == Image(item)[0];
    case Of(value) => ValueReadsBack(value, |before|, memory);
  }

  lemma ValueReadsBack(value: FV.Value, at: nat, memory: Data)
    requires var image := Image(Of(value)); at + |image| <= |memory| && memory[at..at + |image|] == image
    ensures ReadAt(KindOf(FV.ValueType(value)), memory, at) == Got(Of(value), at + |Image(Of(value))|)
  {
    if value.StringValue? {
      Cut(memory, at, value.text, [0]);
      TextReadsBack(value.text, at, memory);
    } else if value.BinaryValue? {
      Cut(memory, at, EncodeLong(|value.binary|), value.binary);
      BinaryReadsBack(value.binary, at, memory);
    } else {
      FixedReadsBack(value, at, memory);
    }
  }

  lemma SliceInside(before: seq<byte>, image: seq<byte>, after: seq<byte>)
    ensures |before + image + after| == |before| + |image| + |after|
    ensures (before + image + after)[|before|..|before| + |image|] == image
  {
  }

  lemma Cut(memory: seq<byte>, at: nat, first: seq<byte>, second: seq<byte>)
    requires at + |first| + |second| <= |memory|
    requires memory[at..at + (|first| + |second|)] == first + second
    ensures memory[at..at + |first|] == first
    ensures memory[at + |first|..at + |first| + |second|] == second
    ensures |second| > 0 ==> memory[at + |first|] == second[0]
  {
    var whole := memory[at..at + (|first| + |second|)];
    assert whole[..|first|] == first && whole[|first|..] == second;
    assert memory[at..at + |first|] == whole[..|first|];
    assert memory[at + |first|..at + |first| + |second|] == whole[|first|..];
  }

  lemma ReadsNext(items: seq<Item>, n: nat, memory: Data)
    requires n < |items| && memory == Images(items)
    ensures ReadAt(KindOfItem(items[n]), memory, |Images(items[..n])|) == Got(items[n], |Images(items[..n + 1])|)
    ensures |Images(items[..n + 1])| <= |memory|
  {
    ImagesCut(items, n);
    ReadsBack(Images(items[..n]), items[n], Images(items[n + 1..]), memory);
  }

  // What a read gives is what stands there: the bytes passed over are the image of the item,
  // but for a flag, of which any byte that is not 0 is true.
  lemma GotIsImage(kind: Kind, memory: Data, at: int)
    requires ReadAt(kind, memory, at).Got?
    ensures var (item, next) := (ReadAt(kind, memory, at).item, ReadAt(kind, memory, at).next);
            && 0 <= at < |memory| && at <= next <= |memory| && KindOfItem(item) == kind
            && (if item.Flag? then next == at + 1 && (item.flag <==> memory[at] != 0)
                else Image(item) == memory[at..next])
  {
    match kind
    case KindOf(String) => TextIsImage(memory, at);
    case KindOf(Binary) => BinaryIsImage(memory, at);
    case KindOf(t) => FixedIsImage(t, memory, at);
    case FlagKind =>
  }

  lemma FixedIsImage(t: FV.FieldType, memory: Data, at: nat)
    requires at <= |memory| && t != FV.String && t != FV.Binary && ReadFixed(t, memory, at).Got?
    ensures var reading := ReadFixed(t, memory, at);
            && at < reading.next <= |memory| && KindOfItem(reading.item) == KindOf(t) && reading.item.Of?
            && Image(reading.item) == memory[at..reading.next]
  {
    FV.BytesOfValue(t, memory[at..at + Width(t)]);
  }

  lemma TextIsImage(memory: Data, at: nat)
    requires at <= |memory| && ReadText(memory, at).Got?
    ensures var reading := ReadText(memory, at);
            && at < reading.next <= |memory| && KindOfItem(reading.item) == KindOf(FV.String) && reading.item.Of?
            && Image(reading.item) == memory[at..reading.next]
  {
    var n := Terminator(memory, at);
    assert memory[at..n + 1] == memory[at..n] + [0];
  }

  lemma BinaryIsImage(memory: Data, at: nat)
    requires at <= |memory| && ReadBinary(memory, at).Got?
    ensures var reading := ReadBinary(memory, at);
            && at < reading.next <= |memory| && KindOfItem(reading.item) == KindOf(FV.Binary) && reading.item.Of?
            && Image(reading.item) == memory[at..reading.next]
  {
    EncodeDecodeLong(memory[at..at + 8]);
    var end := at + 8 + DecodeLong(memory[at..at + 8]);
    assert memory[at..end] == memory[at..at + 8] + memory[at + 8..end];
  }

  // ----- Where a read leaves the cursor -----

  // How far a read of a kind reaches, by what is stored where it starts; none when what it
  // goes by is not there.
  function Reach(kind: Kind, memory: Data, at: nat): Option<int>
    requires at <= |memory|
  {
    match kind
    case FlagKind => Some(at + 1)
    case KindOf(String) => if Terminator(memory, at) < |memory| then Some(Terminator(memory, at) + 1) else None
    case KindOf(Binary) => if at + 8 <= |memory| then Some(at + 8 + DecodeLong(memory[at..at + 8])) else None
    case KindOf(t) => Some(at + Width(t))
  }

  // A read is out of bounds exactly when there is nothing to go by or its reach passes the
  // end, short of an overflow; one that succeeds moves the cursor to where it reaches, be it
  // before the memory.
  lemma OutsideExactly(kind: Kind, memory: Data, at: nat)
    requires at <= |memory|
    ensures var reach := Reach(kind, memory, at);
            var reading := ReadAt(kind, memory, at);
            && (reading.Undefined? <==> kind == KindOf(FV.Binary) && reach.Some? && reach.value > LONG_MAX)
            && (reading.Outside? <==> !reading.Undefined? && (reach.None? || reach.value > |memory|))
            && (reading.Got? || reading.Broken? ==> reading.next == reach.value)
  {
    match kind
    case KindOf(Binary) => BinaryExactly(memory, at);
    case KindOf(String) =>
    case FlagKind =>
    case KindOf(t) =>
  }

  lemma BinaryExactly(memory: Data, at: nat)
    requires at <= |memory|
    ensures var reach := Reach(KindOf(FV.Binary), memory, at);
            var reading := ReadBinary(memory, at);
            && (reading.Undefined? <==> reach.Some? && reach.value > LONG_MAX)
            && (reading.Outside? <==> !reading.Undefined? && (reach.None? || reach.value > |memory|))
            && (reading.Got? || reading.Broken? ==> reading.next == reach.value)
  {
  }

  // Binary data is stored here with a size that leads to before the start of the memory.
  predicate LeadsBefore(kind: Kind, memory: Data, at: nat)
    requires at <= |memory|
  {
    kind == KindOf(FV.Binary) && at + 8 <= |memory| && DecodeLong(memory[at..at + 8]) < -(at + 8)
  }

  // Binary data is stored here with a size too large to be added to its place.
  predicate Overflows(kind: Kind, memory: Data, at: nat)
    requires at <= |memory|
  {
    kind == KindOf(FV.Binary) && at + 8 <= |memory| && DecodeLong(memory[at..at + 8]) > LONG_MAX - (at + 8)
  }

  // A read has a defined outcome if and only if it is not of data too large, and then leaves
  // the cursor in the memory if and only if it is not of data that leads before the start.
  lemma StaysInsideExactly(kind: Kind, memory: Data, at: nat)
    requires at <= |memory|
    ensures var reading := ReadAt(kind, memory, at);
            && (reading.Undefined? <==> Overflows(kind, memory, at))
            && (!reading.Undefined? ==>
                  (Inside(State(memory, CursorAfter(reading, at))) <==> !LeadsBefore(kind, memory, at)))
  {
    OutsideExactly(kind, memory, at);
  }

  // The cursor gets on with every read that succeeds, except one of binary data with a
  // stored size of -8 or less.
  lemma GetsOnExactly(kind: Kind, memory: Data, at: nat)
    requires at <= |memory|
    requires var reading := ReadAt(kind, memory, at); reading.Got? || reading.Broken?
    ensures CursorAfter(ReadAt(kind, memory, at), at) > at
       <==> kind != KindOf(FV.Binary) || DecodeLong(memory[at..at + 8]) > -8
  {
    OutsideExactly(kind, memory, at);
  }

  // A stored size of -8 keeps the cursor where it is, for ever.
  lemma NeverGetsOn(memory: Data)
    requires memory == EncodeLong(-8)
    ensures ReadAt(KindOf(FV.Binary), memory, 0) == Broken(-8, 0)
  {
    DecodeEncodeLong(-8);
    assert memory[0..8] == memory;
  }

  // One of -9 is a success that puts the cursor before the memory, and whatever is read then
  // has no defined outcome.
  lemma GoesBefore(memory: Data, kind: Kind)
    requires memory == EncodeLong(-9)
    ensures ReadAt(KindOf(FV.Binary), memory, 0) == Broken(-9, -1)
    ensures ReadAt(kind, memory, -1) == Undefined
  {
    DecodeEncodeLong(-9);
    assert memory[0..8] == memory;
  }

  // The largest stored size overflows when it is added to the place behind it, which has no
  // defined outcome.
  lemma TooLarge(memory: Data)
    requires memory == EncodeLong(LONG_MAX)
    ensures Overflows(KindOf(FV.Binary), memory, 0)
    ensures ReadAt(KindOf(FV.Binary), memory, 0) == Undefined
    ensures Escapes(State(memory, 0), GetItem(KindOf(FV.Binary)))
  {
    DecodeEncodeLong(LONG_MAX);
    assert memory[0..8] == memory;
  }

  // ----- Whole runs -----

  // Every operation has a defined outcome, and the cursor is in the memory throughout.
  predicate StaysInside(st: State, run: seq<Operation>)
    decreases |run|
  {
    Inside(st) && (run == [] || var next := Step(st, run[0]); next.Some? && StaysInside(next.value, run[1..]))
  }

  // The three operations after which the cursor is not known to be in the memory: resetting
  // the memory under a cursor that is not at the start, and getting binary data that leads
  // before the start or is too large.
  predicate Escapes(st: State, op: Operation)
    requires Inside(st)
  {
    || (op.AddPrepare? && st.cursor > 0)
    || (op.GetItem? && (LeadsBefore(op.kind, st.memory, st.cursor) || Overflows(op.kind, st.memory, st.cursor)))
  }

  lemma StepInsideExactly(st: State, op: Operation)
    requires Inside(st)
    ensures Step(st, op).Some? && Inside(Step(st, op).value) <==> !Escapes(st, op)
  {
    if op.GetItem? { StaysInsideExactly(op.kind, st.memory, st.cursor); }
  }

  // The state after the first n operations, as long as each has a defined outcome.
  function After(st: State, run: seq<Operation>, n: nat): Option<State>
    requires n <= |run|
    decreases n
  {
    if n == 0 then Some(st)
    else
      var before := After(st, run, n - 1);
      if before.None? then None else Step(before.value, run[n - 1])
  }

  lemma {:induction false} AfterFirst(st: State, run: seq<Operation>, n: nat)
    requires 0 < n <= |run| && Step(st, run[0]).Some?
    ensures After(st, run, n) == After(Step(st, run[0]).value, run[1..], n - 1)
    decreases n
  {
    if n > 1 { AfterFirst(st, run, n - 1); }
  }

  // The n-th operation starts with the cursor in the memory and escapes.
  predicate EscapesAt(st: State, run: seq<Operation>, n: nat)
    requires n < |run|
  {
    var now := After(st, run, n);
    now.Some? && Inside(now.value) && Escapes(now.value, run[n])
  }

  lemma EscapesLater(st: State, run: seq<Operation>, n: nat)
    requires 0 < n < |run| && Step(st, run[0]).Some?
    ensures EscapesAt(st, run, n) <==> EscapesAt(Step(st, run[0]).value, run[1..], n - 1)
  {
    AfterFirst(st, run, n);
  }

  // A run that starts with the cursor in the memory keeps it there throughout, with a defined
  // outcome of every operation, if and only if none of its operations is one of the three.
  lemma {:induction false} RunStaysInside(st: State, run: seq<Operation>)
    requires Inside(st)
    ensures StaysInside(st, run) <==> forall n :: 0 <= n < |run| ==> !EscapesAt(st, run, n)
    decreases |run|
  {
    if run != [] {
      StepInsideExactly(st, run[0]);
      assert After(st, run, 0) == Some(st);
      if !Escapes(st, run[0]) {
        RunStaysInside(Step(st, run[0]).value, run[1..]);
        LaterEscapes(st, run);
      } else {
        assert EscapesAt(st, run, 0);
      }
    }
  }

  lemma LaterEscapes(st: State, run: seq<Operation>)
    requires Inside(st) && run != [] && Step(st, run[0]).Some? && !Escapes(st, run[0])
    ensures (forall n :: 0 <= n < |run| ==> !EscapesAt(st, run, n))
       <==> forall n :: 0 <= n < |run| - 1 ==> !EscapesAt(Step(st, run[0]).value, run[1..], n)
  {
    assert After(st, run, 0) == Some(st);
    forall n | 0 < n < |run|
      ensures EscapesAt(st, run, n) <==> EscapesAt(Step(st, run[0]).value, run[1..], n - 1)
    {
      EscapesLater(st, run, n);
    }
    if n :| 0 <= n < |run| - 1 && EscapesAt(Step(st, run[0]).value, run[1..], n) {
      assert EscapesAt(st, run, n + 1);
    }
  }
}
