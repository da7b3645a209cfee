/**
 The fielded buffer: a byte vector with packed records and, beside it, an index from field id to
 the byte offsets of its occurrences. The index is built once by a scan; after that every edit
 keeps it up to date by pushing, erasing and shifting offsets.
 */
module FieldBuffer {
  import opened ByteOrder
  import opened FieldRecords
  import opened Sequences
  import opened FieldLayout
  import opened FieldValues
  import FieldIteration
  import FieldScan
  import opened Wrappers

  /** The inner loop over the offsets of one id. */
  method ShiftOccurrences(before: seq<int>, at: int, delta: int) returns (occurrences: seq<int>)
    ensures occurrences == Shift(before, at, delta)
  {
    occurrences := before;
    for i := 0 to |before|
      invariant occurrences == Shift(before[..i], at, delta) + before[i..]
    {
      ShiftNext(before, i, at, delta);
      if occurrences[i] > at {
        occurrences := occurrences[i := occurrences[i] + delta];
      }
    }
    assert before[..|before|] == before;
  }

  lemma ShiftNext(before: seq<int>, i: nat, at: int, delta: int)
    requires i < |before|
    ensures var now := Shift(before[..i], at, delta) + before[i..];
            && now[i] == before[i]
            && Shift(before[..i + 1], at, delta) + before[i + 1..]
               == if before[i] > at then now[i := before[i] + delta] else now
  {
    PrefixNext(before, i);
    ShiftSnoc(before[..i], before[i], at, delta);
  }

  /** Erases one offset of an id, and the id once it has none left. */
  method DropOccurrence(before: Index, id: long, k: int) returns (index: Index)
    requires id in before && 0 <= k < |before[id]|
    ensures index == DropFromIndex(before, id, k)
  {
    var occurrences := RemoveAt(before[id], k);
    index := before[id := occurrences];
    if occurrences == [] {
      index := index - {id};
    }
  }

  class Buffer {
    var memory: seq<byte>
    var index: Index

    /** The records the memory holds. */
    ghost var records: seq<Record>

    /** The memory is the layout of the records and the index is what a scan of it would give. */
    ghost predicate Valid()
      reads this
    {
      && memory == Memory(records)
      && index == IndexOf(records)
    }

    constructor ()
      ensures Valid() && records == []
    {
      memory := [];
      index := map[];
      records := [];
    }

    /** Scanning the memory afresh finds exactly the index that was kept incrementally. */
    method Rescan() returns (r: FieldScan.Scanned)
      requires Valid()
      ensures r == FieldScan.Indexed(index)
    {
      r := FieldScan.Scan(memory);
      FieldScan.ScanOfRecords(records);
      FieldScan.ScansOnce(memory, r, FieldScan.Indexed(index));
    }

    // ----- exploring and reading

    method Count(id: long) returns (n: int)
      requires Valid()
      ensures n == |Values(records, id)|
    {
      IdsHaveValues(records, id);
      if id in index {
        n := |index[id]|;
      } else {
        n := 0;
      }
    }

    /** The offset of occurrence `k` of `id` and the size stored there. */
    method Locate(id: long, k: int) returns (found: bool, at: int, size: int)
      requires Valid()
      ensures found == (0 <= k < |Values(records, id)|)
      ensures found ==> id in index && at == Offsets(records, id)[k] && size == |Values(records, id)[k]|
      ensures found ==> 0 <= at && at + DATA_OFFSET + size <= |memory|
      ensures found ==> memory[at + DATA_OFFSET..at + DATA_OFFSET + size] == Values(records, id)[k]
    {
      IdsHaveValues(records, id);
      if id !in index || !(0 <= k < |index[id]|) {
        return false, 0, 0;
      }
      at := index[id][k];
      RecordAtOffset(records, id, k, at);
      return true, at, HeaderSize(memory[at..]);
    }

    /** The data of occurrence `k` of `id`, as it lies in the memory. */
    method Get(id: long, k: int) returns (r: Result<Data, Status>)
      requires Valid()
      ensures r == if 0 <= k < |Values(records, id)| then Ok(Values(records, id)[k]) else Err(OutOfBounds)
    {
      var found, at, size := Locate(id, k);
      if !found {
        return Err(OutOfBounds);
      }
      return Ok(memory[at + DATA_OFFSET..at + DATA_OFFSET + size]);
    }

    // ----- the three edits

    method Append(id: long, data: Data)
      requires Valid()
      modifies this
      ensures Valid()
      ensures records == FieldRecords.Append(old(records), id, data)
    {
      var used := |memory|;
      memory := memory + EncodeLong(id);
      memory := memory + EncodeLong(|data|);
      memory := memory + data;
      AppendMemory(records, id, data);
      IdsHaveValues(records, id);
      AppendIndex(records, id, data);
      index := index[id := (if id in index then index[id] else []) + [used]];
      records := FieldRecords.Append(records, id, data);
    }

    /** Moves every offset beyond `at` by `delta`, through the whole index. */
    method ShiftOffsets(at: int, delta: int)
      modifies this`index
      ensures index == ShiftIndex(old(index), at, delta)
    {
      var todo := index.Keys;
      while todo != {}
        invariant todo <= index.Keys && index.Keys == old(index).Keys
        invariant forall id | id in index ::
                    index[id] == if id in todo then old(index)[id] else Shift(old(index)[id], at, delta)
      {
        var id :| id in todo;
        var occurrences := ShiftOccurrences(index[id], at, delta);
        index := index[id := occurrences];
        todo := todo - {id};
      }
    }

    /** The part of an update after the offset and the current size have been found. */
    method ExchangeAt(id: long, k: nat, data: Data, at: int, current: int)
      requires Valid() && k < |Values(records, id)|
      requires at == Offsets(records, id)[k] && current == |Values(records, id)[k]|
      modifies this
      ensures Valid() && records == FieldRecords.Update(old(records), id, k, data)
    {
      ghost var rs, after := records, FieldRecords.Update(records, id, k, data);
      var delta := |data| - current;
      RecordAtOffset(rs, id, k, at);
      memory := ExchangeData(memory, at, current, data);
      assert memory == Memory(after) by {
        UpdateMemory(rs, id, k, data, at, current);
      }
      ShiftOffsets(at, delta);
      assert index == IndexOf(after) by {
        UpdateIndex(rs, id, k, data, at, delta);
      }
      records := after;
    }

    /** Exchanges the data of one occurrence, in place; out of bounds changes nothing. */
    method Update(id: long, k: int, data: Data) returns (status: Status)
      requires Valid()
      modifies this
      ensures Valid()
      ensures status == if 0 <= k < |Values(old(records), id)| then Success else OutOfBounds
      ensures records == if 0 <= k < |Values(old(records), id)|
                         then FieldRecords.Update(old(records), id, k, data)
                         else old(records)
    {
      var found, at, current := Locate(id, k);
      if !found {
        return OutOfBounds;
      }
      ExchangeAt(id, k, data, at, current);
      return Success;
    }

    /** The part of a removal after the offset and the size have been found. */
    method EraseAt(id: long, k: nat, at: int, size: int)
      requires Valid() && k < |Values(records, id)| && id in index
      requires at == Offsets(records, id)[k] && size == |Values(records, id)[k]|
      modifies this
      ensures Valid() && records == FieldRecords.Remove(old(records), id, k)
    {
      ghost var rs, after := records, FieldRecords.Remove(records, id, k);
      var delta := 0 - DATA_OFFSET - size;
      RecordAtOffset(rs, id, k, at);
      memory := memory[..at] + memory[at + DATA_OFFSET + size..];
      assert memory == Memory(after) by {
        RemoveMemory(rs, id, k, at, size);
      }
      index := DropOccurrence(index, id, k);
      ShiftOffsets(at, delta);
      assert index == IndexOf(after) by {
        RemoveIndex(rs, id, k, at, delta);
      }
      records := after;
    }

    /** Erases one occurrence; only ids above NO_ID are accepted. */
    method RemoveOccurrence(id: long, k: int) returns (status: Status)
      requires Valid()
      modifies this
      ensures Valid()
      ensures status == if id <= NO_ID then InvalidArgument
                        else if 0 <= k < |Values(old(records), id)| then Success else OutOfBounds
      ensures records == if status == Success then FieldRecords.Remove(old(records), id, k) else old(records)
    {
      if !(id > NO_ID) {
        return InvalidArgument;
      }
      var found, at, size := Locate(id, k);
      if !found {
        return OutOfBounds;
      }
      EraseAt(id, k, at, size);
      return Success;
    }

    // ----- the interface on top of the edits

    method RemoveAll()
      requires Valid()
      modifies this
      ensures Valid() && records == []
    {
      memory := [];
      index := map[];
      records := [];
    }

    /**
     Removes every occurrence of an id, last one first. The outcome of the single removals is not
     looked at, so an id that they refuse is left in place although success is reported.
     */
    method RemoveId(id: long) returns (status: Status)
      requires Valid()
      modifies this
      ensures Valid() && status == Success
      ensures records == if id > NO_ID then Without(old(records), id) else old(records)
    {
      var occurrences := Count(id);
      while occurrences != 0
        invariant Valid() && occurrences >= 0
        invariant id > NO_ID ==> occurrences == |Values(records, id)|
        invariant id > NO_ID ==> Without(records, id) == Without(old(records), id)
        invariant id <= NO_ID ==> records == old(records)
        decreases occurrences
      {
        occurrences := occurrences - 1;
        ghost var before := records;
        var ignored := RemoveOccurrence(id, occurrences);
        if id > NO_ID {
          RemoveValues(before, id, occurrences, id);
          WithoutRemoved(before, Position(before, id, occurrences));
        }
      }
      if id > NO_ID {
        WithoutAbsent(records, id);
      }
      return Success;
    }

    /** Adds a value; its type has to be the one the id carries. */
    method Add(id: long, v: Value) returns (status: Status)
      requires Valid()
      modifies this
      ensures Valid()
      ensures status == if TypeOf(id) == Some(ValueType(v)) then Success else InvalidArgument
      ensures records == if status == Success
                         then FieldRecords.Append(old(records), id, Bytes(v)) else old(records)
    {
      if Some(ValueType(v)) != TypeOf(id) {
        return InvalidArgument;
      }
      Append(id, Bytes(v));
      return Success;
    }

    method AddEmpty(id: long) returns (status: Status)
      requires Valid()
      modifies this
      ensures Valid()
      ensures status == if TypeOf(id).Some? then Success else InvalidArgument
      ensures records == if status == Success
                         then FieldRecords.Append(old(records), id, Bytes(EmptyValue(TypeOf(id).value)))
                         else old(records)
      ensures status == Success ==>
        Values(records, id) == Values(old(records), id) + [Zeros(EmptySize(TypeOf(id).value))]
    {
      if TypeOf(id).Some? {
        EmptyBytes(TypeOf(id).value);
        AppendValues(records, id, Zeros(EmptySize(TypeOf(id).value)), id);
      }
      match TypeOf(id) {
        case None => return InvalidArgument;
        case Some(t) => status := Add(id, EmptyValue(t));
      }
    }

    method Set(id: long, k: int, v: Value) returns (status: Status)
      requires Valid()
      modifies this
      ensures Valid()
      ensures status == if TypeOf(id) != Some(ValueType(v)) then InvalidArgument
                        else if 0 <= k < |Values(old(records), id)| then Success else OutOfBounds
      ensures records == if status == Success
                         then FieldRecords.Update(old(records), id, k, Bytes(v)) else old(records)
    {
      if Some(ValueType(v)) != TypeOf(id) {
        return InvalidArgument;
      }
      status := Update(id, k, Bytes(v));
    }

    /**
     Sets occurrence `k`, adding empty ones until there is one to set; a negative `k` adds.
     The caller hands over a value of the type the id carries.
     */
    method Put(id: long, k: int, v: Value) returns (status: Status)
      requires Valid()
      requires TypeOf(id).Some? ==> TypeOf(id).value == ValueType(v)
      modifies this
      ensures Valid()
      ensures status == if TypeOf(id).Some? then Success else InvalidArgument
      ensures records == if TypeOf(id).None? then old(records)
                         else if k < 0 then FieldRecords.Append(old(records), id, Bytes(v))
                         else PutAt(old(records), id, k, Bytes(v), Bytes(EmptyValue(ValueType(v))))
      decreases k + 1 - |Values(records, id)|
    {
      if k < 0 {
        status := Add(id, v);
        return;
      }
      status := Set(id, k, v);
      if status == OutOfBounds {
        ghost var before := records;
        var added := AddEmpty(id);
        if added != Success {
          return added;
        }
        PutAfterEmpty(before, id, k, Bytes(v), Bytes(EmptyValue(ValueType(v))));
        AppendValues(before, id, Bytes(EmptyValue(ValueType(v))), id);
        status := Put(id, k, v);
      }
    }

    // ----- copying

    method CopyBuffer(source: Buffer)
      requires Valid() && source.Valid()
      modifies this
      ensures Valid() && records == old(source.records)
    {
      memory := source.memory;
      index := source.index;
      records := source.records;
    }

    /**
     Takes over raw memory exactly if its scan gives an index; no status stands for a scan that
     has no outcome, of which nothing else is said. What is taken over is a record list, and the
     buffer goes on as one, if and only if the scan met no negative size.
     */
    method CopyMemory(raw: seq<byte>) returns (status: Option<Status>)
      requires Valid()
      modifies this
      ensures status == Some(Success) ==> FieldScan.Scans(raw, FieldScan.Indexed(index)) && memory == raw
      ensures status == Some(Success) ==> (Valid() <==> !FieldScan.MeetsNegative(raw))
      ensures status == Some(InvalidHandle) <==> FieldScan.Scans(raw, FieldScan.Comprised)
      ensures status == Some(InvalidHandle) ==> Valid() && records == old(records)
      ensures status in {None, Some(Success), Some(InvalidHandle)}
      ensures Parse(raw).Some? ==> status == Some(Success) && Valid() && records == Parse(raw).value
    {
      var scanned := FieldScan.Scan(raw);
      OnlyOutcome(raw, scanned);
      match scanned {
        case Indexed(found) =>
          memory := raw;
          index := found;
          FieldScan.IndexedExactly(raw, found);
          if Parse(raw).Some? {
            MemoryParse(raw);
            records := Parse(raw).value;
          } else {
            ParseMemory(records);
          }
          return Some(Success);
        case Comprised => return Some(InvalidHandle);
        case _ => return None;
      }
    }

    // ----- iterating

    /** The next field after the one the caller holds, by id and then by occurrence. */
    method Next(c: FieldIteration.Cursor) returns (status: Status, next: FieldIteration.Cursor)
      requires Valid()
      ensures (status, next) == FieldIteration.Next(records, c)
    {
      assert index.Keys == Ids(records);
      if c.id == NO_ID {
        if index == map[] {
          return OutOfBounds, c;
        }
        return Success, FieldIteration.Cursor(FieldIteration.Least(index.Keys), 0);
      }
      if c.id !in index {
        return InvalidArgument, c;
      }
      next := c.(occurrence := c.occurrence + 1);
      if 0 <= next.occurrence < |index[c.id]| {
        return Success, next;
      }
      var higher := FieldIteration.Above(index.Keys, c.id);
      if higher == {} {
        return OutOfBounds, next;
      }
      return Success, FieldIteration.Cursor(FieldIteration.Least(higher), 0);
    }

    // ----- runs

    method PerformOne(op: Operation)
      requires Valid() && Accepted(op)
      modifies this
      ensures Valid() && records == Outcome(old(records), op)
    {
      match op {
        case AddValue(id, v) => var _ := Add(id, v);
        case SetValue(id, k, v) => var _ := Set(id, k, v);
        case PutValue(id, k, v) => var _ := Put(id, k, v);
        case RemoveOne(id, k) => var _ := RemoveOccurrence(id, k);
        case RemoveField(id) => var _ := RemoveId(id);
        case RemoveEverything => RemoveAll();
        case AddEmptyTo(id) => var _ := AddEmpty(id);
        case CopyRaw(raw) =>
          OnlyOutcome(raw, FieldScan.Comprised);
          var _ := CopyMemory(raw);
        case CopyFrom(rs) =>
          ParseMemory(rs);
          var source := new Buffer();
          var _ := source.CopyMemory(Memory(rs));
          CopyBuffer(source);
      }
    }

    /** After any run the memory holds the records of the run and the index is that of a scan. */
    method Perform(run: seq<Operation>)
      requires Valid()
      requires forall op | op in run :: Accepted(op)
      modifies this
      ensures Valid() && records == Outcomes(old(records), run)
    {
      for i := 0 to |run|
        invariant Valid() && records == Outcomes(old(records), run[..i])
      {
        assert Init(run[..i + 1]) == run[..i] && run[i] in run;
        PerformOne(run[i]);
      }
      assert run[..|run|] == run;
    }
  }

  // ----- what a run does to the records

  datatype Operation =
    | AddValue(id: long, v: Value)
    | SetValue(id: long, k: int, v: Value)
    | PutValue(id: long, k: int, v: Value)
    | RemoveOne(id: long, k: int)
    | RemoveField(id: long)
    | RemoveEverything
    | AddEmptyTo(id: long)
    | CopyRaw(raw: seq<byte>)
    | CopyFrom(rs: seq<Record>)

  /**
   A put reads the value through a pointer whose type it takes from the id. Raw memory is
   comprised or a record list: a scan that meets a negative size can take over other memory.
   */
  ghost predicate Accepted(op: Operation)
  {
    && (op.PutValue? && TypeOf(op.id).Some? ==> TypeOf(op.id).value == ValueType(op.v))
    && (op.CopyRaw? ==> Parse(op.raw).Some? || FieldScan.Scans(op.raw, FieldScan.Comprised))
  }

  /** The outcome a scan has is its only one, and a record list is scanned to its index. */
  lemma OnlyOutcome(raw: seq<byte>, r: FieldScan.Scanned)
    ensures FieldScan.Scans(raw, r) ==> (FieldScan.Scans(raw, FieldScan.Comprised) <==> r == FieldScan.Comprised)
    ensures FieldScan.Scans(raw, r) && Parse(raw).Some? ==> r == FieldScan.Indexed(IndexOf(Parse(raw).value))
  {
    if FieldScan.Scans(raw, r) {
      if FieldScan.Scans(raw, FieldScan.Comprised) {
        FieldScan.ScansOnce(raw, r, FieldScan.Comprised);
      }
      if Parse(raw).Some? {
        MemoryParse(raw);
        FieldScan.ScanOfRecords(Parse(raw).value);
        FieldScan.ScansOnce(raw, r, FieldScan.Indexed(IndexOf(Parse(raw).value)));
      }
    }
  }

  function Outcome(rs: seq<Record>, op: Operation): seq<Record>
  {
    match op
    case AddValue(id, v) =>
      if TypeOf(id) == Some(ValueType(v)) then FieldRecords.Append(rs, id, Bytes(v)) else rs
    case SetValue(id, k, v) =>
      if TypeOf(id) == Some(ValueType(v)) && 0 <= k < |Values(rs, id)|
      then FieldRecords.Update(rs, id, k, Bytes(v)) else rs
    case PutValue(id, k, v) =>
      if TypeOf(id).None? then rs
      else if k < 0 then FieldRecords.Append(rs, id, Bytes(v))
      else PutAt(rs, id, k, Bytes(v), Bytes(EmptyValue(ValueType(v))))
    case RemoveOne(id, k) =>
      if id > NO_ID && 0 <= k < |Values(rs, id)| then FieldRecords.Remove(rs, id, k) else rs
    case RemoveField(id) => if id > NO_ID then Without(rs, id) else rs
    case RemoveEverything => []
    case AddEmptyTo(id) =>
      if TypeOf(id).Some? then FieldRecords.Append(rs, id, Bytes(EmptyValue(TypeOf(id).value))) else rs
    case CopyRaw(raw) => if Parse(raw).Some? then Parse(raw).value else rs
    case CopyFrom(others) => others
  }

  function Outcomes(rs: seq<Record>, run: seq<Operation>): seq<Record>
  {
    if run == [] then rs else Outcome(Outcomes(rs, Init(run)), Last(run))
  }

  predicate Concerns(op: Operation, id: long)
  {
    op.RemoveEverything? || op.CopyRaw? || op.CopyFrom? || op.id == id
  }

  /** Over any run, the values of an id change only through operations on that very id. */
  lemma {:induction false} RunLeavesOthers(rs: seq<Record>, run: seq<Operation>, id: long)
    requires forall op | op in run :: !Concerns(op, id)
    ensures Values(Outcomes(rs, run), id) == Values(rs, id)
  {
    if run != [] {
      RunLeavesOthers(rs, Init(run), id);
      assert Last(run) in run;
      OutcomeLeavesOthers(Outcomes(rs, Init(run)), Last(run), id);
    }
  }

  lemma OutcomeLeavesOthers(rs: seq<Record>, op: Operation, id: long)
    requires !Concerns(op, id)
    ensures Values(Outcome(rs, op), id) == Values(rs, id)
  {
    match op {
      case AddValue(other, v) => AppendValues(rs, other, Bytes(v), id);
      case SetValue(other, k, v) =>
        if 0 <= k < |Values(rs, other)| {
          UpdateValues(rs, other, k, Bytes(v), id);
        }
      case PutValue(other, k, v) =>
        AppendValues(rs, other, Bytes(v), id);
        if k >= 0 {
          PutValues(rs, other, k, Bytes(v), Bytes(EmptyValue(ValueType(v))), id);
        }
      case RemoveOne(other, k) =>
        if 0 <= k < |Values(rs, other)| {
          RemoveValues(rs, other, k, id);
        }
      case RemoveField(other) => WithoutValues(rs, other, id);
      case AddEmptyTo(other) =>
        if TypeOf(other).Some? {
          AppendValues(rs, other, Bytes(EmptyValue(TypeOf(other).value)), id);
        }
    }
  }

  /**
   The index of any record list: the offsets of an id ascend strictly, none is missing, each
   leads to a header with that very id, and the memory is the sum of 16 + size over the records.
   */
  lemma IndexIsSound(rs: seq<Record>, id: long)
    requires id in IndexOf(rs)
    ensures IndexOf(rs)[id] != []
    ensures forall i, j | 0 <= i < j < |IndexOf(rs)[id]| :: IndexOf(rs)[id][i] < IndexOf(rs)[id][j]
    ensures forall k | 0 <= k < |IndexOf(rs)[id]| :: IsHeaderAt(Memory(rs), IndexOf(rs)[id][k], id)
    ensures |Memory(rs)| == TotalSize(rs)
  {
    IdsHaveValues(rs, id);
    forall i, j | 0 <= i < j < |Offsets(rs, id)| ensures Offsets(rs, id)[i] < Offsets(rs, id)[j] {
      OffsetsAscend(rs, id, i, j);
    }
    forall k | 0 <= k < |Offsets(rs, id)| ensures IsHeaderAt(Memory(rs), Offsets(rs, id)[k], id) {
      HeaderAtOffset(rs, id, k, Offsets(rs, id)[k]);
    }
  }
}
