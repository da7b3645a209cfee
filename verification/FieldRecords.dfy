/**
 The fielded buffer seen as a list of records: the occurrences of each id, the byte offsets of
 those occurrences, and what the three edits of the buffer do to both. Only the sizes of the
 records matter here; their bytes are the subject of FieldLayout.

 Every function walks the list from its end, the way the buffer grows.
 */
module FieldRecords {
  import opened ByteOrder
  import opened Sequences

  /** Field data; its size has to fit in the 64-bit size part of the layout. */
  type Data = s: seq<byte> | |s| <= LONG_MAX

  datatype Record = Record(id: long, data: Data)

  /** For each id the byte offsets of its occurrences. */
  type Index = map<long, seq<int>>

  /** Bytes of the id and size parts that come before the data. */
  const DATA_OFFSET: int := 16

  // ----- occurrences

  /** The data of every occurrence of `id`, in buffer order. */
  function Values(rs: seq<Record>, id: long): seq<Data>
  {
    if rs == [] then []
    else if Last(rs).id == id then Values(Init(rs), id) + [Last(rs).data]
    else Values(Init(rs), id)
  }

  /** Where in the list the occurrence `k` of `id` is. */
  function Position(rs: seq<Record>, id: long, k: nat): (p: nat)
    requires k < |Values(rs, id)|
    ensures p < |rs| && rs[p].id == id && rs[p].data == Values(rs, id)[k]
  {
    if k < |Values(Init(rs), id)| then Position(Init(rs), id, k) else |rs| - 1
  }

  /** How many occurrences of its own id come before position `p`. */
  function Rank(rs: seq<Record>, p: nat): nat
    requires p < |rs|
  {
    |Values(rs[..p], rs[p].id)|
  }

  lemma {:induction false} RankOfPosition(rs: seq<Record>, id: long, k: nat)
    requires k < |Values(rs, id)|
    ensures Rank(rs, Position(rs, id, k)) == k
  {
    var p := Position(rs, id, k);
    if k < |Values(Init(rs), id)| {
      RankOfPosition(Init(rs), id, k);
      assert rs[..p] == Init(rs)[..p];
    }
  }

  /** The list up to a position short of the last one. */
  lemma RankInit(rs: seq<Record>, p: nat)
    requires p < |rs| - 1
    ensures Rank(Init(rs), p) == Rank(rs, p)
  {
    assert rs[..p] == Init(rs)[..p];
  }

  lemma {:induction false} RankBound(rs: seq<Record>, p: nat)
    requires p < |rs|
    ensures Rank(rs, p) < |Values(rs, rs[p].id)|
    ensures Values(rs, rs[p].id)[Rank(rs, p)] == rs[p].data
  {
    if p < |rs| - 1 {
      RankInit(rs, p);
      RankBound(Init(rs), p);
    }
  }

  // ----- the three edits, on records

  function Append(rs: seq<Record>, id: long, data: Data): seq<Record>
  {
    rs + [Record(id, data)]
  }

  function ReplaceAt(rs: seq<Record>, p: nat, data: Data): seq<Record>
    requires p < |rs|
  {
    rs[p := Record(rs[p].id, data)]
  }

  function Update(rs: seq<Record>, id: long, k: nat, data: Data): seq<Record>
    requires k < |Values(rs, id)|
  {
    ReplaceAt(rs, Position(rs, id, k), data)
  }

  function Remove(rs: seq<Record>, id: long, k: nat): seq<Record>
    requires k < |Values(rs, id)|
  {
    RemoveAt(rs, Position(rs, id, k))
  }

  lemma AppendInit(rs: seq<Record>, id: long, data: Data)
    ensures Init(Append(rs, id, data)) == rs && Last(Append(rs, id, data)) == Record(id, data)
  {
  }

  /** An edit short of the end of the list leaves the end alone. */
  lemma EditInit(rs: seq<Record>, p: nat, data: Data)
    requires p < |rs|
    ensures Init(ReplaceAt(rs, p, data)) == if p < |rs| - 1 then ReplaceAt(Init(rs), p, data) else Init(rs)
    ensures Last(ReplaceAt(rs, p, data)) == if p < |rs| - 1 then Last(rs) else Record(Last(rs).id, data)
    ensures RemoveAt(rs, p) == if p < |rs| - 1 then RemoveAt(Init(rs), p) + [Last(rs)] else Init(rs)
  {
  }

  lemma ValuesSnoc(rs: seq<Record>, r: Record, id: long)
    ensures Values(rs + [r], id) == if r.id == id then Values(rs, id) + [r.data] else Values(rs, id)
  {
    assert Init(rs + [r]) == rs;
  }

  lemma AppendValues(rs: seq<Record>, id: long, data: Data, other: long)
    ensures Values(Append(rs, id, data), other)
         == if other == id then Values(rs, id) + [data] else Values(rs, other)
  {
    ValuesSnoc(rs, Record(id, data), other);
  }

  lemma {:induction false} ReplaceValues(rs: seq<Record>, p: nat, data: Data, id: long)
    requires p < |rs|
    ensures Rank(rs, p) < |Values(rs, rs[p].id)|
    ensures Values(ReplaceAt(rs, p, data), id)
         == if id == rs[p].id then Values(rs, id)[Rank(rs, p) := data] else Values(rs, id)
  {
    RankBound(rs, p);
    EditInit(rs, p, data);
    if p < |rs| - 1 {
      RankInit(rs, p);
      ReplaceValues(Init(rs), p, data, id);
    }
  }

  lemma {:induction false} RemoveAtValues(rs: seq<Record>, p: nat, id: long)
    requires p < |rs|
    ensures Rank(rs, p) < |Values(rs, rs[p].id)|
    ensures Values(RemoveAt(rs, p), id)
         == if id == rs[p].id then RemoveAt(Values(rs, id), Rank(rs, p)) else Values(rs, id)
  {
    RankBound(rs, p);
    EditInit(rs, p, []);
    if p < |rs| - 1 {
      RankInit(rs, p);
      RemoveAtValues(Init(rs), p, id);
      ValuesSnoc(RemoveAt(Init(rs), p), Last(rs), id);
    }
  }

  /** Update replaces the data of one occurrence; every other (id, occurrence) reads back the same. */
  lemma UpdateValues(rs: seq<Record>, id: long, k: nat, data: Data, other: long)
    requires k < |Values(rs, id)|
    ensures Values(Update(rs, id, k, data), other)
         == if other == id then Values(rs, id)[k := data] else Values(rs, other)
  {
    RankOfPosition(rs, id, k);
    ReplaceValues(rs, Position(rs, id, k), data, other);
  }

  /** Remove deletes one occurrence; later ones of the same id move down, other ids are untouched. */
  lemma RemoveValues(rs: seq<Record>, id: long, k: nat, other: long)
    requires k < |Values(rs, id)|
    ensures Values(Remove(rs, id, k), other)
         == if other == id then RemoveAt(Values(rs, id), k) else Values(rs, other)
  {
    RankOfPosition(rs, id, k);
    RemoveAtValues(rs, Position(rs, id, k), other);
  }

  // ----- sizes and offsets

  function Size(r: Record): (n: int)
    ensures n >= DATA_OFFSET
  {
    DATA_OFFSET + |r.data|
  }

  /** Bytes the list takes: the sum of 16 + size over its records. */
  function TotalSize(rs: seq<Record>): (n: int)
    ensures n >= 0
  {
    if rs == [] then 0 else TotalSize(Init(rs)) + Size(Last(rs))
  }

  /** The byte offset of position `p`: the size of everything before it. */
  function Start(rs: seq<Record>, p: nat): int
    requires p < |rs|
  {
    TotalSize(rs[..p])
  }

  lemma StartInit(rs: seq<Record>, p: nat)
    requires p < |rs|
    ensures Start(rs, p) == if p < |rs| - 1 then Start(Init(rs), p) else TotalSize(Init(rs))
  {
    if p < |rs| - 1 {
      assert rs[..p] == Init(rs)[..p];
    }
  }

  lemma {:induction false} StartInside(rs: seq<Record>, p: nat)
    requires p < |rs|
    ensures 0 <= Start(rs, p) <= TotalSize(rs) - Size(rs[p])
  {
    StartInit(rs, p);
    if p < |rs| - 1 {
      StartInside(Init(rs), p);
    }
  }

  /** The byte offsets of the occurrences of `id`. */
  function Offsets(rs: seq<Record>, id: long): (o: seq<int>)
    ensures |o| == |Values(rs, id)|
  {
    if rs == [] then []
    else if Last(rs).id == id then Offsets(Init(rs), id) + [TotalSize(Init(rs))]
    else Offsets(Init(rs), id)
  }

  lemma OffsetsSnoc(rs: seq<Record>, r: Record, id: long)
    ensures Offsets(rs + [r], id) == if r.id == id then Offsets(rs, id) + [TotalSize(rs)] else Offsets(rs, id)
  {
    assert Init(rs + [r]) == rs;
  }

  /** Every offset is a place where a whole header fits. */
  lemma {:induction false} OffsetsInside(rs: seq<Record>, id: long, i: nat)
    requires i < |Offsets(rs, id)|
    ensures 0 <= Offsets(rs, id)[i] <= TotalSize(rs) - DATA_OFFSET
  {
    if i < |Offsets(Init(rs), id)| {
      OffsetsInside(Init(rs), id, i);
    }
  }

  /** Offsets of an id are strictly ascending. */
  lemma {:induction false} OffsetsAscend(rs: seq<Record>, id: long, i: nat, j: nat)
    requires i < j < |Offsets(rs, id)|
    ensures Offsets(rs, id)[i] < Offsets(rs, id)[j]
  {
    if j < |Offsets(Init(rs), id)| {
      OffsetsAscend(Init(rs), id, i, j);
    } else {
      OffsetsInside(Init(rs), id, i);
    }
  }

  lemma {:induction false} OffsetOfPosition(rs: seq<Record>, id: long, k: nat)
    requires k < |Values(rs, id)|
    ensures Offsets(rs, id)[k] == Start(rs, Position(rs, id, k))
  {
    StartInit(rs, Position(rs, id, k));
    if k < |Values(Init(rs), id)| {
      OffsetOfPosition(Init(rs), id, k);
    }
  }

  lemma TotalSizeSnoc(rs: seq<Record>, r: Record)
    ensures TotalSize(rs + [r]) == TotalSize(rs) + Size(r)
  {
    assert Init(rs + [r]) == rs;
  }

  /** An edit changes the total size by the data it exchanges or the record it removes. */
  lemma {:induction false} EditSizes(rs: seq<Record>, p: nat, data: Data)
    requires p < |rs|
    ensures TotalSize(ReplaceAt(rs, p, data)) == TotalSize(rs) + |data| - |rs[p].data|
    ensures TotalSize(RemoveAt(rs, p)) == TotalSize(rs) - Size(rs[p])
  {
    EditInit(rs, p, data);
    if p < |rs| - 1 {
      EditSizes(Init(rs), p, data);
      TotalSizeSnoc(RemoveAt(Init(rs), p), Last(rs));
    }
  }

  // ----- the index

  function Ids(rs: seq<Record>): set<long>
  {
    if rs == [] then {} else Ids(Init(rs)) + {Last(rs).id}
  }

  /** The index a scan over the whole layout gives. */
  function IndexOf(rs: seq<Record>): Index
  {
    map id | id in Ids(rs) :: Offsets(rs, id)
  }

  /** An id is in the index exactly if it occurs, so no id maps to an empty list. */
  lemma {:induction false} IdsHaveValues(rs: seq<Record>, id: long)
    ensures id in Ids(rs) <==> Values(rs, id) != []
  {
    if rs != [] {
      IdsHaveValues(Init(rs), id);
    }
  }

  /** Every offset beyond `at` moved by `delta`. */
  function Shift(s: seq<int>, at: int, delta: int): (r: seq<int>)
    ensures |r| == |s|
  {
    if s == [] then [] else Shift(Init(s), at, delta) + [Moved(Last(s), at, delta)]
  }

  function Moved(offset: int, at: int, delta: int): int
  {
    if offset > at then offset + delta else offset
  }

  lemma ShiftSnoc(s: seq<int>, x: int, at: int, delta: int)
    ensures Shift(s + [x], at, delta) == Shift(s, at, delta) + [Moved(x, at, delta)]
  {
    assert Init(s + [x]) == s;
  }

  /** The map with every offset beyond `at` moved by `delta`. */
  function ShiftIndex(index: Index, at: int, delta: int): Index
  {
    map id | id in index :: Shift(index[id], at, delta)
  }

  /** A shift at or behind the end of the list moves nothing. */
  lemma {:induction false} ShiftBehind(rs: seq<Record>, id: long, at: int, delta: int)
    requires TotalSize(rs) <= at
    ensures Shift(Offsets(rs, id), at, delta) == Offsets(rs, id)
  {
    if rs != [] {
      ShiftBehind(Init(rs), id, at, delta);
      ShiftSnoc(Offsets(Init(rs), id), TotalSize(Init(rs)), at, delta);
    }
  }

  /** What an edit short of the end does to the size is what the shift does to it as an offset. */
  lemma ReplaceMovesEnd(t: seq<Record>, p: nat, data: Data, at: int, delta: int)
    requires p < |t| && at == Start(t, p) && delta == |data| - |t[p].data|
    ensures TotalSize(ReplaceAt(t, p, data)) == Moved(TotalSize(t), at, delta)
  {
    EditSizes(t, p, data);
    StartInside(t, p);
  }

  lemma RemoveMovesEnd(t: seq<Record>, p: nat, at: int, delta: int)
    requires p < |t| && at == Start(t, p) && delta == 0 - Size(t[p])
    ensures TotalSize(RemoveAt(t, p)) == Moved(TotalSize(t), at, delta)
  {
    EditSizes(t, p, []);
    StartInside(t, p);
  }

  lemma OffsetsLast(rs: seq<Record>, id: long)
    requires rs != []
    ensures Offsets(rs, id) == Offsets(Init(rs), id) + if Last(rs).id == id then [TotalSize(Init(rs))] else []
  {
  }

  /** The offset at the end of a list shifts with the ones before it. */
  lemma ShiftLast(rs: seq<Record>, id: long, at: int, delta: int)
    requires rs != []
    ensures Shift(Offsets(rs, id), at, delta)
         == Shift(Offsets(Init(rs), id), at, delta)
            + if Last(rs).id == id then [Moved(TotalSize(Init(rs)), at, delta)] else []
  {
    OffsetsLast(rs, id);
    ShiftSnoc(Offsets(Init(rs), id), TotalSize(Init(rs)), at, delta);
  }

  /** The offsets behind a replaced record are shifted by the change in size. */
  lemma {:induction false} ReplaceOffsets(rs: seq<Record>, p: nat, data: Data, id: long, at: int, delta: int)
    requires p < |rs| && at == Start(rs, p) && delta == |data| - |rs[p].data|
    ensures Offsets(ReplaceAt(rs, p, data), id) == Shift(Offsets(rs, id), at, delta)
  {
    var t, r := Init(rs), ReplaceAt(rs, p, data);
    var x := TotalSize(t);
    assert Init(r) == if p < |rs| - 1 then ReplaceAt(t, p, data) else t by { EditInit(rs, p, data); }
    assert Offsets(Init(r), id) == Shift(Offsets(t, id), at, delta) && TotalSize(Init(r)) == Moved(x, at, delta) by {
      StartInit(rs, p);
      if p < |rs| - 1 {
        ReplaceOffsets(t, p, data, id, at, delta);
        ReplaceMovesEnd(t, p, data, at, delta);
      } else {
        ShiftBehind(t, id, at, delta);
      }
    }
    OffsetsLast(r, id);
    ShiftLast(rs, id, at, delta);
  }

  /** The offsets of the other ids behind a removed record are shifted back by its size. */
  lemma {:induction false} RemoveOtherOffsets(rs: seq<Record>, p: nat, id: long, at: int, delta: int)
    requires p < |rs| && id != rs[p].id && at == Start(rs, p) && delta == 0 - Size(rs[p])
    ensures Offsets(RemoveAt(rs, p), id) == Shift(Offsets(rs, id), at, delta)
  {
    var t, x := Init(rs), TotalSize(Init(rs));
    assert RemoveAt(rs, p) == if p < |rs| - 1 then RemoveAt(t, p) + [Last(rs)] else t by { EditInit(rs, p, []); }
    ShiftLast(rs, id, at, delta);
    if p < |rs| - 1 {
      assert Offsets(RemoveAt(t, p), id) == Shift(Offsets(t, id), at, delta)
          && TotalSize(RemoveAt(t, p)) == Moved(x, at, delta) by {
        StartInit(rs, p);
        RemoveOtherOffsets(t, p, id, at, delta);
        RemoveMovesEnd(t, p, at, delta);
      }
      OffsetsSnoc(RemoveAt(t, p), Last(rs), id);
    } else {
      StartInit(rs, p);
      ShiftBehind(t, id, at, delta);
    }
  }

  lemma RemoveLastOffset(rs: seq<Record>, k: nat, at: int, delta: int)
    requires rs != [] && k == Rank(rs, |rs| - 1) && at == TotalSize(Init(rs))
    ensures k < |Offsets(rs, Last(rs).id)|
    ensures Offsets(Init(rs), Last(rs).id) == Shift(RemoveAt(Offsets(rs, Last(rs).id), k), at, delta)
  {
    RemoveAtSnoc(Offsets(Init(rs), Last(rs).id), at, k);
    ShiftBehind(Init(rs), Last(rs).id, at, delta);
  }

  /** Dropping one offset from a list that ends in one more record. */
  lemma RemoveOffsetSnoc(t: seq<Record>, last: Record, id: long, k: nat)
    requires k < |Offsets(t, id)|
    ensures k < |Offsets(t + [last], id)|
    ensures RemoveAt(Offsets(t + [last], id), k)
         == RemoveAt(Offsets(t, id), k) + if last.id == id then [TotalSize(t)] else []
  {
    OffsetsSnoc(t, last, id);
    RemoveAtSnoc(Offsets(t, id), TotalSize(t), k);
  }

  /** Of the removed record's own id one offset is gone and the ones behind it are shifted back. */
  lemma {:induction false} RemoveOwnOffsets(rs: seq<Record>, p: nat, k: nat, at: int, delta: int)
    requires p < |rs| && k == Rank(rs, p) && at == Start(rs, p) && delta == 0 - Size(rs[p])
    ensures k < |Offsets(rs, rs[p].id)|
    ensures Offsets(RemoveAt(rs, p), rs[p].id) == Shift(RemoveAt(Offsets(rs, rs[p].id), k), at, delta)
  {
    var t, id, last, x := Init(rs), rs[p].id, Last(rs), TotalSize(Init(rs));
    StartInit(rs, p);
    EditInit(rs, p, []);
    if p < |rs| - 1 {
      assert k < |Offsets(t, id)|
          && Offsets(RemoveAt(t, p), id) == Shift(RemoveAt(Offsets(t, id), k), at, delta) by {
        RankInit(rs, p);
        RemoveOwnOffsets(t, p, k, at, delta);
      }
      assert TotalSize(RemoveAt(t, p)) == Moved(x, at, delta) by {
        RemoveMovesEnd(t, p, at, delta);
      }
      InitLast(rs);
      RemoveOffsetSnoc(t, last, id, k);
      OffsetsSnoc(RemoveAt(t, p), last, id);
      ShiftSnoc(RemoveAt(Offsets(t, id), k), x, at, delta);
    } else {
      RemoveLastOffset(rs, k, at, delta);
    }
  }

  /** Two different indexes differ at some id. */
  lemma Difference(a: Index, b: Index) returns (id: long)
    requires a != b
    ensures id in a ==> id !in b || a[id] != b[id]
    ensures id in a || id in b
  {
    if i :| i in a && (i !in b || a[i] != b[i]) {
      id := i;
    } else {
      id :| id in b && id !in a;
    }
  }

  /** What a scan finds after an append is the old index with one offset pushed. */
  lemma AppendIndex(rs: seq<Record>, id: long, data: Data)
    ensures IndexOf(Append(rs, id, data)) == IndexOf(rs)[id := Offsets(rs, id) + [TotalSize(rs)]]
  {
    var a, b := IndexOf(Append(rs, id, data)), IndexOf(rs)[id := Offsets(rs, id) + [TotalSize(rs)]];
    if a != b {
      var other := Difference(a, b);
      AppendInit(rs, id, data);
      OffsetsSnoc(rs, Record(id, data), other);
    }
  }

  lemma {:induction false} ReplaceIds(rs: seq<Record>, p: nat, data: Data)
    requires p < |rs|
    ensures Ids(ReplaceAt(rs, p, data)) == Ids(rs)
  {
    EditInit(rs, p, data);
    if p < |rs| - 1 {
      ReplaceIds(Init(rs), p, data);
    }
  }

  /** What a scan finds after an update is the old index with the offsets behind it shifted. */
  lemma UpdateIndex(rs: seq<Record>, id: long, k: nat, data: Data, at: int, delta: int)
    requires k < |Values(rs, id)|
    requires at == Offsets(rs, id)[k] && delta == |data| - |Values(rs, id)[k]|
    ensures IndexOf(Update(rs, id, k, data)) == ShiftIndex(IndexOf(rs), at, delta)
  {
    var p := Position(rs, id, k);
    OffsetOfPosition(rs, id, k);
    var a, b := IndexOf(ReplaceAt(rs, p, data)), ShiftIndex(IndexOf(rs), at, delta);
    if a != b {
      var other := Difference(a, b);
      ReplaceIds(rs, p, data);
      ReplaceOffsets(rs, p, data, other, at, delta);
    }
  }

  /** The index without occurrence `k` of `id`; an id without occurrences is dropped. */
  function DropFromIndex(index: Index, id: long, k: nat): Index
    requires id in index && k < |index[id]|
  {
    var left := RemoveAt(index[id], k);
    if left == [] then index - {id} else index[id := left]
  }

  /** What a scan finds after a removal: one offset dropped, the ones behind it shifted back. */
  lemma RemoveIndex(rs: seq<Record>, id: long, k: nat, at: int, delta: int)
    requires k < |Values(rs, id)|
    requires at == Offsets(rs, id)[k] && delta == 0 - DATA_OFFSET - |Values(rs, id)[k]|
    ensures id in IndexOf(rs)
    ensures IndexOf(Remove(rs, id, k)) == ShiftIndex(DropFromIndex(IndexOf(rs), id, k), at, delta)
  {
    var p := Position(rs, id, k);
    OffsetOfPosition(rs, id, k);
    RankOfPosition(rs, id, k);
    IdsHaveValues(rs, id);
    var a, b := IndexOf(RemoveAt(rs, p)), ShiftIndex(DropFromIndex(IndexOf(rs), id, k), at, delta);
    if a != b {
      var other := Difference(a, b);
      IdsHaveValues(rs, other);
      IdsHaveValues(RemoveAt(rs, p), other);
      if other == id {
        RemoveOwnOffsets(rs, p, k, at, delta);
      } else {
        RemoveOtherOffsets(rs, p, other, at, delta);
      }
    }
  }
}
