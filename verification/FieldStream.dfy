/**
 A fielded buffer as a list of named values, and back. Writing goes through the index, so the
 list is ordered by id; reading adds the values one by one to a new buffer and drops those that
 the buffer does not accept.
 */
module FieldStream {
  import opened ByteOrder
  import opened FieldRecords
  import opened Sequences
  import opened FieldLayout
  import opened FieldValues
  import opened FieldIteration
  import opened FieldBuffer
  import opened Wrappers

  datatype Named = Named(name: string, value: Value)

  type Names = map<long, string>
  type NamedIds = map<string, long>

  /** Every record has an id of a known type and holds a value of that type. */
  predicate WellTyped(rs: seq<Record>)
  {
    forall r | r in rs :: TypeOf(r.id).Some? && ValueOf(TypeOf(r.id).value, r.data).Some?
  }

  lemma ValuesAreRecords(rs: seq<Record>, id: long, k: nat)
    requires k < |Values(rs, id)|
    ensures Record(id, Values(rs, id)[k]) in rs
  {
    var p := Position(rs, id, k);
    assert rs[p] == Record(id, Values(rs, id)[k]);
  }

  predicate Visitable(rs: seq<Record>, c: Cursor)
  {
    0 <= c.occurrence < |Values(rs, c.id)|
  }

  /** The record a cursor stands on. */
  function At(rs: seq<Record>, c: Cursor): Record
    requires Visitable(rs, c)
  {
    Record(c.id, Values(rs, c.id)[c.occurrence])
  }

  /** The named value of a record. */
  function NameOf(r: Record, names: Names): Named
    requires r.id in names && TypeOf(r.id).Some? && ValueOf(TypeOf(r.id).value, r.data).Some?
  {
    Named(names[r.id], ValueOf(TypeOf(r.id).value, r.data).value)
  }

  // ----- grouping

  function RecordsAt(rs: seq<Record>, visits: seq<Cursor>): (r: seq<Record>)
    requires forall c | c in visits :: Visitable(rs, c)
    ensures |r| == |visits|
    ensures forall i | 0 <= i < |visits| :: r[i] == At(rs, visits[i])
  {
    if visits == [] then [] else RecordsAt(rs, Init(visits)) + [At(rs, Last(visits))]
  }

  lemma VisitsAreVisitable(rs: seq<Record>)
    ensures forall c | c in Visits(rs) :: Visitable(rs, c) && c.id in Ids(rs)
  {
    forall c | c in Visits(rs) ensures Visitable(rs, c) && c.id in Ids(rs) {
      VisitsComplete(rs, Ids(rs), c);
    }
  }

  /** The records grouped by ascending id, the occurrences of an id in their order. */
  function Grouped(rs: seq<Record>): (r: seq<Record>)
    ensures |r| == |Visits(rs)|
  {
    VisitsAreVisitable(rs);
    RecordsAt(rs, Visits(rs))
  }

  /** The records of the first occurrences of an id. */
  function Own(id: long, values: seq<Data>): (rs: seq<Record>)
    ensures |rs| == |values|
    ensures forall k | 0 <= k < |values| :: rs[k] == Record(id, values[k])
  {
    if values == [] then [] else Own(id, Init(values)) + [Record(id, Last(values))]
  }

  lemma {:induction false} OwnValues(id: long, values: seq<Data>, other: long)
    ensures Values(Own(id, values), other) == if other == id then values else []
  {
    if values != [] {
      OwnValues(id, Init(values), other);
      ValuesSnoc(Own(id, Init(values)), Record(id, Last(values)), other);
      InitLast(values);
    }
  }

  lemma OccurrenceValues(rs: seq<Record>, id: long, other: long)
    ensures Values(RecordsAt(rs, Occurrences(id, |Values(rs, id)|)), other)
         == if other == id then Values(rs, id) else []
  {
    assert RecordsAt(rs, Occurrences(id, |Values(rs, id)|)) == Own(id, Values(rs, id));
    OwnValues(id, Values(rs, id), other);
  }

  lemma {:induction false} ValuesConcat(a: seq<Record>, b: seq<Record>, id: long)
    ensures Values(a + b, id) == Values(a, id) + Values(b, id)
  {
    if b == [] {
      assert a + b == a;
    } else {
      ValuesConcat(a, Init(b), id);
      assert Init(a + b) == a + Init(b);
    }
  }

  lemma RecordsAtConcat(rs: seq<Record>, a: seq<Cursor>, b: seq<Cursor>)
    requires forall c | c in a + b :: Visitable(rs, c)
    ensures RecordsAt(rs, a + b) == RecordsAt(rs, a) + RecordsAt(rs, b)
  {
  }

  lemma {:induction false} VisitedValues(rs: seq<Record>, s: set<long>, id: long)
    ensures forall c | c in VisitsOf(rs, s) :: Visitable(rs, c)
    ensures Values(RecordsAt(rs, VisitsOf(rs, s)), id) == if id in s then Values(rs, id) else []
  {
    forall c | c in VisitsOf(rs, s) ensures Visitable(rs, c) {
      VisitsComplete(rs, s, c);
    }
    if s != {} {
      var least := Least(s);
      var own, rest := Occurrences(least, |Values(rs, least)|), VisitsOf(rs, s - {least});
      VisitedValues(rs, s - {least}, id);
      assert Values(RecordsAt(rs, own), id) == if id == least then Values(rs, id) else [] by {
        OccurrenceValues(rs, least, id);
      }
      assert Values(RecordsAt(rs, own + rest), id)
          == Values(RecordsAt(rs, own), id) + Values(RecordsAt(rs, rest), id) by {
        RecordsAtConcat(rs, own, rest);
        ValuesConcat(RecordsAt(rs, own), RecordsAt(rs, rest), id);
      }
    }
  }

  /** Grouping keeps the sequence of values of every id. */
  lemma GroupedValues(rs: seq<Record>, id: long)
    ensures Values(Grouped(rs), id) == Values(rs, id)
  {
    VisitsAreVisitable(rs);
    VisitedValues(rs, Ids(rs), id);
    IdsHaveValues(rs, id);
  }

  lemma GroupedAscends(rs: seq<Record>, i: nat, j: nat)
    requires i < j < |Grouped(rs)|
    ensures Grouped(rs)[i].id <= Grouped(rs)[j].id
  {
    VisitsAreVisitable(rs);
    VisitsAscend(rs, Ids(rs), i, j);
  }

  lemma {:induction false} SameVisits(a: seq<Record>, b: seq<Record>, s: set<long>)
    requires forall id: long :: Values(a, id) == Values(b, id)
    ensures VisitsOf(a, s) == VisitsOf(b, s)
  {
    if s != {} {
      SameVisits(a, b, s - {Least(s)});
    }
  }

  /** Record lists with the same values for every id are grouped into the same list. */
  lemma SameGroups(a: seq<Record>, b: seq<Record>)
    requires forall id: long :: Values(a, id) == Values(b, id)
    ensures Grouped(a) == Grouped(b)
  {
    assert Ids(a) == Ids(b) by {
      forall id: long ensures id in Ids(a) <==> id in Ids(b) {
        IdsHaveValues(a, id);
        IdsHaveValues(b, id);
      }
    }
    SameVisits(a, b, Ids(a));
    VisitsAreVisitable(a);
    VisitsAreVisitable(b);
  }

  lemma GroupedIsFixed(rs: seq<Record>)
    ensures Grouped(Grouped(rs)) == Grouped(rs)
  {
    forall id: long ensures Values(Grouped(rs), id) == Values(rs, id) {
      GroupedValues(rs, id);
    }
    SameGroups(Grouped(rs), rs);
  }

  // ----- writing

  predicate Writable(rs: seq<Record>, names: Names)
  {
    WellTyped(rs) && Ids(rs) <= names.Keys
  }

  function Written(rs: seq<Record>, names: Names): (fields: seq<Named>)
    requires forall r | r in rs :: r.id in names
    requires WellTyped(rs)
    ensures |fields| == |rs|
    ensures forall i | 0 <= i < |rs| :: fields[i] == NameOf(rs[i], names)
  {
    seq(|rs|, i requires 0 <= i < |rs| => NameOf(rs[i], names))
  }

  lemma GroupedWritable(rs: seq<Record>, names: Names)
    requires Writable(rs, names)
    ensures WellTyped(Grouped(rs)) && forall r | r in Grouped(rs) :: r.id in names
  {
    VisitsAreVisitable(rs);
    forall i | 0 <= i < |Grouped(rs)|
      ensures Grouped(rs)[i] in rs && Grouped(rs)[i].id in names
    {
      var c := Visits(rs)[i];
      ValuesAreRecords(rs, c.id, c.occurrence);
    }
  }

  /** The fields are the named values of the records visited. */
  ghost predicate Wrote(rs: seq<Record>, names: Names, visits: seq<Cursor>, fields: seq<Named>)
    requires WellTyped(rs)
  {
    && |fields| == |visits|
    && forall i | 0 <= i < |visits| ::
         && Visitable(rs, visits[i]) && At(rs, visits[i]) in rs && visits[i].id in names
         && fields[i] == NameOf(At(rs, visits[i]), names)
  }

  lemma WroteConcat(rs: seq<Record>, names: Names, a: seq<Cursor>, b: seq<Cursor>,
                    fa: seq<Named>, fb: seq<Named>)
    requires WellTyped(rs) && Wrote(rs, names, a, fa) && Wrote(rs, names, b, fb)
    ensures Wrote(rs, names, a + b, fa + fb)
  {
    var visits, fields := a + b, fa + fb;
    forall i | 0 <= i < |visits|
      ensures Visitable(rs, visits[i]) && At(rs, visits[i]) in rs && visits[i].id in names
      ensures fields[i] == NameOf(At(rs, visits[i]), names)
    {
      if i < |a| {
        assert visits[i] == a[i] && fields[i] == fa[i];
      } else {
        assert visits[i] == b[i - |a|] && fields[i] == fb[i - |a|];
      }
    }
  }

  /** One more occurrence of an id. */
  lemma WroteNext(rs: seq<Record>, names: Names, id: long, k: nat, fields: seq<Named>)
    requires WellTyped(rs) && id in names && k < |Values(rs, id)| && Wrote(rs, names, Occurrences(id, k), fields)
    ensures TypeOf(id).Some? && ValueOf(TypeOf(id).value, Values(rs, id)[k]).Some?
    ensures var field := Named(names[id], ValueOf(TypeOf(id).value, Values(rs, id)[k]).value);
            Wrote(rs, names, Occurrences(id, k + 1), fields + [field])
  {
    ValuesAreRecords(rs, id, k);
    var c := Cursor(id, k);
    assert Wrote(rs, names, [c], [NameOf(At(rs, c), names)]);
    WroteConcat(rs, names, Occurrences(id, k), [c], fields, [NameOf(At(rs, c), names)]);
  }

  /** The ids that are left to do have not been visited yet; all others have names and are written. */
  ghost predicate Progress(rs: seq<Record>, names: Names, todo: set<long>, visited: seq<Cursor>, fields: seq<Named>)
    requires WellTyped(rs)
  {
    && todo <= Ids(rs) && Ids(rs) - todo <= names.Keys
    && visited + VisitsOf(rs, todo) == Visits(rs)
    && Wrote(rs, names, visited, fields)
  }

  /** All occurrences of the least id that is left. */
  lemma ProgressStarts(rs: seq<Record>, names: Names)
    requires WellTyped(rs)
    ensures Progress(rs, names, Ids(rs), [], [])
  {
    assert [] + VisitsOf(rs, Ids(rs)) == Visits(rs);
  }

  lemma ProgressNext(rs: seq<Record>, names: Names, todo: set<long>, visited: seq<Cursor>, fields: seq<Named>,
                     id: long, own: seq<Named>)
    requires WellTyped(rs) && Progress(rs, names, todo, visited, fields)
    requires todo != {} && id == Least(todo) && id in names && Wrote(rs, names, Occurrences(id, |Values(rs, id)|), own)
    ensures Progress(rs, names, todo - {id}, visited + Occurrences(id, |Values(rs, id)|), fields + own)
  {
    var visits := Occurrences(id, |Values(rs, id)|);
    WroteConcat(rs, names, visited, visits, fields, own);
    Associate(visited, visits, VisitsOf(rs, todo - {id}));
  }

  lemma ProgressEnds(rs: seq<Record>, names: Names, visited: seq<Cursor>, fields: seq<Named>)
    requires WellTyped(rs) && Progress(rs, names, {}, visited, fields)
    ensures Ids(rs) <= names.Keys
    ensures WellTyped(Grouped(rs)) && forall q | q in Grouped(rs) :: q.id in names
    ensures fields == Written(Grouped(rs), names)
  {
    assert visited + [] == visited;
    GroupedWritable(rs, names);
  }

  /** The inner loop, over the occurrences of one id. */
  method StreamId(buffer: Buffer, id: long, names: Names) returns (fields: seq<Named>)
    requires buffer.Valid() && WellTyped(buffer.records) && id in names
    ensures Wrote(buffer.records, names, Occurrences(id, |Values(buffer.records, id)|), fields)
  {
    fields := [];
    var count := buffer.Count(id);
    for k := 0 to count
      invariant Wrote(buffer.records, names, Occurrences(id, k), fields)
    {
      WroteNext(buffer.records, names, id, k, fields);
      var data := buffer.Get(id, k);
      fields := fields + [Named(names[id], ValueOf(TypeOf(id).value, data.value).value)];
    }
  }

  /** Writes a buffer of well-typed fields as named values; an id without a name fails the whole. */
  method StreamOut(buffer: Buffer, names: Names) returns (r: Result<seq<Named>, Status>)
    requires buffer.Valid() && WellTyped(buffer.records)
    ensures r.Ok? <==> Ids(buffer.records) <= names.Keys
    ensures r.Ok? ==> WellTyped(Grouped(buffer.records)) && forall q | q in Grouped(buffer.records) :: q.id in names
    ensures r.Ok? ==> r.value == Written(Grouped(buffer.records), names)
  {
    ghost var rs, visited := buffer.records, [];
    var fields: seq<Named> := [];
    var todo := buffer.index.Keys;
    assert todo == Ids(rs);
    ProgressStarts(rs, names);
    while todo != {}
      invariant Progress(rs, names, todo, visited, fields)
    {
      var id := Least(todo);
      if id !in names {
        return Err(OutOfBounds);
      }
      var own := StreamId(buffer, id, names);
      ProgressNext(rs, names, todo, visited, fields, id, own);
      fields, visited := fields + own, visited + Occurrences(id, |Values(rs, id)|);
      todo := todo - {id};
    }
    ProgressEnds(rs, names, visited, fields);
    return Ok(fields);
  }

  // ----- reading

  /** The id a name stands for; an unknown name leaves the id at NO_ID. */
  function IdOf(name: string, ids: NamedIds): long
  {
    if name in ids then ids[name] else NO_ID
  }

  /** The records that the named values add to an empty buffer. */
  function Received(fields: seq<Named>, ids: NamedIds): (rs: seq<Record>)
    ensures |rs| <= |fields|
  {
    if fields == [] then []
    else
      var before, f := Received(Init(fields), ids), Last(fields);
      Outcome(before, AddValue(IdOf(f.name, ids), f.value))
  }

  /** A value is read with the type of the id its name stands for. */
  predicate Readable(fields: seq<Named>, ids: NamedIds)
  {
    forall f | f in fields ::
      TypeOf(IdOf(f.name, ids)).Some? ==> TypeOf(IdOf(f.name, ids)).value == ValueType(f.value)
  }

  method StreamIn(fields: seq<Named>, ids: NamedIds) returns (buffer: Buffer)
    requires Readable(fields, ids)
    ensures fresh(buffer) && buffer.Valid()
    ensures buffer.records == Received(fields, ids)
  {
    buffer := new Buffer();
    for i := 0 to |fields|
      invariant fresh(buffer) && buffer.Valid()
      invariant buffer.records == Received(fields[..i], ids)
    {
      assert Init(fields[..i + 1]) == fields[..i];
      var ignored := buffer.Add(IdOf(fields[i].name, ids), fields[i].value);
    }
    assert fields[..|fields|] == fields;
  }

  /** A value with a known name is appended to the id of that name, one with an unknown name is dropped. */
  lemma ReceivedNext(fields: seq<Named>, f: Named, ids: NamedIds)
    ensures Received(fields + [f], ids)
         == if f.name in ids && TypeOf(ids[f.name]) == Some(ValueType(f.value))
            then Received(fields, ids) + [Record(ids[f.name], Bytes(f.value))]
            else Received(fields, ids)
  {
    assert Init(fields + [f]) == fields && Last(fields + [f]) == f;
  }

  // ----- the round trip

  /** Each name that is written leads back to the id it was written for. */
  predicate Inverse(rs: seq<Record>, names: Names, ids: NamedIds)
    requires Ids(rs) <= names.Keys
  {
    forall id | id in Ids(rs) :: IdOf(names[id], ids) == id
  }

  lemma {:induction false} IdsOfRecords(rs: seq<Record>, r: Record)
    requires r in rs
    ensures r.id in Ids(rs)
  {
    if r != Last(rs) {
      InitLast(rs);
      IdsOfRecords(Init(rs), r);
    }
  }

  lemma {:induction false} ReceivedBack(rs: seq<Record>, names: Names, ids: NamedIds)
    requires WellTyped(rs) && (forall r | r in rs :: r.id in names && IdOf(names[r.id], ids) == r.id)
    ensures Received(Written(rs, names), ids) == rs
  {
    if rs != [] {
      InitLast(rs);
      assert Last(rs) in rs;
      ReceivedBack(Init(rs), names, ids);
      assert Init(Written(rs, names)) == Written(Init(rs), names);
      BytesOfValue(TypeOf(Last(rs).id).value, Last(rs).data);
    }
  }

  /** Nothing dropped means that every value went to the id that its name stands for. */
  lemma {:induction false} ReceivedWhole(fields: seq<Named>, ids: NamedIds, i: nat)
    requires |Received(fields, ids)| == |fields| && i < |fields|
    ensures Received(fields, ids)[i].id == IdOf(fields[i].name, ids)
  {
    if i < |fields| - 1 {
      ReceivedWhole(Init(fields), ids, i);
    }
  }

  lemma NamesLeadBack(rs: seq<Record>, names: Names, ids: NamedIds)
    requires Writable(rs, names) && Inverse(rs, names, ids)
    ensures forall r | r in Grouped(rs) :: r.id in names && IdOf(names[r.id], ids) == r.id
  {
    forall r | r in Grouped(rs) ensures r.id in names && IdOf(names[r.id], ids) == r.id {
      IdsOfRecords(Grouped(rs), r);
      GroupedValues(rs, r.id);
      IdsHaveValues(rs, r.id);
      IdsHaveValues(Grouped(rs), r.id);
    }
  }

  /** What is written can be read: each value has the type of the id its name leads back to. */
  lemma WrittenIsReadable(rs: seq<Record>, names: Names, ids: NamedIds)
    requires Writable(rs, names) && Inverse(rs, names, ids)
    ensures WellTyped(Grouped(rs)) && forall q | q in Grouped(rs) :: q.id in names
    ensures Readable(Written(Grouped(rs), names), ids)
  {
    GroupedWritable(rs, names);
    NamesLeadBack(rs, names, ids);
    var g, fields := Grouped(rs), Written(Grouped(rs), names);
    forall f | f in fields
      ensures TypeOf(IdOf(f.name, ids)).Some? ==> TypeOf(IdOf(f.name, ids)).value == ValueType(f.value)
    {
      var i :| 0 <= i < |fields| && fields[i] == f;
      assert g[i] in g;
      BytesOfValue(TypeOf(g[i].id).value, g[i].data);
    }
  }

  /**
   Writing and reading back gives the records grouped by ascending id, with the values of every id
   as they were, exactly if the name of every id in the buffer leads back to that id.
   */
  lemma RoundTrip(rs: seq<Record>, names: Names, ids: NamedIds)
    requires Writable(rs, names)
    ensures WellTyped(Grouped(rs)) && forall q | q in Grouped(rs) :: q.id in names
    ensures Received(Written(Grouped(rs), names), ids) == Grouped(rs) <==> Inverse(rs, names, ids)
  {
    GroupedWritable(rs, names);
    if Inverse(rs, names, ids) {
      NamesLeadBack(rs, names, ids);
      ReceivedBack(Grouped(rs), names, ids);
    } else {
      var id :| id in Ids(rs) && IdOf(names[id], ids) != id;
      Misnamed(rs, names, ids, id);
    }
  }

  /** A name that does not lead back to its id keeps the records from coming back. */
  lemma Misnamed(rs: seq<Record>, names: Names, ids: NamedIds, id: long)
    requires Writable(rs, names) && id in Ids(rs) && IdOf(names[id], ids) != id
    ensures WellTyped(Grouped(rs)) && forall q | q in Grouped(rs) :: q.id in names
    ensures Received(Written(Grouped(rs), names), ids) != Grouped(rs)
  {
    GroupedWritable(rs, names);
    var g := Grouped(rs);
    GroupedValues(rs, id);
    IdsHaveValues(rs, id);
    var p := Position(g, id, 0);
    if Received(Written(g, names), ids) == g {
      ReceivedWhole(Written(g, names), ids, p);
    }
  }

  /** A second round trip leaves the bytes of the first one unchanged. */
  lemma SecondRoundTrip(rs: seq<Record>, names: Names, ids: NamedIds)
    requires Writable(rs, names) && Inverse(rs, names, ids)
    ensures WellTyped(Grouped(rs)) && forall q | q in Grouped(rs) :: q.id in names
    ensures var once := Received(Written(Grouped(rs), names), ids);
            && WellTyped(Grouped(once)) && (forall q | q in Grouped(once) :: q.id in names)
            && Memory(Received(Written(Grouped(once), names), ids)) == Memory(once)
  {
    RoundTrip(rs, names, ids);
    GroupedIsFixed(rs);
  }

  /** Out through the names and in again: a buffer with the same values for every id. */
  method Transfer(buffer: Buffer, names: Names, ids: NamedIds) returns (copy: Buffer)
    requires buffer.Valid() && Writable(buffer.records, names) && Inverse(buffer.records, names, ids)
    ensures fresh(copy) && copy.Valid() && copy.records == Grouped(buffer.records)
    ensures forall id: long :: Values(copy.records, id) == Values(buffer.records, id)
  {
    ghost var rs := buffer.records;
    var written := StreamOut(buffer, names);
    WrittenIsReadable(rs, names, ids);
    copy := StreamIn(written.value, ids);
    RoundTrip(rs, names, ids);
    forall id: long ensures Values(copy.records, id) == Values(rs, id) {
      GroupedValues(rs, id);
    }
  }

  // ----- runs of typed operations

  /** No raw memory, and only well-typed buffers are copied. */
  predicate Typed(op: Operation)
  {
    !op.CopyRaw? && (op.CopyFrom? ==> WellTyped(op.rs))
  }

  lemma TypedBytes(id: long, v: Value)
    requires TypeOf(id) == Some(ValueType(v))
    ensures WellTyped([Record(id, Bytes(v))])
  {
    ValueOfBytes(v);
  }

  lemma {:induction false} RepeatedTyped(r: Record, n: nat)
    requires WellTyped([r])
    ensures WellTyped(Repeated(r, n))
  {
    assert r in [r];
    if n > 0 {
      RepeatedTyped(r, n - 1);
    }
  }

  lemma {:induction false} WithoutTyped(rs: seq<Record>, id: long)
    requires WellTyped(rs)
    ensures WellTyped(Without(rs, id))
  {
    if rs != [] {
      InitLast(rs);
      WithoutTyped(Init(rs), id);
    }
  }

  lemma TypedSnoc(rs: seq<Record>, r: Record)
    requires WellTyped(rs) && WellTyped([r])
    ensures WellTyped(rs + [r])
  {
    assert r in [r];
  }

  lemma UpdateTyped(rs: seq<Record>, id: long, k: nat, data: Data)
    requires WellTyped(rs) && WellTyped([Record(id, data)]) && k < |Values(rs, id)|
    ensures WellTyped(FieldRecords.Update(rs, id, k, data))
  {
    assert Record(id, data) in [Record(id, data)];
  }

  lemma PutTyped(rs: seq<Record>, id: long, k: nat, data: Data, empty: Data)
    requires WellTyped(rs) && WellTyped([Record(id, data)]) && WellTyped([Record(id, empty)])
    ensures WellTyped(PutAt(rs, id, k, data, empty))
  {
    var count := |Values(rs, id)|;
    if k < count {
      UpdateTyped(rs, id, k, data);
    } else {
      RepeatedTyped(Record(id, empty), k - count);
      TypedSnoc(rs + Repeated(Record(id, empty), k - count), Record(id, data));
    }
  }

  /** One typed operation keeps every record of the type that its id carries. */
  lemma OutcomeTyped(rs: seq<Record>, op: Operation)
    requires WellTyped(rs) && Typed(op) && Accepted(op)
    ensures WellTyped(Outcome(rs, op))
  {
    match op {
      case AddValue(id, v) =>
        if TypeOf(id) == Some(ValueType(v)) {
          TypedBytes(id, v);
          TypedSnoc(rs, Record(id, Bytes(v)));
        }
      case SetValue(id, k, v) =>
        if TypeOf(id) == Some(ValueType(v)) && 0 <= k < |Values(rs, id)| {
          TypedBytes(id, v);
          UpdateTyped(rs, id, k, Bytes(v));
        }
      case PutValue(id, k, v) =>
        if TypeOf(id).Some? {
          TypedBytes(id, v);
          TypedBytes(id, EmptyValue(ValueType(v)));
          if k < 0 {
            TypedSnoc(rs, Record(id, Bytes(v)));
          } else {
            PutTyped(rs, id, k, Bytes(v), Bytes(EmptyValue(ValueType(v))));
          }
        }
      case RemoveField(id) => WithoutTyped(rs, id);
      case AddEmptyTo(id) =>
        if TypeOf(id).Some? {
          TypedBytes(id, EmptyValue(TypeOf(id).value));
          TypedSnoc(rs, Record(id, Bytes(EmptyValue(TypeOf(id).value))));
        }
      case _ =>
    }
  }

  /** So every run of them from an empty buffer can be written and read back. */
  lemma {:induction false} RunTyped(rs: seq<Record>, run: seq<Operation>)
    requires WellTyped(rs) && forall op | op in run :: Typed(op) && Accepted(op)
    ensures WellTyped(Outcomes(rs, run))
  {
    if run != [] {
      assert Last(run) in run;
      RunTyped(rs, Init(run));
      OutcomeTyped(Outcomes(rs, Init(run)), Last(run));
    }
  }
}
