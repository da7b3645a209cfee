/**
 Iteration over the fields of a buffer. The iterator has no state of its own: the caller hands
 the last (id, occurrence) back, and NO_ID asks for the first one.
 */
module FieldIteration {
  import opened ByteOrder
  import opened FieldRecords
  import opened Sequences
  import opened FieldValues

  datatype Cursor = Cursor(id: long, occurrence: int)

  // ----- ordered ids

  ghost predicate IsLeast(s: set<long>, m: long)
  {
    m in s && forall x | x in s :: m <= x
  }

  lemma {:induction false} LeastExists(s: set<long>)
    requires s != {}
    ensures exists m :: IsLeast(s, m)
  {
    var a :| a in s;
    var rest := s - {a};
    if rest == {} {
      assert s == {a};
      assert IsLeast(s, a);
    } else {
      LeastExists(rest);
      var m :| IsLeast(rest, m);
      assert forall x | x in s :: x == a || x in rest;
      assert IsLeast(s, if a < m then a else m);
    }
  }

  function Least(s: set<long>): (m: long)
    requires s != {}
    ensures m in s && forall x | x in s :: m <= x
  {
    LeastExists(s);
    var m :| m in s && forall x | x in s :: m <= x;
    m
  }

  function Above(s: set<long>, id: long): set<long>
  {
    set x | x in s && x > id
  }

  // ----- one step

  /** What the caller gets for a cursor: a status and the cursor as it was left. */
  function Next(rs: seq<Record>, c: Cursor): (Status, Cursor)
  {
    if c.id == NO_ID then
      if Ids(rs) == {} then (OutOfBounds, c) else (Success, Cursor(Least(Ids(rs)), 0))
    else if c.id !in Ids(rs) then (InvalidArgument, c)
    else if 0 <= c.occurrence + 1 < |Values(rs, c.id)| then (Success, Cursor(c.id, c.occurrence + 1))
    else
      var higher := Above(Ids(rs), c.id);
      if higher == {} then (OutOfBounds, Cursor(c.id, c.occurrence + 1))
      else (Success, Cursor(Least(higher), 0))
  }

  /** A pair that exists. */
  predicate Present(rs: seq<Record>, c: Cursor)
  {
    0 <= c.occurrence < |Values(rs, c.id)|
  }

  predicate Precedes(a: Cursor, b: Cursor)
  {
    a.id < b.id || (a.id == b.id && a.occurrence < b.occurrence)
  }

  /** What may come after a cursor: from an occurrence below -1 a step does not go into its own id. */
  predicate Later(c: Cursor, v: Cursor)
  {
    if c.occurrence >= -1 then Precedes(c, v) else c.id < v.id
  }

  /** No id starts with the least pair there is, if there is one. */
  lemma FirstExactly(rs: seq<Record>, c: Cursor, v: Cursor)
    requires c.id == NO_ID
    ensures var (status, next) := Next(rs, c);
            && (if rs == [] then status == OutOfBounds && next == c else status == Success && Present(rs, next))
            && (Present(rs, v) ==> v == next || Precedes(next, v))
  {
    IdsHaveValues(rs, v.id);
    if rs != [] {
      assert Last(rs).id in Ids(rs);
      IdsHaveValues(rs, Least(Ids(rs)));
    }
  }

  /**
   From any other cursor, of a visit or not: an id that no field has is invalid; otherwise the
   least pair that comes later, or out of bounds when none does.
   */
  lemma NextExactly(rs: seq<Record>, c: Cursor, v: Cursor)
    requires c.id != NO_ID
    ensures var (status, next) := Next(rs, c);
            && (status == InvalidArgument <==> Values(rs, c.id) == [])
            && status in {Success, OutOfBounds, InvalidArgument}
            && (status == InvalidArgument ==> next == c)
            && (status == OutOfBounds ==> next == Cursor(c.id, c.occurrence + 1))
            && (status == OutOfBounds && Present(rs, v) ==> !Later(c, v))
            && (status == Success ==> Present(rs, next) && Later(c, next))
            && (status == Success && Present(rs, v) && Later(c, v) ==> v == next || Precedes(next, v))
  {
    IdsHaveValues(rs, c.id);
    IdsHaveValues(rs, v.id);
    var higher := Above(Ids(rs), c.id);
    if higher != {} {
      IdsHaveValues(rs, Least(higher));
    }
    assert v.id in Ids(rs) && v.id > c.id ==> v.id in higher;
  }

  // ----- what an iteration should visit

  function Occurrences(id: long, n: nat): (r: seq<Cursor>)
    ensures |r| == n
    ensures forall k | 0 <= k < n :: r[k] == Cursor(id, k)
  {
    if n == 0 then [] else Occurrences(id, n - 1) + [Cursor(id, n - 1)]
  }

  function VisitsOf(rs: seq<Record>, s: set<long>): seq<Cursor>
  {
    if s == {} then []
    else
      var id := Least(s);
      Occurrences(id, |Values(rs, id)|) + VisitsOf(rs, s - {id})
  }

  /** Every (id, occurrence) pair of the buffer, ordered by id and then by occurrence. */
  function Visits(rs: seq<Record>): seq<Cursor>
  {
    VisitsOf(rs, Ids(rs))
  }

  /** The visits are exactly the pairs that exist. */
  lemma {:induction false} VisitsComplete(rs: seq<Record>, s: set<long>, c: Cursor)
    ensures c in VisitsOf(rs, s) <==> c.id in s && 0 <= c.occurrence < |Values(rs, c.id)|
  {
    if s != {} {
      var id := Least(s);
      var own := Occurrences(id, |Values(rs, id)|);
      VisitsComplete(rs, s - {id}, c);
      if c.id == id && 0 <= c.occurrence < |Values(rs, id)| {
        assert own[c.occurrence] == c;
      }
    }
  }

  /** The visits are in strictly ascending lexicographic order, so no pair is visited twice. */
  lemma {:induction false} VisitsAscend(rs: seq<Record>, s: set<long>, i: nat, j: nat)
    requires i < j < |VisitsOf(rs, s)|
    ensures Precedes(VisitsOf(rs, s)[i], VisitsOf(rs, s)[j])
  {
    var id := Least(s);
    var n := |Values(rs, id)|;
    var rest := VisitsOf(rs, s - {id});
    if i >= n {
      VisitsAscend(rs, s - {id}, i - n, j - n);
    } else if j >= n {
      VisitsComplete(rs, s - {id}, rest[j - n]);
    }
  }

  lemma {:induction false} WithoutSize(rs: seq<Record>, id: long)
    ensures |rs| == |Without(rs, id)| + |Values(rs, id)|
  {
    if rs != [] {
      WithoutSize(Init(rs), id);
    }
  }

  lemma {:induction false} WithoutIds(rs: seq<Record>, id: long)
    ensures Ids(Without(rs, id)) == Ids(rs) - {id}
  {
    if rs != [] {
      WithoutIds(Init(rs), id);
      assert Last(rs).id != id ==> Init(Without(Init(rs), id) + [Last(rs)]) == Without(Init(rs), id);
    }
  }

  lemma {:induction false} VisitsWithout(rs: seq<Record>, s: set<long>, id: long)
    requires id !in s
    ensures VisitsOf(Without(rs, id), s) == VisitsOf(rs, s)
  {
    if s != {} {
      VisitsWithout(rs, s - {Least(s)}, id);
      WithoutValues(rs, id, Least(s));
    }
  }

  /** There are as many visits as there are records in the bytes. */
  lemma {:induction false} VisitsCount(rs: seq<Record>)
    ensures |Visits(rs)| == |rs|
    decreases |rs|
  {
    if Ids(rs) == {} {
      assert rs == [];
    } else {
      var id := Least(Ids(rs));
      IdsHaveValues(rs, id);
      WithoutSize(rs, id);
      WithoutIds(rs, id);
      VisitsCount(Without(rs, id));
      VisitsWithout(rs, Ids(rs) - {id}, id);
    }
  }

  // ----- stepping through all of them

  /** Within an upper part of the ids, stepping goes from each visit to the next one. */
  lemma {:induction false} NextAmong(rs: seq<Record>, s: set<long>, i: nat)
    requires NO_ID !in s && s <= Ids(rs)
    requires forall x, y | x in Ids(rs) && y in s && x >= y :: x in s
    requires i < |VisitsOf(rs, s)|
    ensures var (status, c) := Next(rs, VisitsOf(rs, s)[i]);
            if i + 1 < |VisitsOf(rs, s)| then status == Success && c == VisitsOf(rs, s)[i + 1]
            else status == OutOfBounds
  {
    var id := Least(s);
    var n, rest := |Values(rs, id)|, s - {id};
    IdsHaveValues(rs, id);
    if i >= n {
      NextAmong(rs, rest, i - n);
    } else if i == n - 1 {
      assert Above(Ids(rs), id) == rest;
      if rest != {} {
        IdsHaveValues(rs, Least(rest));
        assert VisitsOf(rs, rest)[0] == Cursor(Least(rest), 0);
      }
    }
  }

  /** The cursor after `n` successful steps that started from NO_ID, or the status that ended them. */
  function Walk(rs: seq<Record>, start: Cursor, n: nat): (Status, Cursor)
  {
    if n == 0 then (Success, start)
    else
      var (status, c) := Walk(rs, start, n - 1);
      if status == Success then Next(rs, c) else (status, c)
  }

  /**
   Without a field whose id is NO_ID, an iteration visits every pair exactly once, in order, and
   is out of bounds after as many steps as there are records.
   */
  lemma {:induction false} WalkVisitsAll(rs: seq<Record>, start: Cursor, n: nat)
    requires NO_ID !in Ids(rs) && start.id == NO_ID && n <= |rs| + 1
    ensures 0 < n <= |rs| ==> |Visits(rs)| == |rs| && Walk(rs, start, n) == (Success, Visits(rs)[n - 1])
    ensures n == |rs| + 1 ==> Walk(rs, start, n).0 == OutOfBounds
  {
    VisitsCount(rs);
    if n == 1 {
      if rs != [] {
        IdsHaveValues(rs, Least(Ids(rs)));
        assert Visits(rs)[0] == Cursor(Least(Ids(rs)), 0);
      }
    } else if n > 1 {
      WalkVisitsAll(rs, start, n - 1);
      NextAmong(rs, Ids(rs), n - 2);
    }
  }

  /** With such a field the iteration is thrown back to the first field each time it gets there. */
  lemma {:induction false} WalkGoesRound(rs: seq<Record>, start: Cursor, n: nat)
    requires NO_ID in Ids(rs) && start.id == NO_ID
    ensures var (status, c) := Walk(rs, start, n);
            status == Success && c.id <= NO_ID && (c.id == NO_ID || c.id in Ids(rs))
  {
    if n > 0 {
      WalkGoesRound(rs, start, n - 1);
      var c := Walk(rs, start, n - 1).1;
      assert c.id < NO_ID ==> NO_ID in Above(Ids(rs), c.id);
    }
  }

  /** An iteration comes to an end exactly if no field has the id NO_ID. */
  lemma WalkEnds(rs: seq<Record>, start: Cursor)
    requires start.id == NO_ID
    ensures (exists n: nat :: Walk(rs, start, n).0 != Success) <==> NO_ID !in Ids(rs)
  {
    if NO_ID in Ids(rs) {
      forall n: nat ensures Walk(rs, start, n).0 == Success {
        WalkGoesRound(rs, start, n);
      }
    } else {
      WalkVisitsAll(rs, start, |rs| + 1);
    }
  }
}
