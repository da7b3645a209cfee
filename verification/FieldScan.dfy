/**
 The scan of raw memory that builds the index of a fielded buffer. It goes from header to header
 by the sizes it finds, whatever their sign, until it stands at the end of the memory or beyond.
 */
module FieldScan {
  import opened ByteOrder
  import opened FieldRecords
  import opened Sequences
  import opened FieldLayout

  /**
   How a scan comes out: with an index, with the error that the memory is comprised, without a
   defined outcome because a header is read that is not in the memory, or not at all.
   */
  datatype Scanned = Indexed(index: Index) | Comprised | Undefined | Endless

  predicate HasHeader(memory: seq<byte>, at: int)
  {
    0 <= at && at + DATA_OFFSET <= |memory|
  }

  function SizeAt(memory: seq<byte>, at: int): long
    requires HasHeader(memory, at)
  {
    HeaderSize(memory[at..])
  }

  function IdAt(memory: seq<byte>, at: int): long
    requires HasHeader(memory, at)
  {
    HeaderId(memory[at..])
  }

  function Onward(memory: seq<byte>, at: int): int
    requires HasHeader(memory, at)
  {
    at + DATA_OFFSET + SizeAt(memory, at)
  }

  predicate Follows(memory: seq<byte>, at: int, next: int)
  {
    HasHeader(memory, at) && next == Onward(memory, at)
  }

  /** The places where the cursor has stood, from the start. */
  predicate IsTrail(memory: seq<byte>, t: seq<int>)
  {
    && t != [] && t[0] == 0
    && forall k | 0 <= k < |t| - 1 :: Follows(memory, t[k], t[k + 1])
  }

  function Pushed(index: Index, id: long, at: int): Index
  {
    index[id := (if id in index then index[id] else []) + [at]]
  }

  lemma OnTrail(memory: seq<byte>, t: seq<int>, k: nat)
    requires IsTrail(memory, t) && k < |t|
    ensures k < |t| - 1 ==> HasHeader(memory, t[k]) && t[k + 1] == Onward(memory, t[k])
  {
    if k < |t| - 1 {
      assert Follows(memory, t[k], t[k + 1]);
    }
  }

  lemma TrailInit(memory: seq<byte>, t: seq<int>)
    requires IsTrail(memory, t) && |t| > 1
    ensures IsTrail(memory, Init(t)) && HasHeader(memory, Last(Init(t)))
    ensures Last(t) == Onward(memory, Last(Init(t)))
  {
    forall k | 0 <= k < |Init(t)| - 1 ensures Follows(memory, Init(t)[k], Init(t)[k + 1]) {
      OnTrail(memory, t, k);
    }
    OnTrail(memory, t, |t| - 2);
  }

  /** The index when the cursor has come to the end of a trail. */
  function TrailIndex(memory: seq<byte>, t: seq<int>): Index
    requires IsTrail(memory, t)
  {
    if |t| == 1 then map[]
    else
      TrailInit(memory, t);
      var at := Last(Init(t));
      Pushed(TrailIndex(memory, Init(t)), IdAt(memory, at), at)
  }

  ghost predicate Ends(memory: seq<byte>, t: seq<int>, end: int)
  {
    IsTrail(memory, t) && Last(t) == end
  }

  ghost predicate Lasts(memory: seq<byte>, t: seq<int>, n: nat)
  {
    IsTrail(memory, t) && |t| == n + 1 && HasHeader(memory, Last(t))
  }

  /** The scan reads a header after n others. */
  ghost predicate Reaches(memory: seq<byte>, n: nat)
  {
    exists t :: Lasts(memory, t, n)
  }

  ghost predicate Scans(memory: seq<byte>, r: Scanned)
  {
    match r
    case Indexed(index) => exists t :: Ends(memory, t, |memory|) && index == TrailIndex(memory, t)
    case Comprised => exists t, end :: Ends(memory, t, end) && end > |memory|
    case Undefined => exists t, end :: Ends(memory, t, end) && end < |memory| && !HasHeader(memory, end)
    case Endless => forall n: nat :: Reaches(memory, n)
  }

  /** Some header that the scan meets has a negative size. */
  ghost predicate MeetsNegative(memory: seq<byte>)
  {
    exists t, n :: Lasts(memory, t, n) && SizeAt(memory, Last(t)) < 0
  }

  // ----- a scan has one outcome

  lemma TrailSnoc(memory: seq<byte>, t: seq<int>)
    requires IsTrail(memory, t) && HasHeader(memory, Last(t))
    ensures var u := t + [Onward(memory, Last(t))];
            && IsTrail(memory, u)
            && TrailIndex(memory, u) == Pushed(TrailIndex(memory, t), IdAt(memory, Last(t)), Last(t))
  {
    var u := t + [Onward(memory, Last(t))];
    forall k | 0 <= k < |u| - 1 ensures Follows(memory, u[k], u[k + 1]) {
      OnTrail(memory, t, if k < |t| then k else 0);
    }
    assert Init(u) == t;
  }

  lemma {:induction false} TrailsAgree(memory: seq<byte>, t: seq<int>, u: seq<int>, k: nat)
    requires IsTrail(memory, t) && IsTrail(memory, u) && k < |t| && k < |u|
    ensures t[k] == u[k]
  {
    if k > 0 {
      TrailsAgree(memory, t, u, k - 1);
      OnTrail(memory, t, k - 1);
      OnTrail(memory, u, k - 1);
    }
  }

  lemma TrailFront(memory: seq<byte>, t: seq<int>, n: nat)
    requires IsTrail(memory, t) && n < |t| - 1
    ensures Lasts(memory, t[..n + 1], n)
  {
    var u := t[..n + 1];
    forall k | 0 <= k < |u| - 1 ensures Follows(memory, u[k], u[k + 1]) {
      OnTrail(memory, t, k);
    }
    OnTrail(memory, t, n);
  }

  /** Where a scan stops it stops for good: no trail goes on from there. */
  lemma StopsThere(memory: seq<byte>, t: seq<int>, u: seq<int>)
    requires IsTrail(memory, t) && IsTrail(memory, u) && !HasHeader(memory, Last(t))
    ensures |u| <= |t| && (!HasHeader(memory, Last(u)) ==> u == t)
  {
    var m := (if |u| > |t| then |t| else |u|) - 1;
    TrailsAgree(memory, t, u, m);
    OnTrail(memory, t, m);
    OnTrail(memory, u, m);
    forall k | 0 <= k <= m ensures u[k] == t[k] {
      TrailsAgree(memory, t, u, k);
    }
  }

  /** The trail on which a scan that ends has ended. */
  lemma EndTrail(memory: seq<byte>, r: Scanned) returns (t: seq<int>)
    requires Scans(memory, r) && !r.Endless?
    ensures IsTrail(memory, t) && !HasHeader(memory, Last(t))
    ensures r.Indexed? <==> Last(t) == |memory|
    ensures r.Comprised? <==> Last(t) > |memory|
    ensures r.Indexed? ==> r.index == TrailIndex(memory, t)
  {
    match r
    case Indexed(index) => t :| Ends(memory, t, |memory|) && index == TrailIndex(memory, t);
    case Comprised => var end: int; t, end :| Ends(memory, t, end) && end > |memory|;
    case Undefined => var end: int; t, end :| Ends(memory, t, end) && end < |memory| && !HasHeader(memory, end);
  }

  lemma ScansOnce(memory: seq<byte>, r: Scanned, s: Scanned)
    requires Scans(memory, r) && Scans(memory, s)
    ensures r == s
    decreases r.Endless?
  {
    if !r.Endless? {
      var t := EndTrail(memory, r);
      if s.Endless? {
        assert Reaches(memory, |t|);
        var u :| Lasts(memory, u, |t|);
        StopsThere(memory, t, u);
      } else {
        var u := EndTrail(memory, s);
        StopsThere(memory, t, u);
      }
    } else if !s.Endless? {
      ScansOnce(memory, s, r);
    }
  }

  // ----- records

  /** One record further, the scanned bytes and the index are those of one record more. */
  lemma ScanStep(done: seq<Record>, next: Record)
    ensures Memory(Append(done, next.id, next.data)) == Memory(done) + Pack(next)
    ensures IndexOf(Append(done, next.id, next.data)) == Pushed(IndexOf(done), next.id, |Memory(done)|)
  {
    MemorySnoc(done, next);
    IdsHaveValues(done, next.id);
    AppendIndex(done, next.id, next.data);
  }

  /** Where the records start, and where the last one ends. */
  function Starts(rs: seq<Record>): (t: seq<int>)
    ensures |t| == |rs| + 1 && t[0] == 0 && Last(t) == TotalSize(rs)
  {
    if rs == [] then [0] else Starts(Init(rs)) + [TotalSize(rs)]
  }

  ghost predicate NoneNegative(memory: seq<byte>, places: seq<int>)
  {
    forall k | 0 <= k < |places| :: HasHeader(memory, places[k]) && SizeAt(memory, places[k]) >= 0
  }

  /** A record as it lies in the memory, and where the scan goes on from it. */
  lemma RecordAt(memory: seq<byte>, done: seq<Record>, next: Record, rest: seq<byte>, at: int)
    requires memory == Memory(done) + (Pack(next) + rest) && at == TotalSize(done)
    ensures HasHeader(memory, at) && IdAt(memory, at) == next.id && SizeAt(memory, at) == |next.data|
    ensures Onward(memory, at) == at + Size(next)
  {
    Associate(Memory(done), Pack(next), rest);
    RecordInside(Memory(done), next, rest, memory, at);
  }

  lemma NoneNegativeNext(memory: seq<byte>, t: seq<int>, next: int)
    requires t != [] && NoneNegative(memory, Init(t)) && HasHeader(memory, Last(t)) && SizeAt(memory, Last(t)) >= 0
    ensures NoneNegative(memory, Init(t + [next]))
  {
    assert Init(t + [next]) == t;
    forall k | 0 <= k < |t| ensures HasHeader(memory, t[k]) && SizeAt(memory, t[k]) >= 0 {
      if k < |t| - 1 {
        assert t[k] == Init(t)[k];
      }
    }
  }

  /** The scan of records goes along their starts and builds their index. */
  lemma {:induction false} RecordTrail(rs: seq<Record>, rest: seq<byte>, memory: seq<byte>)
    requires memory == Memory(rs) + rest
    ensures IsTrail(memory, Starts(rs))
    ensures TrailIndex(memory, Starts(rs)) == IndexOf(rs)
  {
    if rs == [] {
      assert Ids(rs) == {};
    } else {
      var done, next := Init(rs), Last(rs);
      Associate(Memory(done), Pack(next), rest);
      RecordTrail(done, Pack(next) + rest, memory);
      RecordAt(memory, done, next, rest, TotalSize(done));
      TrailSnoc(memory, Starts(done));
      ScanStep(done, next);
      InitLast(rs);
    }
  }

  /** None of the sizes on the way is negative. */
  lemma {:induction false} RecordSizes(rs: seq<Record>, rest: seq<byte>, memory: seq<byte>)
    requires memory == Memory(rs) + rest
    ensures NoneNegative(memory, Init(Starts(rs)))
  {
    if rs != [] {
      var done, next := Init(rs), Last(rs);
      Associate(Memory(done), Pack(next), rest);
      RecordSizes(done, Pack(next) + rest, memory);
      RecordAt(memory, done, next, rest, TotalSize(done));
      NoneNegativeNext(memory, Starts(done), TotalSize(rs));
    }
  }

  lemma ScanOfRecords(rs: seq<Record>)
    ensures Scans(Memory(rs), Indexed(IndexOf(rs)))
    ensures !MeetsNegative(Memory(rs))
  {
    var memory := Memory(rs);
    assert memory == Memory(rs) + [];
    RecordTrail(rs, [], memory);
    assert Ends(memory, Starts(rs), |memory|);
    RecordSizes(rs, [], memory);
    NoneMet(memory, Starts(rs));
  }

  lemma NoneMet(memory: seq<byte>, t: seq<int>)
    requires Ends(memory, t, |memory|) && NoneNegative(memory, Init(t))
    ensures !MeetsNegative(memory)
  {
    forall u, n | Lasts(memory, u, n) ensures SizeAt(memory, Last(u)) >= 0 {
      StopsThere(memory, t, u);
      TrailsAgree(memory, t, u, |u| - 1);
      assert Init(t)[|u| - 1] == Last(u);
    }
  }

  /** A trail along sizes that are not negative passes over whole records. */
  lemma {:induction false} RecordsOf(memory: seq<byte>, t: seq<int>) returns (rs: seq<Record>)
    requires IsTrail(memory, t) && NoneNegative(memory, Init(t)) && Last(t) <= |memory|
    ensures 0 <= Last(t) && Memory(rs) == memory[..Last(t)]
  {
    if |t| == 1 {
      rs := [];
    } else {
      var front := Init(t);
      var at := Last(front);
      TrailInit(memory, t);
      assert front[|front| - 1] == at && SizeAt(memory, at) >= 0;
      var done := RecordsOf(memory, front);
      var head := RecordFrom(memory, at, Last(t));
      MemorySnoc(done, head);
      rs := done + [head];
    }
  }

  /** A header whose size is not negative starts a record. */
  lemma RecordFrom(memory: seq<byte>, at: int, end: int) returns (r: Record)
    requires HasHeader(memory, at) && SizeAt(memory, at) >= 0 && end == Onward(memory, at) <= |memory|
    ensures at <= end && memory[..end] == memory[..at] + Pack(r)
  {
    var tail := memory[at..];
    r := ParseHead(tail).value;
    assert memory[..end] == memory[..at] + tail[..Size(r)];
  }

  /**
   A scan that gives an index: the memory is the layout of a record list if and only if no header
   met has a negative size, and then the index is that of the list.
   */
  lemma IndexedExactly(memory: seq<byte>, index: Index)
    requires Scans(memory, Indexed(index))
    ensures Parse(memory).Some? <==> !MeetsNegative(memory)
    ensures Parse(memory).Some? ==> index == IndexOf(Parse(memory).value)
  {
    if Parse(memory).Some? {
      MemoryParse(memory);
      ScanOfRecords(Parse(memory).value);
      ScansOnce(memory, Indexed(index), Indexed(IndexOf(Parse(memory).value)));
    } else if !MeetsNegative(memory) {
      NoneNegativeParses(memory, index);
      assert false;
    }
  }

  lemma NotNegativeAt(memory: seq<byte>, t: seq<int>, k: nat)
    requires IsTrail(memory, t) && !MeetsNegative(memory) && k < |t| - 1
    ensures HasHeader(memory, t[k]) && SizeAt(memory, t[k]) >= 0
  {
    TrailFront(memory, t, k);
    assert Last(t[..k + 1]) == t[k];
  }

  lemma NoneNegativeParses(memory: seq<byte>, index: Index)
    requires Scans(memory, Indexed(index)) && !MeetsNegative(memory)
    ensures Parse(memory).Some?
  {
    var t := EndTrail(memory, Indexed(index));
    forall k | 0 <= k < |Init(t)| ensures HasHeader(memory, Init(t)[k]) && SizeAt(memory, Init(t)[k]) >= 0 {
      NotNegativeAt(memory, t, k);
    }
    var rs := RecordsOf(memory, t);
    assert memory[..|memory|] == memory;
    ParseMemory(rs);
  }

  // ----- a scan that does not end

  predicate Revisits(memory: seq<byte>, t: seq<int>, j: nat)
  {
    IsTrail(memory, t) && j < |t| - 1 && t[j] == Last(t)
  }

  /** From a place of the circle the scan goes on to a place of the circle. */
  lemma Circles(memory: seq<byte>, t: seq<int>, j: nat, at: int) returns (k: nat)
    requires Revisits(memory, t, j) && at in t[j..|t| - 1]
    ensures HasHeader(memory, at) && j <= k < |t| - 1 && t[k] == Onward(memory, at)
  {
    var i :| 0 <= i < |t[j..|t| - 1]| && t[j..|t| - 1][i] == at;
    OnTrail(memory, t, j + i);
    k := if j + i + 1 < |t| - 1 then j + i + 1 else j;
  }

  /** A scan that comes to a place for the second time never ends. */
  lemma {:induction false} RevisitsForever(memory: seq<byte>, t: seq<int>, j: nat, n: nat) returns (u: seq<int>)
    requires Revisits(memory, t, j)
    ensures Lasts(memory, u, n)
    ensures n >= j ==> Last(u) in t[j..|t| - 1]
  {
    if n <= j {
      u := t[..n + 1];
      TrailFront(memory, t, n);
      if n == j {
        assert t[j..|t| - 1][0] == Last(u);
      }
    } else {
      var v := RevisitsForever(memory, t, j, n - 1);
      var k := Circles(memory, t, j, Last(v));
      u := v + [Onward(memory, Last(v))];
      TrailSnoc(memory, v);
      assert t[j..|t| - 1][k - j] == Last(u);
      var _ := Circles(memory, t, j, Last(u));
    }
  }

  lemma RevisitsEndless(memory: seq<byte>, t: seq<int>, j: nat)
    requires Revisits(memory, t, j)
    ensures Scans(memory, Endless)
  {
    forall n: nat ensures Reaches(memory, n) {
      var u := RevisitsForever(memory, t, j, n);
    }
  }

  // ----- the code

  lemma {:induction false} FewPlaces(s: set<int>, n: nat)
    requires forall x | x in s :: 0 <= x < n
    ensures |s| <= n
  {
    if n > 0 {
      FewPlaces(s - {n - 1}, n - 1);
    } else {
      assert forall x :: x !in s;
    }
  }

  /**
   The loop. The code does not keep the places it has seen: at one that comes a second time it
   goes round for ever.
   */
  method Scan(raw: seq<byte>) returns (r: Scanned)
    ensures Scans(raw, r)
  {
    var index: Index := map[];
    var cursor := 0;
    var seen: set<int> := {};
    ghost var trail := [0];
    while cursor < |raw|
      invariant IsTrail(raw, trail) && Last(trail) == cursor
      invariant index == TrailIndex(raw, trail)
      invariant forall x | x in seen :: 0 <= x < |raw| && x in Init(trail)
      decreases |raw| - |seen|
    {
      if cursor in seen {
        ghost var j :| 0 <= j < |Init(trail)| && Init(trail)[j] == cursor;
        RevisitsEndless(raw, trail, j);
        return Endless;
      }
      if cursor < 0 || |raw| - cursor < DATA_OFFSET {
        assert Ends(raw, trail, cursor);
        return Undefined;
      }
      TrailSnoc(raw, trail);
      SeenSnoc(seen, trail, Onward(raw, cursor), |raw|);
      index := Pushed(index, HeaderId(raw[cursor..]), cursor);
      seen := seen + {cursor};
      trail := trail + [Onward(raw, cursor)];
      cursor := cursor + DATA_OFFSET + HeaderSize(raw[cursor..]);
    }
    assert Ends(raw, trail, cursor);
    return if cursor == |raw| then Indexed(index) else Comprised;
  }

  lemma SeenSnoc(seen: set<int>, trail: seq<int>, next: int, n: nat)
    requires trail != [] && 0 <= Last(trail) < n && Last(trail) !in seen
    requires forall x | x in seen :: 0 <= x < n && x in Init(trail)
    ensures forall x | x in seen + {Last(trail)} :: 0 <= x < n && x in Init(trail + [next])
    ensures |seen| < |seen + {Last(trail)}| <= n
  {
    assert Init(trail + [next]) == trail;
    InitLast(trail);
    FewPlaces(seen + {Last(trail)}, n);
  }

  // ----- what a negative size can do

  lemma PushedNew(index: Index, id: long, at: int)
    requires id !in index
    ensures Pushed(index, id, at) == index[id := [at]]
  {
    var none: seq<int> := [];
    assert none + [at] == [at];
  }

  lemma TrailOfTwo(memory: seq<byte>, id: long, at: int, other: long, end: int)
    requires HasHeader(memory, 0) && IdAt(memory, 0) == id && Onward(memory, 0) == at
    requires HasHeader(memory, at) && IdAt(memory, at) == other && Onward(memory, at) == end
    requires id != other
    ensures Ends(memory, [0] + [at] + [end], end)
    ensures TrailIndex(memory, [0] + [at] + [end]) == map[id := [0], other := [at]]
  {
    var one := [0];
    TrailSnoc(memory, one);
    TrailSnoc(memory, one + [at]);
    PushedNew(map[], id, 0);
    PushedNew(map[id := [0]], other, at);
  }

  lemma Overlapping(memory: seq<byte>, a: long, b: long, c: long)
    requires memory == EncodeLong(a) + EncodeLong(b) + EncodeLong(c)
    ensures |memory| == 24
    ensures IdAt(memory, 0) == a && SizeAt(memory, 0) == b
    ensures IdAt(memory, 8) == b && SizeAt(memory, 8) == c
  {
    assert memory[0..] == Header(a, b) + EncodeLong(c);
    HeaderRoundTrip(a, b, EncodeLong(c));
    assert memory[8..] == Header(b, c) + [];
    HeaderRoundTrip(b, c, []);
  }

  /** A header of size -8 whose scan goes on inside it is accepted, but is no record list. */
  lemma AcceptsNegative(memory: seq<byte>)
    requires memory == EncodeLong(1) + EncodeLong(-8) + EncodeLong(0)
    ensures Scans(memory, Indexed(map[1 := [0], -8 := [8]]))
    ensures Parse(memory).None?
  {
    Overlapping(memory, 1, -8, 0);
    TrailOfTwo(memory, 1, 8, -8, 24);
    NegativeIsNoRecord(memory);
  }

  lemma NegativeIsNoRecord(memory: seq<byte>)
    requires HasHeader(memory, 0) && SizeAt(memory, 0) < 0
    ensures Parse(memory).None?
  {
    assert memory[0..] == memory;
  }

  /** A header of size -16 is met again and again. */
  lemma NeverEnds(memory: seq<byte>, id: long)
    requires memory == Header(id, -16)
    ensures Scans(memory, Endless)
  {
    HeaderRoundTrip(id, -16, []);
    assert memory[0..] == Header(id, -16) + [];
    assert Follows(memory, 0, 0);
    RevisitsEndless(memory, [0, 0], 0);
  }
}
