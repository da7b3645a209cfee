// One logical message being put together from the parts that arrive: the payload that
// is filled in and the list of ranges that have not been received.
module Reassembly {
  import opened ByteOrder
  import opened Sequences
  import opened Wrappers

  datatype Range = Range(lo: nat, hi: nat) {
    predicate Empty() { lo >= hi }
    predicate Has(p: nat) { lo <= p < hi }
    // The other range lies strictly between the ends of this one.
    predicate Surrounds(other: Range) { lo < other.lo && hi > other.hi }
  }

  const NONE := Range(0, 0)

  datatype Key = Key(kind: int, correlation: seq<byte>)

  // A physical message: a part of a logical message of `size` bytes.
  datatype Transport = Transport(key: Key, size: nat, offset: nat, data: seq<byte>)

  datatype Complete = Complete(key: Key, payload: seq<byte>, unhandled: seq<Range>) {
    predicate IsComplete() { unhandled == [] }
  }

  datatype Error = OutOfBounds

  // ----- Subtracting a range -----

  // What is left of a range when another is taken from it: the first part and the second.
  function Subtract(l: Range, r: Range): (Range, Range) {
    if l.hi >= r.lo && l.lo <= r.hi then
      if l.lo < r.lo && l.hi > r.hi then (Range(l.lo, r.lo), Range(r.hi, l.hi))
      else if l.lo < r.lo then (Range(l.lo, r.lo), NONE)
      else if l.hi > r.hi then (Range(r.hi, l.hi), NONE)
      else (NONE, NONE)
    else (l, NONE)
  }

  lemma SubtractIsDifference(l: Range, r: Range, p: nat)
    requires r.lo <= r.hi
    ensures (Subtract(l, r).0.Has(p) || Subtract(l, r).1.Has(p)) <==> l.Has(p) && !r.Has(p)
    ensures !(Subtract(l, r).0.Has(p) && Subtract(l, r).1.Has(p))
    ensures !Subtract(l, r).1.Empty() <==> l.Surrounds(r)
  {
  }

  // ----- Taking a chunk from every unhandled range -----

  function Firsts(ranges: seq<Range>, r: Range): (firsts: seq<Range>)
    ensures |firsts| == |ranges|
    ensures forall k :: 0 <= k < |ranges| ==> firsts[k] == Subtract(ranges[k], r).0
  {
    if ranges == [] then []
    else Firsts(ranges[..|ranges| - 1], r) + [Subtract(ranges[|ranges| - 1], r).0]
  }

  lemma FirstsNext(ranges: seq<Range>, r: Range, i: nat, now: seq<Range>)
    requires i < |ranges| && now == Firsts(ranges[..i], r) + ranges[i..]
    ensures now[i] == ranges[i]
    ensures now[i := Subtract(ranges[i], r).0] == Firsts(ranges[..i + 1], r) + ranges[i + 1..]
    ensures Second(ranges[..i + 1], r) == Subtract(ranges[i], r).1
  {
    assert ranges[..i + 1][..i] == ranges[..i];
  }

  // The second part that is kept: that of the last range looked at.
  function Second(ranges: seq<Range>, r: Range): Range {
    if ranges == [] then NONE else Subtract(ranges[|ranges| - 1], r).1
  }

  function Parts(ranges: seq<Range>, r: Range): seq<Range> {
    Firsts(ranges, r) + if Second(ranges, r).Empty() then [] else [Second(ranges, r)]
  }

  function NonEmpty(ranges: seq<Range>): seq<Range>
  {
    if ranges == [] then []
    else NonEmpty(ranges[..|ranges| - 1])
         + (if ranges[|ranges| - 1].Empty() then [] else [ranges[|ranges| - 1]])
  }

  lemma {:induction false} NonEmptyMembers(ranges: seq<Range>)
    ensures forall r :: r in NonEmpty(ranges) <==> r in ranges && !r.Empty()
  {
    if ranges != [] {
      var n := |ranges| - 1;
      NonEmptyMembers(ranges[..n]);
      assert ranges == ranges[..n] + [ranges[n]];
    }
  }

  function Without(s: seq<Range>, i: nat): seq<Range>
    requires i < |s|
  {
    s[..i] + s[i + 1..]
  }

  lemma WithoutMembers(s: seq<Range>, i: nat)
    requires i < |s|
    ensures forall x :: x in s <==> x == s[i] || x in Without(s, i)
  {
    SplitAround(s, i);
  }

  // The same ranges, as many times, in any order.
  ghost predicate Reordered(a: seq<Range>, b: seq<Range>)
    decreases |a|
  {
    if a == [] then b == []
    else exists i :: 0 <= i < |b| && b[i] == a[0] && Reordered(a[1..], Without(b, i))
  }

  lemma {:induction false} ReorderedSelf(a: seq<Range>)
    ensures Reordered(a, a)
  {
    if a != [] {
      ReorderedSelf(a[1..]);
      assert Without(a, 0) == a[1..];
    }
  }

  lemma {:induction false} ReorderedMembers(a: seq<Range>, b: seq<Range>)
    requires Reordered(a, b)
    ensures |a| == |b| && forall x :: x in b <==> x in a
    decreases |a|
  {
    if a != [] {
      var i :| 0 <= i < |b| && b[i] == a[0] && Reordered(a[1..], Without(b, i));
      ReorderedMembers(a[1..], Without(b, i));
      WithoutMembers(b, i);
      WithoutMembers(a, 0);
      assert Without(a, 0) == a[1..];
    }
  }

  // The ranges that remain, in whatever order the partition leaves them.
  ghost predicate Remain(before: seq<Range>, r: Range, after: seq<Range>) {
    Reordered(NonEmpty(Parts(before, r)), after)
  }

  predicate InBounds(c: Complete, t: Transport) { t.offset + |t.data| <= |c.payload| }

  function Chunk(t: Transport): (r: Range)
    ensures r.lo <= r.hi
  {
    Range(t.offset, t.offset + |t.data|)
  }

  function Filled(payload: seq<byte>, t: Transport): (filled: seq<byte>)
    requires t.offset + |t.data| <= |payload|
    ensures |filled| == |payload|
  {
    payload[..t.offset] + t.data + payload[t.offset + |t.data|..]
  }

  // Adding a part that fits.
  ghost predicate Adds(before: Complete, t: Transport, after: Complete) {
    && InBounds(before, t)
    && after.key == before.key
    && after.payload == Filled(before.payload, t)
    && Remain(before.unhandled, Chunk(t), after.unhandled)
  }

  // ----- The code -----

  method Partition(ranges: seq<Range>) returns (kept: seq<Range>)
    ensures Reordered(NonEmpty(ranges), kept)
  {
    kept := [];
    for i := 0 to |ranges|
      invariant kept == NonEmpty(ranges[..i])
    {
      assert ranges[..i + 1][..i] == ranges[..i];
      if !ranges[i].Empty() { kept := kept + [ranges[i]]; }
    }
    assert ranges[..|ranges|] == ranges;
    ReorderedSelf(kept);
  }

  // Takes the destination from every range in turn.
  method Exclude(ranges: seq<Range>, destination: Range) returns (parts: seq<Range>)
    ensures parts == Parts(ranges, destination)
  {
    parts := ranges;
    var splitted := NONE;
    for i := 0 to |ranges|
      invariant |parts| == |ranges|
      invariant parts == Firsts(ranges[..i], destination) + ranges[i..]
      invariant splitted == Second(ranges[..i], destination)
    {
      FirstsNext(ranges, destination, i, parts);
      var result := Subtract(parts[i], destination);
      parts := parts[i := result.0];
      splitted := result.1;
    }
    assert ranges[..|ranges|] == ranges;
    if !splitted.Empty() { parts := parts + [splitted]; }
  }

  method Add(c: Complete, t: Transport) returns (r: Result<Complete, Error>)
    ensures r.Err? <==> !InBounds(c, t)
    ensures r.Err? <==> t.offset + |t.data| > |c.payload|
    ensures r.Ok? ==> Adds(c, t, r.value)
  {
    if |c.payload| < t.offset + |t.data| { return Err(OutOfBounds); }
    var payload := Filled(c.payload, t);
    var parts := Exclude(c.unhandled, Chunk(t));
    var unhandled := Partition(parts);
    return Ok(Complete(c.key, payload, unhandled));
  }

  // ----- What adding does to the positions not received -----

  ghost predicate Open(ranges: seq<Range>, p: nat) { exists r :: r in ranges && r.Has(p) }

  // Some range but the last surrounds the chunk.
  ghost predicate LosesPart(ranges: seq<Range>, r: Range) {
    exists k :: 0 <= k < |ranges| - 1 && ranges[k].Surrounds(r)
  }

  ghost predicate Disjoint(ranges: seq<Range>) {
    && (forall k :: 0 <= k < |ranges| ==> !ranges[k].Empty())
    && forall i, j :: 0 <= i < j < |ranges| ==> Apart(ranges[i], ranges[j])
  }

  predicate Apart(l: Range, r: Range) { l.hi <= r.lo || r.hi <= l.lo }

  lemma RemainMembers(before: seq<Range>, r: Range, after: seq<Range>)
    requires Remain(before, r, after)
    ensures forall x :: x in after <==> x in Parts(before, r) && !x.Empty()
  {
    NonEmptyMembers(Parts(before, r));
    ReorderedMembers(NonEmpty(Parts(before, r)), after);
  }

  // The positions open after an add, before any loss: those of the parts.
  lemma OpenAfter(before: seq<Range>, r: Range, after: seq<Range>, p: nat)
    requires Remain(before, r, after) && r.lo <= r.hi
    ensures Open(after, p) <==>
            (exists k :: 0 <= k < |before| && Subtract(before[k], r).0.Has(p)) || Second(before, r).Has(p)
  {
    var parts := Parts(before, r);
    RemainMembers(before, r, after);
    if Open(after, p) {
      var x :| x in after && x.Has(p);
      assert x in parts;
      if x in Firsts(before, r) {
        var k :| 0 <= k < |before| && Firsts(before, r)[k] == x;
        assert Subtract(before[k], r).0.Has(p);
      }
    }
    if k :| 0 <= k < |before| && Subtract(before[k], r).0.Has(p) {
      assert parts[k] == Subtract(before[k], r).0;
      assert parts[k] in parts && parts[k] in after;
    }
    if Second(before, r).Has(p) {
      assert parts[|before|] == Second(before, r);
      assert Second(before, r) in parts && Second(before, r) in after;
    }
  }

  // Nothing that has been received is ever asked for again, and nothing is lost from the
  // chunk's outside unless a range but the last is split.
  lemma AddCovers(before: seq<Range>, r: Range, after: seq<Range>, p: nat)
    requires Remain(before, r, after) && r.lo <= r.hi
    ensures Open(after, p) ==> Open(before, p) && !r.Has(p)
    ensures !LosesPart(before, r) && Open(before, p) && !r.Has(p) ==> Open(after, p)
  {
    OpenAfter(before, r, after, p);
    if k :| 0 <= k < |before| && Subtract(before[k], r).0.Has(p) {
      SubtractIsDifference(before[k], r, p);
      assert before[k] in before;
    }
    if Second(before, r).Has(p) {
      SubtractIsDifference(before[|before| - 1], r, p);
      assert before[|before| - 1] in before;
    }
    if Open(before, p) && !r.Has(p) && !LosesPart(before, r) {
      var x :| x in before && x.Has(p);
      var k :| 0 <= k < |before| && before[k] == x;
      SubtractIsDifference(before[k], r, p);
    }
  }

  // The first position after a chunk that splits a range but the last is lost for good.
  lemma SplitLoses(before: seq<Range>, r: Range, after: seq<Range>, k: nat)
    requires Remain(before, r, after) && r.lo <= r.hi && Disjoint(before)
    requires k < |before| - 1 && before[k].Surrounds(r)
    ensures Open(before, r.hi) && !r.Has(r.hi) && !Open(after, r.hi)
  {
    var p := r.hi;
    assert before[k] in before && before[k].Has(p);
    OpenAfter(before, r, after, p);
    if j :| 0 <= j < |before| && Subtract(before[j], r).0.Has(p) {
      SubtractIsDifference(before[j], r, p);
    }
    if Second(before, r).Has(p) {
      SubtractIsDifference(before[|before| - 1], r, p);
    }
  }

  // Adding a chunk keeps account of exactly the bytes not received if and only if the chunk
  // does not fall strictly inside a range other than the last of the list.
  lemma AddIsExact(before: seq<Range>, r: Range, after: seq<Range>)
    requires Remain(before, r, after) && r.lo <= r.hi && Disjoint(before)
    ensures (forall p: nat :: Open(after, p) <==> Open(before, p) && !r.Has(p)) <==> !LosesPart(before, r)
  {
    if LosesPart(before, r) {
      var k :| 0 <= k < |before| - 1 && before[k].Surrounds(r);
      SplitLoses(before, r, after, k);
    } else {
      forall p: nat ensures Open(after, p) <==> Open(before, p) && !r.Has(p) {
        AddCovers(before, r, after, p);
      }
    }
  }

  // ----- The ranges stay disjoint -----

  lemma PartsDisjoint(before: seq<Range>, r: Range)
    requires Disjoint(before) && r.lo <= r.hi
    ensures Disjoint(NonEmpty(Parts(before, r)))
  {
    var parts := Parts(before, r);
    forall i, j | 0 <= i < j < |parts| && !parts[i].Empty() && !parts[j].Empty()
      ensures Apart(parts[i], parts[j])
    {
      assert j < |before| ==> Apart(before[i], before[j]);
      assert i < |before| - 1 ==> Apart(before[i], before[|before| - 1]);
    }
    NonEmptyDisjoint(parts);
  }

  lemma {:induction false} NonEmptyDisjoint(parts: seq<Range>)
    requires forall i, j :: 0 <= i < j < |parts| && !parts[i].Empty() && !parts[j].Empty() ==> Apart(parts[i], parts[j])
    ensures Disjoint(NonEmpty(parts))
  {
    if parts != [] {
      var n := |parts| - 1;
      var front := parts[..n];
      NonEmptyDisjoint(front);
      NonEmptyMembers(front);
      var kept := NonEmpty(front);
      forall k | 0 <= k < |kept| && !parts[n].Empty()
        ensures Apart(kept[k], parts[n])
      {
        assert kept[k] in kept;
        var i :| 0 <= i < |front| && front[i] == kept[k];
        assert parts[i] == kept[k];
      }
    }
  }

  // The place of b[j] in the list without b[i].
  function Place(i: nat, j: nat): nat
    requires j != i
  {
    if j < i then j else j - 1
  }

  lemma WithoutAt(b: seq<Range>, i: nat, j: nat)
    requires i < |b| && j < |b| && j != i
    ensures Place(i, j) < |b| - 1 && Without(b, i)[Place(i, j)] == b[j]
  {
  }

  lemma DisjointWith(b: seq<Range>, i: nat, rest: seq<Range>)
    requires i < |b| && rest == Without(b, i) && Disjoint(rest) && !b[i].Empty()
    requires forall k :: 0 <= k < |rest| ==> Apart(b[i], rest[k])
    ensures Disjoint(b)
  {
    forall j | 0 <= j < |b| ensures !b[j].Empty() {
      if j != i { WithoutAt(b, i, j); }
    }
    forall j, k | 0 <= j < k < |b| ensures Apart(b[j], b[k]) {
      if j != i { WithoutAt(b, i, j); }
      if k != i { WithoutAt(b, i, k); }
    }
  }

  lemma {:induction false} ReorderedDisjoint(a: seq<Range>, b: seq<Range>)
    requires Disjoint(a) && Reordered(a, b)
    ensures Disjoint(b)
    decreases |a|
  {
    if a != [] {
      var i :| 0 <= i < |b| && b[i] == a[0] && Reordered(a[1..], Without(b, i));
      var rest := Without(b, i);
      ReorderedDisjoint(a[1..], rest);
      ReorderedMembers(a[1..], rest);
      forall k | 0 <= k < |rest| ensures Apart(a[0], rest[k]) {
        assert rest[k] in a[1..];
      }
      DisjointWith(b, i, rest);
    }
  }

  lemma AddKeepsDisjoint(before: seq<Range>, r: Range, after: seq<Range>)
    requires Remain(before, r, after) && r.lo <= r.hi && Disjoint(before)
    ensures Disjoint(after)
  {
    PartsDisjoint(before, r);
    ReorderedDisjoint(NonEmpty(Parts(before, r)), after);
  }

  // ----- Whole messages -----

  function Fresh(key: Key, size: nat): Complete {
    Complete(key, Zeros(size), [Range(0, size)])
  }

  // A list of states from the first, each got by adding the next part.
  ghost predicate AddRun(states: seq<Complete>, parts: seq<Transport>) {
    && |states| == |parts| + 1
    && forall k :: 0 <= k < |parts| ==> Adds(states[k], parts[k], states[k + 1])
  }

  ghost predicate Received(parts: seq<Transport>, p: nat) {
    exists k :: 0 <= k < |parts| && Chunk(parts[k]).Has(p)
  }

  lemma ReceivedNext(parts: seq<Transport>, n: nat, p: nat)
    requires n < |parts|
    ensures Received(parts[..n + 1], p) <==> Received(parts[..n], p) || Chunk(parts[n]).Has(p)
  {
    var before, all := parts[..n], parts[..n + 1];
    PrefixNext(parts, n);
    if k :| 0 <= k < n && Chunk(before[k]).Has(p) { assert Chunk(all[k]).Has(p); }
    if Chunk(parts[n]).Has(p) { assert Chunk(all[n]).Has(p); }
    if k :| 0 <= k < n + 1 && Chunk(all[k]).Has(p) {
      if k < n { assert Chunk(before[k]).Has(p); }
    }
  }

  // In a run where no part splits a range but the last, whatever the order of arrival and
  // however the parts overlap, the open positions are those no part has brought.
  lemma {:induction false} RunKeepsAccount(states: seq<Complete>, parts: seq<Transport>, size: nat, n: nat, p: nat)
    requires AddRun(states, parts) && states[0].unhandled == [Range(0, size)] && n <= |parts|
    requires forall k :: 0 <= k < n ==> !LosesPart(states[k].unhandled, Chunk(parts[k]))
    ensures Open(states[n].unhandled, p) <==> p < size && !Received(parts[..n], p)
    decreases n
  {
    if n == 0 {
      assert Range(0, size) in states[0].unhandled;
      assert forall r :: r in states[0].unhandled ==> r == Range(0, size);
    } else {
      var m := n - 1;
      RunKeepsAccount(states, parts, size, m, p);
      assert Adds(states[m], parts[m], states[m + 1]);
      AddCovers(states[m].unhandled, Chunk(parts[m]), states[m + 1].unhandled, p);
      ReceivedNext(parts, m, p);
    }
  }

  // The unhandled bytes after n parts are exactly those that none of them has brought.
  ghost predicate Exact(states: seq<Complete>, parts: seq<Transport>, size: nat, n: nat)
    requires n < |states| && n <= |parts|
  {
    forall p: nat :: Open(states[n].unhandled, p) <==> p < size && !Received(parts[..n], p)
  }

  lemma {:induction false} StaysDisjoint(states: seq<Complete>, parts: seq<Transport>, size: nat, n: nat)
    requires AddRun(states, parts) && states[0].unhandled == [Range(0, size)] && 0 < n <= |parts|
    ensures Disjoint(states[n].unhandled)
    decreases n
  {
    var m := n - 1;
    var before, r, after := states[m].unhandled, Chunk(parts[m]), states[m + 1].unhandled;
    assert Adds(states[m], parts[m], states[m + 1]);
    if m > 0 {
      StaysDisjoint(states, parts, size, m);
      AddKeepsDisjoint(before, r, after);
    } else if size > 0 {
      AddKeepsDisjoint(before, r, after);
    } else {
      NothingRemains(before, r, after);
    }
  }

  lemma NothingRemains(before: seq<Range>, r: Range, after: seq<Range>)
    requires before == [Range(0, 0)] && Remain(before, r, after) && r.lo <= r.hi
    ensures after == []
  {
    RemainNonEmpty(before, r, after);
    if after != [] {
      var p := after[0].lo;
      assert after[0] in after && after[0].Has(p);
      AddCovers(before, r, after, p);
    }
  }

  // When a part splits a range but the last, the account is wrong before it or after it.
  lemma SplitIsInexact(states: seq<Complete>, parts: seq<Transport>, size: nat, n: nat)
    requires AddRun(states, parts) && states[0].unhandled == [Range(0, size)] && n < |parts|
    requires LosesPart(states[n].unhandled, Chunk(parts[n]))
    ensures !Exact(states, parts, size, n) || !Exact(states, parts, size, n + 1)
  {
    StaysDisjoint(states, parts, size, n);
    assert Adds(states[n], parts[n], states[n + 1]);
    var before, r := states[n].unhandled, Chunk(parts[n]);
    var k :| 0 <= k < |before| - 1 && before[k].Surrounds(r);
    SplitLoses(before, r, states[n + 1].unhandled, k);
    ReceivedNext(parts, n, r.hi);
  }

  // Over any sequence of parts the unhandled bytes are exactly those not received, after
  // every one of them, if and only if none splits a range but the last.
  lemma RunIsExact(states: seq<Complete>, parts: seq<Transport>, size: nat)
    requires AddRun(states, parts) && states[0].unhandled == [Range(0, size)]
    ensures (forall n :: 0 <= n <= |parts| ==> Exact(states, parts, size, n))
            <==> forall k :: 0 <= k < |parts| ==> !LosesPart(states[k].unhandled, Chunk(parts[k]))
  {
    if k :| 0 <= k < |parts| && LosesPart(states[k].unhandled, Chunk(parts[k])) {
      SplitIsInexact(states, parts, size, k);
    } else {
      forall n | 0 <= n <= |parts| ensures Exact(states, parts, size, n) {
        forall p: nat ensures Open(states[n].unhandled, p) <==> p < size && !Received(parts[..n], p) {
          RunKeepsAccount(states, parts, size, n, p);
        }
      }
    }
  }

  lemma RemainNonEmpty(before: seq<Range>, r: Range, after: seq<Range>)
    requires Remain(before, r, after)
    ensures forall k :: 0 <= k < |after| ==> !after[k].Empty()
  {
    RemainMembers(before, r, after);
  }

  // So such a run has a complete message exactly when every byte has been received.
  lemma CompleteMeansReceived(states: seq<Complete>, parts: seq<Transport>, size: nat)
    requires AddRun(states, parts) && states[0].unhandled == [Range(0, size)] && parts != []
    requires forall k :: 0 <= k < |parts| ==> !LosesPart(states[k].unhandled, Chunk(parts[k]))
    ensures states[|parts|].IsComplete() <==> forall p: nat :: p < size ==> Received(parts, p)
  {
    var n := |parts| - 1;
    var last := states[n + 1].unhandled;
    forall p: nat ensures Open(last, p) <==> p < size && !Received(parts, p) {
      RunKeepsAccount(states, parts, size, |parts|, p);
      assert parts[..|parts|] == parts;
    }
    assert Adds(states[n], parts[n], states[n + 1]);
    if last != [] {
      RemainNonEmpty(states[n].unhandled, Chunk(parts[n]), last);
      assert last[0] in last && last[0].Has(last[0].lo);
      assert Open(last, last[0].lo);
    }
  }

  // A part of a payload: a slice of it, at its place.
  predicate IsPartOf(t: Transport, payload: seq<byte>) {
    t.offset + |t.data| <= |payload| && t.data == payload[t.offset..t.offset + |t.data|]
  }

  lemma FilledAt(before: seq<byte>, t: Transport, payload: seq<byte>, p: nat)
    requires |before| == |payload| && IsPartOf(t, payload) && p < |payload|
    ensures Filled(before, t)[p] == if Chunk(t).Has(p) then payload[p] else before[p]
  {
  }

  lemma {:induction false} RunFills(states: seq<Complete>, parts: seq<Transport>, payload: seq<byte>, p: nat)
    requires AddRun(states, parts) && |states[0].payload| == |payload|
    requires forall k :: 0 <= k < |parts| ==> IsPartOf(parts[k], payload)
    ensures |states[|parts|].payload| == |payload|
    ensures p < |payload| && Received(parts, p) ==> states[|parts|].payload[p] == payload[p]
  {
    if parts != [] {
      var n := |parts| - 1;
      var front := parts[..n];
      RunFills(states[..n + 1], front, payload, p);
      assert states[n + 1].payload == Filled(states[n].payload, parts[n]) by {
        assert Adds(states[n], parts[n], states[n + 1]);
      }
      if p < |payload| { FilledAt(states[n].payload, parts[n], payload, p); }
      if Received(parts, p) && !Chunk(parts[n]).Has(p) {
        var k :| 0 <= k < |parts| && Chunk(parts[k]).Has(p);
        assert Chunk(front[k]).Has(p);
      }
    }
  }

  // Parts of one message in any order, overlapping or not: unless one splits a range other
  // than the last, a message that counts as complete holds exactly the payload sent.
  lemma CompleteIsPayload(states: seq<Complete>, parts: seq<Transport>, payload: seq<byte>)
    requires AddRun(states, parts) && parts != []
    requires states[0].unhandled == [Range(0, |payload|)] && |states[0].payload| == |payload|
    requires forall k :: 0 <= k < |parts| ==> IsPartOf(parts[k], payload)
    requires forall k :: 0 <= k < |parts| ==> !LosesPart(states[k].unhandled, Chunk(parts[k]))
    requires states[|parts|].IsComplete()
    ensures states[|parts|].payload == payload
  {
    CompleteMeansReceived(states, parts, |payload|);
    RunFills(states, parts, payload, 0);
    forall p: nat | p < |payload| ensures states[|parts|].payload[p] == payload[p] {
      RunFills(states, parts, payload, p);
    }
  }

  // Out of order the promise fails. When the part [c,d) comes before the part [a,b) and
  // 0 < a < b < c < d < n, the two parts [0,a) and [d,n) then make a message of n bytes
  // complete, though the bytes of [b,c) never came.
  lemma OutOfOrderLoses(a: nat, b: nat, c: nat, d: nat, n: nat)
    requires 0 < a < b < c < d < n
    ensures Remain([Range(0, n)], Range(c, d), [Range(0, c), Range(d, n)])
    ensures Remain([Range(0, c), Range(d, n)], Range(a, b), [Range(0, a), Range(d, n)])
    ensures Remain([Range(0, a), Range(d, n)], Range(0, a), [Range(d, n)])
    ensures Remain([Range(d, n)], Range(d, n), [])
  {
    RemainOfOne(Range(0, n), Range(c, d), [Range(0, c), Range(d, n)]);
    RemainOfTwo(Range(0, c), Range(d, n), Range(a, b), [Range(0, a), Range(d, n)]);
    RemainOfTwo(Range(0, a), Range(d, n), Range(0, a), [Range(d, n)]);
    RemainOfOne(Range(d, n), Range(d, n), []);
  }

  lemma RemainOfOne(a: Range, r: Range, after: seq<Range>)
    requires var (first, second) := Subtract(a, r);
             after == (if first.Empty() then [] else [first]) + (if second.Empty() then [] else [second])
    ensures NonEmpty(Parts([a], r)) == after && Remain([a], r, after)
  {
    var (first, second) := Subtract(a, r);
    assert [a][..0] == [];
    assert Firsts([a], r) == [first];
    NonEmptyNext([], first);
    if !second.Empty() { NonEmptyNext([first], second); }
    ReorderedSelf(after);
  }

  lemma ReorderedOne(a: seq<Range>, b: seq<Range>)
    requires Reordered(a, b) && |a| <= 1
    ensures a == b
  {
    ReorderedMembers(a, b);
    if a != [] { assert b[0] in a; }
  }

  // The next part in order leaves one open range behind it, or none.
  lemma NextRemains(open: seq<Range>, r: Range, n: nat, after: seq<Range>)
    requires open == [Range(r.lo, n)] && r.lo <= r.hi <= n && (r.lo < r.hi || r.lo == n)
    requires Remain(open, r, after)
    ensures after == if r.hi == n then [] else [Range(r.hi, n)]
  {
    var expected := if r.hi == n then [] else [Range(r.hi, n)];
    RemainOfOne(Range(r.lo, n), r, expected);
    ReorderedOne(expected, after);
  }

  lemma AddsInOrder(before: Complete, t: Transport, after: Complete)
    requires Adds(before, t, after) && before.unhandled == [Range(t.offset, |before.payload|)]
    requires t.data != [] || t.offset == |before.payload|
    ensures var n := |before.payload|;
            var end := t.offset + |t.data|;
            after == Complete(before.key, Filled(before.payload, t), if end == n then [] else [Range(end, n)])
  {
    NextRemains(before.unhandled, Chunk(t), |before.payload|, after.unhandled);
  }

  lemma RemainOfTwo(a: Range, b: Range, r: Range, after: seq<Range>)
    requires Subtract(b, r) == (b, NONE) && !b.Empty()
    requires after == (if Subtract(a, r).0.Empty() then [] else [Subtract(a, r).0]) + [b]
    ensures Remain([a, b], r, after)
  {
    var before := [a, b];
    var first := Subtract(a, r).0;
    assert after == NonEmpty(Parts(before, r)) by {
      assert Parts(before, r) == [first] + [b] by {
        assert Firsts(before, r) == [first, b];
        assert before[1] == b;
      }
      NonEmptyNext([first], b);
      NonEmptyNext([], first);
      assert [] + [first] == [first];
    }
    ReorderedSelf(after);
  }

  lemma NonEmptyNext(front: seq<Range>, x: Range)
    ensures NonEmpty(front + [x]) == NonEmpty(front) + if x.Empty() then [] else [x]
  {
    assert (front + [x])[..|front|] == front;
  }
}
