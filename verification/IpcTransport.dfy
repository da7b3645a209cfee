// Sending a logical message over a datagram device in parts of bounded size, and putting
// the parts of any number of interleaved messages together again in one cache.
module IpcTransport {
  import opened ByteOrder
  import opened Sequences
  import opened Wrappers
  import opened Reassembly

  datatype Message = Message(key: Key, payload: seq<byte>)

  // ----- Sending -----

  // How much of a payload of n bytes goes into the part that starts at `at`; a part holds
  // at most m bytes.
  function Amount(n: nat, at: nat, m: nat): (r: nat)
    requires at <= n
    ensures r <= m && at + r <= n
    ensures m > 0 && at < n ==> r > 0
  {
    if n - at > m then m else n - at
  }

  function Part(msg: Message, at: nat, m: nat): Transport
    requires at <= |msg.payload|
  {
    Transport(msg.key, |msg.payload|, at, msg.payload[at..at + Amount(|msg.payload|, at, m)])
  }

  // Everything that is sent from position `at` on: at least one part.
  function PartsFrom(msg: Message, at: nat, m: nat): (parts: seq<Transport>)
    requires m > 0 && at <= |msg.payload|
    ensures parts != []
    decreases |msg.payload| - at
  {
    var end := at + Amount(|msg.payload|, at, m);
    [Part(msg, at, m)] + if end < |msg.payload| then PartsFrom(msg, end, m) else []
  }

  // What is left to send at position `at`, which may be the end.
  function Left(msg: Message, at: nat, m: nat): seq<Transport>
    requires m > 0 && at <= |msg.payload|
  {
    if at < |msg.payload| then PartsFrom(msg, at, m) else []
  }

  // One part moves from what is left to what is sent.
  lemma SendNext(msg: Message, at: nat, m: nat, sent: seq<Transport>, left: seq<Transport>, parts: seq<Transport>)
    requires m > 0 && at <= |msg.payload|
    requires left == PartsFrom(msg, at, m) && parts == sent + left
    ensures parts == (sent + [Part(msg, at, m)]) + Left(msg, at + Amount(|msg.payload|, at, m), m)
    ensures |parts| > |sent| && parts[..|sent|] == sent
  {
    var rest := Left(msg, at + Amount(|msg.payload|, at, m), m);
    assert left == [Part(msg, at, m)] + rest;
    assert sent + ([Part(msg, at, m)] + rest) == (sent + [Part(msg, at, m)]) + rest;
  }

  // Sends the parts until one is refused by the device, which accepts `accepted` more.
  method Send(msg: Message, m: nat, accepted: nat) returns (sent: seq<Transport>, whole: bool)
    requires m > 0
    ensures var parts := PartsFrom(msg, 0, m);
            && whole == (|parts| <= accepted)
            && sent == if whole then parts else parts[..accepted]
  {
    ghost var parts := PartsFrom(msg, 0, m);
    sent := [];
    SendNext(msg, 0, m, sent, parts, parts);
    if accepted == 0 { return [], false; }
    sent := [Part(msg, 0, m)];
    var begin := Amount(|msg.payload|, 0, m);
    ghost var left := Left(msg, begin, m);
    while begin != |msg.payload|
      invariant begin <= |msg.payload| && |sent| <= accepted
      invariant left == Left(msg, begin, m) && parts == sent + left
      decreases |msg.payload| - begin
    {
      SendNext(msg, begin, m, sent, left, parts);
      if |sent| == accepted { return sent, false; }
      sent := sent + [Part(msg, begin, m)];
      begin := begin + Amount(|msg.payload|, begin, m);
      left := Left(msg, begin, m);
    }
    assert left == [] && sent + [] == sent;
    return sent, true;
  }

  function Joined(parts: seq<Transport>): seq<byte> {
    if parts == [] then [] else parts[0].data + Joined(parts[1..])
  }

  predicate Full(parts: seq<Transport>, k: nat, m: nat)
    requires k < |parts| - 1
  {
    |parts[k].data| == m && parts[k + 1].offset == parts[k].offset + m
  }

  lemma PartsFirst(msg: Message, at: nat, m: nat, parts: seq<Transport>) returns (end: nat, rest: seq<Transport>)
    requires m > 0 && at <= |msg.payload| && parts == PartsFrom(msg, at, m)
    ensures end == at + Amount(|msg.payload|, at, m) && rest == Left(msg, end, m)
    ensures parts == [Part(msg, at, m)] + rest && parts[1..] == rest
    ensures msg.payload[at..] == parts[0].data + msg.payload[end..]
  {
    end := at + Amount(|msg.payload|, at, m);
    rest := Left(msg, end, m);
    assert parts == [Part(msg, at, m)] + rest;
  }

  lemma {:induction false} PartsJoin(msg: Message, at: nat, m: nat, parts: seq<Transport>)
    requires m > 0 && at <= |msg.payload| && parts == PartsFrom(msg, at, m)
    ensures Joined(parts) == msg.payload[at..]
    decreases |msg.payload| - at
  {
    var end, rest := PartsFirst(msg, at, m, parts);
    if end < |msg.payload| { PartsJoin(msg, end, m, rest); }
  }

  lemma {:induction false} PartsLieInside(msg: Message, at: nat, m: nat, parts: seq<Transport>)
    requires m > 0 && at <= |msg.payload| && parts == PartsFrom(msg, at, m)
    ensures forall k :: 0 <= k < |parts| ==> |parts[k].data| <= m && IsPartOf(parts[k], msg.payload)
    decreases |msg.payload| - at
  {
    var end, rest := PartsFirst(msg, at, m, parts);
    if end < |msg.payload| { PartsLieInside(msg, end, m, rest); }
  }

  // The parts tile the payload: joined in order they are the payload, each a slice of it
  // at the offset where the one before it ends, each but the last full.
  lemma {:induction false} PartsTile(msg: Message, at: nat, m: nat, parts: seq<Transport>)
    requires m > 0 && at <= |msg.payload| && parts == PartsFrom(msg, at, m)
    ensures Joined(parts) == msg.payload[at..]
    ensures parts[0].offset == at
    ensures forall k :: 0 <= k < |parts| ==> |parts[k].data| <= m && IsPartOf(parts[k], msg.payload)
    ensures forall k :: 0 <= k < |parts| - 1 ==> Full(parts, k, m)
    decreases |msg.payload| - at
  {
    PartsJoin(msg, at, m, parts);
    PartsLieInside(msg, at, m, parts);
    var end, rest := PartsFirst(msg, at, m, parts);
    if end < |msg.payload| {
      PartsTile(msg, end, m, rest);
      forall k | 0 <= k < |parts| - 1 ensures Full(parts, k, m) {
        if k > 0 { assert Full(rest, k - 1, m); }
      }
    }
  }

  // A payload of n bytes takes max(1, ceil(n / m)) parts: one if it is empty, otherwise the
  // least number of parts of m bytes that holds it.
  lemma {:induction false} PartCount(msg: Message, at: nat, m: nat)
    requires m > 0 && at <= |msg.payload|
    ensures var left, count := |msg.payload| - at, |PartsFrom(msg, at, m)|;
            if left == 0 then count == 1 else (count - 1) * m < left <= count * m
    decreases |msg.payload| - at
  {
    var left := |msg.payload| - at;
    if left > m {
      PartCount(msg, at + m, m);
      CountNext(left, |PartsFrom(msg, at + m, m)|, m);
      assert |PartsFrom(msg, at, m)| == |PartsFrom(msg, at + m, m)| + 1;
    }
  }

  lemma CountNext(left: int, count: int, m: int)
    requires (count - 1) * m < left - m <= count * m
    ensures count * m < left <= (count + 1) * m
  {
  }

  // ----- Receiving -----

  type Cache = seq<Complete>

  predicate Waiting(c: Complete, key: Key) { !c.IsComplete() && c.key == key }

  // The first entry that waits for parts of the key, or the end of the cache.
  function Find(cache: Cache, key: Key): (i: nat)
    ensures i <= |cache|
    ensures forall k :: 0 <= k < i ==> !Waiting(cache[k], key)
    ensures i < |cache| ==> Waiting(cache[i], key)
  {
    if cache == [] then 0 else if Waiting(cache[0], key) then 0 else 1 + Find(cache[1..], key)
  }

  // The message that a part is added to.
  function Target(cache: Cache, t: Transport): Complete {
    var i := Find(cache, t.key);
    if i < |cache| then cache[i] else Fresh(t.key, t.size)
  }

  function Placed(cache: Cache, i: nat, c: Complete): (after: Cache)
    requires i <= |cache|
    ensures |after| == if i < |cache| then |cache| else |cache| + 1
    ensures after[i] == c
  {
    if i < |cache| then cache[i := c] else cache + [c]
  }

  ghost predicate Receives(before: Cache, t: Transport, after: Cache) {
    var i := Find(before, t.key);
    exists c :: Adds(Target(before, t), t, c) && after == Placed(before, i, c)
  }

  class Inbound {
    var cache: Cache

    constructor ()
      ensures cache == []
    {
      cache := [];
    }

    // Takes one part from the device.
    method Receive(t: Transport) returns (r: Result<nat, Error>)
      modifies this
      ensures r.Err? <==> !InBounds(Target(old(cache), t), t)
      ensures r.Err? ==> cache == old(cache)
      ensures r.Ok? ==> r.value == Find(old(cache), t.key) && Receives(old(cache), t, cache)
    {
      var found := 0;
      while found < |cache| && !Waiting(cache[found], t.key)
        invariant 0 <= found <= |cache| && cache == old(cache)
        invariant Find(cache, t.key) == found + Find(cache[found..], t.key)
      {
        assert cache[found..][1..] == cache[found + 1..];
        found := found + 1;
      }
      var target := if found < |cache| then cache[found] else Fresh(t.key, t.size);
      var added := Add(target, t);
      if added.Err? { return Err(added.error); }
      if found < |cache| {
        cache := cache[found := added.value];
      } else {
        cache := cache + [added.value];
      }
      assert cache == Placed(old(cache), found, added.value);
      return Ok(found);
    }

    // Takes a complete message out of the cache.
    method Extract(at: nat) returns (c: Complete)
      requires at < |cache| && cache[at].IsComplete()
      modifies this
      ensures c == old(cache)[at] && cache == old(cache)[..at] + old(cache)[at + 1..]
    {
      c := cache[at];
      cache := cache[..at] + cache[at + 1..];
    }
  }

  // ----- Interleaved messages -----

  // A message on its way: the parts that have not arrived yet.
  datatype Flow = Flow(message: Message, rest: seq<Transport>)

  // One thing that happens at the receiver: the first part of a message arrives, the next
  // part of a message under way arrives, or a complete message is taken from the cache.
  datatype Event = Start(message: Message) | Continue(at: nat) | Extract(at: nat)

  // Messages in flight have distinct keys, and only complete messages are taken.
  predicate Allowed(flows: seq<Flow>, e: Event) {
    match e
    case Start(msg) => forall f :: f in flows && f.rest != [] ==> f.message.key != msg.key
    case Continue(at) => at < |flows| && flows[at].rest != []
    case Extract(at) => at < |flows| && flows[at].rest == []
  }

  function Proceed(flows: seq<Flow>, e: Event, m: nat): seq<Flow>
    requires m > 0 && Allowed(flows, e)
  {
    match e
    case Start(msg) => flows + [Flow(msg, PartsFrom(msg, 0, m)[1..])]
    case Continue(at) => flows[at := Flow(flows[at].message, flows[at].rest[1..])]
    case Extract(at) => RemoveAt(flows, at)
  }

  // What the event does to the cache.
  ghost predicate Moves(before: Cache, flows: seq<Flow>, e: Event, m: nat, after: Cache)
    requires m > 0 && Allowed(flows, e)
  {
    match e
    case Start(msg) => Receives(before, PartsFrom(msg, 0, m)[0], after)
    case Continue(at) => Receives(before, flows[at].rest[0], after)
    case Extract(at) => at < |before| && after == RemoveAt(before, at)
  }

  // The state of the receiver, and what is on its way, after each of a list of events.
  ghost predicate IsRun(caches: seq<Cache>, flows: seq<seq<Flow>>, events: seq<Event>, m: nat)
    requires m > 0
  {
    && |caches| == |flows| == |events| + 1
    && caches[0] == [] && flows[0] == []
    && forall k :: 0 <= k < |events| ==>
         && Allowed(flows[k], events[k])
         && flows[k + 1] == Proceed(flows[k], events[k], m)
         && Moves(caches[k], flows[k], events[k], m, caches[k + 1])
  }

  function Arrived(f: Flow): nat {
    if f.rest == [] then |f.message.payload| else f.rest[0].offset
  }

  // The rest is what the sender has yet to send.
  predicate Sound(f: Flow, m: nat)
    requires m > 0
  {
    f.rest != [] ==>
      && f.rest[0].offset < |f.message.payload|
      && f.rest == PartsFrom(f.message, f.rest[0].offset, m)
  }

  // What the cache holds of a message: what has arrived, zeros, and one open range.
  function Expected(msg: Message, arrived: nat): Complete
    requires arrived <= |msg.payload|
  {
    var n := |msg.payload|;
    Complete(msg.key, Started(msg.payload, arrived), if arrived == n then [] else [Range(arrived, n)])
  }

  ghost predicate Mirrors(cache: Cache, flows: seq<Flow>, m: nat)
    requires m > 0
  {
    && |cache| == |flows|
    && (forall k :: 0 <= k < |flows| ==> MirrorsOne(cache[k], flows[k], m))
    && Distinct(flows)
  }

  ghost predicate MirrorsOne(c: Complete, f: Flow, m: nat)
    requires m > 0
  {
    Sound(f, m) && c == Expected(f.message, Arrived(f))
  }

  ghost predicate Distinct(flows: seq<Flow>) {
    forall i, j :: 0 <= i < j < |flows| && flows[i].rest != [] && flows[j].rest != []
      ==> flows[i].message.key != flows[j].message.key
  }

  lemma MirrorsOneMeans(c: Complete, f: Flow, m: nat)
    requires m > 0 && MirrorsOne(c, f, m)
    ensures c.key == f.message.key && (c.IsComplete() <==> f.rest == [])
    ensures c.IsComplete() ==> c.payload == f.message.payload
  {
  }

  // Adding the next part in order to what is expected gives what is expected next.
  lemma AddsNext(msg: Message, arrived: nat, m: nat, before: Complete, after: Complete)
    requires m > 0 && arrived <= |msg.payload| && (arrived < |msg.payload| || arrived == 0)
    requires before.key == msg.key && before.unhandled == [Range(arrived, |msg.payload|)]
    requires before.payload == Started(msg.payload, arrived)
    requires Adds(before, Part(msg, arrived, m), after)
    ensures after == Expected(msg, arrived + Amount(|msg.payload|, arrived, m))
  {
    var t, end := Part(msg, arrived, m), arrived + Amount(|msg.payload|, arrived, m);
    NextFills(msg, arrived, m, end);
    AddsUpTo(msg, end, t, before, after);
  }

  lemma AddsUpTo(msg: Message, end: nat, t: Transport, before: Complete, after: Complete)
    requires t.offset + |t.data| == end <= |msg.payload| && (t.data != [] || end == |msg.payload|)
    requires before.key == msg.key && before.unhandled == [Range(t.offset, |msg.payload|)]
    requires |before.payload| == |msg.payload| && Filled(before.payload, t) == Started(msg.payload, end)
    requires Adds(before, t, after)
    ensures after == Expected(msg, end)
  {
    AddsInOrder(before, t, after);
  }

  // The next part fills the room up to its end.
  lemma NextFills(msg: Message, arrived: nat, m: nat, end: nat)
    requires arrived <= |msg.payload| && end == arrived + Amount(|msg.payload|, arrived, m)
    ensures var t := Part(msg, arrived, m);
            && t.key == msg.key && t.offset == arrived && arrived + |t.data| == end
            && Filled(Started(msg.payload, arrived), t) == Started(msg.payload, end)
  {
    SliceFills(msg.payload, arrived, end, Part(msg, arrived, m));
  }

  lemma SliceFills(payload: seq<byte>, arrived: nat, end: nat, t: Transport)
    requires arrived <= end <= |payload| && t.offset == arrived && t.data == payload[arrived..end]
    ensures Filled(Started(payload, arrived), t) == Started(payload, end)
  {
  }

  lemma FindIs(cache: Cache, key: Key, at: nat)
    requires at < |cache| && Waiting(cache[at], key)
    requires forall k :: 0 <= k < at ==> !Waiting(cache[k], key)
    ensures Find(cache, key) == at
  {
  }

  lemma FlowStep(f: Flow, m: nat)
    requires m > 0 && Sound(f, m) && f.rest != []
    ensures var n := |f.message.payload|;
            var next := Flow(f.message, f.rest[1..]);
            && f.rest[0] == Part(f.message, Arrived(f), m)
            && Sound(next, m)
            && Arrived(next) == Arrived(f) + Amount(n, Arrived(f), m)
  {
    var at := f.rest[0].offset;
    var end := at + Amount(|f.message.payload|, at, m);
    if end < |f.message.payload| {
      assert f.rest[1..] == PartsFrom(f.message, end, m);
    } else {
      assert f.rest[1..] == [];
    }
  }

  lemma StartMirrors(cache: Cache, flows: seq<Flow>, msg: Message, m: nat, after: Cache)
    requires m > 0 && Mirrors(cache, flows, m) && Allowed(flows, Start(msg))
    requires Moves(cache, flows, Start(msg), m, after)
    ensures Mirrors(after, Proceed(flows, Start(msg), m), m)
  {
    var t := PartsFrom(msg, 0, m)[0];
    var i := Find(cache, msg.key);
    assert i == |cache| by { FirstFits(cache, flows, msg, m); }
    var c :| Adds(Target(cache, t), t, c) && after == Placed(cache, i, c);
    var f := Flow(msg, PartsFrom(msg, 0, m)[1..]);
    assert MirrorsOne(c, f, m) by { StartOne(msg, m, c); }
    AppendMirrors(cache, flows, m, c, f);
  }

  lemma AppendMirrors(cache: Cache, flows: seq<Flow>, m: nat, c: Complete, f: Flow)
    requires m > 0 && Mirrors(cache, flows, m) && MirrorsOne(c, f, m) && Allowed(flows, Start(f.message))
    ensures Mirrors(cache + [c], flows + [f], m)
  {
    forall k | 0 <= k < |flows| ensures flows[k].rest != [] ==> flows[k].message.key != f.message.key {
      assert flows[k] in flows;
    }
    forall k | 0 <= k <= |flows| ensures MirrorsOne((cache + [c])[k], (flows + [f])[k], m) {
      if k < |flows| { assert MirrorsOne(cache[k], flows[k], m); }
    }
  }

  lemma StartOne(msg: Message, m: nat, c: Complete)
    requires m > 0 && Adds(Fresh(msg.key, |msg.payload|), Part(msg, 0, m), c)
    ensures MirrorsOne(c, Flow(msg, PartsFrom(msg, 0, m)[1..]), m)
  {
    var f := Flow(msg, PartsFrom(msg, 0, m)[1..]);
    assert f.rest == Left(msg, Amount(|msg.payload|, 0, m), m);
    AddsNext(msg, 0, m, Fresh(msg.key, |msg.payload|), c);
  }

  // The next part of a message under way finds the message's own entry.
  lemma FindsOwn(cache: Cache, flows: seq<Flow>, at: nat, m: nat)
    requires m > 0 && Mirrors(cache, flows, m) && at < |flows| && flows[at].rest != []
    ensures Find(cache, flows[at].message.key) == at
  {
    forall k | 0 <= k <= at
      ensures cache[k].key == flows[k].message.key && (cache[k].IsComplete() <==> flows[k].rest == [])
    {
      assert MirrorsOne(cache[k], flows[k], m);
      MirrorsOneMeans(cache[k], flows[k], m);
    }
    FindIs(cache, flows[at].message.key, at);
  }

  lemma ContinueMirrors(cache: Cache, flows: seq<Flow>, at: nat, m: nat, after: Cache)
    requires m > 0 && Mirrors(cache, flows, m) && Allowed(flows, Continue(at))
    requires Moves(cache, flows, Continue(at), m, after)
    ensures Mirrors(after, Proceed(flows, Continue(at), m), m)
  {
    FindsOwn(cache, flows, at, m);
    var f := flows[at];
    var t := f.rest[0];
    assert t.key == f.message.key by { FlowStep(f, m); }
    var c :| Adds(Target(cache, t), t, c) && after == Placed(cache, at, c);
    var next := Flow(f.message, f.rest[1..]);
    assert MirrorsOne(c, next, m) by { ContinueOne(cache[at], f, m, c); }
    ReplaceMirrors(cache, flows, at, m, c, next);
  }

  lemma ContinueOne(before: Complete, f: Flow, m: nat, c: Complete)
    requires m > 0 && MirrorsOne(before, f, m) && f.rest != [] && Adds(before, f.rest[0], c)
    ensures MirrorsOne(c, Flow(f.message, f.rest[1..]), m)
  {
    var arrived := Arrived(f);
    FlowStep(f, m);
    assert before == Expected(f.message, arrived);
    AddsNext(f.message, arrived, m, before, c);
  }

  lemma ReplaceMirrors(cache: Cache, flows: seq<Flow>, at: nat, m: nat, c: Complete, f: Flow)
    requires m > 0 && Mirrors(cache, flows, m) && at < |flows|
    requires MirrorsOne(c, f, m) && flows[at].rest != [] && f.message == flows[at].message
    ensures Mirrors(cache[at := c], flows[at := f], m)
  {
    var flows', cache' := flows[at := f], cache[at := c];
    forall k | 0 <= k < |flows'| ensures MirrorsOne(cache'[k], flows'[k], m) {
      if k != at { assert MirrorsOne(cache[k], flows[k], m); }
    }
  }

  // The first part of a message starts an entry of its own and is not refused.
  lemma FirstFits(cache: Cache, flows: seq<Flow>, msg: Message, m: nat)
    requires m > 0 && Mirrors(cache, flows, m) && Allowed(flows, Start(msg))
    ensures var t := PartsFrom(msg, 0, m)[0];
            Find(cache, t.key) == |cache| && InBounds(Target(cache, t), t) && t.size == |msg.payload|
  {
    forall k | 0 <= k < |cache| ensures !Waiting(cache[k], msg.key) {
      assert flows[k] in flows && MirrorsOne(cache[k], flows[k], m);
      MirrorsOneMeans(cache[k], flows[k], m);
    }
  }

  // No other part that comes in order is refused.
  lemma PartsFit(cache: Cache, flows: seq<Flow>, at: nat, m: nat)
    requires m > 0 && Mirrors(cache, flows, m) && Allowed(flows, Continue(at))
    ensures InBounds(Target(cache, flows[at].rest[0]), flows[at].rest[0])
  {
    FindsOwn(cache, flows, at, m);
    FlowStep(flows[at], m);
    assert MirrorsOne(cache[at], flows[at], m);
  }

  lemma ExtractMirrors(cache: Cache, flows: seq<Flow>, at: nat, m: nat, after: Cache)
    requires m > 0 && Mirrors(cache, flows, m) && Allowed(flows, Extract(at))
    requires Moves(cache, flows, Extract(at), m, after)
    ensures Mirrors(after, Proceed(flows, Extract(at), m), m)
    ensures cache[at].IsComplete() && cache[at].key == flows[at].message.key
         && cache[at].payload == flows[at].message.payload
  {
    assert MirrorsOne(cache[at], flows[at], m);
    MirrorsOneMeans(cache[at], flows[at], m);
    forall k | 0 <= k < |flows| - 1 ensures MirrorsOne(RemoveAt(cache, at)[k], RemoveAt(flows, at)[k], m) {
      RemovedAt(cache, at, k);
      RemovedAt(flows, at, k);
      assert MirrorsOne(cache[if k < at then k else k + 1], flows[if k < at then k else k + 1], m);
    }
    DistinctWithout(flows, at);
  }

  lemma DistinctWithout(flows: seq<Flow>, at: nat)
    requires at < |flows| && Distinct(flows)
    ensures Distinct(RemoveAt(flows, at))
  {
    forall i, j | 0 <= i < j < |flows| - 1 && RemoveAt(flows, at)[i].rest != [] && RemoveAt(flows, at)[j].rest != []
      ensures RemoveAt(flows, at)[i].message.key != RemoveAt(flows, at)[j].message.key
    {
      RemovedAt(flows, at, i);
      RemovedAt(flows, at, j);
    }
  }

  // For any number of messages under way at once and every interleaving that keeps the
  // order of each message's own parts, the cache mirrors what has arrived.
  lemma {:induction false} RunMirrors(caches: seq<Cache>, flows: seq<seq<Flow>>, events: seq<Event>, m: nat, k: nat)
    requires m > 0 && IsRun(caches, flows, events, m) && k <= |events|
    ensures Mirrors(caches[k], flows[k], m)
  {
    if k > 0 {
      RunMirrors(caches, flows, events, m, k - 1);
      match events[k - 1]
      case Start(msg) => StartMirrors(caches[k - 1], flows[k - 1], msg, m, caches[k]);
      case Continue(at) => ContinueMirrors(caches[k - 1], flows[k - 1], at, m, caches[k]);
      case Extract(at) => ExtractMirrors(caches[k - 1], flows[k - 1], at, m, caches[k]);
    }
  }

  // So an entry is complete exactly when its message's last part has arrived, and then it
  // holds the message that was sent.
  lemma Reassembles(caches: seq<Cache>, flows: seq<seq<Flow>>, events: seq<Event>, m: nat, k: nat, j: nat)
    requires m > 0 && IsRun(caches, flows, events, m) && k <= |events| && j < |flows[k]|
    ensures |caches[k]| == |flows[k]|
    ensures caches[k][j].IsComplete() <==> flows[k][j].rest == []
    ensures caches[k][j].key == flows[k][j].message.key
    ensures caches[k][j].IsComplete() ==> caches[k][j].payload == flows[k][j].message.payload
  {
    RunMirrors(caches, flows, events, m, k);
    MirrorsOneMeans(caches[k][j], flows[k][j], m);
  }
}
