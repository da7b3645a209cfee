// A resumable reader and writer of messages over a byte stream: a header of fixed size and
// a payload, in whatever pieces the socket takes and gives them.
module TcpTransport {
  import opened ByteOrder
  import opened Sequences
  import opened Wrappers

  const HEADER: nat := 32

  // The type 0 is the one of the absent message.
  datatype Message = Message(kind: long, correlation: seq<byte>, payload: seq<byte>)

  // What a sender can build: a correlation of 16 bytes and a size that fits the header.
  predicate IsMessage(msg: Message) { |msg.correlation| == 16 && |msg.payload| <= LONG_MAX }

  function HeaderOf(msg: Message): (h: seq<byte>)
    requires IsMessage(msg)
    ensures |h| == HEADER
  {
    EncodeLong(msg.kind) + msg.correlation + EncodeLong(|msg.payload|)
  }

  function Wire(msg: Message): (w: seq<byte>)
    requires IsMessage(msg)
    ensures |w| == Total(msg)
  {
    HeaderOf(msg) + msg.payload
  }

  function Total(msg: Message): nat { HEADER + |msg.payload| }

  // Byte i on the wire: the type, the correlation, the size of the payload, and the payload;
  // numbers with their most significant byte first.
  lemma WireBytes(msg: Message, i: nat)
    requires IsMessage(msg) && i < 32 + |msg.payload|
    ensures |Wire(msg)| == 32 + |msg.payload|
    ensures Wire(msg)[i] == if i < 8 then Bits(msg.kind) / Span(7 - i) % 256
                            else if i < 24 then msg.correlation[i - 8]
                            else if i < 32 then |msg.payload| / Span(31 - i) % 256
                            else msg.payload[i - 32]
  {
    if i < 8 {
      LongByteAt(msg.kind, i);
    } else if 24 <= i < 32 {
      LongByteAt(|msg.payload|, i - 24);
    }
  }

  function Stream(msgs: seq<Message>): seq<byte>
    requires forall msg :: msg in msgs ==> IsMessage(msg)
  {
    if msgs == [] then [] else Wire(msgs[0]) + Stream(msgs[1..])
  }

  // A message as far as it has been sent or received.
  datatype Complete = Complete(offset: nat, header: seq<byte>, payload: seq<byte>)

  function Fresh(): Complete { Complete(0, Zeros(HEADER), []) }

  predicate Sane(c: Complete) {
    |c.header| == HEADER && if c.offset < HEADER then c.payload == [] else c.offset - HEADER <= |c.payload|
  }

  function Kind(c: Complete): long
    requires |c.header| == HEADER
  {
    DecodeLong(c.header[..8])
  }

  function Size(c: Complete): long
    requires |c.header| == HEADER
  {
    DecodeLong(c.header[24..])
  }

  predicate IsComplete(c: Complete)
    requires |c.header| == HEADER
  {
    Kind(c) != 0 && c.offset == HEADER + |c.payload|
  }

  // ----- Receiving: what one call does -----

  // How many bytes a read for `count` bytes gets when the socket is ready to give `grant`;
  // none when it would block.
  function Got(input: seq<byte>, count: nat, grant: nat): (n: nat)
    ensures n <= count && n <= |input|
    ensures count > 0 && input != [] && grant > 0 ==> n > 0
  {
    var n := if grant < count then grant else count;
    if n < |input| then n else |input|
  }

  function Fill(buffer: seq<byte>, at: nat, data: seq<byte>): (filled: seq<byte>)
    requires at + |data| <= |buffer|
    ensures |filled| == |buffer|
  {
    buffer[..at] + data + buffer[at + |data|..]
  }

  datatype Read = Read(complete: Complete, input: seq<byte>, raised: bool)

  // Reads payload. A read for no bytes gets none, which looks like the peer's shutdown.
  function ReadPayload(c: Complete, input: seq<byte>, grant: nat): (r: Read)
    requires Sane(c) && c.offset >= HEADER
    ensures Sane(r.complete)
  {
    var at := c.offset - HEADER;
    if |c.payload| == at then Read(c, input, true)
    else
      var n := Got(input, |c.payload| - at, grant);
      Read(Complete(c.offset + n, c.header, Fill(c.payload, at, input[..n])), input[n..], false)
  }

  function ReadHeader(c: Complete, input: seq<byte>, grant: nat): (r: Read)
    requires Sane(c) && c.offset < HEADER
    ensures |r.complete.header| == HEADER && r.complete.offset <= HEADER && r.complete.payload == []
  {
    var n := Got(input, HEADER - c.offset, grant);
    Read(Complete(c.offset + n, Fill(c.header, c.offset, input[..n]), c.payload), input[n..], false)
  }

  // One call: the rest of the header and then, if that is whole, of the payload. A payload
  // of negative size cannot be made room for.
  function ReadPart(c: Complete, input: seq<byte>, first: nat, second: nat): (r: Read)
    requires Sane(c)
    ensures Sane(r.complete)
  {
    if c.offset >= HEADER then ReadPayload(c, input, first)
    else
      var h := ReadHeader(c, input, first);
      if h.complete.offset < HEADER then h
      else if Size(h.complete) < 0 then Read(h.complete, h.input, true)
      else ReadPayload(h.complete.(payload := Zeros(Size(h.complete))), h.input, second)
  }

  type Cache = seq<Complete>

  ghost predicate SaneCache(cache: Cache) { forall k :: 0 <= k < |cache| ==> Sane(cache[k]) }

  datatype Outcome = Outcome(cache: Cache, input: seq<byte>, got: bool, raised: bool)

  // One call on the cache: goes on with the last entry if that is incomplete.
  function Call(cache: Cache, input: seq<byte>, grant: (nat, nat)): (o: Outcome)
    requires SaneCache(cache)
    ensures SaneCache(o.cache) && (o.got ==> o.cache != [])
  {
    var last := |cache| - 1;
    if cache != [] && !IsComplete(cache[last]) then
      var r := ReadPart(cache[last], input, grant.0, grant.1);
      Outcome(cache[last := r.complete], r.input, !r.raised && IsComplete(r.complete), r.raised)
    else
      var r := ReadPart(Fresh(), input, grant.0, grant.1);
      if r.raised || r.complete.offset == 0 then Outcome(cache, r.input, false, r.raised)
      else Outcome(cache + [r.complete], r.input, IsComplete(r.complete), false)
  }

  // One call more.
  function Then(o: Outcome, grant: (nat, nat)): (r: Outcome)
    requires SaneCache(o.cache)
    ensures SaneCache(r.cache)
  {
    var next := Call(o.cache, o.input, grant);
    next.(got := o.got || next.got)
  }

  // Calls one after another, until one raises. `got` tells whether some call got a message.
  function Run(cache: Cache, input: seq<byte>, grants: seq<(nat, nat)>): (o: Outcome)
    requires SaneCache(cache)
    ensures SaneCache(o.cache)
    decreases |grants|
  {
    if grants == [] then Outcome(cache, input, false, false)
    else
      var o := Run(cache, input, grants[..|grants| - 1]);
      if o.raised then o else Then(o, grants[|grants| - 1])
  }

  // The messages that the calls get, in order.
  function Delivered(cache: Cache, input: seq<byte>, grants: seq<(nat, nat)>): seq<Complete>
    requires SaneCache(cache)
    decreases |grants|
  {
    if grants == [] then []
    else
      var before := grants[..|grants| - 1];
      var o := Run(cache, input, before);
      Delivered(cache, input, before) + if o.raised then [] else Newest(Call(o.cache, o.input, grants[|grants| - 1]))
  }

  // The message that a call gets, if it gets one.
  function Newest(o: Outcome): seq<Complete>
    requires o.got ==> o.cache != []
  {
    if o.got then [o.cache[|o.cache| - 1]] else []
  }

  // ----- The code -----

  class Receiver {
    var input: seq<byte>
    var cache: Cache

    constructor (stream: seq<byte>)
      ensures input == stream && cache == []
    {
      input, cache := stream, [];
    }

    method Recv(buffer: seq<byte>, at: nat, count: nat, grant: nat) returns (filled: seq<byte>, n: nat, raised: bool)
      requires at + count <= |buffer|
      modifies this`input
      ensures raised == (count == 0)
      ensures raised ==> input == old(input) && filled == buffer && n == 0
      ensures !raised ==>
        n == Got(old(input), count, grant) && filled == Fill(buffer, at, old(input)[..n]) && input == old(input)[n..]
    {
      if count == 0 { return buffer, 0, true; }
      n := Got(input, count, grant);
      filled := Fill(buffer, at, input[..n]);
      input := input[n..];
      raised := false;
    }

    method ReceivePart(c: Complete, grant: (nat, nat)) returns (after: Complete, raised: bool)
      requires Sane(c)
      modifies this`input
      ensures Read(after, input, raised) == ReadPart(c, old(input), grant.0, grant.1)
    {
      after := c;
      if after.offset >= HEADER {
        var offset := after.offset - HEADER;
        var payload, n, closed := Recv(after.payload, offset, |after.payload| - offset, grant.0);
        if closed { return after, true; }
        after := Complete(after.offset + n, after.header, payload);
      } else {
        var header, n, closed := Recv(after.header, after.offset, HEADER - after.offset, grant.0);
        after := Complete(after.offset + n, header, after.payload);
        if after.offset == HEADER {
          if Size(after) < 0 { return after, true; }
          after := after.(payload := Zeros(Size(after)));
          var payload, m, shut := Recv(after.payload, 0, |after.payload|, grant.1);
          if shut { return after, true; }
          after := Complete(after.offset + m, after.header, payload);
        }
      }
      return after, false;
    }

    method Receive(grant: (nat, nat)) returns (got: bool, raised: bool)
      requires SaneCache(cache)
      modifies this
      ensures SaneCache(cache)
      ensures Outcome(cache, input, got, raised) == Call(old(cache), old(input), grant)
    {
      ghost var o := Call(cache, input, grant);
      var last := |cache| - 1;
      if cache != [] && !IsComplete(cache[last]) {
        var c, closed := ReceivePart(cache[last], grant);
        cache := cache[last := c];
        return !closed && IsComplete(c), closed;
      }
      var c, closed := ReceivePart(Fresh(), grant);
      if closed { return false, true; }
      got, raised := IsComplete(c), false;
      if got || c.offset != 0 { cache := cache + [c]; }
    }

    // Calls until there is a message, for as long as the socket grants anything.
    method ReceiveBlocking(grants: seq<(nat, nat)>) returns (got: bool, raised: bool, calls: nat)
      requires SaneCache(cache)
      modifies this
      ensures SaneCache(cache) && calls <= |grants|
      ensures Outcome(cache, input, got, raised) == Run(old(cache), old(input), grants[..calls])
      ensures !got && !raised ==> calls == |grants|
    {
      got, raised, calls := false, false, 0;
      RunNone(cache, input, grants);
      while calls < |grants|
        invariant calls <= |grants| && SaneCache(cache) && !got && !raised
        invariant Outcome(cache, input, false, false) == Run(old(cache), old(input), grants[..calls])
      {
        RunNext(old(cache), old(input), grants, calls);
        got, raised := Receive(grants[calls]);
        calls := calls + 1;
        if got || raised { return; }
      }
    }
  }

  lemma RunNone(cache: Cache, input: seq<byte>, grants: seq<(nat, nat)>)
    requires SaneCache(cache)
    ensures Run(cache, input, grants[..0]) == Outcome(cache, input, false, false)
  {
  }

  lemma RunMore(cache: Cache, input: seq<byte>, before: seq<(nat, nat)>, grant: (nat, nat))
    requires SaneCache(cache) && !Run(cache, input, before).raised
    ensures var o := Run(cache, input, before);
            && Run(cache, input, before + [grant]) == Then(o, grant)
            && Delivered(cache, input, before + [grant])
               == Delivered(cache, input, before) + Newest(Call(o.cache, o.input, grant))
  {
    assert (before + [grant])[..|before|] == before;
  }

  lemma RunNext(cache: Cache, input: seq<byte>, grants: seq<(nat, nat)>, n: nat)
    requires SaneCache(cache) && n < |grants| && !Run(cache, input, grants[..n]).raised
    ensures Run(cache, input, grants[..n + 1]) == Then(Run(cache, input, grants[..n]), grants[n])
  {
    PrefixNext(grants, n);
  }

  // ----- What a message is, part way -----

  function Partial(msg: Message, off: nat): (c: Complete)
    requires IsMessage(msg) && off <= Total(msg)
    ensures Sane(c)
  {
    if off < HEADER then Complete(off, Started(HeaderOf(msg), off), [])
    else Complete(off, HeaderOf(msg), Started(msg.payload, off - HEADER))
  }

  predicate Deliverable(msg: Message) { msg.kind != 0 && msg.payload != [] }

  lemma HeaderReads(msg: Message)
    requires IsMessage(msg)
    ensures DecodeLong(HeaderOf(msg)[..8]) == msg.kind
    ensures DecodeLong(HeaderOf(msg)[24..]) == |msg.payload|
  {
    assert HeaderOf(msg)[..8] == EncodeLong(msg.kind);
    assert HeaderOf(msg)[24..] == EncodeLong(|msg.payload|);
    DecodeEncodeLong(msg.kind);
    DecodeEncodeLong(|msg.payload|);
  }

  // A message is complete when its last byte has come, and only then.
  lemma CompleteAtEnd(msg: Message, off: nat)
    requires IsMessage(msg) && msg.payload != [] && off <= Total(msg)
    ensures IsComplete(Partial(msg, off)) <==> off == Total(msg) && msg.kind != 0
  {
    if off >= HEADER { HeaderReads(msg); }
  }

  // What is left of a stream when `off` bytes of this message have been read.
  function Left(msg: Message, off: nat, rest: seq<byte>): seq<byte>
    requires IsMessage(msg) && off <= Total(msg)
  {
    Wire(msg)[off..] + rest
  }

  lemma LeftNext(msg: Message, off: nat, n: nat, rest: seq<byte>)
    requires IsMessage(msg) && off + n <= Total(msg)
    ensures |Left(msg, off, rest)| >= n
    ensures Left(msg, off, rest)[..n] == Wire(msg)[off..off + n]
    ensures Left(msg, off, rest)[n..] == Left(msg, off + n, rest)
  {
  }

  lemma PayloadAdvances(msg: Message, off: nat, rest: seq<byte>, grant: nat) returns (off': nat)
    requires IsMessage(msg) && HEADER <= off < Total(msg)
    ensures off <= off' <= Total(msg)
    ensures ReadPayload(Partial(msg, off), Left(msg, off, rest), grant)
         == Read(Partial(msg, off'), Left(msg, off', rest), false)
    ensures grant > 0 ==> off' > off
    ensures grant >= Total(msg) - off ==> off' == Total(msg)
  {
    var at, input := off - HEADER, Left(msg, off, rest);
    var n := Got(input, |msg.payload| - at, grant);
    off' := off + n;
    assert input[..n] == msg.payload[at..at + n] && input[n..] == Left(msg, off', rest) by {
      LeftNext(msg, off, n, rest);
      InPayload(msg, at, n);
    }
    StartedFills(msg.payload, at, n);
  }

  lemma InPayload(msg: Message, at: nat, n: nat)
    requires IsMessage(msg) && at + n <= |msg.payload|
    ensures Wire(msg)[HEADER + at..HEADER + at + n] == msg.payload[at..at + n]
  {
  }

  lemma InHeader(msg: Message, off: nat, n: nat)
    requires IsMessage(msg) && off + n <= HEADER
    ensures Wire(msg)[off..off + n] == HeaderOf(msg)[off..off + n]
  {
  }

  lemma StartedFills(b: seq<byte>, at: nat, n: nat)
    requires at + n <= |b|
    ensures Fill(Started(b, at), at, b[at..at + n]) == Started(b, at + n)
  {
  }

  lemma StartedWhole(b: seq<byte>)
    ensures Started(b, |b|) == b && Started(b, 0) == Zeros(|b|)
  {
  }

  lemma HeaderAdvances(msg: Message, off: nat, rest: seq<byte>, grant: nat) returns (off': nat)
    requires IsMessage(msg) && off < HEADER
    ensures off <= off' <= HEADER
    ensures ReadHeader(Partial(msg, off), Left(msg, off, rest), grant)
         == Read(Complete(off', Started(HeaderOf(msg), off'), []), Left(msg, off', rest), false)
    ensures grant > 0 ==> off' > off
    ensures grant >= HEADER - off ==> off' == HEADER
  {
    var input := Left(msg, off, rest);
    var n := Got(input, HEADER - off, grant);
    off' := off + n;
    assert input[..n] == HeaderOf(msg)[off..off + n] && input[n..] == Left(msg, off', rest) by {
      LeftNext(msg, off, n, rest);
      InHeader(msg, off, n);
    }
    StartedFills(HeaderOf(msg), off, n);
  }

  // When the header has come, room is made for the payload.
  lemma HeaderDone(msg: Message)
    requires IsMessage(msg)
    ensures var h := Complete(HEADER, Started(HeaderOf(msg), HEADER), []);
            Size(h) == |msg.payload| && h.(payload := Zeros(Size(h))) == Partial(msg, HEADER)
  {
    StartedWhole(HeaderOf(msg));
    StartedWhole(msg.payload);
    HeaderReads(msg);
  }

  // One call gets on with the message, and never past its end.
  lemma PartAdvances(msg: Message, off: nat, rest: seq<byte>, first: nat, second: nat) returns (off': nat)
    requires IsMessage(msg) && msg.payload != [] && off < Total(msg)
    ensures off <= off' <= Total(msg)
    ensures ReadPart(Partial(msg, off), Left(msg, off, rest), first, second)
         == Read(Partial(msg, off'), Left(msg, off', rest), false)
    ensures first > 0 ==> off' > off
    ensures first >= HEADER && second >= |msg.payload| && off == 0 ==> off' == Total(msg)
  {
    if off >= HEADER {
      off' := PayloadAdvances(msg, off, rest, first);
    } else {
      off' := HeaderAdvances(msg, off, rest, first);
      if off' == HEADER {
        HeaderDone(msg);
        off' := PayloadAdvances(msg, HEADER, rest, second);
      }
    }
  }

  // ----- The cache after any number of calls -----

  // What the cache holds of the message under way.
  function Under(msg: Message, off: nat): Cache
    requires IsMessage(msg) && off <= Total(msg)
  {
    if off == 0 then [] else [Partial(msg, off)]
  }

  // A cache whose last entry is complete, so that a call begins a new one.
  ghost predicate Whole(done: Cache) { SaneCache(done) && (done != [] ==> IsComplete(done[|done| - 1])) }

  lemma FreshIsPartial(msg: Message)
    requires IsMessage(msg)
    ensures Partial(msg, 0) == Fresh()
  {
    StartedWhole(HeaderOf(msg));
  }

  // One call with `done` messages complete before: it only touches or adds the last entry,
  // and gets a message exactly when that message's last byte has come.
  lemma CallAdvances(done: Cache, msg: Message, off: nat, rest: seq<byte>, grant: (nat, nat)) returns (off': nat)
    requires IsMessage(msg) && msg.payload != [] && off < Total(msg)
    requires Whole(done)
    ensures off <= off' <= Total(msg)
    ensures Call(done + Under(msg, off), Left(msg, off, rest), grant)
         == Outcome(done + Under(msg, off'), Left(msg, off', rest), off' == Total(msg) && msg.kind != 0, false)
    ensures grant.0 > 0 ==> off' > off
    ensures grant.0 >= HEADER && grant.1 >= |msg.payload| && off == 0 ==> off' == Total(msg)
  {
    off' := PartAdvances(msg, off, rest, grant.0, grant.1);
    CompleteAtEnd(msg, off');
    if off > 0 {
      CompleteAtEnd(msg, off);
      CallOnLast(done, Partial(msg, off), Left(msg, off, rest), grant);
    } else {
      FreshIsPartial(msg);
      UnderNone(done, msg);
      CallOnNew(done, Left(msg, off, rest), grant);
    }
    if off' == 0 { UnderNone(done, msg); }
  }

  // A call when there is no entry, or the last one is complete.
  lemma CallOnNew(done: Cache, input: seq<byte>, grant: (nat, nat))
    requires Whole(done)
    ensures var r := ReadPart(Fresh(), input, grant.0, grant.1);
            Call(done, input, grant)
            == if r.raised || r.complete.offset == 0 then Outcome(done, r.input, false, r.raised)
               else Outcome(done + [r.complete], r.input, IsComplete(r.complete), false)
  {
  }

  // A call when the last entry is not complete.
  lemma CallOnLast(done: Cache, c: Complete, input: seq<byte>, grant: (nat, nat))
    requires SaneCache(done) && Sane(c) && !IsComplete(c)
    ensures var r := ReadPart(c, input, grant.0, grant.1);
            Call(done + [c], input, grant)
            == Outcome(done + [r.complete], r.input, !r.raised && IsComplete(r.complete), r.raised)
  {
    var r := ReadPart(c, input, grant.0, grant.1);
    assert (done + [c])[|done| := r.complete] == done + [r.complete];
  }

  lemma UnderNone(done: Cache, msg: Message)
    requires IsMessage(msg)
    ensures done + Under(msg, 0) == done
  {
  }

  function Full(msg: Message): Complete
    requires IsMessage(msg)
  {
    Partial(msg, Total(msg))
  }

  function Fulls(msgs: seq<Message>): (cache: Cache)
    requires forall msg :: msg in msgs ==> IsMessage(msg)
    ensures |cache| == |msgs| && forall k :: 0 <= k < |msgs| ==> cache[k] == Full(msgs[k])
  {
    seq(|msgs|, k requires 0 <= k < |msgs| => Full(msgs[k]))
  }

  ghost predicate AllMessages(msgs: seq<Message>) { forall msg :: msg in msgs ==> IsMessage(msg) }

  ghost predicate AllDeliverable(msgs: seq<Message>) {
    forall msg :: msg in msgs ==> IsMessage(msg) && Deliverable(msg)
  }

  // The first n messages can be delivered.
  ghost predicate DeliverableUpTo(msgs: seq<Message>, n: nat) {
    AllMessages(msgs) && n <= |msgs| && forall i :: 0 <= i < n ==> Deliverable(msgs[i])
  }

  // The first k messages have been received, and `off` bytes of the next.
  ghost predicate Holds(msgs: seq<Message>, k: nat, off: nat, cache: Cache, input: seq<byte>)
    requires AllMessages(msgs)
  {
    if k < |msgs| then
      && off < Total(msgs[k])
      && cache == Fulls(msgs[..k]) + Under(msgs[k], off)
      && input == Left(msgs[k], off, Stream(msgs[k + 1..]))
    else
      k == |msgs| && off == 0 && cache == Fulls(msgs) && input == []
  }

  lemma StartHolds(msgs: seq<Message>)
    requires AllMessages(msgs)
    ensures Holds(msgs, 0, 0, [], Stream(msgs))
  {
    if msgs != [] { assert Left(msgs[0], 0, Stream(msgs[1..])) == Stream(msgs); }
  }

  // With everything received a call gets nothing and changes nothing.
  lemma IdleCall(cache: Cache, grant: (nat, nat))
    requires Whole(cache)
    ensures Call(cache, [], grant) == Outcome(cache, [], false, false)
  {
  }

  lemma NextMessage(msgs: seq<Message>, k: nat)
    requires AllMessages(msgs) && k < |msgs|
    ensures Fulls(msgs[..k]) + [Full(msgs[k])] == Fulls(msgs[..k + 1])
    ensures Stream(msgs[k..]) == Left(msgs[k], 0, Stream(msgs[k + 1..]))
    ensures Left(msgs[k], Total(msgs[k]), Stream(msgs[k + 1..])) == Stream(msgs[k + 1..])
  {
    assert msgs[k..][0] == msgs[k] && msgs[k..][1..] == msgs[k + 1..];
  }

  // One call moves from one such state to another, raises nothing, and reads something if
  // the socket has something to give. It gets a message exactly when one more is whole.
  lemma CallHolds(msgs: seq<Message>, k: nat, off: nat, cache: Cache, input: seq<byte>, grant: (nat, nat))
    returns (k': nat, off': nat)
    requires DeliverableUpTo(msgs, if k < |msgs| then k + 1 else k)
    requires Holds(msgs, k, off, cache, input) && SaneCache(cache)
    ensures var o := Call(cache, input, grant);
            && !o.raised
            && Holds(msgs, k', off', o.cache, o.input)
            && k <= k' <= k + 1 && (o.got <==> k' == k + 1)
            && (o.got ==> o.cache[|o.cache| - 1] == Full(msgs[k]) && off' == 0)
            && (grant.0 > 0 && input != [] ==> |o.input| < |input|)
            && (k < |msgs| && off == 0 && grant == (HEADER, |msgs[k].payload|) ==> o.got)
  {
    if k == |msgs| {
      LastIsComplete(msgs, k);
      assert msgs[..k] == msgs;
      IdleCall(cache, grant);
      k', off' := k, off;
    } else {
      var msg := msgs[k];
      off' := CallInside(msgs, k, off, Fulls(msgs[..k]), Stream(msgs[k + 1..]), grant);
      k' := k;
      if off' == Total(msg) {
        WholeHolds(msgs, k);
        k', off' := k + 1, 0;
      }
    }
  }

  lemma CallInside(msgs: seq<Message>, k: nat, off: nat, done: Cache, rest: seq<byte>, grant: (nat, nat))
    returns (off': nat)
    requires k < |msgs| && DeliverableUpTo(msgs, k + 1) && off < Total(msgs[k]) && done == Fulls(msgs[..k])
    ensures off <= off' <= Total(msgs[k])
    ensures SaneCache(done + Under(msgs[k], off))
    ensures Call(done + Under(msgs[k], off), Left(msgs[k], off, rest), grant)
         == Outcome(done + Under(msgs[k], off'), Left(msgs[k], off', rest), off' == Total(msgs[k]), false)
    ensures grant.0 > 0 ==> off' > off
    ensures grant.0 >= HEADER && grant.1 >= |msgs[k].payload| && off == 0 ==> off' == Total(msgs[k])
  {
    LastIsComplete(msgs, k);
    off' := CallAdvances(done, msgs[k], off, rest, grant);
  }

  lemma LastIsComplete(msgs: seq<Message>, n: nat)
    requires DeliverableUpTo(msgs, n)
    ensures SaneCache(Fulls(msgs[..n])) && (n > 0 ==> IsComplete(Fulls(msgs[..n])[n - 1]))
  {
    if n > 0 { CompleteAtEnd(msgs[n - 1], Total(msgs[n - 1])); }
  }

  // When the last byte of a message has come, the next is to begin.
  lemma WholeHolds(msgs: seq<Message>, k: nat)
    requires AllMessages(msgs) && k < |msgs|
    ensures var total := Total(msgs[k]);
            var cache := Fulls(msgs[..k]) + Under(msgs[k], total);
            && Holds(msgs, k + 1, 0, cache, Left(msgs[k], total, Stream(msgs[k + 1..])))
            && cache[|cache| - 1] == Full(msgs[k])
  {
    NextMessage(msgs, k);
    if k + 1 < |msgs| {
      NextMessage(msgs, k + 1);
    } else {
      assert msgs[..k + 1] == msgs;
    }
  }

  lemma UpTo(msgs: seq<Message>, n: nat)
    requires AllDeliverable(msgs) && n <= |msgs|
    ensures DeliverableUpTo(msgs, n)
  {
    forall i | 0 <= i < n ensures Deliverable(msgs[i]) {
      assert msgs[i] in msgs;
    }
  }

  // For every cutting of the stream into pieces, including calls that get nothing in the
  // middle of a header or of a payload: nothing is raised, and what the cache holds is
  // determined by how much has been read, k whole messages in order and a part of the next.
  lemma {:induction false} AnySegmentation(msgs: seq<Message>, k: nat, off: nat, cache: Cache, input: seq<byte>,
                                           grants: seq<(nat, nat)>) returns (k': nat, off': nat)
    requires AllDeliverable(msgs) && Holds(msgs, k, off, cache, input) && SaneCache(cache)
    ensures var o := Run(cache, input, grants);
            && !o.raised
            && Holds(msgs, k', off', o.cache, o.input)
            && k' >= k && (o.got <==> k' > k)
    decreases |grants|
  {
    if grants == [] {
      k', off' := k, off;
    } else {
      var before, grant := grants[..|grants| - 1], grants[|grants| - 1];
      var o := Run(cache, input, before);
      var k1, off1 := AnySegmentation(msgs, k, off, cache, input, before);
      UpTo(msgs, if k1 < |msgs| then k1 + 1 else k1);
      k', off' := CallHolds(msgs, k1, off1, o.cache, o.input, grant);
    }
  }

  // Once the stream has been read the messages received are the messages sent, in order.
  lemma ReceivesAll(msgs: seq<Message>, grants: seq<(nat, nat)>)
    requires AllDeliverable(msgs)
    ensures var o := Run([], Stream(msgs), grants);
            !o.raised && (o.input == [] ==> o.cache == Fulls(msgs))
  {
    StartHolds(msgs);
    var k, off := AnySegmentation(msgs, 0, 0, [], Stream(msgs), grants);
    if k < |msgs| { LeftNext(msgs[k], off, Total(msgs[k]) - off, Stream(msgs[k + 1..])); }
  }

  // ----- Messages that are never delivered -----

  // A message without payload raises in the call that completes its header.
  lemma EmptyRaises(msg: Message, off: nat, rest: seq<byte>, first: nat, second: nat)
    requires IsMessage(msg) && msg.payload == [] && off < HEADER
    ensures var r := ReadPart(Partial(msg, off), Left(msg, off, rest), first, second);
            && (r.raised <==> first >= HEADER - off)
            && (!r.raised ==> r == Read(Partial(msg, off + first), Left(msg, off + first, rest), false))
  {
    var off' := HeaderAdvances(msg, off, rest, first);
    assert off' == (if first < HEADER - off then off + first else HEADER) by {
      LeftNext(msg, off, HEADER - off, rest);
    }
    HeaderDone(msg);
  }

  // From any bytes: a call that starts with a part of the header raises if and only if it
  // completes the header and the size that stands in its last eight bytes is not positive.
  lemma RaisesExactly(c: Complete, input: seq<byte>, first: nat, second: nat)
    requires Sane(c) && c.offset < HEADER && |input| >= HEADER - c.offset
    ensures ReadPart(c, input, first, second).raised
       <==> && first >= HEADER - c.offset
            && DecodeLong((c.header[..c.offset] + input[..HEADER - c.offset])[24..]) <= 0
  {
    var h := ReadHeader(c, input, first);
    if first >= HEADER - c.offset {
      assert h.complete.header == c.header[..c.offset] + input[..HEADER - c.offset];
    }
  }

  lemma EmptyCall(done: Cache, msg: Message, off: nat, rest: seq<byte>, grant: (nat, nat))
    requires Whole(done) && IsMessage(msg) && msg.payload == [] && off < HEADER
    ensures var o := Call(done + Under(msg, off), Left(msg, off, rest), grant);
            && !o.got
            && (!o.raised ==> off + grant.0 < HEADER)
            && (!o.raised ==>
                  o == Outcome(done + Under(msg, off + grant.0), Left(msg, off + grant.0, rest), false, false))
  {
    EmptyRaises(msg, off, rest, grant.0, grant.1);
    if off > 0 {
      CallOnLast(done, Partial(msg, off), Left(msg, off, rest), grant);
    } else {
      FreshIsPartial(msg);
      UnderNone(done, msg);
      CallOnNew(done, Left(msg, off, rest), grant);
    }
  }

  lemma UntypedCall(done: Cache, msg: Message, off: nat, rest: seq<byte>, grant: (nat, nat)) returns (off': nat)
    requires Whole(done) && IsMessage(msg) && msg.payload != [] && msg.kind == 0 && off <= Total(msg)
    ensures off' <= Total(msg)
    ensures var o := Call(done + Under(msg, off), Left(msg, off, rest), grant);
            && !o.got
            && (!o.raised ==> o == Outcome(done + Under(msg, off'), Left(msg, off', rest), false, false))
  {
    off' := off;
    if off < Total(msg) {
      off' := CallAdvances(done, msg, off, rest, grant);
    } else {
      CompleteAtEnd(msg, off);
      CallOnLast(done, Partial(msg, off), Left(msg, off, rest), grant);
    }
  }

  // A call on a message that cannot be delivered gets nothing.
  lemma UndeliveredCall(done: Cache, msg: Message, off: nat, rest: seq<byte>, grant: (nat, nat))
    returns (off': nat)
    requires Whole(done) && IsMessage(msg) && !Deliverable(msg) && off <= Total(msg)
    requires msg.payload == [] ==> off < HEADER
    ensures var o := Call(done + Under(msg, off), Left(msg, off, rest), grant);
            && !o.got
            && (!o.raised ==> off' <= Total(msg) && (msg.payload == [] ==> off' < HEADER))
            && (!o.raised ==> o == Outcome(done + Under(msg, off'), Left(msg, off', rest), false, false))
  {
    if msg.payload == [] {
      EmptyCall(done, msg, off, rest, grant);
      off' := off + grant.0;
    } else {
      off' := UntypedCall(done, msg, off, rest, grant);
    }
  }

  // No call gets a message without payload, nor one of type 0, nor anything behind it in the
  // stream, however the stream is cut.
  lemma {:induction false} NeverDelivered(done: Cache, msg: Message, off: nat, rest: seq<byte>,
                                          grants: seq<(nat, nat)>) returns (off': nat)
    requires Whole(done) && IsMessage(msg) && !Deliverable(msg) && off <= Total(msg)
    requires msg.payload == [] ==> off < HEADER
    ensures Delivered(done + Under(msg, off), Left(msg, off, rest), grants) == []
    ensures var o := Run(done + Under(msg, off), Left(msg, off, rest), grants);
            && !o.got
            && (!o.raised ==> off' <= Total(msg) && (msg.payload == [] ==> off' < HEADER))
            && (!o.raised ==> o == Outcome(done + Under(msg, off'), Left(msg, off', rest), false, false))
    decreases |grants|
  {
    off' := off;
    if grants != [] {
      var before, grant := grants[..|grants| - 1], grants[|grants| - 1];
      off' := NeverDelivered(done, msg, off, rest, before);
      if !Run(done + Under(msg, off), Left(msg, off, rest), before).raised {
        off' := UndeliveredCall(done, msg, off', rest, grant);
      }
    }
  }

  // ----- What is delivered of a stream -----

  // How many messages there are before the first that cannot be delivered.
  function Leading(msgs: seq<Message>): (n: nat)
    ensures n <= |msgs| && (forall i :: 0 <= i < n ==> Deliverable(msgs[i]))
    ensures n < |msgs| ==> !Deliverable(msgs[n])
  {
    if msgs == [] || !Deliverable(msgs[0]) then 0 else 1 + Leading(msgs[1..])
  }

  // The first n messages have been received, and `off` bytes of the next, which may be one
  // that cannot be delivered.
  ghost predicate Waits(msgs: seq<Message>, n: nat, off: nat, cache: Cache, input: seq<byte>)
    requires AllMessages(msgs)
  {
    if n < |msgs| && !Deliverable(msgs[n]) then
      && off <= Total(msgs[n]) && (msgs[n].payload == [] ==> off < HEADER)
      && cache == Fulls(msgs[..n]) + Under(msgs[n], off)
      && input == Left(msgs[n], off, Stream(msgs[n + 1..]))
    else
      Holds(msgs, n, off, cache, input)
  }

  lemma CallWaits(msgs: seq<Message>, n: nat, off: nat, cache: Cache, input: seq<byte>, grant: (nat, nat))
    returns (n': nat, off': nat)
    requires AllMessages(msgs) && n <= Leading(msgs) && Waits(msgs, n, off, cache, input) && SaneCache(cache)
    ensures n <= n' <= Leading(msgs)
    ensures var o := Call(cache, input, grant);
            && (!o.raised ==> Waits(msgs, n', off', o.cache, o.input))
            && Fulls(msgs[..n]) + Newest(o) == Fulls(msgs[..n'])
  {
    n', off' := n, off;
    if n < |msgs| && !Deliverable(msgs[n]) {
      LastIsComplete(msgs, n);
      off' := UndeliveredCall(Fulls(msgs[..n]), msgs[n], off, Stream(msgs[n + 1..]), grant);
    } else {
      n', off' := CallHolds(msgs, n, off, cache, input, grant);
      if n < |msgs| { NextMessage(msgs, n); }
      if n' > n { NextWaits(msgs, n', Call(cache, input, grant)); }
    }
  }

  // Where a message has just been got, the next one waits, whatever it is.
  lemma NextWaits(msgs: seq<Message>, n: nat, o: Outcome)
    requires AllMessages(msgs) && Holds(msgs, n, 0, o.cache, o.input)
    ensures Waits(msgs, n, 0, o.cache, o.input)
  {
  }

  // However a stream is cut, what is delivered is a first part of the messages before the
  // first that cannot be delivered, in their order.
  lemma {:induction false} DeliversPrefix(msgs: seq<Message>, grants: seq<(nat, nat)>) returns (n: nat, off: nat)
    requires AllMessages(msgs)
    ensures n <= Leading(msgs) && Delivered([], Stream(msgs), grants) == Fulls(msgs[..n])
    ensures var o := Run([], Stream(msgs), grants); !o.raised ==> Waits(msgs, n, off, o.cache, o.input)
    decreases |grants|
  {
    if grants == [] {
      n, off := 0, 0;
      StartHolds(msgs);
      NextWaits(msgs, 0, Outcome([], Stream(msgs), false, false));
    } else {
      var before, grant := grants[..|grants| - 1], grants[|grants| - 1];
      n, off := DeliversPrefix(msgs, before);
      var o := Run([], Stream(msgs), before);
      if !o.raised { n, off := CallWaits(msgs, n, off, o.cache, o.input, grant); }
    }
  }

  // A call that the socket gives a header and a payload gets the next message.
  lemma DeliversOne(msgs: seq<Message>, n: nat, o: Outcome)
    requires n < |msgs| && DeliverableUpTo(msgs, n + 1) && Holds(msgs, n, 0, o.cache, o.input) && SaneCache(o.cache)
    ensures var next := Call(o.cache, o.input, (HEADER, |msgs[n].payload|));
            && !next.raised && Holds(msgs, n + 1, 0, next.cache, next.input)
            && Fulls(msgs[..n]) + Newest(next) == Fulls(msgs[..n + 1])
  {
    var k, off := CallHolds(msgs, n, 0, o.cache, o.input, (HEADER, |msgs[n].payload|));
    NextMessage(msgs, n);
  }

  lemma {:induction false} DeliversEach(msgs: seq<Message>, n: nat) returns (grants: seq<(nat, nat)>)
    requires DeliverableUpTo(msgs, n)
    ensures var o := Run([], Stream(msgs), grants);
            && !o.raised && Holds(msgs, n, 0, o.cache, o.input)
            && Delivered([], Stream(msgs), grants) == Fulls(msgs[..n])
    decreases n
  {
    if n == 0 {
      grants := [];
      StartHolds(msgs);
    } else {
      var m := n - 1;
      var before := DeliversEach(msgs, m);
      DeliversOne(msgs, m, Run([], Stream(msgs), before));
      grants := before + [(HEADER, |msgs[m].payload|)];
      RunMore([], Stream(msgs), before, (HEADER, |msgs[m].payload|));
    }
  }

  // And there is a way to cut it by which all of those are delivered.
  lemma DeliversLeading(msgs: seq<Message>) returns (grants: seq<(nat, nat)>)
    requires AllMessages(msgs)
    ensures Delivered([], Stream(msgs), grants) == Fulls(msgs[..Leading(msgs)])
  {
    grants := DeliversEach(msgs, Leading(msgs));
  }

  // Some way to cut a stream delivers all of its messages, in order, if and only if every one
  // has a type that is not 0 and a payload that is not empty.
  lemma DeliveredExactly(msgs: seq<Message>)
    requires AllMessages(msgs)
    ensures (exists grants :: Delivered([], Stream(msgs), grants) == Fulls(msgs)) <==> AllDeliverable(msgs)
  {
    assert msgs[..|msgs|] == msgs;
    if AllDeliverable(msgs) {
      UpTo(msgs, |msgs|);
      var grants := DeliversLeading(msgs);
    }
    if grants :| Delivered([], Stream(msgs), grants) == Fulls(msgs) {
      var n, off := DeliversPrefix(msgs, grants);
      assert |Fulls(msgs[..n])| == n;
    }
  }
}
