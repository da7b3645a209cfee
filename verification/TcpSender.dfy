// The sender of a message over a byte stream, which goes on where the socket has stopped. Inside
// the header it goes on at the wrong place: the offset is added to a pointer to whole headers.
module TcpSender {
  import opened ByteOrder
  import opened Sequences
  import opened TcpTransport

  // What has been sent, and how far that is.
  datatype Sending = Sending(complete: Complete, output: seq<byte>) {
    // It is the message, as far as the offset says.
    ghost predicate Right(msg: Message)
      requires IsMessage(msg)
    {
      complete.offset <= Total(msg) && output == Wire(msg)[..complete.offset]
    }
  }

  // The first k bytes of the message are sent, or at least as many bytes.
  ghost predicate Sends(s: Sending, msg: Message, k: nat) {
    IsMessage(msg) && s.complete == Complete(k, HeaderOf(msg), msg.payload) && k <= Total(msg) && |s.output| == k
  }

  // The size of k headers, each of 32 bytes.
  function Headers(k: nat): nat { 32 * k }

  // The rest of a header of which k bytes are sent: it is looked for k whole headers further
  // on in the memory, of which `beyond` is what comes after the header.
  function HeaderRest(header: seq<byte>, beyond: seq<byte>, k: nat): (r: seq<byte>)
    requires k < HEADER == |header| && |beyond| >= Headers(HEADER)
    ensures |r| == HEADER - k
  {
    if k == 0 then header else beyond[Headers(k - 1)..Headers(k - 1) + HEADER - k]
  }

  // What is left to send: the rest of the header with the payload, or of the payload.
  function Gathered(c: Complete, beyond: seq<byte>): (part: seq<byte>)
    requires |c.header| == HEADER && c.offset <= HEADER + |c.payload| && |beyond| >= Headers(HEADER)
    ensures |part| == HEADER + |c.payload| - c.offset
  {
    if c.offset >= HEADER then c.payload[c.offset - HEADER..] else HeaderRest(c.header, beyond, c.offset) + c.payload
  }

  // One call: the socket takes at most `grant` bytes of what is left.
  function SentOnce(s: Sending, beyond: seq<byte>, grant: nat): (r: Sending)
    requires |s.complete.header| == HEADER && s.complete.offset <= HEADER + |s.complete.payload|
    requires |beyond| >= Headers(HEADER)
    ensures r.complete == s.complete.(offset := r.complete.offset)
    ensures s.complete.offset <= r.complete.offset <= HEADER + |s.complete.payload|
    ensures |r.output| - |s.output| == r.complete.offset - s.complete.offset
  {
    var part := Gathered(s.complete, beyond);
    var n := Got(part, |part|, grant);
    Sending(s.complete.(offset := s.complete.offset + n), s.output + part[..n])
  }

  function SentAll(s: Sending, beyond: seq<byte>, grants: seq<nat>): (r: Sending)
    requires |s.complete.header| == HEADER && s.complete.offset <= HEADER + |s.complete.payload|
    requires |beyond| >= Headers(HEADER)
    ensures r.complete == s.complete.(offset := r.complete.offset)
    ensures s.complete.offset <= r.complete.offset <= HEADER + |s.complete.payload|
    ensures |r.output| - |s.output| == r.complete.offset - s.complete.offset
    decreases |grants|
  {
    if grants == [] then s else SentOnce(SentAll(s, beyond, grants[..|grants| - 1]), beyond, grants[|grants| - 1])
  }

  // The memory holds at the wrong place what a call that starts inside the header takes of
  // its rest at the right one; there is nothing to hold for any other call.
  predicate FindsRest(c: Complete, beyond: seq<byte>, grant: nat)
    requires |c.header| == HEADER && |beyond| >= Headers(HEADER)
  {
    0 < c.offset < HEADER ==>
      var n := if grant < HEADER - c.offset then grant else HEADER - c.offset;
      HeaderRest(c.header, beyond, c.offset)[..n] == c.header[c.offset..][..n]
  }

  predicate AllFindRest(s: Sending, beyond: seq<byte>, grants: seq<nat>)
    requires |s.complete.header| == HEADER && s.complete.offset <= HEADER + |s.complete.payload|
    requires |beyond| >= Headers(HEADER)
    decreases |grants|
  {
    grants == []
    || (var before := grants[..|grants| - 1];
        AllFindRest(s, beyond, before) && FindsRest(SentAll(s, beyond, before).complete, beyond, grants[|grants| - 1]))
  }

  // One call more.
  lemma SentSnoc(s: Sending, beyond: seq<byte>, before: seq<nat>, grant: nat)
    requires |s.complete.header| == HEADER && s.complete.offset <= HEADER + |s.complete.payload|
    requires |beyond| >= Headers(HEADER)
    ensures var now := SentAll(s, beyond, before);
            && SentAll(s, beyond, before + [grant]) == SentOnce(now, beyond, grant)
            && (AllFindRest(s, beyond, before + [grant])
                <==> AllFindRest(s, beyond, before) && FindsRest(now.complete, beyond, grant))
  {
    assert (before + [grant])[..|before|] == before;
  }

  lemma PrefixOfJoined(a: seq<byte>, b: seq<byte>, c: seq<byte>, n: nat)
    requires |a| == |b| && n <= |a| + |c|
    ensures (a + c)[..n] == (b + c)[..n] <==> a[..if n < |a| then n else |a|] == b[..if n < |a| then n else |a|]
  {
    var k := if n < |a| then n else |a|;
    assert (a + c)[..n] == a[..k] + c[..n - k] && (b + c)[..n] == b[..k] + c[..n - k];
    if (a + c)[..n] == (b + c)[..n] { assert a[..k] == (a + c)[..n][..k] && b[..k] == (b + c)[..n][..k]; }
  }

  // One call takes the bytes of the message that come next if and only if it finds the rest.
  lemma TakesNext(msg: Message, s: Sending, k: nat, beyond: seq<byte>, grant: nat)
    requires Sends(s, msg, k) && |beyond| >= Headers(HEADER)
    ensures var n := Got(Wire(msg)[k..], Total(msg) - k, grant);
            Gathered(s.complete, beyond)[..n] == Wire(msg)[k..][..n] <==> FindsRest(s.complete, beyond, grant)
  {
    var n := Got(Wire(msg)[k..], Total(msg) - k, grant);
    JoinedSuffix(HeaderOf(msg), msg.payload, k);
    if k < HEADER {
      PrefixOfJoined(HeaderRest(HeaderOf(msg), beyond, k), HeaderOf(msg)[k..], msg.payload, n);
    } else {
      assert k == HEADER ==> HeaderOf(msg)[k..] + msg.payload == msg.payload;
    }
  }

  lemma JoinedPrefix(a: seq<byte>, b: seq<byte>, w: seq<byte>, k: nat, n: nat)
    requires |a| == k && |b| == n && k + n <= |w|
    ensures a + b == w[..k + n] <==> a == w[..k] && b == w[k..][..n]
  {
    assert w[..k + n] == w[..k] + w[k..][..n];
    if a + b == w[..k + n] { assert a == (a + b)[..k] && b == (a + b)[k..]; }
  }

  // With this memory, what has been sent is the message as far as the offset says if and only
  // if every call that started inside the header found its rest.
  lemma {:induction false} SentAsFound(msg: Message, s: Sending, k: nat, beyond: seq<byte>, grants: seq<nat>)
    requires Sends(s, msg, k) && s.Right(msg) && |beyond| >= Headers(HEADER)
    ensures var r := SentAll(s, beyond, grants);
            Sends(r, msg, r.complete.offset) && (r.Right(msg) <==> AllFindRest(s, beyond, grants))
    decreases |grants|
  {
    if grants != [] {
      var before, grant := grants[..|grants| - 1], grants[|grants| - 1];
      SentAsFound(msg, s, k, beyond, before);
      NextAsFound(msg, SentAll(s, beyond, before), beyond, grant);
    }
  }

  lemma NextAsFound(msg: Message, s: Sending, beyond: seq<byte>, grant: nat)
    requires Sends(s, msg, s.complete.offset) && |beyond| >= Headers(HEADER)
    ensures var r := SentOnce(s, beyond, grant);
            && Sends(r, msg, r.complete.offset)
            && (r.Right(msg) <==> s.Right(msg) && FindsRest(s.complete, beyond, grant))
  {
    var at := s.complete.offset;
    var n := Got(Wire(msg)[at..], Total(msg) - at, grant);
    TakesNext(msg, s, at, beyond, grant);
    JoinedPrefix(s.output, Gathered(s.complete, beyond)[..n], Wire(msg), at, n);
  }

  // ----- What the grants decide -----

  function Sum(grants: seq<nat>): nat
    decreases |grants|
  {
    if grants == [] then 0 else Sum(grants[..|grants| - 1]) + grants[|grants| - 1]
  }

  // No call that takes anything starts inside the header, when k bytes have been sent before.
  predicate Unbroken(k: nat, grants: seq<nat>) {
    forall i :: 0 <= i < |grants| ==> OutsideHeader(k + Sum(grants[..i]), grants[i])
  }

  predicate OutsideHeader(at: nat, grant: nat) { grant == 0 || at == 0 || at >= HEADER }

  lemma {:induction false} OffsetIsSum(s: Sending, beyond: seq<byte>, grants: seq<nat>)
    requires |s.complete.header| == HEADER && s.complete.offset <= HEADER + |s.complete.payload|
    requires |beyond| >= Headers(HEADER)
    ensures var total, sum := HEADER + |s.complete.payload|, s.complete.offset + Sum(grants);
            SentAll(s, beyond, grants).complete.offset == if sum < total then sum else total
    decreases |grants|
  {
    if grants != [] { OffsetIsSum(s, beyond, grants[..|grants| - 1]); }
  }

  lemma UnbrokenBefore(k: nat, grants: seq<nat>)
    requires grants != [] && Unbroken(k, grants)
    ensures var n := |grants| - 1; Unbroken(k, grants[..n]) && OutsideHeader(k + Sum(grants[..n]), grants[n])
  {
    var n := |grants| - 1;
    forall i | 0 <= i < n ensures OutsideHeader(k + Sum(grants[..n][..i]), grants[..n][i]) {
      PrefixOfPrefix(grants, n, i);
    }
  }

  lemma {:induction false} UnbrokenFinds(s: Sending, beyond: seq<byte>, grants: seq<nat>)
    requires |s.complete.header| == HEADER && s.complete.offset <= HEADER + |s.complete.payload|
    requires |beyond| >= Headers(HEADER) && Unbroken(s.complete.offset, grants)
    ensures AllFindRest(s, beyond, grants)
    decreases |grants|
  {
    if grants != [] {
      var before := grants[..|grants| - 1];
      UnbrokenBefore(s.complete.offset, grants);
      UnbrokenFinds(s, beyond, before);
      OffsetIsSum(s, beyond, before);
    }
  }

  lemma {:induction false} PrefixFinds(s: Sending, beyond: seq<byte>, grants: seq<nat>, n: nat)
    requires |s.complete.header| == HEADER && s.complete.offset <= HEADER + |s.complete.payload|
    requires |beyond| >= Headers(HEADER) && AllFindRest(s, beyond, grants) && n <= |grants|
    ensures AllFindRest(s, beyond, grants[..n])
    decreases |grants|
  {
    if n == |grants| {
      assert grants[..n] == grants;
    } else {
      PrefixOfPrefix(grants, |grants| - 1, n);
      PrefixFinds(s, beyond, grants[..|grants| - 1], n);
    }
  }

  lemma FindsRestAt(s: Sending, beyond: seq<byte>, grants: seq<nat>, i: nat)
    requires |s.complete.header| == HEADER && s.complete.offset <= HEADER + |s.complete.payload|
    requires |beyond| >= Headers(HEADER) && AllFindRest(s, beyond, grants) && i < |grants|
    ensures FindsRest(SentAll(s, beyond, grants[..i]).complete, beyond, grants[i])
  {
    PrefixFinds(s, beyond, grants, i + 1);
    PrefixNext(grants, i);
    SentSnoc(s, beyond, grants[..i], grants[i]);
  }

  // Memory in which no call finds the rest of a header of which `at` bytes are sent.
  function Different(header: seq<byte>, at: nat): (beyond: seq<byte>)
    requires at < |header|
    ensures |beyond| == Headers(HEADER)
    ensures forall i :: 0 <= i < |beyond| ==> beyond[i] != header[at]
  {
    seq(Headers(HEADER), _ => if header[at] == 0 then 1 else 0)
  }

  lemma DifferentMisses(c: Complete, grant: nat)
    requires |c.header| == HEADER && 0 < c.offset < HEADER && grant > 0
    ensures !FindsRest(c, Different(c.header, c.offset), grant)
  {
    var rest := HeaderRest(c.header, Different(c.header, c.offset), c.offset);
    var n := if grant < HEADER - c.offset then grant else HEADER - c.offset;
    assert rest[..n][0] != c.header[c.offset..][..n][0];
  }

  // The message is sent right whatever the memory holds if and only if no call that takes
  // anything starts inside the header.
  lemma SentExactly(msg: Message, s: Sending, grants: seq<nat>)
    requires Sends(s, msg, s.complete.offset) && s.Right(msg)
    ensures (forall beyond: seq<byte> :: |beyond| >= Headers(HEADER) ==> SentAll(s, beyond, grants).Right(msg))
            <==> Unbroken(s.complete.offset, grants)
  {
    var k := s.complete.offset;
    if Unbroken(k, grants) {
      forall beyond: seq<byte> | |beyond| >= Headers(HEADER) ensures SentAll(s, beyond, grants).Right(msg) {
        UnbrokenFinds(s, beyond, grants);
        SentAsFound(msg, s, k, beyond, grants);
      }
    } else {
      var i :| 0 <= i < |grants| && !OutsideHeader(k + Sum(grants[..i]), grants[i]);
      BrokenIsWrong(msg, s, grants, i);
    }
  }

  lemma SentToEnd(msg: Message, s: Sending, beyond: seq<byte>, grants: seq<nat>)
    requires Sends(s, msg, s.complete.offset) && |beyond| >= Headers(HEADER)
    ensures var r := SentAll(s, beyond, grants);
            s.Right(msg) && r.complete.offset == Total(msg) ==>
              && (Unbroken(s.complete.offset, grants) ==> r.output == Wire(msg))
              && (r.output == Wire(msg) <==> AllFindRest(s, beyond, grants))
  {
    if s.Right(msg) { SentAsFound(msg, s, s.complete.offset, beyond, grants); }
    assert Wire(msg)[..Total(msg)] == Wire(msg);
    if Unbroken(s.complete.offset, grants) { UnbrokenFinds(s, beyond, grants); }
  }

  lemma BrokenIsWrong(msg: Message, s: Sending, grants: seq<nat>, i: nat)
    requires Sends(s, msg, s.complete.offset) && s.Right(msg)
    requires i < |grants| && !OutsideHeader(s.complete.offset + Sum(grants[..i]), grants[i])
    ensures !SentAll(s, Different(HeaderOf(msg), s.complete.offset + Sum(grants[..i])), grants).Right(msg)
  {
    var at := s.complete.offset + Sum(grants[..i]);
    var beyond := Different(HeaderOf(msg), at);
    OffsetIsSum(s, beyond, grants[..i]);
    DifferentMisses(SentAll(s, beyond, grants[..i]).complete, grants[i]);
    if AllFindRest(s, beyond, grants) { FindsRestAt(s, beyond, grants, i); }
    SentAsFound(msg, s, s.complete.offset, beyond, grants);
  }

  // When it takes a part of the header, k bytes, and the next the rest, the message is sent if
  // and only if the memory holds the rest of the header k headers further on.
  lemma HeaderInTwo(msg: Message, s: Sending, beyond: seq<byte>, k: nat)
    requires Sends(s, msg, 0) && |beyond| >= Headers(HEADER) && 0 < k < HEADER
    ensures SentAll(s, beyond, [k, Total(msg)]).output == Wire(msg)
            <==> beyond[Headers(k - 1)..Headers(k - 1) + HEADER - k] == HeaderOf(msg)[k..]
  {
    var grants := [k, Total(msg)];
    assert s.output == Wire(msg)[..0];
    SentAsFound(msg, s, 0, beyond, grants);
    TwoFind(msg, s, beyond, k);
    assert Wire(msg)[..Total(msg)] == Wire(msg);
  }

  lemma TwoFind(msg: Message, s: Sending, beyond: seq<byte>, k: nat)
    requires Sends(s, msg, 0) && |beyond| >= Headers(HEADER) && 0 < k < HEADER
    ensures var grants := [k, Total(msg)];
            && SentAll(s, beyond, grants).complete.offset == Total(msg)
            && (AllFindRest(s, beyond, grants) <==> HeaderRest(HeaderOf(msg), beyond, k) == HeaderOf(msg)[k..])
  {
    SentTwo(s, beyond, k, Total(msg));
    FirstPiece(msg, s, beyond, k);
    SecondPiece(msg, SentOnce(s, beyond, k), beyond, k);
    RestFound(Complete(k, HeaderOf(msg), msg.payload), beyond, Total(msg));
  }

  lemma FirstPiece(msg: Message, s: Sending, beyond: seq<byte>, k: nat)
    requires Sends(s, msg, 0) && |beyond| >= Headers(HEADER) && 0 < k < HEADER
    ensures Sends(SentOnce(s, beyond, k), msg, k) && FindsRest(s.complete, beyond, k)
  {
  }

  lemma SecondPiece(msg: Message, s: Sending, beyond: seq<byte>, k: nat)
    requires Sends(s, msg, k) && |beyond| >= Headers(HEADER)
    ensures SentOnce(s, beyond, Total(msg)).complete.offset == Total(msg)
  {
  }

  // A call that takes the whole rest of the header finds it if and only if it is there.
  lemma RestFound(c: Complete, beyond: seq<byte>, grant: nat)
    requires |c.header| == HEADER && |beyond| >= Headers(HEADER) && 0 < c.offset < HEADER <= grant
    ensures FindsRest(c, beyond, grant) <==> HeaderRest(c.header, beyond, c.offset) == c.header[c.offset..]
  {
    var rest := HeaderRest(c.header, beyond, c.offset);
    assert rest[..HEADER - c.offset] == rest;
    assert c.header[c.offset..][..HEADER - c.offset] == c.header[c.offset..];
  }

  lemma SentTwo(s: Sending, beyond: seq<byte>, first: nat, second: nat)
    requires |s.complete.header| == HEADER && s.complete.offset <= HEADER + |s.complete.payload|
    requires |beyond| >= Headers(HEADER)
    ensures var once := SentOnce(s, beyond, first);
            && SentAll(s, beyond, [first, second]) == SentOnce(once, beyond, second)
            && (AllFindRest(s, beyond, [first, second])
                <==> FindsRest(s.complete, beyond, first) && FindsRest(once.complete, beyond, second))
  {
    assert [] + [first] == [first] && [first] + [second] == [first, second];
    SentSnoc(s, beyond, [], first);
    SentSnoc(s, beyond, [first], second);
  }

  class Sender {
    var complete: Complete
    var output: seq<byte>
    // What the memory holds after the header.
    const beyond: seq<byte>

    ghost function State(): Sending
      reads this
    {
      Sending(complete, output)
    }

    constructor (msg: Message, memory: seq<byte>)
      requires IsMessage(msg)
      ensures State() == Sending(Complete(0, HeaderOf(msg), msg.payload), []) && beyond == memory
    {
      complete := Complete(0, HeaderOf(msg), msg.payload);
      output, beyond := [], memory;
    }

    ghost predicate Valid(msg: Message)
      reads this
    {
      |beyond| >= Headers(HEADER) && Sends(State(), msg, complete.offset)
    }

    method Gather(ghost msg: Message) returns (part: seq<byte>)
      requires Valid(msg)
      ensures part == Gathered(complete, beyond)
    {
      if complete.offset >= HEADER {
        part := complete.payload[complete.offset - HEADER..];
      } else {
        var at := Headers(complete.offset);
        part := if complete.offset == 0 then complete.header else beyond[at - HEADER..at - complete.offset];
        part := part + complete.payload;
      }
    }

    method Send(ghost msg: Message, grant: nat) returns (done: bool)
      requires Valid(msg)
      modifies this
      ensures Valid(msg) && State() == SentOnce(old(State()), beyond, grant)
      ensures done <==> complete.offset == Total(msg) && msg.kind != 0
    {
      var part := Gather(msg);
      var n := Got(part, |part|, grant);
      output := output + part[..n];
      complete := complete.(offset := complete.offset + n);
      assert Kind(complete) == msg.kind by { HeaderReads(msg); }
      done := IsComplete(complete);
    }

    // Calls until the whole message is sent, for as long as the socket takes anything.
    method SendBlocking(ghost msg: Message, grants: seq<nat>) returns (done: bool, calls: nat)
      requires Valid(msg)
      modifies this
      ensures Valid(msg) && calls <= |grants| && State() == SentAll(old(State()), beyond, grants[..calls])
      ensures done ==> complete.offset == Total(msg) && msg.kind != 0
      ensures !done ==> calls == |grants|
      ensures msg.kind == 0 ==> !done
      ensures done && old(State().Right(msg)) ==>
        && (Unbroken(old(complete.offset), grants[..calls]) ==> output == Wire(msg))
        && (output == Wire(msg) <==> AllFindRest(old(State()), beyond, grants[..calls]))
    {
      done, calls := false, 0;
      ghost var start, taken := State(), [];
      while calls < |grants| && !done
        invariant calls <= |grants| && taken == grants[..calls]
        invariant Valid(msg) && State() == SentAll(start, beyond, taken)
        invariant done ==> complete.offset == Total(msg) && msg.kind != 0
      {
        PrefixNext(grants, calls);
        SentSnoc(start, beyond, taken, grants[calls]);
        done := Send(msg, grants[calls]);
        taken := taken + [grants[calls]];
        calls := calls + 1;
      }
      SentToEnd(msg, start, beyond, taken);
    }
  }
}
