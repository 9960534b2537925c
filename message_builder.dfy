/** Reassembly of a message that arrives over BLE in numbered packets (`BleMessageBuilder`).

    Each packet starts with a one-byte counter of the packets still to come after it; the second byte is
    ignored and the payload starts at the third. Payloads are concatenated until a packet with counter 0
    arrives; the whole message is then handed to `onMessageBuilt` and the builder becomes idle again. */
module MessageBuilder {
  import opened Nullable

  /** One byte of a Node `Buffer`. */
  type byte = x: int | 0 <= x < 256

  /** The two exceptions `enqueuePacket` can throw. */
  datatype PacketError =
    | RangeError      // `readUInt8` on an empty packet: there is no counter byte
    | MessageSkipped  // `Error('Message skipped!')`: the counter is not one less than the previous one

  /** The builder's two fields; `None` stands for `undefined`. */
  datatype BuilderState = BuilderState(currentMsg: Option<seq<byte>>, awaiting: Option<byte>)

  /** The state of a fresh builder and of one that has just delivered a message. */
  const Idle := BuilderState(None, None)

  /** The state while a message is in progress: `msg` received so far, `awaiting` packets still to come. */
  function InProgress(msg: seq<byte>, awaiting: byte): BuilderState {
    BuilderState(Some(msg), Some(awaiting))
  }

  /** The states `enqueuePacket` can leave a builder in: both fields defined or both undefined, and a
      defined counter is never 0 (a 0 completes the message at once). */
  predicate Valid(s: BuilderState) {
    && (s.currentMsg.Some? <==> s.awaiting.Some?)
    && (s.awaiting.Some? ==> s.awaiting.value >= 1)
  }

  /** `packet.subarray(2)`: everything after the counter byte and the ignored second byte. */
  function Payload(packet: seq<byte>): (p: seq<byte>)
    ensures |packet| >= 2 ==> packet == packet[..2] + p
    ensures |packet| < 2 ==> p == []
  {
    if |packet| < 2 then [] else packet[2..]
  }

  /** What one call of `enqueuePacket` does: the next state, the messages passed to `onMessageBuilt`
      (none or one) and the exception thrown, if any. */
  datatype Step = Step(next: BuilderState, built: seq<seq<byte>>, thrown: Option<PacketError>)

  /** One call of `enqueuePacket` on a builder in state `s`. */
  function Enqueue(s: BuilderState, packet: seq<byte>): (r: Step)
    ensures r.thrown.Some? ==> r.next == s && r.built == []
    ensures |r.built| <= 1
  {
    if |packet| == 0 then Step(s, [], Some(RangeError))
    else
      var counter := packet[0];
      if s.awaiting.Some? && counter != s.awaiting.value - 1 then Step(s, [], Some(MessageSkipped))
      else
        var msg := if s.currentMsg.Some? then s.currentMsg.value + Payload(packet) else Payload(packet);
        if counter == 0 then Step(Idle, [msg], None)
        else Step(InProgress(msg, counter), [], None)
  }

  /** A packet is refused as skipped exactly when a message is in progress and the packet's counter is not
      one less than the previous one; an empty packet is refused for want of a counter. */
  lemma EnqueueRefuses(s: BuilderState, packet: seq<byte>)
    ensures Enqueue(s, packet).thrown == Some(RangeError) <==> packet == []
    ensures Enqueue(s, packet).thrown == Some(MessageSkipped)
        <==> packet != [] && s.awaiting.Some? && packet[0] != s.awaiting.value - 1
  {
  }

  /** A refused packet changes neither field and builds nothing. */
  lemma RefusedPacketChangesNothing(s: BuilderState, packet: seq<byte>)
    requires Enqueue(s, packet).thrown.Some?
    ensures Enqueue(s, packet).next == s && Enqueue(s, packet).built == []
  {
  }

  /** An idle builder accepts any non-empty packet, whatever its counter, as the start of a new message. */
  lemma IdleAcceptsAnyCounter(packet: seq<byte>)
    requires packet != []
    ensures Enqueue(Idle, packet).thrown == None
    ensures packet[0] == 0 ==> Enqueue(Idle, packet) == Step(Idle, [Payload(packet)], None)
    ensures packet[0] != 0 ==> Enqueue(Idle, packet).next == InProgress(Payload(packet), packet[0])
  {
  }

  /** The message so far: empty when idle. */
  function Received(s: BuilderState): seq<byte> {
    s.currentMsg.GetOr([])
  }

  /** An accepted packet with counter 0 calls `onMessageBuilt` exactly once, with the message so far
      extended by the packet's payload, and leaves the builder idle. */
  lemma FinalPacketDelivers(s: BuilderState, packet: seq<byte>)
    requires packet != [] && packet[0] == 0
    requires Enqueue(s, packet).thrown == None
    ensures Enqueue(s, packet).built == [Received(s) + Payload(packet)]
    ensures Enqueue(s, packet).next == Idle
  {
    assert s.currentMsg.None? ==> Received(s) + Payload(packet) == Payload(packet);
  }

  /** An accepted packet with a non-zero counter builds nothing, records its counter and appends only
      the bytes from index 2 on to the message so far. */
  lemma PartialPacketAppends(s: BuilderState, packet: seq<byte>)
    requires packet != [] && packet[0] != 0
    requires Enqueue(s, packet).thrown == None
    ensures Enqueue(s, packet).built == []
    ensures Enqueue(s, packet).next == InProgress(Received(s) + Payload(packet), packet[0])
  {
    assert s.currentMsg.None? ==> Received(s) + Payload(packet) == Payload(packet);
  }

  /** `enqueuePacket` keeps the builder's fields in a valid state, whether it accepts the packet or not. */
  lemma EnqueueKeepsValid(s: BuilderState, packet: seq<byte>)
    requires Valid(s)
    ensures Valid(Enqueue(s, packet).next)
  {
  }

  /** What a sequence of `enqueuePacket` calls does, when each exception is caught and the caller goes on
      with the next packet: the final state, every message built, every exception thrown, in order. */
  datatype Trace = Trace(final: BuilderState, built: seq<seq<byte>>, thrown: seq<PacketError>)

  /** Calls `enqueue` once per packet, in order, starting from `s`. */
  function Run(enqueue: (BuilderState, seq<byte>) -> Step, s: BuilderState, packets: seq<seq<byte>>): Trace
    decreases |packets|
  {
    if packets == [] then Trace(s, [], [])
    else
      var step := enqueue(s, packets[0]);
      var rest := Run(enqueue, step.next, packets[1..]);
      var thrown := if step.thrown.Some? then [step.thrown.value] else [];
      Trace(rest.final, step.built + rest.built, thrown + rest.thrown)
  }

  /** `enqueuePacket` called on each packet in turn. */
  function Feed(s: BuilderState, packets: seq<seq<byte>>): Trace {
    Run(Enqueue, s, packets)
  }

  /** Every state a valid builder passes through while it is fed packets is valid. */
  lemma {:induction false} FeedKeepsValid(s: BuilderState, packets: seq<seq<byte>>)
    requires Valid(s)
    ensures Valid(Feed(s, packets).final)
    decreases |packets|
  {
    if packets != [] {
      EnqueueKeepsValid(s, packets[0]);
      FeedKeepsValid(Enqueue(s, packets[0]).next, packets[1..]);
    }
  }

  /** The concatenation of `chunks`, in order. */
  function Flatten(chunks: seq<seq<byte>>): seq<byte>
    decreases |chunks|
  {
    if chunks == [] then [] else chunks[0] + Flatten(chunks[1..])
  }

  /** The packets a sender makes of `chunks`: the first carries the number of packets after it, the next
      one less, down to 0 on the last; `filler[i]` is the ignored second byte of packet `i`. */
  function Numbered(chunks: seq<seq<byte>>, filler: seq<byte>): (packets: seq<seq<byte>>)
    requires |chunks| <= 256 && |filler| == |chunks|
    ensures |packets| == |chunks|
    decreases |chunks|
  {
    if chunks == [] then []
    else [[|chunks| - 1, filler[0]] + chunks[0]] + Numbered(chunks[1..], filler[1..])
  }

  /** Packet `i` of `k` numbered packets is `[k - 1 - i, filler[i]]` followed by chunk `i`. */
  lemma {:induction false} NumberedAt(chunks: seq<seq<byte>>, filler: seq<byte>, i: nat)
    requires |chunks| <= 256 && |filler| == |chunks| && i < |chunks|
    ensures Numbered(chunks, filler)[i] == [|chunks| - 1 - i, filler[i]] + chunks[i]
    decreases i
  {
    if i > 0 {
      NumberedAt(chunks[1..], filler[1..], i - 1);
    }
  }

  /** A packet that completes a message, fed alone, delivers that message and nothing else. */
  lemma FeedCompletingPacket(s: BuilderState, packet: seq<byte>, msg: seq<byte>)
    requires Enqueue(s, packet) == Step(Idle, [msg], None)
    ensures Feed(s, [packet]) == Trace(Idle, [msg], [])
  {
    assert [packet][1..] == [];
    assert Run(Enqueue, Idle, []) == Trace(Idle, [], []);
    assert [msg] + [] == [msg];
  }

  /** A packet accepted without completing a message only moves the builder on to its next state. */
  lemma FeedAcceptedPacket(s: BuilderState, packets: seq<seq<byte>>, next: BuilderState)
    requires packets != [] && Enqueue(s, packets[0]) == Step(next, [], None)
    ensures Feed(s, packets) == Feed(next, packets[1..])
  {
    var rest := Run(Enqueue, next, packets[1..]);
    assert Run(Enqueue, s, packets) == Trace(rest.final, [] + rest.built, [] + rest.thrown);
    assert [] + rest.built == rest.built && [] + rest.thrown == rest.thrown;
  }

  /** The same for a packet fed alone: the builder moves on to its next state, and nothing else happens. */
  lemma FeedAcceptedLastPacket(s: BuilderState, packet: seq<byte>, next: BuilderState)
    requires Enqueue(s, packet) == Step(next, [], None)
    ensures Feed(s, [packet]) == Trace(next, [], [])
  {
    FeedAcceptedPacket(s, [packet], next);
    assert [packet][1..] == [];
  }

  /** The first numbered packet is the chunk count less one, the filler byte and the first chunk; the
      others are the numbering of the remaining chunks. */
  lemma NumberedFirst(chunks: seq<seq<byte>>, filler: seq<byte>)
    requires 1 <= |chunks| <= 256 && |filler| == |chunks|
    ensures Numbered(chunks, filler)[0] == [|chunks| - 1, filler[0]] + chunks[0]
    ensures Numbered(chunks, filler)[1..] == Numbered(chunks[1..], filler[1..])
    ensures Payload([|chunks| - 1, filler[0]] + chunks[0]) == chunks[0]
  {
  }

  /** Feeding the rest of a numbered message to a builder that has received `msg` and awaits exactly
      that many packets completes the message: `msg` followed by every remaining chunk. */
  lemma {:induction false} FeedRestOfMessage(msg: seq<byte>, chunks: seq<seq<byte>>, filler: seq<byte>)
    requires 1 <= |chunks| <= 255 && |filler| == |chunks|
    ensures Feed(InProgress(msg, |chunks|), Numbered(chunks, filler)) == Trace(Idle, [msg + Flatten(chunks)], [])
    decreases |chunks|
  {
    var packets := Numbered(chunks, filler);
    var first := [|chunks| - 1, filler[0]] + chunks[0];
    NumberedFirst(chunks, filler);
    if |chunks| == 1 {
      assert packets == [first];
      assert Flatten(chunks) == chunks[0] + [] == chunks[0];
      FeedCompletingPacket(InProgress(msg, 1), first, msg + chunks[0]);
    } else {
      FeedAcceptedPacket(InProgress(msg, |chunks|), packets, InProgress(msg + chunks[0], |chunks| - 1));
      FeedRestOfMessage(msg + chunks[0], chunks[1..], filler[1..]);
      assert msg + chunks[0] + Flatten(chunks[1..]) == msg + Flatten(chunks);
    }
  }

  /** Round trip: a message cut into between 1 and 256 chunks, numbered and fed in order to an idle
      builder, is delivered exactly once and whole, nothing is thrown, and the builder ends idle. */
  lemma RoundTrip(chunks: seq<seq<byte>>, filler: seq<byte>)
    requires 1 <= |chunks| <= 256 && |filler| == |chunks|
    ensures Feed(Idle, Numbered(chunks, filler)) == Trace(Idle, [Flatten(chunks)], [])
  {
    var packets := Numbered(chunks, filler);
    var first := [|chunks| - 1, filler[0]] + chunks[0];
    NumberedFirst(chunks, filler);
    if |chunks| == 1 {
      assert packets == [first];
      assert Flatten(chunks) == chunks[0] + [] == chunks[0];
      FeedCompletingPacket(Idle, first, chunks[0]);
    } else {
      FeedAcceptedPacket(Idle, packets, InProgress(chunks[0], |chunks| - 1));
      FeedRestOfMessage(chunks[0], chunks[1..], filler[1..]);
      assert Flatten(chunks) == chunks[0] + Flatten(chunks[1..]);
    }
  }

  /** Running over `a` and then over `b` is running over `a + b`, whatever the step function. */
  lemma {:induction false} RunAppend(enqueue: (BuilderState, seq<byte>) -> Step, s: BuilderState,
                                     a: seq<seq<byte>>, b: seq<seq<byte>>)
    ensures var ta := Run(enqueue, s, a);
            var tb := Run(enqueue, ta.final, b);
            Run(enqueue, s, a + b) == Trace(tb.final, ta.built + tb.built, ta.thrown + tb.thrown)
    decreases |a|
  {
    if a == [] {
      assert a + b == b;
    } else {
      var step := enqueue(s, a[0]);
      assert (a + b)[0] == a[0] && (a + b)[1..] == a[1..] + b;
      RunAppend(enqueue, step.next, a[1..], b);
      var err: seq<PacketError> := if step.thrown.Some? then [step.thrown.value] else [];
      var ta' := Run(enqueue, step.next, a[1..]);
      var tb := Run(enqueue, ta'.final, b);
      assert step.built + (ta'.built + tb.built) == (step.built + ta'.built) + tb.built;
      assert err + (ta'.thrown + tb.thrown) == (err + ta'.thrown) + tb.thrown;
    }
  }

  /** Feeding `a` and then `b` is feeding `a + b`. */
  lemma FeedAppend(s: BuilderState, a: seq<seq<byte>>, b: seq<seq<byte>>)
    ensures var ta := Feed(s, a);
            var tb := Feed(ta.final, b);
            Feed(s, a + b) == Trace(tb.final, ta.built + tb.built, ta.thrown + tb.thrown)
  {
    RunAppend(Enqueue, s, a, b);
  }

  /** The first `j` numbered packets of a message of `k` chunks, `0 < j < k`, leave a builder that started
      idle holding the first `j` chunks and awaiting `k - j` more packets. */
  lemma {:induction false} FeedNumberedPrefix(chunks: seq<seq<byte>>, filler: seq<byte>, j: nat)
    requires |chunks| <= 256 && |filler| == |chunks| && 0 < j < |chunks|
    ensures Feed(Idle, Numbered(chunks, filler)[..j]) == Trace(InProgress(Flatten(chunks[..j]), |chunks| - j), [], [])
    decreases j
  {
    var packets := Numbered(chunks, filler);
    var k := |chunks|;
    NumberedAt(chunks, filler, j - 1);
    var last := packets[j - 1];
    assert Payload(last) == chunks[j - 1];
    assert packets[..j] == packets[..j - 1] + [last];
    FeedAppend(Idle, packets[..j - 1], [last]);
    FlattenSnoc(chunks, j);
    if j == 1 {
      assert packets[..0] == [] && chunks[..0] == [];
      assert Feed(Idle, []) == Trace(Idle, [], []);
      FeedAcceptedLastPacket(Idle, last, InProgress(chunks[0], k - 1));
      assert Flatten(chunks[..1]) == chunks[0];
    } else {
      FeedNumberedPrefix(chunks, filler, j - 1);
      var m := Flatten(chunks[..j - 1]);
      FeedAcceptedLastPacket(InProgress(m, k - j + 1), last, InProgress(m + chunks[j - 1], k - j));
    }
  }

  /** Flattening the first `j` chunks is flattening the first `j - 1` and then appending chunk `j - 1`. */
  lemma {:induction false} FlattenSnoc(chunks: seq<seq<byte>>, j: nat)
    requires 0 < j <= |chunks|
    ensures Flatten(chunks[..j]) == Flatten(chunks[..j - 1]) + chunks[j - 1]
    decreases j
  {
    if j == 1 {
      assert chunks[..0] == [] && chunks[..1] == [chunks[0]];
      assert Flatten(chunks[..1]) == chunks[0] + Flatten([]);
    } else {
      FlattenSnoc(chunks[1..], j - 1);
      assert chunks[..j][1..] == chunks[1..][..j - 1];
      assert chunks[..j - 1][1..] == chunks[1..][..j - 2];
    }
  }

  /** `k` exceptions `Message skipped!` in a row. */
  function Skipped(k: nat): (r: seq<PacketError>)
    ensures |r| == k && forall i :: 0 <= i < k ==> r[i] == MessageSkipped
  {
    seq(k, _ => MessageSkipped)
  }

  /** While a message is in progress, packets whose counters all differ from the expected one are each
      refused as skipped and change nothing. */
  lemma {:induction false} FeedAllSkipped(s: BuilderState, packets: seq<seq<byte>>)
    requires s.awaiting.Some?
    requires forall i :: 0 <= i < |packets| ==> packets[i] != [] && packets[i][0] != s.awaiting.value - 1
    ensures Feed(s, packets) == Trace(s, [], Skipped(|packets|))
    decreases |packets|
  {
    if packets != [] {
      FeedAllSkipped(s, packets[1..]);
      assert [MessageSkipped] + Skipped(|packets| - 1) == Skipped(|packets|);
    }
  }

  /** After a gap at packet `j`, each later numbered packet counts at least one packet too few for a
      builder awaiting `k - j`. */
  lemma CountersAfterGap(chunks: seq<seq<byte>>, filler: seq<byte>, j: nat)
    requires |chunks| <= 256 && |filler| == |chunks| && 0 < j < |chunks| - 1
    ensures var after := Numbered(chunks, filler)[j + 1..];
            forall i :: 0 <= i < |after| ==> after[i] != [] && after[i][0] != |chunks| - j - 1
  {
    var after := Numbered(chunks, filler)[j + 1..];
    forall i | 0 <= i < |after| ensures after[i] != [] && after[i][0] != |chunks| - j - 1 {
      NumberedAt(chunks, filler, j + 1 + i);
    }
  }

  /** A packet lost from the middle of a numbered message is noticed within that message: nothing is
      delivered, and each later packet of the same message is refused as skipped. The builder keeps the
      part before the gap and still awaits the counter after it (see `StrandedPartResumes`). */
  lemma LostMiddlePacketDetected(chunks: seq<seq<byte>>, filler: seq<byte>, j: nat)
    requires |chunks| <= 256 && |filler| == |chunks| && 0 < j < |chunks| - 1
    ensures var packets := Numbered(chunks, filler);
            Feed(Idle, packets[..j] + packets[j + 1..])
              == Trace(InProgress(Flatten(chunks[..j]), |chunks| - j), [], Skipped(|chunks| - 1 - j))
  {
    var packets := Numbered(chunks, filler);
    var s := InProgress(Flatten(chunks[..j]), |chunks| - j);
    FeedNumberedPrefix(chunks, filler, j);
    CountersAfterGap(chunks, filler, j);
    FeedAllSkipped(s, packets[j + 1..]);
    FeedAppend(Idle, packets[..j], packets[j + 1..]);
    assert [] + Skipped(|chunks| - 1 - j) == Skipped(|chunks| - 1 - j);
  }

  /** Dropping the first `d` numbered packets leaves the numbering of the remaining chunks. */
  lemma {:induction false} NumberedSuffix(chunks: seq<seq<byte>>, filler: seq<byte>, d: nat)
    requires |chunks| <= 256 && |filler| == |chunks| && d <= |chunks|
    ensures Numbered(chunks, filler)[d..] == Numbered(chunks[d..], filler[d..])
    decreases d
  {
    if d > 0 {
      NumberedFirst(chunks, filler);
      NumberedSuffix(chunks[1..], filler[1..], d - 1);
      assert Numbered(chunks, filler)[d..] == Numbered(chunks, filler)[1..][d - 1..];
      assert chunks[1..][d - 1..] == chunks[d..];
      assert filler[1..][d - 1..] == filler[d..];
    }
  }

  /** Nothing resets a builder after `Message skipped!`. One left holding `msg` and awaiting `n` packets
      refuses the packets of the next numbered message until one carries the counter it expects, takes
      that message's last `n` chunks from there, and delivers them behind `msg` as one message. */
  lemma StrandedPartResumes(msg: seq<byte>, n: byte, chunks: seq<seq<byte>>, filler: seq<byte>)
    requires 1 <= n <= |chunks| <= 256 && |filler| == |chunks|
    ensures Feed(InProgress(msg, n), Numbered(chunks, filler))
              == Trace(Idle, [msg + Flatten(chunks[|chunks| - n..])], Skipped(|chunks| - n))
  {
    var packets := Numbered(chunks, filler);
    var d := |chunks| - n as int;
    var s := InProgress(msg, n);
    assert packets[..d] + packets[d..] == packets;
    forall i | 0 <= i < d
      ensures packets[..d][i] != [] && packets[..d][i][0] != n - 1
    {
      NumberedAt(chunks, filler, i);
    }
    FeedAllSkipped(s, packets[..d]);
    NumberedSuffix(chunks, filler, d);
    FeedRestOfMessage(msg, chunks[d..], filler[d..]);
    var built := [msg + Flatten(chunks[d..])];
    FeedThen(s, packets[..d], packets[d..], Trace(s, [], Skipped(d)), Trace(Idle, built, []));
    assert [] + built == built && Skipped(d) + [] == Skipped(d);
  }

  /** A message with fewer chunks than a stranded builder awaits is refused packet by packet, and the
      builder is left as it was. */
  lemma StrandedPartSkipsShortMessage(msg: seq<byte>, n: byte, chunks: seq<seq<byte>>, filler: seq<byte>)
    requires 1 <= n && |chunks| < n as int && |filler| == |chunks|
    ensures Feed(InProgress(msg, n), Numbered(chunks, filler))
              == Trace(InProgress(msg, n), [], Skipped(|chunks|))
  {
    var packets := Numbered(chunks, filler);
    forall i | 0 <= i < |packets|
      ensures packets[i] != [] && packets[i][0] != n - 1
    {
      NumberedAt(chunks, filler, i);
    }
    FeedAllSkipped(InProgress(msg, n), packets);
  }

  /** A lost middle packet goes on to corrupt the next message: when that one has at least as many chunks
      as the first still awaited, its last chunks are accepted after the refusals and the builder delivers
      the first message's head followed by them, as a single message. */
  lemma LostMiddlePacketSplicesNext(a: seq<seq<byte>>, fa: seq<byte>, j: nat, b: seq<seq<byte>>, fb: seq<byte>)
    requires |a| <= 256 && |fa| == |a| && 0 < j < |a| - 1
    requires |a| - j <= |b| <= 256 && |fb| == |b|
    ensures var pa := Numbered(a, fa);
            Feed(Idle, pa[..j] + pa[j + 1..] + Numbered(b, fb))
              == Trace(Idle, [Flatten(a[..j]) + Flatten(b[|b| - (|a| - j)..])],
                       Skipped(|a| - 1 - j + |b| - (|a| - j)))
  {
    var pa := Numbered(a, fa);
    var n := (|a| - j) as byte;
    var head := Flatten(a[..j]);
    var p, q := |a| - 1 - j, |b| - (|a| - j);
    var built := [head + Flatten(b[|b| - (|a| - j)..])];
    LostMiddlePacketDetected(a, fa, j);
    StrandedPartResumes(head, n, b, fb);
    assert Feed(InProgress(head, n), Numbered(b, fb)) == Trace(Idle, built, Skipped(q));
    FeedThen(Idle, pa[..j] + pa[j + 1..], Numbered(b, fb), Trace(InProgress(head, n), [], Skipped(p)),
             Trace(Idle, built, Skipped(q)));
    assert [] + built == built;
    SkippedConcat(p, q);
  }

  /** A lost last packet raises no error at all: the builder is left awaiting the counter 0, refuses the
      next message's packets up to its last, and delivers the first message's head followed by the next
      message's last chunk. */
  lemma LostLastPacketSplicesNext(a: seq<seq<byte>>, fa: seq<byte>, b: seq<seq<byte>>, fb: seq<byte>)
    requires 2 <= |a| <= 256 && |fa| == |a| && 1 <= |b| <= 256 && |fb| == |b|
    ensures var pa := Numbered(a, fa);
            Feed(Idle, pa[..|a| - 1]) == Trace(InProgress(Flatten(a[..|a| - 1]), 1), [], [])
    ensures var pa := Numbered(a, fa);
            Feed(Idle, pa[..|a| - 1] + Numbered(b, fb))
              == Trace(Idle, [Flatten(a[..|a| - 1]) + b[|b| - 1]], Skipped(|b| - 1))
  {
    var pa := Numbered(a, fa);
    var head := Flatten(a[..|a| - 1]);
    FeedNumberedPrefix(a, fa, |a| - 1);
    StrandedPartResumes(head, 1, b, fb);
    FlattenLast(b);
    var built := [head + b[|b| - 1]];
    FeedThen(Idle, pa[..|a| - 1], Numbered(b, fb), Trace(InProgress(head, 1), [], []),
             Trace(Idle, built, Skipped(|b| - 1)));
    assert [] + built == built && [] + Skipped(|b| - 1) == Skipped(|b| - 1);
  }

  /** `FeedAppend` for two runs whose traces are already known. */
  lemma FeedThen(s: BuilderState, a: seq<seq<byte>>, b: seq<seq<byte>>, ta: Trace, tb: Trace)
    requires Feed(s, a) == ta && Feed(ta.final, b) == tb
    ensures Feed(s, a + b) == Trace(tb.final, ta.built + tb.built, ta.thrown + tb.thrown)
  {
    FeedAppend(s, a, b);
  }

  /** Two runs of refusals in a row are one run as long as both. */
  lemma SkippedConcat(p: nat, q: nat)
    ensures Skipped(p) + Skipped(q) == Skipped(p + q)
  {
  }

  /** Flattening only the last chunk gives that chunk. */
  lemma FlattenLast(chunks: seq<seq<byte>>)
    requires chunks != []
    ensures Flatten(chunks[|chunks| - 1..]) == chunks[|chunks| - 1]
  {
    assert chunks[|chunks| - 1..] == [chunks[|chunks| - 1]];
    assert Flatten([chunks[|chunks| - 1]]) == chunks[|chunks| - 1] + Flatten([]);
  }

  /** A lost first packet is not noticed: an idle builder takes the second packet as the start of a
      message, and the message is delivered without its first chunk. */
  lemma LostFirstPacketUndetected(chunks: seq<seq<byte>>, filler: seq<byte>)
    requires 2 <= |chunks| <= 256 && |filler| == |chunks|
    ensures Feed(Idle, Numbered(chunks, filler)[1..]) == Trace(Idle, [Flatten(chunks[1..])], [])
  {
    RoundTrip(chunks[1..], filler[1..]);
  }

  /** A builder object: the two fields that `enqueuePacket` updates in place, and the record of the
      messages it has passed to its `onMessageBuilt` callback. */
  class BleMessageBuilder {
    var currentMsg: Option<seq<byte>>
    var awaiting: Option<byte>
    /** The arguments of every `onMessageBuilt` call so far, in order. */
    var built: seq<seq<byte>>

    function State(): BuilderState
      reads this
    {
      BuilderState(currentMsg, awaiting)
    }

    /** `new BleMessageBuilder(onMessageBuilt)`: both fields undefined, nothing built yet. */
    constructor ()
      ensures State() == Idle && built == []
      ensures Valid(State())
    {
      currentMsg := None;
      awaiting := None;
      built := [];
    }

    /** `enqueuePacket(packet)`. Returns the exception thrown, if any. */
    method EnqueuePacket(packet: seq<byte>) returns (thrown: Option<PacketError>)
      modifies this
      ensures old(Valid(State())) ==> Valid(State())
      ensures State() == Enqueue(old(State()), packet).next
      ensures built == old(built) + Enqueue(old(State()), packet).built
      ensures thrown == Enqueue(old(State()), packet).thrown
      ensures thrown.Some? ==> State() == old(State()) && built == old(built)
    {
      if |packet| == 0 {
        return Some(RangeError);
      }
      var counter := packet[0];
      if awaiting.Some? && counter != awaiting.value - 1 {
        return Some(MessageSkipped);
      }
      if currentMsg.Some? {
        currentMsg := Some(currentMsg.value + Payload(packet));
      } else {
        currentMsg := Some(Payload(packet));
      }
      awaiting := Some(counter);
      if counter == 0 {
        built := built + [currentMsg.value];
        currentMsg := None;
        awaiting := None;
      }
      thrown := None;
    }
  }
}
