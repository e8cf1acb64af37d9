/** Length-based framing of the inbound byte stream through the three phases of a session. */
module Framing {
  import opened Bytes
  import opened Message

  const READ_BUF_LIMIT := 65536
  /** The size of the read buffer of the handshake and of OpenConfirm. */
  const READ_CHUNK := 4096

  datatype Next = NeedMore | Bad(error: BgpError) | Complete(msg: BgpMessage, len: nat)

  /** One turn of the framing loops: is there a complete frame at the front of `buf`? */
  function NextFrame(buf: seq<byte>): (r: Next)
    ensures r.NeedMore? ==> |buf| < MAX_LEN
    ensures r.Complete? ==> HEADER_LEN <= r.len <= |buf|
  {
    if |buf| < HEADER_LEN then NeedMore
    else
      match ParseHeader(buf)
      case Err(e) => Bad(e)
      case Ok((_, total)) =>
        if |buf| < total then NeedMore
        else
          match DecodeMessage(buf[..total])
          case Err(e) => Bad(e)
          case Ok((msg, _)) => Complete(msg, total)
  }

  /** Bytes that arrive later never change a verdict already reached. */
  lemma NextFrameStable(buf: seq<byte>, more: seq<byte>)
    requires !NextFrame(buf).NeedMore?
    ensures NextFrame(buf + more) == NextFrame(buf)
  {
    var all := buf + more;
    assert all[0..16] == buf[0..16];
    assert all[16..18] == buf[16..18];
    assert ParseHeader(all) == ParseHeader(buf);
    match ParseHeader(buf)
    case Ok((_, total)) => assert all[..total] == buf[..total];
    case Err(_) =>
  }

  /** A whole frame at the front of the stream is found, whatever follows it. */
  lemma OpenArrives(o: OpenMsg, rest: seq<byte>)
    ensures NextFrame(OpenBytes(o) + rest) == Complete(Open(o), |OpenBytes(o)|)
  {
    FrameParsesAhead(OpenType.Code(), OpenBody(o), rest);
    OpenRoundTrip(o);
    assert (OpenBytes(o) + rest)[..|OpenBytes(o)|] == OpenBytes(o);
  }

  lemma KeepaliveArrives(rest: seq<byte>)
    ensures NextFrame(KeepaliveBytes() + rest) == Complete(Keepalive, HEADER_LEN)
  {
    FrameParsesAhead(KeepaliveType.Code(), [], rest);
    KeepaliveRoundTrip();
    assert (KeepaliveBytes() + rest)[..HEADER_LEN] == KeepaliveBytes();
  }

  // ---- What each phase does with a message -----------------------------------

  datatype End =
    | BadFrame(error: BgpError)
    | PeerNotified(n: NotificationMsg)
    | WrongPeerAs(asn: u32)
    | UnacceptableHoldTime(secs: u16)
    | Overflow

  datatype Phase = OpenSent | OpenConfirm(peer: OpenMsg) | Up(peer: OpenMsg) | Ended(why: End)

  /** The three dispatch tables: handshake, OpenConfirm, Established. */
  function OnMessage(peerAsn: u32, phase: Phase, msg: BgpMessage): Phase
    requires !phase.Ended?
  {
    match (phase, msg)
    case (_, Notification(n)) => Ended(PeerNotified(n))
    case (OpenSent, Open(o)) =>
      if o.asn != peerAsn then Ended(WrongPeerAs(o.asn))
      else if o.holdTime == 1 || o.holdTime == 2 then Ended(UnacceptableHoldTime(o.holdTime))
      else OpenConfirm(o)
    case (OpenSent, _) => OpenSent
    case (OpenConfirm(o), Keepalive) => Up(o)
    case (OpenConfirm(o), Update) => Up(o)
    case (OpenConfirm(o), Open(_)) => phase
    case (Up(o), _) => phase
  }

  /** The reading side of one session; `frames` is the log of the messages taken off the stream. */
  datatype Reader = Reader(phase: Phase, buf: seq<byte>, frames: seq<BgpMessage>)

  const FRESH := Reader(OpenSent, [], [])

  /** Consumes every complete frame, carrying on into the next phase; the end of the session drops the buffer. */
  function Pump(peerAsn: u32, r: Reader): (p: Reader)
    ensures !p.phase.Ended? ==> NextFrame(p.buf).NeedMore?
    ensures p.phase.Ended? && !r.phase.Ended? ==> p.phase.why != Overflow && p.buf == []
    decreases |r.buf|
  {
    if r.phase.Ended? then r
    else
      match NextFrame(r.buf)
      case NeedMore => r
      case Bad(e) => Reader(Ended(BadFrame(e)), [], r.frames)
      case Complete(msg, len) =>
        var phase := OnMessage(peerAsn, r.phase, msg);
        if phase.Ended? then Reader(phase, [], r.frames + [msg])
        else Pump(peerAsn, Reader(phase, r.buf[len..], r.frames + [msg]))
  }

  /** One successful read: append, reject a runaway buffer, then frame. */
  function Feed(peerAsn: u32, r: Reader, chunk: seq<byte>): Reader {
    if r.phase.Ended? then r
    else if |r.buf| + |chunk| > READ_BUF_LIMIT then Reader(Ended(Overflow), [], r.frames)
    else Pump(peerAsn, r.(buf := r.buf + chunk))
  }

  function FeedAll(peerAsn: u32, r: Reader, chunks: seq<seq<byte>>): Reader
    decreases |chunks|
  {
    if chunks == [] then r else FeedAll(peerAsn, Feed(peerAsn, r, chunks[0]), chunks[1..])
  }

  function Concat(chunks: seq<seq<byte>>): seq<byte> {
    if chunks == [] then [] else chunks[0] + Concat(chunks[1..])
  }

  predicate Drained(r: Reader) {
    r.phase.Ended? || NextFrame(r.buf).NeedMore?
  }

  // ---- Framing does not depend on how the stream is cut -----------------------

  /** Framing early and then reading more equals reading first and framing once. */
  lemma {:induction false} PumpAppend(peerAsn: u32, r: Reader, more: seq<byte>)
    requires !r.phase.Ended?
    ensures var p := Pump(peerAsn, r);
            Pump(peerAsn, r.(buf := r.buf + more)) ==
            if p.phase.Ended? then p else Pump(peerAsn, p.(buf := p.buf + more))
    decreases |r.buf|
  {
    match NextFrame(r.buf)
    case NeedMore =>
    case Bad(e) => NextFrameStable(r.buf, more);
    case Complete(msg, len) =>
      NextFrameStable(r.buf, more);
      var phase := OnMessage(peerAsn, r.phase, msg);
      if !phase.Ended? {
        assert (r.buf + more)[len..] == r.buf[len..] + more;
        PumpAppend(peerAsn, Reader(phase, r.buf[len..], r.frames + [msg]), more);
      }
  }

  predicate Bounded(chunks: seq<seq<byte>>, max: nat) {
    forall i :: 0 <= i < |chunks| ==> |chunks[i]| <= max
  }

  /** However the stream is cut, the session reads what one uncut stream would give. */
  lemma {:induction false} FeedAllIsPump(peerAsn: u32, r: Reader, chunks: seq<seq<byte>>)
    requires Drained(r) && !r.phase.Ended?
    requires Bounded(chunks, READ_BUF_LIMIT - MAX_LEN + 1)
    ensures FeedAll(peerAsn, r, chunks) == Pump(peerAsn, r.(buf := r.buf + Concat(chunks)))
    decreases |chunks|
  {
    if chunks == [] {
      assert r.buf + [] == r.buf;
    } else {
      var rest := Concat(chunks[1..]);
      var mid := r.(buf := r.buf + chunks[0]);
      assert r.buf + Concat(chunks) == mid.buf + rest;
      PumpAppend(peerAsn, mid, rest);
      var p := Pump(peerAsn, mid);
      if p.phase.Ended? {
        EndedStays(peerAsn, p, chunks[1..]);
      } else {
        FeedAllIsPump(peerAsn, p, chunks[1..]);
      }
    }
  }

  lemma {:induction false} EndedStays(peerAsn: u32, r: Reader, chunks: seq<seq<byte>>)
    requires r.phase.Ended?
    ensures FeedAll(peerAsn, r, chunks) == r
    decreases |chunks|
  {
    if chunks == [] {
    } else {
      EndedStays(peerAsn, r, chunks[1..]);
    }
  }

  /** Two ways of cutting one stream give the same frames, the same first error and the same residue. */
  lemma ChunkingIsIrrelevant(peerAsn: u32, one: seq<seq<byte>>, other: seq<seq<byte>>)
    requires Concat(one) == Concat(other)
    requires Bounded(one, READ_BUF_LIMIT - MAX_LEN + 1) && Bounded(other, READ_BUF_LIMIT - MAX_LEN + 1)
    ensures FeedAll(peerAsn, FRESH, one) == FeedAll(peerAsn, FRESH, other)
  {
    FeedAllIsPump(peerAsn, FRESH, one);
    FeedAllIsPump(peerAsn, FRESH, other);
  }

  /** A read of at most 61441 octets never meets the 64 KiB limit, and leaves a residue below 4096. */
  lemma {:induction false} NeverOverflows(peerAsn: u32, chunks: seq<seq<byte>>)
    requires Bounded(chunks, 61441)
    ensures var r := FeedAll(peerAsn, FRESH, chunks);
            && Drained(r) && |r.buf| < 4096 && r.phase != Ended(Overflow)
  {
    FeedAllIsPump(peerAsn, FRESH, chunks);
  }

  /** The limit ends a session exactly when a read would fill more than 64 KiB. */
  lemma OverflowsExactly(peerAsn: u32, r: Reader, chunk: seq<byte>)
    requires !r.phase.Ended?
    ensures Feed(peerAsn, r, chunk).phase == Ended(Overflow) <==> |r.buf| + |chunk| > 65536
  {
  }

  /** What the front of a buffer is, in octets: a message, the beginning of one, or neither. */
  lemma NextFrameExactly(buf: seq<byte>)
    ensures forall m, n: nat :: NextFrame(buf) == Complete(m, n) <==>
              |buf| >= 19 && IsHeader(buf, buf[18], n) && n <= |buf| && IsMessage(buf, m, n)
    ensures NextFrame(buf) == NeedMore <==>
            |buf| < 19 || exists n: nat :: |buf| < n && IsHeader(buf, buf[18], n)
  {
    if |buf| >= 19 {
      forall m, n: nat
        ensures NextFrame(buf) == Complete(m, n) <==> IsHeader(buf, buf[18], n) && n <= |buf| && IsMessage(buf, m, n)
      {
        FrontExactly(buf, m, n);
      }
      match ParseHeader(buf)
      case Ok((ty, total)) => ParsesExactlyHeaders(buf, ty, total); HeaderLength(buf, total);
      case Err(_) =>
        forall n: nat
          ensures !IsHeader(buf, buf[18], n)
        {
          ParsesExactlyHeaders(buf, buf[18], n);
        }
    }
  }

  lemma HeaderLength(buf: seq<byte>, total: nat)
    requires |buf| >= 19 && IsHeader(buf, buf[18], total)
    ensures forall n: nat :: IsHeader(buf, buf[18], n) ==> n == total
  {
  }

  lemma FrontExactly(buf: seq<byte>, m: BgpMessage, n: nat)
    requires |buf| >= 19
    ensures NextFrame(buf) == Complete(m, n) <==> IsHeader(buf, buf[18], n) && n <= |buf| && IsMessage(buf, m, n)
  {
    hide OpenOf, IsMessage;
    ParsesExactlyHeaders(buf, buf[18], n);
    if ParseHeader(buf).Ok? {
      var total := ParseHeader(buf).value.1;
      ParsesExactlyHeaders(buf, ParseHeader(buf).value.0, total);
      if total <= |buf| {
        var front := buf[..total];
        DecodesExactly(front, m, n);
        SameFront(buf, total, m);
      }
    }
    hide ParseHeader, DecodeMessage;
  }

  lemma SameFront(buf: seq<byte>, total: nat, m: BgpMessage)
    requires 19 <= total <= |buf|
    ensures IsMessage(buf[..total], m, total) == IsMessage(buf, m, total)
    ensures forall ty, n: nat :: IsHeader(buf[..total], ty, n) == IsHeader(buf, ty, n)
  {
    hide OpenOf;
    assert buf[..total][19..total] == buf[19..total];
  }

  /** A session ends on a NOTIFICATION or a bad first OPEN alone, and is up on a KEEPALIVE or UPDATE after the OPEN. */
  lemma DispatchExactly(peerAsn: u32, phase: Phase, msg: BgpMessage)
    requires !phase.Ended?
    ensures var next := OnMessage(peerAsn, phase, msg);
            && (next.Ended? <==> msg.Notification? ||
                                 (phase.OpenSent? && msg.Open? &&
                                  (msg.open.asn != peerAsn || 0 < msg.open.holdTime < 3)))
            && (next.Up? <==> !msg.Notification? &&
                              (phase.Up? || (phase.OpenConfirm? && (msg.Keepalive? || msg.Update?))))
            && (next.OpenConfirm? && phase.OpenSent? ==> msg.Open? && next.peer == msg.open)
            && (!phase.OpenSent? && !next.Ended? ==> next.peer == phase.peer)
  {
  }

  // ---- The framing loop in place ----------------------------------------------

  class Inbound {
    var phase: Phase
    var buf: seq<byte>
    var frames: seq<BgpMessage>

    ghost function View(): Reader
      reads this
    {
      Reader(phase, buf, frames)
    }

    constructor ()
      ensures View() == FRESH
    {
      phase, buf, frames := OpenSent, [], [];
    }

    /** Appends one read to the buffer and drains the complete frames from its front. */
    method Receive(peerAsn: u32, chunk: seq<byte>)
      requires !phase.Ended?
      modifies this
      ensures View() == Feed(peerAsn, old(View()), chunk)
    {
      buf := buf + chunk;
      if |buf| > READ_BUF_LIMIT {
        phase, buf := Ended(Overflow), [];
        return;
      }
      ghost var start := View();
      while true
        invariant !phase.Ended?
        invariant Pump(peerAsn, View()) == Pump(peerAsn, start)
        decreases |buf|
      {
        match NextFrame(buf) {
          case NeedMore =>
            return;
          case Bad(e) =>
            phase, buf := Ended(BadFrame(e)), [];
            return;
          case Complete(msg, len) =>
            frames := frames + [msg];
            phase := OnMessage(peerAsn, phase, msg);
            if phase.Ended? {
              buf := [];
              return;
            }
            buf := buf[len..];
        }
      }
    }
  }
}
