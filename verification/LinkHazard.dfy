/** A run of the link layer, byte by byte, at whose end an unread message is overwritten. */
module LinkHazard {
  import opened Bytes
  import Crc
  import Ring
  import opened Link
  import opened LinkFifo
  import opened LinkFrames

  /** A unicast frame heard, its acknowledge driven and read back. */
  function Deliver(cfg: Config, s: Link, m: seq<byte>): (r: Link)
    requires Safe(cfg, s) && cfg.node < 16 && Ring.IsMessage(m)
    ensures Safe(cfg, r)
  {
    var t := HandleTx(cfg, Feed(cfg, s, Wire(m)), false, false).link;
    if t.mode.SendAck? then HandleRx(cfg, t, t.counter, false).link else t
  }

  lemma AckCommits(cfg: Config, t: Link, v: View, m: seq<byte>)
    requires Agrees(cfg, t, v) && t.mode.SendAck? && !t.status.transmission && Storing(t)
    requires Ring.IsMessage(m) && v.frame == Wire(m)
    ensures var r := HandleRx(cfg, t, t.counter, false).link;
      && r.mode.Idle? && r.ring == Ring.Commit(t.ring)
      && t.ring.off == |m| && t.ring.wr + |m| <= cfg.size && t.ring.count + |m| <= cfg.size
      && t.ring.buf[t.ring.wr] == m[0]
  {
    hide Wire, Crc.Accepts, Holds, SafeReceiving, SafeSending, Ring.Commit;
    WireAccepted(m);
    WireStart(m, |Wire(m)|);
    assert Wire(m)[..|Wire(m)|] == Wire(m);
    assert t.ring.buf[t.ring.wr..t.ring.wr + |m|][0] == m[0];
  }

  lemma CommitMoves(r: Ring.Ring, length: nat)
    requires r.off == length && r.wr + length < 128 && r.count + length < 128
    ensures var c := Ring.Commit(r);
      && c.wr as int == r.wr as int + Even(length) && c.count as int == r.count as int + Even(length)
      && c.buf == r.buf && c.rd == r.rd
  {
  }

  lemma AgreesAfterTx(cfg: Config, f: Link, v: View)
    requires Agrees(cfg, f, v) && f.mode.SendAck?
    ensures var t := HandleTx(cfg, f, false, false).link;
      Agrees(cfg, t, v) && t.ring == f.ring && t.status == f.status && t.mode == f.mode
  {
    OtherAgrees(cfg, f, v, Tx(false, false));
  }

  lemma AgreesSafe(cfg: Config, s: Link, v: View)
    requires Agrees(cfg, s, v)
    ensures Safe(cfg, s) && cfg.node < 16 && |s.ring.buf| == cfg.size < 128 && s.ring.wr <= cfg.size
  {
  }

  lemma WrapKeepsRd(n: nat, r: Ring.Ring, counter: byte)
    requires |r.buf| == n && r.wr <= n
    ensures Ring.Wrap(n, r, counter).rd == r.rd && |Ring.Wrap(n, r, counter).buf| == n
  {
  }

  /** The buffer after that: the message behind the wrap marker it may have needed, all other cells as they were. */
  lemma DeliverRing(cfg: Config, s: Link, v: View, m: seq<byte>)
    requires Agrees(cfg, s, v) && AtStart(s) && Ring.IsMessage(m) && Room(cfg, s.ring, m)
    requires HighNibble(m[1]) == cfg.node != 0
    ensures var r, w := Deliver(cfg, s, m), Ring.Wrap(cfg.size, s.ring, |m|);
      && r.mode.Idle? && Agrees(cfg, r, View(v.queue + [m], Wire(m) + [NodeBits(m[1]) + ACK_OK], v.held))
      && r.ring.rd == s.ring.rd && r.ring.wr as int == w.wr as int + Even(|m|)
      && r.ring.count as int == w.count as int + Even(|m|)
      && r.ring.buf[w.wr] == m[0]
      && forall i :: 0 <= i < cfg.size && (i < w.wr || i >= w.wr + |m|) ==> r.ring.buf[i] == w.buf[i]
  {
    hide Wire, Feed, Room, Ring.Wrap, Even, HandleRx, Agrees, Ring.Commit, Safe;
    AgreesSafe(cfg, s, v);
    ReceivesFrame(cfg, s, v, m);
    UnicastRoundTrip(cfg, s, v, m);
    var f := Feed(cfg, s, Wire(m));
    var t := HandleTx(cfg, f, false, false).link;
    AgreesAfterTx(cfg, f, v.(frame := Wire(m)));
    AckCommits(cfg, t, v.(frame := Wire(m)), m);
    CommitMoves(t.ring, |m|);
    WrapKeepsRd(cfg.size, s.ring, |m|);
  }

  // ---------------------------------------------------------------- the run

  /** Two messages for this node that fill the buffer, for any of its sizes. */
  predicate Filling(cfg: Config, m: seq<byte>, n: seq<byte>) {
    && Ring.Length(cfg.size) && 0 < cfg.node < 16 && Ring.IsMessage(m) && Ring.IsMessage(n)
    && Even(|m|) + Even(|n|) == cfg.size && HighNibble(m[1]) == HighNibble(n[1]) == cfg.node
  }

  lemma Filled(cfg: Config, m: seq<byte>, n: seq<byte>)
    requires Filling(cfg, m, n)
    ensures Safe(cfg, Reset(cfg))
    ensures var s := Deliver(cfg, Deliver(cfg, Reset(cfg), m), n);
      && s.mode.Idle? && s.ring.rd == 0 && s.ring.wr as int == s.ring.count as int == cfg.size
      && s.ring.buf[0] == m[0] && s.ring.buf[Even(|m|)] == n[0]
      && exists frame :: Agrees(cfg, s, View([m, n], frame, false))
  {
    hide Deliver, Agrees, Wire, Even;
    ResetAgrees(cfg);
    AgreesSafe(cfg, Reset(cfg), NOTHING);
    DeliverRing(cfg, Reset(cfg), NOTHING, m);
    var s := Deliver(cfg, Reset(cfg), m);
    var frame := Wire(m) + [NodeBits(m[1]) + ACK_OK];
    assert [] + [m] == [m];
    AgreesSafe(cfg, s, View([m], frame, false));
    DeliverRing(cfg, s, View([m], frame, false), n);
    assert [m] + [n] == [m, n];
  }

  /** The reader takes and releases the first one. */
  function TakeOne(cfg: Config, s: Link): Link
    requires Safe(cfg, s)
  {
    s.(ring := ReleaseRing(cfg, Ring.Receive(cfg.size, s.ring).0))
  }

  lemma TakenOne(cfg: Config, s: Link, v: View, m: seq<byte>, n: seq<byte>)
    requires Filling(cfg, m, n) && Agrees(cfg, s, v) && v.queue == [m, n] && !v.held && s.mode.Idle?
    requires s.ring.rd == 0 && s.ring.wr as int == s.ring.count as int == cfg.size && s.ring.buf[0] == m[0]
    ensures var t := TakeOne(cfg, s);
      && t.mode.Idle? && t.ring.rd as int == Even(|m|) && t.ring.wr == s.ring.wr && t.ring.count as int == Even(|n|)
      && t.ring.buf == s.ring.buf && Agrees(cfg, t, v.(queue := [n]))
  {
    hide Tracks, Holds, IsEven;
    TakeAgrees(cfg, s, v);
    var u := Step(cfg, s, Take);
    ReleaseAgrees(cfg, u, v.(held := true));
    assert v.queue[1..] == [n];
  }

  /** The three messages, with the first one read and released before the third. */
  function Overfull(cfg: Config, m: seq<byte>, n: seq<byte>): Link
    requires Filling(cfg, m, n) && Safe(cfg, Reset(cfg))
  {
    var s := Deliver(cfg, Deliver(cfg, Reset(cfg), m), n);
    Deliver(cfg, TakeOne(cfg, s), m)
  }

  /** The third message starts over at the beginning and fills the buffer exactly up to the unread second one. */
  lemma ExactlyFull(cfg: Config, m: seq<byte>, n: seq<byte>)
    requires Filling(cfg, m, n)
    ensures Safe(cfg, Reset(cfg))
    ensures var s := Overfull(cfg, m, n);
      && (exists frame :: Agrees(cfg, s, View([n, m], frame, false)))
      && s.mode.Idle? && s.ring.rd as int == s.ring.wr as int == Even(|m|) && s.ring.count as int == cfg.size
      && s.ring.buf[s.ring.wr] == n[0]
  {
    hide Deliver, Agrees, Wire, TakeOne, Even;
    Filled(cfg, m, n);
    var s := Deliver(cfg, Deliver(cfg, Reset(cfg), m), n);
    var frame :| Agrees(cfg, s, View([m, n], frame, false));
    TakenOne(cfg, s, View([m, n], frame, false), m, n);
    AgreesSafe(cfg, TakeOne(cfg, s), View([n], frame, false));
    DeliverRing(cfg, TakeOne(cfg, s), View([n], frame, false), m);
    assert [n] + [m] == [n, m];
  }

  /**
   For every buffer size: a frame that is too long for the rest of the buffer and starts now puts its wrap marker over
   the length byte of the second message, which the reader then skips.
   */
  lemma HazardReached(cfg: Config, m: seq<byte>, n: seq<byte>, length: byte)
    requires Filling(cfg, m, n) && Even(|n|) < length as int + Ring.OVERHEAD <= cfg.size
    ensures Safe(cfg, Reset(cfg))
    ensures var s := Overfull(cfg, m, n);
      && (exists frame :: Agrees(cfg, s, View([n, m], frame, false)))
      && s.mode.Idle?
      && var t := HandleRx(cfg, s, length, false).link;
        t.mode.GetRecipient? && Ring.Hazard(cfg.size, t.ring, t.counter)
        && var u := HandleRx(cfg, t, m[1], false).link;
          u.ring.rd as int == Even(|m|) && u.ring.count > 0 && u.ring.buf[u.ring.rd] == Ring.MARKER
  {
    ExactlyFull(cfg, m, n);
    hide Overfull, Agrees, Crc.AddByte, Even, IsEven;
    MarkerLands(cfg, Overfull(cfg, m, n), m[1], length);
  }

  lemma MarkerLands(cfg: Config, s: Link, address: byte, length: byte)
    requires Safe(cfg, s) && 0 < cfg.node < 16 && s.mode.Idle? && HighNibble(address) == cfg.node
    requires s.ring.rd == s.ring.wr && 0 < s.ring.wr as int < cfg.size && s.ring.count as int == cfg.size
    requires s.ring.buf[s.ring.wr] != Ring.MARKER && cfg.size - s.ring.wr < length as int + Ring.OVERHEAD <= cfg.size
    requires length >= 2
    ensures var t := HandleRx(cfg, s, length, false).link;
      t.mode.GetRecipient? && Ring.Hazard(cfg.size, t.ring, t.counter)
      && var u := HandleRx(cfg, t, address, false).link;
        u.ring.rd == s.ring.rd && u.ring.count > 0 && u.ring.buf[u.ring.rd] == Ring.MARKER
  {
    hide Crc.AddByte, IsEven;
  }
}
