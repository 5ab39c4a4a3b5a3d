/** Short runs of one DBal instance that reach the states in which something is lost. */
module Witnesses {
  import opened Bytes
  import opened Frames
  import opened Instance
  import C = Connection
  import O = Outbox
  import R = RepeatQueue
  import Runs = InstanceRuns
  import Line = InstanceLine

  /** A sound connection message of the partner. */
  function From(partner: byte, m: C.Message): C.Received {
    C.Received(partner, true, Some(m))
  }

  /** An answer to a command that fits into an empty transmit buffer. */
  predicate Small(cfg: O.Config, f: Frame) {
    f.kind.CmdAck? && FRAME_OFFSET + DATA_OFFSET + |f.payload| < cfg.size
  }

  lemma FirstSend(cfg: O.Config, s: State, f: Frame)
    requires O.ValidConfig(cfg) && Small(cfg, f) && s.con.ready && s.line.o.tx == [] && s.line.o.frames == 0
    requires s.line.o.rep == []
    ensures var (t, ok) := SendFrame(cfg, s, f, 0);
      && ok && Line.Pending(t) == [f] && t.line.o.flag && t.line.air == s.line.air
      && t.line.o.entryLen == FRAME_OFFSET + DATA_OFFSET + |f.payload| && t.con.seqSend == Low8(s.con.seqSend + 1)
      && t.con == s.con.(seqSend := t.con.seqSend)
      && t.queue == s.queue && t.timer == s.timer
  {
    hide Encode;
    var o := O.Header(cfg, s.line.o, NextIds(s, 0).seqSend);
    O.EmptyHasNone(cfg, []);
    O.EmptyHasNone(cfg, o.tx);
    ContentAppend(o.tx, f);
    assert [] + [f] == [f];
  }

  /** Both nodes enable: the partner's request arrives while this node waits for the answer to its own. */
  function BothEnable(partner: byte): seq<Event> {
    [Enable, ConMessage(From(partner, C.EnableRequest))]
  }

  lemma BothEnableConnects(cfg: O.Config, partner: byte, size: nat)
    requires C.ValidAddress(partner)
    ensures Runs.AllPossible(cfg, Initial(partner, size), BothEnable(partner))
    ensures var s := Runs.Run(cfg, Initial(partner, size), BothEnable(partner));
      && s.line == O.CONNECTED && s.con.state.Connected? && s.con.ready && !C.DisablePending(s.con)
      && s.con.partner == s.con.backup == partner && s.con.seqSend == 255
      && s.queue == R.Frees(size) && !s.timer
  {
    hide Runs.Run, Runs.AllPossible;
    var n := Initial(partner, size);
    Runs.NoEvents(cfg, n);
    Runs.OneMore(cfg, n, [], Enable);
    assert [] + [Enable] == [Enable];
    Runs.OneMore(cfg, n, [Enable], ConMessage(From(partner, C.EnableRequest)));
    assert [Enable] + [ConMessage(From(partner, C.EnableRequest))] == BothEnable(partner);
  }

  /**
   The partner's request connects this node, which answers a command; then the partner's response to this node's own
   request arrives, and the answer is gone: the connection is up, nobody is told, and the transmission that is due finds
   nothing to hand over.
   */
  lemma SimultaneousEnableLoses(cfg: O.Config, partner: byte, size: nat, f: Frame)
    requires O.ValidConfig(cfg) && C.ValidAddress(partner) && Small(cfg, f)
    ensures var es := BothEnable(partner) + [Send(f)];
      && Runs.AllPossible(cfg, Initial(partner, size), es)
      && var s := Runs.Run(cfg, Initial(partner, size), es);
        var t := ReceiveConnection(s, From(partner, C.EnableResponse));
        && Line.Pending(s) == s.line.h.accepted == [f]
        && t.con.state.Connected? && t.told == s.told && Line.Pending(t) == []
        && t.line.o.flag && O.Write(t.line.o).1 == None
        && t.line.o.entryLen == FRAME_OFFSET + DATA_OFFSET + |f.payload| && t.con.seqSend == 0
  {
    hide Runs.Run, Runs.AllPossible, SendFrame;
    BothEnableConnects(cfg, partner, size);
    var s := Runs.Run(cfg, Initial(partner, size), BothEnable(partner));
    FirstSend(cfg, s, f);
    Line.SendReturnsAccepted(cfg, s, f, 0);
    Runs.OneMore(cfg, Initial(partner, size), BothEnable(partner), Send(f));
    Line.SecondAcceptDrops(SendFrame(cfg, s, f, 0).0, From(partner, C.EnableResponse));
    assert [] + [f] == [f];
  }

  /** Disabled, the answer delayed beyond a break, and enabled again. */
  const DISABLED_AND_BACK: seq<Event> := [Disable, Break, BreakTimeout, Enable]

  lemma DisabledAndBack(cfg: O.Config, s: State)
    requires s.con.state.Connected? && s.con.ready && C.ValidAddress(s.con.partner) && s.con.partner == s.con.backup
    ensures Runs.AllPossible(cfg, s, DISABLED_AND_BACK)
    ensures var t := Runs.Run(cfg, s, DISABLED_AND_BACK);
      && t.con.state.Connecting? && !t.con.ready && t.con.partner == t.con.backup == s.con.partner && t.line == s.line
  {
    hide Runs.Run, Runs.AllPossible;
    Runs.NoEvents(cfg, s);
    Runs.OneMore(cfg, s, [], Disable);
    assert [] + [Disable] == [Disable];
    Runs.OneMore(cfg, s, [Disable], Break);
    assert [Disable] + [Break] == [Disable, Break];
    Runs.OneMore(cfg, s, [Disable, Break], BreakTimeout);
    assert [Disable, Break] + [BreakTimeout] == [Disable, Break, BreakTimeout];
    Runs.OneMore(cfg, s, [Disable, Break, BreakTimeout], Enable);
    assert [Disable, Break, BreakTimeout] + [Enable] == DISABLED_AND_BACK;
  }

  /**
   The left-over disable response then opens the connection, with the frame of the earlier one still in the buffer.
   */
  lemma LeftOverResponseOpens(cfg: O.Config, partner: byte, size: nat, f: Frame)
    requires O.ValidConfig(cfg) && C.ValidAddress(partner) && Small(cfg, f)
    ensures var es := BothEnable(partner) + [Send(f)] + DISABLED_AND_BACK;
      && Runs.AllPossible(cfg, Initial(partner, size), es)
      && var s := Runs.Run(cfg, Initial(partner, size), es);
        var r := From(partner, C.DisableResponse);
        && !s.con.ready && Line.Opens(s.con, r) && !Resets(s.con, r)
        && ReceiveConnection(s, r).con.state.Connected? && Line.Pending(ReceiveConnection(s, r)) == [f]
  {
    hide Runs.Run, Runs.AllPossible, SendFrame, Content;
    var n := Initial(partner, size);
    BothEnableConnects(cfg, partner, size);
    var c := Runs.Run(cfg, n, BothEnable(partner));
    FirstSend(cfg, c, f);
    Runs.OneMore(cfg, n, BothEnable(partner), Send(f));
    var s := Runs.Run(cfg, n, BothEnable(partner) + [Send(f)]);
    DisabledAndBack(cfg, s);
    Runs.RunOn(cfg, n, BothEnable(partner) + [Send(f)], DISABLED_AND_BACK);
  }
}
