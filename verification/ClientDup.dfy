/**
  The retransmission flag. Section 3.3.1.1 of MQTT 3.1.1 wants DUP on a PUBLISH exactly when it is sent again; the
  client sets it once it takes the packet for written, and is wrong about that in exactly the steps of `Misleads`.
 */
module ClientDup {
  import opened Bytes
  import opened Constants
  import opened Options
  import opened PacketSpec
  import opened Outbox
  import opened ClientSpec
  import opened ClientRuns
  import opened ClientFraming
  import ClientLedger
  import opened ClientOrder
  import opened ClientTrace
  import P = ParserSpec

  // DUP on a QoS > 0 PUBLISH exactly when it was once written from its first byte to its last
  predicate Flagged(p: Item) {
    Pub(p) && p.id != 0 ==> (Dup(p) <==> p.whole)
  }

  predicate DupExact(c: Client) {
    forall i :: 0 <= i < |c.queue| ==> Flagged(c.queue[i])
  }

  // a QoS > 0 PUBLISH without the flag
  predicate Unmarked(p: Item) {
    Pub(p) && p.id != 0 && !Dup(p)
  }

  // the transport takes all that is left of a current packet that is still unmarked
  predicate Finishes(c: Client, w: nat) {
    Available(c) > 0 && w >= Available(c) && Unmarked(c.queue[c.cursor])
  }

  /**
    The steps that make a flag wrong: passing an unmarked PUBLISH some of whose first bytes were never written,
    because they were counted for a packet that is gone, or writing one to its end before CONNACK, when the outbox
    does not advance.
   */
  predicate Misleads(c: Client, a: Action)
    requires c.cursor <= |c.queue|
  {
    match a
    case SendAndAdvance(w, _) => Finishes(c, w) && !FromStart(c)
    case SendOnly(w, _) => Finishes(c, w) && FromStart(c)
    case Received(Connack(_, returnCode), _) =>
      returnCode == 0 && c.cursor < |c.queue| && c.bytesSent == |c.queue[c.cursor].bytes| && Unmarked(c.queue[c.cursor])
    case _ => false
  }

  // ---- primitives ----

  lemma Among(c: Client, d: Client)
    requires DupExact(c) && forall p :: p in d.queue ==> p in c.queue
    ensures DupExact(d)
  {
    forall i | 0 <= i < |d.queue| ensures Flagged(d.queue[i]) { assert d.queue[i] in c.queue; }
  }

  // a packet that is created now, and not as a PUBLISH with the flag
  predicate FreshBytes(add: Option<New>) {
    add.Some? ==> add.value.bytes != [] && (Kind(add.value.bytes[0]) == PUBLISH ==> !DupBit(add.value.bytes[0]))
  }

  lemma EditFresh(c: Client, a: Action)
    requires Plain(a) && Enabled(c, a)
    ensures FreshBytes(EditFor(c, a).add)
  {
    if a.Received? {
      AnswerFresh(c, a);
    } else {
      RequestFresh(c, a);
    }
  }

  lemma AnswerFresh(c: Client, a: Action)
    requires Plain(a) && Enabled(c, a) && a.Received?
    ensures FreshBytes(EditFor(c, a).add)
  {
    hide FirstOf, FirstWith, FirstId, AckBytes;
    if a.e.Publish? || a.e.Ack? {
      ClientLedger.AckFirstByte(PUBACK, a.e.id);
      ClientLedger.AckFirstByte(PUBREC, a.e.id);
      ClientLedger.AckFirstByte(PUBREL, a.e.id);
      ClientLedger.AckFirstByte(PUBCOMP, a.e.id);
    }
  }

  lemma RequestFresh(c: Client, a: Action)
    requires Plain(a) && Enabled(c, a) && !a.Received?
    ensures FreshBytes(EditFor(c, a).add)
  {
    hide Elapsed, NextPacketId, PublishHeader, Padded;
    var id := NextPacketId(c.packetId);
    match a {
      case DoPublish(topic, payload, qos, retain, _) =>
        PublishFresh(id, topic, payload, qos, retain);
        PublishFresh(1, topic, payload, 0, retain);
      case DoSubscribe(items, _) => ClientLedger.FirstBytes(id, [], [], 0, false, items, []);
      case DoUnsubscribe(topics, _) => ClientLedger.FirstBytes(id, [], [], 0, false, [], topics);
      case _ =>
    }
  }

  lemma PublishFresh(id: nat, topic: seq<byte>, payload: seq<byte>, qos: nat, retain: bool)
    requires id < 65536 && qos <= 2
    ensures var bytes := PublishBytes(id, topic, payload, qos, retain); bytes != [] && !DupBit(bytes[0])
  {
    assert PublishBytes(id, topic, payload, qos, retain)[0] == PublishFirstByte(qos, retain);
  }

  lemma ApplyFlags(c: Client, e: Edit)
    requires DupExact(c) && (e.remove.Some? ==> e.remove.value < |c.queue|)
    requires FreshBytes(e.add)
    ensures DupExact(Apply(c, e))
  {
    var c1 := AppendNew(c, e.add);
    assert DupExact(c1);
    Among(c1, Apply(c, e));
  }

  lemma ClearFlags(c: Client, level: nat)
    requires DupExact(c) && c.cursor <= |c.queue|
    ensures DupExact(ClearQueue(c, level))
  {
    KeptFrom(c.queue, level);
    Among(c, ClearQueue(c, level));
  }

  lemma SendFlags(c: Client, w: nat, now: nat)
    requires DupExact(c)
    ensures var d := SendPacket(c, w, now);
            && |d.queue| == |c.queue| && d.cursor == c.cursor
            && (DupExact(d) <==> !(Finishes(c, w) && FromStart(c)))
            && (forall i :: 0 <= i < |d.queue| && i != d.cursor ==> Flagged(d.queue[i]))
  {
    var d := SendPacket(c, w, now);
    if Available(c) > 0 {
      assert Flagged(c.queue[c.cursor]);
      assert Flagged(d.queue[c.cursor]) <==> !(Finishes(c, w) && FromStart(c));
    }
  }

  // advancing sets the flag of the current packet, and leaves it out when it can be removed
  lemma AdvanceFlags(c: Client)
    requires forall i :: 0 <= i < |c.queue| && i != c.cursor ==> Flagged(c.queue[i])
    requires c.cursor < |c.queue| && c.bytesSent == |c.queue[c.cursor].bytes|
    ensures var p := c.queue[c.cursor];
            DupExact(AdvanceOutbox(c)) <==> (Pub(p) && p.id != 0 ==> p.whole)
  {
    var k, p, d := c.cursor, c.queue[c.cursor], AdvanceOutbox(c);
    hide Dup, SetDup, Removable;
    if p.id == 0 || !Pub(p) { NeverMarked(p); } else { Marked(p); }
    if Removable(p) {
      assert forall i :: 0 <= i < |d.queue| ==> d.queue[i] == c.queue[if i < k then i else i + 1];
    } else {
      assert d.queue[k] == SetDup(p);
    }
  }

  lemma Marked(p: Item)
    requires Pub(p) && p.id != 0
    ensures !Removable(p) && (Flagged(SetDup(p)) <==> p.whole)
  {
  }

  lemma NeverMarked(p: Item)
    requires !(Pub(p) && p.id != 0)
    ensures SetDup(p) == p && Flagged(p)
  {
  }

  lemma PumpFlags(c: Client, w: nat, now: nat)
    requires DupExact(c) && c.cursor <= |c.queue|
    ensures DupExact(Pump(c, w, now)) <==> !(Finishes(c, w) && !FromStart(c))
  {
    var s := SendPacket(c, w, now);
    SendFlags(c, w, now);
    if Available(c) > 0 && w >= Available(c) {
      var p := c.queue[c.cursor];
      assert Flagged(p);
      AdvanceFlags(s);
      FinishedIs(c, w, now);
      hide SendPacket, AdvanceOutbox, Flagged, DupExact;
    }
  }

  lemma FinishedIs(c: Client, w: nat, now: nat)
    requires Available(c) > 0 && w >= Available(c)
    ensures var p, q := c.queue[c.cursor], SendPacket(c, w, now).queue[c.cursor];
            q.bytes == p.bytes && q.id == p.id && (q.whole <==> p.whole || FromStart(c))
    ensures Pump(c, w, now) == AdvanceOutbox(SendPacket(c, w, now))
  {
  }

  lemma ConnackFlags(c: Client, a: Action)
    requires DupExact(c) && Basic(c) && Enabled(c, a) && a.Received? && a.e.Connack?
    ensures DupExact(Step(c, a)) <==> !Misleads(c, a)
  {
    if a.e.returnCode == 0 {
      var c0 := c.(pingSent := false, state := Connected, h := c.h.(connackSeen := true));
      var c1 := AdvanceOutbox(c0);
      AdvanceCursor(c0);
      if c.cursor < |c.queue| && c.bytesSent == |c.queue[c.cursor].bytes| {
        AdvanceFlags(c0);
        assert Flagged(c.queue[c.cursor]);
      }
      hide AdvanceOutbox;
      if a.e.sessionPresent == 0 { WrongStays(c1); }
    }
  }

  // clearing for a new session keeps every PUBLISH, with its flag right or wrong
  lemma WrongStays(c: Client)
    requires c.cursor <= |c.queue|
    ensures DupExact(ClearQueue(c, 1)) <==> DupExact(c)
  {
    if DupExact(c) {
      ClearFlags(c, 1);
    } else {
      var i :| 0 <= i < |c.queue| && !Flagged(c.queue[i]);
      KeptFrom(c.queue, 1);
      assert c.queue[i] in Kept(c.queue, 1);
    }
  }

  /** One step makes a flag wrong if and only if it is one of those that mislead. */
  lemma StepDup(c: Client, a: Action)
    requires Basic(c) && Enabled(c, a) && DupExact(c)
    ensures DupExact(Step(c, a)) <==> !Misleads(c, a)
  {
    hide DupExact, ClearQueue, AdvanceOutbox, SendPacket, OnConnack, Apply, Flagged, Pump;
    if Plain(a) {
      PlainStep(c, a);
      EditFresh(c, a);
      ApplyFlags(c, EditFor(c, a));
      SameFlags(Apply(c, EditFor(c, a)), Step(c, a));
    } else {
      match a {
        case DoConnect(mem) => ConnectFlags(c, mem);
        case DoClearQueue(all) => ClearFlags(c, if all then 2 else 0);
        case TcpGone =>
          ClearFlags(c, 0);
          SameFlags(ClearQueue(c, 0), Step(c, a));
        case SendOnly(w, now) => SendFlags(c, w, now);
        case SendAndAdvance(w, now) => PumpFlags(c, w, now);
        case Received(e, _) => ConnackFlags(c, a);
        case Timeout(now) => SameFlags(c, Step(c, a));
      }
    }
  }

  lemma SameFlags(c: Client, d: Client)
    requires d.queue == c.queue
    ensures DupExact(d) <==> DupExact(c)
  {
  }

  lemma ConnectFlags(c: Client, mem: Memory)
    requires DupExact(c) && ConfigOk(c.config)
    ensures DupExact(Connect(c, mem))
  {
    var d := Connect(c, mem);
    forall i | 0 <= i < |d.queue| ensures Flagged(d.queue[i]) {
      if d.queue != c.queue && i > 0 { assert d.queue[i] == c.queue[i - 1]; }
    }
  }

  // ---- runs ----

  predicate Unmisled(c: Client, acts: seq<Action>)
    requires EnabledRun(c, acts)
    decreases |acts|
  {
    acts == [] || (!Misleads(c, acts[0]) && Unmisled(Step(c, acts[0]), acts[1..]))
  }

  predicate ExactThroughout(c: Client, acts: seq<Action>)
    requires EnabledRun(c, acts)
    decreases |acts|
  {
    DupExact(c) && (acts == [] || ExactThroughout(Step(c, acts[0]), acts[1..]))
  }

  /** The flags are right all through a run if and only if none of its steps misleads. */
  lemma {:induction false} DupInRuns(c: Client, acts: seq<Action>)
    requires EnabledRun(c, acts) && Basic(c) && DupExact(c)
    ensures ExactThroughout(c, acts) <==> Unmisled(c, acts)
    ensures Unmisled(c, acts) ==> DupExact(Run(c, acts))
    decreases |acts|
  {
    hide Step, Enabled, DupExact, Misleads, Basic;
    if acts != [] {
      assert c.cursor <= |c.queue| by { assert EnabledRun(c, acts); }
      StepDup(c, acts[0]);
      StepBasic(c, acts[0]);
      if !Misleads(c, acts[0]) {
        DupInRuns(Step(c, acts[0]), acts[1..]);
      } else {
        NotThroughout(Step(c, acts[0]), acts[1..]);
      }
    }
  }

  lemma NotThroughout(c: Client, acts: seq<Action>)
    requires EnabledRun(c, acts) && !DupExact(c)
    ensures !ExactThroughout(c, acts)
  {
  }

  // before CONNACK the packet under the cursor is CONNECT, and what counts as its bytes is its own
  lemma GatedUnmisled(c: Client, a: Action)
    requires Basic(c) && Enabled(c, a) && Gated(c) && Traced(c) && Own(c) && DupExact(c)
    ensures !Misleads(c, a)
  {
    hide DupExact, Located, Apart;
    if c.cursor < |c.queue| {
      assert Flagged(c.queue[c.cursor]) by { assert DupExact(c); FlaggedAt(c, c.cursor); }
      LocatedAt(c, c.cursor);
    }
  }

  lemma FlaggedAt(c: Client, i: nat)
    requires DupExact(c) && i < |c.queue|
    ensures Flagged(c.queue[i])
  {
  }

  lemma LocatedAt(c: Client, i: nat)
    requires Traced(c) && i < |c.queue|
    ensures c.bytesSent == |c.queue[i].bytes| > 0 && c.queue[i].serial == c.h.started ==> c.queue[i].whole
  {
    assert Located(c, i);
  }

  /** DUP is exact throughout every run that tears no packet and in which the user does not clear the queue. */
  lemma {:induction false} DupUntilCleared(c: Client, acts: seq<Action>)
    requires EnabledRun(c, acts) && Basic(c) && DupExact(c) && Gated(c) && Traced(c) && Own(c) && Untorn(c, acts)
    requires forall a :: a in acts ==> !a.DoClearQueue?
    ensures DupExact(Run(c, acts)) && ExactThroughout(c, acts)
    decreases |acts|
  {
    hide Step, Enabled, DupExact, Tears, Misleads, Gated, Traced, Own;
    if acts != [] {
      assert acts[0] in acts;
      GatedUnmisled(c, acts[0]);
      StepDup(c, acts[0]);
      StepTraced(c, acts[0]);
      StepOwn(c, acts[0]);
      StepGated(c, acts[0]);
      StepBasic(c, acts[0]);
      DupUntilCleared(Step(c, acts[0]), acts[1..]);
    }
  }
}
