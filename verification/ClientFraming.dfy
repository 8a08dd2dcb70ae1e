/**
  What goes over the wire: whole packets, one after the other, and the part of the current one that
  `bytesSent` tells; and before CONNACK nothing but the CONNECT packet.
 */
module ClientFraming {
  import opened Bytes
  import opened Constants
  import opened Options
  import opened PacketSpec
  import opened Outbox
  import opened ClientSpec
  import opened ClientRuns
  import P = ParserSpec

  function CurrentPrefix(c: Client): seq<byte>
    requires c.cursor < |c.queue| ==> c.bytesSent <= |c.queue[c.cursor].bytes|
  {
    if c.cursor < |c.queue| then c.queue[c.cursor].bytes[..c.bytesSent] else []
  }

  /** The connection has carried completed packets, then exactly the first `bytesSent` bytes of the current one. */
  predicate Framed(c: Client) {
    && c.bytesSent <= (if c.cursor < |c.queue| then |c.queue[c.cursor].bytes| else 0)
    && c.h.wire == Flatten(c.h.done) + CurrentPrefix(c)
  }

  // the queue position and sending state a clearing step starts from: CONNACK advances first
  function BeforeClear(c: Client, a: Action): Client {
    if a.Received? && a.e.Connack? then AdvanceOutbox(c.(pingSent := false, state := Connected, h := c.h.(connackSeen := true))) else c
  }

  /** The step takes away the current packet when part of it is already written. */
  predicate Tears(c: Client, a: Action)
    requires c.cursor <= |c.queue| && Enabled(c, a)
  {
    if Plain(a) then c.bytesSent > 0 && EditFor(c, a).remove == Some(c.cursor)
    else
      match a
      case DoClearQueue(all) => TornBy(c, if all then 2 else 0)
      case Received(e, _) => e.returnCode == 0 && e.sessionPresent == 0 && TornBy(BeforeClear(c, a), 1)
      case _ => false
  }

  predicate TornBy(c: Client, level: nat) {
    c.bytesSent > 0 && c.cursor < |c.queue| && !Keeps(level, c.queue[c.cursor])
  }

  // the packet that comes next happens to start with the bytes already written of the torn one
  predicate SamePrefix(torn: seq<byte>, d: Client) {
    d.cursor < |d.queue| && d.bytesSent <= |d.queue[d.cursor].bytes| && d.bytesSent <= |torn| &&
    d.queue[d.cursor].bytes[..d.bytesSent] == torn[..d.bytesSent]
  }

  // ---- primitives ----

  lemma AppendFramed(c: Client, add: Option<New>)
    requires Framed(c) && c.cursor <= |c.queue|
    ensures Framed(AppendNew(c, add))
    ensures c.cursor < |c.queue| ==> AppendNew(c, add).queue[c.cursor] == c.queue[c.cursor]
  {
  }

  lemma ApplyFramed(c: Client, e: Edit)
    requires Framed(c) && c.cursor <= |c.queue| && (e.remove.Some? ==> e.remove.value < |c.queue|)
    ensures !(c.bytesSent > 0 && e.remove == Some(c.cursor)) ==> Framed(Apply(c, e))
    ensures c.bytesSent > 0 && e.remove == Some(c.cursor) ==>
              (Framed(Apply(c, e)) <==> SamePrefix(c.queue[c.cursor].bytes, Apply(c, e)))
  {
    AppendFramed(c, e.add);
    var c1, d := AppendNew(c, e.add), Apply(c, e);
    if e.remove.Some? {
      CursorNeighbours(c1.queue, e.remove.value, c1.cursor);
      if c.bytesSent > 0 && e.remove.value == c.cursor {
        PrefixDecides(c1, d);
      }
    }
  }

  // with the same bytes on the wire, being framed means that the new current packet starts alike
  lemma PrefixDecides(c: Client, d: Client)
    requires Framed(c) && c.bytesSent > 0 && c.cursor < |c.queue|
    requires d.bytesSent == c.bytesSent && d.h.wire == c.h.wire && d.h.done == c.h.done
    ensures Framed(d) <==> SamePrefix(c.queue[c.cursor].bytes, d)
  {
    var n := |Flatten(c.h.done)|;
    assert c.h.wire[n..] == c.queue[c.cursor].bytes[..c.bytesSent];
    if Framed(d) { assert d.h.wire[n..] == CurrentPrefix(d); }
  }

  lemma AdvanceFramed(c: Client)
    requires Framed(c) && Basic(c)
    ensures Framed(AdvanceOutbox(c))
  {
    if c.cursor < |c.queue| && c.bytesSent == |c.queue[c.cursor].bytes| {
      var p := c.queue[c.cursor];
      FlattenAppend(c.h.done, p.bytes);
      assert p.bytes[..c.bytesSent] == p.bytes;
    }
  }

  lemma SendFramed(c: Client, w: nat, now: nat)
    requires Framed(c)
    ensures Framed(SendPacket(c, w, now))
  {
    if Available(c) > 0 {
      var bytes, n := c.queue[c.cursor].bytes, Min(w, Available(c));
      assert bytes[..c.bytesSent] + bytes[c.bytesSent..c.bytesSent + n] == bytes[..c.bytesSent + n];
      Assoc(Flatten(c.h.done), bytes[..c.bytesSent], bytes[c.bytesSent..c.bytesSent + n]);
    }
  }

  lemma {:induction false} KeptAt(q: seq<Item>, cursor: nat, level: nat)
    requires cursor < |q| && Keeps(level, q[cursor])
    ensures var k := |Kept(q[..cursor], level)|; k < |Kept(q, level)| && Kept(q, level)[k] == q[cursor]
  {
    KeptSplit(q, cursor, level);
    assert q[cursor..][0] == q[cursor];
    assert Kept(q[cursor..], level)[0] == q[cursor];
  }

  lemma ClearFramed(c: Client, level: nat)
    requires Framed(c) && Basic(c)
    ensures !TornBy(c, level) ==> Framed(ClearQueue(c, level))
    ensures TornBy(c, level) ==> (Framed(ClearQueue(c, level)) <==> SamePrefix(c.queue[c.cursor].bytes, ClearQueue(c, level)))
  {
    hide Kept, Losses;
    ClearBasic(c, level);
    var d := ClearQueue(c, level);
    if TornBy(c, level) {
      PrefixDecides(c, d);
    } else if c.cursor < |c.queue| && Keeps(level, c.queue[c.cursor]) {
      KeptAt(c.queue, c.cursor, level);
    }
  }

  // ---- steps ----

  lemma ConnackFramed(c: Client, a: Action)
    requires Basic(c) && Enabled(c, a) && Framed(c) && a.Received? && a.e.Connack?
    ensures !Tears(c, a) ==> Framed(Step(c, a))
    ensures Tears(c, a) ==> (Framed(Step(c, a)) <==> SamePrefix(BeforeClear(c, a).queue[BeforeClear(c, a).cursor].bytes, Step(c, a)))
  {
    hide ClearQueue, AdvanceOutbox, Framed, SamePrefix;
    if a.e.returnCode == 0 {
      var c0 := c.(pingSent := false, state := Connected, h := c.h.(connackSeen := true));
      SameBytes(c, c0, []);
      AdvanceFramed(c0);
      AdvanceBasic(c0);
      var c1 := AdvanceOutbox(c0);
      ClearFramed(c1, 1);
      ClearBasic(c1, 1);
      var d := if a.e.sessionPresent == 0 then ClearQueue(c1, 1) else c1;
      SameBytes(d, Step(c, a), if c1.cursor < |c1.queue| then c1.queue[c1.cursor].bytes else []);
    } else {
      SameBytes(c, Step(c, a), []);
    }
  }

  lemma SameBytes(c: Client, d: Client, torn: seq<byte>)
    requires d.queue == c.queue && d.cursor == c.cursor && d.bytesSent == c.bytesSent && d.h.wire == c.h.wire && d.h.done == c.h.done
    ensures Framed(c) <==> Framed(d)
    ensures SamePrefix(torn, c) <==> SamePrefix(torn, d)
  {
  }

  /**
    One step keeps the framing unless it tears the packet being written, and then it is kept only by the
    accident that the next packet starts with the same bytes.
   */
  lemma StepFramed(c: Client, a: Action)
    requires Basic(c) && Enabled(c, a) && Framed(c)
    ensures !Tears(c, a) ==> Framed(Step(c, a))
    ensures Tears(c, a) ==> (Framed(Step(c, a)) <==> SamePrefix(BeforeClear(c, a).queue[BeforeClear(c, a).cursor].bytes, Step(c, a)))
  {
    hide Step, Apply, Framed, ClearQueue, AdvanceOutbox, CurrentPrefix;
    if Plain(a) {
      PlainStep(c, a);
      ApplyFramed(c, EditFor(c, a));
      SameFraming(Apply(c, EditFor(c, a)), Step(c, a), if c.cursor < |c.queue| then c.queue[c.cursor].bytes else []);
    } else if a.Received? {
      ConnackFramed(c, a);
    } else {
      SendingFramed(c, a);
    }
  }

  lemma SameFraming(c: Client, d: Client, torn: seq<byte>)
    requires SameCore(c, d)
    ensures Framed(c) <==> Framed(d)
    ensures SamePrefix(torn, c) <==> SamePrefix(torn, d)
  {
  }

  lemma SendingFramed(c: Client, a: Action)
    requires Basic(c) && Enabled(c, a) && Framed(c) && !Plain(a) && !a.Received?
    ensures !Tears(c, a) ==> Framed(Step(c, a))
    ensures Tears(c, a) ==> (Framed(Step(c, a)) <==> SamePrefix(c.queue[c.cursor].bytes, Step(c, a)))
  {
    hide ClearQueue, AdvanceOutbox, SendPacket, OnConnack, Flatten, SamePrefix;
    match a {
      case DoConnect(mem) =>
        FlattenNothing();
        hide TypeOf;
      case DoClearQueue(all) => ClearFramed(c, if all then 2 else 0);
      case TcpGone =>
        FlattenNothing();
        ClearBasic(c, 0);
      case SendOnly(w, now) => SendFramed(c, w, now);
      case SendAndAdvance(w, now) =>
        SendFramed(c, w, now);
        SendBasic(c, w, now);
        AdvanceFramed(SendPacket(c, w, now));
      case Timeout(now) =>
    }
  }

  lemma FlattenNothing()
    ensures Flatten<byte>([]) == []
  {
  }

  /** No step of the run takes away a packet that is partly written. */
  predicate Untorn(c: Client, acts: seq<Action>)
    requires EnabledRun(c, acts)
    decreases |acts|
  {
    acts == [] || (!Tears(c, acts[0]) && Untorn(Step(c, acts[0]), acts[1..]))
  }

  lemma {:induction false} RunFramed(c: Client, acts: seq<Action>)
    requires EnabledRun(c, acts) && Basic(c) && Framed(c) && Untorn(c, acts)
    ensures Framed(Run(c, acts))
    decreases |acts|
  {
    hide Step, Enabled, Framed, Tears, Basic;
    if acts != [] {
      assert c.cursor <= |c.queue|;
      StepFramed(c, acts[0]);
      StepBasic(c, acts[0]);
      RunFramed(Step(c, acts[0]), acts[1..]);
    }
  }

  /** Framing: in every run that tears no packet, whatever the transport takes per write. */
  lemma {:induction false} Framing(config: Config, acts: seq<Action>)
    requires ConfigOk(config) && EnabledRun(Init(config), acts) && Untorn(Init(config), acts)
    ensures Framed(Run(Init(config), acts))
  {
    RunFramed(Init(config), acts);
  }

  // ---- before CONNACK ----

  /** From connect() to CONNACK: CONNECT is in front and current, and the wire carries what was sent of it. */
  predicate Gated(c: Client) {
    !c.h.connackSeen && c.state != Disconnected ==>
      && c.cursor == 0 && c.queue != [] && c.queue[0].bytes == c.config.connectBytes
      && c.bytesSent <= |c.config.connectBytes| && c.h.wire == c.config.connectBytes[..c.bytesSent]
  }

  lemma StepGated(c: Client, a: Action)
    requires Basic(c) && Enabled(c, a) && Gated(c) && !a.DoClearQueue?
    ensures Gated(Step(c, a))
  {
    if Plain(a) {
      PlainGated(c, a);
    } else {
      hide AdvanceOutbox, ClearQueue, SendPacket, Connect, OnConnack, Elapsed;
      StepBasic(c, a);
      match a {
        case DoConnect(mem) => ConnectGated(c, mem);
        case SendOnly(w, now) => SendGated(c, w, now);
        case SendAndAdvance(w, now) => SendBasic(c, w, now);
        case Received(e, _) => ConnackGated(c, e.sessionPresent, e.returnCode);
        case _ =>
      }
    }
  }

  lemma ConnectGated(c: Client, mem: Memory)
    requires Basic(c) && Gated(c)
    ensures Gated(Connect(c, mem))
  {
  }

  lemma SendGated(c: Client, w: nat, now: nat)
    requires Basic(c) && Gated(c)
    ensures Gated(SendPacket(c, w, now))
  {
    var bytes, n := c.config.connectBytes, Min(w, Available(c));
    assert c.bytesSent + n <= |bytes| ==> bytes[..c.bytesSent] + bytes[c.bytesSent..c.bytesSent + n] == bytes[..c.bytesSent + n];
  }

  lemma ConnackGated(c: Client, sessionPresent: byte, returnCode: byte)
    requires c.cursor <= |c.queue|
    ensures OnConnack(c, sessionPresent, returnCode).h.connackSeen
  {
  }

  lemma PlainGated(c: Client, a: Action)
    requires Basic(c) && Enabled(c, a) && Gated(c) && Plain(a)
    ensures Gated(Step(c, a))
  {
    hide Step, Enabled, EditFor;
    PlainStep(c, a);
    PlainStates(c, a);
    StepBasic(c, a);
    if !c.h.connackSeen && c.state != Disconnected { GatedEdit(c, a); }
  }

  // before CONNACK nothing is removed
  lemma GatedEdit(c: Client, a: Action)
    requires Basic(c) && Plain(a) && Enabled(c, a) && !c.h.connackSeen && c.state != Disconnected
    ensures EditFor(c, a).remove == None
  {
    hide Response, Elapsed;
  }

  /** The CONNACK gate, in every run in which the user does not clear the queue. */
  lemma {:induction false} ConnackGate(c: Client, acts: seq<Action>)
    requires EnabledRun(c, acts) && Basic(c) && Gated(c)
    requires forall a :: a in acts ==> !a.DoClearQueue?
    ensures Gated(Run(c, acts))
    ensures var d := Run(c, acts); !d.h.connackSeen && d.state != Disconnected ==> d.h.wire <= d.config.connectBytes
    decreases |acts|
  {
    hide Step, Enabled, Basic;
    if acts != [] {
      assert acts[0] in acts;
      assert c.cursor <= |c.queue|;
      StepGated(c, acts[0]);
      StepBasic(c, acts[0]);
      ConnackGate(Step(c, acts[0]), acts[1..]);
    }
  }
}
