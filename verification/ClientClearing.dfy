/**
  What stays in the outbox: when a packet has been written, at a disconnect, when the user clears it, and when a
  server answers that it has, or has not, kept the session. And CONNECT is there and is sent at most once.
 */
module ClientClearing {
  import opened Bytes
  import opened Constants
  import opened Options
  import opened PacketSpec
  import opened Outbox
  import opened ClientSpec
  import opened ClientRuns
  import opened ClientOrder
  import opened ClientTrace
  import opened ClientPackets
  import opened ClientPubacks
  import ClientLedger
  import ClientLifecycle
  import P = ParserSpec

  /** A packet with an answer still to come. */
  predicate Waiting(p: Item) {
    p.id != 0 && TypeOf(p) in {PUBLISH, PUBREC, PUBREL, SUBSCRIBE, UNSUBSCRIBE}
  }

  /** Part of the session: what QoS 1 and 2 still need after a reconnect. */
  predicate Lasting(p: Item) {
    TypeOf(p) == PUBREC || TypeOf(p) == PUBREL || (TypeOf(p) == PUBLISH && p.id != 0)
  }

  // only the packets with an id that MQTT gives one have one
  predicate Known(p: Item) {
    p.id != 0 ==> TypeOf(p) in {PUBLISH, PUBACK, PUBREC, PUBREL, PUBCOMP, SUBSCRIBE, UNSUBSCRIBE}
  }

  predicate AllKnown(c: Client) {
    forall p :: p in c.queue ==> Known(p)
  }

  lemma MadeKnown(config: Config, a: Action, p: Item)
    requires Made(config, a, p)
    ensures Known(p)
  {
    hide PublishBytes, SubscribeBytes, UnsubscribeBytes;
    match a {
      case DoPublish(topic, payload, qos, retain, _) => PublishStarts(if qos > 0 then p.id else 1, topic, payload, qos, retain);
      case DoSubscribe(items, _) => ClientLedger.FirstBytes(p.id, [], [], 0, false, items, []);
      case DoUnsubscribe(topics, _) => ClientLedger.FirstBytes(p.id, [], [], 0, false, [], topics);
      case _ =>
    }
  }

  lemma {:induction false} RunKnown(config: Config, acts: seq<Action>)
    requires ConfigOk(config) && EnabledRun(Init(config), acts)
    ensures AllKnown(Run(Init(config), acts))
  {
    hide Made, Known;
    RunMade(Init(config), [], acts);
    assert [] + acts == acts;
    forall p | p in Run(Init(config), acts).queue ensures Known(p) {
      var k :| 0 <= k < |acts| && Made(config, acts[k], p);
      MadeKnown(config, acts[k], p);
    }
  }

  // ---- when a packet has been written ----

  /** A packet written to its end stays, marked as a duplicate if it is a PUBLISH, exactly when its answer is still to come. */
  lemma WrittenStays(c: Client, w: nat, now: nat)
    requires Basic(c) && Talking(c) && AllKnown(c) && c.cursor < |c.queue|
    requires c.bytesSent < |c.queue[c.cursor].bytes| <= c.bytesSent + w
    ensures var a := SendAndAdvance(w, now);
            && Enabled(c, a)
            && var d, p, k := Step(c, a), c.queue[c.cursor], c.cursor;
            && d.bytesSent == 0
            && (Waiting(p) ==>
                  && d.cursor == k + 1 && |d.queue| == |c.queue|
                  && (forall i :: 0 <= i < |c.queue| && i != k ==> d.queue[i] == c.queue[i])
                  && d.queue[k].id == p.id && d.queue[k].serial == p.serial && SameButDup(p.bytes, d.queue[k].bytes)
                  && (TypeOf(p) == PUBLISH ==> Dup(d.queue[k])))
            && (!Waiting(p) ==> d.cursor == k && d.queue == Without(c.queue, k))
  {
    hide NonEmpty;
    assert Known(c.queue[c.cursor]);
    var d := SendPacket(c, w, now);
    assert Without(d.queue, c.cursor) == Without(c.queue, c.cursor);
  }

  /** In every run only packets with an answer to come are before the cursor. */
  lemma {:induction false} BeforeCursorWaits(config: Config, acts: seq<Action>, i: nat)
    requires ConfigOk(config) && EnabledRun(Init(config), acts) && i < Run(Init(config), acts).cursor
    ensures var c := Run(Init(config), acts); i < |c.queue| && Waiting(c.queue[i])
  {
    SendOrder(Init(config), acts);
    RunKnown(config, acts);
    var c := Run(Init(config), acts);
    assert Placed(c, i) && c.queue[i] in c.queue;
  }

  // ---- clearing ----

  /** r is q with packets left out. */
  ghost predicate PartOf(r: seq<Item>, q: seq<Item>) {
    exists from :: Picks(r, q, from)
  }

  predicate Picks(r: seq<Item>, q: seq<Item>, from: seq<nat>) {
    |from| == |r| && Increasing(from) && forall i :: 0 <= i < |r| ==> from[i] < |q| && r[i] == q[from[i]]
  }

  lemma ClearPicks(c: Client, level: nat)
    requires c.cursor <= |c.queue|
    ensures PartOf(ClearQueue(c, level).queue, c.queue)
  {
    ClearIsFilter(c, level, 0);
    assert Picks(ClearQueue(c, level).queue, c.queue, Survivors(c.queue, level, 0));
  }

  /** At a disconnect exactly the session stays, in its order. */
  lemma DisconnectKeepsSession(c: Client)
    requires Basic(c) && c.state == DisconnectingTcp2
    ensures Enabled(c, TcpGone)
    ensures var d := Step(c, TcpGone);
            && (forall p :: p in d.queue <==> p in c.queue && Lasting(p)) && PartOf(d.queue, c.queue)
            && d.state == Disconnected && d.bytesSent == 0
            && d.h.notes == c.h.notes + [OnDisconnect(c.reason)]
  {
    hide Kept, NonEmpty;
    KeptFrom(c.queue, 0);
    ClearPicks(c, 0);
    ClientLedger.DisconnectLosesNothing(c.queue);
    assert c.h.notes + [] == c.h.notes;
  }

  /** clearQueue(true) leaves nothing, clearQueue(false) exactly the session. */
  lemma UserClears(c: Client, all: bool)
    requires Basic(c)
    ensures var d := Step(c, DoClearQueue(all));
            && (forall p :: p in d.queue <==> p in c.queue && !all && Lasting(p)) && PartOf(d.queue, c.queue)
            && d == c.(queue := d.queue, cursor := d.cursor, h := d.h)
  {
    hide Kept, NonEmpty;
    KeptFrom(c.queue, if all then 2 else 0);
    ClearPicks(c, if all then 2 else 0);
  }

  // the packet under the cursor has been written to its end; CONNACK finds CONNECT like that
  predicate JustSent(c: Client) {
    c.cursor < |c.queue| && c.bytesSent == |c.queue[c.cursor].bytes|
  }

  /** The server has kept the session: everything stays, but for what was just sent and waits for nothing. */
  lemma SessionKept(c: Client, mem: Memory)
    requires Basic(c) && Enabled(c, Received(P.Connack(1, 0), mem)) && AllKnown(c)
    ensures var d := Step(c, Received(P.Connack(1, 0), mem));
            && (!JustSent(c) ==> d.queue == c.queue && d.cursor == c.cursor && d.bytesSent == c.bytesSent)
            && (JustSent(c) && !Waiting(c.queue[c.cursor]) ==> d.queue == Without(c.queue, c.cursor) && d.cursor == c.cursor && d.bytesSent == 0)
            && (JustSent(c) && Waiting(c.queue[c.cursor]) ==>
                  |d.queue| == |c.queue| && d.cursor == c.cursor + 1 && d.bytesSent == 0
                  && forall i :: 0 <= i < |c.queue| && i != c.cursor ==> d.queue[i] == c.queue[i])
            && d.h.notes == c.h.notes + [OnConnect(true)] && !d.pingSent
  {
    hide NonEmpty;
    if JustSent(c) { assert c.queue[c.cursor] in c.queue && Known(c.queue[c.cursor]); }
  }

  /**
    The server has no session: of what stays with a session exactly the PUBLISH packets are left, QoS 0 included,
    in their order.
   */
  lemma SessionLost(c: Client, mem: Memory)
    requires Basic(c) && Enabled(c, Received(P.Connack(0, 0), mem))
    ensures Enabled(c, Received(P.Connack(1, 0), mem))
    ensures var d, kept := Step(c, Received(P.Connack(0, 0), mem)), Step(c, Received(P.Connack(1, 0), mem)).queue;
            && (forall p :: p in d.queue <==> p in kept && TypeOf(p) == PUBLISH) && PartOf(d.queue, kept)
            && d.h.notes != [] && d.h.notes[|d.h.notes| - 1] == OnConnect(false) && !d.pingSent
  {
    hide Kept, NonEmpty, AdvanceOutbox;
    var c0 := c.(pingSent := false, state := Connected, h := c.h.(connackSeen := true));
    AdvanceCursor(c0);
    var c1 := AdvanceOutbox(c0);
    assert !c1.pingSent by { AdvancePing(c0); }
    KeptFrom(c1.queue, 1);
    ClearPicks(c1, 1);
  }

  lemma AdvancePing(c: Client)
    ensures AdvanceOutbox(c).pingSent == c.pingSent
  {
  }

  // ---- CONNECT ----

  /** CONNECT is queued or has been sent on this connection, once at most; without a connection it is not queued. */
  predicate OneConnect(c: Client) {
    var connect := c.config.connectBytes;
    && Times(c.queue, connect) + TimesIn(c.h.done, connect) <= 1
    && (c.state == Disconnected ==> Times(c.queue, connect) == 0)
    && (forall p :: p in c.queue && TypeOf(p) == CONNECT ==> p.bytes == connect && p.id == 0)
  }

  lemma {:induction false} TimesInAppend(a: seq<seq<byte>>, b: seq<seq<byte>>, bs: seq<byte>)
    ensures TimesIn(a + b, bs) == TimesIn(a, bs) + TimesIn(b, bs)
  {
    if a == [] {
      assert a + b == b;
    } else {
      assert (a + b)[0] == a[0] && (a + b)[1..] == a[1..] + b;
      TimesInAppend(a[1..], b, bs);
    }
  }

  lemma {:induction false} KeptTimes(q: seq<Item>, level: nat, bs: seq<byte>)
    ensures Times(Kept(q, level), bs) <= Times(q, bs)
  {
    if q != [] {
      KeptTimes(q[1..], level, bs);
      TimesAppend(if Keeps(level, q[0]) then [q[0]] else [], Kept(q[1..], level), bs);
      TimesOne(q[0], bs);
    }
  }

  // kinds of what was in the queue before
  lemma ConnectDescends(c: Client, a: Action, p: Item)
    requires Basic(c) && Enabled(c, a) && p in Step(c, a).queue && TypeOf(p) == CONNECT
    requires forall o :: o in c.queue && TypeOf(o) == CONNECT ==> o.bytes == c.config.connectBytes && o.id == 0
    ensures p.bytes == c.config.connectBytes && p.id == 0
  {
    hide Step, Enabled, Made, NonEmpty;
    StepDescends(c, a, p);
    if HasParent(c.queue, p) {
      var i :| 0 <= i < |c.queue| && Descends(c.queue[i], p);
      assert c.queue[i] in c.queue;
      SameKind(c.queue[i], p);
    } else {
      MadeConnect(c.config, a, p);
    }
  }

  lemma SameKind(o: Item, p: Item)
    requires Descends(o, p) && o.bytes != []
    ensures TypeOf(p) == TypeOf(o)
  {
  }

  lemma MadeConnect(config: Config, a: Action, p: Item)
    requires Made(config, a, p) && TypeOf(p) == CONNECT
    ensures p.bytes == config.connectBytes && p.id == 0
  {
    hide PublishBytes, SubscribeBytes, UnsubscribeBytes;
    match a {
      case DoPublish(topic, payload, qos, retain, _) => PublishStarts(if qos > 0 then p.id else 1, topic, payload, qos, retain);
      case DoSubscribe(items, _) => ClientLedger.FirstBytes(p.id, [], [], 0, false, items, []);
      case DoUnsubscribe(topics, _) => ClientLedger.FirstBytes(p.id, [], [], 0, false, [], topics);
      case _ =>
    }
  }

  lemma ConnectFleeting(c: Client)
    requires Basic(c) && OneConnect(c)
    ensures Fleeting(c.queue, c.config.connectBytes)
  {
  }

  // moving a packet from the queue to what has been sent changes nothing
  lemma PassingConnect(c: Client, d: Client)
    requires c.h.done <= d.h.done && Times(c.queue, c.config.connectBytes) ==
             Times(d.queue, c.config.connectBytes) + TimesIn(d.h.done[|c.h.done|..], c.config.connectBytes)
    ensures var bs := c.config.connectBytes; Times(d.queue, bs) + TimesIn(d.h.done, bs) == Times(c.queue, bs) + TimesIn(c.h.done, bs)
  {
    hide Times, TimesIn;
    TimesInAppend(c.h.done, d.h.done[|c.h.done|..], c.config.connectBytes);
    assert d.h.done == c.h.done + d.h.done[|c.h.done|..];
  }

  // how often CONNECT is there after a step
  lemma CountConnect(c: Client, a: Action)
    requires Basic(c) && Enabled(c, a) && OneConnect(c)
    ensures var d, bs := Step(c, a), c.config.connectBytes;
            && Times(d.queue, bs) + TimesIn(d.h.done, bs) <= 1
            && (d.state == Disconnected ==> Times(d.queue, bs) == 0)
  {
    hide Times, TimesIn, ClearQueue, AdvanceOutbox, SendPacket, OnConnack, Apply, NonEmpty, Connect;
    var bs := c.config.connectBytes;
    if Plain(a) {
      PlainStep(c, a);
      PlainStates(c, a);
      ApplyTimes(c, EditFor(c, a), bs);
      NoConnectAdded(c, a);
    } else {
      match a {
        case DoConnect(mem) => FrontConnect(c, mem);
        case DoClearQueue(all) => ClearConnect(c, if all then 2 else 0);
        case TcpGone =>
          ClearConnect(c, 0);
          TimesInOne([], bs);
        case SendOnly(w, now) =>
          SendTimes(c, w, now, bs);
          SendBasic(c, w, now);
        case SendAndAdvance(w, now) => PumpConnect(c, w, now);
        case Received(e, _) => ConnackConnect(c, a);
        case Timeout(now) =>
      }
    }
  }

  lemma NoConnectAdded(c: Client, a: Action)
    requires Basic(c) && Plain(a) && Enabled(c, a)
    ensures AddTimes(EditFor(c, a), c.config.connectBytes) == 0
  {
    hide EditFor, Made, Enabled;
    var e := EditFor(c, a);
    if e.add.Some? && e.add.value.bytes == c.config.connectBytes {
      var p := Item(e.add.value.bytes, e.add.value.id, 0, 0, false);
      EditMade(c, a, p);
      PlainMakesNoConnect(c.config, a, p);
    }
  }

  lemma PlainMakesNoConnect(config: Config, a: Action, p: Item)
    requires Plain(a) && Made(config, a, p)
    ensures TypeOf(p) != CONNECT
  {
    hide PublishBytes, SubscribeBytes, UnsubscribeBytes;
    match a {
      case DoPublish(topic, payload, qos, retain, _) => PublishStarts(if qos > 0 then p.id else 1, topic, payload, qos, retain);
      case DoSubscribe(items, _) => ClientLedger.FirstBytes(p.id, [], [], 0, false, items, []);
      case DoUnsubscribe(topics, _) => ClientLedger.FirstBytes(p.id, [], [], 0, false, [], topics);
      case _ =>
    }
  }

  lemma FrontConnect(c: Client, mem: Memory)
    requires Basic(c) && OneConnect(c)
    ensures var d, bs := Connect(c, mem), c.config.connectBytes;
            && Times(d.queue, bs) + TimesIn(d.h.done, bs) <= 1
            && (d.state == Disconnected ==> Times(d.queue, bs) == 0)
  {
    var d := Connect(c, mem);
    if d.queue != c.queue { assert d.queue[1..] == c.queue; }
  }

  lemma ClearConnect(c: Client, level: nat)
    requires Basic(c)
    ensures var d, bs := ClearQueue(c, level), c.config.connectBytes;
            && Times(d.queue, bs) <= Times(c.queue, bs) && (level == 0 ==> Times(d.queue, bs) == 0)
            && d.h.done == c.h.done && d.state == c.state
  {
    KeptTimes(c.queue, level, c.config.connectBytes);
    KeptFrom(c.queue, level);
    if level == 0 { TimesNone(Kept(c.queue, 0), c.config.connectBytes); }
  }

  lemma PumpConnect(c: Client, w: nat, now: nat)
    requires Basic(c) && Talking(c) && OneConnect(c)
    ensures var d, bs := Pump(c, w, now), c.config.connectBytes;
            Times(d.queue, bs) + TimesIn(d.h.done, bs) <= 1 && d.state != Disconnected
  {
    hide Times, TimesIn, SendPacket, AdvanceOutbox;
    ConnectFleeting(c);
    PumpTimes(c, w, now, c.config.connectBytes);
    PassingConnect(c, Pump(c, w, now));
    SendBasic(c, w, now);
    ClientLifecycle.AdvanceState(SendPacket(c, w, now));
  }

  lemma ConnackConnect(c: Client, a: Action)
    requires Basic(c) && Enabled(c, a) && OneConnect(c) && a.Received? && a.e.Connack?
    ensures var d, bs := Step(c, a), c.config.connectBytes;
            Times(d.queue, bs) + TimesIn(d.h.done, bs) <= 1 && d.state != Disconnected
  {
    hide Times, TimesIn, AdvanceOutbox, ClearQueue;
    if a.e.returnCode == 0 {
      var c0 := c.(pingSent := false, state := Connected, h := c.h.(connackSeen := true));
      ConnectFleeting(c);
      AdvanceTimes(c0, c.config.connectBytes);
      PassingConnect(c0, AdvanceOutbox(c0));
      AdvanceBasic(c0);
      ClientLifecycle.AdvanceState(c0);
      ClearConnect(AdvanceOutbox(c0), 1);
    }
  }

  lemma StepOneConnect(c: Client, a: Action)
    requires Basic(c) && Enabled(c, a) && OneConnect(c)
    ensures OneConnect(Step(c, a))
  {
    hide Step, Enabled, Times, TimesIn, NonEmpty;
    StepBasic(c, a);
    CountConnect(c, a);
    forall p | p in Step(c, a).queue && TypeOf(p) == CONNECT ensures p.bytes == c.config.connectBytes && p.id == 0 { ConnectDescends(c, a, p); }
  }

  lemma {:induction false} RunOneConnect(c: Client, acts: seq<Action>)
    requires Basic(c) && EnabledRun(c, acts) && OneConnect(c)
    ensures OneConnect(Run(c, acts))
    decreases |acts|
  {
    hide Step, Enabled, Basic, OneConnect;
    if acts != [] {
      StepOneConnect(c, acts[0]);
      StepBasic(c, acts[0]);
      RunOneConnect(Step(c, acts[0]), acts[1..]);
    }
  }

  /** In every run CONNECT is queued at most once, and sent at most once on a connection. */
  lemma {:induction false} ConnectOnce(config: Config, acts: seq<Action>)
    requires ConfigOk(config) && EnabledRun(Init(config), acts)
    ensures OneConnect(Run(Init(config), acts))
  {
    RunOneConnect(Init(config), acts);
  }
}
