/** Runs of the client machine, and what every step keeps about its fields. */
module ClientRuns {
  import opened Bytes
  import opened Constants
  import opened Options
  import opened PacketSpec
  import opened Outbox
  import opened ClientSpec
  import P = ParserSpec

  predicate NonEmpty(q: seq<Item>) {
    forall i :: 0 <= i < |q| ==> q[i].bytes != []
  }

  predicate ConfigOk(config: Config) {
    config.connectBytes != [] && Kind(config.connectBytes[0]) == CONNECT
  }

  predicate Basic(c: Client) {
    && c.cursor <= |c.queue| && NonEmpty(c.queue) && ConfigOk(c.config)
    && (4 <= Number(c.state) <= 6 ==> c.h.connackSeen)
    && (1 <= Number(c.state) <= 3 ==> !c.h.connackSeen)
    && (Number(c.state) <= 2 ==> c.bytesSent == 0)
  }

  predicate EnabledRun(c: Client, acts: seq<Action>)
    decreases |acts|
  {
    acts == [] || (c.cursor <= |c.queue| && Enabled(c, acts[0]) && EnabledRun(Step(c, acts[0]), acts[1..]))
  }

  function Run(c: Client, acts: seq<Action>): Client
    requires EnabledRun(c, acts)
    decreases |acts|
  {
    if acts == [] then c else Run(Step(c, acts[0]), acts[1..])
  }

  lemma {:induction false} RunAppend(c: Client, a: seq<Action>, b: seq<Action>)
    requires EnabledRun(c, a) && EnabledRun(Run(c, a), b)
    ensures EnabledRun(c, a + b) && Run(c, a + b) == Run(Run(c, a), b)
    decreases |a|
  {
    hide Step, Enabled;
    if a == [] {
      assert a + b == b;
    } else {
      assert (a + b)[0] == a[0] && (a + b)[1..] == a[1..] + b;
      RunAppend(Step(c, a[0]), a[1..], b);
    }
  }

  // ---- the filter of _clearQueue ----

  lemma {:induction false} KeptAppend(a: seq<Item>, b: seq<Item>, level: nat)
    ensures Kept(a + b, level) == Kept(a, level) + Kept(b, level)
  {
    if a == [] {
      assert a + b == b;
    } else {
      assert (a + b)[1..] == a[1..] + b;
      KeptAppend(a[1..], b, level);
    }
  }

  lemma {:induction false} KeptFrom(q: seq<Item>, level: nat)
    ensures |Kept(q, level)| <= |q|
    ensures forall p :: p in Kept(q, level) <==> p in q && Keeps(level, p)
  {
    if q != [] {
      KeptFrom(q[1..], level);
      assert q == [q[0]] + q[1..];
    }
  }

  // the survivors are those before the cursor, then those from it on
  lemma KeptSplit(q: seq<Item>, cursor: nat, level: nat)
    requires cursor <= |q|
    ensures Kept(q, level) == Kept(q[..cursor], level) + Kept(q[cursor..], level)
  {
    assert q == q[..cursor] + q[cursor..];
    KeptAppend(q[..cursor], q[cursor..], level);
  }

  // one more packet looked at
  lemma KeptNext(q: seq<Item>, n: nat, level: nat)
    requires n < |q|
    ensures Kept(q[..n + 1], level) == Kept(q[..n], level) + if Keeps(level, q[n]) then [q[n]] else []
    ensures Losses(q[..n + 1], level) == Losses(q[..n], level) + if Keeps(level, q[n]) then [] else Loss(q[n])
  {
    assert q[..n + 1] == q[..n] + [q[n]];
    KeptAppend(q[..n], [q[n]], level);
    LossesAppend(q[..n], [q[n]], level);
  }

  lemma {:induction false} LossesAppend(a: seq<Item>, b: seq<Item>, level: nat)
    ensures Losses(a + b, level) == Losses(a, level) + Losses(b, level)
  {
    if a == [] {
      assert a + b == b;
    } else {
      assert (a + b)[1..] == a[1..] + b;
      LossesAppend(a[1..], b, level);
    }
  }

  /** The outbox half way: the first n packets of q are filtered, and the cursor follows the packet it was on. */
  predicate PartCleared(q: seq<Item>, at: nat, level: nat, n: nat, items: seq<Item>, cursor: nat)
    requires n <= |q| && at <= |q|
  {
    && items == Kept(q[..n], level) + q[n..]
    && cursor == if n <= at then |Kept(q[..n], level)| + (at - n) else |Kept(q[..at], level)|
  }

  lemma ClearTurn(q: seq<Item>, at: nat, level: nat, n: nat, items: seq<Item>, cursor: nat)
    requires n < |q| && at <= |q| && PartCleared(q, at, level, n, items, cursor)
    ensures var k := |Kept(q[..n], level)|;
            && k < |items| && items[k] == q[n]
            && (Keeps(level, q[n]) ==> PartCleared(q, at, level, n + 1, items, cursor) && |Kept(q[..n + 1], level)| == k + 1)
            && (!Keeps(level, q[n]) ==>
                  PartCleared(q, at, level, n + 1, Without(items, k), CursorWithout(cursor, k)) && |Kept(q[..n + 1], level)| == k)
  {
    hide Kept, Keeps, Losses;
    KeptNext(q, n, level);
    var kept := Kept(q[..n], level);
    assert q[n..] == [q[n]] + q[n + 1..];
    if Keeps(level, q[n]) {
      assert kept + q[n..] == (kept + [q[n]]) + q[n + 1..];
    } else {
      assert Without(items, |kept|) == kept + q[n + 1..];
      if at > n { } else { KeptShorter(q, at, n, level); }
    }
  }

  lemma KeptShorter(q: seq<Item>, at: nat, n: nat, level: nat)
    requires at <= n <= |q|
    ensures |Kept(q[..at], level)| <= |Kept(q[..n], level)|
  {
    assert q[..n] == q[..at] + q[at..n];
    KeptAppend(q[..at], q[at..n], level);
  }

  lemma ClearStart(q: seq<Item>, at: nat, level: nat)
    requires at <= |q|
    ensures PartCleared(q, at, level, 0, q, at) && Kept(q[..0], level) == [] && Losses(q[..0], level) == []
  {
  }

  lemma ClearEnd(q: seq<Item>, at: nat, level: nat, n: nat, items: seq<Item>, cursor: nat)
    requires n <= |q| && at <= |q| && PartCleared(q, at, level, n, items, cursor)
    ensures |items| == |Kept(q[..n], level)| + (|q| - n)
    ensures n == |q| ==>
      items == Kept(q, level) && cursor == |Kept(q[..at], level)| && Losses(q[..n], level) == Losses(q, level)
  {
    assert q[..|q|] == q && q[|q|..] == [];
  }

  lemma ClearBasic(c: Client, level: nat)
    requires Basic(c)
    ensures Basic(ClearQueue(c, level))
    ensures var d := ClearQueue(c, level); d == c.(queue := d.queue, cursor := d.cursor, h := c.h.(notes := d.h.notes))
  {
    var d := ClearQueue(c, level);
    KeptSplit(c.queue, c.cursor, level);
    KeptFrom(c.queue, level);
    forall i | 0 <= i < |d.queue| ensures d.queue[i].bytes != [] {
      assert d.queue[i] in c.queue;
    }
  }

  lemma ApplyBasic(c: Client, e: Edit)
    requires Basic(c) && (e.remove.Some? ==> e.remove.value < |c.queue|) && (e.add.Some? ==> e.add.value.bytes != [])
    ensures Basic(Apply(c, e))
    ensures var d := Apply(c, e);
            d == c.(queue := d.queue, cursor := d.cursor, h := c.h.(notes := d.h.notes, serials := d.h.serials))
  {
    var c1, d := AppendNew(c, e.add), Apply(c, e);
    if e.remove.Some? {
      var i := e.remove.value;
      assert forall j :: 0 <= j < |d.queue| ==> d.queue[j] == c1.queue[if j < i then j else j + 1];
    }
  }

  lemma AdvanceBasic(c: Client)
    requires Basic(c) && c.h.connackSeen
    ensures Basic(AdvanceOutbox(c)) && AdvanceOutbox(c).config == c.config
  {
    hide Removable, SetDup, TypeOf;
    if c.cursor < |c.queue| {
      assert forall j :: 0 <= j < |c.queue| - 1 ==> Without(c.queue, c.cursor)[j] == c.queue[if j < c.cursor then j else j + 1];
    }
  }

  lemma SendBasic(c: Client, w: nat, now: nat)
    requires Basic(c) && Number(c.state) >= 3
    ensures Basic(SendPacket(c, w, now))
    ensures var d := SendPacket(c, w, now); d.state == c.state && d.config == c.config && d.h.connackSeen == c.h.connackSeen
  {
  }

  lemma ConnackBasic(c: Client, sessionPresent: byte, returnCode: byte)
    requires Basic(c) && Number(c.state) >= 3
    ensures Basic(OnConnack(c, sessionPresent, returnCode)) && OnConnack(c, sessionPresent, returnCode).config == c.config
  {
    if returnCode == 0 {
      var c1 := c.(pingSent := false, state := Connected, h := c.h.(connackSeen := true));
      AdvanceBasic(c1);
      if sessionPresent == 0 { ClearBasic(AdvanceOutbox(c1), 1); }
    }
  }

  // ---- most actions are one edit of the outbox ----

  predicate Plain(a: Action) {
    match a
    case DoConnect(_) => false
    case DoClearQueue(_) => false
    case TcpGone => false
    case SendOnly(_, _) => false
    case SendAndAdvance(_, _) => false
    case Received(e, _) => !e.Connack?
    case Timeout(_) => false
    case _ => true
  }

  /** The edit a plain action makes. */
  function EditFor(c: Client, a: Action): (e: Edit)
    requires Plain(a) && Enabled(c, a)
    ensures e.remove.Some? ==> e.remove.value < |c.queue|
    ensures e.add.Some? ==> e.add.value.bytes != []
  {
    match a
    case DoPublish(topic, payload, qos, retain, mem) =>
      if Number(c.state) > Number(Connected) then NOTHING
      else
        var id := NextPacketId(c.packetId);
        RequestsNonEmpty(id, topic, payload, qos, retain, [], []);
        RequestsNonEmpty(1, topic, payload, 0, retain, [], []);
        if qos > 0 then
          Edit(Added(PublishBytes(id, topic, payload, qos, retain), id, mem), None, [if mem == Granted then Accepted(id) else OnError(id)])
        else Edit(Added(PublishBytes(1, topic, payload, 0, retain), 0, mem), None, if mem == Granted then [] else [OnError(1)])
    case DoSubscribe(items, mem) =>
      var id := NextPacketId(c.packetId);
      RequestsNonEmpty(id, [], [], 0, false, items, []);
      if c.state != Connected then NOTHING else Edit(Added(SubscribeBytes(id, items), id, mem), None, [])
    case DoUnsubscribe(topics, mem) =>
      var id := NextPacketId(c.packetId);
      RequestsNonEmpty(id, [], [], 0, false, [], topics);
      if c.state != Connected then NOTHING else Edit(Added(UnsubscribeBytes(id, topics), id, mem), None, [])
    case Goodbye(mem) => Edit(Added(BareBytes(DISCONNECT), 0, mem), None, if mem == Granted then [] else [OnError(0)])
    case Received(e, mem) =>
      if c.state == ConnectingMqtt || e.Pingresp? || (e.Publish? && Number(c.state) >= Number(DisconnectingMqtt1)) then NOTHING
      else
        ResponseNonEmpty(c.queue, e, mem);
        Response(c.queue, e, mem)
    case Ping(now, mem) =>
      if PingDue(c, now) then Edit(Added(BareBytes(PINGREQ), 0, mem), None, []) else NOTHING
    case _ => NOTHING
  }

  predicate PingDue(c: Client, now: nat) {
    && c.config.keepAlive != 0 && Elapsed(now, c.lastServerActivity) <= 2 * c.config.keepAlive && !c.pingSent
    && (Elapsed(now, c.lastClientActivity) > c.config.keepAlive || Elapsed(now, c.lastServerActivity) > c.config.keepAlive)
  }

  lemma PublishIs(c: Client, topic: seq<byte>, payload: seq<byte>, qos: nat, retain: bool, mem: Memory)
    requires Basic(c) && qos <= 2
    ensures c.cursor <= |c.queue| && Enabled(c, DoPublish(topic, payload, qos, retain, mem))
    ensures Step(c, DoPublish(topic, payload, qos, retain, mem)) == PublishCall(c, topic, payload, qos, retain, mem)
  {
  }

  lemma RequestsNonEmpty(id: nat, topic: seq<byte>, payload: seq<byte>, qos: nat, retain: bool, items: seq<SubscribeItem>, topics: seq<seq<byte>>)
    requires id < 65536
    ensures PublishBytes(id, topic, payload, qos, retain) != []
    ensures SubscribeBytes(id, items) != [] && UnsubscribeBytes(id, topics) != []
  {
  }

  lemma ResponseNonEmpty(q: seq<Item>, e: P.Event, mem: Memory)
    requires WellFormedEvent(e)
    ensures var r := Response(q, e, mem); r.add.Some? ==> r.add.value.bytes != []
  {
  }

  // equal in what the queue, the sending position and the history say
  predicate SameCore(a: Client, b: Client) {
    a.queue == b.queue && a.cursor == b.cursor && a.bytesSent == b.bytesSent && a.h == b.h && a.config == b.config
  }

  lemma ApplyNothing(c: Client)
    ensures Apply(c, NOTHING) == c
  {
    assert c.h.notes + [] == c.h.notes;
  }

  lemma ApplyFields(c: Client, d: Client, e: Edit)
    requires SameCore(c, d) && (e.remove.Some? ==> e.remove.value < |c.queue|)
    ensures SameCore(Apply(c, e), Apply(d, e))
    ensures Apply(d, e).state == d.state
  {
  }

  lemma PlainStep(c: Client, a: Action)
    requires Plain(a) && Enabled(c, a) && c.cursor <= |c.queue|
    ensures SameCore(Step(c, a), Apply(c, EditFor(c, a)))
  {
    hide Apply, Response, PublishBytes, SubscribeBytes, UnsubscribeBytes, Elapsed, BareBytes;
    ApplyNothing(c);
    var e := EditFor(c, a);
    ApplyFields(c, c.(packetId := NextPacketId(c.packetId)), e);
    ApplyFields(c, c.(state := DisconnectingMqtt2), e);
    if a.Ping? { ApplyFields(c, c.(pingSent := a.mem == Granted), e); }
  }

  lemma StepBasic(c: Client, a: Action)
    requires Basic(c) && Enabled(c, a)
    ensures Basic(Step(c, a)) && Step(c, a).config == c.config
  {
    hide Step, Enabled, EditFor;
    if Plain(a) {
      PlainBasic(c, a);
    } else {
      WorkBasic(c, a);
    }
  }

  lemma PlainBasic(c: Client, a: Action)
    requires Basic(c) && Enabled(c, a) && Plain(a)
    ensures Basic(Step(c, a)) && Step(c, a).config == c.config
  {
    hide Step, EditFor, Enabled, Apply, NonEmpty;
    PlainStep(c, a);
    ApplyBasic(c, EditFor(c, a));
    PlainStates(c, a);
  }

  lemma WorkBasic(c: Client, a: Action)
    requires Basic(c) && Enabled(c, a) && !Plain(a)
    ensures Basic(Step(c, a)) && Step(c, a).config == c.config
  {
    hide ClearQueue, AdvanceOutbox, SendPacket, OnConnack, Connect, TypeOf, NonEmpty;
    match a {
      case DoConnect(mem) => ConnectBasic(c, mem);
      case DoClearQueue(all) => ClearBasic(c, if all then 2 else 0);
      case TcpGone => ClearBasic(c, 0);
      case SendOnly(w, now) => SendBasic(c, w, now);
      case SendAndAdvance(w, now) =>
        SendBasic(c, w, now);
        AdvanceBasic(SendPacket(c, w, now));
      case Received(e, mem) => ConnackBasic(c, e.sessionPresent, e.returnCode);
      case Timeout(_) =>
    }
  }

  lemma ConnectBasic(c: Client, mem: Memory)
    requires Basic(c)
    ensures Basic(Connect(c, mem)) && Connect(c, mem).config == c.config
  {
  }

  lemma PlainStates(c: Client, a: Action)
    requires Plain(a) && Enabled(c, a) && Basic(c)
    ensures var n, m := Number(c.state), Number(Step(c, a).state);
            && (m == n || m > n)
            && (4 <= m <= 6 ==> 4 <= n <= 6) && (n >= 3 ==> m >= 3) && (n == 0 ==> m == 0)
  {
    hide Response, PublishBytes, SubscribeBytes, UnsubscribeBytes, Elapsed, Added, BareBytes, Apply, NextPacketId;
  }

  lemma {:induction false} RunBasic(c: Client, acts: seq<Action>)
    requires Basic(c) && EnabledRun(c, acts)
    ensures Basic(Run(c, acts))
    decreases |acts|
  {
    hide Step, Basic, Enabled;
    if acts != [] {
      StepBasic(c, acts[0]);
      RunBasic(Step(c, acts[0]), acts[1..]);
    }
  }

  // ---- the notes a step adds ----

  function NewNotes(c: Client, a: Action): seq<Note>
    requires c.cursor <= |c.queue| && Enabled(c, a)
  {
    if Plain(a) then EditFor(c, a).notes
    else
      match a
      case DoConnect(mem) => if c.state != Disconnected then [] else [if mem == Granted then ConnectCalled else OnError(0)]
      case DoClearQueue(all) => Losses(c.queue, if all then 2 else 0)
      case TcpGone => Losses(c.queue, 0) + [OnDisconnect(c.reason)]
      case Received(e, _) =>
        if e.returnCode != 0 then []
        else
          var q := AdvanceOutbox(c.(pingSent := false, state := Connected, h := c.h.(connackSeen := true))).queue;
          (if e.sessionPresent == 0 then Losses(q, 1) else []) + [OnConnect(e.sessionPresent != 0)]
      case _ => []
  }

  lemma NotesGrow(c: Client, a: Action)
    requires c.cursor <= |c.queue| && Enabled(c, a)
    ensures Step(c, a).h.notes == c.h.notes + NewNotes(c, a)
  {
    if Plain(a) {
      hide Step, Enabled, EditFor;
      PlainStep(c, a);
    } else if a.Received? {
      hide AdvanceOutbox, OnConnack, Losses;
      ConnackNotes(c, a.e.sessionPresent, a.e.returnCode);
    } else {
      hide Step, NewNotes;
      WorkNotes(c, a);
    }
  }

  lemma WorkNotes(c: Client, a: Action)
    requires c.cursor <= |c.queue| && Enabled(c, a) && !Plain(a) && !a.Received?
    ensures Step(c, a).h.notes == c.h.notes + NewNotes(c, a)
  {
    hide Losses, Kept, AdvanceOutbox, SendPacket, AddPacketFront;
    assert c.h.notes + [] == c.h.notes;
    match a {
      case DoConnect(mem) => FrontNotes(c, mem);
      case TcpGone => SeqAssoc(c.h.notes, Losses(c.queue, 0), [OnDisconnect(c.reason)]);
      case SendOnly(w, now) => PumpNotes(c, w, now);
      case SendAndAdvance(w, now) => PumpNotes(c, w, now);
      case _ =>
    }
  }

  lemma FrontNotes(c: Client, mem: Memory)
    ensures AddPacketFront(c, c.config.connectBytes, mem).h.notes == c.h.notes
  {
  }

  lemma PumpNotes(c: Client, w: nat, now: nat)
    ensures SendPacket(c, w, now).h.notes == c.h.notes && Pump(c, w, now).h.notes == c.h.notes
  {
    hide SetDup, Removable, TypeOf, FromStart, Available;
  }

  lemma ConnackNotes(c: Client, sessionPresent: byte, returnCode: byte)
    requires c.cursor <= |c.queue|
    ensures var c1 := AdvanceOutbox(c.(pingSent := false, state := Connected, h := c.h.(connackSeen := true)));
            var added := (if sessionPresent == 0 then Losses(c1.queue, 1) else []) + [OnConnect(sessionPresent != 0)];
            OnConnack(c, sessionPresent, returnCode).h.notes == c.h.notes + if returnCode != 0 then [] else added
  {
    var c0 := c.(pingSent := false, state := Connected, h := c.h.(connackSeen := true));
    var c1 := AdvanceOutbox(c0);
    assert c1.h.notes == c.h.notes && c1.cursor <= |c1.queue|;
    hide AdvanceOutbox, Losses, Kept;
    assert c.h.notes + [] == c.h.notes;
    SeqAssoc(c.h.notes, Losses(c1.queue, 1), [OnConnect(sessionPresent != 0)]);
    assert [] + [OnConnect(sessionPresent != 0)] == [OnConnect(sessionPresent != 0)];
  }

  lemma SeqAssoc<T>(a: seq<T>, b: seq<T>, c: seq<T>)
    ensures (a + b) + c == a + (b + c)
  {
  }
}
