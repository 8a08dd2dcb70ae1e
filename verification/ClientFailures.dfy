/**
  Runs in which the client falls short: an acknowledgement that comes while its packet is being sent again tears
  the framing, makes a retransmission flag wrong, or stalls the connection; and a second CONNACK reopens it.
 */
module ClientFailures {
  import opened Bytes
  import opened Constants
  import opened Options
  import opened PacketSpec
  import opened Outbox
  import opened ClientSpec
  import opened ClientRuns
  import opened ClientFraming
  import opened ClientOrder
  import opened ClientTrace
  import opened ClientDup
  import opened ClientLifecycle
  import opened ClientClock
  import P = ParserSpec

  // connected with nothing queued and nothing half written
  predicate Quiet(c: Client) {
    && Basic(c) && c.state == Connected && c.queue == [] && c.bytesSent == 0
    && Framed(c) && Traced(c) && DupExact(c)
    && c.config.timeout + 1 < CLOCK
  }

  // ---- getting there ----

  function Opening(config: Config): seq<Action> {
    [DoConnect(Granted), TcpConnect(true), TcpUp(0), SendOnly(|config.connectBytes|, 0), Received(P.Connack(1, 0), Granted)]
  }

  lemma Then(start: Client, acts: seq<Action>, c: Client, a: Action)
    requires EnabledRun(start, acts) && c == Run(start, acts) && c.cursor <= |c.queue| && Enabled(c, a)
    ensures EnabledRun(start, acts + [a]) && Run(start, acts + [a]) == Step(c, a)
  {
    hide Step, Enabled;
    assert [a][1..] == [];
    assert EnabledRun(Step(c, a), [a][1..]) && Run(Step(c, a), [a][1..]) == Step(c, a);
    assert EnabledRun(c, [a]) && Run(c, [a]) == Step(c, a);
    RunAppend(start, acts, [a]);
  }

  // the invariants the examples start from, over a step that does not spoil them
  lemma Established(c: Client, a: Action)
    requires Basic(c) && Enabled(c, a) && Framed(c) && Traced(c) && DupExact(c) && !Tears(c, a) && !Misleads(c, a)
    ensures var d := Step(c, a); Basic(d) && Framed(d) && Traced(d) && DupExact(d)
  {
    hide Step, Enabled, Framed, Traced, DupExact, Tears, Misleads;
    StepBasic(c, a);
    StepFramed(c, a);
    StepTraced(c, a);
    StepDup(c, a);
  }

  // what the examples keep about a client they have led somewhere
  predicate Sound(c: Client) {
    Basic(c) && Framed(c) && Traced(c) && DupExact(c)
  }

  lemma TcpReady(config: Config) returns (acts: seq<Action>, c: Client)
    requires ConfigOk(config)
    ensures acts == [DoConnect(Granted), TcpConnect(true), TcpUp(0)] && EnabledRun(Init(config), acts) && c == Run(Init(config), acts)
    ensures Sound(c) && c.state == ConnectingMqtt && c.config == config && c.cursor == 0 && c.bytesSent == 0
    ensures c.queue == [Item(config.connectBytes, 0, 0, 0, false)]
  {
    hide Framed, Traced, DupExact, Basic, Step, Enabled, Init;
    var c0, a, b, d := Init(config), DoConnect(Granted), TcpConnect(true), TcpUp(0);
    assert EnabledRun(c0, []) && Run(c0, []) == c0;
    Connects(config);
    var c1 := Step(c0, a);
    TcpConnects(c1);
    var c2 := Step(c1, b);
    c := Step(c2, d);
    Then(c0, [], c0, a);
    Then(c0, [] + [a], c1, b);
    Then(c0, [] + [a] + [b], c2, d);
    acts := [a, b, d];
    assert [] + [a] + [b] + [d] == acts;
  }

  lemma Connects(config: Config)
    requires ConfigOk(config)
    ensures var c, a := Init(config), DoConnect(Granted);
            c.cursor <= |c.queue| && Enabled(c, a) && Sound(Step(c, a)) &&
            var d := Step(c, a);
            && d.state == ConnectingTcp1 && d.config == config && d.cursor == 0 && d.bytesSent == 0
            && d.queue == [Item(config.connectBytes, 0, 0, 0, false)]
  {
    Established(Init(config), DoConnect(Granted));
  }

  lemma TcpConnects(c: Client)
    requires Sound(c) && c.state == ConnectingTcp1
    ensures c.cursor <= |c.queue| && Enabled(c, TcpConnect(true))
    ensures var d := Step(c, TcpConnect(true));
            && Sound(d) && d.cursor <= |d.queue| && Enabled(d, TcpUp(0)) && Sound(Step(d, TcpUp(0)))
            && Step(d, TcpUp(0)) == c.(state := ConnectingMqtt, lastClientActivity := 0, lastServerActivity := 0)
  {
    Established(c, TcpConnect(true));
    Established(Step(c, TcpConnect(true)), TcpUp(0));
  }

  // CONNECT is written to its end, and accepted
  lemma Accepted(c: Client) returns (d: Client, e: Client)
    requires Sound(c) && c.state == ConnectingMqtt && c.cursor == 0 && c.bytesSent == 0
    requires c.queue == [Item(c.config.connectBytes, 0, 0, 0, false)]
    ensures var a, b := SendOnly(|c.config.connectBytes|, 0), Received(P.Connack(1, 0), Granted);
            && Enabled(c, a) && d == Step(c, a) && d.cursor <= |d.queue| && Enabled(d, b) && e == Step(d, b)
    ensures Sound(e) && e.state == Connected && e.queue == [] && e.bytesSent == 0 && e.config == c.config
  {
    hide Framed, Traced, DupExact, Step, Enabled;
    var a, b := SendOnly(|c.config.connectBytes|, 0), Received(P.Connack(1, 0), Granted);
    WritesConnect(c);
    d := Step(c, a);
    Accepts(d);
    e := Step(d, b);
  }

  lemma WritesConnect(c: Client)
    requires Sound(c) && c.state == ConnectingMqtt && c.cursor == 0 && c.bytesSent == 0
    requires c.queue == [Item(c.config.connectBytes, 0, 0, 0, false)]
    ensures var a := SendOnly(|c.config.connectBytes|, 0);
            Enabled(c, a) && Sound(Step(c, a)) &&
            var d := Step(c, a);
            && d.config == c.config && d.state == ConnectingMqtt && d.cursor == 0 && |d.queue| == 1
            && d.bytesSent == |c.config.connectBytes| && d.queue[0].bytes == c.config.connectBytes && d.queue[0].id == 0
  {
    Established(c, SendOnly(|c.config.connectBytes|, 0));
  }

  lemma Accepts(c: Client)
    requires Sound(c) && c.state == ConnectingMqtt && c.cursor == 0 && |c.queue| == 1
    requires c.queue[0].bytes == c.config.connectBytes && c.queue[0].id == 0 && c.bytesSent == |c.config.connectBytes|
    ensures var b := Received(P.Connack(1, 0), Granted);
            Enabled(c, b) && Sound(Step(c, b)) &&
            var d := Step(c, b);
            d.state == Connected && d.queue == [] && d.bytesSent == 0 && d.config == c.config
  {
    hide Framed, Traced, DupExact;
    Established(c, Received(P.Connack(1, 0), Granted));
  }

  /** From the beginning to a connection with nothing on it. */
  lemma Opens(config: Config) returns (c: Client)
    requires ConfigOk(config) && config.timeout + 1 < CLOCK
    ensures EnabledRun(Init(config), Opening(config)) && c == Run(Init(config), Opening(config)) && Quiet(c)
  {
    hide Step, Enabled, Framed, Traced, DupExact;
    var c0, acts, ready := Init(config), [], Init(config);
    acts, ready := TcpReady(config);
    var a, b := SendOnly(|config.connectBytes|, 0), Received(P.Connack(1, 0), Granted);
    var d, e := Accepted(ready);
    Then(c0, acts, ready, a);
    Then(c0, acts + [a], d, b);
    assert acts + [a] + [b] == Opening(config);
    c := e;
  }

  // ---- a packet torn while it is sent again ----

  // QoS 1, with this payload, to the empty topic
  function Message(payload: seq<byte>): Action {
    DoPublish([], payload, 1, false, Granted)
  }

  function BytesOf(id: nat, payload: seq<byte>): seq<byte>
    requires id < 65536
  {
    PublishBytes(id, [], payload, 1, false)
  }

  lemma MessageBytes(id: nat, payload: seq<byte>)
    requires 0 < id < 65536 && |payload| <= 1
    ensures var bytes := BytesOf(id, payload);
            |bytes| == 6 + |payload| && Kind(bytes[0]) == PUBLISH && !DupBit(bytes[0])
  {
    PublishSizeExact(id, [], payload, 1, false);
    hide Padded;
    assert PublishHeader(id, [], 4 + |payload|, 1, false) == [PublishFirstByte(1, false), 4 + |payload|, 0, 0, id / 256, id % 256];
  }

  lemma Publishes(c: Client, payload: seq<byte>)
    requires Sound(c) && c.state == Connected && |payload| <= 1
    ensures var a, id := Message(payload), NextPacketId(c.packetId);
            Enabled(c, a) && Sound(Step(c, a)) &&
            var d := Step(c, a);
            && d == c.(queue := d.queue, packetId := id, h := d.h)
            && d.queue == c.queue + [Item(BytesOf(id, payload), id, 0, c.h.serials, false)]
            && d.h == c.h.(serials := c.h.serials + 1, notes := d.h.notes)
  {
    hide PublishBytes, NextPacketId;
    Established(c, Message(payload));
  }

  // the first packet is written to its end, and marked
  lemma WrittenOnce(c: Client)
    requires Sound(c) && c.state == Connected && |c.queue| == 1 && c.cursor == 0 && c.bytesSent == 0 && Unmarked(c.queue[0])
    ensures var a := SendAndAdvance(|c.queue[0].bytes|, 0);
            Enabled(c, a) && Sound(Step(c, a)) &&
            var d, p := Step(c, a), c.queue[0];
            && d.state == Connected && d.config == c.config && d.packetId == c.packetId && d.h.serials == c.h.serials
            && d.cursor == 1 && d.bytesSent == 0
            && d.queue == [SetDup(p.(timeSent := 0, whole := true))] && Dup(d.queue[0])
  {
    hide Framed, Traced, DupExact;
    Established(c, SendAndAdvance(|c.queue[0].bytes|, 0));
  }

  // it waits too long for its acknowledgement
  lemma TimesOut(c: Client)
    requires Sound(c) && c.state == Connected && |c.queue| == 1 && c.cursor == 1 && c.bytesSent == 0
    requires c.queue[0].timeSent == 0 && c.config.timeout + 1 < CLOCK
    ensures var a := Timeout(c.config.timeout + 1);
            Enabled(c, a) && Sound(Step(c, a)) && Step(c, a) == c.(cursor := 0, h := c.h.(order := []))
  {
    Established(c, Timeout(c.config.timeout + 1));
  }

  // part of it is written again
  lemma WritesPart(c: Client, k: nat)
    requires Sound(c) && c.state == Connected && c.queue != [] && c.cursor == 0 && c.bytesSent == 0 && 0 < k < |c.queue[0].bytes|
    ensures var a := SendAndAdvance(k, 0);
            Enabled(c, a) && Sound(Step(c, a)) &&
            var d := Step(c, a);
            && d == c.(queue := d.queue, bytesSent := k, lastClientActivity := 0, h := d.h)
            && d.queue == c.queue[0 := c.queue[0].(timeSent := 0)] && d.h.started == c.queue[0].serial
  {
    Established(c, SendAndAdvance(k, 0));
  }

  // and now the acknowledgement arrives
  lemma AckTears(c: Client)
    requires Sound(c) && c.state == Connected && |c.queue| == 2 && c.cursor == 0 && c.bytesSent > 0 && 0 < c.queue[0].id < 65536
    requires Pub(c.queue[0]) && Dup(c.queue[0]) && Pub(c.queue[1]) && !Dup(c.queue[1])
    ensures var a := Received(P.Ack(PUBACK, c.queue[0].id), Granted);
            Enabled(c, a) && Tears(c, a) && !Framed(Step(c, a)) && Traced(Step(c, a)) && DupExact(Step(c, a)) &&
            var d := Step(c, a);
            && d == c.(queue := [c.queue[1]], h := c.h.(notes := d.h.notes))
  {
    var a := Received(P.Ack(PUBACK, c.queue[0].id), Granted);
    assert Kind(PUBACK) == PUBACK && FirstOf(c.queue, PUBLISH) == 0;
    StepTraced(c, a);
    StepDup(c, a);
    hide Traced, DupExact;
    var d := Step(c, a);
    assert d.queue == [c.queue[1]];
    StepFramed(c, a);
    hide Framed;
    assert Tears(c, a);
    var torn, next := c.queue[0].bytes, c.queue[1].bytes;
    OtherStart(torn, next, c.bytesSent);
  }

  lemma OtherStart(a: seq<byte>, b: seq<byte>, k: nat)
    requires a != [] && b != [] && a[0] != b[0] && k > 0
    ensures !(k <= |a| && k <= |b| && b[..k] == a[..k])
  {
    if k <= |a| && k <= |b| { assert a[..k][0] == a[0] && b[..k][0] == b[0]; }
  }

  /**
    A QoS 1 packet of seven bytes is sent and, unanswered, begun again; k of its bytes are out when the PUBACK for
    it comes in, and a packet of six bytes is next.
   */
  function Tearing(c: Client, k: nat): seq<Action> {
    [Message([0]), SendAndAdvance(7, 0), Timeout(c.config.timeout + 1), Message([]), SendAndAdvance(k, 0),
     Received(P.Ack(PUBACK, NextPacketId(c.packetId)), Granted)]
  }

  lemma BeforeAck(c: Client, k: nat) returns (d: Client)
    requires Quiet(c) && 0 < k < 7
    ensures EnabledRun(c, Tearing(c, k)[..5]) && d == Run(c, Tearing(c, k)[..5])
    ensures Sound(d) && d.state == Connected && |d.queue| == 2 && d.cursor == 0 && d.bytesSent == k
    ensures d.queue[0].id == NextPacketId(c.packetId) && Pub(d.queue[0]) && Dup(d.queue[0]) && d.h.started == d.queue[0].serial
    ensures Unmarked(d.queue[1]) && !d.queue[1].whole && |d.queue[1].bytes| == 6 && d.queue[1].serial == d.h.started + 1
  {
    hide Step, Enabled, Framed, Traced, DupExact, PublishBytes, BytesOf, NextPacketId;
    var a1, a2, a3, a4, a5 := Message([0]), SendAndAdvance(7, 0), Timeout(c.config.timeout + 1), Message([]), SendAndAdvance(k, 0);
    assert EnabledRun(c, []) && Run(c, []) == c && Sound(c);
    MessageBytes(NextPacketId(c.packetId), [0]);
    Publishes(c, [0]);
    var c1 := Step(c, a1);
    WrittenOnce(c1);
    var c2 := Step(c1, a2);
    TimesOut(c2);
    var c3 := Step(c2, a3);
    MessageBytes(NextPacketId(c3.packetId), []);
    Publishes(c3, []);
    var c4 := Step(c3, a4);
    WritesPart(c4, k);
    d := Step(c4, a5);
    Then(c, [], c, a1);
    Then(c, [] + [a1], c1, a2);
    Then(c, [] + [a1] + [a2], c2, a3);
    Then(c, [] + [a1] + [a2] + [a3], c3, a4);
    Then(c, [] + [a1] + [a2] + [a3] + [a4], c4, a5);
    assert Tearing(c, k)[..5] == [] + [a1] + [a2] + [a3] + [a4] + [a5];
  }

  /** The framing is lost, and the count of bytes written passes to a packet of which nothing has been written. */
  lemma Torn(c: Client, k: nat) returns (d: Client)
    requires Quiet(c) && 0 < k < 7
    ensures EnabledRun(c, Tearing(c, k)) && d == Run(c, Tearing(c, k)) && !Untorn(c, Tearing(c, k))
    ensures Basic(d) && !Framed(d) && Traced(d) && DupExact(d) && d.state == Connected && d.cursor == 0 && d.bytesSent == k
    ensures |d.queue| == 1 && Unmarked(d.queue[0]) && !d.queue[0].whole && |d.queue[0].bytes| == 6 && !FromStart(d)
  {
    hide Step, Enabled, Framed, Traced, DupExact, Tears, NextPacketId;
    var e := BeforeAck(c, k);
    var a := Received(P.Ack(PUBACK, NextPacketId(c.packetId)), Granted);
    AckTears(e);
    StepBasic(e, a);
    Then(c, Tearing(c, k)[..5], e, a);
    assert Tearing(c, k)[..5] + [a] == Tearing(c, k);
    d := Step(e, a);
    TornAt(c, Tearing(c, k), 5);
  }

  lemma {:induction false} TornAt(c: Client, acts: seq<Action>, n: nat)
    requires EnabledRun(c, acts) && n < |acts| && EnabledRun(c, acts[..n])
    requires Run(c, acts[..n]).cursor <= |Run(c, acts[..n]).queue| && Enabled(Run(c, acts[..n]), acts[n]) && Tears(Run(c, acts[..n]), acts[n])
    ensures !Untorn(c, acts)
    decreases |acts|
  {
    hide Step, Enabled, Tears;
    if n > 0 {
      assert acts[..n][0] == acts[0] && acts[..n][1..] == acts[1..][..n - 1];
      TornAt(Step(c, acts[0]), acts[1..], n - 1);
    }
  }

  /** After that the next packet is finished without its first byte, and yet marked as if it had been sent before. */
  lemma WrongFlag(c: Client) returns (d: Client)
    requires Quiet(c)
    ensures var acts := Tearing(c, 1) + [SendAndAdvance(5, 0)];
            EnabledRun(c, acts) && d == Run(c, acts)
    ensures |d.queue| == 1 && Pub(d.queue[0]) && d.queue[0].id != 0 && Dup(d.queue[0]) && !d.queue[0].whole
  {
    hide Framed, Traced, DupExact, Basic, Step, Enabled, Tearing;
    var e, a := c, SendAndAdvance(5, 0);
    e := Torn(c, 1);
    FinishesTorn(e);
    Then(c, Tearing(c, 1), e, a);
    d := Step(e, a);
  }

  lemma FinishesTorn(c: Client)
    requires Basic(c) && c.state == Connected && c.cursor == 0 && c.bytesSent == 1
    requires |c.queue| == 1 && Unmarked(c.queue[0]) && !c.queue[0].whole && |c.queue[0].bytes| == 6 && !FromStart(c)
    ensures var a := SendAndAdvance(5, 0);
            c.cursor <= |c.queue| && Enabled(c, a) &&
            var d := Step(c, a);
            |d.queue| == 1 && Pub(d.queue[0]) && d.queue[0].id != 0 && Dup(d.queue[0]) && !d.queue[0].whole
  {
  }

  // ---- a stalled connection ----

  // a packet half written is gone, and more bytes of it were out than the next one has
  predicate Stalled(c: Client) {
    c.cursor < |c.queue| && c.bytesSent >= |c.queue[c.cursor].bytes| > 0
  }

  // what ends it: the packet goes too, the connection goes, or a CONNACK accepts
  predicate Unstalls(c: Client, a: Action)
    requires c.cursor <= |c.queue| && Enabled(c, a)
  {
    Tears(c, a) || a.TcpGone? || (a.Received? && a.e.Connack? && a.e.returnCode == 0)
  }

  lemma StepStalled(c: Client, a: Action)
    requires Basic(c) && Enabled(c, a) && Stalled(c) && !Unstalls(c, a)
    ensures Stalled(Step(c, a)) && Step(c, a).h.wire == c.h.wire
  {
    if Plain(a) {
      hide Apply, EditFor;
      PlainStep(c, a);
      EditStalled(c, EditFor(c, a));
    } else {
      match a {
        case DoClearQueue(all) =>
          KeptAt(c.queue, c.cursor, if all then 2 else 0);
        case _ =>
      }
    }
  }

  lemma EditStalled(c: Client, e: Edit)
    requires Stalled(c) && (e.remove.Some? ==> e.remove.value < |c.queue|) && e.remove != Some(c.cursor)
    ensures Stalled(Apply(c, e)) && Apply(c, e).h.wire == c.h.wire
  {
    var c1 := AppendNew(c, e.add);
    if e.remove.Some? { CursorNeighbours(c1.queue, e.remove.value, c1.cursor); }
  }

  predicate StaysStalled(c: Client, acts: seq<Action>)
    requires EnabledRun(c, acts)
    decreases |acts|
  {
    acts == [] || (!Unstalls(c, acts[0]) && StaysStalled(Step(c, acts[0]), acts[1..]))
  }

  /** On a stalled connection nothing more is written, whatever is published and however much the transport would take. */
  lemma {:induction false} NothingWritten(c: Client, acts: seq<Action>)
    requires EnabledRun(c, acts) && Basic(c) && Stalled(c) && StaysStalled(c, acts)
    ensures Stalled(Run(c, acts)) && Run(c, acts).h.wire == c.h.wire
    decreases |acts|
  {
    hide Step, Enabled, Stalled, Unstalls;
    if acts != [] {
      assert c.cursor <= |c.queue| by { assert EnabledRun(c, acts); }
      StepStalled(c, acts[0]);
      StepBasic(c, acts[0]);
      NothingWritten(Step(c, acts[0]), acts[1..]);
    }
  }

  /** The same acknowledgement one packet length later stalls the connection. */
  lemma Stalls(c: Client) returns (d: Client)
    requires Quiet(c)
    ensures EnabledRun(c, Tearing(c, 6)) && d == Run(c, Tearing(c, 6)) && Basic(d) && Stalled(d)
  {
    hide Framed, Traced, DupExact;
    d := Torn(c, 6);
  }

  // ---- a second CONNACK ----

  /** A client that is disconnecting is connected again by a second CONNACK. */
  lemma SecondConnack(c: Client) returns (d: Client, e: Client)
    requires Quiet(c)
    ensures var a, b := DoDisconnect(false), Received(P.Connack(1, 0), Granted);
            && EnabledRun(c, [a]) && d == Run(c, [a]) && d.state == DisconnectingMqtt1 && d.cursor <= |d.queue| && Enabled(d, b) && Reopens(d, b)
            && EnabledRun(c, [a, b]) && e == Run(c, [a, b]) && e.state == Connected && !OneConnackEach(c, [a, b])
  {
    hide Framed, Traced, DupExact;
    var a, b := DoDisconnect(false), Received(P.Connack(1, 0), Granted);
    assert EnabledRun(c, []) && Run(c, []) == c;
    d := Step(c, a);
    e := Step(d, b);
    Then(c, [], c, a);
    Then(c, [a], d, b);
    assert [] + [a] == [a] && [a] + [b] == [a, b] && [a, b][1..] == [b];
  }

  // ---- a packet repeated before its time ----

  /**
    Two QoS 1 packets, the second written when the first has waited for the whole timeout. One millisecond later the
    client goes back to the first, and sends the second again behind it.
   */
  function Repeating(c: Client): seq<Action> {
    var t := c.config.timeout;
    [Message([0]), SendAndAdvance(7, 0), Message([]), SendAndAdvance(6, t), Timeout(t + 1), SendAndAdvance(7, t + 1), SendAndAdvance(6, t + 1)]
  }

  // a QoS 1 packet is written at one go and passed
  lemma WritesWhole(c: Client, now: nat)
    requires Basic(c) && c.state == Connected && c.cursor < |c.queue| && c.bytesSent == 0
    requires Pub(c.queue[c.cursor]) && c.queue[c.cursor].id != 0
    ensures var a, k := SendAndAdvance(|c.queue[c.cursor].bytes|, now), c.cursor;
            Enabled(c, a) &&
            var d := Step(c, a);
            && d.state == Connected && d.config == c.config && d.bytesSent == 0 && d.cursor == k + 1
            && |d.queue| == |c.queue| && (forall i :: 0 <= i < |c.queue| && i != k ==> d.queue[i] == c.queue[i])
            && d.queue[k].timeSent == now && d.queue[k].serial == c.queue[k].serial && d.queue[k].id == c.queue[k].id
            && |d.queue[k].bytes| == |c.queue[k].bytes| && Pub(d.queue[k])
            && Starts(c, a, c.queue[k].serial)
  {
    hide NonEmpty;
    assert c.queue[c.cursor].bytes != [] by { FullAt(c.queue, c.cursor); }
  }

  lemma FullAt(q: seq<Item>, i: nat)
    requires NonEmpty(q) && i < |q|
    ensures q[i].bytes != []
  {
  }

  lemma QueuesOne(c: Client, payload: seq<byte>)
    requires Basic(c) && c.state == Connected && |payload| <= 1
    ensures var a, id := Message(payload), NextPacketId(c.packetId);
            c.cursor <= |c.queue| && Enabled(c, a) &&
            var d := Step(c, a);
            && d.state == Connected && d.config == c.config && d.cursor == c.cursor && d.bytesSent == c.bytesSent
            && |d.queue| == |c.queue| + 1 && d.queue[..|c.queue|] == c.queue
            && d.queue[|c.queue|].id == id && |d.queue[|c.queue|].bytes| == 6 + |payload| && Pub(d.queue[|c.queue|])
  {
    hide PublishBytes, NextPacketId, NonEmpty;
    MessageBytes(NextPacketId(c.packetId), payload);
  }

  lemma GoesBackAt(c: Client, t: nat)
    requires Basic(c) && c.state == Connected && c.queue != [] && c.cursor > 0 && c.bytesSent == 0
    requires c.queue[0].timeSent == 0 && c.config.timeout < t < CLOCK
    ensures Enabled(c, Timeout(t)) && GoesBack(c, Timeout(t)) && Step(c, Timeout(t)) == c.(cursor := 0, h := c.h.(order := []))
  {
    hide NonEmpty;
    ElapsedIs(t, 0);
  }

  // the clients a run passes through
  predicate Leads(cs: seq<Client>, acts: seq<Action>) {
    |cs| == |acts| + 1 &&
    forall k :: 0 <= k < |acts| ==> LeadsAt(cs, acts, k)
  }

  predicate LeadsAt(cs: seq<Client>, acts: seq<Action>, k: nat)
    requires k < |acts| && |cs| == |acts| + 1
  {
    cs[k].cursor <= |cs[k].queue| && Enabled(cs[k], acts[k]) && cs[k + 1] == Step(cs[k], acts[k])
  }

  lemma {:induction false} LeadsTo(cs: seq<Client>, acts: seq<Action>, n: nat)
    requires Leads(cs, acts) && n <= |acts|
    ensures EnabledRun(cs[0], acts[..n]) && Run(cs[0], acts[..n]) == cs[n]
  {
    hide Step, Enabled;
    if n == 0 {
      assert acts[..0] == [];
    } else {
      LeadsTo(cs, acts, n - 1);
      assert LeadsAt(cs, acts, n - 1);
      Then(cs[0], acts[..n - 1], cs[n - 1], acts[n - 1]);
      assert acts[..n] == acts[..n - 1] + [acts[n - 1]];
    }
  }

  // the first half: both are written
  lemma BothWritten(c: Client) returns (cs: seq<Client>)
    requires Quiet(c)
    ensures |cs| == 5 && cs[0] == c && Leads(cs, Repeating(c)[..4])
    ensures |cs[3].queue| == 2 && Starts(cs[3], Repeating(c)[3], cs[3].queue[1].serial)
    ensures var d := cs[4];
            && Basic(d) && d.state == Connected && |d.queue| == 2 && d.cursor == 2 && d.bytesSent == 0 && d.config == c.config
            && d.queue[0].timeSent == 0 && Pub(d.queue[0]) && Pub(d.queue[1]) && d.queue[0].id != 0 && d.queue[1].id != 0
            && |d.queue[0].bytes| == 7 && |d.queue[1].bytes| == 6
            && d.queue[1].serial == cs[3].queue[1].serial
  {
    hide Step, Enabled, Basic, Framed, Traced, DupExact, Starts, NextPacketId;
    var t, acts := c.config.timeout, Repeating(c);
    QueuesOne(c, [0]);
    var c1 := Step(c, acts[0]);
    StepBasic(c, acts[0]);
    WritesWhole(c1, 0);
    var c2 := Step(c1, acts[1]);
    StepBasic(c1, acts[1]);
    QueuesOne(c2, []);
    var c3 := Step(c2, acts[2]);
    StepBasic(c2, acts[2]);
    assert c3.queue[0] == c2.queue[0];
    WritesWhole(c3, t);
    var c4 := Step(c3, acts[3]);
    StepBasic(c3, acts[3]);
    cs := [c, c1, c2, c3, c4];
  }

  // the second half: one millisecond later both are written again
  lemma BothRepeated(c: Client, t: nat) returns (cs: seq<Client>)
    requires Basic(c) && c.state == Connected && |c.queue| == 2 && c.cursor == 2 && c.bytesSent == 0
    requires c.queue[0].timeSent == 0 && Pub(c.queue[0]) && Pub(c.queue[1]) && c.queue[0].id != 0 && c.queue[1].id != 0
    requires |c.queue[0].bytes| == 7 && |c.queue[1].bytes| == 6 && c.config.timeout < t < CLOCK
    ensures var acts := [Timeout(t), SendAndAdvance(7, t), SendAndAdvance(6, t)];
            |cs| == 4 && cs[0] == c && Leads(cs, acts) && GoesBack(c, acts[0]) && Starts(cs[2], acts[2], c.queue[1].serial)
  {
    hide Step, Enabled, Basic, Starts, GoesBack;
    var acts := [Timeout(t), SendAndAdvance(7, t), SendAndAdvance(6, t)];
    GoesBackAt(c, t);
    var c1 := Step(c, acts[0]);
    StepBasic(c, acts[0]);
    WritesWhole(c1, t);
    var c2 := Step(c1, acts[1]);
    StepBasic(c1, acts[1]);
    assert c2.queue[1] == c1.queue[1];
    WritesWhole(c2, t);
    cs := [c, c1, c2, Step(c2, acts[2])];
  }

  lemma LeadsOn(a: seq<Client>, b: seq<Client>, acts: seq<Action>, more: seq<Action>)
    requires Leads(a, acts) && Leads(b, more) && a[|acts|] == b[0]
    ensures Leads(a + b[1..], acts + more)
  {
    hide Step, Enabled;
    var cs := a + b[1..];
    forall k | 0 <= k < |acts + more| ensures LeadsAt(cs, acts + more, k) {
      if k < |acts| { assert LeadsAt(a, acts, k); } else { assert LeadsAt(b, more, k - |acts|); }
    }
  }

  /** The second packet is started twice within one millisecond, on one connection. */
  lemma RepeatsEarly(c: Client) returns (serial: nat)
    requires Quiet(c) && 0 < c.config.timeout
    ensures var acts, t := Repeating(c), c.config.timeout;
            && EnabledRun(c, acts) && Timely(acts)
            && StartsAt(c, acts, 3, serial) && BackAt(c, acts, 4) && StartsAt(c, acts, 6, serial)
            && TimeOf(acts[3]) == Some(t) && TimeOf(acts[6]) == Some(t + 1)
  {
    hide Step, Enabled, Basic, Framed, Traced, DupExact, GoesBack, Starts, Leads;
    var t, acts := c.config.timeout, Repeating(c);
    var a := BothWritten(c);
    serial := a[3].queue[1].serial;
    var b := BothRepeated(a[4], t + 1);
    assert acts[..4] + [Timeout(t + 1), SendAndAdvance(7, t + 1), SendAndAdvance(6, t + 1)] == acts;
    LeadsOn(a, b, acts[..4], [Timeout(t + 1), SendAndAdvance(7, t + 1), SendAndAdvance(6, t + 1)]);
    var cs := a + b[1..];
    LeadsTo(cs, acts, 3);
    LeadsTo(cs, acts, 4);
    LeadsTo(cs, acts, 6);
    LeadsTo(cs, acts, 7);
    assert acts[..7] == acts;
    LeadsIn(cs, acts, 4);
  }

  lemma LeadsIn(cs: seq<Client>, acts: seq<Action>, k: nat)
    requires Leads(cs, acts) && k < |acts|
    ensures |cs| == |acts| + 1 && cs[k].cursor <= |cs[k].queue| && Enabled(cs[k], acts[k])
  {
    assert LeadsAt(cs, acts, k);
  }

  // ---- from the beginning ----

  /** Every client can be led from its initial state to a connection that is not framed, */
  lemma ReachTorn(config: Config) returns (acts: seq<Action>)
    requires ConfigOk(config) && config.timeout + 1 < CLOCK
    ensures EnabledRun(Init(config), acts) && !Framed(Run(Init(config), acts))
  {
    hide Step, Enabled, Framed, Tearing, Opening;
    var q := Opens(config);
    var d := Torn(q, 1);
    RunAppend(Init(config), Opening(config), Tearing(q, 1));
    acts := Opening(config) + Tearing(q, 1);
  }

  /** to a flag that is wrong, */
  lemma ReachWrongFlag(config: Config) returns (acts: seq<Action>)
    requires ConfigOk(config) && config.timeout + 1 < CLOCK
    ensures EnabledRun(Init(config), acts) && !DupExact(Run(Init(config), acts))
  {
    hide Step, Enabled, Framed, Tearing, Opening;
    var q := Opens(config);
    var d := WrongFlag(q);
    assert !Flagged(d.queue[0]);
    var rest := Tearing(q, 1) + [SendAndAdvance(5, 0)];
    RunAppend(Init(config), Opening(config), rest);
    acts := Opening(config) + rest;
  }

  /** to a stalled connection, */
  lemma ReachStalled(config: Config) returns (acts: seq<Action>)
    requires ConfigOk(config) && config.timeout + 1 < CLOCK
    ensures EnabledRun(Init(config), acts) && Stalled(Run(Init(config), acts))
  {
    hide Step, Enabled, Framed, Stalled, Tearing, Opening;
    var q := Opens(config);
    var d := Stalls(q);
    RunAppend(Init(config), Opening(config), Tearing(q, 6));
    acts := Opening(config) + Tearing(q, 6);
  }

  /** and to a client that a CONNACK has reopened while it was disconnecting. */
  lemma ReachReopened(config: Config) returns (acts: seq<Action>)
    requires ConfigOk(config) && config.timeout + 1 < CLOCK
    ensures EnabledRun(Init(config), acts) && Run(Init(config), acts).state == DisconnectingMqtt1
    ensures var again := acts + [Received(P.Connack(1, 0), Granted)];
            EnabledRun(Init(config), again) && Run(Init(config), again).state == Connected
  {
    hide Step, Enabled, Framed, Opening;
    var q := Opens(config);
    var d, e := SecondConnack(q);
    var a, b := DoDisconnect(false), Received(P.Connack(1, 0), Granted);
    RunAppend(Init(config), Opening(config), [a]);
    acts := Opening(config) + [a];
    Then(Init(config), acts, d, b);
    RunAppend(Init(config), Opening(config), [a, b]);
    assert Opening(config) + [a, b] == acts + [b];
  }
}
