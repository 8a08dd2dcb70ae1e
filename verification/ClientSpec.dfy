/**
  The client session as a step machine (src/MqttClient.cpp, src/MqttClient.h). An action is a user call, one
  piece of work of a `loop` pass, or the handling of one received packet; a run is a sequence of actions.
  `History` is not program state: it records what the theorems talk about.
 */
module ClientSpec {
  import opened Bytes
  import opened Constants
  import opened Options
  import opened PacketSpec
  import opened Outbox
  import P = ParserSpec

  const CLOCK := 0x1_0000_0000  // millis() is 32 bits wide
  const TCP_DISCONNECTED := 7

  datatype State =
    | Disconnected
    | ConnectingTcp1
    | ConnectingTcp2
    | ConnectingMqtt
    | Connected
    | DisconnectingMqtt1
    | DisconnectingMqtt2
    | DisconnectingTcp1
    | DisconnectingTcp2

  /** The numbers behind the states; some tests compare them. */
  function Number(s: State): nat {
    match s
    case Disconnected => 0
    case ConnectingTcp1 => 1
    case ConnectingTcp2 => 2
    case ConnectingMqtt => 3
    case Connected => 4
    case DisconnectingMqtt1 => 5
    case DisconnectingMqtt2 => 6
    case DisconnectingTcp1 => 7
    case DisconnectingTcp2 => 8
  }

  // ---- queued packets ----

  // History: `serial` numbers the packets in the order they were created, `whole` says it was once written from its first byte to its last.
  datatype Item = Item(bytes: seq<byte>, id: nat, timeSent: nat, serial: nat, whole: bool)

  function TypeOf(p: Item): byte {
    if p.bytes == [] then 0 else Kind(p.bytes[0])
  }

  predicate Dup(p: Item) {
    p.bytes != [] && DupBit(p.bytes[0])
  }

  predicate Removable(p: Item) {
    p.id == 0 || TypeOf(p) == PUBACK || TypeOf(p) == PUBCOMP
  }

  function SetDup(p: Item): (q: Item)
    ensures TypeOf(q) == TypeOf(p) && |q.bytes| == |p.bytes| && q.id == p.id && q.serial == p.serial && q.whole == p.whole
    ensures TypeOf(p) == PUBLISH && p.id != 0 ==> Dup(q)
    ensures !(TypeOf(p) == PUBLISH && p.id != 0) ==> q == p
  {
    if TypeOf(p) == PUBLISH && p.id != 0 then p.(bytes := p.bytes[0 := WithDup(p.bytes[0])]) else p
  }

  // ---- history ----

  datatype Note =
    | Accepted(id: nat)                      // a QoS > 0 publish entered the outbox
    | Completed(id: nat)                     // onPublish
    | Discarded(id: nat)                     // a PUBLISH or PUBREL left without completion
    | Stored(id: nat, delivered: bool)       // a QoS 2 message arrived to its end; its id is kept in a PUBREC
    | Unstored(id: nat, delivered: bool)     // the same, but there was no memory for the PUBREC
    | Released(id: nat)                      // a PUBREL matched a PUBREC
    | Forgotten(id: nat)                     // a PUBREC left without its PUBREL
    | Fragment(e: P.Event)                   // onMessage
    | ConnectCalled
    | OnConnect(sessionPresent: bool)
    | OnDisconnect(reason: nat)
    | OnSubscribe(id: nat)
    | OnUnsubscribe(id: nat)
    | OnError(id: nat)

  datatype History = History(
    notes: seq<Note>,
    wire: seq<byte>,           // bytes written on this connection
    done: seq<seq<byte>>,      // packets the outbox has advanced past on this connection
    order: seq<nat>,           // serials of those, CONNECT apart, since the cursor was last reset
    started: nat,              // serial of the packet whose first byte was written last
    connackSeen: bool,         // since the last connect()
    serials: nat)

  datatype Config = Config(keepAlive: nat, timeout: nat, connectBytes: seq<byte>)

  datatype Client = Client(
    config: Config, state: State, queue: seq<Item>, cursor: nat, bytesSent: nat, packetId: nat, pingSent: bool,
    lastClientActivity: nat, lastServerActivity: nat, reason: nat, h: History)

  function Init(config: Config): Client {
    Client(config, Disconnected, [], 0, 0, 0, false, 0, 0, TCP_DISCONNECTED, History([], [], [], [], 0, false, 0))
  }

  function WithNotes(c: Client, ns: seq<Note>): Client {
    c.(h := c.h.(notes := c.h.notes + ns))
  }

  function Elapsed(now: nat, since: nat): nat {
    (now - since) % CLOCK
  }

  // ---- queue operations ----

  // what an allocation does: no outbox node, a node but no packet buffer, or both
  datatype Memory = NoNode | NoBuffer | Granted

  /** _addPacketFront: one that could not be built leaves the cursor at the front. */
  function AddPacketFront(c: Client, bytes: seq<byte>, mem: Memory): Client {
    match mem
    case NoNode => c
    case NoBuffer => c.(cursor := 0, h := c.h.(order := []))
    case Granted => c.(queue := [Item(bytes, 0, 0, c.h.serials, false)] + c.queue, cursor := 0,
                       h := c.h.(serials := c.h.serials + 1, order := []))
  }

  function RemoveAt(c: Client, i: nat): Client
    requires i < |c.queue|
  {
    c.(queue := Without(c.queue, i), cursor := CursorWithout(c.cursor, i))
  }

  // a packet to append
  datatype New = New(bytes: seq<byte>, id: nat)

  /** What one piece of work does to the outbox: at most one packet appended, then at most one removed. */
  datatype Edit = Edit(add: Option<New>, remove: Option<nat>, notes: seq<Note>)

  const NOTHING := Edit(None, None, [])

  // _addPacket: a packet that could not be built leaves no trace
  function Added(bytes: seq<byte>, id: nat, mem: Memory): Option<New> {
    if mem == Granted then Some(New(bytes, id)) else None
  }

  function AppendNew(c: Client, add: Option<New>): (d: Client)
    ensures |c.queue| <= |d.queue| && d.cursor == c.cursor
  {
    match add
    case None => c
    case Some(p) => c.(queue := c.queue + [Item(p.bytes, p.id, 0, c.h.serials, false)], h := c.h.(serials := c.h.serials + 1))
  }

  function Apply(c: Client, e: Edit): (d: Client)
    requires e.remove.Some? ==> e.remove.value < |c.queue|
    ensures d.state == c.state && d.packetId == c.packetId && d.pingSent == c.pingSent
  {
    var c1 := AppendNew(c, e.add);
    WithNotes(if e.remove.Some? then RemoveAt(c1, e.remove.value) else c1, e.notes)
  }

  /** Index of the first packet of a kind, or |queue|. */
  function FirstOf(q: seq<Item>, kind: byte): (i: nat)
    ensures i <= |q| && (i < |q| ==> TypeOf(q[i]) == kind)
    ensures forall j :: 0 <= j < i ==> TypeOf(q[j]) != kind
  {
    if q == [] || TypeOf(q[0]) == kind then 0 else 1 + FirstOf(q[1..], kind)
  }

  /** Index of the first packet of a kind with an id, or |queue|. */
  function FirstWith(q: seq<Item>, kind: byte, id: nat): (i: nat)
    ensures i <= |q| && (i < |q| ==> TypeOf(q[i]) == kind && q[i].id == id)
    ensures forall j :: 0 <= j < i ==> !(TypeOf(q[j]) == kind && q[j].id == id)
  {
    if q == [] || (TypeOf(q[0]) == kind && q[0].id == id) then 0 else 1 + FirstWith(q[1..], kind, id)
  }

  /** Index of the first packet with an id, whatever its kind, or |queue|. */
  function FirstId(q: seq<Item>, id: nat): (i: nat)
    ensures i <= |q| && (i < |q| ==> q[i].id == id)
    ensures forall j :: 0 <= j < i ==> q[j].id != id
  {
    if q == [] || q[0].id == id then 0 else 1 + FirstId(q[1..], id)
  }

  // an outgoing QoS > 0 message in either stage
  predicate InFlight(p: Item) {
    p.id != 0 && (TypeOf(p) == PUBLISH || TypeOf(p) == PUBREL)
  }

  // the stored id of a received QoS 2 message
  predicate Receipt(p: Item) {
    p.id != 0 && TypeOf(p) == PUBREC
  }

  // what is lost with a packet that is dropped
  function Loss(p: Item): seq<Note> {
    if InFlight(p) then [Discarded(p.id)] else if Receipt(p) then [Forgotten(p.id)] else []
  }

  // ---- clearing ----

  predicate Keeps(level: nat, p: Item) {
    match level
    case 0 => TypeOf(p) == PUBREC || TypeOf(p) == PUBREL || (TypeOf(p) == PUBLISH && p.id != 0)
    case 1 => TypeOf(p) == PUBLISH
    case _ => false
  }

  function Kept(q: seq<Item>, level: nat): seq<Item> {
    if q == [] then [] else (if Keeps(level, q[0]) then [q[0]] else []) + Kept(q[1..], level)
  }

  function Losses(q: seq<Item>, level: nat): seq<Note> {
    if q == [] then [] else (if Keeps(level, q[0]) then [] else Loss(q[0])) + Losses(q[1..], level)
  }

  /** _clearQueue: the order-preserving filter; the cursor goes to the first survivor from its old place on. */
  function ClearQueue(c: Client, level: nat): Client
    requires c.cursor <= |c.queue|
  {
    WithNotes(c.(queue := Kept(c.queue, level), cursor := |Kept(c.queue[..c.cursor], level)|), Losses(c.queue, level))
  }

  // ---- sending ----

  // what is left of the current packet
  function Available(c: Client): nat {
    if c.cursor < |c.queue| then Offered(|c.queue[c.cursor].bytes|, c.bytesSent) else 0
  }

  // what bytesSent counts are bytes of the current packet
  predicate FromStart(c: Client)
    requires c.cursor < |c.queue|
  {
    c.bytesSent == 0 || c.h.started == c.queue[c.cursor].serial
  }

  /** _sendPacket, with a transport that takes w bytes or all it is offered. */
  function SendPacket(c: Client, w: nat, now: nat): Client {
    if Available(c) == 0 then c
    else
      var p := c.queue[c.cursor];
      var n := Min(w, Available(c));
      c.(queue := c.queue[c.cursor := p.(timeSent := now, whole := p.whole || (c.bytesSent + n == |p.bytes| && FromStart(c)))],
         bytesSent := c.bytesSent + n, lastClientActivity := now,
         h := c.h.(wire := c.h.wire + p.bytes[c.bytesSent..c.bytesSent + n],
                   started := if c.bytesSent == 0 && n > 0 then p.serial else c.h.started))
  }

  /** _advanceOutbox */
  function AdvanceOutbox(c: Client): Client {
    if c.cursor < |c.queue| && c.bytesSent == |c.queue[c.cursor].bytes| then
      var p := c.queue[c.cursor];
      var logged := c.h.(done := c.h.done + [p.bytes], order := if TypeOf(p) != CONNECT then c.h.order + [p.serial] else c.h.order);
      var c1 := if TypeOf(p) == DISCONNECT then c.(state := DisconnectingTcp1, reason := 0, bytesSent := 0, h := logged)
                else c.(bytesSent := 0, h := logged);
      if Removable(p) then RemoveAt(c1, c.cursor) else c1.(queue := c.queue[c.cursor := SetDup(p)], cursor := c.cursor + 1)
    else c
  }

  // one turn of the send loop; advancing follows only a write that took something
  function Pump(c: Client, w: nat, now: nat): Client {
    var sent := SendPacket(c, w, now);
    if Min(w, Available(c)) > 0 then AdvanceOutbox(sent) else sent
  }

  // ---- user calls ----

  function NextPacketId(last: nat): (id: nat)
    ensures 0 < id < 65536
  {
    var id := (last + 1) % 65536;
    if id == 0 then 1 else id
  }

  function Connect(c: Client, mem: Memory): Client {
    if c.state != Disconnected then c
    else
      var c1 := AddPacketFront(c, c.config.connectBytes, mem);
      if mem == Granted
      then WithNotes(c1.(state := ConnectingTcp1, h := c1.h.(connackSeen := false, wire := [], done := [])), [ConnectCalled])
      else WithNotes(c1, [OnError(0)])
  }

  function Disconnect(c: Client, force: bool): Client {
    if force && c.state !in {Disconnected, DisconnectingTcp1, DisconnectingTcp2} then c.(state := DisconnectingTcp1)
    else if !force && c.state == Connected then c.(state := DisconnectingMqtt1)
    else c
  }

  function PublishCall(c: Client, topic: seq<byte>, payload: seq<byte>, qos: nat, retain: bool, mem: Memory): Client {
    if Number(c.state) > Number(Connected) then c
    else
      var id := NextPacketId(c.packetId);
      var bytes := PublishBytes(id, topic, payload, qos, retain);
      if qos > 0 then
        Apply(c.(packetId := id), Edit(Added(bytes, id, mem), None, [if mem == Granted then Accepted(id) else OnError(id)]))
      else
        Apply(c, Edit(Added(PublishBytes(1, topic, payload, 0, retain), 0, mem), None, if mem == Granted then [] else [OnError(1)]))
  }

  function Subscribe(c: Client, items: seq<SubscribeItem>, mem: Memory): Client {
    if c.state != Connected then c
    else
      var id := NextPacketId(c.packetId);
      Apply(c.(packetId := id), Edit(Added(SubscribeBytes(id, items), id, mem), None, []))
  }

  function Unsubscribe(c: Client, topics: seq<seq<byte>>, mem: Memory): Client {
    if c.state != Connected then c
    else
      var id := NextPacketId(c.packetId);
      Apply(c.(packetId := id), Edit(Added(UnsubscribeBytes(id, topics), id, mem), None, []))
  }

  // ---- received packets ----

  function OnConnack(c: Client, sessionPresent: byte, returnCode: byte): Client
    requires c.cursor <= |c.queue|
  {
    var seen := c.(h := c.h.(connackSeen := true));
    if returnCode == 0 then
      var c1 := AdvanceOutbox(seen.(pingSent := false, state := Connected));
      var c2 := if sessionPresent == 0 then ClearQueue(c1, 1) else c1;
      WithNotes(c2, [OnConnect(sessionPresent != 0)])
    else seen.(state := DisconnectingTcp1, reason := returnCode)
  }

  // IncomingPacket::qos
  function QosOf(header: byte): nat {
    if Kind(header) == PUBLISH then QosBits(header) else 0
  }

  // the fragment is the last of its message
  predicate Last(e: P.Event)
    requires e.Publish?
  {
    e.index + |e.data| == e.total
  }

  function OnPublish(q: seq<Item>, e: P.Event, mem: Memory): Edit
    requires e.Publish? && e.id < 65536
  {
    var qos := QosOf(e.header);
    var known := qos == 2 && FirstWith(q, PUBREC, e.id) < |q|;
    var callback := if known then [] else [Fragment(e)];
    if !Last(e) || qos == 0 || qos == 3 then Edit(None, None, callback)
    else if qos == 1 then Edit(Added(AckBytes(PUBACK, e.id), e.id, mem), None, callback)
    else Edit(Added(AckBytes(PUBREC, e.id), e.id, mem), None,
              [if mem == Granted then Stored(e.id, !known) else Unstored(e.id, !known)] + callback)
  }

  // the first PUBLISH decides; a PUBACK that does not match it is dropped
  function OnPuback(q: seq<Item>, id: nat): Edit {
    var i := FirstOf(q, PUBLISH);
    if i < |q| && q[i].id == id then Edit(None, Some(i), [Completed(id)]) else NOTHING
  }

  function OnPubrec(q: seq<Item>, id: nat, mem: Memory): Edit
    requires id < 65536
  {
    var i := FirstOf(q, PUBLISH);
    if i < |q| && q[i].id == id
    then Edit(Added(AckBytes(PUBREL, id), id, mem), Some(i), if mem == Granted then [] else [Discarded(id)])
    else NOTHING
  }

  function OnPubrel(q: seq<Item>, id: nat, mem: Memory): Edit
    requires id < 65536
  {
    var i := FirstOf(q, PUBREC);
    if i < |q| && q[i].id == id then Edit(Added(AckBytes(PUBCOMP, id), id, mem), Some(i), [Released(id)]) else NOTHING
  }

  function OnPubcomp(q: seq<Item>, id: nat): Edit {
    var i := FirstOf(q, PUBREL);
    if i < |q| && q[i].id == id then Edit(None, Some(i), [Completed(id)]) else NOTHING
  }

  function OnSuback(q: seq<Item>, id: nat): Edit {
    var i := FirstWith(q, SUBSCRIBE, id);
    if i < |q| then Edit(None, Some(i), [OnSubscribe(id)]) else NOTHING
  }

  /** UNSUBACK takes the first packet with its id, of whatever kind. */
  function OnUnsuback(q: seq<Item>, id: nat): Edit {
    var i := FirstId(q, id);
    if i < |q| then Edit(None, Some(i), Loss(q[i]) + [OnUnsubscribe(id)]) else NOTHING
  }

  // what the parser guarantees about a packet it reports
  predicate WellFormedEvent(e: P.Event) {
    match e
    case Publish(header, _, id, _, _, _) => Kind(header) == PUBLISH && id < 65536 && (QosBits(header) != 0 ==> id != 0)
    case Ack(header, id) => Kind(header) in {PUBACK, PUBREC, PUBREL, PUBCOMP, UNSUBACK} && 0 < id < 65536
    case Suback(id, _) => 0 < id < 65536
    case _ => true
  }

  /** What a received packet other than CONNACK does to the outbox. */
  function Response(q: seq<Item>, e: P.Event, mem: Memory): (r: Edit)
    requires WellFormedEvent(e)
    ensures r.remove.Some? ==> r.remove.value < |q|
  {
    match e
    case Publish(_, _, _, _, _, _) => OnPublish(q, e, mem)
    case Ack(header, id) =>
      var kind := Kind(header);
      if kind == PUBACK then OnPuback(q, id)
      else if kind == PUBREC then OnPubrec(q, id, mem)
      else if kind == PUBREL then OnPubrel(q, id, mem)
      else if kind == PUBCOMP then OnPubcomp(q, id)
      else OnUnsuback(q, id)
    case Suback(id, _) => OnSuback(q, id)
    case _ => NOTHING
  }

  function Receive(c: Client, e: P.Event, mem: Memory): Client
    requires c.cursor <= |c.queue| && WellFormedEvent(e)
  {
    if e.Connack? then OnConnack(c, e.sessionPresent, e.returnCode)
    else if c.state == ConnectingMqtt then c.(state := DisconnectingTcp1)
    else if e.Pingresp? then c.(pingSent := false)
    else if e.Publish? && Number(c.state) >= Number(DisconnectingMqtt1) then c
    else Apply(c, Response(c.queue, e, mem))
  }

  // ---- timers ----

  function CheckPing(c: Client, now: nat, mem: Memory): Client {
    if c.config.keepAlive == 0 then c
    else if Elapsed(now, c.lastServerActivity) > 2 * c.config.keepAlive then c.(state := DisconnectingTcp1, reason := TCP_DISCONNECTED)
    else if !c.pingSent && (Elapsed(now, c.lastClientActivity) > c.config.keepAlive || Elapsed(now, c.lastServerActivity) > c.config.keepAlive)
    then Apply(c.(pingSent := mem == Granted), Edit(Added(BareBytes(PINGREQ), 0, mem), None, []))
    else c
  }

  function CheckTimeout(c: Client, now: nat): Client {
    if c.queue != [] && c.bytesSent == 0 && c.cursor != 0 && Elapsed(now, c.queue[0].timeSent) > c.config.timeout
    then c.(cursor := 0, h := c.h.(order := []))
    else c
  }

  // ---- the machine ----

  datatype Action =
    | DoConnect(mem: Memory)
    | DoDisconnect(force: bool)
    | DoPublish(topic: seq<byte>, payload: seq<byte>, qos: nat, retain: bool, mem: Memory)
    | DoSubscribe(items: seq<SubscribeItem>, mem: Memory)
    | DoUnsubscribe(topics: seq<seq<byte>>, mem: Memory)
    | DoClearQueue(deleteSessionData: bool)
    | TcpConnect(ok: bool)
    | TcpUp(now: nat)
    | LinkLost
    | TcpStop
    | TcpGone
    | Goodbye(mem: Memory)
    | SendOnly(written: nat, now: nat)
    | SendAndAdvance(written: nat, now: nat)
    | Heard(now: nat)
    | Received(e: P.Event, mem: Memory)
    | Garbled
    | Ping(now: nat, mem: Memory)
    | Timeout(now: nat)

  predicate UserCall(a: Action) {
    a.DoConnect? || a.DoDisconnect? || a.DoPublish? || a.DoSubscribe? || a.DoUnsubscribe? || a.DoClearQueue?
  }

  // the states in which packets travel after CONNACK; within one pass the last of them may be entered on the way
  predicate Talking(c: Client) {
    c.h.connackSeen && 4 <= Number(c.state) <= 7
  }

  /**
    When the loop can perform an action. User calls can come at any time; a QoS above 2 is the caller's error,
    as the PUBLISH header byte is lost then.
   */
  predicate Enabled(c: Client, a: Action) {
    match a
    case DoPublish(_, _, qos, _, _) => qos <= 2
    case TcpConnect(_) => c.state == ConnectingTcp1
    case TcpUp(_) => c.state == ConnectingTcp2
    case LinkLost => c.state in {ConnectingTcp2, ConnectingMqtt, Connected, DisconnectingMqtt2}
    case TcpStop => c.state == DisconnectingTcp1
    case TcpGone => c.state == DisconnectingTcp2
    case Goodbye(_) => c.state == DisconnectingMqtt1 && c.queue == []
    case SendOnly(_, _) => c.state == ConnectingMqtt
    case SendAndAdvance(_, _) => Talking(c)
    case Heard(_) => c.state == ConnectingMqtt || Talking(c)
    case Received(e, _) => (c.state == ConnectingMqtt || Talking(c)) && WellFormedEvent(e)
    case Garbled => c.state == ConnectingMqtt || Talking(c)
    case Ping(_, _) => 3 <= Number(c.state) <= 7
    case Timeout(_) => Talking(c)
    case _ => true
  }

  function Step(c: Client, a: Action): Client
    requires c.cursor <= |c.queue| && Enabled(c, a)
  {
    match a
    case DoConnect(mem) => Connect(c, mem)
    case DoDisconnect(force) => Disconnect(c, force)
    case DoPublish(topic, payload, qos, retain, mem) => PublishCall(c, topic, payload, qos, retain, mem)
    case DoSubscribe(items, mem) => Subscribe(c, items, mem)
    case DoUnsubscribe(topics, mem) => Unsubscribe(c, topics, mem)
    case DoClearQueue(deleteSessionData) => ClearQueue(c, if deleteSessionData then 2 else 0)
    case TcpConnect(ok) => if ok then c.(state := ConnectingTcp2) else c.(state := DisconnectingTcp1, reason := TCP_DISCONNECTED)
    case TcpUp(now) => c.(state := ConnectingMqtt, lastClientActivity := now, lastServerActivity := now)
    case LinkLost => c.(state := DisconnectingTcp1, reason := TCP_DISCONNECTED)
    case TcpStop => c.(state := DisconnectingTcp2)
    case TcpGone =>
      var c1 := ClearQueue(c, 0);
      WithNotes(c1.(state := Disconnected, bytesSent := 0, h := c1.h.(wire := [], done := [])), [OnDisconnect(c.reason)])
    case Goodbye(mem) =>
      Apply(if mem == Granted then c.(state := DisconnectingMqtt2) else c,
            Edit(Added(BareBytes(DISCONNECT), 0, mem), None, if mem == Granted then [] else [OnError(0)]))
    case SendOnly(written, now) => SendPacket(c, written, now)
    case SendAndAdvance(written, now) => Pump(c, written, now)
    case Heard(now) => c.(lastServerActivity := now)
    case Received(e, mem) => Receive(c, e, mem)
    case Garbled => c.(state := DisconnectingTcp1, reason := TCP_DISCONNECTED)
    case Ping(now, mem) => CheckPing(c, now, mem)
    case Timeout(now) => CheckTimeout(c, now)
  }
}
