/**
  What the queued packets say. Every one was made by an action of the run, and a receiver reads in its bytes what
  that action was about, with the id the packet is booked under.
 */
module ClientPackets {
  import opened Bytes
  import opened Constants
  import opened Options
  import opened RemainingLength
  import opened PacketSpec
  import opened Outbox
  import opened ClientSpec
  import opened ClientRuns
  import opened ClientFraming
  import ClientLedger
  import opened ClientOrder
  import opened ClientTrace
  import P = ParserSpec
  import R = RoundTrip

  /** The bytes are one packet, which a receiver's parser reports as e. */
  predicate Reads(bs: seq<byte>, e: P.Event) {
    P.Run(P.AwaitHeader, bs) == P.Trace(P.AwaitHeader, P.Shatter(e))
  }

  // the fragment is the last of its message
  predicate Completes(e: P.Event) {
    e.Publish? && e.index + |e.data| == e.total
  }

  // ---- which action made a packet ----

  predicate Made(config: Config, a: Action, p: Item) {
    match a
    case DoConnect(mem) => mem == Granted && p.id == 0 && p.bytes == config.connectBytes
    case DoPublish(topic, payload, qos, retain, mem) =>
      mem == Granted && qos <= 2 && p.id < 65536 && (p.id == 0 <==> qos == 0) &&
      var bytes := PublishBytes(if qos > 0 then p.id else 1, topic, payload, qos, retain);
      p.bytes == bytes || (qos > 0 && SameButDup(bytes, p.bytes))
    case DoSubscribe(items, mem) => mem == Granted && 0 < p.id < 65536 && p.bytes == SubscribeBytes(p.id, items)
    case DoUnsubscribe(topics, mem) => mem == Granted && 0 < p.id < 65536 && p.bytes == UnsubscribeBytes(p.id, topics)
    case Goodbye(mem) => mem == Granted && p.id == 0 && p.bytes == BareBytes(DISCONNECT)
    case Ping(_, mem) => mem == Granted && p.id == 0 && p.bytes == BareBytes(PINGREQ)
    case Received(e, mem) => mem == Granted && 0 < p.id < 65536 && AnswerTo(e, p)
    case _ => false
  }

  predicate AnswerTo(e: P.Event, p: Item)
    requires 0 < p.id < 65536
  {
    match e
    case Publish(header, _, id, _, _, _) =>
      && p.id == id && Completes(e)
      && ((QosBits(header) == 1 && p.bytes == AckBytes(PUBACK, id)) || (QosBits(header) == 2 && p.bytes == AckBytes(PUBREC, id)))
    case Ack(header, id) =>
      && p.id == id
      && ((Kind(header) == PUBREC && p.bytes == AckBytes(PUBREL, id)) || (Kind(header) == PUBREL && p.bytes == AckBytes(PUBCOMP, id)))
    case _ => false
  }

  predicate Origin(config: Config, past: seq<Action>, p: Item) {
    exists k :: 0 <= k < |past| && Made(config, past[k], p)
  }

  predicate AllMade(c: Client, past: seq<Action>) {
    forall p :: p in c.queue ==> Origin(c.config, past, p)
  }

  // ---- a step keeps packets, marks one, or makes one ----

  // the same packet, marked as a duplicate at most
  predicate Descends(o: Item, p: Item) {
    p.id == o.id && (p.bytes == o.bytes || (Pub(o) && o.id != 0 && SameButDup(o.bytes, p.bytes)))
  }

  predicate HasParent(q: seq<Item>, p: Item) {
    exists i :: 0 <= i < |q| && Descends(q[i], p)
  }

  predicate AllDescend(q: seq<Item>, r: seq<Item>) {
    forall p :: p in r ==> HasParent(q, p)
  }

  lemma DescendTwice(q: seq<Item>, r: seq<Item>, s: seq<Item>)
    requires AllDescend(q, r) && AllDescend(r, s)
    ensures AllDescend(q, s)
  {
    forall p | p in s ensures HasParent(q, p) {
      var j :| 0 <= j < |r| && Descends(r[j], p);
      assert r[j] in r;
      var i :| 0 <= i < |q| && Descends(q[i], r[j]);
      SameOrDup(q[i], r[j], p);
      assert Descends(q[i], p);
    }
  }

  lemma SameOrDup(a: Item, b: Item, c: Item)
    requires Descends(a, b) && Descends(b, c)
    ensures Descends(a, c)
  {
    if Pub(a) && a.id != 0 { DupTwice(a.bytes, b.bytes, c.bytes); }
  }

  lemma AllThere(q: seq<Item>, r: seq<Item>)
    requires forall p :: p in r ==> p in q
    ensures AllDescend(q, r)
  {
    forall p | p in r ensures HasParent(q, p) {
      var i :| 0 <= i < |q| && q[i] == p;
      assert Descends(q[i], p);
    }
  }

  lemma PlaceByPlace(q: seq<Item>, r: seq<Item>)
    requires |r| == |q| && forall i :: 0 <= i < |r| ==> Descends(q[i], r[i])
    ensures AllDescend(q, r)
  {
    forall p | p in r ensures HasParent(q, p) {
      var i :| 0 <= i < |r| && r[i] == p;
      assert Descends(q[i], p);
    }
  }

  lemma SendDescend(c: Client, w: nat, now: nat)
    ensures AllDescend(c.queue, SendPacket(c, w, now).queue)
  {
    PlaceByPlace(c.queue, SendPacket(c, w, now).queue);
  }

  lemma AdvanceDescend(c: Client)
    ensures AllDescend(c.queue, AdvanceOutbox(c).queue)
  {
    var d := AdvanceOutbox(c);
    if c.cursor < |c.queue| && c.bytesSent == |c.queue[c.cursor].bytes| && !Removable(c.queue[c.cursor]) {
      PlaceByPlace(c.queue, d.queue);
    } else {
      AllThere(c.queue, d.queue);
    }
  }

  lemma ClearDescend(c: Client, level: nat)
    requires c.cursor <= |c.queue|
    ensures AllDescend(c.queue, ClearQueue(c, level).queue)
  {
    KeptFrom(c.queue, level);
    AllThere(c.queue, ClearQueue(c, level).queue);
  }

  lemma ConnackDescend(c: Client, sessionPresent: byte, returnCode: byte)
    requires c.cursor <= |c.queue|
    ensures AllDescend(c.queue, OnConnack(c, sessionPresent, returnCode).queue)
  {
    var c0 := c.(pingSent := false, state := Connected, h := c.h.(connackSeen := true));
    AllThere(c.queue, c.queue);
    AdvanceDescend(c0);
    AdvanceCursor(c0);
    hide AdvanceOutbox, AllDescend, ClearQueue;
    var c1 := AdvanceOutbox(c0);
    if returnCode == 0 && sessionPresent == 0 {
      ClearDescend(c1, 1);
      DescendTwice(c.queue, c1.queue, ClearQueue(c1, 1).queue);
    }
  }

  // what is new in the queue after a step was made by it
  lemma StepDescends(c: Client, a: Action, p: Item)
    requires Basic(c) && Enabled(c, a) && p in Step(c, a).queue
    ensures HasParent(c.queue, p) || Made(c.config, a, p)
  {
    hide ClearQueue, AdvanceOutbox, SendPacket, OnConnack, Apply, Made, HasParent, AddPacketFront;
    AllThere(c.queue, c.queue);
    if Plain(a) {
      PlainDescends(c, a, p);
    } else {
      match a {
        case DoConnect(mem) => FrontDescends(c, mem, p);
        case DoClearQueue(all) => ClearDescend(c, if all then 2 else 0);
        case TcpGone => ClearDescend(c, 0);
        case SendOnly(w, now) => SendDescend(c, w, now);
        case SendAndAdvance(w, now) =>
          SendDescend(c, w, now);
          AdvanceDescend(SendPacket(c, w, now));
          DescendTwice(c.queue, SendPacket(c, w, now).queue, AdvanceOutbox(SendPacket(c, w, now)).queue);
        case Received(e, _) => ConnackDescend(c, e.sessionPresent, e.returnCode);
        case Timeout(now) =>
      }
    }
  }

  lemma FrontDescends(c: Client, mem: Memory, p: Item)
    requires p in Connect(c, mem).queue
    ensures HasParent(c.queue, p) || Made(c.config, DoConnect(mem), p)
  {
    AllThere(c.queue, c.queue);
  }

  lemma PlainDescends(c: Client, a: Action, p: Item)
    requires Basic(c) && Enabled(c, a) && Plain(a) && p in Step(c, a).queue
    ensures HasParent(c.queue, p) || Made(c.config, a, p)
  {
    hide Step, Enabled, EditFor, Made, HasParent;
    PlainStep(c, a);
    AllThere(c.queue, c.queue);
    var e := EditFor(c, a);
    if p !in c.queue { EditMade(c, a, p); }
  }

  // the packet a plain action appends
  lemma EditMade(c: Client, a: Action, p: Item)
    requires Plain(a) && Enabled(c, a)
    ensures var e := EditFor(c, a).add; e.Some? && p.bytes == e.value.bytes && p.id == e.value.id ==> Made(c.config, a, p)
  {
    hide PublishBytes, SubscribeBytes, UnsubscribeBytes, Elapsed, AckBytes, BareBytes, FirstOf, FirstWith, FirstId, SameButDup, NextPacketId;
  }

  // ---- runs ----

  // only publish() makes a PUBLISH
  lemma NoPublish(config: Config, a: Action, p: Item)
    requires Made(config, a, p) && !a.DoPublish?
    ensures !(Pub(p) && p.id != 0)
  {
    hide SubscribeBytes, UnsubscribeBytes;
    match a {
      case DoSubscribe(items, _) => ClientLedger.FirstBytes(p.id, [], [], 0, false, items, []);
      case DoUnsubscribe(topics, _) => ClientLedger.FirstBytes(p.id, [], [], 0, false, [], topics);
      case _ =>
    }
  }

  lemma DescendMade(config: Config, a: Action, o: Item, p: Item)
    requires Made(config, a, o) && Descends(o, p)
    ensures Made(config, a, p)
  {
    hide PublishBytes, SubscribeBytes, UnsubscribeBytes, AckBytes;
    if a.DoPublish? {
      var bytes := PublishBytes(if a.qos > 0 then o.id else 1, a.topic, a.payload, a.qos, a.retain);
      if a.qos > 0 && p.bytes != o.bytes { DupTwice(bytes, o.bytes, p.bytes); }
    } else {
      NoPublish(config, a, o);
    }
  }

  lemma StepMade(c: Client, a: Action, past: seq<Action>)
    requires Basic(c) && Enabled(c, a) && AllMade(c, past)
    ensures AllMade(Step(c, a), past + [a])
  {
    hide Step, Enabled, Made, Descends;
    StepBasic(c, a);
    forall p | p in Step(c, a).queue ensures Origin(c.config, past + [a], p) {
      StepDescends(c, a, p);
      if HasParent(c.queue, p) {
        var i :| 0 <= i < |c.queue| && Descends(c.queue[i], p);
        assert c.queue[i] in c.queue;
        var k :| 0 <= k < |past| && Made(c.config, past[k], c.queue[i]);
        DescendMade(c.config, past[k], c.queue[i], p);
        assert (past + [a])[k] == past[k];
      } else {
        assert (past + [a])[|past|] == a;
      }
    }
  }

  lemma {:induction false} RunMade(c: Client, past: seq<Action>, acts: seq<Action>)
    requires Basic(c) && EnabledRun(c, acts) && AllMade(c, past)
    ensures AllMade(Run(c, acts), past + acts) && Run(c, acts).config == c.config
    decreases |acts|
  {
    hide Step, Enabled, AllMade, Basic;
    if acts == [] {
      assert past + acts == past;
    } else {
      StepMade(c, acts[0], past);
      StepBasic(c, acts[0]);
      RunMade(Step(c, acts[0]), past + [acts[0]], acts[1..]);
      assert past + [acts[0]] + acts[1..] == past + acts;
    }
  }

  // ---- what a receiver reads ----

  predicate InBounds(topic: seq<byte>, payload: seq<byte>, qos: nat) {
    1 <= |topic| <= MAX_TOPIC_LENGTH && PublishRemaining(|topic|, |payload|, qos) <= MAX_REMAINING_LENGTH
  }

  /** The packet says what the action was about, and nothing else does it make. */
  predicate Spells(config: Config, a: Action, p: Item) {
    match a
    case DoConnect(_) => p.id == 0 && p.bytes == config.connectBytes
    case DoPublish(topic, payload, qos, retain, _) =>
      && (p.id == 0 <==> qos == 0) && p.bytes != []
      && (InBounds(topic, payload, qos) ==>
            var h := p.bytes[0];
            QosBits(h) == qos && RetainBit(h) == retain && Reads(p.bytes, P.Publish(h, topic, p.id, 0, payload, |payload|)))
    case DoSubscribe(items, _) =>
      && p.id != 0
      && (EncodableItems(items) && 2 + ItemsSize(items) <= MAX_REMAINING_LENGTH ==>
            IsRequest(p.bytes, SUBSCRIBE, p.id, ItemsBytes(items)) && ReadItems(ItemsBytes(items)) == items)
    case DoUnsubscribe(topics, _) =>
      && p.id != 0
      && (EncodableTopics(topics) && 2 + TopicsSize(topics) <= MAX_REMAINING_LENGTH ==>
            IsRequest(p.bytes, UNSUBSCRIBE, p.id, TopicsBytes(topics)) && ReadTopics(TopicsBytes(topics)) == topics)
    case Goodbye(_) => p.id == 0 && p.bytes == [0xE0, 0]
    case Ping(_, _) => p.id == 0 && p.bytes == [0xC0, 0]
    case Received(Publish(header, _, id, index, data, total), _) =>
      && p.id == id && index + |data| == total
      && ((QosBits(header) == 1 && Reads(p.bytes, P.Ack(0x40, id))) || (QosBits(header) == 2 && Reads(p.bytes, P.Ack(0x50, id))))
    case Received(Ack(header, id), _) =>
      && p.id == id
      && ((Kind(header) == PUBREC && Reads(p.bytes, P.Ack(0x62, id))) || (Kind(header) == PUBREL && Reads(p.bytes, P.Ack(0x70, id))))
    case _ => false
  }

  // each acknowledgement is read as itself
  lemma AckReads(id: nat)
    requires 0 < id < 65536
    ensures Reads(AckBytes(PUBACK, id), P.Ack(0x40, id)) && Reads(AckBytes(PUBREC, id), P.Ack(0x50, id))
    ensures Reads(AckBytes(PUBREL, id), P.Ack(0x62, id)) && Reads(AckBytes(PUBCOMP, id), P.Ack(0x70, id))
  {
    hide P.Run, AckBytes;
    R.RunPacket(R.Acknowledge(PUBACK, id));
    R.RunPacket(R.Acknowledge(PUBREC, id));
    R.RunPacket(R.Acknowledge(PUBREL, id));
    R.RunPacket(R.Acknowledge(PUBCOMP, id));
  }

  lemma PublishReads(bytes: seq<byte>, id: nat, topic: seq<byte>, payload: seq<byte>, qos: nat, retain: bool, dup: bool)
    requires qos <= 2 && id < 65536 && (qos > 0 ==> id > 0) && (dup ==> qos > 0) && InBounds(topic, payload, qos)
    requires var plain := PublishBytes(id, topic, payload, qos, retain);
             plain != [] && bytes == if dup then plain[0 := WithDup(plain[0])] else plain
    ensures bytes != [] && QosBits(bytes[0]) == qos && RetainBit(bytes[0]) == retain
    ensures Reads(bytes, P.Publish(bytes[0], topic, if qos > 0 then id else 0, 0, payload, |payload|))
  {
    hide P.Run, PublishHeader, Padded, P.Shatter;
    var p := R.Pub(id, topic, payload, qos, retain, dup);
    PublishStarts(id, topic, payload, qos, retain);
    R.HeaderRecovers(p);
    R.RunPacket(p);
    assert bytes == R.Serialize(p);
  }

  lemma PublishStarts(id: nat, topic: seq<byte>, payload: seq<byte>, qos: nat, retain: bool)
    requires qos <= 2 && id < 65536
    ensures var bytes := PublishBytes(id, topic, payload, qos, retain); bytes != [] && bytes[0] == PublishFirstByte(qos, retain)
  {
  }

  lemma MadeSpells(config: Config, a: Action, p: Item)
    requires Made(config, a, p)
    ensures Spells(config, a, p)
  {
    hide PublishBytes, SubscribeBytes, UnsubscribeBytes, AckBytes, Reads, IsRequest, ItemsBytes, TopicsBytes, ReadItems, ReadTopics, InBounds;
    match a {
      case DoPublish(topic, payload, qos, retain, _) =>
        var id := if qos > 0 then p.id else 1;
        var plain := PublishBytes(id, topic, payload, qos, retain);
        PublishStarts(id, topic, payload, qos, retain);
        if InBounds(topic, payload, qos) { PublishReads(p.bytes, id, topic, payload, qos, retain, p.bytes != plain); }
      case DoSubscribe(items, _) =>
        if EncodableItems(items) && 2 + ItemsSize(items) <= MAX_REMAINING_LENGTH { SubscribeAgreement(p.id, items); }
      case DoUnsubscribe(topics, _) =>
        if EncodableTopics(topics) && 2 + TopicsSize(topics) <= MAX_REMAINING_LENGTH { UnsubscribeAgreement(p.id, topics); }
      case Received(_, _) => AckReads(p.id);
      case _ =>
    }
  }

  /**
    In every run each queued packet was made by one of its actions, and says what that action was about: a PUBLISH
    the message that was published, an acknowledgement the id of the packet it answers.
   */
  lemma {:induction false} PacketsSpell(config: Config, acts: seq<Action>, p: Item)
    requires EnabledRun(Init(config), acts) && ConfigOk(config) && p in Run(Init(config), acts).queue
    ensures exists k :: 0 <= k < |acts| && Spells(config, acts[k], p)
  {
    hide Made, Spells;
    var c := Init(config);
    RunMade(c, [], acts);
    assert [] + acts == acts;
    var k :| 0 <= k < |acts| && Made(config, acts[k], p);
    MadeSpells(config, acts[k], p);
  }

  /** The id an acknowledgement is booked under is the one in its bytes. */
  lemma {:induction false} AcksCarryTheirId(config: Config, acts: seq<Action>, p: Item)
    requires EnabledRun(Init(config), acts) && ConfigOk(config) && p in Run(Init(config), acts).queue
    requires TypeOf(p) in {PUBACK, PUBREC, PUBREL, PUBCOMP}
    ensures Reads(p.bytes, P.Ack(p.bytes[0], p.id)) && 0 < p.id < 65536
  {
    hide Made, Reads;
    var c := Init(config);
    RunMade(c, [], acts);
    assert [] + acts == acts;
    var k :| 0 <= k < |acts| && Made(config, acts[k], p);
    MadeAck(config, acts[k], p);
  }

  lemma MadeAck(config: Config, a: Action, p: Item)
    requires ConfigOk(config) && Made(config, a, p) && TypeOf(p) in {PUBACK, PUBREC, PUBREL, PUBCOMP}
    ensures Reads(p.bytes, P.Ack(p.bytes[0], p.id)) && 0 < p.id < 65536
  {
    hide PublishBytes, SubscribeBytes, UnsubscribeBytes, Reads;
    match a {
      case DoPublish(topic, payload, qos, retain, _) => PublishStarts(if qos > 0 then p.id else 1, topic, payload, qos, retain);
      case DoSubscribe(items, _) => ClientLedger.FirstBytes(p.id, [], [], 0, false, items, []);
      case DoUnsubscribe(topics, _) => ClientLedger.FirstBytes(p.id, [], [], 0, false, [], topics);
      case Received(_, _) => AckReads(p.id);
      case _ =>
    }
  }
}
