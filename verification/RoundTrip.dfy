/** The parser inverts the serialiser, on whole streams and however they are cut. */
module RoundTrip {
  import opened Bytes
  import opened Constants
  import opened Options
  import opened RemainingLength
  import opened StringUtil
  import opened PacketSpec
  import opened ParserSpec
  import opened Messages

  /** Everything a client can receive: what it also sends itself, and the packets only a server sends. */
  datatype Packet =
    | Pub(id: nat, topic: seq<byte>, payload: seq<byte>, qos: nat, retain: bool, dup: bool)
    | Acknowledge(kind: byte, ackId: nat)
    | ConnackPacket(sessionPresent: byte, returnCode: byte)
    | SubackPacket(ackId: nat, codes: seq<byte>)
    | UnsubackPacket(ackId: nat)
    | PingrespPacket

  predicate Legal(p: Packet) {
    match p
    case Pub(id, topic, payload, qos, _, dup) =>
      && 1 <= |topic| <= MAX_TOPIC_LENGTH && qos <= 2
      && id < 65536 && (qos > 0 ==> id > 0) && (dup ==> qos > 0)
      && PublishRemaining(|topic|, |payload|, qos) <= MAX_REMAINING_LENGTH
    case Acknowledge(kind, id) => kind in {PUBACK, PUBREC, PUBREL, PUBCOMP} && 0 < id < 65536
    case ConnackPacket(sessionPresent, returnCode) => sessionPresent <= 1 && returnCode <= 5
    case SubackPacket(id, codes) => 0 < id < 65536 && 1 <= |codes| < PAYLOAD_BUFFER_SIZE && LegalCodes(codes)
    case UnsubackPacket(id) => 0 < id < 65536
    case PingrespPacket => true
  }

  // granted QoS, or failure
  predicate LegalCodes(codes: seq<byte>) {
    forall i :: 0 <= i < |codes| ==> codes[i] in {0, 1, 2, 0x80}
  }

  function Header(p: Packet): byte
    requires Legal(p)
  {
    match p
    case Pub(_, _, _, qos, retain, dup) => if dup then WithDup(PublishFirstByte(qos, retain)) else PublishFirstByte(qos, retain)
    case Acknowledge(kind, _) => if kind == PUBREL then kind + 2 else kind
    case ConnackPacket(_, _) => 0x20
    case SubackPacket(_, _) => 0x90
    case UnsubackPacket(_) => 0xB0
    case PingrespPacket => 0xD0
  }

  /**
    The packet's bytes; setDup changes the first of them. Those of a server are written down from sections 3.2,
    3.9, 3.11 and 3.13 of MQTT 3.1.1.
   */
  function Serialize(p: Packet): seq<byte>
    requires Legal(p)
  {
    match p
    case Pub(id, topic, payload, qos, retain, _) => PublishBytes(id, topic, payload, qos, retain)[0 := Header(p)]
    case Acknowledge(kind, id) => AckBytes(kind, id)
    case ConnackPacket(sessionPresent, returnCode) => [0x20, 2, sessionPresent, returnCode]
    case SubackPacket(id, codes) => [0x90, 2 + |codes|, id / 256, id % 256] + codes
    case UnsubackPacket(id) => [0xB0, 2, id / 256, id % 256]
    case PingrespPacket => [0xD0, 0]
  }

  /** What the receiver should be told: everything the sender put in, as one message. */
  function Expected(p: Packet): (e: Event)
    requires Legal(p)
    ensures Whole(e) && FitsTotal(e)
  {
    match p
    case Pub(id, topic, payload, qos, _, _) => Publish(Header(p), topic, if qos > 0 then id else 0, 0, payload, |payload|)
    case Acknowledge(_, id) => Ack(Header(p), id)
    case ConnackPacket(sessionPresent, returnCode) => Connack(sessionPresent, returnCode)
    case SubackPacket(id, codes) => Suback(id, codes)
    case UnsubackPacket(id) => Ack(0xB0, id)
    case PingrespPacket => Pingresp
  }

  /** The header of a received message tells QoS, RETAIN and DUP exactly as sent. */
  lemma HeaderRecovers(p: Packet)
    requires Legal(p)
    ensures p.Pub? ==> Kind(Header(p)) == PUBLISH && QosBits(Header(p)) == p.qos && RetainBit(Header(p)) == p.retain && DupBit(Header(p)) == p.dup
    ensures p.Pub? ==> Flags(Header(p)) <= 5 || Flags(Header(p)) >= 10
    ensures p.Acknowledge? ==> Kind(Header(p)) == p.kind && HasFixedLength(Header(p))
  {
    if p.Pub? && p.dup {
      var h := Header(p);
      assert Flags(h) >= 8 && Flags(h) / 2 % 4 >= 1;
    }
  }

  lemma RunTwo(s: State, a: byte, b: byte)
    ensures var first := Step(s, a);
            var second := Step(first.state, b);
            Run(s, [a, b]) == Trace(second.state, Emitted(first.event) + Emitted(second.event))
  {
    hide Step;
    assert [a, b][1..] == [b] && [b][1..] == [];
    assert Run(Step(s, a).state, [b]).events == Emitted(Step(Step(s, a).state, b).event) + [];
  }

  lemma RunOne(s: State, a: byte)
    ensures Run(s, [a]) == Trace(Step(s, a).state, Emitted(Step(s, a).event))
  {
    hide Step;
    assert [a][1..] == [];
    assert Run(Step(s, a).state, []) == Trace(Step(s, a).state, []);
  }

  lemma LengthStep(header: byte, raw: seq<byte>, b: byte)
    requires Kind(header) == PUBLISH
    ensures b >= 128 && |raw| + 1 < 4 ==> Step(AwaitLength(header, raw), b) == Wait(AwaitLength(header, raw + [b]))
    ensures b < 128 ==> Step(AwaitLength(header, raw), b) == Wait(AwaitTopicLength1(header, Decode(raw + [b])))
  {
  }

  lemma {:induction false} RunLength(header: byte, raw: seq<byte>, n: nat)
    requires Kind(header) == PUBLISH && |raw| + |Encode(n)| <= 4
    ensures Run(AwaitLength(header, raw), Encode(n)) == Trace(AwaitTopicLength1(header, Decode(raw + Encode(n))), [])
    decreases n
  {
    hide Step, Run, Decode;
    var b := Encode(n)[0];
    LengthStep(header, raw, b);
    RunOne(AwaitLength(header, raw), b);
    if n >= 128 {
      var rest := Encode(n / 128);
      RunLength(header, raw + [b], n / 128);
      RunAppend(AwaitLength(header, raw), [b], rest);
      Assoc(raw, [b], rest);
    }
  }

  // the state after a topic
  function AfterTopic(header: byte, total: nat, topic: seq<byte>): Outcome {
    if QosBits(header) != 0 then Wait(AwaitId1(header, topic, total))
    else if total == 0 then Emit(Publish(header, topic, 0, 0, [], 0))
    else Wait(InPayload(header, topic, 0, total, 0))
  }

  lemma {:induction false} RunTopic(header: byte, total: nat, topic: seq<byte>, from: nat)
    requires from < |topic| <= MAX_TOPIC_LENGTH
    ensures var o := AfterTopic(header, total, topic);
            Run(InTopic(header, |topic|, total, topic[..from]), topic[from..]) == Trace(o.state, Emitted(o.event))
    decreases |topic| - from
  {
    var rest := topic[from..];
    assert topic[..from] + [topic[from]] == topic[..from + 1];
    assert rest[1..] == topic[from + 1..];
    if from + 1 < |topic| {
      RunTopic(header, total, topic, from + 1);
    } else {
      assert topic[..from + 1] == topic;
      assert Run(AfterTopic(header, total, topic).state, rest[1..]).events == [];
    }
  }

  lemma TopicLengthSteps(header: byte, remaining: nat, length: nat)
    requires Kind(header) == PUBLISH && length < 65536
    requires 2 + length + (if QosBits(header) != 0 then 2 else 0) <= remaining < SIZE_MODULUS
    ensures var first := Step(AwaitTopicLength1(header, remaining), length / 256);
            first == Wait(first.state) && Step(first.state, length % 256) == Wait(InTopic(header, length, remaining - 2 - length, []))
  {
  }

  // the part of a PUBLISH between its length field and the end of its topic
  lemma RunTopicField(header: byte, remaining: nat, topic: seq<byte>)
    requires Kind(header) == PUBLISH && 1 <= |topic| <= MAX_TOPIC_LENGTH
    requires 2 + |topic| + (if QosBits(header) != 0 then 2 else 0) <= remaining < SIZE_MODULUS
    ensures var o := AfterTopic(header, remaining - 2 - |topic|, topic);
            Run(AwaitTopicLength1(header, remaining), EncodeText(topic)) == Trace(o.state, Emitted(o.event))
  {
    hide Step, AfterTopic, Run;
    var s := AwaitTopicLength1(header, remaining);
    var hi, lo := |topic| / 256, |topic| % 256;
    RunTwo(s, hi, lo);
    TopicLengthSteps(header, remaining, |topic|);
    var mid := InTopic(header, |topic|, remaining - 2 - |topic|, []);
    assert topic[..0] == [] && topic[0..] == topic;
    RunTopic(header, remaining - 2 - |topic|, topic, 0);
    RunAppend(s, [hi, lo], topic);
    assert EncodeText(topic) == [hi, lo] + topic;
  }

  // packet id, if any
  lemma RunId(header: byte, topic: seq<byte>, total: nat, id: nat)
    requires 0 < id < 65536 && Kind(header) == PUBLISH && 2 <= total < SIZE_MODULUS
    ensures var o := if total == 2 then Emit(Publish(header, topic, id, 0, [], 0)) else Wait(InPayload(header, topic, id, total - 2, 0));
            Run(AwaitId1(header, topic, total), Word(id)) == Trace(o.state, Emitted(o.event))
  {
    RunTwo(AwaitId1(header, topic, total), id / 256, id % 256);
  }

  lemma RunPayload(header: byte, topic: seq<byte>, id: nat, payload: seq<byte>)
    requires payload != []
    ensures Run(InPayload(header, topic, id, |payload|, 0), payload)
         == Trace(AwaitHeader, Shatter(Publish(header, topic, id, 0, payload, |payload|)))
  {
    assert payload[..|payload|] == payload && payload[0..|payload|] == payload;
    PayloadRun(InPayload(header, topic, id, |payload|, 0), payload, |payload|, Publish(header, topic, id, 0, payload, |payload|), 0);
  }

  function IdBytes(id: nat, qos: nat): seq<byte>
    requires id < 65536
  {
    if qos > 0 then Word(id) else []
  }

  lemma RunNothing(s: State)
    ensures Run(s, []) == Trace(s, [])
  {
  }

  lemma ShatterNothing(e: Event)
    requires e.Publish?
    ensures e.data == [] ==> Shatter(e) == [e]
  {
  }

  // variable header and payload of a PUBLISH
  lemma RunPublishBody(header: byte, id: nat, topic: seq<byte>, payload: seq<byte>, qos: nat)
    requires Kind(header) == PUBLISH && QosBits(header) == qos <= 2
    requires 1 <= |topic| <= MAX_TOPIC_LENGTH && id < 65536 && (qos > 0 ==> 0 < id)
    requires PublishRemaining(|topic|, |payload|, qos) <= MAX_REMAINING_LENGTH
    ensures Run(AwaitTopicLength1(header, PublishRemaining(|topic|, |payload|, qos)), EncodeText(topic) + (IdBytes(id, qos) + payload))
         == Trace(AwaitHeader, Shatter(Publish(header, topic, if qos > 0 then id else 0, 0, payload, |payload|)))
  {
    hide Step, EncodeText, Run, Shatter;
    ShatterNothing(Publish(header, topic, if qos > 0 then id else 0, 0, payload, |payload|));
    assert Run(AwaitHeader, []) == Trace(AwaitHeader, []) by { RunNothing(AwaitHeader); }
    var remaining := PublishRemaining(|topic|, |payload|, qos);
    var s := AwaitTopicLength1(header, remaining);
    RunTopicField(header, remaining, topic);
    var idBytes := IdBytes(id, qos);
    RunAppend(s, EncodeText(topic), idBytes + payload);
    if qos > 0 {
      var total := 2 + |payload|;
      var t := AwaitId1(header, topic, total);
      assert Run(s, EncodeText(topic)) == Trace(t, []);
      RunId(header, topic, total, id);
      RunAppend(t, Word(id), payload);
      if payload != [] {
        RunPayload(header, topic, id, payload);
      }
    } else {
      assert idBytes + payload == payload;
      if payload != [] {
        RunPayload(header, topic, 0, payload);
      }
    }
  }

  // fixed header and length field of a PUBLISH
  lemma RunFixedHeader(h: byte, remaining: nat, body: seq<byte>)
    requires Kind(h) == PUBLISH && (Flags(h) <= 5 || Flags(h) >= 10) && remaining <= MAX_REMAINING_LENGTH
    ensures Run(AwaitHeader, [h] + (Encode(remaining) + body)) == Run(AwaitTopicLength1(h, remaining), body)
  {
    hide Step, Run, Encode, Decode, Kind, Flags;
    var s := AwaitLength(h, []);
    HeaderStep(h);
    RunOne(AwaitHeader, h);
    RunAppend(AwaitHeader, [h], Encode(remaining) + body);
    LengthPrediction(remaining);
    RunLength(h, [], remaining);
    assert [] + Encode(remaining) == Encode(remaining) + [];
    DecodeEncode(remaining, []);
    RunAppend(s, Encode(remaining), body);
    TraceAfter(AwaitHeader, [h], Encode(remaining) + body);
    TraceAfter(s, Encode(remaining), body);
  }

  // what follows bytes that say nothing yet
  lemma TraceAfter(s: State, a: seq<byte>, b: seq<byte>)
    requires Run(s, a).events == []
    ensures Run(s, a + b) == Run(Run(s, a).state, b)
  {
    hide Run;
    RunAppend(s, a, b);
  }

  lemma RunPub(p: Packet)
    requires Legal(p) && p.Pub?
    ensures Run(AwaitHeader, Serialize(p)) == Trace(AwaitHeader, Shatter(Expected(p)))
  {
    hide Step, EncodeText, Run, Encode, Shatter, PublishBytes, IdBytes;
    HeaderRecovers(p);
    var remaining := PublishRemaining(|p.topic|, |p.payload|, p.qos);
    var body := EncodeText(p.topic) + (IdBytes(p.id, p.qos) + p.payload);
    PublishInParts(p.id, p.topic, p.payload, p.qos, p.retain);
    assert Serialize(p) == [Header(p)] + (Encode(remaining) + body);
    RunFixedHeader(Header(p), remaining, body);
    RunPublishBody(Header(p), p.id, p.topic, p.payload, p.qos);
  }

  lemma HeaderStep(h: byte)
    requires Kind(h) == PUBLISH && (Flags(h) <= 5 || Flags(h) >= 10)
    ensures Step(AwaitHeader, h) == Wait(AwaitLength(h, []))
  {
  }

  lemma AckSteps(p: Packet)
    requires Legal(p) && p.Acknowledge?
    ensures var h, id := Header(p), p.ackId;
            && Step(AwaitHeader, h) == Wait(AwaitFixedLength(h))
            && Step(AwaitFixedLength(h), 2) == Wait(AwaitId1(h, [], 0))
            && Step(AwaitId1(h, [], 0), id / 256) == Wait(AwaitId2(h, [], 0, id / 256))
            && Step(AwaitId2(h, [], 0, id / 256), id % 256) == Emit(Expected(p))
  {
    HeaderRecovers(p);
  }

  lemma RunAck(p: Packet)
    requires Legal(p) && p.Acknowledge?
    ensures Run(AwaitHeader, Serialize(p)) == Trace(AwaitHeader, Shatter(Expected(p)))
  {
    hide Step, Run;
    var h, id := Header(p), p.ackId;
    AckSteps(p);
    RunTwo(AwaitHeader, h, 2);
    RunTwo(AwaitId1(h, [], 0), id / 256, id % 256);
    RunAppend(AwaitHeader, [h, 2], Word(id));
    assert Serialize(p) == [h, 2] + Word(id);
  }

  lemma RunConnack(sessionPresent: byte, returnCode: byte)
    requires sessionPresent <= 1 && returnCode <= 5
    ensures Run(AwaitHeader, [0x20, 2, sessionPresent, returnCode]) == Trace(AwaitHeader, [Connack(sessionPresent, returnCode)])
  {
    hide Run;
    RunTwo(AwaitHeader, 0x20, 2);
    RunTwo(AwaitConnack1, sessionPresent, returnCode);
    RunAppend(AwaitHeader, [0x20, 2], [sessionPresent, returnCode]);
    assert [0x20 as byte, 2] + [sessionPresent, returnCode] == [0x20, 2, sessionPresent, returnCode];
  }

  lemma RunUnsuback(id: nat)
    requires 0 < id < 65536
    ensures Run(AwaitHeader, [0xB0, 2, id / 256, id % 256]) == Trace(AwaitHeader, [Ack(0xB0, id)])
  {
    hide Run;
    RunTwo(AwaitHeader, 0xB0, 2);
    RunTwo(AwaitId1(0xB0, [], 0), id / 256, id % 256);
    RunAppend(AwaitHeader, [0xB0, 2], [id / 256, id % 256]);
    assert [0xB0 as byte, 2] + [id / 256, id % 256] == [0xB0, 2, id / 256, id % 256];
  }

  lemma RunPingresp()
    ensures Run(AwaitHeader, [0xD0, 0]) == Trace(AwaitHeader, [Pingresp])
  {
    RunTwo(AwaitHeader, 0xD0, 0);
  }

  // the codes of a SUBACK, from the k-th on
  lemma {:induction false} RunCodes(id: nat, codes: seq<byte>, k: nat)
    requires k < |codes| && LegalCodes(codes)
    ensures Run(InSuback(id, |codes|, codes[..k]), codes[k..]) == Trace(AwaitHeader, [Suback(id, codes)])
    decreases |codes| - k
  {
    hide Run;
    var rest := codes[k..];
    assert codes[..k] + [codes[k]] == codes[..k + 1];
    assert rest[0] == codes[k] && rest[1..] == codes[k + 1..];
    RunUnfold(InSuback(id, |codes|, codes[..k]), rest);
    if k + 1 < |codes| {
      RunCodes(id, codes, k + 1);
    } else {
      assert codes[..k + 1] == codes;
      RunNothing(AwaitHeader);
    }
  }

  lemma SubackSteps(id: nat, n: nat)
    requires 0 < id < 65536 && 1 <= n < PAYLOAD_BUFFER_SIZE
    ensures Step(AwaitHeader, 0x90) == Wait(AwaitLength(0x90, []))
    ensures Step(AwaitLength(0x90, []), 2 + n) == Wait(AwaitId1(0x90, [], n))
    ensures Step(AwaitId1(0x90, [], n), id / 256) == Wait(AwaitId2(0x90, [], n, id / 256))
    ensures Step(AwaitId2(0x90, [], n, id / 256), id % 256) == Wait(InSuback(id, n, []))
  {
    assert Decode([2 + n]) == 2 + n;
  }

  lemma RunSuback(id: nat, codes: seq<byte>)
    requires Legal(SubackPacket(id, codes))
    ensures Run(AwaitHeader, Serialize(SubackPacket(id, codes))) == Trace(AwaitHeader, [Suback(id, codes)])
  {
    hide Step, Run, LegalCodes;
    var n := |codes|;
    var head, word := [0x90, 2 + n], [id / 256, id % 256];
    SubackSteps(id, n);
    RunTwo(AwaitHeader, 0x90, 2 + n);
    RunTwo(AwaitId1(0x90, [], n), id / 256, id % 256);
    RunAppend(AwaitHeader, head, word);
    RunAppend(AwaitHeader, head + word, codes);
    assert codes[..0] == [] && codes[0..] == codes;
    RunCodes(id, codes, 0);
    assert Serialize(SubackPacket(id, codes)) == head + word + codes;
  }

  /** The bytes of one packet are read as that packet. */
  lemma RunPacket(p: Packet)
    requires Legal(p)
    ensures Run(AwaitHeader, Serialize(p)) == Trace(AwaitHeader, Shatter(Expected(p)))
  {
    hide Step, Run;
    match p {
      case Pub(_, _, _, _, _, _) => RunPub(p);
      case Acknowledge(_, _) => RunAck(p);
      case ConnackPacket(sessionPresent, returnCode) => RunConnack(sessionPresent, returnCode);
      case SubackPacket(id, codes) => RunSuback(id, codes);
      case UnsubackPacket(id) => RunUnsuback(id);
      case PingrespPacket => RunPingresp();
    }
  }

  // ---- what is refused ----

  /** The header bytes a client goes on reading after: all that a server may send, and PUBLISH flags 0xE and 0xF. */
  lemma HeaderTable(b: byte)
    ensures Step(AwaitHeader, b).state != Failed <==>
              b in {0x20, 0x40, 0x50, 0x62, 0x70, 0x90, 0xB0, 0xD0} || 0x30 <= b <= 0x35 || 0x3A <= b <= 0x3F
  {
  }

  function AfterFour(bs: seq<byte>): State
    requires |bs| == 4
  {
    Step(Step(Step(Step(AwaitHeader, bs[0]).state, bs[1]).state, bs[2]).state, bs[3]).state
  }

  // the packet four bytes must be
  function Meant(bs: seq<byte>): Packet
    requires |bs| == 4
  {
    var id := WordValue(bs[2], bs[3]);
    if bs[0] == 0x20 then ConnackPacket(bs[2], bs[3]) else if bs[0] == 0xB0 then UnsubackPacket(id) else Acknowledge(Kind(bs[0]), id)
  }

  lemma MeantIs(bs: seq<byte>)
    requires |bs| == 4 && bs[0] in {0x20, 0x40, 0x50, 0x62, 0x70, 0xB0} && AfterFour(bs) != Failed
    ensures Legal(Meant(bs)) && Serialize(Meant(bs)) == bs
  {
    hide Step, Legal, Serialize, Meant, AfterFour;
    if bs[0] == 0x20 { MeantConnack(bs); } else { MeantId(bs); }
  }

  lemma MeantConnack(bs: seq<byte>)
    requires |bs| == 4 && bs[0] == 0x20 && AfterFour(bs) != Failed
    ensures Legal(Meant(bs)) && Serialize(Meant(bs)) == bs
  {
    hide Step;
    ConnackSteps(bs[1], bs[2], bs[3]);
    assert bs == [bs[0], bs[1], bs[2], bs[3]];
  }

  lemma ConnackSteps(length: byte, sessionPresent: byte, returnCode: byte)
    ensures Step(AwaitHeader, 0x20).state == AwaitFixedLength(0x20)
    ensures Step(AwaitFixedLength(0x20), length).state == if length == 2 then AwaitConnack1 else Failed
    ensures Step(AwaitConnack1, sessionPresent).state == if sessionPresent <= 1 then AwaitConnack2(sessionPresent) else Failed
    ensures Step(AwaitConnack2(sessionPresent), returnCode).state == Failed <==> returnCode > 5
    ensures Step(Step(Failed, sessionPresent).state, returnCode).state == Failed == Step(Failed, returnCode).state
  {
  }

  // the packets that consist of a packet id
  lemma MeantId(bs: seq<byte>)
    requires |bs| == 4 && bs[0] in {0x40, 0x50, 0x62, 0x70, 0xB0} && AfterFour(bs) != Failed
    ensures Legal(Meant(bs)) && Serialize(Meant(bs)) == bs
  {
    hide Step;
    IdSteps(bs[0], bs[1], bs[2], bs[3]);
    WordOf(bs[2], bs[3]);
    assert bs == [bs[0], bs[1], bs[2], bs[3]];
  }

  lemma IdSteps(h: byte, length: byte, high: byte, low: byte)
    requires h in {0x40, 0x50, 0x62, 0x70, 0xB0}
    ensures Step(AwaitHeader, h).state == AwaitFixedLength(h)
    ensures Step(AwaitFixedLength(h), length).state == if length == 2 then AwaitId1(h, [], 0) else Failed
    ensures Step(AwaitId1(h, [], 0), high).state == AwaitId2(h, [], 0, high)
    ensures Step(AwaitId2(h, [], 0, high), low).state == Failed <==> high == low == 0
    ensures Step(Step(Failed, high).state, low).state == Failed
  {
  }

  lemma WordOf(high: byte, low: byte)
    ensures var id := WordValue(high, low); id < 65536 && id / 256 == high && id % 256 == low
  {
  }

  /** Four bytes with the header of a packet of fixed length are taken exactly when they are a legal packet. */
  lemma FourBytes(bs: seq<byte>)
    requires |bs| == 4 && bs[0] in {0x20, 0x40, 0x50, 0x62, 0x70, 0xB0}
    ensures Run(AwaitHeader, bs).state != Failed <==> exists p :: Legal(p) && Serialize(p) == bs
  {
    hide Run, Step, Legal, Serialize;
    RunTwo(AwaitHeader, bs[0], bs[1]);
    RunTwo(Step(Step(AwaitHeader, bs[0]).state, bs[1]).state, bs[2], bs[3]);
    RunAppend(AwaitHeader, bs[..2], bs[2..]);
    assert bs == bs[..2] + bs[2..] && bs[..2] == [bs[0], bs[1]] && bs[2..] == [bs[2], bs[3]];
    if AfterFour(bs) != Failed { MeantIs(bs); }
    forall p | Legal(p) && Serialize(p) == bs ensures Run(AwaitHeader, bs).state != Failed { RunPacket(p); }
  }

  /** A PINGRESP has nothing behind its header, and a SUBACK one to thirty-one codes behind its id. */
  lemma ShortLengths(n: byte)
    ensures Run(AwaitHeader, [0xD0, n]).state != Failed <==> n == 0
    ensures n < 128 ==> (Run(AwaitHeader, [0x90, n]).state != Failed <==> 3 <= n <= 33)
  {
    RunTwo(AwaitHeader, 0xD0, n);
    RunTwo(AwaitHeader, 0x90, n);
    assert n < 128 ==> Decode([n]) == n;
  }

  /**
    The topic length of a PUBLISH is taken when the topic and the packet id fit in what is left of the packet, and
    also, because the unsigned subtraction wraps around, whenever there is not even room for the two lengths.
   */
  lemma TopicLengthTaken(header: byte, remaining: nat, high: byte, low: byte)
    requires Kind(header) == PUBLISH && remaining <= MAX_REMAINING_LENGTH
    ensures var lengths := 2 + if QosBits(header) != 0 then 2 else 0;
            Step(AwaitTopicLength2(header, remaining, high), low).state != Failed <==>
              WordValue(high, low) + lengths <= remaining || remaining < lengths
  {
  }

  // ---- topics the parser cannot hold ----

  // a topic on its way through the parser, or through it
  predicate Narrow(s: State) {
    match s
    case InTopic(header, _, _, topic) => Kind(header) == PUBLISH && |topic| < MAX_TOPIC_LENGTH
    case AwaitId1(header, topic, _) => Kind(header) == PUBLISH && 1 <= |topic| <= MAX_TOPIC_LENGTH
    case AwaitId2(header, topic, _, _) => Kind(header) == PUBLISH && 1 <= |topic| <= MAX_TOPIC_LENGTH
    case InPayload(_, topic, _, _, _) => 1 <= |topic| <= MAX_TOPIC_LENGTH
    case Failed => true
    case _ => false
  }

  predicate NarrowTopic(es: seq<Event>) {
    es == [] || (es[0].Publish? && 1 <= |es[0].topic| <= MAX_TOPIC_LENGTH)
  }

  lemma StepNarrow(s: State, b: byte)
    requires Narrow(s)
    ensures var o := Step(s, b); NarrowTopic(Emitted(o.event)) && (o.event == None ==> Narrow(o.state))
  {
    hide Kind, QosBits, SizeSub;
  }

  lemma {:induction false} RunNarrow(s: State, bs: seq<byte>)
    requires Narrow(s)
    ensures NarrowTopic(Run(s, bs).events)
    decreases |bs|
  {
    hide Step, Narrow;
    if bs != [] {
      StepNarrow(s, bs[0]);
      RunUnfold(s, bs);
      var o := Step(s, bs[0]);
      if o.event == None { RunNarrow(o.state, bs[1..]); }
    }
  }

  /** The bytes of a PUBLISH come back as its message. */
  predicate Recovered(id: nat, topic: seq<byte>, payload: seq<byte>, qos: nat, retain: bool)
    requires id < 65536 && qos <= 2
  {
    Run(AwaitHeader, PublishBytes(id, topic, payload, qos, retain)) ==
      Trace(AwaitHeader, Shatter(Publish(PublishFirstByte(qos, retain), topic, if qos > 0 then id else 0, 0, payload, |payload|)))
  }

  lemma NarrowNotRecovered(es: seq<Event>, e: Event)
    requires NarrowTopic(es) && e.Publish? && !(1 <= |e.topic| <= MAX_TOPIC_LENGTH)
    ensures es != Shatter(e)
  {
  }

  /** A PUBLISH that can be sent is received as its message if and only if its topic has 1 to 128 bytes. */
  lemma RecoveredIff(id: nat, topic: seq<byte>, payload: seq<byte>, qos: nat, retain: bool)
    requires id < 65536 && qos <= 2 && (qos > 0 ==> id > 0) && |topic| <= 65535
    requires PublishRemaining(|topic|, |payload|, qos) <= MAX_REMAINING_LENGTH
    ensures Recovered(id, topic, payload, qos, retain) <==> 1 <= |topic| <= MAX_TOPIC_LENGTH
  {
    hide Step, Run, Encode, EncodeText, Shatter, PublishBytes;
    var h, remaining := PublishFirstByte(qos, retain), PublishRemaining(|topic|, |payload|, qos);
    if 1 <= |topic| <= MAX_TOPIC_LENGTH {
      var p := Pub(id, topic, payload, qos, retain, false);
      RunPub(p);
      PublishAsPacket(p);
    } else {
      var body := EncodeText(topic) + (IdBytes(id, qos) + payload);
      PublishInParts(id, topic, payload, qos, retain);
      RunFixedHeader(h, remaining, body);
      BodyNarrow(h, remaining, topic, IdBytes(id, qos) + payload);
      NarrowNotRecovered(Run(AwaitTopicLength1(h, remaining), body).events,
                         Publish(h, topic, if qos > 0 then id else 0, 0, payload, |payload|));
    }
  }

  lemma PublishAsPacket(p: Packet)
    requires Legal(p) && p.Pub? && !p.dup
    ensures Serialize(p) == PublishBytes(p.id, p.topic, p.payload, p.qos, p.retain) && Header(p) == PublishFirstByte(p.qos, p.retain)
  {
    PublishSizeExact(p.id, p.topic, p.payload, p.qos, p.retain);
  }

  lemma PublishInParts(id: nat, topic: seq<byte>, payload: seq<byte>, qos: nat, retain: bool)
    requires id < 65536 && qos <= 2 && |topic| <= 65535 && PublishRemaining(|topic|, |payload|, qos) <= MAX_REMAINING_LENGTH
    ensures PublishBytes(id, topic, payload, qos, retain) ==
            [PublishFirstByte(qos, retain)] + (Encode(PublishRemaining(|topic|, |payload|, qos)) + (EncodeText(topic) + (IdBytes(id, qos) + payload)))
  {
    hide Encode, EncodeText;
    PublishSizeExact(id, topic, payload, qos, retain);
  }

  lemma BodyNarrow(h: byte, remaining: nat, topic: seq<byte>, rest: seq<byte>)
    requires Kind(h) == PUBLISH && |topic| <= 65535 && 2 + |topic| + (if QosBits(h) != 0 then 2 else 0) <= remaining < SIZE_MODULUS
    ensures NarrowTopic(Run(AwaitTopicLength1(h, remaining), EncodeText(topic) + rest).events)
  {
    hide Step, Run;
    var s, hi, lo := AwaitTopicLength1(h, remaining), |topic| / 256, |topic| % 256;
    RunTwo(s, hi, lo);
    TopicLengthSteps(h, remaining, |topic|);
    assert EncodeText(topic) + rest == [hi, lo] + (topic + rest);
    TraceAfter(s, [hi, lo], topic + rest);
    RunNarrow(InTopic(h, |topic|, remaining - 2 - |topic|, []), topic + rest);
  }

  function SerializeAll(ps: seq<Packet>): seq<byte>
    requires forall p :: p in ps ==> Legal(p)
  {
    if ps == [] then [] else Serialize(ps[0]) + SerializeAll(ps[1..])
  }

  function ExpectedAll(ps: seq<Packet>): seq<Event>
    requires forall p :: p in ps ==> Legal(p)
  {
    if ps == [] then [] else [Expected(ps[0])] + ExpectedAll(ps[1..])
  }

  lemma {:induction false} RunAll(ps: seq<Packet>)
    requires forall p :: p in ps ==> Legal(p)
    ensures Run(AwaitHeader, SerializeAll(ps)) == Trace(AwaitHeader, ShatterAll(ExpectedAll(ps)))
    decreases |ps|
  {
    hide Step, Serialize, Expected, Shatter;
    if ps != [] {
      RunPacket(ps[0]);
      RunAll(ps[1..]);
      RunAppend(AwaitHeader, Serialize(ps[0]), SerializeAll(ps[1..]));
      assert ExpectedAll(ps)[1..] == ExpectedAll(ps[1..]);
    }
  }

  // whole messages never continue each other
  lemma {:induction false} JoinWhole(joined: seq<Event>, es: seq<Event>)
    requires forall e :: e in es ==> Whole(e)
    ensures JoinFrom(joined, es) == joined + es
    decreases |es|
  {
    if es == [] {
      assert joined + es == joined;
    } else {
      JoinWhole(Attach(joined, es[0]), es[1..]);
      assert es[0] in es && Whole(es[0]);
      assert Attach(joined, es[0]) == joined + [es[0]];
      Assoc(joined, [es[0]], es[1..]);
      assert [es[0]] + es[1..] == es;
    }
  }

  lemma {:induction false} ExpectedAllWhole(ps: seq<Packet>)
    requires forall p :: p in ps ==> Legal(p)
    ensures forall e :: e in ExpectedAll(ps) ==> Whole(e) && FitsTotal(e)
    decreases |ps|
  {
    if ps != [] { ExpectedAllWhole(ps[1..]); }
  }

  /**
    Round trip: any list of legal packets, serialised one after the other and received in any buffers, comes
    back as exactly that list, with the parser ready for the next header.
   */
  lemma {:induction false} StreamRoundTrip(ps: seq<Packet>, chunks: seq<seq<byte>>)
    requires forall p :: p in ps ==> Legal(p)
    requires Flatten(chunks) == SerializeAll(ps)
    ensures DriveAll(AwaitHeader, chunks).state == AwaitHeader
    ensures Join(DriveAll(AwaitHeader, chunks).events) == ExpectedAll(ps)
  {
    DriveAllIsRun(AwaitHeader, chunks);
    DriveAllFits(AwaitHeader, chunks);
    JoinShatterAll([], DriveAll(AwaitHeader, chunks).events);
    RunAll(ps);
    ExpectedAllWhole(ps);
    JoinShatterAll([], ExpectedAll(ps));
    JoinWhole([], ExpectedAll(ps));
  }
}
