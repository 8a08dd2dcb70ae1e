/** The bytes of outgoing packets, as sections 3.1 to 3.10 of MQTT 3.1.1 lay them out. */
module PacketSpec {
  import opened Bytes
  import opened Constants
  import opened RemainingLength
  import opened StringUtil

  // what the fill pass wrote, then the zeros of the cleared buffer up to the size the sizing pass predicted
  function Padded(written: seq<byte>, size: nat): (r: seq<byte>)
    ensures |written| <= size ==> |r| == size
    ensures |written| == size ==> r == written
  {
    if |written| <= size then written + Zeros(size - |written|) else written
  }

  function PacketSize(remaining: nat): nat {
    1 + RemainingLengthLength(remaining) + remaining
  }

  // what is left of a packet from an index on
  function Offered(size: nat, index: nat): nat {
    if index >= size then 0 else size - index
  }

  // ---- PUBLISH ----

  function PublishRemaining(topicLength: nat, payloadLength: nat, qos: nat): nat {
    2 + topicLength + (if qos == 0 then 0 else 2) + payloadLength
  }

  function PublishFirstByte(qos: nat, retain: bool): (b: byte)
    requires qos <= 2
    ensures Kind(b) == PUBLISH && QosBits(b) == qos && RetainBit(b) == retain && !DupBit(b)
    ensures Flags(b) <= 5
  {
    var flags := 2 * qos + (if retain then 1 else 0);
    assert (48 + flags) / 16 == 3 && (48 + flags) % 16 == flags;
    48 + flags
  }

  /** What _fillPublishHeader leaves: for a QoS above 2 it never moves past the first byte, which is then overwritten. */
  function PublishHeader(id: nat, topic: seq<byte>, remaining: nat, qos: nat, retain: bool): seq<byte>
    requires id < 65536
  {
    (if qos <= 2 then [PublishFirstByte(qos, retain)] else []) + Encode(remaining) + EncodeText(topic) + (if qos > 0 then Word(id) else [])
  }

  function PublishBytes(id: nat, topic: seq<byte>, payload: seq<byte>, qos: nat, retain: bool): seq<byte>
    requires id < 65536
  {
    var remaining := PublishRemaining(|topic|, |payload|, qos);
    Padded(PublishHeader(id, topic, remaining, qos, retain) + payload, PacketSize(remaining))
  }

  /** For legal arguments the fill pass ends exactly at the predicted size. */
  lemma PublishSizeExact(id: nat, topic: seq<byte>, payload: seq<byte>, qos: nat, retain: bool)
    requires id < 65536 && qos <= 2 && |topic| <= 65535
    requires PublishRemaining(|topic|, |payload|, qos) <= MAX_REMAINING_LENGTH
    ensures var remaining := PublishRemaining(|topic|, |payload|, qos);
            PublishBytes(id, topic, payload, qos, retain) == PublishHeader(id, topic, remaining, qos, retain) + payload
  {
    LengthPrediction(PublishRemaining(|topic|, |payload|, qos));
  }

  // ---- PUBACK, PUBREC, PUBREL, PUBCOMP and the packets without variable header ----

  function AckBytes(kind: byte, id: nat): (r: seq<byte>)
    requires id < 65536 && kind <= 240
    ensures |r| == PacketSize(2)
  {
    [if kind == PUBREL then kind + 2 else kind] + [2] + Word(id)
  }

  function BareBytes(kind: byte): (r: seq<byte>)
    ensures |r| == PacketSize(0)
  {
    [kind, 0]
  }

  // ---- SUBSCRIBE and UNSUBSCRIBE ----

  datatype SubscribeItem = SubscribeItem(topic: seq<byte>, qos: byte)

  function ItemBytes(item: SubscribeItem): seq<byte> {
    EncodeText(item.topic) + [item.qos]
  }

  function ItemsSize(items: seq<SubscribeItem>): nat {
    if items == [] then 0 else ItemsSize(items[..|items| - 1]) + 2 + |items[|items| - 1].topic| + 1
  }

  function ItemsBytes(items: seq<SubscribeItem>): seq<byte> {
    if items == [] then [] else ItemsBytes(items[..|items| - 1]) + ItemBytes(items[|items| - 1])
  }

  function TopicsSize(topics: seq<seq<byte>>): nat {
    if topics == [] then 0 else TopicsSize(topics[..|topics| - 1]) + 2 + |topics[|topics| - 1]|
  }

  function TopicsBytes(topics: seq<seq<byte>>): seq<byte> {
    if topics == [] then [] else TopicsBytes(topics[..|topics| - 1]) + EncodeText(topics[|topics| - 1])
  }

  // fixed header and packet id, shared by both
  function RequestHeader(kind: byte, id: nat, remaining: nat): seq<byte>
    requires id < 65536 && kind <= 240
  {
    [kind + 2] + Encode(remaining) + Word(id)
  }

  function SubscribeBytes(id: nat, items: seq<SubscribeItem>): seq<byte>
    requires id < 65536
  {
    var remaining := 2 + ItemsSize(items);
    Padded(RequestHeader(SUBSCRIBE, id, remaining) + ItemsBytes(items), PacketSize(remaining))
  }

  function UnsubscribeBytes(id: nat, topics: seq<seq<byte>>): seq<byte>
    requires id < 65536
  {
    var remaining := 2 + TopicsSize(topics);
    Padded(RequestHeader(UNSUBSCRIBE, id, remaining) + TopicsBytes(topics), PacketSize(remaining))
  }

  predicate EncodableItems(items: seq<SubscribeItem>) {
    forall i :: 0 <= i < |items| ==> |items[i].topic| <= 65535
  }

  predicate EncodableTopics(topics: seq<seq<byte>>) {
    forall i :: 0 <= i < |topics| ==> |topics[i]| <= 65535
  }

  lemma EncodableLast(items: seq<SubscribeItem>)
    requires items != []
    ensures EncodableItems(items) <==> EncodableItems(items[..|items| - 1]) && |items[|items| - 1].topic| <= 65535
  {
    var front := items[..|items| - 1];
    assert forall i :: 0 <= i < |front| ==> front[i] == items[i];
    if EncodableItems(front) && |items[|items| - 1].topic| <= 65535 {
      forall i | 0 <= i < |items| ensures |items[i].topic| <= 65535 {
        if i < |front| { assert front[i] == items[i]; }
      }
    }
  }

  /** The fill pass writes at most what the sizing pass counted, and exactly that when every topic can be encoded. */
  lemma {:induction false} ItemsSizeAgrees(items: seq<SubscribeItem>)
    ensures |ItemsBytes(items)| <= ItemsSize(items)
    ensures |ItemsBytes(items)| == ItemsSize(items) <==> EncodableItems(items)
  {
    if items != [] {
      hide EncodableItems, EncodeText;
      ItemsSizeAgrees(items[..|items| - 1]);
      EncodableLast(items);
    }
  }

  lemma {:induction false} TopicsSizeAgrees(topics: seq<seq<byte>>)
    ensures |TopicsBytes(topics)| <= TopicsSize(topics)
    ensures |TopicsBytes(topics)| == TopicsSize(topics) <==> EncodableTopics(topics)
  {
    if topics != [] {
      var front := topics[..|topics| - 1];
      TopicsSizeAgrees(front);
      assert forall i :: 0 <= i < |front| ==> front[i] == topics[i];
      if EncodableTopics(front) && |topics[|topics| - 1]| <= 65535 {
        forall i | 0 <= i < |topics| ensures |topics[i]| <= 65535 {
          if i < |front| { assert front[i] == topics[i]; }
        }
      }
    }
  }

  // ---- reading requests back ----

  /** A length-prefixed string at the front of `bs`, and what follows it. */
  function ReadText(bs: seq<byte>): (r: (bool, seq<byte>, seq<byte>))
    ensures r.0 ==> |r.2| < |bs|
  {
    if |bs| < 2 then (false, [], [])
    else
      var n := WordValue(bs[0], bs[1]);
      if |bs| < 2 + n then (false, [], []) else (true, bs[2..2 + n], bs[2 + n..])
  }

  /** The topic list of a SUBSCRIBE payload, read front to back (section 3.8.3). */
  function ReadItems(bs: seq<byte>): seq<SubscribeItem>
    decreases |bs|
  {
    var (ok, topic, rest) := ReadText(bs);
    if !ok || rest == [] then [] else [SubscribeItem(topic, rest[0])] + ReadItems(rest[1..])
  }

  /** The topic list of an UNSUBSCRIBE payload (section 3.10.3). */
  function ReadTopics(bs: seq<byte>): seq<seq<byte>>
    decreases |bs|
  {
    var (ok, topic, rest) := ReadText(bs);
    if !ok then [] else [topic] + ReadTopics(rest)
  }

  lemma ReadTextEncoded(s: seq<byte>, rest: seq<byte>)
    requires |s| <= 65535
    ensures ReadText(EncodeText(s) + rest) == (true, s, rest)
  {
    var bs := EncodeText(s) + rest;
    assert bs[0] == |s| / 256 && bs[1] == |s| % 256;
    assert bs[2..2 + |s|] == s;
    assert bs[2 + |s|..] == rest;
  }

  lemma ReadItemsFirst(item: SubscribeItem, rest: seq<byte>)
    requires |item.topic| <= 65535
    ensures ReadItems(ItemBytes(item) + rest) == [item] + ReadItems(rest)
  {
    ReadTextEncoded(item.topic, [item.qos] + rest);
    assert EncodeText(item.topic) + ([item.qos] + rest) == ItemBytes(item) + rest;
    assert ([item.qos] + rest)[1..] == rest;
  }

  lemma ItemsBytesUnfold(items: seq<SubscribeItem>)
    ensures items == [] ==> ItemsBytes(items) == []
    ensures items != [] ==> ItemsBytes(items) == ItemsBytes(items[..|items| - 1]) + ItemBytes(items[|items| - 1])
  {
  }

  lemma {:induction false} ReadItemsBytes(items: seq<SubscribeItem>, rest: seq<byte>)
    requires EncodableItems(items)
    ensures ReadItems(ItemsBytes(items) + rest) == items + ReadItems(rest)
    decreases |items|
  {
    hide ReadItems, ItemBytes, ItemsBytes, EncodeText;
    ItemsBytesUnfold(items);
    if items == [] {
      assert ItemsBytes(items) + rest == rest;
    } else {
      var front, last := items[..|items| - 1], items[|items| - 1];
      ReadItemsBytes(front, ItemBytes(last) + rest);
      ReadItemsFirst(last, rest);
      Assoc(ItemsBytes(front), ItemBytes(last), rest);
      Assoc(front, [last], ReadItems(rest));
      assert items == front + [last];
    }
  }

  lemma TopicsBytesUnfold(topics: seq<seq<byte>>)
    ensures topics == [] ==> TopicsBytes(topics) == []
    ensures topics != [] ==> TopicsBytes(topics) == TopicsBytes(topics[..|topics| - 1]) + EncodeText(topics[|topics| - 1])
  {
  }

  lemma ReadTopicsFirst(topic: seq<byte>, rest: seq<byte>)
    requires |topic| <= 65535
    ensures ReadTopics(EncodeText(topic) + rest) == [topic] + ReadTopics(rest)
  {
    ReadTextEncoded(topic, rest);
  }

  lemma {:induction false} ReadTopicsBytes(topics: seq<seq<byte>>, rest: seq<byte>)
    requires EncodableTopics(topics)
    ensures ReadTopics(TopicsBytes(topics) + rest) == topics + ReadTopics(rest)
    decreases |topics|
  {
    hide ReadTopics, TopicsBytes, EncodeText;
    TopicsBytesUnfold(topics);
    if topics == [] {
      assert TopicsBytes(topics) + rest == rest;
    } else {
      var front, last := topics[..|topics| - 1], topics[|topics| - 1];
      ReadTopicsFirst(last, rest);
      ReadTopicsBytes(front, EncodeText(last) + rest);
      Assoc(TopicsBytes(front), EncodeText(last), rest);
      Assoc(front, [last], ReadTopics(rest));
      assert topics == front + [last];
    }
  }

  // fixed header byte, remaining length and packet id of a request, and its payload, as a receiver takes them apart
  predicate IsRequest(bs: seq<byte>, kind: byte, id: nat, payload: seq<byte>) {
    && |bs| > 1 && bs[0] == kind + 2
    && var k := Terminator(bs[1..]) + 1;
       && 1 <= k <= 4 && |bs| == 1 + k + 2 + |payload|
       && Decode(bs[1..]) == |bs| - 1 - k
       && k == |Encode(|bs| - 1 - k)|
       && WordValue(bs[1 + k], bs[2 + k]) == id
       && bs[3 + k..] == payload
  }

  lemma RequestReadable(kind: byte, id: nat, payload: seq<byte>)
    requires id < 65536 && kind <= 240 && 2 + |payload| <= MAX_REMAINING_LENGTH
    ensures IsRequest(RequestHeader(kind, id, 2 + |payload|) + payload, kind, id, payload)
  {
    var remaining := 2 + |payload|;
    var bs := RequestHeader(kind, id, remaining) + payload;
    var rest := Word(id) + payload;
    assert bs[1..] == Encode(remaining) + rest;
    LengthPrediction(remaining);
    EncodeTerminated(remaining);
    DecodePrefix(Encode(remaining), rest);
    DecodeEncode(remaining, rest);
    var k := |Encode(remaining)|;
    assert bs[1 + k..] == rest;
    assert bs[1 + k] == rest[0] && bs[2 + k] == rest[1];
    assert bs[3 + k..] == rest[2..] == payload;
  }

  /**
    Two-pass agreement for SUBSCRIBE: fill and size agree, the length field is shortest and covers the rest of
    the packet, and the topic list can be read back.
   */
  lemma {:induction false} SubscribeAgreement(id: nat, items: seq<SubscribeItem>)
    requires id < 65536 && EncodableItems(items) && 2 + ItemsSize(items) <= MAX_REMAINING_LENGTH
    ensures |SubscribeBytes(id, items)| == PacketSize(2 + ItemsSize(items))
    ensures IsRequest(SubscribeBytes(id, items), SUBSCRIBE, id, ItemsBytes(items))
    ensures ReadItems(ItemsBytes(items)) == items
  {
    assert ReadItems([]) == [] && items + [] == items;
    hide ReadItems, ItemsBytes, ItemsSize, IsRequest;
    ItemsSizeAgrees(items);
    LengthPrediction(2 + ItemsSize(items));
    RequestReadable(SUBSCRIBE, id, ItemsBytes(items));
    ReadItemsBytes(items, []);
    assert ItemsBytes(items) + [] == ItemsBytes(items);
  }

  lemma {:induction false} UnsubscribeAgreement(id: nat, topics: seq<seq<byte>>)
    requires id < 65536 && EncodableTopics(topics) && 2 + TopicsSize(topics) <= MAX_REMAINING_LENGTH
    ensures |UnsubscribeBytes(id, topics)| == PacketSize(2 + TopicsSize(topics))
    ensures IsRequest(UnsubscribeBytes(id, topics), UNSUBSCRIBE, id, TopicsBytes(topics))
    ensures ReadTopics(TopicsBytes(topics)) == topics
  {
    assert ReadTopics([]) == [] && topics + [] == topics;
    hide ReadTopics, TopicsBytes, TopicsSize, IsRequest;
    TopicsSizeAgrees(topics);
    LengthPrediction(2 + TopicsSize(topics));
    RequestReadable(UNSUBSCRIBE, id, TopicsBytes(topics));
    ReadTopicsBytes(topics, []);
    assert TopicsBytes(topics) + [] == TopicsBytes(topics);
  }
}
