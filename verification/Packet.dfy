/** Outgoing packets: a buffer sized in one pass and filled in a second (src/Packets/Packet.cpp). */
module Packet {
  import opened Bytes
  import opened Constants
  import opened RemainingLength
  import opened StringUtil
  import opened PacketSpec

  datatype Error = Success | OutOfMemory | MalformedParameter

  /** The buffer holds `w` at its front and is still clear behind it. */
  ghost predicate Written(a: array<byte>, w: seq<byte>)
    reads a
  {
    |w| <= a.Length && a[..] == w + Zeros(a.Length - |w|)
  }

  // data[pos++] = b
  method PutByte(a: array<byte>, pos: nat, b: byte, ghost w: seq<byte>) returns (next: nat)
    requires Written(a, w) && pos == |w| < a.Length
    modifies a
    ensures Written(a, w + [b]) && next == pos + 1
  {
    a[pos] := b;
    next := pos + 1;
    assert a[..] == w + [b] + Zeros(a.Length - next);
  }

  method PutLength(a: array<byte>, pos: nat, n: nat, ghost w: seq<byte>) returns (next: nat)
    requires n < 0x1_0000_0000
    requires Written(a, w) && pos == |w| && pos + |Encode(n)| <= a.Length
    modifies a
    ensures Written(a, w + Encode(n)) && next == pos + |Encode(n)|
  {
    assert a[..pos] == w && a[pos + |Encode(n)|..] == Zeros(a.Length - pos - |Encode(n)|);
    var k := EncodeRemainingLength(n, a, pos);
    next := pos + k;
  }

  method PutText(a: array<byte>, pos: nat, s: seq<byte>, ghost w: seq<byte>) returns (next: nat)
    requires Written(a, w) && pos == |w| && pos + |EncodeText(s)| <= a.Length
    modifies a
    ensures Written(a, w + EncodeText(s)) && next == pos + |EncodeText(s)|
  {
    assert a[..pos] == w && a[pos + |EncodeText(s)|..] == Zeros(a.Length - pos - |EncodeText(s)|);
    var k := EncodeString(s, a, pos);
    next := pos + k;
  }

  // memcpy
  method PutBytes(a: array<byte>, pos: nat, s: seq<byte>, ghost w: seq<byte>)
    requires Written(a, w) && pos == |w| && pos + |s| <= a.Length
    modifies a
    ensures Written(a, w + s)
  {
    forall i | 0 <= i < |s| {
      a[pos + i] := s[i];
    }
    assert a[..] == w + s + Zeros(a.Length - pos - |s|);
  }

  // the prefix written so far leaves room for the next item
  lemma {:induction false} ItemsPrefix(list: seq<SubscribeItem>, i: nat)
    requires i < |list|
    ensures ItemsBytes(list[..i + 1]) == ItemsBytes(list[..i]) + ItemBytes(list[i])
    ensures |ItemsBytes(list[..i + 1])| <= ItemsSize(list)
    decreases |list| - i
  {
    assert list[..i + 1][..i] == list[..i];
    if i + 1 < |list| {
      ItemsPrefix(list, i + 1);
    } else {
      assert list[..i + 1] == list;
      ItemsSizeAgrees(list);
    }
  }

  lemma {:induction false} TopicsPrefix(list: seq<seq<byte>>, i: nat)
    requires i < |list|
    ensures TopicsBytes(list[..i + 1]) == TopicsBytes(list[..i]) + EncodeText(list[i])
    ensures |TopicsBytes(list[..i + 1])| <= TopicsSize(list)
    decreases |list| - i
  {
    assert list[..i + 1][..i] == list[..i];
    if i + 1 < |list| {
      TopicsPrefix(list, i + 1);
    } else {
      assert list[..i + 1] == list;
      TopicsSizeAgrees(list);
    }
  }

  // the filling loop of _createSubscribe
  method FillItems(a: array<byte>, start: nat, list: seq<SubscribeItem>, ghost header: seq<byte>)
    requires Written(a, header) && start == |header| && start + ItemsSize(list) <= a.Length
    modifies a
    ensures Written(a, header + ItemsBytes(list))
  {
    hide Written, EncodeText;
    var pos := start;
    assert header + ItemsBytes(list[..0]) == header;
    for i := 0 to |list|
      invariant Written(a, header + ItemsBytes(list[..i])) && pos == |header + ItemsBytes(list[..i])|
    {
      ItemsPrefix(list, i);
      ghost var w := header + ItemsBytes(list[..i]);
      pos := PutText(a, pos, list[i].topic, w);
      pos := PutByte(a, pos, list[i].qos, w + EncodeText(list[i].topic));
      assert w + EncodeText(list[i].topic) + [list[i].qos] == header + ItemsBytes(list[..i + 1]);
    }
    assert list[..|list|] == list;
  }

  // the filling loop of _createUnsubscribe
  method FillTopics(a: array<byte>, start: nat, list: seq<seq<byte>>, ghost header: seq<byte>)
    requires Written(a, header) && start == |header| && start + TopicsSize(list) <= a.Length
    modifies a
    ensures Written(a, header + TopicsBytes(list))
  {
    hide Written, EncodeText;
    var pos := start;
    assert header + TopicsBytes(list[..0]) == header;
    for i := 0 to |list|
      invariant Written(a, header + TopicsBytes(list[..i])) && pos == |header + TopicsBytes(list[..i])|
    {
      TopicsPrefix(list, i);
      pos := PutText(a, pos, list[i], header + TopicsBytes(list[..i]));
      assert header + TopicsBytes(list[..i]) + EncodeText(list[i]) == header + TopicsBytes(list[..i + 1]);
    }
    assert list[..|list|] == list;
  }

  class Packet {
    var packetId: nat
    var data: array?<byte>
    var size: nat
    var error: Error

    /** A packet that was built: its buffer holds exactly these bytes. */
    ghost predicate Holds(bytes: seq<byte>)
      reads this, data
    {
      error == Success && data != null && data[..] == bytes && size == data.Length
    }

    /** A packet whose buffer could not be had: it must be dropped. */
    ghost predicate Failed()
      reads this
    {
      error == OutOfMemory && data == null && size == 0
    }

    // memory: whether the allocator delivers
    method Allocate(remaining: nat, memory: bool) returns (ok: bool)
      requires data == null && size == 0
      modifies this`data, this`size
      ensures ok == memory
      ensures ok ==> data != null && fresh(data) && size == data.Length == PacketSize(remaining) && Written(data, [])
      ensures !ok ==> data == null && size == 0
    {
      if !memory {
        return false;
      }
      size := 1 + RemainingLengthLength(remaining) + remaining;
      data := new byte[size](_ => 0);
      return true;
    }

    method FillPublishHeader(id: nat, topic: seq<byte>, remaining: nat, qos: nat, retain: bool) returns (index: nat)
      requires id < 65536 && remaining < 0x1_0000_0000
      requires data != null && Written(data, []) && |PublishHeader(id, topic, remaining, qos, retain)| <= data.Length
      modifies data
      ensures Written(data, PublishHeader(id, topic, remaining, qos, retain))
      ensures index == |PublishHeader(id, topic, remaining, qos, retain)|
    {
      hide Written, Encode, EncodeText, PublishFirstByte;
      index := 0;
      ghost var w: seq<byte> := [];
      if qos <= 2 {
        index := PutByte(data, index, PublishFirstByte(qos, retain), w);
        w := w + [PublishFirstByte(qos, retain)];
      }
      // for another qos the first byte is written without moving on, so that the length overwrites it
      index := PutLength(data, index, remaining, w);
      w := w + Encode(remaining);
      index := PutText(data, index, topic, w);
      w := w + EncodeText(topic);
      if qos > 0 {
        index := PutByte(data, index, id / 256, w);
        index := PutByte(data, index, id % 256, w + [id / 256]);
        assert w + [id / 256] + [id % 256] == w + Word(id);
      } else {
        assert w + [] == w;
      }
      assert w + (if qos > 0 then Word(id) else []) == PublishHeader(id, topic, remaining, qos, retain);
    }

    constructor Publish(id: nat, topic: seq<byte>, payload: seq<byte>, qos: nat, retain: bool, memory: bool)
      requires id < 65536 && PublishRemaining(|topic|, |payload|, qos) <= MAX_REMAINING_LENGTH
      ensures packetId == if qos == 0 then 0 else id
      ensures memory ==> Holds(PublishBytes(id, topic, payload, qos, retain)) && fresh(data)
      ensures !memory ==> Failed()
    {
      var remaining := 2 + |topic| + 2 + |payload|;
      packetId := id;
      if qos == 0 {
        remaining := remaining - 2;
        packetId := 0;
      }
      data, size, error := null, 0, Success;
      new;
      LengthPrediction(remaining);
      var ok := Allocate(remaining, memory);
      if !ok {
        error := OutOfMemory;
        return;
      }
      var pos := FillPublishHeader(id, topic, remaining, qos, retain);
      PutBytes(data, pos, payload, PublishHeader(id, topic, remaining, qos, retain));
      error := Success;
    }

    constructor Acknowledge(kind: byte, id: nat, memory: bool)
      requires id < 65536 && kind <= 240
      ensures packetId == id
      ensures memory ==> Holds(AckBytes(kind, id)) && fresh(data)
      ensures !memory ==> Failed()
    {
      packetId := id;
      data, size, error := null, 0, Success;
      new;
      var ok := Allocate(2, memory);
      if !ok {
        error := OutOfMemory;
        return;
      }
      var first: byte := if kind == PUBREL then kind + 2 else kind;
      var pos := PutByte(data, 0, first, []);
      assert Encode(2) == [2];
      pos := PutLength(data, pos, 2, [] + [first]);
      pos := PutByte(data, pos, id / 256, [] + [first] + Encode(2));
      pos := PutByte(data, pos, id % 256, [] + [first] + Encode(2) + [id / 256]);
      assert [] + [first] + Encode(2) + [id / 256] + [id % 256] == AckBytes(kind, id);
      error := Success;
    }

    constructor Bare(kind: byte, memory: bool)
      ensures packetId == 0
      ensures memory ==> Holds(BareBytes(kind)) && fresh(data)
      ensures !memory ==> Failed()
    {
      packetId := 0;
      data, size, error := null, 0, Success;
      new;
      var ok := Allocate(0, memory);
      if !ok {
        error := OutOfMemory;
        return;
      }
      data[0] := kind;
      assert data[..] == BareBytes(kind);
      error := Success;
    }

    /** SUBSCRIBE: a sizing loop over the topic list, then a filling loop over the same list. */
    constructor Subscribe(id: nat, list: seq<SubscribeItem>, memory: bool)
      requires id < 65536 && 2 + ItemsSize(list) <= MAX_REMAINING_LENGTH
      ensures packetId == id
      ensures memory ==> Holds(SubscribeBytes(id, list)) && fresh(data)
      ensures !memory ==> Failed()
    {
      packetId := id;
      data, size, error := null, 0, Success;
      new;
      var payload := 0;
      for i := 0 to |list|
        invariant payload == ItemsSize(list[..i])
        invariant data == null && size == 0 && packetId == id
      {
        assert list[..i + 1][..i] == list[..i];
        payload := payload + 2 + |list[i].topic| + 1;
      }
      assert list[..|list|] == list;
      var remaining := 2 + payload;
      LengthPrediction(remaining);
      ItemsSizeAgrees(list);
      var ok := Allocate(remaining, memory);
      if !ok {
        error := OutOfMemory;
        return;
      }
      var pos := FillRequestHeader(SUBSCRIBE, remaining);
      FillItems(data, pos, list, RequestHeader(SUBSCRIBE, id, remaining));
      error := Success;
    }

    constructor Unsubscribe(id: nat, list: seq<seq<byte>>, memory: bool)
      requires id < 65536 && 2 + TopicsSize(list) <= MAX_REMAINING_LENGTH
      ensures packetId == id
      ensures memory ==> Holds(UnsubscribeBytes(id, list)) && fresh(data)
      ensures !memory ==> Failed()
    {
      packetId := id;
      data, size, error := null, 0, Success;
      new;
      var payload := 0;
      for i := 0 to |list|
        invariant payload == TopicsSize(list[..i])
        invariant data == null && size == 0 && packetId == id
      {
        assert list[..i + 1][..i] == list[..i];
        payload := payload + 2 + |list[i]|;
      }
      assert list[..|list|] == list;
      var remaining := 2 + payload;
      LengthPrediction(remaining);
      TopicsSizeAgrees(list);
      var ok := Allocate(remaining, memory);
      if !ok {
        error := OutOfMemory;
        return;
      }
      var pos := FillRequestHeader(UNSUBSCRIBE, remaining);
      FillTopics(data, pos, list, RequestHeader(UNSUBSCRIBE, id, remaining));
      error := Success;
    }

    method FillRequestHeader(kind: byte, remaining: nat) returns (pos: nat)
      requires packetId < 65536 && kind <= 240 && remaining < 0x1_0000_0000
      requires data != null && Written(data, []) && |RequestHeader(kind, packetId, remaining)| <= data.Length
      modifies data
      ensures Written(data, RequestHeader(kind, packetId, remaining)) && pos == |RequestHeader(kind, packetId, remaining)|
    {
      pos := PutByte(data, 0, kind + 2, []);
      ghost var w: seq<byte> := [] + [kind + 2];
      pos := PutLength(data, pos, remaining, w);
      w := w + Encode(remaining);
      pos := PutByte(data, pos, packetId / 256, w);
      w := w + [packetId / 256];
      pos := PutByte(data, pos, packetId % 256, w);
      assert w + [packetId % 256] == RequestHeader(kind, packetId, remaining);
    }

    function PacketType(): (k: byte)
      reads this, data
    {
      if data != null && data.Length > 0 then Kind(data[0]) else 0
    }

    predicate Removable()
      reads this, data
    {
      packetId == 0 || PacketType() == PUBACK || PacketType() == PUBCOMP
    }

    /** Sets DUP on a PUBLISH with a packet id and leaves every other packet and byte alone. */
    method SetDup()
      requires data != null ==> data.Length > 0
      modifies data
      ensures data != null ==> data[..] == if PacketType() == PUBLISH && packetId != 0
                                           then old(data[..])[0 := WithDup(old(data[..])[0])] else old(data[..])
    {
      if data == null { return; }
      if PacketType() != PUBLISH { return; }
      if packetId == 0 { return; }
      data[0] := WithDup(data[0]);
    }

    /** What is offered from an index on reaches to the packet's end, and is nothing from there on. */
    function Available(index: nat): (n: nat)
      reads this
      ensures index < size ==> n > 0 && index + n == size
      ensures index >= size ==> n == 0
    {
      Offered(size, index)
    }

    /**
      Sending the packet however the transport cuts it: each write takes at most what is offered from the bytes
      written so far on. What goes out is a prefix of the packet, and all of it when there are enough writes.
     */
    method Transmit(cuts: seq<nat>, ghost bytes: seq<byte>) returns (out: seq<byte>)
      requires Holds(bytes)
      ensures out <= bytes
      ensures |cuts| >= |bytes| && (forall i :: 0 <= i < |cuts| ==> cuts[i] > 0) ==> out == bytes
    {
      out := [];
      var i := 0;
      while i < |cuts| && Available(|out|) > 0
        invariant i <= |cuts| && |out| <= |bytes| && out == bytes[..|out|]
        invariant (forall i :: 0 <= i < |cuts| ==> cuts[i] > 0) ==> |out| >= i || |out| == |bytes|
      {
        var n := Min(cuts[i], Available(|out|));
        assert bytes[..|out|] + bytes[|out|..|out| + n] == bytes[..|out| + n];
        out := out + data[|out|..|out| + n];
        i := i + 1;
      }
      assert out == bytes[..|out|];
    }
  }
}
