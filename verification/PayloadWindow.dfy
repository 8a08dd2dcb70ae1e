/**
  A PUBLISH whose payload comes from a callback (src/Packets/Packet.cpp). The buffer holds the header and
  behind it a sliding window of the payload; positions are those of the packet on the wire.
 */
module PayloadWindow {
  import opened Bytes
  import opened Constants

  // a payload run the callback delivered, the packet position it stands for, and the index it was asked with
  datatype Fetch = Fetch(position: nat, index: nat, bytes: seq<byte>)

  predicate Covers(f: Fetch, p: nat) {
    f.position <= p < f.position + |f.bytes|
  }

  /** The byte most recently delivered for a position, or -1. */
  function Latest(log: seq<Fetch>, p: nat): int
    decreases |log|
  {
    if log == [] then -1
    else
      var f := log[|log| - 1];
      if Covers(f, p) then f.bytes[p - f.position] else Latest(log[..|log| - 1], p)
  }

  /** The callback delivered what `payload`, which starts at packet position `start`, has there. */
  predicate Agrees(f: Fetch, start: nat, payload: seq<byte>) {
    start <= f.position && f.position + |f.bytes| <= start + |payload| && f.bytes == payload[f.position - start..f.position - start + |f.bytes|]
  }

  lemma {:induction false} LatestAgrees(log: seq<Fetch>, start: nat, payload: seq<byte>, p: nat)
    requires forall f :: f in log ==> Agrees(f, start, payload)
    requires start <= p < start + |payload| && Latest(log, p) != -1
    ensures Latest(log, p) == payload[p - start]
    decreases |log|
  {
    if log != [] {
      var f := log[|log| - 1];
      assert f in log;
      if !Covers(f, p) {
        LatestAgrees(log[..|log| - 1], start, payload, p);
      } else {
        assert f.bytes[p - f.position] == payload[p - start];
      }
    }
  }

  // what a callback delivers that takes its index argument for an offset in the payload
  predicate ByIndex(f: Fetch, payload: seq<byte>) {
    f.index + |f.bytes| <= |payload| && f.bytes == payload[f.index..f.index + |f.bytes|]
  }

  /**
    The index is a packet position. A callback that reads it as an offset in the payload delivers the right bytes
    when asked at the very beginning, and otherwise exactly when the payload repeats itself at that distance, which
    is the header's length once the header is out.
   */
  lemma OffsetCallback(f: Fetch, start: nat, payload: seq<byte>)
    requires ByIndex(f, payload) && f.position == (if f.index < start then start else f.index)
    requires f.position + |f.bytes| <= start + |payload|
    ensures f.index == 0 ==> Agrees(f, start, payload)
    ensures var shift, n := if f.index < start then f.index else start, |f.bytes|;
            Agrees(f, start, payload) <==> payload[f.index..f.index + n] == payload[f.index - shift..f.index - shift + n]
  {
  }

  class CallbackPacket {
    const data: array<byte>
    const size: nat
    const payloadIndex: nat
    var payloadStartIndex: nat
    var payloadEndIndex: nat
    ghost var log: seq<Fetch>

    ghost predicate Valid()
      reads this
    {
      // the window is empty after a callback that had nothing to deliver
      && 4 <= payloadIndex <= payloadStartIndex <= payloadEndIndex + 1
      && payloadIndex <= size
      && (if size > payloadIndex then payloadStartIndex < size && payloadEndIndex < size else payloadStartIndex == payloadEndIndex == payloadIndex)
      && payloadEndIndex - payloadStartIndex < TX_BUFFER_SIZE
      && payloadIndex + TX_BUFFER_SIZE <= data.Length
    }

    /** Every byte in the window is the one most recently delivered for its position. */
    ghost predicate Primed()
      requires Valid()
      reads this, data
    {
      forall p :: payloadStartIndex <= p <= payloadEndIndex ==> Latest(log, p) == data[p - payloadStartIndex + payloadIndex]
    }

    constructor (header: seq<byte>, payloadLength: nat)
      requires |header| >= 4
      ensures Valid() && fresh(this) && fresh(data)
      ensures payloadIndex == |header| && size == |header| + payloadLength && data[..payloadIndex] == header && log == []
      ensures payloadStartIndex == payloadEndIndex == payloadIndex
    {
      size := |header| + payloadLength;
      payloadIndex := |header|;
      payloadStartIndex := |header|;
      payloadEndIndex := |header|;
      data := new byte[|header| + TX_BUFFER_SIZE](i => if 0 <= i < |header| then header[i] else 0);
      log := [];
      new;
      assert data[..payloadIndex] == header;
    }

    /** Whether a request at `index` has to ask the callback. */
    predicate Fetches(index: nat)
      reads this
    {
      index < size && (if index < payloadIndex then size > payloadIndex else index > payloadEndIndex || payloadStartIndex > index)
    }

    // the maxSize argument of the callback
    function Limit(index: nat): nat
      requires Valid() && Fetches(index)
      reads this
    {
      Min(TX_BUFFER_SIZE, size - (if index < payloadIndex then payloadStartIndex else index))
    }

    // the run the callback delivers goes into the window at this position
    function Target(index: nat): (p: nat)
      ensures p >= payloadIndex
    {
      if index < payloadIndex then payloadIndex else index
    }

    method StoreWindow(position: nat, ghost index: nat, reply: seq<byte>)
      requires Valid() && payloadIndex <= position < size && |reply| <= TX_BUFFER_SIZE && position + |reply| <= size
      modifies this`payloadStartIndex, this`payloadEndIndex, this`log, data
      ensures Valid() && Primed()
      ensures payloadStartIndex == position && payloadEndIndex == position + |reply| - 1
      ensures log == old(log) + [Fetch(position, index, reply)]
      ensures data[..payloadIndex] == old(data[..payloadIndex])
    {
      forall i | 0 <= i < |reply| {
        data[payloadIndex + i] := reply[i];
      }
      payloadStartIndex := position;
      payloadEndIndex := payloadStartIndex + |reply| - 1;
      log := log + [Fetch(position, index, reply)];
      assert log[..|log| - 1] == old(log);
    }

    /**
      How many bytes can be sent from `index` on; `reply` is what the callback delivers if it is asked. With
      an empty payload the answer is one too many; otherwise it never goes past the packet's end, and is at least 1
      unless the callback had nothing to deliver. Then it is 0, and the callback is asked again next time.
     */
    method Available(index: nat, reply: seq<byte>) returns (n: nat)
      requires Valid() && (index < payloadIndex || Primed())
      requires Fetches(index) ==> |reply| <= Limit(index)
      modifies this`payloadStartIndex, this`payloadEndIndex, this`log, data
      ensures Valid() && data[..payloadIndex] == old(data[..payloadIndex])
      ensures log == if old(Fetches(index)) then old(log) + [Fetch(Target(index), index, reply)] else old(log)
      ensures index >= size ==> n == 0
      ensures index < size && payloadIndex < size ==> n <= size - index && index + n == payloadEndIndex + 1 && Primed()
      ensures index < size && payloadIndex < size ==> (n >= 1 <==> index < payloadIndex || !old(Fetches(index)) || reply != [])
      ensures index < size && payloadIndex < size ==> index < payloadIndex == payloadStartIndex || payloadStartIndex <= index
      ensures n == 0 && index < size ==> Fetches(index)
      ensures old(Fetches(index)) ==> payloadEndIndex + 1 == Target(index) + |reply|
      ensures index < size == payloadIndex ==> n == size - index + 1
    {
      if index >= size { return 0; }
      if index < payloadIndex {
        if size > payloadIndex && payloadEndIndex != 0 {
          StoreWindow(payloadIndex, index, reply);
        }
      } else if index > payloadEndIndex || payloadStartIndex > index {
        StoreWindow(index, index, reply);
      }
      n := payloadEndIndex - index + 1;
    }

    /** Offset in the buffer of the byte for `index`. */
    function DataOffset(index: nat): int
      reads this
    {
      if index < payloadIndex then index else index - payloadStartIndex + payloadIndex
    }

    // the byte on the wire at a position
    ghost function Outgoing(p: nat): int
      requires Valid()
      reads this, data
    {
      if p < payloadIndex then data[p] else Latest(log, p)
    }

    // one send: ask for what is available, then hand the transport a run of it
    method Send(index: nat, cut: nat, reply: seq<byte>) returns (chunk: seq<byte>)
      requires Valid() && payloadIndex < size && index < size && (index < payloadIndex || Primed())
      modifies this`payloadStartIndex, this`payloadEndIndex, this`log, data
      ensures Valid() && Primed() && old(log) <= log && data[..payloadIndex] == old(data[..payloadIndex])
      ensures log == if old(Fetches(index)) then old(log) + [Fetch(Target(index), index, reply[..Min(|reply|, old(Limit(index)))])] else old(log)
      ensures index + |chunk| <= size && index <= payloadEndIndex + 1 && |chunk| == Min(cut, payloadEndIndex + 1 - index)
      ensures old(Fetches(index)) ==> payloadEndIndex + 1 == Target(index) + Min(|reply|, old(Limit(index)))
      // nothing goes out only when the transport takes nothing or the callback has nothing, and then nothing is lost
      ensures chunk == [] <==> cut == 0 || (index >= payloadIndex && old(Fetches(index)) && reply == [])
      ensures forall p :: index <= p < index + |chunk| ==> chunk[p - index] == Outgoing(p)
      ensures forall p :: 0 <= p < index ==> Outgoing(p) == old(Outgoing(p))
    {
      var maximum := if Fetches(index) && |reply| > Limit(index) then Limit(index) else |reply|;
      var n := Available(index, reply[..maximum]);
      assert log != old(log) ==> log[..|log| - 1] == old(log);
      var at := DataOffset(index);
      chunk := data[at..at + Min(cut, n)];
      assert forall p :: 0 <= p < payloadIndex ==> data[p] == data[..payloadIndex][p] == old(data[..payloadIndex])[p];
    }

    /**
      Sending the whole packet however the transport cuts it: `cuts` bounds each write, `replies` is what the
      callback delivers, of which what is beyond its limit does not count. The bytes out are gapless from position 0,
      the header first, and each payload byte is the one most recently delivered for its position. A callback that
      agrees with one payload throughout yields exactly header and payload. Calling it again is a retransmission.
     */
    method Transmit(cuts: seq<nat>, replies: seq<seq<byte>>, ghost payload: seq<byte>) returns (out: seq<byte>)
      requires Valid() && payloadIndex < size && size == payloadIndex + |payload|
      requires |cuts| == |replies|
      modifies this`payloadStartIndex, this`payloadEndIndex, this`log, data
      ensures Valid() && data[..payloadIndex] == old(data[..payloadIndex])
      ensures |out| <= size && old(log) <= log
      ensures |cuts| >= size && (forall i :: 0 <= i < |cuts| ==> cuts[i] > 0 && replies[i] != []) ==> |out| == size
      ensures forall p :: 0 <= p < |out| ==> out[p] == Outgoing(p)
      ensures (forall f :: f in log ==> Agrees(f, payloadIndex, payload)) ==> out <= data[..payloadIndex] + payload
    {
      out := [];
      var i := 0;
      while i < |cuts| && |out| < size
        invariant 0 <= i <= |cuts|
        invariant Valid() && data[..payloadIndex] == old(data[..payloadIndex]) && |out| <= size && old(log) <= log
        invariant |out| < payloadIndex || Primed()
        invariant (forall i :: 0 <= i < |cuts| ==> cuts[i] > 0 && replies[i] != []) ==> |out| >= i || |out| == size
        invariant forall p :: 0 <= p < |out| ==> out[p] == Outgoing(p)
      {
        var chunk := Send(|out|, cuts[i], replies[i]);
        out := out + chunk;
        i := i + 1;
      }
      if forall f :: f in log ==> Agrees(f, payloadIndex, payload) {
        AgreeingBytes(out, payload);
      }
    }

    lemma AgreeingBytes(out: seq<byte>, payload: seq<byte>)
      requires Valid() && |out| <= size == payloadIndex + |payload|
      requires forall p :: 0 <= p < |out| ==> out[p] == Outgoing(p)
      requires forall f :: f in log ==> Agrees(f, payloadIndex, payload)
      ensures out <= data[..payloadIndex] + payload
    {
      var whole := data[..payloadIndex] + payload;
      forall p | 0 <= p < |out| ensures out[p] == whole[p] {
        assert out[p] == Outgoing(p);
        if p >= payloadIndex { LatestAgrees(log, payloadIndex, payload, p); }
      }
    }
  }

  /** With an empty payload the first request already offers a byte behind the packet's end. */
  method EmptyPayloadOverruns(header: seq<byte>) returns (n: nat)
    requires |header| >= 4
    ensures n == |header| + 1
  {
    var p := new CallbackPacket(header, 0);
    n := p.Available(0, []);
  }

  /**
    A payload of two windows, served by a callback that takes its index for an offset in the payload: behind the
    first window the bytes come from four further on, the length of the header.
   */
  method OffsetCallbackShifts(header: seq<byte>) returns (out: seq<byte>)
    requires |header| == 4
    ensures var payload := seq(2 * TX_BUFFER_SIZE, i requires 0 <= i => (i % 256) as byte);
            |out| == 4 + TX_BUFFER_SIZE + 1 && out[4 + TX_BUFFER_SIZE] == payload[TX_BUFFER_SIZE + 4] != payload[TX_BUFFER_SIZE]
  {
    var payload := seq(2 * TX_BUFFER_SIZE, i requires 0 <= i => (i % 256) as byte);
    var p := new CallbackPacket(header, |payload|);
    assert p.Fetches(0) && p.Limit(0) == TX_BUFFER_SIZE;
    var first := p.Send(0, 4 + TX_BUFFER_SIZE, payload);
    var index := 4 + TX_BUFFER_SIZE;
    assert p.Fetches(index) && |payload[index..]| >= 1;
    var second := p.Send(index, 1, payload[index..]);
    ghost var f := p.log[|p.log| - 1];
    assert Covers(f, index) && f.bytes[0] == payload[index];
    assert second[0] == p.Outgoing(index);
    out := first + second;
  }
}
