/**
  The client object (src/MqttClient.cpp, src/MqttClient.h): fields, an outbox threaded through the heap, and
  the parser. Every method is proved to do what the step machine says; the user calls and `Loop` extend the
  run that the object has made since its construction.
 */
module MqttClient {
  import opened Bytes
  import opened Constants
  import opened Options
  import opened PacketSpec
  import opened ClientSpec
  import opened ClientRuns
  import opened ClientLoop
  import ClientDup
  import ClientPackets
  import ClientPubacks
  import ClientClearing
  import ClientClock
  import ClientFraming
  import ClientLedger
  import ClientLifecycle
  import ClientOrder
  import ClientQos2
  import ClientTrace
  import Queue = Outbox
  import P = ParserSpec
  import Parser

  type uint16 = n: nat | n < 65536

  class MqttClient {
    const config: Config
    const outbox: Queue.Outbox<Item>
    const parser: Parser.Parser
    var state: State
    var bytesSent: nat
    var packetId: uint16
    var pingSent: bool
    var lastClientActivity: nat
    var lastServerActivity: nat
    var disconnectReason: nat
    // what the theorems speak of; the program has no such field and no decision depends on it
    var h: History
    // the run made so far, and the byte machine's view of the parser
    ghost var trace: seq<Action>
    ghost var at: P.State

    /** The object as the step machine sees it. */
    ghost function Abs(): Client
      reads this, outbox`items, outbox`cursor
    {
      Client(config, state, outbox.items, outbox.cursor, bytesSent, packetId, pingSent, lastClientActivity, lastServerActivity,
             disconnectReason, h)
    }

    ghost predicate Core()
      reads this, outbox, outbox.nodes
    {
      outbox.Valid() && Basic(Abs())
    }

    /** Between calls: the object is where the run recorded in `trace` leads, and the parser can take what comes. */
    ghost predicate Valid()
      reads this, outbox, outbox.nodes, parser, parser.remainingLengthRaw, parser.topic, parser.payloadBuffer
    {
      && Core() && ParserAt(at) && Fits(Abs(), at)
      && EnabledRun(Init(config), trace) && Abs() == Run(Init(config), trace)
    }

    /** The parser is in the state the byte machine is in; after a protocol error nothing is asked of it. */
    ghost predicate ParserAt(s: P.State)
      reads parser, parser.remainingLengthRaw, parser.topic, parser.payloadBuffer
    {
      parser.Buffers() && (s != P.Failed ==> parser.Valid() && parser.Abs() == s)
    }

    // new nodes are the only ones that can have joined the queue
    twostate predicate Joined(new nodes: seq<Queue.Node<Item>>)
    {
      forall i :: 0 <= i < |nodes| ==> nodes[i] in old(outbox.nodes) || fresh(nodes[i])
    }

    constructor (config: Config)
      requires ConfigOk(config)
      ensures Valid() && Abs() == Init(config) && trace == []
      ensures fresh(this) && fresh(outbox) && fresh(parser)
      ensures fresh(parser.remainingLengthRaw) && fresh(parser.topic) && fresh(parser.payloadBuffer)
    {
      this.config := config;
      outbox := new Queue.Outbox<Item>();
      parser := new Parser.Parser();
      state, bytesSent, packetId, pingSent := Disconnected, 0, 0, false;
      lastClientActivity, lastServerActivity, disconnectReason := 0, 0, TCP_DISCONNECTED;
      h := History([], [], [], [], 0, false, 0);
      trace, at := [], P.AwaitHeader;
    }

    method GetNextPacketId() returns (id: nat)
      requires Core()
      modifies this`packetId
      ensures Core() && id == packetId == NextPacketId(old(packetId))
    {
      packetId := (packetId + 1) % 65536;
      if packetId == 0 {
        packetId := packetId + 1;
      }
      id := packetId;
    }

    /** Appends a packet; one that could not be built is taken out again, and nothing is left of it. */
    method AddPacket(bytes: seq<byte>, id: nat, mem: Memory) returns (ok: bool)
      requires Core() && bytes != []
      modifies this`h, outbox, outbox.nodes
      ensures Core() && ok == (mem == Granted)
      ensures Abs() == AppendNew(old(Abs()), Added(bytes, id, mem))
      ensures old(outbox.nodes) <= outbox.nodes && Joined(outbox.nodes)
    {
      hide Queue.Outbox.Valid, Basic;
      AppendBasic(Abs(), bytes, id);
      if mem == NoNode { return false; }
      if mem == NoBuffer {
        outbox.EmplaceAndUndo(Item([], id, 0, h.serials, false));
        return false;
      }
      var it := outbox.Emplace(Item(bytes, id, 0, h.serials, false));
      h := h.(serials := h.serials + 1);
      ok := true;
    }

    lemma AppendBasic(c: Client, bytes: seq<byte>, id: nat)
      requires Basic(c) && bytes != []
      ensures Basic(AppendNew(c, Added(bytes, id, Granted)))
    {
    }

    /** Prepends CONNECT; the cursor goes to the front even when the packet could not be built. */
    method AddPacketFront(mem: Memory) returns (ok: bool)
      requires Core()
      modifies this`h, outbox, outbox.nodes
      ensures Core() && ok == (mem == Granted)
      ensures Abs() == ClientSpec.AddPacketFront(old(Abs()), config.connectBytes, mem)
      ensures Joined(outbox.nodes)
    {
      hide Queue.Outbox.Valid, Basic;
      FrontBasic(Abs(), mem);
      if mem == NoNode { return false; }
      if mem == NoBuffer {
        outbox.EmplaceFrontAndUndo(Item([], 0, 0, h.serials, false));
        h := h.(order := []);
      } else {
        var it := outbox.EmplaceFront(Item(config.connectBytes, 0, 0, h.serials, false));
        h := h.(serials := h.serials + 1, order := []);
      }
      ok := mem == Granted;
    }

    lemma FrontBasic(c: Client, mem: Memory)
      requires Basic(c)
      ensures Basic(ClientSpec.AddPacketFront(c, c.config.connectBytes, mem))
    {
    }

    // ---- sending ----

    /** Writes what the transport takes of the current packet. */
    method SendPacket(w: nat, now: nat) returns (written: nat)
      requires Core() && Number(state) >= 3
      modifies this`h, this`bytesSent, this`lastClientActivity, outbox`items, outbox.nodes
      ensures Core() && outbox.nodes == old(outbox.nodes)
      ensures written == Min(w, Available(old(Abs())))
      ensures Abs() == ClientSpec.SendPacket(old(Abs()), w, now)
    {
      hide Queue.Outbox.Valid, Basic;
      SendBasic(Abs(), w, now);
      var packet := outbox.GetCurrent();
      written := 0;
      if packet.Some? && bytesSent < |packet.value.bytes| {
        var wantToWrite := |packet.value.bytes| - bytesSent;
        written := Min(w, wantToWrite);
        Sent(packet.value, written, now);
      }
    }

    // the transport took `written` bytes of the current packet
    method Sent(p: Item, written: nat, now: nat)
      requires Core() && Number(state) >= 3 && outbox.cursor < |outbox.items| && outbox.items[outbox.cursor] == p
      requires bytesSent + written <= |p.bytes| && Available(Abs()) > 0
      modifies this`h, this`bytesSent, this`lastClientActivity, outbox`items, outbox.nodes
      ensures Core() && outbox.nodes == old(outbox.nodes)
      ensures Abs() == ClientSpec.SendPacket(old(Abs()), written, now)
    {
      hide Queue.Outbox.Valid, Basic, ClientSpec.SendPacket, Available;
      ghost var c := Abs();
      SendBasic(c, written, now);
      SentIs(c, written, now);
      var fromStart := bytesSent == 0 || h.started == p.serial;
      outbox.SetCurrent(p.(timeSent := now, whole := p.whole || (bytesSent + written == |p.bytes| && fromStart)));
      lastClientActivity := now;
      h := h.(wire := h.wire + p.bytes[bytesSent..bytesSent + written],
              started := if bytesSent == 0 && written > 0 then p.serial else h.started);
      bytesSent := bytesSent + written;
    }

    lemma SentIs(c: Client, n: nat, now: nat)
      requires c.cursor < |c.queue| && c.bytesSent + n <= |c.queue[c.cursor].bytes| && Available(c) > 0
      ensures var p := c.queue[c.cursor];
              ClientSpec.SendPacket(c, n, now) ==
                c.(queue := c.queue[c.cursor := p.(timeSent := now, whole := p.whole || (c.bytesSent + n == |p.bytes| && FromStart(c)))],
                   bytesSent := c.bytesSent + n, lastClientActivity := now,
                   h := c.h.(wire := c.h.wire + p.bytes[c.bytesSent..c.bytesSent + n],
                             started := if c.bytesSent == 0 && n > 0 then p.serial else c.h.started))
    {
    }

    // the outbox part of advancing
    method LeaveCurrent(p: Item)
      requires outbox.Valid() && outbox.cursor < |outbox.items| && outbox.items[outbox.cursor] == p
      modifies outbox, outbox.nodes
      ensures outbox.Valid() && Joined(outbox.nodes)
      ensures Removable(p) ==> outbox.items == Queue.Without(old(outbox.items), old(outbox.cursor)) && outbox.cursor == old(outbox.cursor)
      ensures !Removable(p) ==> outbox.items == old(outbox.items)[old(outbox.cursor) := SetDup(p)] && outbox.cursor == old(outbox.cursor) + 1
    {
      hide Queue.Outbox.Valid, Queue.Without, TypeOf, SetDup, Removable;
      if Removable(p) {
        outbox.RemoveCurrent();
      } else {
        if TypeOf(p) == PUBLISH { outbox.SetCurrent(SetDup(p)); } else { NotMarked(p, outbox.items, outbox.cursor); }
        outbox.Next();
      }
    }

    // the current packet is written to its end
    method FinishCurrent(p: Item)
      requires Core() && h.connackSeen && outbox.cursor < |outbox.items| && outbox.items[outbox.cursor] == p && bytesSent == |p.bytes|
      modifies this`h, this`bytesSent, this`state, this`disconnectReason, outbox, outbox.nodes
      ensures Core() && Joined(outbox.nodes)
      ensures Abs() == ClientSpec.AdvanceOutbox(old(Abs()))
    {
      hide Queue.Outbox.Valid, Queue.Without, Basic, TypeOf, SetDup, Removable;
      ghost var c := Abs();
      AdvanceBasic(c);
      if TypeOf(p) == DISCONNECT {
        state, disconnectReason := DisconnectingTcp1, 0;
      }
      LeaveCurrent(p);
      h := h.(done := h.done + [p.bytes], order := if TypeOf(p) != CONNECT then h.order + [p.serial] else h.order);
      bytesSent := 0;
      assert Abs() == ClientSpec.AdvanceOutbox(c);
    }

    /** Past a packet that is written to its end: out of the queue, or marked DUP and behind the cursor. */
    method AdvanceOutbox() returns (more: bool)
      requires Core() && h.connackSeen
      modifies this`h, this`bytesSent, this`state, this`disconnectReason, outbox, outbox.nodes
      ensures Core() && Joined(outbox.nodes)
      ensures Abs() == ClientSpec.AdvanceOutbox(old(Abs()))
      ensures more == (outbox.cursor < |outbox.items|)
    {
      AdvanceBasic(Abs());
      hide Queue.Outbox.Valid, Queue.Without, Basic, TypeOf, SetDup, Removable;
      var packet := outbox.GetCurrent();
      if packet.Some? && bytesSent == |packet.value.bytes| {
        FinishCurrent(packet.value);
        packet := outbox.GetCurrent();
      }
      more := packet.Some?;
    }

    lemma NotMarked(p: Item, q: seq<Item>, i: nat)
      requires TypeOf(p) != PUBLISH && i < |q| && q[i] == p
      ensures q[i := SetDup(p)] == q
    {
    }

    /** The send loop: it ends because packets from the cursor on, or bytes left of the current one, become fewer. */
    method CheckOutbox(writes: nat -> nat, now: nat)
      requires Core() && Talking(Abs())
      modifies this, outbox, outbox.nodes
      ensures Core() && Joined(outbox.nodes)
      ensures var acts := SendLoop(old(Abs()), writes, 0, now);
              EnabledRun(old(Abs()), acts) && Abs() == Run(old(Abs()), acts) && Talking(Abs())
    {
      hide Queue.Outbox.Valid, Basic, Available, SendLoop, Run, EnabledRun, ClientSpec.SendPacket, ClientSpec.AdvanceOutbox, Step;
      ghost var c, done := Abs(), [];
      RunNothing(c);
      Seen(c);
      var k := 0;
      assert [] + SendLoop(c, writes, 0, now) == SendLoop(c, writes, 0, now);
      while true
        invariant Core() && Talking(Abs()) && Joined(outbox.nodes) && 0 <= k && outbox.cursor <= |outbox.items|
        invariant EnabledRun(c, done) && Abs() == Run(c, done)
        invariant SendLoop(c, writes, 0, now) == done + SendLoop(Abs(), writes, k, now)
        decreases |outbox.items| - outbox.cursor, Available(Abs())
      {
        ghost var d, a := Abs(), SendAndAdvance(writes(k), now);
        SendLoopTurn(c, done, d, writes, k, now);
        SendLoopProgress(d, writes(k), now);
        var written := SendPacket(writes(k), now);
        if written == 0 { break; }
        var more := AdvanceOutbox();
        if !more { break; }
        Seen(Abs());
        done := done + [a];
        k := k + 1;
      }
    }

    // ---- received packets ----

    // the walk of the handlers that look for the first packet of a kind
    method FrontOf(kind: byte) returns (it: Queue.Iterator<Item>)
      requires outbox.Valid()
      ensures var i := FirstOf(outbox.items, kind);
              && fresh(it) && outbox.At(it, i) && (it.node != null <==> i < |outbox.items|)
              && (it.node != null ==> it.node.data == outbox.items[i])
    {
      it := outbox.Front();
      ghost var i := 0;
      while it.node != null
        invariant fresh(it) && outbox.At(it, i) && i <= |outbox.items|
        invariant forall j :: 0 <= j < i ==> TypeOf(outbox.items[j]) != kind
        decreases |outbox.items| - i
        modifies it
      {
        assert outbox.nodes[i].data == outbox.items[i] && Queue.Hop(outbox.nodes, i);
        if TypeOf(it.node.data) == kind { break; }
        it.Advance();
        i := i + 1;
      }
      assert FirstOf(outbox.items, kind) == i;
    }

    // the same for the first packet of a kind with a given id
    method FrontWith(kind: byte, id: nat) returns (it: Queue.Iterator<Item>)
      requires outbox.Valid()
      ensures var i := FirstWith(outbox.items, kind, id);
              && fresh(it) && outbox.At(it, i) && (it.node != null <==> i < |outbox.items|)
              && (it.node != null ==> it.node.data == outbox.items[i])
    {
      it := outbox.Front();
      ghost var i := 0;
      while it.node != null
        invariant fresh(it) && outbox.At(it, i) && i <= |outbox.items|
        invariant forall j :: 0 <= j < i ==> !(TypeOf(outbox.items[j]) == kind && outbox.items[j].id == id)
        decreases |outbox.items| - i
        modifies it
      {
        assert outbox.nodes[i].data == outbox.items[i] && Queue.Hop(outbox.nodes, i);
        if TypeOf(it.node.data) == kind && it.node.data.id == id { break; }
        it.Advance();
        i := i + 1;
      }
      assert FirstWith(outbox.items, kind, id) == i;
    }

    // and for the first packet with a given id, whatever its kind
    method FrontWithId(id: nat) returns (it: Queue.Iterator<Item>)
      requires outbox.Valid()
      ensures var i := FirstId(outbox.items, id);
              && fresh(it) && outbox.At(it, i) && (it.node != null <==> i < |outbox.items|)
              && (it.node != null ==> it.node.data == outbox.items[i])
    {
      it := outbox.Front();
      ghost var i := 0;
      while it.node != null
        invariant fresh(it) && outbox.At(it, i) && i <= |outbox.items|
        invariant forall j :: 0 <= j < i ==> outbox.items[j].id != id
        decreases |outbox.items| - i
        modifies it
      {
        assert outbox.nodes[i].data == outbox.items[i] && Queue.Hop(outbox.nodes, i);
        if it.node.data.id == id { break; }
        it.Advance();
        i := i + 1;
      }
      assert FirstId(outbox.items, id) == i;
    }

    lemma InRange(it: Queue.Iterator<Item>, i: nat)
      requires outbox.Valid() && outbox.At(it, i) && i < |outbox.items|
      ensures |outbox.nodes| == |outbox.items|
    {
    }

    // takes the packet under the iterator out of the outbox
    method TakeOut(it: Queue.Iterator<Item>, ghost i: nat, notes: seq<Note>)
      requires Core() && outbox.At(it, i) && i < |outbox.items|
      modifies this`h, outbox, outbox.nodes, it
      ensures Core() && Joined(outbox.nodes)
      ensures Abs() == Apply(old(Abs()), Edit(None, Some(i), notes))
    {
      hide Queue.Outbox.Valid, Queue.Outbox.At, Basic, Queue.Without, Queue.CursorWithout;
      InRange(it, i);
      ApplyBasic(Abs(), Edit(None, Some(i), notes));
      outbox.Remove(it, i);
      h := h.(notes := h.notes + notes);
    }

    // answers with a packet behind the queue, then takes out the one the iterator stands on
    method Answer(it: Queue.Iterator<Item>, ghost i: nat, bytes: seq<byte>, id: nat, mem: Memory, notes: seq<Note>)
      requires Core() && outbox.At(it, i) && i < |outbox.items| && bytes != []
      modifies this`h, outbox, outbox.nodes, it
      ensures Core() && Joined(outbox.nodes)
      ensures Abs() == Apply(old(Abs()), Edit(Added(bytes, id, mem), Some(i), notes))
    {
      ghost var nodes := outbox.nodes;
      var ok := AddPacket(bytes, id, mem);
      assert outbox.At(it, i) by { assert nodes <= outbox.nodes; }
      hide Queue.Outbox.Valid, Basic, Queue.Without, Queue.CursorWithout;
      TakeOut(it, i, notes);
    }

    // appends a packet and records what happened
    method Append(bytes: seq<byte>, id: nat, mem: Memory, notes: seq<Note>)
      requires Core() && bytes != []
      modifies this`h, outbox, outbox.nodes
      ensures Core() && Joined(outbox.nodes)
      ensures Abs() == Apply(old(Abs()), Edit(Added(bytes, id, mem), None, notes))
    {
      hide Queue.Outbox.Valid, Basic;
      var ok := AddPacket(bytes, id, mem);
      Record(notes);
    }

    method Record(notes: seq<Note>)
      requires Core()
      modifies this`h
      ensures Core() && Abs() == WithNotes(old(Abs()), notes)
    {
      h := h.(notes := h.notes + notes);
    }

    method OnPublish(e: P.Event, mem: Memory) returns (callback: bool)
      requires Core() && e.Publish? && WellFormedEvent(e)
      modifies this`h, outbox, outbox.nodes
      ensures Core() && Joined(outbox.nodes)
      ensures Abs() == Apply(old(Abs()), ClientSpec.OnPublish(old(outbox.items), e, mem))
      ensures callback == CallsBack(ClientSpec.OnPublish(old(outbox.items), e, mem).notes)
    {
      hide Queue.Outbox.Valid, Queue.Outbox.At, Basic, FirstWith, AckBytes, CallsBack;
      MessageCallsBack(outbox.items, e, mem);
      var qos := QosOf(e.header);
      callback := true;
      if qos == 2 {
        var it := FrontWith(PUBREC, e.id);
        callback := it.node == null;
      }
      var onMessage := if callback then [Fragment(e)] else [];
      if !Last(e) || qos == 0 || qos == 3 {
        Record(onMessage);
      } else if qos == 1 {
        Append(AckBytes(PUBACK, e.id), e.id, mem, onMessage);
      } else {
        Append(AckBytes(PUBREC, e.id), e.id, mem,
               [if mem == Granted then Stored(e.id, callback) else Unstored(e.id, callback)] + onMessage);
      }
    }

    method OnPuback(idToMatch: nat) returns (callback: bool)
      requires Core()
      modifies this`h, outbox, outbox.nodes
      ensures Core() && Joined(outbox.nodes)
      ensures Abs() == Apply(old(Abs()), ClientSpec.OnPuback(old(outbox.items), idToMatch))
      ensures callback == CallsBack(ClientSpec.OnPuback(old(outbox.items), idToMatch).notes)
    {
      hide Queue.Outbox.Valid, Queue.Outbox.At, Basic, FirstOf;
      var it := FrontOf(PUBLISH);
      ghost var i := FirstOf(outbox.items, PUBLISH);
      callback := it.node != null && it.node.data.id == idToMatch;
      if callback { TakeOut(it, i, [Completed(idToMatch)]); } else { ApplyNothing(Abs()); }
    }

    method OnPubrec(idToMatch: nat, mem: Memory)
      requires Core() && idToMatch < 65536
      modifies this`h, outbox, outbox.nodes
      ensures Core() && Joined(outbox.nodes)
      ensures Abs() == Apply(old(Abs()), ClientSpec.OnPubrec(old(outbox.items), idToMatch, mem))
    {
      hide Queue.Outbox.Valid, Queue.Outbox.At, Basic, FirstOf, AckBytes;
      var it := FrontOf(PUBLISH);
      ghost var i := FirstOf(outbox.items, PUBLISH);
      var success := it.node != null && it.node.data.id == idToMatch;
      if success {
        Answer(it, i, AckBytes(PUBREL, idToMatch), idToMatch, mem, if mem == Granted then [] else [Discarded(idToMatch)]);
      } else { ApplyNothing(Abs()); }
    }

    method OnPubrel(idToMatch: nat, mem: Memory)
      requires Core() && idToMatch < 65536
      modifies this`h, outbox, outbox.nodes
      ensures Core() && Joined(outbox.nodes)
      ensures Abs() == Apply(old(Abs()), ClientSpec.OnPubrel(old(outbox.items), idToMatch, mem))
    {
      hide Queue.Outbox.Valid, Queue.Outbox.At, Basic, FirstOf, AckBytes;
      var it := FrontOf(PUBREC);
      ghost var i := FirstOf(outbox.items, PUBREC);
      var success := it.node != null && it.node.data.id == idToMatch;
      if success { Answer(it, i, AckBytes(PUBCOMP, idToMatch), idToMatch, mem, [Released(idToMatch)]); } else { ApplyNothing(Abs()); }
    }

    method OnPubcomp(idToMatch: nat) returns (callback: bool)
      requires Core()
      modifies this`h, outbox, outbox.nodes
      ensures Core() && Joined(outbox.nodes)
      ensures Abs() == Apply(old(Abs()), ClientSpec.OnPubcomp(old(outbox.items), idToMatch))
      ensures callback == CallsBack(ClientSpec.OnPubcomp(old(outbox.items), idToMatch).notes)
    {
      hide Queue.Outbox.Valid, Queue.Outbox.At, Basic, FirstOf;
      var it := FrontOf(PUBREL);
      ghost var i := FirstOf(outbox.items, PUBREL);
      callback := it.node != null && it.node.data.id == idToMatch;
      if callback { TakeOut(it, i, [Completed(idToMatch)]); } else { ApplyNothing(Abs()); }
    }

    method OnSuback(idToMatch: nat) returns (callback: bool)
      requires Core()
      modifies this`h, outbox, outbox.nodes
      ensures Core() && Joined(outbox.nodes)
      ensures Abs() == Apply(old(Abs()), ClientSpec.OnSuback(old(outbox.items), idToMatch))
      ensures callback == CallsBack(ClientSpec.OnSuback(old(outbox.items), idToMatch).notes)
    {
      hide Queue.Outbox.Valid, Queue.Outbox.At, Basic, FirstWith;
      var it := FrontWith(SUBSCRIBE, idToMatch);
      ghost var i := FirstWith(outbox.items, SUBSCRIBE, idToMatch);
      callback := it.node != null;
      if callback { TakeOut(it, i, [OnSubscribe(idToMatch)]); } else { ApplyNothing(Abs()); }
    }

    method OnUnsuback(idToMatch: nat) returns (callback: bool)
      requires Core()
      modifies this`h, outbox, outbox.nodes
      ensures Core() && Joined(outbox.nodes)
      ensures Abs() == Apply(old(Abs()), ClientSpec.OnUnsuback(old(outbox.items), idToMatch))
      ensures callback == CallsBack(ClientSpec.OnUnsuback(old(outbox.items), idToMatch).notes)
    {
      hide Queue.Outbox.Valid, Queue.Outbox.At, Basic, FirstId, Loss;
      var it := FrontWithId(idToMatch);
      ghost var i := FirstId(outbox.items, idToMatch);
      callback := it.node != null;
      if callback { TakeOut(it, i, Loss(it.node.data) + [OnUnsubscribe(idToMatch)]); } else { ApplyNothing(Abs()); }
    }

    // ---- clearing the outbox ----

    // one packet of the walk: kept, or taken out with what is lost with it
    method KeepOrRemove(it: Queue.Iterator<Item>, ghost i: nat, clearData: nat)
      requires outbox.Valid() && outbox.At(it, i) && i < |outbox.items|
      modifies this`h, outbox, outbox.nodes, it
      ensures outbox.Valid() && (forall x :: x in outbox.nodes ==> x in old(outbox.nodes))
      ensures var p := old(outbox.items[i]);
              if Keeps(clearData, p) then
                outbox.At(it, i + 1) && h == old(h) && outbox.items == old(outbox.items) && outbox.cursor == old(outbox.cursor)
              else
                outbox.At(it, i) && h == old(h).(notes := old(h).notes + Loss(p))
                && outbox.items == Queue.Without(old(outbox.items), i) && outbox.cursor == Queue.CursorWithout(old(outbox.cursor), i)
    {
      assert outbox.nodes[i].data == outbox.items[i] && Queue.Hop(outbox.nodes, i);
      hide Keeps, Loss, Queue.Without, Queue.CursorWithout;
      if Keeps(clearData, it.node.data) {
        it.Advance();
      } else {
        h := h.(notes := h.notes + Loss(it.node.data));
        outbox.Remove(it, i);
      }
    }

    lemma PastEnd(it: Queue.Iterator<Item>, i: nat)
      requires outbox.Valid() && outbox.At(it, i)
      ensures i <= |outbox.items| && (it.node == null <==> i == |outbox.items|)
    {
    }

    // the walk has passed n packets of the outbox that c had
    ghost predicate ClearedTo(it: Queue.Iterator<Item>, c: Client, level: nat, n: nat)
      requires c.cursor <= |c.queue|
      reads this, outbox, outbox.nodes, it
    {
      && outbox.Valid() && n <= |c.queue| && outbox.At(it, |Kept(c.queue[..n], level)|)
      && PartCleared(c.queue, c.cursor, level, n, outbox.items, outbox.cursor)
      && Abs() == WithNotes(c.(queue := outbox.items, cursor := outbox.cursor), Losses(c.queue[..n], level))
    }

    method ClearOne(it: Queue.Iterator<Item>, ghost c: Client, clearData: nat, ghost n: nat)
      requires c.cursor <= |c.queue| && ClearedTo(it, c, clearData, n) && it.node != null
      modifies this`h, outbox, outbox.nodes, it
      ensures n < |c.queue| && outbox.Valid() && ClearedTo(it, c, clearData, n + 1)
      ensures Joined(outbox.nodes)
    {
      hide Queue.Outbox.Valid, Queue.Outbox.At, Kept, Losses, Keeps, Loss, PartCleared, Queue.Without, Queue.CursorWithout;
      ghost var q, k := c.queue, |Kept(c.queue[..n], clearData)|;
      PastEnd(it, k);
      ClearEnd(q, c.cursor, clearData, n, outbox.items, outbox.cursor);
      ClearTurn(q, c.cursor, clearData, n, outbox.items, outbox.cursor);
      KeptNext(q, n, clearData);
      ghost var before, p := h.notes, outbox.items[k];
      KeepOrRemove(it, k, clearData);
      Assoc(c.h.notes, Losses(q[..n], clearData), Loss(p));
      assert Losses(q[..n], clearData) + [] == Losses(q[..n], clearData);
      assert h.notes == c.h.notes + Losses(q[..n + 1], clearData);
    }

    lemma ClearBegins(it: Queue.Iterator<Item>, c: Client, level: nat)
      requires Core() && c == Abs() && outbox.At(it, 0)
      ensures ClearedTo(it, c, level, 0)
    {
      ClearStart(c.queue, c.cursor, level);
      assert h.notes + [] == h.notes;
    }

    lemma ClearEnds(it: Queue.Iterator<Item>, c: Client, level: nat, n: nat)
      requires Basic(c) && ClearedTo(it, c, level, n) && it.node == null
      ensures Core() && Abs() == ClientSpec.ClearQueue(c, level)
    {
      ClearBasic(c, level);
      hide Kept, Losses, PartCleared, Basic;
      PastEnd(it, |Kept(c.queue[..n], level)|);
      ClearEnd(c.queue, c.cursor, level, n, outbox.items, outbox.cursor);
    }

    method ClearAll(it: Queue.Iterator<Item>, ghost c: Client, clearData: nat) returns (ghost n: nat)
      requires c.cursor <= |c.queue| && ClearedTo(it, c, clearData, 0)
      modifies this`h, outbox, outbox.nodes, it
      ensures ClearedTo(it, c, clearData, n) && it.node == null && Joined(outbox.nodes)
    {
      hide Queue.Outbox.Valid, Queue.Outbox.At, ClearedTo;
      n := 0;
      while it.node != null
        invariant ClearedTo(it, c, clearData, n) && n <= |c.queue|
        invariant Joined(outbox.nodes)
        decreases |c.queue| - n
      {
        ClearOne(it, c, clearData, n);
        n := n + 1;
      }
    }

    /** The iterator loop of _clearQueue leaves the order-preserving filter of the outbox. */
    method ClearQueue(clearData: nat)
      requires Core()
      modifies this`h, outbox, outbox.nodes
      ensures Core() && Joined(outbox.nodes)
      ensures Abs() == ClientSpec.ClearQueue(old(Abs()), clearData)
    {
      ghost var c := Abs();
      assert c.cursor <= |c.queue|;
      hide Queue.Outbox.Valid, Queue.Outbox.At, ClearedTo, Basic, ClientSpec.ClearQueue;
      var it := outbox.Front();
      ClearBegins(it, c, clearData);
      ghost var n := ClearAll(it, c, clearData);
      ClearEnds(it, c, clearData, n);
    }

    method OnConnack(sessionPresent: byte, returnCode: byte) returns (callback: bool)
      requires Core() && Number(state) >= 3
      modifies this`h, this`bytesSent, this`state, this`disconnectReason, this`pingSent, outbox, outbox.nodes
      ensures Core() && Joined(outbox.nodes)
      ensures Abs() == ClientSpec.OnConnack(old(Abs()), sessionPresent, returnCode)
      ensures callback == (returnCode == 0)
    {
      hide Queue.Outbox.Valid, ClientSpec.AdvanceOutbox, ClientSpec.ClearQueue;
      ghost var c := Abs();
      ConnackBasic(c, sessionPresent, returnCode);
      h := h.(connackSeen := true);
      callback := returnCode == 0;
      if returnCode == 0 {
        pingSent := false;
        state := Connected;
        Welcome(sessionPresent);
      } else {
        state := DisconnectingTcp1;
        disconnectReason := returnCode;
      }
    }

    // what is left to do once CONNACK has been accepted
    method Welcome(sessionPresent: byte)
      requires Core() && state == Connected
      modifies this`h, this`bytesSent, this`state, this`disconnectReason, outbox, outbox.nodes
      ensures Core() && Joined(outbox.nodes)
      ensures var c1 := ClientSpec.AdvanceOutbox(old(Abs()));
              c1.cursor <= |c1.queue| &&
              Abs() == WithNotes(if sessionPresent == 0 then ClientSpec.ClearQueue(c1, 1) else c1, [OnConnect(sessionPresent != 0)])
    {
      hide Queue.Outbox.Valid, Basic, ClientSpec.ClearQueue, ClientSpec.AdvanceOutbox;
      assert h.connackSeen && outbox.cursor <= |outbox.items| by { Seen(Abs()); }
      var more := AdvanceOutbox();
      assert outbox.cursor <= |outbox.items| by { Seen(Abs()); }
      if sessionPresent == 0 { ClearQueue(1); }
      Record([OnConnect(sessionPresent != 0)]);
    }

    lemma Seen(c: Client)
      requires Basic(c)
      ensures c.cursor <= |c.queue| && (c.state == Connected ==> c.h.connackSeen)
    {
    }

    // ---- timers ----

    method CheckPing(now: nat, mem: Memory)
      requires Core() && 3 <= Number(state) <= 7
      modifies this`h, this`state, this`disconnectReason, this`pingSent, outbox, outbox.nodes
      ensures Core() && Joined(outbox.nodes)
      ensures Abs() == ClientSpec.CheckPing(old(Abs()), now, mem)
    {
      hide Queue.Outbox.Valid, Elapsed;
      if config.keepAlive == 0 { return; }
      if Elapsed(now, lastServerActivity) > 2 * config.keepAlive {
        state := DisconnectingTcp1;
        disconnectReason := TCP_DISCONNECTED;
        return;
      }
      if !pingSent && (Elapsed(now, lastClientActivity) > config.keepAlive || Elapsed(now, lastServerActivity) > config.keepAlive) {
        pingSent := mem == Granted;
        Append(BareBytes(PINGREQ), 0, mem, []);
      }
    }

    method CheckTimeout(now: nat)
      requires Core()
      modifies this`h, outbox`current, outbox`cursor
      ensures Core() && outbox.nodes == old(outbox.nodes)
      ensures Abs() == ClientSpec.CheckTimeout(old(Abs()), now)
    {
      hide Elapsed, ConfigOk, NonEmpty;
      var it := outbox.Front();
      // a packet under way is not disturbed, and the first packet must have been sent
      if it.node != null && bytesSent == 0 && it.node != outbox.current {
        if Elapsed(now, it.node.data.timeSent) > config.timeout {
          outbox.ResetCurrent();
          h := h.(order := []);
        }
      }
    }

    // ---- one received packet ----

    // the handlers of the packets that carry an id
    method OnAck(kind: byte, id: nat, mem: Memory) returns (callback: bool)
      requires Core() && kind in {PUBACK, PUBREC, PUBREL, PUBCOMP, UNSUBACK} && 0 < id < 65536
      modifies this`h, outbox, outbox.nodes
      ensures Core() && Joined(outbox.nodes)
      ensures var q := old(outbox.items);
              var e := if kind == PUBACK then ClientSpec.OnPuback(q, id) else if kind == PUBREC then ClientSpec.OnPubrec(q, id, mem)
                       else if kind == PUBREL then ClientSpec.OnPubrel(q, id, mem) else if kind == PUBCOMP then ClientSpec.OnPubcomp(q, id)
                       else ClientSpec.OnUnsuback(q, id);
              (e.remove.Some? ==> e.remove.value < |q|) && Abs() == Apply(old(Abs()), e) && callback == CallsBack(e.notes)
    {
      hide Queue.Outbox.Valid, Basic, FirstOf, FirstId, Loss, Apply, AckBytes;
      callback := false;
      if kind == PUBACK { callback := OnPuback(id); }
      else if kind == PUBREC { OnPubrec(id, mem); }
      else if kind == PUBREL { OnPubrel(id, mem); }
      else if kind == PUBCOMP { callback := OnPubcomp(id); }
      else { callback := OnUnsuback(id); }
    }

    // the handler of a packet other than CONNACK
    method OnOther(e: P.Event, mem: Memory) returns (callback: bool)
      requires Core() && Enabled(Abs(), Received(e, mem)) && !e.Connack?
      modifies this`h, this`state, this`pingSent, outbox, outbox.nodes
      ensures Core() && Joined(outbox.nodes) && Handled(old(Abs()), Abs(), e, mem, callback)
    {
      hide Queue.Outbox.Valid, Apply, ClientSpec.OnPublish, ClientSpec.OnPuback, ClientSpec.OnPubrec, ClientSpec.OnPubrel,
           ClientSpec.OnPubcomp, ClientSpec.OnSuback, ClientSpec.OnUnsuback;
      StepBasic(Abs(), Received(e, mem));
      callback := false;
      if state == ConnectingMqtt {
        state := DisconnectingTcp1;
        return;
      }
      match e {
        case Publish(_, _, _, _, _, _) =>
          // no incoming messages once the user has called disconnect
          if Number(state) < Number(DisconnectingMqtt1) { callback := OnPublish(e, mem); }
        case Ack(header, id) => callback := OnAck(Kind(header), id, mem);
        case Suback(id, _) => callback := OnSuback(id);
        case Pingresp => pingSent := false;
      }
    }

    /** The switch over packet types; `callback` says that a user callback runs at the end, with the mutex released. */
    method OnPacket(e: P.Event, mem: Memory) returns (callback: bool)
      requires Core() && Enabled(Abs(), Received(e, mem))
      modifies this, outbox, outbox.nodes
      ensures Core() && Joined(outbox.nodes)
      ensures Abs() == Step(old(Abs()), Received(e, mem))
      ensures callback == CallsBack(NewNotes(old(Abs()), Received(e, mem)))
    {
      hide Queue.Outbox.Valid, Basic, ClientSpec.OnConnack, ClientSpec.AdvanceOutbox, Losses, Response;
      if e.Connack? {
        callback := OnConnack(e.sessionPresent, e.returnCode);
      } else {
        callback := OnOther(e, mem);
      }
    }

    // ---- user calls; each is one step of the machine ----

    method Connect(mem: Memory) returns (result: bool)
      requires Core()
      modifies this`h, this`state, outbox, outbox.nodes
      ensures Core() && Joined(outbox.nodes)
      ensures Abs() == Step(old(Abs()), DoConnect(mem))
      ensures result == (old(state) == Disconnected && mem == Granted)
    {
      hide Queue.Outbox.Valid, ClientSpec.AddPacketFront, Basic, ConfigOk;
      StepBasic(Abs(), DoConnect(mem));
      result := false;
      if state == Disconnected {
        var ok := AddPacketFront(mem);
        if ok {
          result := true;
          state := ConnectingTcp1;
          h := h.(connackSeen := false, wire := [], done := [], notes := h.notes + [ConnectCalled]);
        } else {
          h := h.(notes := h.notes + [OnError(0)]);
        }
      }
    }

    method Disconnect(force: bool) returns (result: bool)
      requires Core()
      modifies this`state
      ensures Core() && Abs() == Step(old(Abs()), DoDisconnect(force))
      ensures result <==> state != old(state)
    {
      hide Queue.Outbox.Valid;
      if force && state != Disconnected && state != DisconnectingTcp1 && state != DisconnectingTcp2 {
        state := DisconnectingTcp1;
        return true;
      }
      if !force && state == Connected {
        state := DisconnectingMqtt1;
        return true;
      }
      return false;
    }

    /** The packet id, 1 for QoS 0, or 0 when nothing was queued. */
    method Publish(topic: seq<byte>, qos: nat, retain: bool, payload: seq<byte>, mem: Memory) returns (id: nat)
      requires Core() && qos <= 2
      modifies this`h, this`packetId, outbox, outbox.nodes
      ensures Core() && Joined(outbox.nodes)
      ensures Abs() == Step(old(Abs()), DoPublish(topic, payload, qos, retain, mem))
      ensures id == if Number(state) > Number(Connected) || mem != Granted then 0 else if qos > 0 then packetId else 1
    {
      hide Queue.Outbox.Valid, PublishBytes, Basic, Step, Apply, Added;
      PublishIs(Abs(), topic, payload, qos, retain, mem);
      if Number(state) > Number(Connected) { return 0; }
      if qos > 0 { id := GetNextPacketId(); } else { id := 1; }
      RequestsNonEmpty(id, topic, payload, qos, retain, [], []);
      var note := if mem != Granted then [OnError(id)] else if qos > 0 then [Accepted(id)] else [];
      Append(PublishBytes(id, topic, payload, qos, retain), if qos > 0 then id else 0, mem, note);
      if mem != Granted { id := 0; }
    }

    method Subscribe(items: seq<SubscribeItem>, mem: Memory) returns (id: nat)
      requires Core()
      modifies this`h, this`packetId, outbox, outbox.nodes
      ensures Core() && Joined(outbox.nodes)
      ensures Abs() == Step(old(Abs()), DoSubscribe(items, mem))
      ensures id == if state == Connected && mem == Granted then packetId else 0
    {
      hide Queue.Outbox.Valid, SubscribeBytes;
      id := 0;
      if state == Connected {
        id := GetNextPacketId();
        RequestsNonEmpty(id, [], [], 0, false, items, []);
        Append(SubscribeBytes(id, items), id, mem, []);
        if mem != Granted { id := 0; }
      }
    }

    method Unsubscribe(topics: seq<seq<byte>>, mem: Memory) returns (id: nat)
      requires Core()
      modifies this`h, this`packetId, outbox, outbox.nodes
      ensures Core() && Joined(outbox.nodes)
      ensures Abs() == Step(old(Abs()), DoUnsubscribe(topics, mem))
      ensures id == if state == Connected && mem == Granted then packetId else 0
    {
      hide Queue.Outbox.Valid, UnsubscribeBytes;
      id := 0;
      if state == Connected {
        id := GetNextPacketId();
        RequestsNonEmpty(id, [], [], 0, false, [], topics);
        Append(UnsubscribeBytes(id, topics), id, mem, []);
        if mem != Granted { id := 0; }
      }
    }

    // what user code does in one call, and in a callback
    method Perform(a: Action)
      requires Core() && ClientSpec.UserCall(a) && Enabled(Abs(), a)
      modifies this, outbox, outbox.nodes
      ensures Core() && Joined(outbox.nodes) && Abs() == Step(old(Abs()), a)
    {
      hide Queue.Outbox.Valid, Basic, ClientSpec.Connect, ClientSpec.Disconnect, PublishCall, ClientSpec.Subscribe, ClientSpec.Unsubscribe,
           ClientSpec.ClearQueue;
      match a {
        case DoConnect(mem) => var ok := Connect(mem);
        case DoDisconnect(force) => var ok := Disconnect(force);
        case DoPublish(topic, payload, qos, retain, mem) => var id := Publish(topic, qos, retain, payload, mem);
        case DoSubscribe(items, mem) => var id := Subscribe(items, mem);
        case DoUnsubscribe(topics, mem) => var id := Unsubscribe(topics, mem);
        case DoClearQueue(deleteSessionData) => ClearQueue(if deleteSessionData then 2 else 0);
      }
    }

    method Callback(calls: seq<Action>)
      requires Core() && Calls(calls)
      modifies this, outbox, outbox.nodes
      ensures Core() && Joined(outbox.nodes)
      ensures EnabledRun(old(Abs()), calls) && Abs() == Run(old(Abs()), calls)
    {
      ghost var c := Abs();
      CallsEnabled(c, calls);
      hide Queue.Outbox.Valid, Basic, Step, Enabled;
      assert calls[0..] == calls;
      for i := 0 to |calls|
        invariant Core() && Joined(outbox.nodes)
        invariant EnabledRun(Abs(), calls[i..]) && Run(Abs(), calls[i..]) == Run(c, calls)
      {
        assert calls[i] in calls && calls[i..][1..] == calls[i + 1..];
        Perform(calls[i]);
      }
    }

    // ---- the receive loop ----

    method Handle(e: P.Event, reply: Reply)
      requires Core() && Enabled(Abs(), Received(e, reply.mem)) && Calls(reply.calls)
      modifies this, outbox, outbox.nodes
      ensures Core() && Joined(outbox.nodes)
      ensures var acts := Handling(old(Abs()), e, reply); EnabledRun(old(Abs()), acts) && Abs() == Run(old(Abs()), acts)
    {
      HandlingRun(Abs(), e, reply);
      hide Queue.Outbox.Valid, Basic, Step, NewNotes, Enabled, Handling, CallsBack;
      var callback := OnPacket(e, reply.mem);
      if callback { Callback(reply.calls); }
    }

    // a parse call, and what it says about the packet
    method ReadPacket(buf: seq<byte>) returns (result: Parser.ParserResult, consumed: nat)
      requires parser.Valid() && Sound(parser.Abs()) && buf != []
      modifies parser, parser.remainingLengthRaw, parser.topic, parser.payloadBuffer
      ensures var p := P.Parse(old(parser.Abs()), buf);
              && consumed == p.consumed && 1 <= consumed <= |buf| && ParserAt(p.state)
              && (result == Parser.ProtocolError <==> p.state == P.Failed)
              && (result == Parser.AwaitData ==> p.event == None && consumed == |buf|)
              && (result == Parser.Packet ==> parser.Buffers() && parser.bytePos <= MAX_TOPIC_LENGTH && p.event == Some(parser.View()))
              && (result != Parser.ProtocolError ==> parser.Valid() && Sound(p.state) && parser.Abs() == p.state)
    {
      ParseSound(parser.Abs(), buf);
      hide Sound, P.Parse, P.WellFormed, WellFormedEvent, Parser.Parser.View;
      result, consumed := parser.Parse(buf);
    }

    // the branch for a complete packet
    method OnReported(e: P.Event, reply: Reply) returns (more: bool)
      requires Core() && Open(Abs()) && Enabled(Abs(), Received(e, reply.mem)) && Calls(reply.calls)
      modifies this, outbox, outbox.nodes
      ensures Core() && Joined(outbox.nodes)
      ensures var acts := Handling(old(Abs()), e, reply);
              EnabledRun(old(Abs()), acts) && Abs() == Run(old(Abs()), acts) && more == GoesOn(old(Abs()), e, Abs())
    {
      hide Queue.Outbox.Valid, Basic, Enabled, Handling, Talking, Run, EnabledRun;
      var connecting := state == ConnectingMqtt;
      Handle(e, reply);
      more := !(connecting && !e.Connack?) && !(e.Connack? && state != Connected);
    }

    method OnGarbled()
      requires Core() && Open(Abs())
      modifies this`state, this`disconnectReason
      ensures Core() && EnabledRun(old(Abs()), [Garbled]) && Abs() == Run(old(Abs()), [Garbled])
    {
      StepBasic(Abs(), Garbled);
      OneEnabled(Abs(), Garbled);
      hide Queue.Outbox.Valid, Basic;
      state := DisconnectingTcp1;
      disconnectReason := TCP_DISCONNECTED;
    }

    /** One turn of the receive loop: one parse call and what it leads to. `more` is false where the loop returns. */
    method ParseOnce(buf: seq<byte>, replies: nat -> Reply, k: nat)
      returns (more: bool, consumed: nat, ghost acts: seq<Action>, ghost t: P.State)
      requires outbox.Valid() && parser.Valid() && Ready(Abs(), parser.Abs(), replies) && buf != []
      modifies this, outbox, outbox.nodes, parser, parser.remainingLengthRaw, parser.topic, parser.payloadBuffer
      ensures Core() && Joined(outbox.nodes) && parser.Buffers()
      ensures more ==> 1 <= consumed <= |buf| && parser.Valid()
                       && Turned(old(Abs()), old(parser.Abs()), buf, replies, k, acts, Abs(), parser.Abs(), consumed)
      ensures !more ==> ParserAt(t) && Stopped(old(Abs()), old(parser.Abs()), buf, replies, k, acts, Abs(), t)
    {
      hide Queue.Outbox.Valid, Basic, Enabled, Handling, Open, GoesOn, Turned, Stopped, P.Parse, P.WellFormed, Sound,
           WellFormedEvent, Run, EnabledRun, Ready, Parser.Parser.Fits, Parser.Parser.Abs, Parser.Parser.View;
      ghost var c := Abs();
      ReadyParts(c, parser.Abs(), replies);
      t := P.Parse(parser.Abs(), buf).state;
      ReceivingTurn(c, parser.Abs(), buf, replies, k);
      var result;
      result, consumed := ReadPacket(buf);
      match result {
        case ProtocolError =>
          OnGarbled();
          more, acts := false, [Garbled];
        case AwaitData =>
          more, acts := true, [];
        case Packet =>
          var e := parser.View();
          acts := Handling(c, e, replies(k));
          more := OnReported(e, replies(k));
      }
    }

    // the receive loop, started in c and s, has handled `done`
    ghost predicate Amid(c: Client, s: P.State, buf: seq<byte>, replies: nat -> Reply, done: seq<Action>, index: nat, k: nat)
      requires Ready(c, s, replies)
      reads this, outbox, outbox.nodes, parser, parser.remainingLengthRaw, parser.topic, parser.payloadBuffer
    {
      outbox.Valid() && parser.Valid() && Ready(Abs(), parser.Abs(), replies) && Midway(c, s, buf, replies, done, Abs(), parser.Abs(), index, k)
    }

    // it has returned, leaving t
    ghost predicate Through(c: Client, s: P.State, buf: seq<byte>, replies: nat -> Reply, done: seq<Action>, t: P.State)
      requires Ready(c, s, replies)
      reads this, outbox, outbox.nodes, parser, parser.remainingLengthRaw, parser.topic, parser.payloadBuffer
    {
      Core() && ParserAt(t) && Stopped(c, s, buf, replies, 0, done, Abs(), t)
    }

    method ParseNext(ghost c: Client, ghost s: P.State, buf: seq<byte>, replies: nat -> Reply, ghost done: seq<Action>, index: nat, k: nat)
      returns (more: bool, consumed: nat, ghost acts: seq<Action>, ghost t: P.State)
      requires Ready(c, s, replies) && index < |buf| && Amid(c, s, buf, replies, done, index, k)
      modifies this, outbox, outbox.nodes, parser, parser.remainingLengthRaw, parser.topic, parser.payloadBuffer
      ensures Joined(outbox.nodes)
      ensures more ==> 1 <= consumed <= |buf| - index && Amid(c, s, buf, replies, acts, index + consumed, k + 1)
      ensures !more ==> Through(c, s, buf, replies, acts, t)
    {
      hide Queue.Outbox.Valid, Ready, Midway, Turned, Stopped, Basic, P.Parse, P.WellFormed, Parser.Parser.Fits, Parser.Parser.Abs;
      ghost var d, r, last := Abs(), parser.Abs(), [];
      more, consumed, last, t := ParseOnce(buf[index..], replies, k);
      acts := done + last;
      if more {
        MidwayOn(c, s, buf, replies, done, d, r, index, k, last, Abs(), parser.Abs(), consumed);
      } else {
        MidwayStops(c, s, buf, replies, done, d, r, index, k, last, Abs(), t);
      }
    }

    lemma AmidStarts(buf: seq<byte>, replies: nat -> Reply)
      requires outbox.Valid() && parser.Valid() && Ready(Abs(), parser.Abs(), replies)
      ensures Amid(Abs(), parser.Abs(), buf, replies, [], 0, 0)
    {
      MidwayStarts(Abs(), parser.Abs(), buf, replies);
    }

    lemma AmidEnds(c: Client, s: P.State, buf: seq<byte>, replies: nat -> Reply, done: seq<Action>, k: nat) returns (t: P.State)
      requires Ready(c, s, replies) && Amid(c, s, buf, replies, done, |buf|, k)
      ensures Through(c, s, buf, replies, done, t)
    {
      t := parser.Abs();
      MidwayEnds(c, s, buf, replies, done, Abs(), parser.Abs(), k);
    }

    /** The receive loop on the bytes of one read; it ends because every parse call consumes at least one byte. */
    method ParseAll(ghost c: Client, ghost s: P.State, buf: seq<byte>, replies: nat -> Reply) returns (ghost acts: seq<Action>, ghost t: P.State)
      requires Ready(c, s, replies) && Amid(c, s, buf, replies, [], 0, 0)
      modifies this, outbox, outbox.nodes, parser, parser.remainingLengthRaw, parser.topic, parser.payloadBuffer
      ensures Joined(outbox.nodes) && Through(c, s, buf, replies, acts, t)
    {
      hide Amid, Through, Queue.Outbox.Valid, Parser.Parser.Valid, Parser.Parser.Abs, Ready, Basic, Midway, Stopped, Sound;
      acts, t := [], s;
      var index, k, more := 0, 0, true;
      while more && index < |buf|
        invariant index <= |buf| && Joined(outbox.nodes)
        invariant if more then Amid(c, s, buf, replies, acts, index, k) else Through(c, s, buf, replies, acts, t)
        decreases |buf| - index, more
      {
        var consumed;
        more, consumed, acts, t := ParseNext(c, s, buf, replies, acts, index, k);
        if more { index, k := index + consumed, k + 1; }
      }
      if more { t := AmidEnds(c, s, buf, replies, acts, k); }
    }

    // the clock of the server's activity, then the receive loop
    method ReadAll(w: World) returns (ghost acts: seq<Action>, ghost t: P.State)
      requires outbox.Valid() && parser.Valid() && Ready(Abs().(lastServerActivity := w.now), parser.Abs(), w.replies)
      modifies this, outbox, outbox.nodes, parser, parser.remainingLengthRaw, parser.topic, parser.payloadBuffer
      ensures Joined(outbox.nodes) && Through(old(Abs()).(lastServerActivity := w.now), old(parser.Abs()), w.chunk, w.replies, acts, t)
    {
      hide Queue.Outbox.Valid, Ready, Through, Amid, Parser.Parser.Fits, Parser.Parser.Abs;
      lastServerActivity := w.now;
      AmidStarts(w.chunk, w.replies);
      acts, t := ParseAll(Abs(), parser.Abs(), w.chunk, w.replies);
    }

    // the transport has delivered something
    method OnRead(w: World)
      requires Fair(w) && w.chunk != [] && outbox.Valid() && parser.Valid() && Ready(Abs(), parser.Abs(), w.replies)
      modifies this, outbox, outbox.nodes, parser, parser.remainingLengthRaw, parser.topic, parser.payloadBuffer
      ensures Core() && Joined(outbox.nodes)
      ensures Ready(old(Abs()), old(parser.Abs()), w.replies)
      ensures var r := Incoming(old(Abs()), old(parser.Abs()), w); Abs() == Run(old(Abs()), r.acts) && ParserAt(r.parser)
    {
      ghost var c, s := Abs(), parser.Abs();
      HeardReady(c, s, w);
      ReadyParts(c, s, w.replies);
      hide Queue.Outbox.Valid, Basic, Open, Sound, Ready, Incoming, Step, Enabled, Stopped, Run, EnabledRun, Talking,
           Parser.Parser.Fits, Parser.Parser.Abs;
      ghost var acts, t := ReadAll(w);
      IncomingIs(c, s, w, acts, Abs(), t);
    }

    /** One read of the transport, parsed and handled packet by packet. */
    method CheckIncoming(w: World)
      requires Fair(w) && Core() && Open(Abs()) && parser.Valid() && Sound(parser.Abs())
      modifies this, outbox, outbox.nodes, parser, parser.remainingLengthRaw, parser.topic, parser.payloadBuffer
      ensures Core() && Joined(outbox.nodes)
      ensures var r := Incoming(old(Abs()), old(parser.Abs()), w); Abs() == Run(old(Abs()), r.acts) && ParserAt(r.parser)
    {
      ghost var c, s := Abs(), parser.Abs();
      assert s != P.Failed;
      assert Ready(c, s, w.replies);
      hide Queue.Outbox.Valid, Basic, Open, Sound, Ready, Incoming, Run, EnabledRun, Talking, Parser.Parser.Abs;
      if w.chunk == [] {
        NothingRead(c, s, w);
      } else {
        OnRead(w);
      }
    }

    // ---- the pass ----

    /** The object has done what r says, starting as c. */
    ghost predicate Did(c: Client, r: Intake)
      reads this, outbox, outbox.nodes, parser, parser.remainingLengthRaw, parser.topic, parser.payloadBuffer
    {
      Core() && EnabledRun(c, r.acts) && Abs() == Run(c, r.acts) && ParserAt(r.parser)
    }

    // the timers at the end of a pass
    method CheckTimers(w: World)
      requires Core() && Talking(Abs())
      modifies this, outbox, outbox.nodes
      ensures Core() && Joined(outbox.nodes)
      ensures Abs() == ClientSpec.CheckTimeout(ClientSpec.CheckPing(old(Abs()), w.now, w.ping), w.now)
    {
      hide Queue.Outbox.Valid, Basic, ClientSpec.CheckPing, ClientSpec.CheckTimeout;
      CheckPing(w.now, w.ping);
      CheckTimeout(w.now);
    }

    // send what there is to send, then read
    method Exchange(w: World, ghost s: P.State)
      requires Core() && Talking(Abs()) && ParserAt(s) && Sound(s) && s != P.Failed && Fair(w)
      modifies this, outbox, outbox.nodes, parser, parser.remainingLengthRaw, parser.topic, parser.payloadBuffer
      ensures Core() && Joined(outbox.nodes)
      ensures var c1 := AfterSending(old(Abs()), w);
              var r := Incoming(c1, s, w);
              Abs() == Run(c1, r.acts) && ParserAt(r.parser)
    {
      hide Queue.Outbox.Valid, Basic, Sound, Incoming, SendLoop, Run, EnabledRun, Parser.Parser.Fits, Parser.Parser.Abs;
      CheckOutbox(w.writes, w.now);
      CheckIncoming(w);
    }

    method TalkingPass(w: World, ghost s: P.State)
      requires Core() && Talking(Abs()) && ParserAt(s) && Sound(s) && s != P.Failed && Fair(w)
      modifies this, outbox, outbox.nodes, parser, parser.remainingLengthRaw, parser.topic, parser.payloadBuffer
      ensures Joined(outbox.nodes) && Did(old(Abs()), ClientLoop.TalkingPass(old(Abs()), s, w))
    {
      hide Queue.Outbox.Valid, Basic, Sound, Incoming, AfterSending, Run, EnabledRun, Talking, ParserAt, Fair, ClientLoop.Fits,
           ClientLoop.TalkingPass, ClientSpec.CheckPing, ClientSpec.CheckTimeout, Step;
      TalkingPassIs(Abs(), s, w);
      Exchange(w, s);
      CheckTimers(w);
    }

    // before CONNACK only the front of the queue is written, and the cursor does not move
    method SendAndRead(w: World, ghost s: P.State)
      requires Core() && state == ConnectingMqtt && ParserAt(s) && Sound(s) && s != P.Failed && Fair(w)
      modifies this, outbox, outbox.nodes, parser, parser.remainingLengthRaw, parser.topic, parser.payloadBuffer
      ensures Core() && Joined(outbox.nodes)
      ensures var c1 := ClientSpec.SendPacket(old(Abs()), w.writes(0), w.now);
              Basic(c1) && c1.state == ConnectingMqtt
              && var r := Incoming(c1, s, w); Abs() == Run(c1, r.acts) && ParserAt(r.parser)
    {
      hide Queue.Outbox.Valid, Basic, Sound, Incoming, Run, EnabledRun, Talking, Parser.Parser.Fits, Parser.Parser.Abs, ClientSpec.SendPacket, Fair;
      SendBasic(Abs(), w.writes(0), w.now);
      var written := SendPacket(w.writes(0), w.now);
      CheckIncoming(w);
    }

    method ConnectingPass(w: World, ghost s: P.State)
      requires Core() && state == ConnectingMqtt && ParserAt(s) && Sound(s) && s != P.Failed && Fair(w)
      modifies this, outbox, outbox.nodes, parser, parser.remainingLengthRaw, parser.topic, parser.payloadBuffer
      ensures Joined(outbox.nodes) && Did(old(Abs()), ClientLoop.ConnectingPass(old(Abs()), s, w))
    {
      hide Queue.Outbox.Valid, Basic, Sound, Incoming, Run, EnabledRun, Talking, ParserAt, Fair, ClientLoop.Fits,
           ClientLoop.ConnectingPass, ClientSpec.CheckPing, ClientSpec.SendPacket, Step;
      ConnectingPassIs(Abs(), s, w);
      SendAndRead(w, s);
      CheckPing(w.now, w.ping);
    }

    // the connection is gone
    method Lost(ghost s: P.State)
      requires Core() && state in {ConnectingTcp2, ConnectingMqtt, Connected, DisconnectingMqtt2} && ParserAt(s)
      modifies this`state, this`disconnectReason
      ensures Did(old(Abs()), Intake([LinkLost], s))
    {
      hide Queue.Outbox.Valid, Run, EnabledRun, ParserAt;
      StepBasic(Abs(), LinkLost);
      OneEnabled(Abs(), LinkLost);
      state := DisconnectingTcp1;
      disconnectReason := TCP_DISCONNECTED;
    }

    method TcpPass(w: World, ghost s: P.State)
      requires Core() && state == ConnectingTcp2 && ParserAt(s) && Sound(s)
      modifies this`state, this`disconnectReason, this`lastClientActivity, this`lastServerActivity, parser
      ensures Did(old(Abs()), ClientLoop.TcpPass(old(Abs()), s, w))
    {
      hide Queue.Outbox.Valid, Basic, Run, EnabledRun, Step, Enabled, Sound, Parser.Parser.Fits, Parser.Parser.Abs, Parser.Parser.Valid;
      ghost var c := Abs();
      if w.connected {
        TcpUpIs(c, w.now);
        parser.Reset();
        lastClientActivity, lastServerActivity := w.now, w.now;
        state := ConnectingMqtt;
      } else if w.disconnected {
        Lost(s);
      } else {
        RunNothing(c);
      }
    }

    // what a session does not keep goes, and the client can connect again
    method Gone()
      requires Core() && state == DisconnectingTcp2
      modifies this`h, this`bytesSent, this`state, outbox, outbox.nodes
      ensures Core() && Joined(outbox.nodes) && Abs() == Step(old(Abs()), TcpGone)
    {
      hide Queue.Outbox.Valid, Basic, ClientSpec.ClearQueue;
      StepBasic(Abs(), TcpGone);
      ClearQueue(0);
      bytesSent := 0;
      state := Disconnected;
      h := h.(wire := [], done := [], notes := h.notes + [OnDisconnect(disconnectReason)]);
    }

    method GonePass(w: World, ghost s: P.State)
      requires Core() && state == DisconnectingTcp2 && ParserAt(s) && Fair(w)
      modifies this, outbox, outbox.nodes
      ensures Joined(outbox.nodes) && Did(old(Abs()), Intake([TcpGone] + w.onDisconnect, s))
    {
      hide Queue.Outbox.Valid, Basic, Calls, Run, EnabledRun, Step, ParserAt;
      Chain(Abs(), TcpGone, w.onDisconnect);
      Gone();
      Callback(w.onDisconnect);
    }

    lemma NoCalls()
      ensures Calls([])
    {
    }

    lemma BareNonEmpty(kind: byte)
      ensures BareBytes(kind) != []
    {
    }

    // DISCONNECT is queued once the outbox is empty
    method SayGoodbye(w: World)
      requires Core() && state == DisconnectingMqtt1 && outbox.items == [] && Fair(w)
      modifies this, outbox, outbox.nodes
      ensures Core() && Joined(outbox.nodes)
      ensures var bye := Bye(w); EnabledRun(old(Abs()), bye) && Abs() == Run(old(Abs()), bye)
    {
      hide Queue.Outbox.Valid, Basic, Run, EnabledRun, Calls, BareBytes;
      ghost var c := Abs();
      NoCalls();
      BareNonEmpty(DISCONNECT);
      Chain(c, Goodbye(w.goodbye.mem), if w.goodbye.mem == Granted then [] else w.goodbye.calls);
      StepBasic(c, Goodbye(w.goodbye.mem));
      if w.goodbye.mem == Granted {
        Append(BareBytes(DISCONNECT), 0, w.goodbye.mem, []);
        state := DisconnectingMqtt2;
        assert Abs() == Step(c, Goodbye(w.goodbye.mem));
        Callback([]);
      } else {
        Append(BareBytes(DISCONNECT), 0, w.goodbye.mem, [OnError(0)]);
        Callback(w.goodbye.calls);
      }
    }

    method ByePass(w: World, ghost s: P.State)
      requires Core() && state == DisconnectingMqtt1 && ParserAt(s) && Sound(s) && s != P.Failed && Fair(w)
      modifies this, outbox, outbox.nodes, parser, parser.remainingLengthRaw, parser.topic, parser.payloadBuffer
      ensures Joined(outbox.nodes) && Did(old(Abs()), Pass(old(Abs()), s, w))
    {
      hide Queue.Outbox.Valid, Basic, Run, EnabledRun, Step, Pass, ClientLoop.TalkingPass, Talking, ParserAt, Fair;
      ByePassIs(Abs(), s, w);
      if outbox.Empty() {
        SayGoodbye(w);
      }
      TalkingPass(w, s);
    }

    lemma StartPassFits(s: P.State)
      requires Fits(Abs(), s)
      ensures Sound(s)
    {
    }

    method StartPass(w: World, ghost s: P.State)
      requires Core() && state == ConnectingTcp1 && ParserAt(s) && Fits(Abs(), s) && Fair(w)
      modifies this`state, this`disconnectReason, this`lastClientActivity, this`lastServerActivity, parser
      ensures Did(old(Abs()), Pass(old(Abs()), s, w))
    {
      hide Queue.Outbox.Valid, Basic, Run, EnabledRun, Step, Enabled, Pass, ClientLoop.TcpPass, Sound, Fits, Fair, ParserAt;
      StartPassFits(s);
      StartPassIs(Abs(), s, w);
      if w.tcpConnect {
        state := ConnectingTcp2;
        TcpPass(w, s);
      } else {
        state := DisconnectingTcp1;
        disconnectReason := TCP_DISCONNECTED;
      }
    }

    method StopPass(ghost s: P.State)
      requires Core() && state == DisconnectingTcp1 && ParserAt(s)
      modifies this`state
      ensures Did(old(Abs()), Intake([TcpStop], s))
    {
      hide Queue.Outbox.Valid, Run, EnabledRun, ParserAt;
      StepBasic(Abs(), TcpStop);
      OneEnabled(Abs(), TcpStop);
      state := DisconnectingTcp2;
    }

    method Turn(w: World, ghost s: P.State)
      requires Core() && ParserAt(s) && Fits(Abs(), s) && Fair(w)
      modifies this, outbox, outbox.nodes, parser, parser.remainingLengthRaw, parser.topic, parser.payloadBuffer
      ensures Joined(outbox.nodes) && Did(old(Abs()), Pass(old(Abs()), s, w))
    {
      hide Queue.Outbox.Valid, Basic, Run, EnabledRun, Step, Pass, ClientLoop.TalkingPass, ClientLoop.ConnectingPass, ClientLoop.TcpPass, Sound,
           ParserAt, Talking, Fair;
      PassIs(Abs(), s, w);
      match state {
        case Disconnected =>
        case ConnectingTcp1 => StartPass(w, s);
        case ConnectingTcp2 => TcpPass(w, s);
        case ConnectingMqtt => if w.connected { ConnectingPass(w, s); } else { Lost(s); }
        case Connected => if w.connected { TalkingPass(w, s); } else { Lost(s); }
        case DisconnectingMqtt2 => if w.connected { TalkingPass(w, s); } else { Lost(s); }
        case DisconnectingMqtt1 => ByePass(w, s);
        case DisconnectingTcp1 => StopPass(s);
        case DisconnectingTcp2 => if w.disconnected { GonePass(w, s); }
      }
    }

    // ---- the object from outside ----

    /** One call of loop(): the run goes on with exactly the actions of a pass. */
    method Loop(w: World)
      requires Valid() && Fair(w)
      modifies this, outbox, outbox.nodes, parser, parser.remainingLengthRaw, parser.topic, parser.payloadBuffer
      ensures Valid() && Joined(outbox.nodes)
      ensures var r := Pass(old(Abs()), old(at), w);
              trace == old(trace) + r.acts && at == r.parser && Abs() == Run(old(Abs()), r.acts)
    {
      hide Queue.Outbox.Valid, Joined, ParserAt, Init, Fair, Basic, Run, EnabledRun, Step, Pass, Fits;
      ghost var run, s, r := trace, at, Pass(Abs(), at, w);
      Turn(w, s);
      RunAppend(Init(config), run, r.acts);
      trace, at := run + r.acts, r.parser;
    }

    lemma CallExtends(start: Client, run: seq<Action>, a: Action, s: P.State)
      requires EnabledRun(start, run) && Basic(Run(start, run)) && Fits(Run(start, run), s)
      requires ClientSpec.UserCall(a) && Enabled(Run(start, run), a)
      ensures EnabledRun(start, run + [a]) && Run(start, run + [a]) == Step(Run(start, run), a) && Fits(Step(Run(start, run), a), s)
    {
      CallFits(Run(start, run), a, s);
      OneEnabled(Run(start, run), a);
      hide Step, Enabled, Fits, Basic;
      RunAppend(start, run, [a]);
    }

    /** One user call between passes. */
    method Call(a: Action)
      requires Valid() && ClientSpec.UserCall(a) && Enabled(Abs(), a)
      modifies this, outbox, outbox.nodes
      ensures Valid() && Joined(outbox.nodes)
      ensures trace == old(trace) + [a] && Abs() == Step(old(Abs()), a)
    {
      ghost var run, s := trace, at;
      hide Queue.Outbox.Valid, Joined, ParserAt, Init, ClientSpec.UserCall, Basic, Run, EnabledRun, Step, Enabled, Fits;
      CallExtends(Init(config), run, a, s);
      Perform(a);
      trace, at := run + [a], s;
    }

    /**
      What every object has kept, whatever was called on it: the ledgers balance, the packets are in order, and a
      packet that counts as whole has been on the wire.
     */
    lemma Guarantees(id: nat, p: Item)
      requires Valid()
      ensures ClientLedger.Balanced(Abs(), ClientLedger.Outgoing(id)) && ClientLedger.Balanced(Abs(), ClientLedger.Incoming(id))
      ensures ClientOrder.Ordered(Abs()) && ClientQos2.DecisionsOk(h.notes)
      ensures p in outbox.items && p.whole ==> ClientTrace.OnWire(Init(config), trace, p)
    {
      var c := Init(config);
      assert ClientOrder.Ordered(c) && Basic(c) && ClientQos2.DecisionsOk(c.h.notes) && ClientTrace.Traced(c);
      ClientOrder.SendOrder(c, trace);
      ClientLedger.RunBalanced(c, trace, ClientLedger.Outgoing(id));
      ClientLedger.RunBalanced(c, trace, ClientLedger.Incoming(id));
      ClientQos2.RunDecisions(c, trace);
      if p in outbox.items && p.whole { ClientTrace.WholeWasWritten(c, trace, p); }
    }

    /**
      And what it says to the server: each queued packet was made by something it did, and says what that was about;
      every QoS 1 message it received has its PUBACK; CONNECT is there and is sent at most once.
     */
    lemma PacketGuarantees(id: nat, p: Item)
      requires Valid()
      ensures p in outbox.items ==> exists k :: 0 <= k < |trace| && ClientPackets.Spells(config, trace[k], p)
      ensures id < 65536 ==>
        var b := ClientPubacks.Booked(Init(config), trace, id);
        b.owed == b.written + ClientPubacks.Times(outbox.items, ClientPubacks.Puback(id)) + b.dropped + b.refused
      ensures ClientClearing.OneConnect(Abs())
      ensures ClientClock.Dated(Abs(), ClientClock.Writes(Init(config), trace))
    {
      hide ClientPackets.Spells, ClientPubacks.Booked, ClientPubacks.Times, ClientClearing.OneConnect, ClientClock.Dated, ClientClock.Writes;
      if p in outbox.items { ClientPackets.PacketsSpell(config, trace, p); }
      if id < 65536 { ClientPubacks.EveryMessageAnswered(config, trace, id); }
      ClientClearing.ConnectOnce(config, trace);
      ClientClock.DatesInRun(config, trace);
    }

    /** What it has kept on the conditions of the theorems: no packet torn, no queue cleared by the user, one CONNACK per connection. */
    lemma ConditionalGuarantees()
      requires Valid()
      ensures ClientFraming.Untorn(Init(config), trace) ==> ClientFraming.Framed(Abs())
      ensures (forall a :: a in trace ==> !a.DoClearQueue?) ==> ClientFraming.Gated(Abs())
      ensures ClientDup.Unmisled(Init(config), trace) ==> ClientDup.DupExact(Abs())
      ensures ClientFraming.Untorn(Init(config), trace) && (forall a :: a in trace ==> !a.DoClearQueue?) ==> ClientDup.DupExact(Abs())
      ensures ClientLifecycle.OneConnackEach(Init(config), trace) ==>
        ClientLifecycle.PhaseAfter(ClientLifecycle.Idle, h.notes) != ClientLifecycle.Broken
    {
      var c := Init(config);
      assert Basic(c) && ClientFraming.Framed(c) && ClientFraming.Gated(c) && ClientDup.DupExact(c) && ClientLifecycle.InStep(c);
      assert ClientTrace.Traced(c) && ClientTrace.Own(c);
      hide ClientFraming.Framed, ClientFraming.Gated, ClientDup.DupExact, ClientLifecycle.InStep, ClientTrace.Traced, ClientTrace.Own, Basic, Init;
      ClientDup.DupInRuns(c, trace);
      if ClientFraming.Untorn(c, trace) { ClientFraming.RunFramed(c, trace); }
      if forall a :: a in trace ==> !a.DoClearQueue? {
        ClientFraming.ConnackGate(c, trace);
        if ClientFraming.Untorn(c, trace) { ClientDup.DupUntilCleared(c, trace); }
      }
      if ClientLifecycle.OneConnackEach(c, trace) { ClientLifecycle.Lifecycle(c, trace); }
    }
  }
}
