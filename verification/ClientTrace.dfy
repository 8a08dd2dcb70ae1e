/**
  Which packet the written bytes belong to. An acknowledgement may take the current packet away half written, and
  its successor then inherits the count of bytes sent; `started` tells the two apart, and a packet is `whole` only
  when all its bytes, from the first on, have been on the wire one after the other.
 */
module ClientTrace {
  import opened Bytes
  import opened Constants
  import opened Options
  import opened PacketSpec
  import opened Outbox
  import opened ClientSpec
  import opened ClientRuns
  import opened ClientFraming
  import opened ClientOrder
  import P = ParserSpec

  predicate EndsWith(wire: seq<byte>, s: seq<byte>) {
    |s| <= |wire| && wire[|wire| - |s|..] == s
  }

  // a packet whose first byte was written last is the current one, and the wire ends with what is written of it
  predicate Located(c: Client, i: nat)
    requires i < |c.queue|
  {
    var p := c.queue[i];
    && p.serial < c.h.serials
    && (c.bytesSent > 0 && p.serial == c.h.started ==>
          && i == c.cursor && c.bytesSent <= |p.bytes| && EndsWith(c.h.wire, p.bytes[..c.bytesSent])
          && (c.bytesSent == |p.bytes| ==> p.whole))
  }

  predicate Apart(c: Client, i: nat, j: nat)
    requires i < j < |c.queue|
  {
    c.queue[i].serial != c.queue[j].serial
  }

  /** No two packets share a serial, and `started` knows whose bytes `bytesSent` counts. */
  predicate Traced(c: Client) {
    && c.cursor <= |c.queue| && (c.bytesSent > 0 ==> c.h.started < c.h.serials)
    && (forall i :: 0 <= i < |c.queue| ==> Located(c, i))
    && (forall i, j :: 0 <= i < j < |c.queue| ==> Apart(c, i, j))
  }

  // ---- primitives ----

  lemma ThinnedTraced(c: Client, d: Client, from: seq<nat>)
    requires Traced(c) && Thinned(c, d, from)
    requires d.bytesSent == 0 || (d.bytesSent == c.bytesSent && d.h.wire == c.h.wire && d.h.started == c.h.started)
    ensures Traced(d)
  {
    forall i | 0 <= i < |d.queue| ensures Located(d, i) {
      assert Located(c, from[i]);
      assert d.cursor < i ==> from[d.cursor] < from[i];
    }
    forall i, j | 0 <= i < j < |d.queue| ensures Apart(d, i, j) { assert Apart(c, from[i], from[j]); }
  }

  lemma SameTrace(c: Client, d: Client)
    requires Traced(c) && d.queue == c.queue && d.cursor <= |d.queue| && d.h.serials == c.h.serials
    requires d.bytesSent == 0 || (d.cursor == c.cursor && d.bytesSent == c.bytesSent && d.h.wire == c.h.wire && d.h.started == c.h.started)
    ensures Traced(d)
  {
    forall i | 0 <= i < |d.queue| ensures Located(d, i) { assert Located(c, i); }
    forall i, j | 0 <= i < j < |d.queue| ensures Apart(d, i, j) { assert Apart(c, i, j); }
  }

  lemma AppendTraced(c: Client, add: Option<New>)
    requires Traced(c)
    ensures Traced(AppendNew(c, add))
  {
    var d := AppendNew(c, add);
    forall i | 0 <= i < |d.queue| ensures Located(d, i) {
      if i < |c.queue| { assert Located(c, i); }
    }
    forall i, j | 0 <= i < j < |d.queue| ensures Apart(d, i, j) {
      assert Located(c, i);
      if j < |c.queue| { assert Apart(c, i, j); }
    }
  }

  lemma ApplyTraced(c: Client, e: Edit)
    requires Traced(c) && (e.remove.Some? ==> e.remove.value < |c.queue|)
    ensures Traced(Apply(c, e))
  {
    hide Traced, AppendNew, Increasing;
    AppendTraced(c, e.add);
    var c1 := AppendNew(c, e.add);
    assert c1.cursor <= |c1.queue| by { TracedCursor(c1); }
    if e.remove.Some? {
      GapThins(c1, e.remove.value);
      ThinnedTraced(c1, RemoveAt(c1, e.remove.value), Gap(|c1.queue|, e.remove.value));
      TracedCursor(RemoveAt(c1, e.remove.value));
      SameTrace(RemoveAt(c1, e.remove.value), Apply(c, e));
    } else {
      SameTrace(c1, Apply(c, e));
    }
  }

  lemma TracedCursor(c: Client)
    requires Traced(c)
    ensures c.cursor <= |c.queue|
  {
  }

  lemma GapThins(c: Client, i: nat)
    requires c.cursor <= |c.queue| && i < |c.queue|
    ensures Thinned(c, RemoveAt(c, i), Gap(|c.queue|, i))
  {
  }

  lemma ClearThins(c: Client, level: nat)
    requires c.cursor <= |c.queue|
    ensures Thinned(c, ClearQueue(c, level), Survivors(c.queue, level, 0))
  {
    KeptPositions(c.queue, level, 0);
    KeptBefore(c.queue, level, 0, c.cursor);
  }

  lemma UpdateTraced(c: Client, d: Client, k: nat, p: Item)
    requires Traced(c) && k < |c.queue| && d.queue == c.queue[k := p] && p.serial == c.queue[k].serial
    requires d.cursor <= |d.queue| && d.bytesSent == 0 && d.h.serials == c.h.serials
    ensures Traced(d)
  {
    forall i | 0 <= i < |d.queue| ensures Located(d, i) { assert Located(c, i); }
    forall i, j | 0 <= i < j < |d.queue| ensures Apart(d, i, j) { assert Apart(c, i, j); }
  }

  /** A write keeps the trace, and makes the current packet whole only when the wire then ends with all of it. */
  lemma SendTraced(c: Client, w: nat, now: nat)
    requires Traced(c)
    ensures var d := SendPacket(c, w, now);
            && Traced(d) && |d.queue| == |c.queue| && d.cursor == c.cursor
            && (c.cursor < |c.queue| && d.queue[c.cursor].whole && !c.queue[c.cursor].whole ==> EndsWith(d.h.wire, c.queue[c.cursor].bytes))
  {
    var d := SendPacket(c, w, now);
    if Available(c) > 0 {
      forall i | 0 <= i < |d.queue| ensures Located(d, i) {
        if i == c.cursor { SentHere(c, w, now); } else { SentElsewhere(c, w, now, i); }
      }
      SentHere(c, w, now);
      SentApart(c, w, now);
    }
  }

  // the packet that is written to
  lemma SentHere(c: Client, w: nat, now: nat)
    requires Traced(c) && Available(c) > 0
    ensures var d := SendPacket(c, w, now);
            Located(d, c.cursor) && (d.queue[c.cursor].whole && !c.queue[c.cursor].whole ==> EndsWith(d.h.wire, c.queue[c.cursor].bytes))
  {
    hide Apart;
    var k, p, n := c.cursor, c.queue[c.cursor], Min(w, Available(c));
    assert Located(c, k);
    Extends(c.h.wire, p.bytes, c.bytesSent, n);
    assert p.bytes[..|p.bytes|] == p.bytes;
  }

  // the end of the wire grows with what is written
  lemma Extends(wire: seq<byte>, s: seq<byte>, at: nat, n: nat)
    requires at + n <= |s|
    ensures EndsWith(wire, s[..at]) ==> EndsWith(wire + s[at..at + n], s[..at + n])
    ensures at == 0 ==> EndsWith(wire + s[at..at + n], s[..at + n])
  {
    var grown, t := wire + s[at..at + n], s[..at + n];
    assert s[..at] + s[at..at + n] == t;
    if EndsWith(wire, s[..at]) { assert grown[|grown| - |t|..] == wire[|wire| - at..] + s[at..at + n]; }
  }

  lemma SentElsewhere(c: Client, w: nat, now: nat, i: nat)
    requires Traced(c) && Available(c) > 0 && i < |c.queue| && i != c.cursor
    ensures Located(SendPacket(c, w, now), i)
  {
    hide EndsWith;
    assert Located(c, i);
    if i < c.cursor { assert Apart(c, i, c.cursor); } else { assert Apart(c, c.cursor, i); }
  }

  lemma SentApart(c: Client, w: nat, now: nat)
    requires Traced(c) && Available(c) > 0
    ensures var d := SendPacket(c, w, now);
            d.h.serials == c.h.serials && (d.bytesSent > 0 ==> d.h.started < d.h.serials)
            && forall i, j :: 0 <= i < j < |d.queue| ==> Apart(d, i, j)
  {
    hide EndsWith;
    var d := SendPacket(c, w, now);
    assert Located(c, c.cursor);
    forall i, j | 0 <= i < j < |d.queue| ensures Apart(d, i, j) { assert Apart(c, i, j); }
  }

  lemma AdvanceTraced(c: Client)
    requires Traced(c)
    ensures Traced(AdvanceOutbox(c))
  {
    TracedCursor(c);
    hide Traced, Removable, SetDup, TypeOf, Increasing;
    var d := AdvanceOutbox(c);
    if c.cursor < |c.queue| && c.bytesSent == |c.queue[c.cursor].bytes| {
      var p := c.queue[c.cursor];
      if Removable(p) {
        GapThins(c, c.cursor);
        SameTrace(c, c.(h := d.h, bytesSent := 0));
        ThinnedTraced(c.(h := d.h, bytesSent := 0), d, Gap(|c.queue|, c.cursor));
      } else {
        UpdateTraced(c, d, c.cursor, SetDup(p));
      }
    }
  }

  lemma ClearTraced(c: Client, level: nat)
    requires Traced(c)
    ensures Traced(ClearQueue(c, level))
  {
    TracedCursor(c);
    ClearThins(c, level);
    ThinnedTraced(c, ClearQueue(c, level), Survivors(c.queue, level, 0));
  }

  lemma FrontTraced(c: Client, mem: Memory)
    requires Traced(c) && c.bytesSent == 0
    ensures Traced(AddPacketFront(c, c.config.connectBytes, mem))
  {
    var d := AddPacketFront(c, c.config.connectBytes, mem);
    if mem == Granted {
      forall i | 0 <= i < |d.queue| ensures Located(d, i) { if i > 0 { assert Located(c, i - 1); } }
      forall i, j | 0 <= i < j < |d.queue| ensures Apart(d, i, j) {
        assert Located(c, j - 1) && d.queue[j] == c.queue[j - 1];
        if i > 0 { assert Apart(c, i - 1, j - 1) && d.queue[i] == c.queue[i - 1]; }
      }
    } else {
      SameTrace(c, d);
    }
  }

  lemma ConnackTraced(c: Client, sessionPresent: byte, returnCode: byte)
    requires Traced(c)
    ensures c.cursor <= |c.queue| && Traced(OnConnack(c, sessionPresent, returnCode))
  {
    TracedCursor(c);
    hide Traced, ClearQueue, AdvanceOutbox;
    var d := OnConnack(c, sessionPresent, returnCode);
    TracedCursorOf(d, c, sessionPresent, returnCode);
    if returnCode == 0 {
      var c0 := c.(pingSent := false, state := Connected, h := c.h.(connackSeen := true));
      SameTrace(c, c0);
      AdvanceTraced(c0);
      var c1 := AdvanceOutbox(c0);
      TracedCursor(c1);
      if sessionPresent == 0 {
        ClearTraced(c1, 1);
        SameTrace(ClearQueue(c1, 1), d);
      } else {
        SameTrace(c1, d);
      }
    } else {
      SameTrace(c, d);
    }
  }

  lemma TracedCursorOf(d: Client, c: Client, sessionPresent: byte, returnCode: byte)
    requires c.cursor <= |c.queue| && d == OnConnack(c, sessionPresent, returnCode)
    ensures d.cursor <= |d.queue|
  {
    var c1 := AdvanceOutbox(c.(pingSent := false, state := Connected, h := c.h.(connackSeen := true)));
    KeptSplit(c1.queue, c1.cursor, 1);
  }

  // ---- steps and runs ----

  lemma StepTraced(c: Client, a: Action)
    requires Basic(c) && Enabled(c, a) && Traced(c)
    ensures Traced(Step(c, a))
  {
    StepBasic(c, a);
    hide Traced, ClearQueue, AdvanceOutbox, SendPacket, OnConnack, AddPacketFront, Apply;
    if Plain(a) {
      PlainStep(c, a);
      ApplyTraced(c, EditFor(c, a));
      SameTrace(Apply(c, EditFor(c, a)), Step(c, a));
    } else {
      match a {
        case DoConnect(mem) =>
          if c.state == Disconnected {
            FrontTraced(c, mem);
            SameTrace(AddPacketFront(c, c.config.connectBytes, mem), Step(c, a));
          }
        case DoClearQueue(all) => ClearTraced(c, if all then 2 else 0);
        case TcpGone =>
          ClearTraced(c, 0);
          SameTrace(ClearQueue(c, 0), Step(c, a));
        case SendOnly(w, now) => SendTraced(c, w, now);
        case SendAndAdvance(w, now) =>
          SendTraced(c, w, now);
          AdvanceTraced(SendPacket(c, w, now));
        case Received(e, _) => ConnackTraced(c, e.sessionPresent, e.returnCode);
        case Timeout(now) => SameTrace(c, Step(c, a));
      }
    }
  }

  /** In every run: whoever took the current packet away, the bytes sent are booked on the packet they belong to. */
  lemma {:induction false} TracedInRuns(c: Client, acts: seq<Action>)
    requires EnabledRun(c, acts) && Basic(c) && Traced(c)
    ensures Traced(Run(c, acts))
    decreases |acts|
  {
    hide Step, Enabled, Traced, Basic;
    if acts != [] {
      StepTraced(c, acts[0]);
      StepBasic(c, acts[0]);
      TracedInRuns(Step(c, acts[0]), acts[1..]);
    }
  }

  // ---- what it means for a packet to be whole ----

  // the same packet, the retransmission flag apart
  predicate SameButDup(a: seq<byte>, b: seq<byte>) {
    a == b || (a != [] && b == a[0 := WithDup(a[0])])
  }

  // the packet was whole before
  predicate WasWhole(q: seq<Item>, p: Item) {
    exists j :: 0 <= j < |q| && MadeOf(q[j], p)
  }

  predicate MadeOf(o: Item, p: Item) {
    o.whole && o.serial == p.serial && SameButDup(o.bytes, p.bytes)
  }

  predicate NoneNew(q: seq<Item>, r: seq<Item>) {
    forall p :: p in r && p.whole ==> WasWhole(q, p)
  }

  lemma FromBefore(q: seq<Item>, r: seq<Item>)
    requires forall p :: p in r && p.whole ==> p in q
    ensures NoneNew(q, r)
  {
    forall p | p in r && p.whole ensures WasWhole(q, p) {
      var j :| 0 <= j < |q| && q[j] == p;
      assert MadeOf(q[j], p);
    }
  }

  lemma ApplyWhole(c: Client, e: Edit)
    requires e.remove.Some? ==> e.remove.value < |c.queue|
    ensures NoneNew(c.queue, Apply(c, e).queue)
  {
    FromBefore(c.queue, Apply(c, e).queue);
  }

  lemma ClearWhole(c: Client, level: nat)
    requires c.cursor <= |c.queue|
    ensures NoneNew(c.queue, ClearQueue(c, level).queue)
  {
    KeptFrom(c.queue, level);
    FromBefore(c.queue, ClearQueue(c, level).queue);
  }

  lemma AdvanceWhole(c: Client)
    ensures NoneNew(c.queue, AdvanceOutbox(c).queue)
  {
    var d := AdvanceOutbox(c);
    if c.cursor < |c.queue| && c.bytesSent == |c.queue[c.cursor].bytes| && !Removable(c.queue[c.cursor]) {
      var o := c.queue[c.cursor];
      assert SameButDup(o.bytes, SetDup(o).bytes);
      forall p | p in d.queue && p.whole ensures WasWhole(c.queue, p) {
        var i :| 0 <= i < |d.queue| && d.queue[i] == p;
        assert MadeOf(c.queue[i], p);
      }
    } else {
      FromBefore(c.queue, d.queue);
    }
  }

  // setting the flag twice is setting it once
  lemma DupTwice(a: seq<byte>, b: seq<byte>, c: seq<byte>)
    requires SameButDup(a, b) && SameButDup(b, c)
    ensures SameButDup(a, c)
  {
  }

  lemma WasWholeBefore(q: seq<Item>, r: seq<Item>, p: Item)
    requires NoneNew(q, r) && WasWhole(r, p)
    ensures WasWhole(q, p)
  {
    var j :| 0 <= j < |r| && MadeOf(r[j], p);
    assert r[j] in r && WasWhole(q, r[j]);
    var k :| 0 <= k < |q| && MadeOf(q[k], r[j]);
    DupTwice(q[k].bytes, r[j].bytes, p.bytes);
    assert MadeOf(q[k], p);
  }

  // the write of this step was the last of all its bytes
  predicate JustWritten(c: Client, p: Item, wire: seq<byte>) {
    c.cursor < |c.queue| && p.serial == c.queue[c.cursor].serial && SameButDup(c.queue[c.cursor].bytes, p.bytes)
    && EndsWith(wire, c.queue[c.cursor].bytes)
  }

  predicate WholeOrWritten(c: Client, d: Client) {
    forall p :: p in d.queue && p.whole ==> WasWhole(c.queue, p) || JustWritten(c, p, d.h.wire)
  }

  lemma SendWhole(c: Client, w: nat, now: nat)
    requires Traced(c)
    ensures WholeOrWritten(c, SendPacket(c, w, now))
  {
    SendTraced(c, w, now);
    hide Traced;
    var d := SendPacket(c, w, now);
    forall p | p in d.queue && p.whole ensures WasWhole(c.queue, p) || JustWritten(c, p, d.h.wire) {
      var i :| 0 <= i < |d.queue| && d.queue[i] == p;
      if c.queue[i].whole { assert MadeOf(c.queue[i], p); }
    }
  }

  lemma PumpWhole(c: Client, w: nat, now: nat)
    requires Traced(c)
    ensures WholeOrWritten(c, Pump(c, w, now))
  {
    SendWhole(c, w, now);
    var s, d := SendPacket(c, w, now), Pump(c, w, now);
    AdvanceWhole(s);
    hide SendPacket, AdvanceOutbox, Traced, SameButDup;
    assert d == s || (d == AdvanceOutbox(s) && d.h.wire == s.h.wire) by { AdvanceKeepsWire(s); }
    if d != s {
      forall p | p in d.queue && p.whole ensures WasWhole(c.queue, p) || JustWritten(c, p, d.h.wire) {
        var j :| 0 <= j < |s.queue| && MadeOf(s.queue[j], p);
        var o := s.queue[j];
        assert o in s.queue;
        if WasWhole(c.queue, o) {
          var k :| 0 <= k < |c.queue| && MadeOf(c.queue[k], o);
          DupTwice(c.queue[k].bytes, o.bytes, p.bytes);
          assert MadeOf(c.queue[k], p);
        } else {
          DupTwice(c.queue[c.cursor].bytes, o.bytes, p.bytes);
        }
      }
    }
  }

  lemma AdvanceKeepsWire(c: Client)
    ensures AdvanceOutbox(c).h.wire == c.h.wire
  {
  }

  lemma ConnackWhole(c: Client, sessionPresent: byte, returnCode: byte)
    requires c.cursor <= |c.queue|
    ensures NoneNew(c.queue, OnConnack(c, sessionPresent, returnCode).queue)
  {
    hide NoneNew;
    var c0 := c.(pingSent := false, state := Connected, h := c.h.(connackSeen := true));
    var c1 := AdvanceOutbox(c0);
    AdvanceWhole(c0);
    FromBefore(c.queue, c.queue);
    if returnCode == 0 && sessionPresent == 0 {
      hide AdvanceOutbox, ClearQueue;
      assert c1.cursor <= |c1.queue| by { AdvanceCursor(c0); }
      ClearWhole(c1, 1);
      NoneNewTwice(c.queue, c1.queue, ClearQueue(c1, 1).queue);
    }
  }

  lemma AdvanceCursor(c: Client)
    requires c.cursor <= |c.queue|
    ensures AdvanceOutbox(c).cursor <= |AdvanceOutbox(c).queue|
  {
  }

  lemma NoneNewTwice(q: seq<Item>, r: seq<Item>, s: seq<Item>)
    requires NoneNew(q, r) && NoneNew(r, s)
    ensures NoneNew(q, s)
  {
    forall p | p in s && p.whole ensures WasWhole(q, p) { WasWholeBefore(q, r, p); }
  }

  /** A step makes a packet whole only by writing the last of its bytes, and the wire then ends with all of them. */
  lemma StepWhole(c: Client, a: Action)
    requires Basic(c) && Enabled(c, a) && Traced(c)
    ensures WholeOrWritten(c, Step(c, a))
  {
    hide Traced, ClearQueue, AdvanceOutbox, SendPacket, OnConnack, Apply, WasWhole, JustWritten, Pump;
    FromBefore(c.queue, c.queue);
    if Plain(a) {
      PlainStep(c, a);
      ApplyWhole(c, EditFor(c, a));
    } else {
      match a {
        case DoConnect(mem) => FromBefore(c.queue, Step(c, a).queue);
        case DoClearQueue(all) => ClearWhole(c, if all then 2 else 0);
        case TcpGone => ClearWhole(c, 0);
        case SendOnly(w, now) => SendWhole(c, w, now);
        case SendAndAdvance(w, now) => PumpWhole(c, w, now);
        case Received(e, _) => ConnackWhole(c, e.sessionPresent, e.returnCode);
        case Timeout(now) =>
      }
    }
  }

  // n steps into the run the wire ended with the packet
  ghost predicate OnWireAt(c: Client, acts: seq<Action>, n: nat, p: Item) {
    n <= |acts| && EnabledRun(c, acts[..n]) && exists b :: SameButDup(b, p.bytes) && EndsWith(Run(c, acts[..n]).h.wire, b)
  }

  ghost predicate OnWire(c: Client, acts: seq<Action>, p: Item) {
    exists n :: 0 <= n <= |acts| && OnWireAt(c, acts, n, p)
  }

  lemma OnWireLater(c: Client, acts: seq<Action>, p: Item)
    requires EnabledRun(c, acts) && acts != [] && OnWire(Step(c, acts[0]), acts[1..], p)
    ensures OnWire(c, acts, p)
  {
    hide Step, Enabled, SameButDup, EndsWith;
    var d := Step(c, acts[0]);
    var n :| 0 <= n <= |acts| - 1 && OnWireAt(d, acts[1..], n, p);
    assert acts[..n + 1][0] == acts[0] && acts[..n + 1][1..] == acts[1..][..n];
    assert OnWireAt(c, acts, n + 1, p);
  }

  lemma OnWireNow(c: Client, acts: seq<Action>, o: Item, p: Item)
    requires EnabledRun(c, acts) && acts != [] && JustWritten(c, o, Step(c, acts[0]).h.wire) && SameButDup(o.bytes, p.bytes)
    ensures OnWire(c, acts, p)
  {
    hide Step, Enabled, EndsWith;
    assert acts[..1][0] == acts[0] && acts[..1][1..] == [];
    var d := Step(c, acts[0]);
    assert EnabledRun(d, acts[..1][1..]) && Run(d, acts[..1][1..]) == d;
    assert EnabledRun(c, acts[..1]) && Run(c, acts[..1]) == d;
    DupTwice(c.queue[c.cursor].bytes, o.bytes, p.bytes);
    assert OnWireAt(c, acts, 1, p);
  }

  /**
    A packet that counts as whole has been on the wire, all its bytes one after the other, at some point of the
    run; the retransmission flag may have been set since.
   */
  lemma {:induction false} WholeWasWritten(c: Client, acts: seq<Action>, p: Item)
    requires EnabledRun(c, acts) && Basic(c) && Traced(c) && p in Run(c, acts).queue && p.whole
    ensures OnWire(c, acts, p) || WasWhole(c.queue, p)
    decreases |acts|
  {
    hide Step, Enabled, Traced, Basic, OnWire, JustWritten, SameButDup;
    if acts == [] {
      FromBefore(c.queue, c.queue);
    } else {
      var d := Step(c, acts[0]);
      StepTraced(c, acts[0]);
      StepWhole(c, acts[0]);
      StepBasic(c, acts[0]);
      WholeWasWritten(d, acts[1..], p);
      if OnWire(d, acts[1..], p) {
        OnWireLater(c, acts, p);
      } else {
        var j :| 0 <= j < |d.queue| && MadeOf(d.queue[j], p);
        assert d.queue[j] in d.queue;
        if WasWhole(c.queue, d.queue[j]) {
          var k :| 0 <= k < |c.queue| && MadeOf(c.queue[k], d.queue[j]);
          DupTwice(c.queue[k].bytes, d.queue[j].bytes, p.bytes);
          assert MadeOf(c.queue[k], p);
        } else {
          OnWireNow(c, acts, d.queue[j], p);
        }
      }
    }
  }

  // ---- without a torn packet ----

  /** The bytes sent are always those of the current packet. */
  predicate Own(c: Client) {
    c.bytesSent > 0 ==> c.cursor < |c.queue| && c.h.started == c.queue[c.cursor].serial
  }

  lemma ApplyOwn(c: Client, e: Edit)
    requires Own(c) && c.cursor <= |c.queue| && (e.remove.Some? ==> e.remove.value < |c.queue|)
    requires !(c.bytesSent > 0 && e.remove == Some(c.cursor))
    ensures Own(Apply(c, e))
  {
    var c1 := AppendNew(c, e.add);
    if e.remove.Some? { CursorNeighbours(c1.queue, e.remove.value, c1.cursor); }
  }

  lemma ClearOwn(c: Client, level: nat)
    requires Own(c) && c.cursor <= |c.queue| && !TornBy(c, level)
    ensures Own(ClearQueue(c, level))
  {
    if c.bytesSent > 0 { KeptAt(c.queue, c.cursor, level); }
  }

  lemma ConnackOwn(c: Client, a: Action)
    requires Basic(c) && Enabled(c, a) && Own(c) && a.Received? && a.e.Connack? && !Tears(c, a)
    ensures Own(Step(c, a))
  {
    hide ClearQueue;
    if a.e.returnCode == 0 {
      var c0 := c.(pingSent := false, state := Connected, h := c.h.(connackSeen := true));
      AdvanceOwn(c0);
      AdvanceCursor(c0);
      hide AdvanceOutbox;
      if a.e.sessionPresent == 0 { ClearOwn(AdvanceOutbox(c0), 1); }
    }
  }

  lemma AdvanceOwn(c: Client)
    requires Own(c)
    ensures Own(AdvanceOutbox(c))
  {
  }

  lemma StepOwn(c: Client, a: Action)
    requires Basic(c) && Enabled(c, a) && Own(c) && !Tears(c, a)
    ensures Own(Step(c, a))
  {
    hide ClearQueue, AdvanceOutbox, Apply;
    if Plain(a) {
      PlainStep(c, a);
      ApplyOwn(c, EditFor(c, a));
    } else if a.Received? {
      ConnackOwn(c, a);
    } else {
      match a {
        case DoClearQueue(all) => ClearOwn(c, if all then 2 else 0);
        case SendAndAdvance(w, now) => AdvanceOwn(SendPacket(c, w, now));
        case _ =>
      }
    }
  }
}
