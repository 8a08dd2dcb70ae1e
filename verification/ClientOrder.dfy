/**
  Cursor and order: what lies before the cursor waits for an acknowledgement, and packets are sent in the order
  they were created, also again after a cursor reset. Section 4.6 of MQTT 3.1.1 asks this of PUBLISH, PUBACK,
  PUBREC and PUBREL; it holds of every packet but CONNECT, which goes in front.
 */
module ClientOrder {
  import opened Bytes
  import opened Constants
  import opened Options
  import opened PacketSpec
  import opened Outbox
  import opened ClientSpec
  import opened ClientRuns
  import opened ClientFraming
  import P = ParserSpec

  predicate Pub(p: Item) {
    TypeOf(p) == PUBLISH
  }

  // queued behind what is there already
  predicate Behind(p: Item) {
    TypeOf(p) != CONNECT
  }

  predicate Increasing(s: seq<nat>) {
    forall i, j :: 0 <= i < j < |s| ==> s[i] < s[j]
  }

  // how a queue position relates to the cursor and to what was sent since the last reset
  predicate Placed(c: Client, i: nat)
    requires i < |c.queue|
  {
    var p := c.queue[i];
    && (i < c.cursor ==> !Removable(p))
    && (Behind(p) ==> p.serial < c.h.serials)
    && (Behind(p) && i < c.cursor ==> p.serial in c.h.order)
    && (Behind(p) && i >= c.cursor ==> forall x :: x in c.h.order ==> x < p.serial)
  }

  predicate InOrder(c: Client, i: nat, j: nat)
    requires i < j < |c.queue|
  {
    Behind(c.queue[i]) && Behind(c.queue[j]) ==> c.queue[i].serial < c.queue[j].serial
  }

  /**
    Packets before the cursor stay until they are acknowledged; packets, CONNECT apart, are queued in the order of
    their creation; those before the cursor have been sent since the last cursor reset, in that order, and nothing
    from the cursor on has.
   */
  predicate Ordered(c: Client) {
    && c.cursor <= |c.queue|
    && (forall i :: 0 <= i < |c.queue| ==> Placed(c, i))
    && (forall i, j :: 0 <= i < j < |c.queue| ==> InOrder(c, i, j))
    && Increasing(c.h.order) && (forall x :: x in c.h.order ==> x < c.h.serials)
  }

  // ---- removing packets, one or many, keeps the order ----

  /** d's queue is c's with packets left out; `from` tells where each one was. */
  predicate Thinned(c: Client, d: Client, from: seq<nat>) {
    && |from| == |d.queue| && d.cursor <= |d.queue| && c.cursor <= |c.queue|
    && (forall i :: 0 <= i < |from| ==> from[i] < |c.queue| && d.queue[i] == c.queue[from[i]] && (i < d.cursor <==> from[i] < c.cursor))
    && Increasing(from)
    && d.h.order == c.h.order && d.h.serials == c.h.serials
  }

  lemma ThinnedOrdered(c: Client, d: Client, from: seq<nat>)
    requires Ordered(c) && Thinned(c, d, from)
    ensures Ordered(d)
  {
    forall i | 0 <= i < |d.queue| ensures Placed(d, i) { assert Placed(c, from[i]); }
    forall i, j | 0 <= i < j < |d.queue| ensures InOrder(d, i, j) { assert InOrder(c, from[i], from[j]); }
  }

  function Gap(n: nat, i: nat): (from: seq<nat>)
    requires i < n
    ensures |from| == n - 1 && forall j :: 0 <= j < n - 1 ==> from[j] == if j < i then j else j + 1
  {
    seq(n - 1, j => if j < i then j else j + 1)
  }

  lemma RemoveOrdered(c: Client, i: nat)
    requires Ordered(c) && i < |c.queue|
    ensures Ordered(RemoveAt(c, i))
  {
    ThinnedOrdered(c, RemoveAt(c, i), Gap(|c.queue|, i));
  }

  function Survivors(q: seq<Item>, level: nat, at: nat): seq<nat> {
    if q == [] then [] else (if Keeps(level, q[0]) then [at] else []) + Survivors(q[1..], level, at + 1)
  }

  lemma {:induction false} KeptPositions(q: seq<Item>, level: nat, at: nat)
    ensures var from := Survivors(q, level, at);
            && |from| == |Kept(q, level)| && Increasing(from)
            && forall i :: 0 <= i < |from| ==> at <= from[i] < at + |q| && Kept(q, level)[i] == q[from[i] - at]
  {
    if q != [] {
      KeptPositions(q[1..], level, at + 1);
    }
  }

  // how many survive before the cursor is where their positions pass it
  lemma {:induction false} KeptBefore(q: seq<Item>, level: nat, at: nat, cursor: nat)
    requires cursor <= |q|
    ensures var from := Survivors(q, level, at);
            && |Kept(q[..cursor], level)| <= |from|
            && forall i :: 0 <= i < |from| ==> (i < |Kept(q[..cursor], level)| <==> from[i] < at + cursor)
  {
    KeptPositions(q, level, at);
    if cursor > 0 {
      assert q[..cursor][1..] == q[1..][..cursor - 1];
      KeptBefore(q[1..], level, at + 1, cursor - 1);
    }
  }

  // every survivor has its place
  lemma {:induction false} KeptComplete(q: seq<Item>, level: nat, at: nat, j: nat)
    requires j < |q| && Keeps(level, q[j])
    ensures at + j in Survivors(q, level, at)
  {
    if j > 0 { KeptComplete(q[1..], level, at + 1, j - 1); }
  }

  /** Clearing keeps the order of what it keeps, and puts the cursor on the first survivor at or behind its old place. */
  lemma {:induction false} ClearIsFilter(c: Client, level: nat, j: nat)
    requires c.cursor <= |c.queue|
    ensures var d, from := ClearQueue(c, level), Survivors(c.queue, level, 0);
            && Thinned(c, d, from)
            && (forall p :: p in d.queue <==> p in c.queue && Keeps(level, p))
            && (c.cursor <= j < |c.queue| && Keeps(level, c.queue[j]) ==> d.cursor < |d.queue| && c.cursor <= from[d.cursor] <= j)
  {
    hide Kept, Survivors, Losses, Keeps;
    var d, from := ClearQueue(c, level), Survivors(c.queue, level, 0);
    KeptPositions(c.queue, level, 0);
    KeptBefore(c.queue, level, 0, c.cursor);
    KeptFrom(c.queue, level);
    if c.cursor <= j < |c.queue| && Keeps(level, c.queue[j]) {
      KeptComplete(c.queue, level, 0, j);
      FirstSurvivor(from, c.cursor, d.cursor, j);
    }
  }

  // of increasing positions, the first at or behind the cursor is not behind another such one
  lemma FirstSurvivor(from: seq<nat>, cursor: nat, at: nat, j: nat)
    requires cursor <= j && j in from && at <= |from| && (forall k :: 0 <= k < at ==> from[k] < cursor)
    requires (forall k :: at <= k < |from| ==> from[k] >= cursor) && forall i, k :: 0 <= i < k < |from| ==> from[i] < from[k]
    ensures at < |from| && cursor <= from[at] <= j
  {
    var k :| 0 <= k < |from| && from[k] == j;
    if at < k { assert from[at] < from[k]; }
  }

  /** After a CONNACK without a session present only PUBLISH packets are left. */
  lemma {:induction false} NewSessionKeepsPublishesOnly(c: Client, e: P.Event, mem: Memory)
    requires Basic(c) && Enabled(c, Received(e, mem)) && e.Connack? && e.returnCode == 0 && e.sessionPresent == 0
    ensures forall p :: p in Step(c, Received(e, mem)).queue ==> Pub(p)
  {
    hide AdvanceOutbox;
    var c0 := c.(pingSent := false, state := Connected, h := c.h.(connackSeen := true));
    AdvanceBasic(c0);
    KeptFrom(AdvanceOutbox(c0).queue, 1);
  }

  lemma ClearOrdered(c: Client, level: nat)
    requires Ordered(c)
    ensures Ordered(ClearQueue(c, level))
  {
    KeptPositions(c.queue, level, 0);
    KeptBefore(c.queue, level, 0, c.cursor);
    ThinnedOrdered(c, ClearQueue(c, level), Survivors(c.queue, level, 0));
  }

  lemma IncreasingAppend(s: seq<nat>, x: nat)
    requires Increasing(s) && forall y :: y in s ==> y < x
    ensures Increasing(s + [x])
  {
    assert forall i :: 0 <= i < |s| ==> s[i] in s;
  }

  // ---- the other primitives ----

  lemma AppendOrdered(c: Client, add: Option<New>)
    requires Ordered(c)
    ensures Ordered(AppendNew(c, add))
  {
    var d := AppendNew(c, add);
    if add.Some? {
      forall i | 0 <= i < |d.queue| ensures Placed(d, i) {
        if i < |c.queue| { assert Placed(c, i); }
      }
      forall i, j | 0 <= i < j < |d.queue| ensures InOrder(d, i, j) {
        assert Placed(c, i);
        if j < |c.queue| { assert InOrder(c, i, j); }
      }
    }
  }

  lemma ApplyOrdered(c: Client, e: Edit)
    requires Ordered(c) && (e.remove.Some? ==> e.remove.value < |c.queue|)
    ensures Ordered(Apply(c, e))
  {
    AppendOrdered(c, e.add);
    if e.remove.Some? { RemoveOrdered(AppendNew(c, e.add), e.remove.value); }
    SameOrder(if e.remove.Some? then RemoveAt(AppendNew(c, e.add), e.remove.value) else AppendNew(c, e.add), Apply(c, e));
  }

  lemma SameOrder(c: Client, d: Client)
    requires Ordered(c) && d.queue == c.queue && d.cursor == c.cursor && d.h.order == c.h.order && d.h.serials == c.h.serials
    ensures Ordered(d)
  {
    forall i | 0 <= i < |d.queue| ensures Placed(d, i) { assert Placed(c, i); }
    forall i, j | 0 <= i < j < |d.queue| ensures InOrder(d, i, j) { assert InOrder(c, i, j); }
  }

  // changing a packet in place, its kind, id and serial apart
  lemma UpdateOrdered(c: Client, d: Client, k: nat, p: Item)
    requires Ordered(c) && k < |c.queue| && d.queue == c.queue[k := p]
    requires TypeOf(p) == TypeOf(c.queue[k]) && p.id == c.queue[k].id && p.serial == c.queue[k].serial
    requires d.cursor == c.cursor && d.h.order == c.h.order && d.h.serials == c.h.serials
    ensures Ordered(d)
  {
    forall i | 0 <= i < |d.queue| ensures Placed(d, i) { assert Placed(c, i); }
    forall i, j | 0 <= i < j < |d.queue| ensures InOrder(d, i, j) { assert InOrder(c, i, j); }
  }

  // the current packet has been written to its end: it joins the order, unless it is CONNECT
  lemma PassOrdered(c: Client, d: Client)
    requires Ordered(c) && c.cursor < |c.queue|
    requires d.queue == c.queue && d.h.serials == c.h.serials
    requires var p := c.queue[c.cursor];
             && d.h.order == (if Behind(p) then c.h.order + [p.serial] else c.h.order)
             && d.cursor == c.cursor + 1 && !Removable(p)
    ensures Ordered(d)
  {
    var k, p := c.cursor, c.queue[c.cursor];
    assert Placed(c, k);
    if Behind(p) { IncreasingAppend(c.h.order, p.serial); }
    forall i | 0 <= i < |d.queue| ensures Placed(d, i) {
      assert Placed(c, i);
      if i > k { assert InOrder(c, k, i); }
    }
    forall i, j | 0 <= i < j < |d.queue| ensures InOrder(d, i, j) { assert InOrder(c, i, j); }
  }

  // the same when the packet is removed instead of passed over
  lemma DropOrdered(c: Client, d: Client)
    requires Ordered(c) && c.cursor < |c.queue| && d.queue == Without(c.queue, c.cursor) && d.cursor == c.cursor
    requires var p := c.queue[c.cursor]; d.h.order == (if Behind(p) then c.h.order + [p.serial] else c.h.order) && d.h.serials == c.h.serials
    ensures Ordered(d)
  {
    var k, p := c.cursor, c.queue[c.cursor];
    assert Placed(c, k);
    if Behind(p) { IncreasingAppend(c.h.order, p.serial); }
    forall i | 0 <= i < |d.queue| ensures Placed(d, i) {
      var o := if i < k then i else i + 1;
      assert d.queue[i] == c.queue[o] && Placed(c, o);
      if o > k { assert InOrder(c, k, o); }
    }
    forall i, j | 0 <= i < j < |d.queue| ensures InOrder(d, i, j) {
      assert InOrder(c, if i < k then i else i + 1, if j < k then j else j + 1);
    }
  }

  lemma AdvanceOrdered(c: Client)
    requires Ordered(c)
    ensures Ordered(AdvanceOutbox(c))
  {
    hide Ordered, Removable, SetDup;
    var d := AdvanceOutbox(c);
    assert c.cursor <= |c.queue| by { CursorIn(c); }
    if c.cursor < |c.queue| && c.bytesSent == |c.queue[c.cursor].bytes| {
      var p := c.queue[c.cursor];
      if Removable(p) {
        DropOrdered(c, d);
      } else {
        var passed := d.(queue := c.queue);
        PassOrdered(c, passed);
        assert SetDup(p).serial == p.serial && SetDup(p).id == p.id && TypeOf(SetDup(p)) == TypeOf(p) by { DupKeeps(p); }
        UpdateOrdered(passed, d, c.cursor, SetDup(p));
      }
    }
  }

  lemma CursorIn(c: Client)
    requires Ordered(c)
    ensures c.cursor <= |c.queue|
  {
  }

  lemma DupKeeps(p: Item)
    ensures SetDup(p).serial == p.serial && SetDup(p).id == p.id && TypeOf(SetDup(p)) == TypeOf(p)
  {
  }

  // a cursor reset starts a new order
  lemma ResetOrdered(c: Client, d: Client)
    requires Ordered(c) && d.queue == c.queue && d.cursor == 0 && d.h.order == [] && d.h.serials == c.h.serials
    ensures Ordered(d)
  {
    forall i | 0 <= i < |d.queue| ensures Placed(d, i) { assert Placed(c, i); }
    forall i, j | 0 <= i < j < |d.queue| ensures InOrder(d, i, j) { assert InOrder(c, i, j); }
  }

  lemma FrontOrdered(c: Client, mem: Memory)
    requires Ordered(c) && ConfigOk(c.config)
    ensures Ordered(AddPacketFront(c, c.config.connectBytes, mem))
  {
    var d := AddPacketFront(c, c.config.connectBytes, mem);
    match mem {
      case NoNode =>
      case NoBuffer => ResetOrdered(c, d);
      case Granted =>
        forall i | 0 <= i < |d.queue| ensures Placed(d, i) { if i > 0 { assert Placed(c, i - 1); } }
        forall i, j | 0 <= i < j < |d.queue| ensures InOrder(d, i, j) {
          if i > 0 { assert d.queue[i] == c.queue[i - 1] && d.queue[j] == c.queue[j - 1] && InOrder(c, i - 1, j - 1); }
        }
    }
  }

  lemma SendOrdered(c: Client, w: nat, now: nat)
    requires Ordered(c)
    ensures Ordered(SendPacket(c, w, now))
  {
    var d := SendPacket(c, w, now);
    if Available(c) > 0 { UpdateOrdered(c, d, c.cursor, d.queue[c.cursor]); }
  }

  lemma ConnackOrdered(c: Client, sessionPresent: byte, returnCode: byte)
    requires Ordered(c)
    ensures Ordered(OnConnack(c, sessionPresent, returnCode))
  {
    CursorIn(c);
    hide Ordered, ClearQueue, AdvanceOutbox;
    var d := OnConnack(c, sessionPresent, returnCode);
    if returnCode == 0 {
      var c0 := c.(pingSent := false, state := Connected, h := c.h.(connackSeen := true));
      SameOrder(c, c0);
      AdvanceOrdered(c0);
      CursorIn(AdvanceOutbox(c0));
      if sessionPresent == 0 {
        ClearOrdered(AdvanceOutbox(c0), 1);
        SameOrder(ClearQueue(AdvanceOutbox(c0), 1), d);
      } else {
        SameOrder(AdvanceOutbox(c0), d);
      }
    } else {
      SameOrder(c, d);
    }
  }

  lemma StepOrdered(c: Client, a: Action)
    requires Basic(c) && Enabled(c, a) && Ordered(c)
    ensures Ordered(Step(c, a))
  {
    hide Ordered, ClearQueue, AdvanceOutbox, SendPacket, OnConnack, AddPacketFront;
    if Plain(a) {
      PlainStep(c, a);
      ApplyOrdered(c, EditFor(c, a));
      SameOrder(Apply(c, EditFor(c, a)), Step(c, a));
    } else {
      match a {
        case DoConnect(mem) =>
          FrontOrdered(c, mem);
          if c.state == Disconnected { SameOrder(AddPacketFront(c, c.config.connectBytes, mem), Step(c, a)); }
        case DoClearQueue(all) => ClearOrdered(c, if all then 2 else 0);
        case TcpGone =>
          ClearOrdered(c, 0);
          SameOrder(ClearQueue(c, 0), Step(c, a));
        case SendOnly(w, now) => SendOrdered(c, w, now);
        case SendAndAdvance(w, now) =>
          SendOrdered(c, w, now);
          AdvanceOrdered(SendPacket(c, w, now));
        case Received(e, _) => ConnackOrdered(c, e.sessionPresent, e.returnCode);
        case Timeout(now) => if Step(c, a) != c { ResetOrdered(c, Step(c, a)); }
      }
    }
  }

  /** Cursor and order, in every run. */
  lemma {:induction false} SendOrder(c: Client, acts: seq<Action>)
    requires EnabledRun(c, acts) && Basic(c) && Ordered(c)
    ensures Ordered(Run(c, acts))
    decreases |acts|
  {
    hide Step, Enabled, Ordered, Basic;
    if acts != [] {
      StepOrdered(c, acts[0]);
      StepBasic(c, acts[0]);
      SendOrder(Step(c, acts[0]), acts[1..]);
    }
  }
}
