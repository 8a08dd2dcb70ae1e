/**
  What the client does when. The times it keeps are compared with those in the actions of the run: when a packet
  was last written, when anything was, and when the server was last heard. Retransmission and keep-alive follow.
 */
module ClientClock {
  import opened Bytes
  import opened Constants
  import opened Options
  import opened PacketSpec
  import opened Outbox
  import opened ClientSpec
  import opened ClientRuns
  import opened ClientFraming
  import opened ClientOrder
  import opened ClientTrace
  import P = ParserSpec

  /** One write to the transport, of a packet by its serial. */
  datatype Write = Write(serial: nat, time: nat)

  function WroteNow(c: Client, a: Action): seq<Write> {
    match a
    case SendOnly(_, now) => if Unfinished(c) then [Write(c.queue[c.cursor].serial, now)] else []
    case SendAndAdvance(_, now) => if Unfinished(c) then [Write(c.queue[c.cursor].serial, now)] else []
    case _ => []
  }

  // there is something to offer to the transport
  predicate Unfinished(c: Client) {
    c.cursor < |c.queue| && c.bytesSent < |c.queue[c.cursor].bytes|
  }

  function Writes(c: Client, acts: seq<Action>): seq<Write>
    requires EnabledRun(c, acts)
    decreases |acts|
  {
    if acts == [] then [] else WroteNow(c, acts[0]) + Writes(Step(c, acts[0]), acts[1..])
  }

  /** When a packet was last written. */
  function LastTime(log: seq<Write>, serial: nat): Option<nat>
    decreases |log|
  {
    if log == [] then None
    else if log[|log| - 1].serial == serial then Some(log[|log| - 1].time)
    else LastTime(log[..|log| - 1], serial)
  }

  // a packet that was never written counts as written at 0
  function Written(log: seq<Write>, serial: nat): nat {
    match LastTime(log, serial)
    case None => 0
    case Some(time) => time
  }

  predicate Dated(c: Client, log: seq<Write>) {
    && (forall p :: p in c.queue ==> p.timeSent == Written(log, p.serial))
    && (forall w :: w in log ==> w.serial < c.h.serials)
  }

  // ---- primitives ----

  lemma {:induction false} NotWritten(log: seq<Write>, serial: nat)
    requires forall w :: w in log ==> w.serial != serial
    ensures LastTime(log, serial) == None
    decreases |log|
  {
    if log != [] { NotWritten(log[..|log| - 1], serial); }
  }

  lemma WrittenMore(log: seq<Write>, w: Write, serial: nat)
    ensures LastTime(log + [w], serial) == if w.serial == serial then Some(w.time) else LastTime(log, serial)
  {
    assert (log + [w])[..|log|] == log;
  }

  // packets keep their dates
  predicate SameDates(q: seq<Item>, r: seq<Item>) {
    forall p :: p in r ==> HasDate(q, p)
  }

  predicate HasDate(q: seq<Item>, p: Item) {
    exists i :: 0 <= i < |q| && q[i].serial == p.serial && q[i].timeSent == p.timeSent
  }

  lemma DatesStay(c: Client, d: Client, log: seq<Write>)
    requires Dated(c, log) && SameDates(c.queue, d.queue) && c.h.serials <= d.h.serials
    ensures Dated(d, log)
  {
    forall p | p in d.queue ensures p.timeSent == Written(log, p.serial) {
      var i :| 0 <= i < |c.queue| && c.queue[i].serial == p.serial && c.queue[i].timeSent == p.timeSent;
      assert c.queue[i] in c.queue;
    }
  }

  lemma DatesOfPart(q: seq<Item>, r: seq<Item>)
    requires forall p :: p in r ==> p in q
    ensures SameDates(q, r)
  {
    forall p | p in r ensures HasDate(q, p) { var i :| 0 <= i < |q| && q[i] == p; }
  }

  // a new packet has not been written
  lemma NewDated(c: Client, d: Client, log: seq<Write>)
    requires Dated(c, log) && c.h.serials <= d.h.serials
    requires forall p :: p in d.queue ==> p in c.queue || (p.serial == c.h.serials && p.timeSent == 0)
    ensures Dated(d, log)
  {
    NotWritten(log, c.h.serials);
  }

  lemma AdvanceDated(c: Client, log: seq<Write>)
    requires Dated(c, log)
    ensures Dated(AdvanceOutbox(c), log)
  {
    var d := AdvanceOutbox(c);
    if c.cursor < |c.queue| && c.bytesSent == |c.queue[c.cursor].bytes| && !Removable(c.queue[c.cursor]) {
      forall p | p in d.queue ensures HasDate(c.queue, p) {
        var i :| 0 <= i < |d.queue| && d.queue[i] == p;
        assert SetDup(c.queue[c.cursor]).timeSent == c.queue[c.cursor].timeSent;
      }
    } else {
      DatesOfPart(c.queue, d.queue);
    }
    DatesStay(c, d, log);
  }

  lemma ClearDated(c: Client, level: nat, log: seq<Write>)
    requires Dated(c, log) && c.cursor <= |c.queue|
    ensures Dated(ClearQueue(c, level), log)
  {
    KeptFrom(c.queue, level);
    DatesOfPart(c.queue, ClearQueue(c, level).queue);
    DatesStay(c, ClearQueue(c, level), log);
  }

  lemma SendDated(c: Client, w: nat, now: nat, log: seq<Write>)
    requires Dated(c, log) && Traced(c)
    ensures Dated(SendPacket(c, w, now), log + WroteNow(c, SendOnly(w, now)))
  {
    var d, k := SendPacket(c, w, now), c.cursor;
    if Unfinished(c) {
      var new_ := Write(c.queue[k].serial, now);
      assert Located(c, k);
      forall p | p in d.queue ensures p.timeSent == Written(log + [new_], p.serial) {
        var i :| 0 <= i < |d.queue| && d.queue[i] == p;
        WrittenMore(log, new_, p.serial);
        assert c.queue[i] in c.queue;
        if i < k { assert Apart(c, i, k); }
        if k < i { assert Apart(c, k, i); }
      }
    } else {
      assert log + [] == log;
      DatesOfPart(c.queue, d.queue);
    }
  }

  lemma PumpDated(c: Client, w: nat, now: nat, log: seq<Write>)
    requires Dated(c, log) && Traced(c)
    ensures Dated(Pump(c, w, now), log + WroteNow(c, SendAndAdvance(w, now)))
  {
    SendDated(c, w, now, log);
    hide SendPacket, AdvanceOutbox, Dated, Traced;
    AdvanceDated(SendPacket(c, w, now), log + WroteNow(c, SendOnly(w, now)));
  }

  lemma ConnackDated(c: Client, sessionPresent: byte, returnCode: byte, log: seq<Write>)
    requires Dated(c, log) && c.cursor <= |c.queue|
    ensures Dated(OnConnack(c, sessionPresent, returnCode), log)
  {
    var c0 := c.(pingSent := false, state := Connected, h := c.h.(connackSeen := true));
    AdvanceDated(c0, log);
    AdvanceCursor(c0);
    hide AdvanceOutbox, ClearQueue;
    if returnCode == 0 && sessionPresent == 0 { ClearDated(AdvanceOutbox(c0), 1, log); }
  }

  /** Every packet carries the time at which it was last written. */
  lemma StepDated(c: Client, a: Action, log: seq<Write>)
    requires Basic(c) && Enabled(c, a) && Traced(c) && Dated(c, log)
    ensures Dated(Step(c, a), log + WroteNow(c, a))
  {
    hide ClearQueue, AdvanceOutbox, SendPacket, OnConnack, Apply, AddPacketFront, Dated, Traced, Pump, NonEmpty;
    assert log + [] == log;
    if Plain(a) {
      PlainStep(c, a);
      ApplyDated(c, EditFor(c, a), log);
      SameDated(Apply(c, EditFor(c, a)), Step(c, a), log);
    } else {
      match a {
        case DoConnect(mem) =>
          FrontDated(c, mem, log);
          SameDated(if c.state == Disconnected then AddPacketFront(c, c.config.connectBytes, mem) else c, Step(c, a), log);
        case DoClearQueue(all) => ClearDated(c, if all then 2 else 0, log);
        case TcpGone =>
          ClearDated(c, 0, log);
          SameDated(ClearQueue(c, 0), Step(c, a), log);
        case SendOnly(w, now) => SendDated(c, w, now, log);
        case SendAndAdvance(w, now) => PumpDated(c, w, now, log);
        case Received(e, _) => ConnackDated(c, e.sessionPresent, e.returnCode, log);
        case Timeout(now) => SameDated(c, Step(c, a), log);
      }
    }
  }

  lemma SameDated(c: Client, d: Client, log: seq<Write>)
    requires Dated(c, log) && d.queue == c.queue && d.h.serials == c.h.serials
    ensures Dated(d, log)
  {
  }

  lemma ApplyDated(c: Client, e: Edit, log: seq<Write>)
    requires Dated(c, log) && (e.remove.Some? ==> e.remove.value < |c.queue|)
    ensures Dated(Apply(c, e), log)
  {
    NewDated(c, Apply(c, e), log);
  }

  lemma FrontDated(c: Client, mem: Memory, log: seq<Write>)
    requires Dated(c, log)
    ensures Dated(AddPacketFront(c, c.config.connectBytes, mem), log)
  {
    NewDated(c, AddPacketFront(c, c.config.connectBytes, mem), log);
  }

  lemma {:induction false} RunDated(c: Client, acts: seq<Action>, log: seq<Write>)
    requires Basic(c) && EnabledRun(c, acts) && Traced(c) && Dated(c, log)
    ensures Basic(Run(c, acts)) && Traced(Run(c, acts)) && Dated(Run(c, acts), log + Writes(c, acts)) && Run(c, acts).config == c.config
    decreases |acts|
  {
    hide Step, Enabled, Basic, Traced, Dated, WroteNow;
    if acts == [] {
      assert log + [] == log;
    } else {
      StepDated(c, acts[0], log);
      StepTraced(c, acts[0]);
      StepBasic(c, acts[0]);
      RunDated(Step(c, acts[0]), acts[1..], log + WroteNow(c, acts[0]));
      Assoc(log, WroteNow(c, acts[0]), Writes(Step(c, acts[0]), acts[1..]));
    }
  }

  // ---- retransmission ----

  /** The step goes back to the first packet. */
  predicate GoesBack(c: Client, a: Action)
    requires c.cursor <= |c.queue| && Enabled(c, a)
  {
    a.Timeout? && Step(c, a).cursor != c.cursor
  }

  lemma DatesInRun(config: Config, acts: seq<Action>)
    requires ConfigOk(config) && EnabledRun(Init(config), acts)
    ensures var c := Run(Init(config), acts);
            Basic(c) && Traced(c) && Dated(c, Writes(Init(config), acts)) && c.config == config
  {
    hide Traced;
    assert Traced(Init(config)) by { InitTraced(config); }
    RunDated(Init(config), acts, []);
    assert [] + Writes(Init(config), acts) == Writes(Init(config), acts);
  }

  lemma InitTraced(config: Config)
    ensures Traced(Init(config))
    ensures ConfigOk(config) ==> Basic(Init(config))
  {
  }

  lemma GoesBackWhen(c: Client, log: seq<Write>, t: nat)
    requires Basic(c) && Dated(c, log) && Enabled(c, Timeout(t))
    ensures c.cursor > 0 ==> c.queue != []
    ensures GoesBack(c, Timeout(t)) <==>
              c.cursor > 0 && c.bytesSent == 0 && Elapsed(t, Written(log, c.queue[0].serial)) > c.config.timeout
    ensures Step(c, Timeout(t)) == if GoesBack(c, Timeout(t)) then c.(cursor := 0, h := c.h.(order := [])) else c
  {
    hide Elapsed, NonEmpty;
    if c.queue != [] { assert c.queue[0] in c.queue; }
  }

  /**
    The client goes back to its first packet exactly when it is between two packets, has passed that one, and last
    wrote it longer than the timeout ago. Nothing else changes.
   */
  lemma {:induction false} GoesBackIff(config: Config, acts: seq<Action>, t: nat)
    requires ConfigOk(config) && EnabledRun(Init(config), acts) && Enabled(Run(Init(config), acts), Timeout(t))
    ensures var c, log := Run(Init(config), acts), Writes(Init(config), acts);
            && c.cursor <= |c.queue|
            && (GoesBack(c, Timeout(t)) <==>
                  c.cursor > 0 && c.bytesSent == 0 && Elapsed(t, Written(log, c.queue[0].serial)) > config.timeout)
            && Step(c, Timeout(t)) == if GoesBack(c, Timeout(t)) then c.(cursor := 0, h := c.h.(order := [])) else c
  {
    hide Dated, Step, Enabled, NonEmpty, Elapsed, GoesBack, Writes, Written;
    DatesInRun(config, acts);
    GoesBackWhen(Run(Init(config), acts), Writes(Init(config), acts), t);
  }

  // ---- with a clock that runs forward ----

  function TimeOf(a: Action): Option<nat> {
    match a
    case TcpUp(now) => Some(now)
    case SendOnly(_, now) => Some(now)
    case SendAndAdvance(_, now) => Some(now)
    case Heard(now) => Some(now)
    case Ping(now, _) => Some(now)
    case Timeout(now) => Some(now)
    case _ => None
  }

  // not before, and less than one turn of the 32-bit clock later
  predicate Later(a: Action, b: Action) {
    TimeOf(a).Some? && TimeOf(b).Some? ==> TimeOf(a).value <= TimeOf(b).value < TimeOf(a).value + CLOCK
  }

  predicate Timely(acts: seq<Action>) {
    forall i, j :: 0 <= i < j < |acts| ==> Later(acts[i], acts[j])
  }

  lemma ElapsedIs(t: nat, since: nat)
    requires since <= t < since + CLOCK
    ensures Elapsed(t, since) == t - since
  {
  }

  predicate HappensAt(acts: seq<Action>, time: nat) {
    exists k :: 0 <= k < |acts| && TimeOf(acts[k]) == Some(time)
  }

  lemma {:induction false} WritesHappen(c: Client, acts: seq<Action>, w: Write)
    requires EnabledRun(c, acts) && w in Writes(c, acts)
    ensures HappensAt(acts, w.time)
    decreases |acts|
  {
    hide Step, Enabled;
    if acts != [] {
      if w in WroteNow(c, acts[0]) {
        assert TimeOf(acts[0]) == Some(w.time);
      } else {
        WritesHappen(Step(c, acts[0]), acts[1..], w);
        var k :| 0 <= k < |acts[1..]| && TimeOf(acts[1..][k]) == Some(w.time);
        assert acts[k + 1] == acts[1..][k];
      }
    }
  }

  lemma {:induction false} LastIn(log: seq<Write>, serial: nat)
    requires LastTime(log, serial).Some?
    ensures Write(serial, LastTime(log, serial).value) in log
    decreases |log|
  {
    if log[|log| - 1].serial != serial { LastIn(log[..|log| - 1], serial); }
  }

  // a write in a run lies before what comes next
  lemma WriteBefore(c: Client, acts: seq<Action>, a: Action, t: nat, serial: nat)
    requires EnabledRun(c, acts) && Timely(acts + [a]) && TimeOf(a) == Some(t) && LastTime(Writes(c, acts), serial).Some?
    ensures var s := LastTime(Writes(c, acts), serial).value; s <= t < s + CLOCK && Elapsed(t, s) == t - s
  {
    hide Writes, LastTime, Elapsed;
    LastIn(Writes(c, acts), serial);
    var s := LastTime(Writes(c, acts), serial).value;
    WritesHappen(c, acts, Write(serial, s));
    var k :| 0 <= k < |acts| && TimeOf(acts[k]) == Some(s);
    assert (acts + [a])[k] == acts[k] && (acts + [a])[|acts|] == a && Later((acts + [a])[k], (acts + [a])[|acts|]);
    ElapsedIs(t, s);
  }

  /** With a clock that runs forward: it goes back only when more than the timeout has passed since the last write of the first packet. */
  lemma {:induction false} GoesBackLate(config: Config, acts: seq<Action>, t: nat)
    requires ConfigOk(config) && EnabledRun(Init(config), acts) && Enabled(Run(Init(config), acts), Timeout(t))
    requires Timely(acts + [Timeout(t)])
    ensures var c, log := Run(Init(config), acts), Writes(Init(config), acts);
            && c.cursor <= |c.queue|
            && (c.queue != [] && LastTime(log, c.queue[0].serial).Some? ==>
                  var s := LastTime(log, c.queue[0].serial).value;
                  s <= t && (GoesBack(c, Timeout(t)) <==> c.cursor > 0 && c.bytesSent == 0 && t - s > config.timeout))
  {
    hide Writes, LastTime, Elapsed, Step, Enabled, GoesBack, NonEmpty;
    GoesBackIff(config, acts, t);
    var c, log := Run(Init(config), acts), Writes(Init(config), acts);
    if c.queue != [] && LastTime(log, c.queue[0].serial).Some? { WriteBefore(Init(config), acts, Timeout(t), t, c.queue[0].serial); }
  }

  // ---- what is before the cursor has been written ----

  predicate Tried(c: Client, log: seq<Write>) {
    && c.cursor <= |c.queue|
    && (forall i :: 0 <= i < c.cursor ==> LastTime(log, c.queue[i].serial).Some?)
    && (c.bytesSent > 0 ==> LastTime(log, c.h.started).Some?)
  }

  // whatever d has passed, c had passed
  lemma TriedFrom(c: Client, d: Client, from: seq<nat>, log: seq<Write>)
    requires Tried(c, log) && Thinned(c, d, from) && (d.bytesSent > 0 ==> d.bytesSent == c.bytesSent) && d.h.started == c.h.started
    ensures Tried(d, log)
  {
    forall i | 0 <= i < d.cursor ensures LastTime(log, d.queue[i].serial).Some? { assert d.queue[i] == c.queue[from[i]]; }
  }

  lemma ApplyTried(c: Client, e: Edit, log: seq<Write>)
    requires Tried(c, log) && (e.remove.Some? ==> e.remove.value < |c.queue|)
    ensures Tried(Apply(c, e), log)
  {
    hide LastTime;
    var c1, d := AppendNew(c, e.add), Apply(c, e);
    if e.remove.Some? {
      forall i | 0 <= i < d.cursor ensures LastTime(log, d.queue[i].serial).Some? {
        assert d.queue[i] == c1.queue[if i < e.remove.value then i else i + 1];
      }
    }
  }

  lemma ClearTried(c: Client, level: nat, log: seq<Write>)
    requires Tried(c, log)
    ensures Tried(ClearQueue(c, level), log)
  {
    hide LastTime;
    ClearThins(c, level);
    TriedFrom(c, ClearQueue(c, level), Survivors(c.queue, level, 0), log);
  }

  lemma AdvanceTried(c: Client, log: seq<Write>)
    requires Tried(c, log) && Own(c) && NonEmpty(c.queue)
    ensures Tried(AdvanceOutbox(c), log)
  {
    hide LastTime;
    var d := AdvanceOutbox(c);
    forall i | 0 <= i < d.cursor ensures LastTime(log, d.queue[i].serial).Some? {
      if i < c.cursor { assert d.queue[i] == c.queue[i]; }
    }
  }

  lemma SendTried(c: Client, w: nat, now: nat, log: seq<Write>)
    requires Tried(c, log)
    ensures Tried(SendPacket(c, w, now), log + WroteNow(c, SendOnly(w, now)))
  {
    hide LastTime;
    var d := SendPacket(c, w, now);
    if Unfinished(c) {
      var new_ := Write(c.queue[c.cursor].serial, now);
      WrittenMore(log, new_, d.h.started);
      forall i | 0 <= i < d.cursor ensures LastTime(log + [new_], d.queue[i].serial).Some? { WrittenMore(log, new_, c.queue[i].serial); }
    } else {
      assert log + [] == log;
    }
  }

  lemma PumpTried(c: Client, w: nat, now: nat, log: seq<Write>)
    requires Tried(c, log) && Own(c) && NonEmpty(c.queue)
    ensures Tried(Pump(c, w, now), log + WroteNow(c, SendAndAdvance(w, now)))
  {
    SendTried(c, w, now, log);
    assert Own(SendPacket(c, w, now)) && NonEmpty(SendPacket(c, w, now).queue);
    hide SendPacket, AdvanceOutbox, Tried, Own;
    AdvanceTried(SendPacket(c, w, now), log + WroteNow(c, SendOnly(w, now)));
  }

  lemma ConnackTried(c: Client, sessionPresent: byte, returnCode: byte, log: seq<Write>)
    requires Tried(c, log) && Own(c) && NonEmpty(c.queue)
    ensures Tried(OnConnack(c, sessionPresent, returnCode), log)
  {
    var c0 := c.(pingSent := false, state := Connected, h := c.h.(connackSeen := true));
    AdvanceTried(c0, log);
    hide AdvanceOutbox, ClearQueue, LastTime;
    if returnCode == 0 && sessionPresent == 0 { ClearTried(AdvanceOutbox(c0), 1, log); }
  }

  lemma SameTried(c: Client, d: Client, log: seq<Write>)
    requires Tried(c, log) && d.queue == c.queue && d.cursor <= c.cursor && d.h.started == c.h.started
    requires d.bytesSent > 0 ==> d.bytesSent == c.bytesSent
    ensures Tried(d, log)
  {
  }

  lemma StepTried(c: Client, a: Action, log: seq<Write>)
    requires Basic(c) && Enabled(c, a) && Own(c) && Tried(c, log)
    ensures Tried(Step(c, a), log + WroteNow(c, a))
  {
    hide ClearQueue, AdvanceOutbox, SendPacket, OnConnack, Apply, Own, Tried, Pump, NonEmpty;
    assert log + [] == log;
    if Plain(a) {
      PlainStep(c, a);
      ApplyTried(c, EditFor(c, a), log);
      SameTried(Apply(c, EditFor(c, a)), Step(c, a), log);
    } else {
      match a {
        case DoConnect(mem) => ConnectTried(c, mem, log);
        case DoClearQueue(all) => ClearTried(c, if all then 2 else 0, log);
        case TcpGone =>
          ClearTried(c, 0, log);
          SameTried(ClearQueue(c, 0), Step(c, a), log);
        case SendOnly(w, now) => SendTried(c, w, now, log);
        case SendAndAdvance(w, now) => PumpTried(c, w, now, log);
        case Received(e, _) => ConnackTried(c, e.sessionPresent, e.returnCode, log);
        case Timeout(now) => SameTried(c, Step(c, a), log);
      }
    }
  }

  lemma ConnectTried(c: Client, mem: Memory, log: seq<Write>)
    requires Basic(c) && Tried(c, log)
    ensures Tried(Connect(c, mem), log)
  {
    hide LastTime;
  }

  lemma {:induction false} RunTried(c: Client, acts: seq<Action>, log: seq<Write>)
    requires Basic(c) && EnabledRun(c, acts) && Own(c) && Untorn(c, acts) && Tried(c, log)
    ensures Tried(Run(c, acts), log + Writes(c, acts))
    decreases |acts|
  {
    hide Step, Enabled, Basic, Own, Tried, WroteNow, Tears;
    if acts == [] {
      assert log + [] == log;
    } else {
      StepTried(c, acts[0], log);
      StepOwn(c, acts[0]);
      StepBasic(c, acts[0]);
      RunTried(Step(c, acts[0]), acts[1..], log + WroteNow(c, acts[0]));
      Assoc(log, WroteNow(c, acts[0]), Writes(Step(c, acts[0]), acts[1..]));
    }
  }

  /** In a run that tears no packet every packet before the cursor has been written, so GoesBackLate speaks of all of them. */
  lemma {:induction false} PassedWasWritten(config: Config, acts: seq<Action>, i: nat)
    requires ConfigOk(config) && EnabledRun(Init(config), acts) && Untorn(Init(config), acts)
    requires i < Run(Init(config), acts).cursor
    ensures var c := Run(Init(config), acts);
            i < |c.queue| && LastTime(Writes(Init(config), acts), c.queue[i].serial).Some?
  {
    hide LastTime;
    RunTried(Init(config), acts, []);
    assert [] + Writes(Init(config), acts) == Writes(Init(config), acts);
  }

  // ---- sending a packet again ----

  /** The step writes the first bytes of the packet with this serial. */
  predicate Starts(c: Client, a: Action, serial: nat) {
    (a.SendOnly? || a.SendAndAdvance?) && a.written > 0 && Unfinished(c) && c.bytesSent == 0 && c.queue[c.cursor].serial == serial
  }

  // the packet is before the cursor, or under it and partly written, if it is there at all
  predicate Begun(c: Client, serial: nat) {
    forall x :: 0 <= x < |c.queue| && c.queue[x].serial == serial ==> x < c.cursor || (x == c.cursor && c.bytesSent > 0)
  }

  lemma ThinnedBegun(c: Client, d: Client, from: seq<nat>, serial: nat)
    requires Begun(c, serial) && Thinned(c, d, from) && d.bytesSent == c.bytesSent
    ensures Begun(d, serial)
  {
    forall x | 0 <= x < |d.queue| && d.queue[x].serial == serial ensures x < d.cursor || (x == d.cursor && d.bytesSent > 0) {
      assert d.queue[x] == c.queue[from[x]];
      assert d.cursor < |from| ==> from[d.cursor] >= c.cursor;
    }
  }

  lemma ApplyBegun(c: Client, e: Edit, serial: nat)
    requires Begun(c, serial) && c.cursor <= |c.queue| && serial < c.h.serials && (e.remove.Some? ==> e.remove.value < |c.queue|)
    ensures Begun(Apply(c, e), serial)
  {
    var c1, d := AppendNew(c, e.add), Apply(c, e);
    assert Begun(c1, serial);
    if e.remove.Some? {
      GapThins(c1, e.remove.value);
      ThinnedBegun(c1, RemoveAt(c1, e.remove.value), Gap(|c1.queue|, e.remove.value), serial);
    }
  }

  lemma ClearBegun(c: Client, level: nat, serial: nat)
    requires Begun(c, serial) && c.cursor <= |c.queue|
    ensures Begun(ClearQueue(c, level), serial)
  {
    ClearThins(c, level);
    ThinnedBegun(c, ClearQueue(c, level), Survivors(c.queue, level, 0), serial);
  }

  lemma AdvanceBegun(c: Client, serial: nat)
    requires Begun(c, serial) && c.cursor <= |c.queue|
    ensures Begun(AdvanceOutbox(c), serial)
  {
    var d := AdvanceOutbox(c);
    if c.cursor < |c.queue| && c.bytesSent == |c.queue[c.cursor].bytes| && Removable(c.queue[c.cursor]) {
      assert forall j :: 0 <= j < |d.queue| ==> d.queue[j] == c.queue[if j < c.cursor then j else j + 1];
    }
  }

  lemma ConnackBegun(c: Client, sessionPresent: byte, returnCode: byte, serial: nat)
    requires Begun(c, serial) && c.cursor <= |c.queue|
    ensures Begun(OnConnack(c, sessionPresent, returnCode), serial)
  {
    var c0 := c.(pingSent := false, state := Connected, h := c.h.(connackSeen := true));
    AdvanceBegun(c0, serial);
    AdvanceCursor(c0);
    hide AdvanceOutbox, ClearQueue;
    if returnCode == 0 && sessionPresent == 0 { ClearBegun(AdvanceOutbox(c0), 1, serial); }
  }

  lemma PumpBegun(c: Client, w: nat, now: nat, serial: nat)
    requires Begun(c, serial) && c.cursor <= |c.queue|
    ensures Begun(SendPacket(c, w, now), serial) && Begun(Pump(c, w, now), serial)
  {
    AdvanceBegun(SendPacket(c, w, now), serial);
    hide AdvanceOutbox;
  }

  lemma SameBegun(c: Client, d: Client, serial: nat)
    requires Begun(c, serial) && d.queue == c.queue && d.cursor == c.cursor && d.bytesSent == c.bytesSent
    ensures Begun(d, serial)
  {
  }

  // while the connection lasts, only going back makes a begun packet start again
  lemma StepBegun(c: Client, a: Action, serial: nat)
    requires Basic(c) && Enabled(c, a) && Begun(c, serial) && serial < c.h.serials
    requires c.state != Disconnected && !a.TcpGone? && !GoesBack(c, a)
    ensures Begun(Step(c, a), serial)
  {
    hide ClearQueue, AdvanceOutbox, SendPacket, OnConnack, Apply, Begun, Pump, NonEmpty, Elapsed;
    if Plain(a) {
      PlainStep(c, a);
      ApplyBegun(c, EditFor(c, a), serial);
      SameBegun(Apply(c, EditFor(c, a)), Step(c, a), serial);
    } else {
      match a {
        case DoConnect(mem) =>
        case DoClearQueue(all) => ClearBegun(c, if all then 2 else 0, serial);
        case SendOnly(w, now) => PumpBegun(c, w, now, serial);
        case SendAndAdvance(w, now) => PumpBegun(c, w, now, serial);
        case Received(e, _) => ConnackBegun(c, e.sessionPresent, e.returnCode, serial);
        case Timeout(now) => SameBegun(c, Step(c, a), serial);
      }
    }
  }

  // the state and the serials in such a step
  lemma StepLasts(c: Client, a: Action)
    requires Basic(c) && Enabled(c, a) && c.state != Disconnected && !a.TcpGone?
    ensures Step(c, a).state != Disconnected && Step(c, a).h.serials >= c.h.serials
  {
    hide ClearQueue, AdvanceOutbox, SendPacket, OnConnack, Apply, Pump, NonEmpty;
    if Plain(a) {
      PlainStep(c, a);
      PlainStates(c, a);
      ApplySerials(c, EditFor(c, a));
    } else {
      match a {
        case DoClearQueue(all) => ClearBasic(c, if all then 2 else 0);
        case SendOnly(w, now) => PumpLasts(c, w, now);
        case SendAndAdvance(w, now) => PumpLasts(c, w, now);
        case Received(e, _) => ConnackLasts(c, e.sessionPresent, e.returnCode);
        case _ =>
      }
    }
  }

  lemma ApplySerials(c: Client, e: Edit)
    requires e.remove.Some? ==> e.remove.value < |c.queue|
    ensures Apply(c, e).h.serials >= c.h.serials
  {
  }

  lemma PumpLasts(c: Client, w: nat, now: nat)
    requires c.state != Disconnected
    ensures SendPacket(c, w, now).state == c.state && SendPacket(c, w, now).h.serials == c.h.serials
    ensures Pump(c, w, now).state != Disconnected && Pump(c, w, now).h.serials == c.h.serials
  {
  }

  lemma ConnackLasts(c: Client, sessionPresent: byte, returnCode: byte)
    requires c.cursor <= |c.queue|
    ensures var d := OnConnack(c, sessionPresent, returnCode); d.state != Disconnected && d.h.serials == c.h.serials
  {
  }

  /** n steps into the run it goes back. */
  predicate BackAt(c: Client, acts: seq<Action>, n: nat) {
    && n < |acts| && EnabledRun(c, acts[..n])
    && var d := Run(c, acts[..n]);
       d.cursor <= |d.queue| && Enabled(d, acts[n]) && GoesBack(d, acts[n])
  }

  // a begun packet that is no longer begun has been gone back to
  lemma {:induction false} BackBetween(c: Client, acts: seq<Action>, serial: nat) returns (n: nat)
    requires Basic(c) && EnabledRun(c, acts) && Begun(c, serial) && serial < c.h.serials && c.state != Disconnected
    requires !Begun(Run(c, acts), serial) && forall a :: a in acts ==> !a.TcpGone?
    ensures BackAt(c, acts, n)
    decreases |acts|
  {
    hide Step, Enabled, Begun, Basic, GoesBack;
    assert c.cursor <= |c.queue|;
    assert acts[0] in acts;
    if GoesBack(c, acts[0]) {
      n := 0;
      assert acts[..0] == [];
    } else {
      StepBegun(c, acts[0], serial);
      StepLasts(c, acts[0]);
      StepBasic(c, acts[0]);
      var m := BackBetween(Step(c, acts[0]), acts[1..], serial);
      n := m + 1;
      assert acts[..n][0] == acts[0] && acts[..n][1..] == acts[1..][..m];
    }
  }

  lemma StartBegins(c: Client, a: Action, serial: nat)
    requires Basic(c) && Traced(c) && Enabled(c, a) && Starts(c, a, serial)
    ensures Begun(Step(c, a), serial) && serial < Step(c, a).h.serials && Step(c, a).state != Disconnected
  {
    var k, s := c.cursor, SendPacket(c, a.written, a.now);
    assert Located(c, k);
    forall x | 0 <= x < |c.queue| && c.queue[x].serial == serial ensures x == k {
      assert (x < k ==> Apart(c, x, k)) && (k < x ==> Apart(c, k, x));
    }
    assert Begun(s, serial);
    AdvanceBegun(s, serial);
    StepLasts(c, a);
    hide AdvanceOutbox, Begun;
  }

  // ---- two starts of the same packet ----

  lemma {:induction false} RunSplit(c: Client, a: seq<Action>, b: seq<Action>)
    requires EnabledRun(c, a + b)
    ensures EnabledRun(c, a) && EnabledRun(Run(c, a), b) && Run(c, a + b) == Run(Run(c, a), b)
    ensures Writes(c, a + b) == Writes(c, a) + Writes(Run(c, a), b)
    decreases |a|
  {
    hide Step, Enabled, WroteNow;
    if a == [] {
      assert a + b == b;
    } else {
      assert (a + b)[0] == a[0] && (a + b)[1..] == a[1..] + b;
      RunSplit(Step(c, a[0]), a[1..], b);
      Assoc(WroteNow(c, a[0]), Writes(Step(c, a[0]), a[1..]), Writes(Run(c, a), b));
    }
  }

  lemma {:induction false} LastAppend(a: seq<Write>, b: seq<Write>, serial: nat)
    ensures LastTime(a + b, serial) == if LastTime(b, serial).Some? then LastTime(b, serial) else LastTime(a, serial)
    decreases |b|
  {
    if b == [] {
      assert a + b == a;
    } else {
      assert (a + b)[..|a + b| - 1] == a + b[..|b| - 1];
      LastAppend(a, b[..|b| - 1], serial);
    }
  }

  /** i steps into the run the packet starts. */
  predicate StartsAt(c: Client, acts: seq<Action>, i: nat, serial: nat) {
    i < |acts| && EnabledRun(c, acts[..i]) && Starts(Run(c, acts[..i]), acts[i], serial)
  }

  predicate Overdue(log: seq<Write>, serial: nat, t: nat, timeout: nat) {
    LastTime(log, serial).Some? && t - LastTime(log, serial).value > timeout
  }

  // the log around a start
  lemma LogAround(c: Client, acts: seq<Action>, i: nat, n: nat, serial: nat)
    requires EnabledRun(c, acts) && i < n <= |acts| && StartsAt(c, acts, i, serial)
    ensures EnabledRun(c, acts[..n]) && EnabledRun(c, acts[..i]) && EnabledRun(c, acts[..i + 1])
    ensures EnabledRun(Run(c, acts[..i + 1]), acts[i + 1..n])
    ensures Writes(c, acts[..n]) ==
              Writes(c, acts[..i]) + [Write(serial, TimeOf(acts[i]).value)] + Writes(Run(c, acts[..i + 1]), acts[i + 1..n])
  {
    hide Step, Enabled, LastTime, Writes;
    var a, b := acts[..i], acts[i + 1..n];
    assert acts == acts[..n] + acts[n..] && acts[..n] == acts[..i + 1] + b && acts[..i + 1] == a + [acts[i]];
    RunSplit(c, acts[..n], acts[n..]);
    RunSplit(c, acts[..i + 1], b);
    RunSplit(c, a, [acts[i]]);
    OneWrite(Run(c, a), acts[i], serial);
  }

  lemma OneWrite(c: Client, a: Action, serial: nat)
    requires EnabledRun(c, [a]) && Starts(c, a, serial)
    ensures Writes(c, [a]) == [Write(serial, TimeOf(a).value)]
  {
    hide Step, Enabled;
    assert [a][1..] == [];
    assert Writes(Step(c, a), []) == [];
  }

  // what was started is known to have been written since
  lemma WrittenSince(c: Client, acts: seq<Action>, i: nat, n: nat, serial: nat)
    requires EnabledRun(c, acts) && i < n <= |acts| && Timely(acts) && StartsAt(c, acts, i, serial)
    ensures EnabledRun(c, acts[..n])
    ensures var last := LastTime(Writes(c, acts[..n]), serial); last.Some? && last.value >= TimeOf(acts[i]).value
  {
    hide Step, Enabled, LastTime, Writes, Run, EnabledRun;
    LogAround(c, acts, i, n, serial);
    var b, e, w := acts[i + 1..n], Run(c, acts[..i + 1]), Write(serial, TimeOf(acts[i]).value);
    WrittenMore(Writes(c, acts[..i]), w, serial);
    LastAppend(Writes(c, acts[..i]) + [w], Writes(e, b), serial);
    if LastTime(Writes(e, b), serial).Some? {
      LastIn(Writes(e, b), serial);
      WritesHappen(e, b, Write(serial, LastTime(Writes(e, b), serial).value));
      var k :| 0 <= k < |b| && TimeOf(b[k]) == Some(LastTime(Writes(e, b), serial).value);
      assert b[k] == acts[i + 1 + k] && Later(acts[i], acts[i + 1 + k]);
    }
  }

  lemma BackShifted(c: Client, a: seq<Action>, b: seq<Action>, rest: seq<Action>, m: nat)
    requires EnabledRun(c, a + b + rest) && EnabledRun(c, a) && EnabledRun(Run(c, a), b) && BackAt(Run(c, a), b, m)
    ensures BackAt(c, a + b + rest, |a| + m)
  {
    hide Step, Enabled, GoesBack;
    var acts := a + b + rest;
    assert acts[..|a| + m] == a + b[..m] && acts[|a| + m] == b[m];
    RunAppend(c, a, b[..m]);
  }

  // between two starts it goes back
  lemma BackInside(config: Config, acts: seq<Action>, i: nat, j: nat, serial: nat) returns (n: nat)
    requires ConfigOk(config) && EnabledRun(Init(config), acts) && i < j
    requires StartsAt(Init(config), acts, i, serial) && StartsAt(Init(config), acts, j, serial)
    requires forall k :: i < k < j ==> !acts[k].TcpGone?
    ensures i < n < j && BackAt(Init(config), acts, n)
  {
    hide Step, Enabled, GoesBack, Basic, Traced, Begun, Starts, Writes, BackAt, Init;
    var init, a, b := Init(config), acts[..i + 1], acts[i + 1..j];
    assert acts == acts[..j] + acts[j..] && acts[..j] == a + b && a + b + acts[j..] == acts;
    RunSplit(init, acts[..j], acts[j..]);
    RunSplit(init, a, b);
    var d := Run(init, a);
    StartIn(config, acts, i, serial);
    NotBegun(Run(d, b), acts[j], serial);
    var m := BackBetween(d, b, serial);
    BackShifted(init, a, b, acts[j..], m);
    n := i + 1 + m;
    assert m < |b| by { BackShort(d, b, m); }
  }

  lemma BackShort(c: Client, acts: seq<Action>, n: nat)
    requires BackAt(c, acts, n)
    ensures n < |acts|
  {
  }

  lemma StartIn(config: Config, acts: seq<Action>, i: nat, serial: nat)
    requires ConfigOk(config) && EnabledRun(Init(config), acts) && StartsAt(Init(config), acts, i, serial)
    ensures EnabledRun(Init(config), acts[..i + 1])
    ensures var d := Run(Init(config), acts[..i + 1]); Basic(d) && Begun(d, serial) && serial < d.h.serials && d.state != Disconnected
  {
    hide Step, Enabled, Basic, Traced, Begun, Dated, Starts, Writes;
    var init := Init(config);
    assert acts[..i + 1] == acts[..i] + [acts[i]] && acts == acts[..i + 1] + acts[i + 1..];
    RunSplit(init, acts[..i + 1], acts[i + 1..]);
    RunSplit(init, acts[..i], [acts[i]]);
    DatesInRun(config, acts[..i]);
    DatesInRun(config, acts[..i + 1]);
    OneStep(Run(init, acts[..i]), acts[i]);
    StartBegins(Run(init, acts[..i]), acts[i], serial);
  }

  /**
    When a packet is started twice on one connection, the client has gone back to its first packet in between. If
    the packet itself was overdue then, which the first packet always is, its two starts are more than the timeout
    apart.
   */
  lemma {:induction false} StartsApart(config: Config, acts: seq<Action>, i: nat, j: nat, serial: nat) returns (n: nat)
    requires ConfigOk(config) && EnabledRun(Init(config), acts) && Timely(acts) && i < j
    requires StartsAt(Init(config), acts, i, serial) && StartsAt(Init(config), acts, j, serial)
    requires forall k :: i < k < j ==> !acts[k].TcpGone?
    ensures i < n < j && BackAt(Init(config), acts, n) && TimeOf(acts[n]).Some?
    ensures var c, log, t := Run(Init(config), acts[..n]), Writes(Init(config), acts[..n]), TimeOf(acts[n]).value;
            && c.queue != []
            && (LastTime(log, c.queue[0].serial).Some? ==> Overdue(log, c.queue[0].serial, t, config.timeout))
            && (Overdue(log, serial, t, config.timeout) ==> TimeOf(acts[j]).value - TimeOf(acts[i]).value > config.timeout)
  {
    hide Step, Enabled, LastTime, GoesBack, Writes, BackAt, Init;
    n := BackInside(config, acts, i, j, serial);
    BackTimes(config, acts, n);
    WrittenSince(Init(config), acts, i, n, serial);
    assert Later(acts[n], acts[j]);
  }

  lemma OneStep(c: Client, a: Action)
    requires EnabledRun(c, [a])
    ensures c.cursor <= |c.queue| && Enabled(c, a) && Run(c, [a]) == Step(c, a)
  {
    hide Step, Enabled;
    assert [a][1..] == [];
  }

  lemma NotBegun(c: Client, a: Action, serial: nat)
    requires Starts(c, a, serial)
    ensures !Begun(c, serial)
  {
  }

  // what GoesBackLate says of a step inside a run
  lemma BackTimes(config: Config, acts: seq<Action>, n: nat)
    requires ConfigOk(config) && EnabledRun(Init(config), acts) && Timely(acts) && BackAt(Init(config), acts, n)
    ensures TimeOf(acts[n]).Some?
    ensures var c, log, t := Run(Init(config), acts[..n]), Writes(Init(config), acts[..n]), TimeOf(acts[n]).value;
            c.queue != [] && (LastTime(log, c.queue[0].serial).Some? ==> Overdue(log, c.queue[0].serial, t, config.timeout))
  {
    hide Step, Enabled, LastTime, Written, Elapsed, Basic, Traced, Dated;
    var t := acts[n].now;
    assert acts[n] == Timeout(t);
    assert acts[..n + 1] == acts[..n] + [Timeout(t)];
    assert Timely(acts[..n] + [Timeout(t)]) by { TimelyPrefix(acts, n + 1); }
    GoesBackIff(config, acts[..n], t);
    GoesBackLate(config, acts[..n], t);
  }

  lemma TimelyPrefix(acts: seq<Action>, n: nat)
    requires Timely(acts) && n <= |acts|
    ensures Timely(acts[..n])
  {
    forall i, j | 0 <= i < j < n ensures Later(acts[..n][i], acts[..n][j]) { assert Later(acts[i], acts[j]); }
  }

  // ---- keep-alive ----

  /** When the client last wrote something, and when it last heard the server; a new connection counts as both. */
  datatype Clocks = Clocks(sent: nat, heard: nat)

  function Ticked(k: Clocks, c: Client, a: Action): Clocks {
    match a
    case TcpUp(now) => Clocks(now, now)
    case Heard(now) => k.(heard := now)
    case SendOnly(_, now) => if Unfinished(c) then k.(sent := now) else k
    case SendAndAdvance(_, now) => if Unfinished(c) then k.(sent := now) else k
    case _ => k
  }

  function ClocksAfter(k: Clocks, c: Client, acts: seq<Action>): Clocks
    requires EnabledRun(c, acts)
    decreases |acts|
  {
    if acts == [] then k else ClocksAfter(Ticked(k, c, acts[0]), Step(c, acts[0]), acts[1..])
  }

  function ClocksOf(c: Client): Clocks {
    Clocks(c.lastClientActivity, c.lastServerActivity)
  }

  lemma StepClocks(c: Client, a: Action)
    requires c.cursor <= |c.queue| && Enabled(c, a)
    ensures ClocksOf(Step(c, a)) == Ticked(ClocksOf(c), c, a)
  {
    hide Step, Ticked, Enabled;
    if Plain(a) { PlainClocks(c, a); } else { WorkClocks(c, a); }
  }

  lemma PlainClocks(c: Client, a: Action)
    requires c.cursor <= |c.queue| && Enabled(c, a) && Plain(a)
    ensures ClocksOf(Step(c, a)) == Ticked(ClocksOf(c), c, a)
  {
    hide PublishBytes, SubscribeBytes, UnsubscribeBytes, Added, Elapsed, NextPacketId, Response, Apply, BareBytes;
    ApplyClocks(c);
  }

  lemma WorkClocks(c: Client, a: Action)
    requires c.cursor <= |c.queue| && Enabled(c, a) && !Plain(a)
    ensures ClocksOf(Step(c, a)) == Ticked(ClocksOf(c), c, a)
  {
    hide Kept, Losses, Elapsed, SetDup, Removable, TypeOf, AddPacketFront, FromStart;
    FrontClocks(c, if a.DoConnect? then a.mem else NoNode);
  }

  lemma ApplyClocks(c: Client)
    ensures forall d: Client, e: Edit :: (e.remove.Some? ==> e.remove.value < |d.queue|) ==> ClocksOf(Apply(d, e)) == ClocksOf(d)
  {
  }

  lemma FrontClocks(c: Client, mem: Memory)
    ensures ClocksOf(AddPacketFront(c, c.config.connectBytes, mem)) == ClocksOf(c)
  {
  }

  lemma {:induction false} RunClocks(c: Client, acts: seq<Action>)
    requires Basic(c) && EnabledRun(c, acts)
    ensures ClocksOf(Run(c, acts)) == ClocksAfter(ClocksOf(c), c, acts)
    decreases |acts|
  {
    hide Step, Enabled, Basic, Ticked;
    if acts != [] {
      assert c.cursor <= |c.queue|;
      StepClocks(c, acts[0]);
      StepBasic(c, acts[0]);
      RunClocks(Step(c, acts[0]), acts[1..]);
    }
  }

  /**
    d is c after a look at the clocks at time t. A server that has been silent for more than twice the keep-alive
    interval is given up. Otherwise PINGREQ is queued, once, when for more than the interval nothing has been written
    or nothing heard; else nothing happens.
   */
  predicate KeptAlive(c: Client, d: Client, clocks: Clocks, t: nat, mem: Memory) {
    var interval := c.config.keepAlive;
    var silent := interval != 0 && Elapsed(t, clocks.heard) > 2 * interval;
    var due := interval != 0 && (Elapsed(t, clocks.sent) > interval || Elapsed(t, clocks.heard) > interval);
    if silent then d == c.(state := DisconnectingTcp1, reason := TCP_DISCONNECTED)
    else if due && !c.pingSent && mem == Granted then
      && |d.queue| == |c.queue| + 1 && d.queue[..|c.queue|] == c.queue
      && d.queue[|c.queue|].bytes == [0xC0, 0] && d.queue[|c.queue|].id == 0
      && d == c.(queue := d.queue, pingSent := true, h := d.h) && d.h == c.h.(serials := c.h.serials + 1)
    else d == c
  }

  /** So it is in every run, by the times at which the run wrote and heard something. */
  lemma {:induction false} KeepAlive(config: Config, acts: seq<Action>, t: nat, mem: Memory)
    requires ConfigOk(config) && EnabledRun(Init(config), acts) && Enabled(Run(Init(config), acts), Ping(t, mem))
    ensures var c := Run(Init(config), acts);
            && c.cursor <= |c.queue| && c.config == config
            && KeptAlive(c, Step(c, Ping(t, mem)), ClocksAfter(Clocks(0, 0), Init(config), acts), t, mem)
  {
    hide KeptAlive, Step, Enabled, NonEmpty;
    DatesInRun(config, acts);
    InitTraced(config);
    RunClocks(Init(config), acts);
    PingWhen(Run(Init(config), acts), t, mem);
  }

  lemma PingWhen(c: Client, t: nat, mem: Memory)
    requires Basic(c) && Enabled(c, Ping(t, mem))
    ensures KeptAlive(c, Step(c, Ping(t, mem)), ClocksOf(c), t, mem)
  {
    hide Elapsed, NonEmpty;
    assert c.h.notes + [] == c.h.notes;
    ApplyNothing(c);
  }
}
