/**
  How connections end. For every action the state it leads to and the reason it leaves for onDisconnect; and whole
  ways down, from the user's call or the server's refusal to the callback.
 */
module ClientFates {
  import opened Bytes
  import opened Constants
  import opened Options
  import opened PacketSpec
  import opened Outbox
  import opened ClientSpec
  import opened ClientRuns
  import opened ClientLifecycle
  import opened ClientClearing
  import opened ClientClock
  import P = ParserSpec

  // a write of w bytes is the last one of a DISCONNECT packet
  predicate SaysGoodbye(c: Client, w: nat) {
    c.cursor < |c.queue| && TypeOf(c.queue[c.cursor]) == DISCONNECT && c.bytesSent < |c.queue[c.cursor].bytes| <= c.bytesSent + w
  }

  // the server has been silent for too long
  predicate Silent(c: Client, now: nat) {
    c.config.keepAlive != 0 && Elapsed(now, c.lastServerActivity) > 2 * c.config.keepAlive
  }

  /** What gives a connection up, and the reason onDisconnect will be told. */
  function Cause(c: Client, a: Action): Option<nat> {
    match a
    case TcpConnect(ok) => if ok then None else Some(TCP_DISCONNECTED)
    case LinkLost => Some(TCP_DISCONNECTED)
    case Garbled => Some(TCP_DISCONNECTED)
    case Ping(now, _) => if Silent(c, now) then Some(TCP_DISCONNECTED) else None
    case SendAndAdvance(w, _) => if SaysGoodbye(c, w) then Some(0) else None
    case Received(Connack(_, returnCode), _) =>
      if returnCode != 0 then Some(returnCode)
      else if JustSent(c) && TypeOf(c.queue[c.cursor]) == DISCONNECT then Some(0) else None
    case _ => None
  }

  /** The state an action leads to. */
  function Onward(c: Client, a: Action): State {
    if Cause(c, a).Some? then DisconnectingTcp1
    else
      match a
      case DoConnect(mem) => if c.state == Disconnected && mem == Granted then ConnectingTcp1 else c.state
      case DoDisconnect(force) =>
        if force then (if 1 <= Number(c.state) <= 6 then DisconnectingTcp1 else c.state)
        else if c.state == Connected then DisconnectingMqtt1 else c.state
      case TcpConnect(_) => ConnectingTcp2
      case TcpUp(_) => ConnectingMqtt
      case TcpStop => DisconnectingTcp2
      case TcpGone => Disconnected
      case Goodbye(mem) => if mem == Granted then DisconnectingMqtt2 else c.state
      case Received(e, _) => if e.Connack? then Connected else if c.state == ConnectingMqtt then DisconnectingTcp1 else c.state
      case _ => c.state
  }

  /** Every action leads to that state and leaves that reason, whatever else it does. */
  lemma StepFate(c: Client, a: Action)
    requires Basic(c) && Enabled(c, a)
    ensures Step(c, a).state == Onward(c, a)
    ensures Step(c, a).reason == (match Cause(c, a) case None => c.reason case Some(reason) => reason)
  {
    hide Step, Onward, Cause, Enabled;
    if Plain(a) { PlainFate(c, a); } else { WorkFate(c, a); }
  }

  lemma PlainFate(c: Client, a: Action)
    requires Basic(c) && Enabled(c, a) && Plain(a)
    ensures Step(c, a).state == Onward(c, a)
    ensures Step(c, a).reason == (match Cause(c, a) case None => c.reason case Some(reason) => reason)
  {
    hide PublishBytes, SubscribeBytes, UnsubscribeBytes, Added, Elapsed, NextPacketId, Response, Apply, BareBytes, NonEmpty;
    ApplyFate();
  }

  lemma ApplyFate()
    ensures forall d: Client, e: Edit :: (e.remove.Some? ==> e.remove.value < |d.queue|) ==>
              Apply(d, e).state == d.state && Apply(d, e).reason == d.reason
  {
  }

  lemma WorkFate(c: Client, a: Action)
    requires Basic(c) && Enabled(c, a) && !Plain(a)
    ensures Step(c, a).state == Onward(c, a)
    ensures Step(c, a).reason == (match Cause(c, a) case None => c.reason case Some(reason) => reason)
  {
    hide ClearQueue, AdvanceOutbox, SendPacket, OnConnack, Pump, AddPacketFront, TypeOf, NonEmpty;
    match a {
      case DoConnect(mem) => FrontFate(c, mem);
      case DoClearQueue(all) => ClearFate(c, if all then 2 else 0);
      case TcpGone => ClearFate(c, 0);
      case SendOnly(w, now) => SendFate(c, w, now);
      case SendAndAdvance(w, now) => PumpFate(c, w, now);
      case Received(e, _) => ConnackFate(c, e.sessionPresent, e.returnCode);
      case Timeout(now) =>
    }
  }

  lemma FrontFate(c: Client, mem: Memory)
    ensures var d := AddPacketFront(c, c.config.connectBytes, mem); d.state == c.state && d.reason == c.reason
  {
  }

  lemma ClearFate(c: Client, level: nat)
    requires c.cursor <= |c.queue|
    ensures ClearQueue(c, level).state == c.state && ClearQueue(c, level).reason == c.reason
  {
  }

  lemma SendFate(c: Client, w: nat, now: nat)
    ensures SendPacket(c, w, now).state == c.state && SendPacket(c, w, now).reason == c.reason
  {
  }

  lemma AdvanceFate(c: Client)
    ensures var d, bye := AdvanceOutbox(c), JustSent(c) && TypeOf(c.queue[c.cursor]) == DISCONNECT;
            d.state == (if bye then DisconnectingTcp1 else c.state) && d.reason == if bye then 0 else c.reason
  {
    hide TypeOf, Removable, SetDup;
  }

  lemma PumpFate(c: Client, w: nat, now: nat)
    requires NonEmpty(c.queue)
    ensures var d, bye := Pump(c, w, now), SaysGoodbye(c, w);
            d.state == (if bye then DisconnectingTcp1 else c.state) && d.reason == if bye then 0 else c.reason
  {
    hide TypeOf, AdvanceOutbox;
    var s := SendPacket(c, w, now);
    AdvanceFate(s);
    if c.cursor < |c.queue| { SameType(c.queue[c.cursor], s.queue[c.cursor]); }
  }

  lemma SameType(p: Item, q: Item)
    requires q.bytes == p.bytes
    ensures TypeOf(q) == TypeOf(p)
  {
  }

  lemma ConnackFate(c: Client, sessionPresent: byte, returnCode: byte)
    requires c.cursor <= |c.queue|
    ensures var d, bye := OnConnack(c, sessionPresent, returnCode), JustSent(c) && TypeOf(c.queue[c.cursor]) == DISCONNECT;
            && d.state == (if returnCode != 0 || bye then DisconnectingTcp1 else Connected)
            && d.reason == if returnCode != 0 then returnCode else if bye then 0 else c.reason
  {
    hide TypeOf, AdvanceOutbox, ClearQueue;
    var c0 := c.(pingSent := false, state := Connected, h := c.h.(connackSeen := true));
    AdvanceFate(c0);
    AdvanceState(c0);
    if returnCode == 0 && sessionPresent == 0 { ClearFate(AdvanceOutbox(c0), 1); }
  }

  // ---- runs ----

  /** The reason of the latest cause in a run. */
  function LastReason(c: Client, acts: seq<Action>, reason: nat): nat
    requires EnabledRun(c, acts)
    decreases |acts|
  {
    if acts == [] then reason
    else LastReason(Step(c, acts[0]), acts[1..], match Cause(c, acts[0]) case None => reason case Some(r) => r)
  }

  lemma {:induction false} RunReason(c: Client, acts: seq<Action>)
    requires Basic(c) && EnabledRun(c, acts)
    ensures Run(c, acts).reason == LastReason(c, acts, c.reason)
    decreases |acts|
  {
    hide Step, Enabled, Basic, Cause, Onward;
    if acts != [] {
      StepFate(c, acts[0]);
      StepBasic(c, acts[0]);
      RunReason(Step(c, acts[0]), acts[1..]);
    }
  }

  /** In every run onDisconnect is told the reason of what last gave a connection up. */
  lemma {:induction false} ReasonReported(config: Config, acts: seq<Action>)
    requires ConfigOk(config) && EnabledRun(Init(config), acts) && Enabled(Run(Init(config), acts), TcpGone)
    ensures var c := Run(Init(config), acts);
            && c.cursor <= |c.queue|
            && Step(c, TcpGone).h.notes == c.h.notes + [OnDisconnect(LastReason(Init(config), acts, TCP_DISCONNECTED))]
  {
    hide NonEmpty, Step, LastReason;
    InitTraced(config);
    RunReason(Init(config), acts);
    RunBasic(Init(config), acts);
    DisconnectKeepsSession(Run(Init(config), acts));
  }

  // the last two steps of every way down
  lemma ClosesDown(c: Client)
    requires Basic(c) && c.state == DisconnectingTcp1
    ensures EnabledRun(c, [TcpStop, TcpGone])
    ensures var d := Run(c, [TcpStop, TcpGone]);
            && Basic(d) && d.state == Disconnected && d.bytesSent == 0 && (forall p :: p in d.queue <==> p in c.queue && Lasting(p))
            && d.h.notes == c.h.notes + [OnDisconnect(c.reason)]
  {
    StepFate(c, TcpStop);
    var c1 := Step(c, TcpStop);
    assert c1 == c.(state := DisconnectingTcp2);
    StepBasic(c, TcpStop);
    DisconnectKeepsSession(c1);
    StepBasic(c1, TcpGone);
    hide Step, Basic, Lasting;
    TwoSteps(c, TcpStop, TcpGone);
  }

  lemma TwoSteps(c: Client, a: Action, b: Action)
    requires c.cursor <= |c.queue| && Enabled(c, a)
    requires var d := Step(c, a); d.cursor <= |d.queue| && Enabled(d, b)
    ensures EnabledRun(c, [a, b]) && Run(c, [a, b]) == Step(Step(c, a), b)
  {
    hide Step, Enabled;
    var d := Step(c, a);
    assert [a, b][1..] == [b] && [b][1..] == [];
    assert EnabledRun(Step(d, b), []) && Run(Step(d, b), []) == Step(d, b);
    assert EnabledRun(d, [b]) && Run(d, [b]) == Step(d, b);
  }

  lemma AfterFirst(c: Client, a: Action, rest: seq<Action>)
    requires c.cursor <= |c.queue| && Enabled(c, a) && EnabledRun(Step(c, a), rest)
    ensures EnabledRun(c, [a] + rest) && Run(c, [a] + rest) == Run(Step(c, a), rest)
  {
    hide Step, Enabled;
    assert ([a] + rest)[1..] == rest;
  }

  /** A refused CONNECT: the connection closes, and onDisconnect is told the return code. */
  lemma RefusalReported(c: Client, sessionPresent: byte, returnCode: byte, mem: Memory)
    requires Basic(c) && c.state == ConnectingMqtt && returnCode != 0
    ensures var acts := [Received(P.Connack(sessionPresent, returnCode), mem)] + [TcpStop, TcpGone];
            && EnabledRun(c, acts)
            && var d := Run(c, acts);
            && d.state == Disconnected && d.h.notes == c.h.notes + [OnDisconnect(returnCode)]
            && forall p :: p in d.queue <==> p in c.queue && Lasting(p)
  {
    var a := Received(P.Connack(sessionPresent, returnCode), mem);
    StepFate(c, a);
    StepBasic(c, a);
    var d := Step(c, a);
    assert d.queue == c.queue && d.h.notes == c.h.notes;
    hide Step, Basic, Lasting;
    ClosesDown(d);
    AfterFirst(c, a, [TcpStop, TcpGone]);
  }

  /** disconnect(true), from every state with a connection or an attempt at one. */
  lemma ForcedDisconnect(c: Client)
    requires Basic(c) && 1 <= Number(c.state) <= 6
    ensures var acts := [DoDisconnect(true)] + [TcpStop, TcpGone];
            && EnabledRun(c, acts)
            && var d := Run(c, acts);
            && d.state == Disconnected && d.h.notes == c.h.notes + [OnDisconnect(c.reason)]
            && forall p :: p in d.queue <==> p in c.queue && Lasting(p)
  {
    var a := DoDisconnect(true);
    StepFate(c, a);
    StepBasic(c, a);
    var d := Step(c, a);
    assert d == c.(state := DisconnectingTcp1);
    hide Step, Basic, Lasting;
    ClosesDown(d);
    AfterFirst(c, a, [TcpStop, TcpGone]);
  }

  /** disconnect(false) with nothing left to send: DISCONNECT is written, and onDisconnect is told 0. */
  lemma GracefulDisconnect(c: Client, w: nat, now: nat)
    requires Basic(c) && c.state == Connected && c.queue == [] && c.bytesSent == 0 && w >= 2
    ensures var acts := [DoDisconnect(false), Goodbye(Granted)] + ([SendAndAdvance(w, now)] + [TcpStop, TcpGone]);
            && EnabledRun(c, acts)
            && var d := Run(c, acts);
               d.state == Disconnected && d.queue == [] && d.h.notes == c.h.notes + [OnDisconnect(0)]
    ensures var acts := [DoDisconnect(false), Goodbye(Granted)];
            && EnabledRun(c, acts)
            && var d := Run(c, acts);
            && d.cursor <= |d.queue| && Enabled(d, SendAndAdvance(w, now))
            && Step(d, SendAndAdvance(w, now)).h.wire == c.h.wire + [0xE0, 0]
  {
    hide Step, Basic, Enabled, Talking;
    var a, b, s := DoDisconnect(false), Goodbye(Granted), SendAndAdvance(w, now);
    GoodbyeQueued(c);
    var c2 := Step(Step(c, a), b);
    FarewellWritten(c2, w, now);
    StepBasic(c2, s);
    TwoSteps(c, a, b);
    ClosesDown(Step(c2, s));
    NothingIn(Run(Step(c2, s), [TcpStop, TcpGone]).queue);
    AfterFirst(c2, s, [TcpStop, TcpGone]);
    RunAppend(c, [a, b], [s] + [TcpStop, TcpGone]);
  }

  lemma NothingIn<A>(q: seq<A>)
    ensures (forall p :: p !in q) ==> q == []
  {
    if q != [] { assert q[0] in q; }
  }

  lemma GoodbyeQueued(c: Client)
    requires Basic(c) && c.state == Connected && c.queue == [] && c.bytesSent == 0
    ensures var a, b := DoDisconnect(false), Goodbye(Granted);
            && c.cursor <= |c.queue| && Enabled(c, a) && Step(c, a).cursor <= |Step(c, a).queue| && Enabled(Step(c, a), b)
            && var d := Step(Step(c, a), b);
            && Basic(d) && Talking(d) && d.queue == [Item([0xE0, 0], 0, 0, c.h.serials, false)] && d.cursor == 0 && d.bytesSent == 0
            && d.h.wire == c.h.wire && d.h.notes == c.h.notes
  {
    StepBasic(c, DoDisconnect(false));
    var d := Step(c, DoDisconnect(false));
    assert d == c.(state := DisconnectingMqtt1);
    StepBasic(d, Goodbye(Granted));
    assert c.h.notes + [] == c.h.notes;
  }

  lemma FarewellWritten(c: Client, w: nat, now: nat)
    requires Basic(c) && Talking(c) && c.cursor == 0 && c.bytesSent == 0 && w >= 2
    requires |c.queue| == 1 && c.queue[0].bytes == [0xE0, 0] && c.queue[0].id == 0
    ensures c.cursor <= |c.queue| && Enabled(c, SendAndAdvance(w, now))
    ensures var d := Step(c, SendAndAdvance(w, now));
            && d.state == DisconnectingTcp1 && d.reason == 0 && d.queue == [] && d.h.notes == c.h.notes && d.h.wire == c.h.wire + [0xE0, 0]
  {
    hide NonEmpty;
    assert c.queue[0].bytes[0..2] == [0xE0, 0];
  }
}
