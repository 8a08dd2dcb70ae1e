/**
  One `loop` pass as a list of actions. What the world does to a pass, the transport, the clock, memory, and
  the user calls made from callbacks, is an environment fixed beforehand and arbitrary.
 */
module ClientLoop {
  import opened Bytes
  import opened Constants
  import opened Options
  import opened PacketSpec
  import opened ClientSpec
  import opened ClientRuns
  import opened ClientLifecycle
  import P = ParserSpec

  // for one received packet: the allocator, and the user calls its callback makes
  datatype Reply = Reply(mem: Memory, calls: seq<Action>)

  datatype World = World(
    now: nat,                  // millis(), taken as constant during a pass
    tcpConnect: bool,
    connected: bool,
    disconnected: bool,
    writes: nat -> nat,        // how much the transport takes per write
    chunk: seq<byte>,          // what one read delivers
    replies: nat -> Reply,
    ping: Memory,
    goodbye: Reply,
    onDisconnect: seq<Action>)

  predicate Calls(acts: seq<Action>) {
    forall a :: a in acts ==> UserCall(a) && (a.DoPublish? ==> a.qos <= 2)
  }

  // user code makes user calls
  ghost predicate Fair(w: World) {
    && Calls(w.goodbye.calls) && Calls(w.onDisconnect)
    && forall k :: Calls(w.replies(k).calls)
  }

  /** _checkOutbox: send and advance while the transport takes something and there is something to send. */
  function SendLoop(c: Client, writes: nat -> nat, k: nat, now: nat): seq<Action>
    requires c.cursor <= |c.queue|
    decreases |c.queue| - c.cursor, Available(c)
  {
    if Available(c) == 0 then []
    else
      var a := SendAndAdvance(writes(k), now);
      var d := Pump(c, writes(k), now);
      if Min(writes(k), Available(c)) == 0 || d.cursor >= |d.queue| then [a]
      else [a] + SendLoop(d, writes, k + 1, now)
  }

  predicate IsCallback(n: Note) {
    n.Fragment? || n.Completed? || n.OnConnect? || n.OnSubscribe? || n.OnUnsubscribe?
  }

  /** Handling the packet ends with a user callback. */
  predicate CallsBack(ns: seq<Note>) {
    ns != [] && IsCallback(ns[|ns| - 1])
  }

  // a PUBLISH is handed over unless its id is stored
  lemma MessageCallsBack(q: seq<Item>, e: P.Event, mem: Memory)
    requires e.Publish? && e.id < 65536
    ensures CallsBack(OnPublish(q, e, mem).notes) <==> !(QosOf(e.header) == 2 && FirstWith(q, PUBREC, e.id) < |q|)
  {
    hide FirstWith, QosOf, Last, Added, AckBytes;
  }

  // the parser states in which packet ids already are what they should be
  predicate Sound(s: P.State) {
    P.WellFormed(s) &&
    match s
    case InPayload(header, _, id, _, _) => Kind(header) == PUBLISH && id < 65536 && (QosBits(header) != 0 ==> id != 0)
    case InSuback(id, _, _) => 0 < id < 65536
    case _ => true
  }

  lemma StepSound(s: P.State, b: byte)
    requires Sound(s)
    ensures Sound(P.Step(s, b).state)
    ensures P.Step(s, b).event.Some? ==> WellFormedEvent(P.Step(s, b).event.value)
  {
    hide Kind, HighByte, P.HasFixedLength, P.CarriesId;
    P.StepWellFormed(s, b);
    if s.AwaitId2? { AwaitedId(s); }
  }

  lemma AwaitedId(s: P.State)
    requires P.WellFormed(s) && s.AwaitId2?
    ensures Kind(s.header) in {SUBACK, PUBLISH, PUBACK, PUBREC, PUBREL, PUBCOMP, UNSUBACK}
  {
    P.HeaderKinds(s.header);
  }

  /** Every packet the parser reports has a usable id. */
  lemma {:induction false} ParseSound(s: P.State, buf: seq<byte>)
    requires Sound(s) && s != P.Failed
    ensures Sound(P.Parse(s, buf).state)
    ensures P.Parse(s, buf).event.Some? ==> WellFormedEvent(P.Parse(s, buf).event.value)
    decreases |buf|
  {
    hide P.Step, WellFormedEvent;
    if buf != [] {
      P.ParseUnfold(s, buf);
      if s.InPayload? {
        PayloadSound(s, buf);
      } else {
        StepSound(s, buf[0]);
        var o := P.Step(s, buf[0]);
        if o.event == None && o.state != P.Failed { ParseSound(o.state, buf[1..]); }
      }
    } else {
      P.ParseEmpty(s);
    }
  }

  lemma PayloadSound(s: P.State, buf: seq<byte>)
    requires Sound(s) && s.InPayload? && buf != []
    ensures Sound(P.Parse(s, buf).state)
    ensures P.Parse(s, buf).event.Some? ==> WellFormedEvent(P.Parse(s, buf).event.value)
  {
  }

  datatype Intake = Intake(acts: seq<Action>, parser: P.State)

  // the actions of one received packet: its handler, then what its callback calls
  function Handling(c: Client, e: P.Event, r: Reply): seq<Action>
    requires c.cursor <= |c.queue| && Enabled(c, Received(e, r.mem))
  {
    [Received(e, r.mem)] + if CallsBack(NewNotes(c, Received(e, r.mem))) then r.calls else []
  }

  // d is c after the handler of e, and `callback` says whether a user callback runs behind it
  predicate Handled(c: Client, d: Client, e: P.Event, mem: Memory, callback: bool) {
    && c.cursor <= |c.queue| && Enabled(c, Received(e, mem))
    && d == Receive(c, e, mem) && callback == CallsBack(NewNotes(c, Received(e, mem)))
  }

  // whether the receive loop goes on after a packet
  predicate GoesOn(before: Client, e: P.Event, after: Client) {
    !(before.state == ConnectingMqtt && !e.Connack?) && !(e.Connack? && after.state != Connected)
  }

  lemma {:induction false} CallsEnabled(c: Client, acts: seq<Action>)
    requires Basic(c) && Calls(acts)
    ensures EnabledRun(c, acts) && Basic(Run(c, acts))
    decreases |acts|
  {
    hide Step;
    if acts != [] {
      assert acts[0] in acts;
      StepBasic(c, acts[0]);
      CallsEnabled(Step(c, acts[0]), acts[1..]);
    }
  }

  lemma HandlingEnabled(c: Client, e: P.Event, r: Reply)
    requires Basic(c) && Enabled(c, Received(e, r.mem)) && Calls(r.calls)
    ensures EnabledRun(c, Handling(c, e, r)) && Basic(Run(c, Handling(c, e, r)))
  {
    hide Step, NewNotes, Enabled;
    var a := Received(e, r.mem);
    StepBasic(c, a);
    var h := Handling(c, e, r);
    assert h[0] == a && (h[1..] == r.calls || h[1..] == []);
    CallsEnabled(Step(c, a), r.calls);
  }

  // states and CONNACK memory while packets are handled
  predicate Open(c: Client) {
    c.state == ConnectingMqtt || Talking(c)
  }

  // packets and user calls do not end the exchange of packets
  lemma TalkingStep(c: Client, a: Action)
    requires Basic(c) && Talking(c) && Enabled(c, a) && (a.Received? || UserCall(a))
    ensures Talking(Step(c, a))
  {
    SeenStays(c, a);
    if Plain(a) {
      hide Response, PublishBytes, SubscribeBytes, UnsubscribeBytes, Added;
    } else {
      hide ClearQueue, OnConnack;
      if a.Received? { ConnackState(c, a.e); }
      if a.DoClearQueue? { ClearBasic(c, if a.deleteSessionData then 2 else 0); }
    }
  }

  lemma {:induction false} CallsTalking(c: Client, acts: seq<Action>)
    requires Basic(c) && Talking(c) && Calls(acts) && EnabledRun(c, acts)
    ensures Talking(Run(c, acts))
    decreases |acts|
  {
    hide Step, Talking;
    if acts != [] {
      assert acts[0] in acts;
      StepBasic(c, acts[0]);
      TalkingStep(c, acts[0]);
      CallsTalking(Step(c, acts[0]), acts[1..]);
    }
  }

  // what handling a packet leaves: the connection is up, or on its way down
  predicate Up(c: Client, d: Client) {
    Basic(d) && 3 <= Number(d.state) <= 7 && (Talking(c) ==> Talking(d))
  }

  lemma HandlingUp(c: Client, e: P.Event, r: Reply)
    requires Basic(c) && Open(c) && Enabled(c, Received(e, r.mem)) && Calls(r.calls)
    requires EnabledRun(c, Handling(c, e, r))
    ensures Up(c, Run(c, Handling(c, e, r)))
  {
    hide Step, NewNotes, Enabled, CallsBack;
    var a, h := Received(e, r.mem), Handling(c, e, r);
    assert h[0] == a && (h[1..] == r.calls || h[1..] == []);
    HandlingEnabled(c, e, r);
    StepBasic(c, a);
    if Talking(c) {
      TalkingStep(c, a);
      CallsTalking(Step(c, a), h[1..]);
    } else {
      ReceivedRange(c, e, r.mem);
      CallsRange(Step(c, a), h[1..]);
    }
  }

  lemma ReceivedRange(c: Client, e: P.Event, mem: Memory)
    requires Basic(c) && c.state == ConnectingMqtt && Enabled(c, Received(e, mem))
    ensures 3 <= Number(Step(c, Received(e, mem)).state) <= 7
  {
    hide OnConnack;
    if e.Connack? { ConnackState(c, e); }
  }

  lemma {:induction false} CallsRange(c: Client, acts: seq<Action>)
    requires Basic(c) && 3 <= Number(c.state) <= 7 && Calls(acts) && EnabledRun(c, acts)
    ensures 3 <= Number(Run(c, acts).state) <= 7
    decreases |acts|
  {
    if acts != [] {
      assert acts[0] in acts;
      StepBasic(c, acts[0]);
      CallRange(c, acts[0]);
      CallsRange(Step(c, acts[0]), acts[1..]);
    }
  }

  lemma CallRange(c: Client, a: Action)
    requires Basic(c) && 3 <= Number(c.state) <= 7 && UserCall(a) && Enabled(c, a)
    ensures 3 <= Number(Step(c, a).state) <= 7
  {
    hide PublishBytes, SubscribeBytes, UnsubscribeBytes, Added;
    if a.DoClearQueue? { ClearBasic(c, if a.deleteSessionData then 2 else 0); }
  }

  lemma StaysOpen(c: Client, e: P.Event, r: Reply)
    requires Basic(c) && Open(c) && Enabled(c, Received(e, r.mem)) && Calls(r.calls)
    requires EnabledRun(c, Handling(c, e, r)) && Basic(Run(c, Handling(c, e, r))) && GoesOn(c, e, Run(c, Handling(c, e, r)))
    ensures Open(Run(c, Handling(c, e, r)))
  {
    hide Step, NewNotes, Enabled, CallsBack;
    var a, h := Received(e, r.mem), Handling(c, e, r);
    assert h[0] == a && (h[1..] == r.calls || h[1..] == []);
    if c.state != ConnectingMqtt {
      StepBasic(c, a);
      TalkingStep(c, a);
      CallsTalking(Step(c, a), h[1..]);
    }
  }

  /** _checkIncoming on the bytes of one read. */
  ghost function Receiving(c: Client, s: P.State, buf: seq<byte>, replies: nat -> Reply, k: nat): (r: Intake)
    requires Basic(c) && Open(c) && Sound(s) && s != P.Failed && forall i :: Calls(replies(i).calls)
    ensures EnabledRun(c, r.acts) && Up(c, Run(c, r.acts)) && Sound(r.parser)
    // a parser that has failed is not asked again: the connection is on its way down
    ensures r.parser == P.Failed ==> Run(c, r.acts).state == DisconnectingTcp1
    decreases |buf|
  {
    hide Step, P.Step, P.Parse, NewNotes, Handling, Sound, WellFormedEvent, CallsBack, Basic, GoesOn;
    OpenUp(c);
    if buf == [] then Intake([], s)
    else
      ParseSound(s, buf);
      var p := P.Parse(s, buf);
      if p.state == P.Failed then
        GarbledUp(c);
        Intake([Garbled], p.state)
      else if p.event == None then Intake([], p.state)
      else
        var e := p.event.value;
        ReceivedEnabled(c, e, replies(k).mem);
        HandlingEnabled(c, e, replies(k));
        HandlingUp(c, e, replies(k));
        var acts := Handling(c, e, replies(k));
        var d := Run(c, acts);
        if !GoesOn(c, e, d) then Intake(acts, p.state)
        else
          StaysOpen(c, e, replies(k));
          var rest := Receiving(d, p.state, buf[p.consumed..], replies, k + 1);
          RunAppend(c, acts, rest.acts);
          UpAgain(c, d, Run(d, rest.acts));
          Intake(acts + rest.acts, rest.parser)
  }

  // fit for the receive loop
  ghost predicate Ready(c: Client, s: P.State, replies: nat -> Reply) {
    Basic(c) && Open(c) && Sound(s) && s != P.Failed && forall i :: Calls(replies(i).calls)
  }

  // one parse call and its handling, after which the loop goes on with d, t and the rest of the buffer
  ghost predicate Turned(c: Client, s: P.State, buf: seq<byte>, replies: nat -> Reply, k: nat,
                         acts: seq<Action>, d: Client, t: P.State, consumed: nat)
    requires Ready(c, s, replies)
  {
    EnabledRun(c, acts) && d == Run(c, acts) && Ready(d, t, replies) && 1 <= consumed <= |buf| &&
    var rest := Receiving(d, t, buf[consumed..], replies, k + 1);
    Receiving(c, s, buf, replies, k) == Intake(acts + rest.acts, rest.parser)
  }

  // one parse call and its handling, after which the loop returns
  ghost predicate Stopped(c: Client, s: P.State, buf: seq<byte>, replies: nat -> Reply, k: nat, acts: seq<Action>, d: Client, t: P.State)
    requires Ready(c, s, replies)
  {
    EnabledRun(c, acts) && d == Run(c, acts) && Receiving(c, s, buf, replies, k) == Intake(acts, t)
  }

  /** What a parse call of the receive loop leads to. */
  lemma ReceivingTurn(c: Client, s: P.State, buf: seq<byte>, replies: nat -> Reply, k: nat)
    requires Ready(c, s, replies) && buf != []
    ensures var p := P.Parse(s, buf);
            && (p.state == P.Failed ==> EnabledRun(c, [Garbled]) && Stopped(c, s, buf, replies, k, [Garbled], Run(c, [Garbled]), P.Failed))
            && (p.state != P.Failed && p.event == None ==> Turned(c, s, buf, replies, k, [], c, p.state, |buf|))
            && (p.state != P.Failed && p.event.Some? ==> Reported(c, s, p, p.event.value, buf, replies, k))
  {
    assert P.WellFormed(s) && Basic(c) && Open(c);
    var p := P.Parse(s, buf);
    if p.state == P.Failed {
      hide P.Parse, Sound, Run, EnabledRun, Stopped, Ready, P.WellFormed;
      GarbledUp(c);
      GarbledTurn(c, s, buf, replies, k);
    } else if p.event == None {
      hide P.Parse, Sound, Run, EnabledRun, Turned, Ready, P.WellFormed;
      WaitingTurn(c, s, buf, replies, k);
    } else {
      hide P.Parse, Sound, Run, EnabledRun, Turned, Ready, Reported, P.WellFormed;
      ReportedTurn(c, s, buf, replies, k);
    }
  }

  lemma GarbledTurn(c: Client, s: P.State, buf: seq<byte>, replies: nat -> Reply, k: nat)
    requires Ready(c, s, replies) && buf != [] && P.Parse(s, buf).state == P.Failed && EnabledRun(c, [Garbled])
    ensures Stopped(c, s, buf, replies, k, [Garbled], Run(c, [Garbled]), P.Failed)
  {
    hide Step, P.Step, P.Parse, NewNotes, Handling, Sound, WellFormedEvent, CallsBack, Basic, GoesOn, Talking, Run, EnabledRun;
  }

  lemma WaitingTurn(c: Client, s: P.State, buf: seq<byte>, replies: nat -> Reply, k: nat)
    requires Ready(c, s, replies) && buf != [] && P.Parse(s, buf).state != P.Failed && P.Parse(s, buf).event == None
    ensures Turned(c, s, buf, replies, k, [], c, P.Parse(s, buf).state, |buf|)
  {
    ParseSound(s, buf);
    OpenUp(c);
    hide Step, P.Step, P.Parse, NewNotes, Handling, Sound, WellFormedEvent, CallsBack, Basic, GoesOn, Talking, Run, EnabledRun;
    assert buf[|buf|..] == [];
  }

  lemma ReportedTurn(c: Client, s: P.State, buf: seq<byte>, replies: nat -> Reply, k: nat)
    requires Ready(c, s, replies) && buf != [] && P.Parse(s, buf).state != P.Failed && P.Parse(s, buf).event.Some?
    ensures Reported(c, s, P.Parse(s, buf), P.Parse(s, buf).event.value, buf, replies, k)
  {
    ParseSound(s, buf);
    OpenUp(c);
    hide Step, P.Step, P.Parse, NewNotes, Handling, Sound, WellFormedEvent, CallsBack, Basic, GoesOn, Talking, Run, EnabledRun;
    var e := P.Parse(s, buf).event.value;
    ReceivedEnabled(c, e, replies(k).mem);
    HandlingEnabled(c, e, replies(k));
    HandlingUp(c, e, replies(k));
    if GoesOn(c, e, Run(c, Handling(c, e, replies(k)))) { StaysOpen(c, e, replies(k)); }
  }

  // the parser has reported a packet: it is handled, and the loop goes on with the rest of the buffer or stops
  ghost predicate Reported(c: Client, s: P.State, p: P.Parsed, e: P.Event, buf: seq<byte>, replies: nat -> Reply, k: nat)
    requires Ready(c, s, replies)
  {
    c.cursor <= |c.queue| && Enabled(c, Received(e, replies(k).mem)) &&
    var acts := Handling(c, e, replies(k));
    EnabledRun(c, acts) &&
    if GoesOn(c, e, Run(c, acts)) then Turned(c, s, buf, replies, k, acts, Run(c, acts), p.state, p.consumed)
    else Stopped(c, s, buf, replies, k, acts, Run(c, acts), p.state)
  }

  // the receive loop has handled `done` and has d, t and the buffer from `index` on before it
  ghost predicate Midway(c: Client, s: P.State, buf: seq<byte>, replies: nat -> Reply, done: seq<Action>, d: Client, t: P.State, index: nat, k: nat)
    requires Ready(c, s, replies)
  {
    EnabledRun(c, done) && d == Run(c, done) && Ready(d, t, replies) && index <= |buf| &&
    var rest := Receiving(d, t, buf[index..], replies, k);
    Receiving(c, s, buf, replies, 0) == Intake(done + rest.acts, rest.parser)
  }

  lemma MidwayStarts(c: Client, s: P.State, buf: seq<byte>, replies: nat -> Reply)
    requires Ready(c, s, replies)
    ensures Midway(c, s, buf, replies, [], c, s, 0, 0)
  {
    OpenUp(c);
    hide Receiving, Sound, Basic, Open, Calls;
    assert buf[0..] == buf;
    var r := Receiving(c, s, buf, replies, 0);
    assert [] + r.acts == r.acts;
  }

  lemma MidwayOn(c: Client, s: P.State, buf: seq<byte>, replies: nat -> Reply, done: seq<Action>, d: Client, t: P.State, index: nat, k: nat,
                 acts: seq<Action>, e: Client, u: P.State, consumed: nat)
    requires Ready(c, s, replies) && Midway(c, s, buf, replies, done, d, t, index, k)
    requires Turned(d, t, buf[index..], replies, k, acts, e, u, consumed)
    ensures Ready(e, u, replies) && Midway(c, s, buf, replies, done + acts, e, u, index + consumed, k + 1)
  {
    hide Receiving, Ready, Run, EnabledRun;
    RunAppend(c, done, acts);
    assert buf[index..][consumed..] == buf[index + consumed..];
    assert Ready(e, u, replies);
    ReadyParts(e, u, replies);
    Assoc(done, acts, Receiving(e, u, buf[index + consumed..], replies, k + 1).acts);
  }

  lemma ReadyParts(c: Client, s: P.State, replies: nat -> Reply)
    requires Ready(c, s, replies)
    ensures Basic(c) && Open(c) && Sound(s) && s != P.Failed && forall i :: Calls(replies(i).calls)
  {
  }

  lemma MidwayStops(c: Client, s: P.State, buf: seq<byte>, replies: nat -> Reply, done: seq<Action>, d: Client, t: P.State, index: nat, k: nat,
                    acts: seq<Action>, e: Client, u: P.State)
    requires Ready(c, s, replies) && Midway(c, s, buf, replies, done, d, t, index, k)
    requires Stopped(d, t, buf[index..], replies, k, acts, e, u)
    ensures Stopped(c, s, buf, replies, 0, done + acts, e, u)
  {
    hide Receiving, Ready, Run, EnabledRun;
    RunAppend(c, done, acts);
  }

  lemma MidwayEnds(c: Client, s: P.State, buf: seq<byte>, replies: nat -> Reply, done: seq<Action>, d: Client, t: P.State, k: nat)
    requires Ready(c, s, replies) && Midway(c, s, buf, replies, done, d, t, |buf|, k)
    ensures Stopped(c, s, buf, replies, 0, done, d, t)
  {
    assert buf[|buf|..] == [] && done + [] == done;
    hide Run, EnabledRun, Sound, Basic, Open;
  }

  // a handler followed by its callback is a run
  lemma HandlingRun(c: Client, e: P.Event, r: Reply)
    requires c.cursor <= |c.queue| && Enabled(c, Received(e, r.mem))
    ensures var a, acts := Received(e, r.mem), Handling(c, e, r);
            var rest := if CallsBack(NewNotes(c, a)) then r.calls else [];
            EnabledRun(Step(c, a), rest) ==> EnabledRun(c, acts) && Run(c, acts) == Run(Step(c, a), rest)
  {
    hide Step, NewNotes, Enabled, CallsBack;
    var a, acts := Received(e, r.mem), Handling(c, e, r);
    assert acts[0] == a && (acts[1..] == r.calls || acts[1..] == []);
  }

  lemma OpenUp(c: Client)
    requires Basic(c) && Open(c)
    ensures Up(c, c) && c.cursor <= |c.queue| && EnabledRun(c, []) && Run(c, []) == c
  {
  }

  lemma UpAgain(c: Client, d: Client, e: Client)
    requires Up(c, d) && Up(d, e)
    ensures Up(c, e)
  {
  }

  lemma ReceivedEnabled(c: Client, e: P.Event, mem: Memory)
    requires Open(c) && WellFormedEvent(e)
    ensures Enabled(c, Received(e, mem))
  {
  }

  lemma GarbledUp(c: Client)
    requires Basic(c) && Open(c)
    ensures EnabledRun(c, [Garbled]) && Up(c, Run(c, [Garbled])) && Run(c, [Garbled]).state == DisconnectingTcp1
  {
    StepBasic(c, Garbled);
    OneEnabled(c, Garbled);
  }

  // ---- the pass ----

  predicate Fits(c: Client, s: P.State) {
    Sound(s) && (3 <= Number(c.state) <= 6 ==> s != P.Failed)
  }

  // the connection stays, or is given up
  predicate Same(c: Client, d: Client) {
    d.state == c.state || d.state == DisconnectingTcp1
  }

  lemma FitsOn(c: Client, d: Client, s: P.State)
    requires Fits(c, s) && Same(c, d)
    ensures Fits(d, s)
  {
  }

  // _checkIncoming: one read
  ghost function Incoming(c: Client, s: P.State, w: World): (r: Intake)
    requires Basic(c) && Open(c) && Sound(s) && s != P.Failed && Fair(w)
    ensures EnabledRun(c, r.acts) && Up(c, Run(c, r.acts)) && Fits(Run(c, r.acts), r.parser)
  {
    hide Step, Basic, Receiving, Enabled, Run, EnabledRun, Sound, Fits, Up, Ready;
    assert Ready(c, s, w.replies) by { ReadyIs(c, s, w); }
    HeardReady(c, s, w);
    if w.chunk == [] then
      NothingFits(c, s);
      Intake([], s)
    else
      ReadyParts(Step(c, Heard(w.now)), s, w.replies);
      var r := Receiving(Step(c, Heard(w.now)), s, w.chunk, w.replies, 0);
      HeardFits(c, w, r);
      Intake([Heard(w.now)] + r.acts, r.parser)
  }

  lemma ReadyIs(c: Client, s: P.State, w: World)
    requires Basic(c) && Open(c) && Sound(s) && s != P.Failed && Fair(w)
    ensures Ready(c, s, w.replies)
  {
  }

  lemma NothingFits(c: Client, s: P.State)
    requires Basic(c) && Open(c) && Sound(s) && s != P.Failed
    ensures EnabledRun(c, []) && Up(c, Run(c, [])) && Fits(Run(c, []), s)
  {
    hide Sound;
    OpenUp(c);
  }

  // what the receive loop makes of a read, with the note that the server was heard before it
  lemma HeardFits(c: Client, w: World, r: Intake)
    requires Basic(c) && Open(c)
    requires Enabled(c, Heard(w.now)) && c.cursor <= |c.queue| && Step(c, Heard(w.now)) == c.(lastServerActivity := w.now)
    requires var d := Step(c, Heard(w.now));
             && EnabledRun(d, r.acts) && Up(d, Run(d, r.acts)) && Sound(r.parser)
             && (r.parser == P.Failed ==> Run(d, r.acts).state == DisconnectingTcp1)
    ensures var acts := [Heard(w.now)] + r.acts; EnabledRun(c, acts) && Up(c, Run(c, acts)) && Fits(Run(c, acts), r.parser)
  {
    hide Step, Basic, Sound, Enabled;
    assert ([Heard(w.now)] + r.acts)[1..] == r.acts;
  }

  lemma HeardReady(c: Client, s: P.State, w: World)
    requires Ready(c, s, w.replies)
    ensures Enabled(c, Heard(w.now)) && c.cursor <= |c.queue| && Ready(Step(c, Heard(w.now)), s, w.replies)
    ensures Step(c, Heard(w.now)) == c.(lastServerActivity := w.now)
  {
  }

  lemma NothingRead(c: Client, s: P.State, w: World)
    requires Fair(w) && Basic(c) && Open(c) && Sound(s) && s != P.Failed && w.chunk == []
    ensures Incoming(c, s, w) == Intake([], s) && Run(c, []) == c
  {
  }

  // a read, and what the receive loop makes of it
  lemma IncomingIs(c: Client, s: P.State, w: World, acts: seq<Action>, d: Client, t: P.State)
    requires Fair(w) && Ready(c, s, w.replies)
    requires Enabled(c, Heard(w.now)) && c.cursor <= |c.queue| && Ready(Step(c, Heard(w.now)), s, w.replies)
    requires w.chunk != [] && Stopped(Step(c, Heard(w.now)), s, w.chunk, w.replies, 0, acts, d, t)
    ensures var r := Incoming(c, s, w); d == Run(c, r.acts) && t == r.parser
  {
    ReadyParts(c, s, w.replies);
    hide Step, Enabled, Sound, Receiving, Basic, Talking;
    var r := Receiving(Step(c, Heard(w.now)), s, w.chunk, w.replies, 0);
    assert ([Heard(w.now)] + r.acts)[1..] == r.acts;
  }

  lemma {:induction false} SendLoopEnabled(c: Client, writes: nat -> nat, k: nat, now: nat)
    requires Basic(c) && Talking(c)
    ensures var acts := SendLoop(c, writes, k, now);
            EnabledRun(c, acts) && Basic(Run(c, acts)) && Talking(Run(c, acts))
    decreases |c.queue| - c.cursor, Available(c)
  {
    if Available(c) > 0 {
      hide Step, Enabled, Pump, Basic, SendLoop, Talking, AfterTurn, AdvanceOutbox, SendPacket, Removable;
      var a := SendAndAdvance(writes(k), now);
      AfterTurnIsPump(c, writes(k), now);
      var d := Pump(c, writes(k), now);
      assert EnabledRun(d, []) && Run(d, []) == d;
      SendLoopUnfold(c, writes, k, now);
      if Min(writes(k), Available(c)) > 0 && d.cursor < |d.queue| {
        SendLoopEnabled(d, writes, k + 1, now);
        assert ([a] + SendLoop(d, writes, k + 1, now))[1..] == SendLoop(d, writes, k + 1, now);
      } else {
        assert [a][1..] == [];
      }
    }
  }

  lemma SendLoopUnfold(c: Client, writes: nat -> nat, k: nat, now: nat)
    requires c.cursor <= |c.queue| && Available(c) > 0
    ensures var d := Pump(c, writes(k), now);
            d.cursor <= |d.queue| &&
            SendLoop(c, writes, k, now) ==
              if Min(writes(k), Available(c)) == 0 || d.cursor >= |d.queue| then [SendAndAdvance(writes(k), now)]
              else [SendAndAdvance(writes(k), now)] + SendLoop(d, writes, k + 1, now)
  {
  }

  // the client after one turn of the send loop
  function AfterTurn(d: Client, w: nat, now: nat): Client {
    if Min(w, Available(d)) > 0 then AdvanceOutbox(SendPacket(d, w, now)) else SendPacket(d, w, now)
  }

  lemma AfterTurnIsPump(d: Client, w: nat, now: nat)
    requires Basic(d) && Talking(d)
    ensures Pump(d, w, now) == AfterTurn(d, w, now)
    ensures Enabled(d, SendAndAdvance(w, now)) && Step(d, SendAndAdvance(w, now)) == AfterTurn(d, w, now)
    ensures Basic(AfterTurn(d, w, now)) && Talking(AfterTurn(d, w, now)) && SendPacket(d, w, now).h.connackSeen
    ensures Available(d) == 0 ==> AfterTurn(d, w, now) == d
  {
    StepBasic(d, SendAndAdvance(w, now));
    SendBasic(d, w, now);
    AdvanceState(SendPacket(d, w, now));
  }

  /** The send loop terminates: a turn that goes on has fewer packets from the cursor on, or fewer bytes left of the current one. */
  lemma SendLoopProgress(d: Client, w: nat, now: nat)
    requires Basic(d)
    ensures var e := AfterTurn(d, w, now);
            Min(w, Available(d)) > 0 && e.cursor < |e.queue| ==>
              |e.queue| - e.cursor < |d.queue| - d.cursor || (|e.queue| - e.cursor == |d.queue| - d.cursor && Available(e) < Available(d))
  {
  }

  // what one turn adds to the run
  lemma SendLoopTurn(c: Client, done: seq<Action>, d: Client, writes: nat -> nat, k: nat, now: nat)
    requires Basic(d) && Talking(d) && EnabledRun(c, done) && d == Run(c, done)
    requires SendLoop(c, writes, 0, now) == done + SendLoop(d, writes, k, now)
    ensures var a, w, total := SendAndAdvance(writes(k), now), Min(writes(k), Available(d)), SendLoop(c, writes, 0, now);
            var e := AfterTurn(d, writes(k), now);
            && SendPacket(d, writes(k), now).h.connackSeen && Basic(e) && Talking(e)
            && (w == 0 || e.cursor >= |e.queue| ==> EnabledRun(c, total) && Run(c, total) == e)
            && (w > 0 && e.cursor < |e.queue| ==>
                  EnabledRun(c, done + [a]) && Run(c, done + [a]) == e && total == done + [a] + SendLoop(e, writes, k + 1, now))
  {
    var a := SendAndAdvance(writes(k), now);
    AfterTurnIsPump(d, writes(k), now);
    OneEnabled(d, a);
    RunAppend(c, done, [a]);
    if Available(d) == 0 {
      assert done + [] == done;
    } else {
      SendLoopUnfold(d, writes, k, now);
      hide Run, EnabledRun, SendLoop, Basic, Talking, AfterTurn, Pump;
      var e := AfterTurn(d, writes(k), now);
      Assoc(done, [a], SendLoop(e, writes, k + 1, now));
    }
  }

  /** The pass while packets travel: send, receive, keep-alive, retransmission. */
  ghost function TalkingPass(c: Client, s: P.State, w: World): (r: Intake)
    requires Basic(c) && Talking(c) && Sound(s) && s != P.Failed && Fair(w)
    ensures EnabledRun(c, r.acts) && Basic(Run(c, r.acts)) && Fits(Run(c, r.acts), r.parser)
  {
    SendLoopEnabled(c, w.writes, 0, w.now);
    var sent := SendLoop(c, w.writes, 0, w.now);
    var c1 := Run(c, sent);
    var got := Incoming(c1, s, w);
    var c2 := Run(c1, got.acts);
    var checks := [Ping(w.now, w.ping), Timeout(w.now)];
    ChecksEnabled(c2, w);
    FitsOn(c2, Run(c2, checks), got.parser);
    hide Fits, SendLoop, Same, Run, EnabledRun, Talking, Basic, Incoming, Enabled, Step;
    RunAppend(c1, got.acts, checks);
    RunAppend(c, sent, got.acts + checks);
    Intake(sent + (got.acts + checks), got.parser)
  }

  // the client when the send loop is done
  ghost function AfterSending(c: Client, w: World): (d: Client)
    requires Basic(c) && Talking(c)
    ensures Basic(d) && Talking(d)
  {
    SendLoopEnabled(c, w.writes, 0, w.now);
    Run(c, SendLoop(c, w.writes, 0, w.now))
  }

  // the parts of the pass, one after the other
  lemma TalkingPassIs(c: Client, s: P.State, w: World)
    requires Basic(c) && Talking(c) && Sound(s) && s != P.Failed && Fair(w)
    ensures var c1 := AfterSending(c, w);
            var got := Incoming(c1, s, w);
            EnabledRun(c1, got.acts) &&
            var c2 := Run(c1, got.acts);
            var c3 := CheckPing(c2, w.now, w.ping);
            Basic(c2) && Talking(c2) && Basic(c3) &&
            TalkingPass(c, s, w).parser == got.parser && Run(c, TalkingPass(c, s, w).acts) == CheckTimeout(c3, w.now)
  {
    SendLoopEnabled(c, w.writes, 0, w.now);
    var sent := SendLoop(c, w.writes, 0, w.now);
    var c1 := Run(c, sent);
    var got := Incoming(c1, s, w);
    var c2 := Run(c1, got.acts);
    var a, b := Ping(w.now, w.ping), Timeout(w.now);
    ChecksEnabled(c2, w);
    StepBasic(c2, a);
    PingTalking(c2, w);
    ChecksAre(c2, w);
    hide Fits, SendLoop, Same, Run, EnabledRun, Talking, Basic, Incoming, Enabled, Step, CheckPing, CheckTimeout;
    RunAppend(c1, got.acts, [a, b]);
    RunAppend(c, sent, got.acts + [a, b]);
  }

  lemma ChecksAre(c: Client, w: World)
    requires Basic(c) && Talking(c)
    ensures var checks := [Ping(w.now, w.ping), Timeout(w.now)];
            EnabledRun(c, checks) && Run(c, checks) == CheckTimeout(CheckPing(c, w.now, w.ping), w.now)
    ensures Basic(CheckPing(c, w.now, w.ping))
  {
    var a, b := Ping(w.now, w.ping), Timeout(w.now);
    ChecksEnabled(c, w);
    StepBasic(c, a);
    PingTalking(c, w);
    var d := Step(c, a);
    assert d == CheckPing(c, w.now, w.ping) && Enabled(d, b) && Step(d, b) == CheckTimeout(d, w.now);
    hide Step, Basic, Talking, CheckPing, CheckTimeout, Enabled;
    assert [a, b][1..] == [b] && [b][1..] == [];
    assert Run(Step(d, b), []) == Step(d, b);
  }

  lemma ChecksEnabled(c: Client, w: World)
    requires Basic(c) && Talking(c)
    ensures var checks := [Ping(w.now, w.ping), Timeout(w.now)];
            EnabledRun(c, checks) && Basic(Run(c, checks)) && Same(c, Run(c, checks))
  {
    var a, b := Ping(w.now, w.ping), Timeout(w.now);
    StepBasic(c, a);
    PingTalking(c, w);
    var d := Step(c, a);
    StepBasic(d, b);
    TimeoutSame(d, w.now);
    hide Step, Basic, Talking;
    assert [a, b][1..] == [b] && [b][1..] == [];
    assert Run(Step(d, b), []) == Step(d, b);
    assert EnabledRun(d, [b]);
  }

  lemma TimeoutSame(c: Client, now: nat)
    requires Basic(c) && Talking(c)
    ensures Step(c, Timeout(now)).state == c.state
  {
    hide Elapsed;
  }

  lemma PingTalking(c: Client, w: World)
    requires Basic(c) && Talking(c)
    ensures Talking(Step(c, Ping(w.now, w.ping))) && Same(c, Step(c, Ping(w.now, w.ping)))
  {
    hide Elapsed, Added;
    SeenStays(c, Ping(w.now, w.ping));
  }

  /** The pass between connect() and CONNACK: send without advancing, receive, keep-alive. */
  ghost function ConnectingPass(c: Client, s: P.State, w: World): (r: Intake)
    requires Basic(c) && c.state == ConnectingMqtt && Sound(s) && s != P.Failed && Fair(w)
    ensures EnabledRun(c, r.acts) && Basic(Run(c, r.acts)) && Fits(Run(c, r.acts), r.parser)
  {
    hide Step, Basic, SendPacket, Receiving, Incoming, Enabled, Run, EnabledRun, Sound, Fits, Same;
    var sent := if Available(c) == 0 then [] else [SendOnly(w.writes(0), w.now)];
    SendOnlyStep(c, w);
    var c1 := Run(c, sent);
    var got := Incoming(c1, s, w);
    var c2 := Run(c1, got.acts);
    var check := Ping(w.now, w.ping);
    PingIs(c1, c2, w);
    FitsOn(c2, Run(c2, [check]), got.parser);
    RunAppend(c1, got.acts, [check]);
    RunAppend(c, sent, got.acts + [check]);
    Intake(sent + (got.acts + [check]), got.parser)
  }

  // its parts, one after the other
  lemma ConnectingPassIs(c: Client, s: P.State, w: World)
    requires Basic(c) && c.state == ConnectingMqtt && Sound(s) && s != P.Failed && Fair(w)
    ensures var c1 := SendPacket(c, w.writes(0), w.now);
            Basic(c1) && c1.state == ConnectingMqtt &&
            var got := Incoming(c1, s, w);
            EnabledRun(c1, got.acts) &&
            var c2 := Run(c1, got.acts);
            3 <= Number(c2.state) <= 7 &&
            ConnectingPass(c, s, w).parser == got.parser && Run(c, ConnectingPass(c, s, w).acts) == CheckPing(c2, w.now, w.ping)
  {
    SendBasic(c, w.writes(0), w.now);
    SendOnlyStep(c, w);
    var a, check := SendOnly(w.writes(0), w.now), Ping(w.now, w.ping);
    var sent := if Available(c) == 0 then [] else [a];
    var c1 := Run(c, sent);
    assert c1 == SendPacket(c, w.writes(0), w.now) by { SendOnlyIs(c, w); }
    hide Step, Basic, SendPacket, Receiving, Incoming, Run, EnabledRun, Sound;
    var got := Incoming(c1, s, w);
    var c2 := Run(c1, got.acts);
    PingIs(c1, c2, w);
    RunAppend(c1, got.acts, [check]);
    RunAppend(c, sent, got.acts + [check]);
  }

  lemma SendOnlyIs(c: Client, w: World)
    requires Basic(c) && c.state == ConnectingMqtt
    ensures var sent := if Available(c) == 0 then [] else [SendOnly(w.writes(0), w.now)];
            EnabledRun(c, sent) && Run(c, sent) == SendPacket(c, w.writes(0), w.now)
  {
    OneEnabled(c, SendOnly(w.writes(0), w.now));
  }

  lemma PingSame(c: Client, now: nat, mem: Memory)
    ensures Same(c, CheckPing(c, now, mem))
  {
    hide Elapsed, Added, BareBytes;
  }

  lemma PingIs(c: Client, d: Client, w: World)
    requires Up(c, d)
    ensures 3 <= Number(d.state) <= 7 && EnabledRun(d, [Ping(w.now, w.ping)])
    ensures Run(d, [Ping(w.now, w.ping)]) == CheckPing(d, w.now, w.ping)
    ensures Basic(CheckPing(d, w.now, w.ping)) && Same(d, CheckPing(d, w.now, w.ping))
  {
    hide CheckPing, Step, Basic, Enabled, Talking;
    PingStep(d, w);
    StepBasic(d, Ping(w.now, w.ping));
    PingSame(d, w.now, w.ping);
    OneEnabled(d, Ping(w.now, w.ping));
  }

  lemma PingStep(d: Client, w: World)
    requires Basic(d) && 3 <= Number(d.state) <= 7
    ensures d.cursor <= |d.queue| && Enabled(d, Ping(w.now, w.ping)) && Step(d, Ping(w.now, w.ping)) == CheckPing(d, w.now, w.ping)
  {
    hide CheckPing;
  }

  lemma SendOnlyStep(c: Client, w: World)
    requires Basic(c) && c.state == ConnectingMqtt
    ensures c.cursor <= |c.queue|
    ensures var sent := if Available(c) == 0 then [] else [SendOnly(w.writes(0), w.now)];
            EnabledRun(c, sent) && Basic(Run(c, sent)) && Run(c, sent).state == ConnectingMqtt
  {
    var a := SendOnly(w.writes(0), w.now);
    StepBasic(c, a);
    SendBasic(c, w.writes(0), w.now);
    OneEnabled(c, a);
  }

  lemma RunNothing(c: Client)
    ensures EnabledRun(c, []) && Run(c, []) == c
  {
  }

  lemma TcpUpIs(c: Client, now: nat)
    requires Basic(c) && c.state == ConnectingTcp2
    ensures var d := c.(state := ConnectingMqtt, lastClientActivity := now, lastServerActivity := now);
            Enabled(c, TcpUp(now)) && EnabledRun(c, [TcpUp(now)]) && Run(c, [TcpUp(now)]) == d && Basic(d)
  {
    OneEnabled(c, TcpUp(now));
  }

  lemma OneEnabled(c: Client, a: Action)
    requires c.cursor <= |c.queue| && Enabled(c, a)
    ensures EnabledRun(c, [a]) && Run(c, [a]) == Step(c, a)
  {
    hide Step, Enabled;
    assert [a][1..] == [];
  }

  ghost function One(c: Client, s: P.State, a: Action): (r: Intake)
    requires Basic(c) && Enabled(c, a)
    ensures EnabledRun(c, r.acts) && Run(c, r.acts) == Step(c, a) && Basic(Run(c, r.acts)) && r == Intake([a], s)
  {
    StepBasic(c, a);
    OneEnabled(c, a);
    Intake([a], s)
  }

  // the pass that looks whether the TCP connection is up; a new connection starts with a fresh parser
  ghost function TcpPass(c: Client, s: P.State, w: World): (r: Intake)
    requires Basic(c) && c.state == ConnectingTcp2 && Sound(s)
    ensures EnabledRun(c, r.acts) && Basic(Run(c, r.acts)) && Fits(Run(c, r.acts), r.parser)
  {
    if w.connected then One(c, P.AwaitHeader, TcpUp(w.now))
    else if w.disconnected then One(c, s, LinkLost)
    else Intake([], s)
  }

  // an action, then what the user calls in its callback, then the rest of the pass
  lemma Chain(c: Client, a: Action, calls: seq<Action>)
    requires Basic(c) && Enabled(c, a) && Calls(calls)
    ensures EnabledRun(c, [a] + calls) && Basic(Run(c, [a] + calls)) && EnabledRun(Step(c, a), calls)
    ensures Run(c, [a] + calls) == Run(Step(c, a), calls)
  {
    StepBasic(c, a);
    CallsEnabled(Step(c, a), calls);
    assert ([a] + calls)[1..] == calls;
  }

  // DISCONNECT is queued, or onError is called
  function Bye(w: World): seq<Action> {
    [Goodbye(w.goodbye.mem)] + if w.goodbye.mem == Granted then [] else w.goodbye.calls
  }

  /** One call of loop(). */
  ghost function Pass(c: Client, s: P.State, w: World): (r: Intake)
    requires Basic(c) && Fits(c, s) && Fair(w)
    ensures EnabledRun(c, r.acts) && Basic(Run(c, r.acts)) && Fits(Run(c, r.acts), r.parser)
  {
    hide Step, Enabled, Receiving;
    match c.state
    case Disconnected => Intake([], s)
    case ConnectingTcp1 =>
      var first := TcpConnect(w.tcpConnect);
      FirstConnect(c, w);
      var c1 := Step(c, first);
      if !w.tcpConnect then Intake([first], s)
      else
        var r := TcpPass(c1, s, w);
        RunAppend(c, [first], r.acts);
        Intake([first] + r.acts, r.parser)
    case ConnectingTcp2 => TcpPass(c, s, w)
    case ConnectingMqtt => if w.connected then ConnectingPass(c, s, w) else LostPass(c, s)
    case Connected => if w.connected then TalkingPass(c, s, w) else LostPass(c, s)
    case DisconnectingMqtt1 =>
      if c.queue != [] then TalkingPass(c, s, w)
      else
        var bye := Bye(w);
        ByeTalking(c, w);
        var r := TalkingPass(Run(c, bye), s, w);
        RunAppend(c, bye, r.acts);
        Intake(bye + r.acts, r.parser)
    case DisconnectingMqtt2 => if w.connected then TalkingPass(c, s, w) else LostPass(c, s)
    case DisconnectingTcp1 => StopPass(c, s)
    case DisconnectingTcp2 =>
      if !w.disconnected then Intake([], s)
      else
        GonePass(c, w);
        Intake([TcpGone] + w.onDisconnect, s)
  }

  // the pass, state by state
  lemma PassIs(c: Client, s: P.State, w: World)
    requires Basic(c) && Fits(c, s) && Fair(w)
    ensures EnabledRun(c, []) && Run(c, []) == c
    ensures var r := Pass(c, s, w);
            match c.state
            case Disconnected => r == Intake([], s)
            case ConnectingTcp1 => true
            case ConnectingTcp2 => r == TcpPass(c, s, w)
            case ConnectingMqtt => r == if w.connected then ConnectingPass(c, s, w) else Intake([LinkLost], s)
            case Connected => Talking(c) && r == if w.connected then TalkingPass(c, s, w) else Intake([LinkLost], s)
            case DisconnectingMqtt1 => true
            case DisconnectingMqtt2 => Talking(c) && r == if w.connected then TalkingPass(c, s, w) else Intake([LinkLost], s)
            case DisconnectingTcp1 => r == Intake([TcpStop], s)
            case DisconnectingTcp2 => r == if w.disconnected then Intake([TcpGone] + w.onDisconnect, s) else Intake([], s)
  {
    hide Step, Enabled, Sound;
  }

  lemma StartPassIs(c: Client, s: P.State, w: World)
    requires Basic(c) && Fits(c, s) && Fair(w) && c.state == ConnectingTcp1
    ensures var first, r := TcpConnect(w.tcpConnect), Pass(c, s, w);
            && Enabled(c, first) && c.cursor <= |c.queue| && EnabledRun(c, r.acts)
            && (!w.tcpConnect ==>
                  r.parser == s && Run(c, r.acts) == Step(c, first) == c.(state := DisconnectingTcp1, reason := TCP_DISCONNECTED))
            && Basic(Step(c, first))
            && (w.tcpConnect ==>
                  var d := c.(state := ConnectingTcp2);
                  Basic(d) && r.parser == TcpPass(d, s, w).parser && Run(c, r.acts) == Run(d, TcpPass(d, s, w).acts))
  {
    var first := TcpConnect(w.tcpConnect);
    FirstConnect(c, w);
    StepBasic(c, first);
    if w.tcpConnect {
      var d := Step(c, first);
      assert d == c.(state := ConnectingTcp2);
      hide Step, Enabled, TcpPass, Run, EnabledRun, Sound;
      RunAppend(c, [first], TcpPass(d, s, w).acts);
    }
  }

  lemma ByePassIs(c: Client, s: P.State, w: World)
    requires Basic(c) && Fits(c, s) && Fair(w) && c.state == DisconnectingMqtt1
    ensures var r, bye := Pass(c, s, w), Bye(w);
            && EnabledRun(c, r.acts)
            && (c.queue != [] ==> Talking(c) && r == TalkingPass(c, s, w))
            && (c.queue == [] ==>
                  EnabledRun(c, bye) && Basic(Run(c, bye)) && Talking(Run(c, bye)) &&
                  var t := TalkingPass(Run(c, bye), s, w);
                  r.parser == t.parser && Run(c, r.acts) == Run(Run(c, bye), t.acts))
  {
    assert Talking(c) && s != P.Failed && Sound(s);
    if c.queue == [] {
      ByeTalking(c, w);
      hide Step, Enabled, TalkingPass, Run, EnabledRun, Sound, Talking, Basic, Fits;
      RunAppend(c, Bye(w), TalkingPass(Run(c, Bye(w)), s, w).acts);
    }
  }

  lemma FirstConnect(c: Client, w: World)
    requires Basic(c) && c.state == ConnectingTcp1
    ensures Enabled(c, TcpConnect(w.tcpConnect)) && EnabledRun(c, [TcpConnect(w.tcpConnect)])
    ensures var d := Step(c, TcpConnect(w.tcpConnect));
            Run(c, [TcpConnect(w.tcpConnect)]) == d && Basic(d) && (w.tcpConnect ==> d.state == ConnectingTcp2)
  {
    StepBasic(c, TcpConnect(w.tcpConnect));
    OneEnabled(c, TcpConnect(w.tcpConnect));
  }

  ghost function LostPass(c: Client, s: P.State): (r: Intake)
    requires Basic(c) && c.state in {ConnectingMqtt, Connected, DisconnectingMqtt2} && Sound(s)
    ensures EnabledRun(c, r.acts) && Basic(Run(c, r.acts)) && Fits(Run(c, r.acts), r.parser)
  {
    One(c, s, LinkLost)
  }

  ghost function StopPass(c: Client, s: P.State): (r: Intake)
    requires Basic(c) && c.state == DisconnectingTcp1 && Sound(s)
    ensures EnabledRun(c, r.acts) && Basic(Run(c, r.acts)) && Fits(Run(c, r.acts), r.parser)
  {
    One(c, s, TcpStop)
  }

  lemma ByeTalking(c: Client, w: World)
    requires Basic(c) && c.state == DisconnectingMqtt1 && c.queue == [] && Fair(w)
    ensures var bye := Bye(w);
            EnabledRun(c, bye) && Basic(Run(c, bye)) && Talking(Run(c, bye))
  {
    var a := Goodbye(w.goodbye.mem);
    var calls := if w.goodbye.mem == Granted then [] else w.goodbye.calls;
    Chain(c, a, calls);
    StepBasic(c, a);
    SeenStays(c, a);
    assert Talking(Step(c, a)) by { hide Added; }
    CallsTalking(Step(c, a), calls);
  }

  lemma GonePass(c: Client, w: World)
    requires Basic(c) && c.state == DisconnectingTcp2 && Fair(w)
    ensures EnabledRun(c, [TcpGone] + w.onDisconnect) && Basic(Run(c, [TcpGone] + w.onDisconnect))
    ensures !(3 <= Number(Run(c, [TcpGone] + w.onDisconnect).state) <= 6)
  {
    Chain(c, TcpGone, w.onDisconnect);
    StepBasic(c, TcpGone);
    CallsDown(Step(c, TcpGone), w.onDisconnect);
  }

  // user calls alone do not bring a connection up
  lemma {:induction false} CallsDown(c: Client, acts: seq<Action>)
    requires Basic(c) && !(3 <= Number(c.state) <= 6) && Calls(acts) && EnabledRun(c, acts)
    ensures !(3 <= Number(Run(c, acts).state) <= 6)
    decreases |acts|
  {
    if acts != [] {
      assert acts[0] in acts;
      StepBasic(c, acts[0]);
      CallDown(c, acts[0]);
      CallsDown(Step(c, acts[0]), acts[1..]);
    }
  }

  lemma CallDown(c: Client, a: Action)
    requires Basic(c) && !(3 <= Number(c.state) <= 6) && UserCall(a) && Enabled(c, a)
    ensures !(3 <= Number(Step(c, a).state) <= 6)
  {
    hide PublishBytes, SubscribeBytes, UnsubscribeBytes, Added;
    if a.DoClearQueue? { ClearBasic(c, if a.deleteSessionData then 2 else 0); }
  }

  /** A user call between passes leaves the parser fit for the next one. */
  lemma CallFits(c: Client, a: Action, s: P.State)
    requires Basic(c) && Fits(c, s) && UserCall(a) && Enabled(c, a)
    ensures Fits(Step(c, a), s)
  {
    hide Step, Sound;
    if !(3 <= Number(c.state) <= 6) { CallDown(c, a); }
  }
}
