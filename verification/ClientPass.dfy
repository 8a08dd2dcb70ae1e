/**
  What a pass gets done: every packet that was read is handled, once and in order, everything queued is sent when
  the transport takes it, and the timers are looked at.
 */
module ClientPass {
  import opened Bytes
  import opened Constants
  import opened Options
  import opened PacketSpec
  import opened ClientSpec
  import opened ClientRuns
  import opened ClientLoop
  import ClientClearing
  import Outbox
  import P = ParserSpec

  /** The packets that are handled in a list of actions. */
  function Events(acts: seq<Action>): seq<P.Event> {
    if acts == [] then [] else (if acts[0].Received? then [acts[0].e] else []) + Events(acts[1..])
  }

  lemma {:induction false} EventsAppend(a: seq<Action>, b: seq<Action>)
    ensures Events(a + b) == Events(a) + Events(b)
  {
    if a == [] {
      assert a + b == b;
    } else {
      assert (a + b)[0] == a[0] && (a + b)[1..] == a[1..] + b;
      EventsAppend(a[1..], b);
    }
  }

  lemma {:induction false} NoEvents(acts: seq<Action>)
    requires forall a :: a in acts ==> !a.Received?
    ensures Events(acts) == []
  {
    if acts != [] {
      assert acts[0] in acts;
      NoEvents(acts[1..]);
    }
  }

  lemma HandlingEvents(c: Client, e: P.Event, r: Reply)
    requires c.cursor <= |c.queue| && Enabled(c, Received(e, r.mem)) && Calls(r.calls)
    ensures Events(Handling(c, e, r)) == [e]
  {
    hide NewNotes, Enabled, CallsBack;
    var a := [Received(e, r.mem)];
    assert a[1..] == [];
    assert Events(a) == [e];
    NoEvents(r.calls);
    NoEvents([]);
    EventsAppend(a, r.calls);
    EventsAppend(a, []);
    assert a + [] == a;
  }

  // ---- receiving ----

  // no packet makes the receive loop return early
  predicate Ordinary(es: seq<P.Event>) {
    forall e :: e in es ==> !e.Connack?
  }

  lemma DriveUnfold(s: P.State, buf: seq<byte>)
    requires P.WellFormed(s) && s != P.Failed
    ensures buf == [] ==> P.Drive(s, buf) == P.Trace(s, [])
    ensures buf != [] ==>
              var p := P.Parse(s, buf);
              && P.WellFormed(p.state)
              && var t := P.Drive(p.state, buf[p.consumed..]);
                 P.Drive(s, buf) == P.Trace(t.state, P.Emitted(p.event) + t.events)
    ensures P.Drive(P.Failed, buf) == P.Trace(P.Failed, [])
  {
    hide P.Parse;
  }

  /**
    The receive loop handles what the parser reports, in that order, and nothing else; and on a connection that is
    established, with no second CONNACK, all of it.
   */
  lemma {:induction false} ReceivesInOrder(c: Client, s: P.State, buf: seq<byte>, replies: nat -> Reply, k: nat)
    requires Ready(c, s, replies)
    ensures var r, t := Receiving(c, s, buf, replies, k), P.Drive(s, buf);
            && Events(r.acts) <= t.events
            && (Talking(c) && Ordinary(t.events) ==> Events(r.acts) == t.events && r.parser == t.state)
    decreases |buf|
  {
    hide P.Parse, Step, Enabled, Basic, Receiving, Talking, Handling, P.WellFormed, WellFormedEvent;
    SoundIs(s);
    DriveUnfold(s, buf);
    if buf == [] {
      ReceivesNothing(c, s, replies, k);
      return;
    }
    var p := P.Parse(s, buf);
    if p.state == P.Failed || p.event == None {
      ReceivesNoPacket(c, s, buf, replies, k);
    } else {
      var e := p.event.value;
      ReceivesOne(c, s, buf, replies, k);
      var acts := Handling(c, e, replies(k));
      var d := Run(c, acts);
      if GoesOn(c, e, d) {
        var after := buf[p.consumed..];
        ReceivesInOrder(d, p.state, after, replies, k + 1);
        EventsAppend(acts, Receiving(d, p.state, after, replies, k + 1).acts);
        Shorter(P.Drive(p.state, after).events, [e]);
      }
    }
  }

  // a read that completes no packet, or breaks the protocol
  lemma ReceivesNoPacket(c: Client, s: P.State, buf: seq<byte>, replies: nat -> Reply, k: nat)
    requires Ready(c, s, replies) && buf != [] && (P.Parse(s, buf).state == P.Failed || P.Parse(s, buf).event == None)
    ensures var r, t := Receiving(c, s, buf, replies, k), P.Drive(s, buf);
            Events(r.acts) == t.events == [] && r.parser == t.state
  {
    hide P.Parse, P.Drive, Step, Enabled, Basic, Receiving, Talking, P.WellFormed;
    SoundIs(s);
    DriveUnfold(s, buf);
    ReceivingTurn(c, s, buf, replies, k);
    var p := P.Parse(s, buf);
    DriveUnfold(s, buf[p.consumed..]);
    NoEvents([Garbled]);
    NoEvents([]);
    if p.state == P.Failed {
      FailedSaysNothing(s, buf);
    } else {
      ReceivesNothing(c, p.state, replies, k + 1);
      ReceivesLast(s, buf);
      assert buf[|buf|..] == [];
      ParseSound(s, buf);
      SoundIs(p.state);
      DriveUnfold(p.state, []);
    }
  }

  lemma {:induction false} FailedSaysNothing(s: P.State, buf: seq<byte>)
    requires P.WellFormed(s) && s != P.Failed && P.Parse(s, buf).state == P.Failed
    ensures P.Parse(s, buf).event == None
    decreases |buf|
  {
    hide P.Step, P.Parse;
    if buf == [] {
      P.ParseEmpty(s);
    } else {
      P.ParseUnfold(s, buf);
      if !s.InPayload? {
        FaultIs(s, buf[0]);
        var o := P.Step(s, buf[0]);
        if o.event == None && o.state != P.Failed { FailedSaysNothing(o.state, buf[1..]); }
      }
    }
  }

  lemma FaultIs(s: P.State, b: byte)
    ensures P.Step(s, b).state == P.Failed ==> P.Step(s, b).event == None
  {
  }

  lemma Shorter(es: seq<P.Event>, first: seq<P.Event>)
    ensures Ordinary(first + es) ==> Ordinary(es) && Ordinary(first)
  {
    if Ordinary(first + es) {
      forall e | e in es ensures !e.Connack? { assert e in first + es; }
      forall e | e in first ensures !e.Connack? { assert e in first + es; }
    }
  }

  // a packet that is reported is handled, and the loop goes on with the rest or stops
  lemma ReceivesOne(c: Client, s: P.State, buf: seq<byte>, replies: nat -> Reply, k: nat)
    requires Ready(c, s, replies) && buf != [] && P.Parse(s, buf).state != P.Failed && P.Parse(s, buf).event.Some?
    ensures c.cursor <= |c.queue|
    ensures var p := P.Parse(s, buf);
            && Enabled(c, Received(p.event.value, replies(k).mem))
            && var e, acts := p.event.value, Handling(c, p.event.value, replies(k));
            && EnabledRun(c, acts) && Events(acts) == [e]
            && var d, on := Run(c, acts), GoesOn(c, e, Run(c, acts));
            && (Talking(c) ==> Talking(d) && (!e.Connack? ==> on))
            && (!on ==> Receiving(c, s, buf, replies, k) == Intake(acts, p.state))
            && (on ==>
                  && Ready(d, p.state, replies) && 1 <= p.consumed <= |buf|
                  && var rest := Receiving(d, p.state, buf[p.consumed..], replies, k + 1);
                     Receiving(c, s, buf, replies, k) == Intake(acts + rest.acts, rest.parser))
  {
    hide P.Parse, Step, Enabled, Receiving, Handling, WellFormedEvent, Run, EnabledRun;
    ReceivingTurn(c, s, buf, replies, k);
    var e := P.Parse(s, buf).event.value;
    HandlingEvents(c, e, replies(k));
    HandlingUp(c, e, replies(k));
  }

  lemma SoundIs(s: P.State)
    requires Sound(s)
    ensures P.WellFormed(s)
  {
  }

  lemma ReceivesNothing(c: Client, s: P.State, replies: nat -> Reply, k: nat)
    requires Ready(c, s, replies)
    ensures Receiving(c, s, [], replies, k) == Intake([], s) && Events([]) == []
  {
  }

  lemma ReceivesLast(s: P.State, buf: seq<byte>)
    requires P.WellFormed(s) && s != P.Failed && P.Parse(s, buf).state != P.Failed && P.Parse(s, buf).event == None
    ensures P.Parse(s, buf).consumed == |buf|
  {
  }

  lemma IncomingEvents(c: Client, s: P.State, w: World)
    requires Basic(c) && Open(c) && Sound(s) && s != P.Failed && Fair(w)
    ensures var r, t := Incoming(c, s, w), P.Drive(s, w.chunk);
            && Events(r.acts) <= t.events
            && (Talking(c) && Ordinary(t.events) ==> Events(r.acts) == t.events && r.parser == t.state)
            && (w.chunk != [] ==> r.acts != [] && r.acts[0] == Heard(w.now))
  {
    hide P.Drive, Receiving, Step, Enabled, Basic, Sound, Events, P.WellFormed;
    ReadyIs(c, s, w);
    SoundIs(s);
    if w.chunk == [] {
      NothingRead(c, s, w);
      NoEvents([]);
      DriveUnfold(s, w.chunk);
    } else {
      HeardReady(c, s, w);
      var d := Step(c, Heard(w.now));
      ReadyParts(d, s, w.replies);
      ReceivesInOrder(d, s, w.chunk, w.replies, 0);
      NoEvents([Heard(w.now)]);
      EventsAppend([Heard(w.now)], Receiving(d, s, w.chunk, w.replies, 0).acts);
    }
  }

  // ---- sending ----

  /** The transport takes every packet at one go. */
  ghost predicate Generous(writes: nat -> nat, q: seq<Item>) {
    forall i: nat, x :: 0 <= x < |q| ==> writes(i) >= |q[x].bytes|
  }

  function Contents(q: seq<Item>): (r: seq<seq<byte>>)
    ensures |r| == |q| && forall i :: 0 <= i < |q| ==> r[i] == q[i].bytes
  {
    seq(|q|, i requires 0 <= i < |q| => q[i].bytes)
  }

  // between two packets, or inside the current one
  predicate Steady(c: Client) {
    c.cursor <= |c.queue| && if c.cursor < |c.queue| then c.bytesSent < |c.queue[c.cursor].bytes| else c.bytesSent == 0
  }

  // one packet is written to its end: it goes, or the cursor goes on
  lemma PumpIs(c: Client, w: nat, now: nat)
    requires Steady(c) && c.cursor < |c.queue| && w >= |c.queue[c.cursor].bytes|
    ensures var d, j := Pump(c, w, now), c.cursor;
            && d.bytesSent == 0 && d.h.done == c.h.done + [c.queue[j].bytes]
            && ((d.cursor == j && d.queue == Outbox.Without(c.queue, j))
                || (d.cursor == j + 1 && |d.queue| == |c.queue| && |d.queue[j].bytes| == |c.queue[j].bytes|
                    && forall x :: 0 <= x < |c.queue| && x != j ==> d.queue[x] == c.queue[x]))
  {
    hide TypeOf, Removable;
    var s := SendPacket(c, w, now);
    assert Outbox.Without(s.queue, c.cursor) == Outbox.Without(c.queue, c.cursor);
  }

  lemma PumpPasses(c: Client, writes: nat -> nat, k: nat, now: nat)
    requires Basic(c) && Steady(c) && c.cursor < |c.queue| && Generous(writes, c.queue)
    ensures var d := Pump(c, writes(k), now);
            && d.bytesSent == 0 && d.cursor <= |d.queue| && d.queue[d.cursor..] == c.queue[c.cursor + 1..]
            && d.h.done == c.h.done + [c.queue[c.cursor].bytes] && Generous(writes, d.queue)
            && |d.queue| - d.cursor == |c.queue| - c.cursor - 1
  {
    hide Pump, NonEmpty;
    var d, j := Pump(c, writes(k), now), c.cursor;
    assert writes(k) >= |c.queue[j].bytes|;
    PumpIs(c, writes(k), now);
    forall i: nat, x | 0 <= x < |d.queue| ensures writes(i) >= |d.queue[x].bytes| {
      assert |d.queue[x].bytes| == |c.queue[if |d.queue| < |c.queue| && x >= j then x + 1 else x].bytes|;
    }
  }

  // the first turn of the loop
  lemma FirstTurn(c: Client, writes: nat -> nat, k: nat, now: nat)
    requires Basic(c) && Talking(c) && Steady(c) && Generous(writes, c.queue) && c.cursor < |c.queue|
    ensures var a, d := SendAndAdvance(writes(k), now), Pump(c, writes(k), now);
            && Enabled(c, a) && Step(c, a) == d && Basic(d) && Talking(d) && Steady(d) && Generous(writes, d.queue)
            && SendLoop(c, writes, k, now) == [a] + (if d.cursor < |d.queue| then SendLoop(d, writes, k + 1, now) else [])
            && d.bytesSent == 0 && d.queue[d.cursor..] == c.queue[c.cursor + 1..] && d.h.done == c.h.done + [c.queue[c.cursor].bytes]
            && |d.queue| - d.cursor == |c.queue| - c.cursor - 1
  {
    hide Step, Enabled, Basic, Talking, SendLoop, AfterTurn, Pump, NonEmpty, Generous;
    AfterTurnIsPump(c, writes(k), now);
    PumpPasses(c, writes, k, now);
    SendLoopUnfold(c, writes, k, now);
    TakesSome(c, writes, k);
    SteadyAgain(Pump(c, writes(k), now));
  }

  lemma TakesSome(c: Client, writes: nat -> nat, k: nat)
    requires Steady(c) && c.cursor < |c.queue| && Generous(writes, c.queue)
    ensures Min(writes(k), Available(c)) > 0
  {
    assert writes(k) >= |c.queue[c.cursor].bytes|;
  }

  /** When the transport takes everything, one pass writes every packet from the cursor on to its end, in their order. */
  lemma {:induction false} SendsEverything(c: Client, writes: nat -> nat, k: nat, now: nat)
    requires Basic(c) && Talking(c) && Steady(c) && Generous(writes, c.queue)
    ensures var acts := SendLoop(c, writes, k, now);
            && EnabledRun(c, acts)
            && var d := Run(c, acts);
               d.cursor == |d.queue| && d.bytesSent == 0 && d.h.done == c.h.done + Contents(c.queue[c.cursor..])
    decreases |c.queue| - c.cursor
  {
    hide Step, Enabled, Basic, Talking, SendLoop, Pump, NonEmpty, Generous;
    if c.cursor == |c.queue| {
      NothingToSend(c, writes, k, now);
      assert EnabledRun(c, []) && Run(c, []) == c;
      assert c.h.done + Contents(c.queue[c.cursor..]) == c.h.done;
    } else {
      var a, d, q := SendAndAdvance(writes(k), now), Pump(c, writes(k), now), c.queue[c.cursor..];
      FirstTurn(c, writes, k, now);
      assert Contents(q) == [q[0].bytes] + Contents(q[1..]) && q[1..] == c.queue[c.cursor + 1..];
      Assoc(c.h.done, [q[0].bytes], Contents(q[1..]));
      var rest := if d.cursor < |d.queue| then SendLoop(d, writes, k + 1, now) else [];
      SendsEverything(d, writes, k + 1, now);
      if d.cursor == |d.queue| { NothingToSend(d, writes, k + 1, now); }
      assert ([a] + rest)[1..] == rest;
    }
  }

  lemma NothingToSend(c: Client, writes: nat -> nat, k: nat, now: nat)
    requires c.cursor == |c.queue|
    ensures SendLoop(c, writes, k, now) == []
  {
  }

  lemma SteadyAgain(c: Client)
    requires Basic(c) && c.bytesSent == 0
    ensures Steady(c)
  {
  }

  lemma {:induction false} SendLoopSilent(c: Client, writes: nat -> nat, k: nat, now: nat)
    requires c.cursor <= |c.queue|
    ensures Events(SendLoop(c, writes, k, now)) == []
    decreases |c.queue| - c.cursor, Available(c)
  {
    hide Pump, Events;
    NoEvents([]);
    if Available(c) > 0 {
      var a, d := SendAndAdvance(writes(k), now), Pump(c, writes(k), now);
      NoEvents([a]);
      SendLoopUnfold(c, writes, k, now);
      if Min(writes(k), Available(c)) > 0 && d.cursor < |d.queue| {
        PumpShrinks(c, writes(k), now);
        SendLoopSilent(d, writes, k + 1, now);
        EventsAppend([a], SendLoop(d, writes, k + 1, now));
      }
    }
  }

  lemma PumpShrinks(c: Client, w: nat, now: nat)
    requires c.cursor <= |c.queue| && Min(w, Available(c)) > 0
    ensures var d := Pump(c, w, now);
            && d.cursor <= |d.queue|
            && (|d.queue| - d.cursor < |c.queue| - c.cursor || (|d.queue| - d.cursor == |c.queue| - c.cursor && Available(d) < Available(c)))
  {
  }

  // ---- the pass ----

  /**
    A pass on an established connection handles exactly the packets that were read, in order, when no second CONNACK is
    among them, notes that it has heard the server, and ends with a look at both timers.
   */
  lemma {:induction false} ConnectedPass(c: Client, s: P.State, w: World)
    requires Basic(c) && c.state == Connected && Fits(c, s) && Fair(w) && w.connected
    ensures var r, t := Pass(c, s, w), P.Drive(s, w.chunk);
            && Events(r.acts) <= t.events
            && (Ordinary(t.events) ==> Events(r.acts) == t.events && r.parser == t.state)
            && (w.chunk != [] ==> Heard(w.now) in r.acts)
            && |r.acts| >= 2 && r.acts[|r.acts| - 2..] == [Ping(w.now, w.ping), Timeout(w.now)]
  {
    hide Pass, TalkingPass, P.Drive, Events, Sound, NonEmpty;
    PassIs(c, s, w);
    TalkingEvents(c, s, w);
  }

  lemma TalkingEvents(c: Client, s: P.State, w: World)
    requires Basic(c) && Talking(c) && Sound(s) && s != P.Failed && Fair(w)
    ensures P.WellFormed(s)
    ensures var r, t := TalkingPass(c, s, w), P.Drive(s, w.chunk);
            && Events(r.acts) <= t.events
            && (Ordinary(t.events) ==> Events(r.acts) == t.events && r.parser == t.state)
            && (w.chunk != [] ==> Heard(w.now) in r.acts)
            && |r.acts| >= 2 && r.acts[|r.acts| - 2..] == [Ping(w.now, w.ping), Timeout(w.now)]
  {
    hide Step, Enabled, Run, EnabledRun, SendLoop, Incoming, P.Drive, P.WellFormed, Events, TalkingPass, Basic, Talking, Sound;
    SoundIs(s);
    SendLoopSilentFor(c, w);
    TalkingPassActs(c, s, w);
    var sent, checks := SendLoop(c, w.writes, 0, w.now), [Ping(w.now, w.ping), Timeout(w.now)];
    var c1 := Run(c, sent);
    OpenIs(c1);
    var got := Incoming(c1, s, w);
    IncomingEvents(c1, s, w);
    NoEvents(checks);
    EventsAppend(got.acts, checks);
    EventsAppend(sent, got.acts + checks);
    var acts := sent + (got.acts + checks);
    assert acts[|acts| - 2..] == checks;
    if w.chunk != [] { assert acts[|sent|] == got.acts[0]; }
  }

  lemma SendLoopSilentFor(c: Client, w: World)
    requires Basic(c)
    ensures c.cursor <= |c.queue| && Events(SendLoop(c, w.writes, 0, w.now)) == []
  {
    SendLoopSilent(c, w.writes, 0, w.now);
  }

  lemma OpenIs(c: Client)
    requires Talking(c)
    ensures Open(c)
  {
  }

  lemma TalkingPassActs(c: Client, s: P.State, w: World)
    requires Basic(c) && Talking(c) && Sound(s) && s != P.Failed && Fair(w)
    ensures var sent := SendLoop(c, w.writes, 0, w.now);
            && EnabledRun(c, sent) && Basic(Run(c, sent)) && Talking(Run(c, sent))
            && var got := Incoming(Run(c, sent), s, w);
               TalkingPass(c, s, w) == Intake(sent + (got.acts + [Ping(w.now, w.ping), Timeout(w.now)]), got.parser)
  {
    SendLoopEnabled(c, w.writes, 0, w.now);
    hide SendLoop, Run, EnabledRun, Basic, Talking, Incoming, Step, Enabled;
  }

  /** A CONNACK that refuses ends the receive loop: what was read behind it is not looked at. */
  lemma RefusalStops(c: Client, s: P.State, buf: seq<byte>, replies: nat -> Reply, k: nat, sessionPresent: byte, returnCode: byte)
    requires Ready(c, s, replies) && buf != [] && returnCode != 0
    requires P.Parse(s, buf).state != P.Failed && P.Parse(s, buf).event == Some(P.Connack(sessionPresent, returnCode))
    ensures var r := Receiving(c, s, buf, replies, k);
            r.acts == [Received(P.Connack(sessionPresent, returnCode), replies(k).mem)] && r.parser == P.Parse(s, buf).state
  {
    hide P.Parse, Receiving, Basic, Sound, Talking;
    ReceivesOne(c, s, buf, replies, k);
    RefusalHandling(c, sessionPresent, returnCode, replies(k));
  }

  lemma RefusalHandling(c: Client, sessionPresent: byte, returnCode: byte, r: Reply)
    requires c.cursor <= |c.queue| && returnCode != 0 && Enabled(c, Received(P.Connack(sessionPresent, returnCode), r.mem))
    ensures var e := P.Connack(sessionPresent, returnCode);
            && Handling(c, e, r) == [Received(e, r.mem)]
            && EnabledRun(c, Handling(c, e, r)) && !GoesOn(c, e, Run(c, Handling(c, e, r)))
  {
    OneEnabled(c, Received(P.Connack(sessionPresent, returnCode), r.mem));
  }

  /** Before CONNACK a pass sends a part of CONNECT at most, handles what was read, and looks at the ping timer. */
  lemma {:induction false} ConnectingEvents(c: Client, s: P.State, w: World)
    requires Basic(c) && c.state == ConnectingMqtt && Sound(s) && s != P.Failed && Fair(w)
    ensures P.WellFormed(s)
    ensures var r := ConnectingPass(c, s, w);
            && Events(r.acts) <= P.Drive(s, w.chunk).events
            && r.acts != [] && r.acts[|r.acts| - 1] == Ping(w.now, w.ping)
            && (Available(c) > 0 ==> r.acts[0] == SendOnly(w.writes(0), w.now))
            && (w.chunk != [] ==> Heard(w.now) in r.acts)
  {
    hide Step, Enabled, Run, EnabledRun, Incoming, P.Drive, P.WellFormed, Events, ConnectingPass, Basic, Talking, Sound;
    SoundIs(s);
    ConnectingPassActs(c, s, w);
    var sent, check := if Available(c) == 0 then [] else [SendOnly(w.writes(0), w.now)], [Ping(w.now, w.ping)];
    var c1 := Run(c, sent);
    var got := Incoming(c1, s, w);
    IncomingEvents(c1, s, w);
    NoEvents(sent);
    NoEvents(check);
    EventsAppend(got.acts, check);
    EventsAppend(sent, got.acts + check);
    var acts := sent + (got.acts + check);
    if w.chunk != [] { assert acts[|sent|] == got.acts[0]; }
  }

  lemma ConnectingPassActs(c: Client, s: P.State, w: World)
    requires Basic(c) && c.state == ConnectingMqtt && Sound(s) && s != P.Failed && Fair(w)
    ensures var sent := if Available(c) == 0 then [] else [SendOnly(w.writes(0), w.now)];
            && EnabledRun(c, sent) && Basic(Run(c, sent)) && Open(Run(c, sent))
            && var got := Incoming(Run(c, sent), s, w);
               ConnectingPass(c, s, w) == Intake(sent + (got.acts + [Ping(w.now, w.ping)]), got.parser)
  {
    SendOnlyStep(c, w);
    hide Step, Basic, SendPacket, Incoming, Enabled, Run, EnabledRun, Sound;
  }

  /** A connection that comes up starts with a fresh parser, whatever the last one left, and with both clocks set. */
  lemma ComesUp(c: Client, s: P.State, w: World)
    requires Basic(c) && Fits(c, s) && Fair(w) && c.state in {ConnectingTcp1, ConnectingTcp2}
    requires w.connected && (c.state == ConnectingTcp1 ==> w.tcpConnect)
    ensures var r := Pass(c, s, w);
            && r.parser == P.AwaitHeader
            && Run(c, r.acts) == c.(state := ConnectingMqtt, lastClientActivity := w.now, lastServerActivity := w.now)
  {
    hide Pass, Basic, Step, Enabled, Run, EnabledRun, TcpPass, Sound;
    PassIs(c, s, w);
    if c.state == ConnectingTcp1 {
      StartPassIs(c, s, w);
      UpIs(c.(state := ConnectingTcp2), s, w);
    } else {
      UpIs(c, s, w);
    }
  }

  lemma UpIs(c: Client, s: P.State, w: World)
    requires Basic(c) && Sound(s) && w.connected && c.state == ConnectingTcp2
    ensures var r := TcpPass(c, s, w);
            && r.parser == P.AwaitHeader && EnabledRun(c, r.acts)
            && Run(c, r.acts) == c.(state := ConnectingMqtt, lastClientActivity := w.now, lastServerActivity := w.now)
  {
    hide NonEmpty;
    TcpUpIs(c, w.now);
  }

  // ---- when the transport is gone ----

  /** The transport neither connects nor carries anything any more. */
  ghost predicate Dead(w: World) {
    !w.connected && w.disconnected && !w.tcpConnect && w.chunk == [] && forall i :: w.writes(i) == 0
  }

  // every state but disconnectingMqtt1 takes note of it at once
  lemma DeadPass(c: Client, s: P.State, w: World)
    requires Basic(c) && Fits(c, s) && Fair(w) && Dead(w) && c.state != DisconnectingMqtt1
    ensures var r := Pass(c, s, w);
            && Fits(Run(c, r.acts), r.parser)
            && var d := Run(c, r.acts);
            && (1 <= Number(c.state) <= 6 ==> d == c.(state := DisconnectingTcp1, reason := TCP_DISCONNECTED))
            && (c.state == DisconnectingTcp1 ==> d == c.(state := DisconnectingTcp2))
            && (c.state == DisconnectingTcp2 ==> r.acts == [TcpGone] + w.onDisconnect)
            && (c.state == Disconnected ==> d == c)
  {
    hide Pass, Basic, Step, Enabled, Run, EnabledRun, TcpPass, TalkingPass, ConnectingPass, Sound, Talking;
    PassIs(c, s, w);
    match c.state {
      case ConnectingTcp1 => StartPassIs(c, s, w);
      case ConnectingTcp2 => DeadTcp(c, s, w);
      case ConnectingMqtt => LostIs(c);
      case Connected => LostIs(c);
      case DisconnectingMqtt2 => LostIs(c);
      case DisconnectingTcp1 => StopIs(c);
      case _ =>
    }
  }

  lemma LostIs(c: Client)
    requires Basic(c) && c.state in {ConnectingTcp2, ConnectingMqtt, Connected, DisconnectingMqtt2}
    ensures EnabledRun(c, [LinkLost]) && Run(c, [LinkLost]) == c.(state := DisconnectingTcp1, reason := TCP_DISCONNECTED)
  {
    hide NonEmpty;
    OneEnabled(c, LinkLost);
  }

  lemma StopIs(c: Client)
    requires Basic(c) && c.state == DisconnectingTcp1
    ensures EnabledRun(c, [TcpStop]) && Run(c, [TcpStop]) == c.(state := DisconnectingTcp2)
  {
    hide NonEmpty;
    OneEnabled(c, TcpStop);
  }

  lemma DeadTcp(c: Client, s: P.State, w: World)
    requires Basic(c) && Sound(s) && Dead(w) && c.state == ConnectingTcp2
    ensures TcpPass(c, s, w) == Intake([LinkLost], s)
    ensures EnabledRun(c, [LinkLost]) && Run(c, [LinkLost]) == c.(state := DisconnectingTcp1, reason := TCP_DISCONNECTED)
  {
    hide NonEmpty;
    LostIs(c);
  }

  /** Then it takes three passes, and onDisconnect is told that the connection was lost. */
  lemma GoesDown(c: Client, s: P.State, w1: World, w2: World, w3: World)
    requires Basic(c) && Fits(c, s) && 1 <= Number(c.state) <= 6 && c.state != DisconnectingMqtt1
    requires Fair(w1) && Dead(w1) && Fair(w2) && Dead(w2) && Fair(w3) && Dead(w3) && w3.onDisconnect == []
    ensures var r1 := Pass(c, s, w1);
            var c1 := Run(c, r1.acts);
            var r2 := Pass(c1, r1.parser, w2);
            var c2 := Run(c1, r2.acts);
            var d := Run(c2, Pass(c2, r2.parser, w3).acts);
            d.state == Disconnected && d.h.notes == c.h.notes + [OnDisconnect(TCP_DISCONNECTED)]
  {
    hide Pass, NonEmpty, Sound;
    DeadPass(c, s, w1);
    var r1 := Pass(c, s, w1);
    var c1 := Run(c, r1.acts);
    DeadPass(c1, r1.parser, w2);
    var r2 := Pass(c1, r1.parser, w2);
    var c2 := Run(c1, r2.acts);
    DeadPass(c2, r2.parser, w3);
    assert [TcpGone] + w3.onDisconnect == [TcpGone];
    ClientClearing.DisconnectKeepsSession(c2);
    OneEnabled(c2, TcpGone);
  }

  /**
    disconnect() on a lost connection: while packets are queued the client does not look at the transport. It goes
    on exactly when the server has been silent for twice the keep-alive interval; without keep-alive never.
   */
  lemma DisconnectHangs(c: Client, s: P.State, w: World)
    requires Basic(c) && Fits(c, s) && Fair(w) && Dead(w) && c.state == DisconnectingMqtt1 && c.queue != []
    ensures var d := Run(c, Pass(c, s, w).acts);
            && d.state == (if c.config.keepAlive != 0 && Elapsed(w.now, c.lastServerActivity) > 2 * c.config.keepAlive
                           then DisconnectingTcp1 else DisconnectingMqtt1)
            && d.queue != [] && d.lastServerActivity == c.lastServerActivity && d.config == c.config
  {
    hide Pass, NonEmpty, Sound, Incoming, Elapsed, Run, EnabledRun;
    ByePassIs(c, s, w);
    TalkingPassIs(c, s, w);
    DeadSending(c, w);
    var c1 := AfterSending(c, w);
    NothingRead(c1, s, w);
    PingLeaves(c1, w);
  }

  lemma DeadSending(c: Client, w: World)
    requires Basic(c) && Talking(c) && Dead(w)
    ensures var d := AfterSending(c, w);
            && d.state == c.state && |d.queue| == |c.queue| && d.lastServerActivity == c.lastServerActivity && d.config == c.config
  {
    hide NonEmpty;
    SendLoopEnabled(c, w.writes, 0, w.now);
    if Available(c) > 0 {
      SendLoopUnfold(c, w.writes, 0, w.now);
      assert w.writes(0) == 0;
      var a := SendAndAdvance(0, w.now);
      OneEnabled(c, a);
    }
  }

  lemma PingLeaves(c: Client, w: World)
    requires c.queue != []
    ensures var d := CheckTimeout(CheckPing(c, w.now, w.ping), w.now);
            && d.state == (if c.config.keepAlive != 0 && Elapsed(w.now, c.lastServerActivity) > 2 * c.config.keepAlive
                           then DisconnectingTcp1 else c.state)
            && d.queue != [] && d.lastServerActivity == c.lastServerActivity && d.config == c.config
  {
    hide Elapsed;
  }
}
