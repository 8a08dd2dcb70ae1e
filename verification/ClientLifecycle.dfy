/** Connection states and the callbacks that mark them. */
module ClientLifecycle {
  import opened Bytes
  import opened Constants
  import opened ClientSpec
  import opened ClientRuns
  import P = ParserSpec

  // ---- states only move on ----

  /** Kept, moved to a higher number, or closed. */
  predicate MovesOn(from: State, to: State) {
    Number(to) >= Number(from) || (from == DisconnectingTcp2 && to == Disconnected)
  }

  /** A CONNACK that accepts, met in a state beyond `connected`: only a second one can be. */
  predicate Reopens(c: Client, a: Action) {
    a.Received? && a.e.Connack? && a.e.returnCode == 0 && Number(c.state) > Number(Connected)
  }

  lemma AdvanceState(c: Client)
    ensures AdvanceOutbox(c).state == c.state || AdvanceOutbox(c).state == DisconnectingTcp1
    ensures AdvanceOutbox(c).h.connackSeen == c.h.connackSeen && AdvanceOutbox(c).h.notes == c.h.notes
    ensures c.cursor <= |c.queue| ==> AdvanceOutbox(c).cursor <= |AdvanceOutbox(c).queue|
  {
  }

  lemma ConnackState(c: Client, e: P.Event)
    requires c.cursor <= |c.queue| && e.Connack?
    ensures var d := OnConnack(c, e.sessionPresent, e.returnCode);
            && d.h.connackSeen
            && (e.returnCode != 0 ==> d.state == DisconnectingTcp1)
            && (e.returnCode == 0 ==> d.state == Connected || d.state == DisconnectingTcp1)
  {
    hide AdvanceOutbox;
    AdvanceState(c.(pingSent := false, state := Connected, h := c.h.(connackSeen := true)));
  }

  /**
    Every step keeps the state, moves it up, or closes the connection, unless an accepting CONNACK arrives
    beyond `connected`: then, and only then, it goes back.
   */
  lemma StepMovesOn(c: Client, a: Action)
    requires Basic(c) && Enabled(c, a)
    ensures a.Received? && a.e.Connack? && a.e.returnCode == 0 ==>
              Step(c, a).state in {Connected, DisconnectingTcp1}
    ensures !Reopens(c, a) ==> MovesOn(c.state, Step(c, a).state)
    ensures Reopens(c, a) && Step(c, a).state == Connected ==> !MovesOn(c.state, Step(c, a).state)
  {
    hide AdvanceOutbox, ClearQueue, OnConnack, SendPacket, Apply, Added;
    if Plain(a) {
      PlainStates(c, a);
    } else {
      match a {
        case Received(e, _) => ConnackState(c, e);
        case SendAndAdvance(w, now) =>
          SendBasic(c, w, now);
          AdvanceState(SendPacket(c, w, now));
        case SendOnly(w, now) => SendBasic(c, w, now);
        case DoClearQueue(all) => ClearBasic(c, if all then 2 else 0);
        case _ =>
      }
    }
  }

  // ---- callbacks ----

  /** Where a connection stands, as connect() calls and callbacks tell it. */
  datatype Phase = Idle | Opened | Announced | Broken

  function Next(p: Phase, n: Note): Phase {
    match n
    case ConnectCalled => if p == Idle then Opened else Broken
    case OnConnect(_) => if p == Opened then Announced else Broken
    case OnDisconnect(_) => if p == Opened || p == Announced then Idle else Broken
    case _ => p
  }

  function PhaseAfter(p: Phase, ns: seq<Note>): Phase
    decreases |ns|
  {
    if ns == [] then p else PhaseAfter(Next(p, ns[0]), ns[1..])
  }

  lemma {:induction false} PhaseAppend(p: Phase, a: seq<Note>, b: seq<Note>)
    ensures PhaseAfter(p, a + b) == PhaseAfter(PhaseAfter(p, a), b)
    decreases |a|
  {
    if a == [] {
      assert a + b == b;
    } else {
      assert (a + b)[0] == a[0] && (a + b)[1..] == a[1..] + b;
      PhaseAppend(Next(p, a[0]), a[1..], b);
    }
  }

  // once out of step, always out of step
  lemma {:induction false} BrokenStays(ns: seq<Note>)
    ensures PhaseAfter(Broken, ns) == Broken
  {
    if ns != [] { BrokenStays(ns[1..]); }
  }

  predicate Quiet(ns: seq<Note>) {
    forall n :: n in ns ==> !n.ConnectCalled? && !n.OnConnect? && !n.OnDisconnect?
  }

  lemma {:induction false} QuietPhase(p: Phase, ns: seq<Note>)
    requires Quiet(ns)
    ensures PhaseAfter(p, ns) == p
  {
    if ns != [] {
      assert ns[0] in ns;
      QuietPhase(p, ns[1..]);
    }
  }

  lemma {:induction false} LossesQuiet(q: seq<Item>, level: nat)
    ensures Quiet(Losses(q, level))
  {
    if q != [] { LossesQuiet(q[1..], level); }
  }

  /** The callbacks so far agree with the connection state. */
  predicate InStep(c: Client) {
    var p := PhaseAfter(Idle, c.h.notes);
    if c.state == Disconnected then p == Idle else (p == Opened || (p == Announced && c.h.connackSeen))
  }

  // the environment's part: one CONNACK per connection (section 3.2 of MQTT 3.1.1)
  predicate OneConnack(c: Client, a: Action) {
    a.Received? && a.e.Connack? ==> !c.h.connackSeen
  }

  lemma EditQuiet(c: Client, a: Action)
    requires Plain(a) && Enabled(c, a)
    ensures Quiet(EditFor(c, a).notes)
  {
    hide Elapsed, Quiet, Response, NextPacketId, Added;
    if a.Received? { ResponseQuiet(c.queue, a.e, a.mem); }
    SmallQuiet();
  }

  lemma ResponseQuiet(q: seq<Item>, e: P.Event, mem: Memory)
    requires WellFormedEvent(e)
    ensures Quiet(Response(q, e, mem).notes)
  {
    hide FirstOf, FirstWith, FirstId, Added;
  }

  // the notes of the user calls and timers
  lemma SmallQuiet()
    ensures Quiet([]) && forall id :: Quiet([OnError(id)]) && Quiet([Accepted(id)])
  {
  }

  lemma NotesPhase(c: Client, a: Action)
    requires Basic(c) && Enabled(c, a) && InStep(c) && OneConnack(c, a)
    ensures var p, q := PhaseAfter(Idle, c.h.notes), PhaseAfter(Idle, Step(c, a).h.notes);
            var opens := a.DoConnect? && c.state == Disconnected && a.mem == Granted;
            var announces := a.Received? && a.e.Connack? && a.e.returnCode == 0;
            q == if opens then Opened else if a.TcpGone? then Idle else if announces then Announced else p
  {
    hide Step, Losses, PhaseAfter, AdvanceOutbox, Kept;
    var p, ns := PhaseAfter(Idle, c.h.notes), NewNotes(c, a);
    NotesGrow(c, a);
    PhaseAppend(Idle, c.h.notes, ns);
    if Plain(a) {
      EditQuiet(c, a);
      QuietPhase(p, ns);
    } else {
      match a {
        case DoConnect(mem) => if ns != [] { PhaseOne(p, ns[0]); } else { QuietPhase(p, ns); }
        case DoClearQueue(all) =>
          LossesQuiet(c.queue, if all then 2 else 0);
          QuietPhase(p, ns);
        case TcpGone => QuietThen(p, Losses(c.queue, 0), OnDisconnect(c.reason), c.queue, 0);
        case Received(e, _) =>
          if e.returnCode == 0 {
            var q := AdvanceOutbox(c.(pingSent := false, state := Connected, h := c.h.(connackSeen := true))).queue;
            LossesQuiet(q, 1);
            QuietThen(p, if e.sessionPresent == 0 then Losses(q, 1) else [], OnConnect(e.sessionPresent != 0),
                      if e.sessionPresent == 0 then q else [], 1);
          } else {
            QuietPhase(p, ns);
          }
        case _ => QuietPhase(p, ns);
      }
    }
  }

  lemma PhaseOne(p: Phase, n: Note)
    ensures PhaseAfter(p, [n]) == Next(p, n)
  {
    assert [n][1..] == [];
  }

  lemma QuietThen(p: Phase, quiet: seq<Note>, n: Note, q: seq<Item>, level: nat)
    requires quiet == Losses(q, level) || quiet == []
    ensures PhaseAfter(p, quiet + [n]) == Next(p, n)
  {
    LossesQuiet(q, level);
    QuietPhase(p, quiet);
    PhaseAppend(p, quiet, [n]);
    PhaseOne(p, n);
  }

  lemma StepInStep(c: Client, a: Action)
    requires Basic(c) && Enabled(c, a) && InStep(c) && OneConnack(c, a)
    ensures InStep(Step(c, a))
  {
    NotesPhase(c, a);
    StepMovesOn(c, a);
    SeenStays(c, a);
    OnlyConnectOpens(c, a);
  }

  // CONNACK is forgotten only by a new connect()
  lemma SeenStays(c: Client, a: Action)
    requires Basic(c) && Enabled(c, a)
    ensures c.h.connackSeen && c.state != Disconnected ==> Step(c, a).h.connackSeen
    ensures a.Received? && a.e.Connack? ==> Step(c, a).h.connackSeen
  {
    if Plain(a) {
      PlainStep(c, a);
    } else {
      hide AdvanceOutbox, ClearQueue, OnConnack, SendPacket;
      match a {
        case Received(e, _) => ConnackState(c, e);
        case SendAndAdvance(w, now) =>
          SendBasic(c, w, now);
          AdvanceState(SendPacket(c, w, now));
        case SendOnly(w, now) => SendBasic(c, w, now);
        case DoClearQueue(all) => ClearBasic(c, if all then 2 else 0);
        case TcpGone => ClearBasic(c, 0);
        case _ =>
      }
    }
  }

  lemma OnlyConnectOpens(c: Client, a: Action)
    requires Basic(c) && Enabled(c, a)
    ensures c.state == Disconnected && Step(c, a).state != Disconnected <==> a.DoConnect? && c.state == Disconnected && a.mem == Granted
    ensures c.state != Disconnected && Step(c, a).state == Disconnected <==> a.TcpGone?
  {
    StepMovesOn(c, a);
    if Plain(a) {
      PlainStates(c, a);
    } else {
      hide AdvanceOutbox, ClearQueue, OnConnack, SendPacket, AddPacketFront;
      if a.DoClearQueue? { ClearBasic(c, if a.deleteSessionData then 2 else 0); }
    }
  }

  predicate OneConnackEach(c: Client, acts: seq<Action>)
    requires EnabledRun(c, acts)
    decreases |acts|
  {
    acts == [] || (OneConnack(c, acts[0]) && OneConnackEach(Step(c, acts[0]), acts[1..]))
  }

  /**
    Lifecycle: with one CONNACK per connection, successful connect() calls and onDisconnect callbacks strictly
    alternate in every run, with at most one onConnect in between.
   */
  lemma {:induction false} Lifecycle(c: Client, acts: seq<Action>)
    requires EnabledRun(c, acts) && Basic(c) && InStep(c) && OneConnackEach(c, acts)
    ensures InStep(Run(c, acts)) && PhaseAfter(Idle, Run(c, acts).h.notes) != Broken
    decreases |acts|
  {
    hide Step, Enabled, InStep, Basic, OneConnack;
    if acts != [] {
      StepInStep(c, acts[0]);
      StepBasic(c, acts[0]);
      Lifecycle(Step(c, acts[0]), acts[1..]);
    } else {
      assert InStep(c);
      NeverBroken(c);
    }
  }

  // a CONNACK that is the connection's first cannot reopen it
  lemma FirstConnack(c: Client, a: Action)
    requires Basic(c) && Enabled(c, a) && OneConnack(c, a)
    ensures !Reopens(c, a)
  {
  }

  /** With one CONNACK per connection, a run that does not close a connection never goes back to an earlier state. */
  lemma {:induction false} RunMovesOn(c: Client, acts: seq<Action>)
    requires EnabledRun(c, acts) && Basic(c) && OneConnackEach(c, acts) && TcpGone !in acts
    ensures Number(Run(c, acts).state) >= Number(c.state)
    decreases |acts|
  {
    hide Step, Enabled, Reopens, OneConnack;
    if acts != [] {
      assert acts[0] in acts;
      FirstConnack(c, acts[0]);
      StepMovesOn(c, acts[0]);
      StepBasic(c, acts[0]);
      OnlyGoneCloses(c, acts[0]);
      RunMovesOn(Step(c, acts[0]), acts[1..]);
    }
  }

  lemma OnlyGoneCloses(c: Client, a: Action)
    requires Basic(c) && Enabled(c, a)
    ensures Step(c, a).state == Disconnected && c.state != Disconnected ==> a == TcpGone
  {
    if Plain(a) {
      PlainStates(c, a);
    } else {
      hide AdvanceOutbox, ClearQueue, OnConnack, SendPacket;
      match a {
        case Received(e, _) => ConnackState(c, e);
        case SendAndAdvance(w, now) =>
          SendBasic(c, w, now);
          AdvanceState(SendPacket(c, w, now));
        case SendOnly(w, now) => SendBasic(c, w, now);
        case DoClearQueue(all) => ClearBasic(c, if all then 2 else 0);
        case _ =>
      }
    }
  }

  lemma NeverBroken(c: Client)
    requires InStep(c)
    ensures PhaseAfter(Idle, c.h.notes) != Broken
  {
  }

  // ---- what it means for the callbacks not to be out of step ----

  // the phases right after position i and right before position j
  lemma Around(ns: seq<Note>, i: nat, j: nat) returns (p: Phase, q: Phase)
    requires PhaseAfter(Idle, ns) != Broken && i < j < |ns|
    ensures p == Next(PhaseAfter(Idle, ns[..i]), ns[i]) && q == PhaseAfter(p, ns[i + 1..j])
    ensures p != Broken && q != Broken && Next(q, ns[j]) != Broken
  {
    var before, tail := ns[..i] + ([ns[i]] + ns[i + 1..j]), [ns[j]] + ns[j + 1..];
    assert ns == before + tail;
    PhaseAppend(Idle, before, tail);
    PhaseAppend(Idle, ns[..i], [ns[i]] + ns[i + 1..j]);
    PhaseAppend(PhaseAfter(Idle, ns[..i]), [ns[i]], ns[i + 1..j]);
    PhaseOne(PhaseAfter(Idle, ns[..i]), ns[i]);
    p := Next(PhaseAfter(Idle, ns[..i]), ns[i]);
    q := PhaseAfter(p, ns[i + 1..j]);
    PhaseAppend(q, [ns[j]], ns[j + 1..]);
    PhaseOne(q, ns[j]);
    BrokenStays(ns[i + 1..j]);
    BrokenStays(ns[j + 1..]);
  }

  // without onDisconnect a connection stays as far as it has got; without connect() a closed one stays closed
  lemma {:induction false} PhaseStays(p: Phase, ns: seq<Note>)
    requires PhaseAfter(p, ns) != Broken
    ensures (forall n :: n in ns ==> !n.OnDisconnect?) ==>
      (p != Idle ==> PhaseAfter(p, ns) != Idle) && (p == Announced ==> PhaseAfter(p, ns) == Announced)
    ensures (forall n :: n in ns ==> !n.ConnectCalled?) ==> (p == Idle ==> PhaseAfter(p, ns) == Idle)
    decreases |ns|
  {
    if ns != [] {
      assert ns[0] in ns;
      BrokenStays(ns[1..]);
      PhaseStays(Next(p, ns[0]), ns[1..]);
    }
  }

  /**
    Between two successful connects there is an onDisconnect, between two onDisconnects a connect, and between
    two onConnects an onDisconnect.
   */
  lemma {:induction false} CallbacksAlternate(ns: seq<Note>, i: nat, j: nat)
    requires PhaseAfter(Idle, ns) != Broken && i < j < |ns|
    ensures ns[i].ConnectCalled? && ns[j].ConnectCalled? ==> exists k :: i < k < j && ns[k].OnDisconnect?
    ensures ns[i].OnConnect? && ns[j].OnConnect? ==> exists k :: i < k < j && ns[k].OnDisconnect?
    ensures ns[i].OnDisconnect? && ns[j].OnDisconnect? ==> exists k :: i < k < j && ns[k].ConnectCalled?
  {
    var p, q := Around(ns, i, j);
    PhaseStays(p, ns[i + 1..j]);
  }
}
