/**
  Receiving at QoS 2, method B of section 4.3.3 of MQTT 3.1.1: the id of a message that was handed to the
  application is kept in a PUBREC packet until its PUBREL, and a message whose id is kept is not handed over.
 */
module ClientQos2 {
  import opened Bytes
  import opened Constants
  import opened PacketSpec
  import opened Outbox
  import opened ClientSpec
  import opened ClientRuns
  import opened ClientLedger
  import P = ParserSpec

  /** A QoS 2 message with this id arrived to its end. */
  predicate Arrival(n: Note) {
    n.Stored? || n.Unstored?
  }

  /** As many ids stored as released or forgotten. */
  predicate Settled(ns: seq<Note>, id: nat) {
    Credits(ns, Incoming(id)) == Debits(ns, Incoming(id))
  }

  /** Every message was handed over exactly when all earlier storings of its id had been settled. */
  predicate DecisionsOk(ns: seq<Note>) {
    forall j :: 0 <= j < |ns| && Arrival(ns[j]) ==> (ns[j].delivered <==> Settled(ns[..j], ns[j].id))
  }

  // the queue holds a PUBREC with the id exactly when the account of the id is open
  lemma {:induction false} KnownIff(q: seq<Item>, id: nat)
    requires id != 0
    ensures FirstWith(q, PUBREC, id) < |q| <==> Ids(q, Incoming(id)) > 0
  {
    if q != [] { KnownIff(q[1..], id); }
  }

  // new notes contain at most one arrival, in front, decided by the account as it stood
  lemma ArrivalDecided(c: Client, a: Action, j: nat)
    requires c.cursor <= |c.queue| && Enabled(c, a) && forall id :: Balanced(c, Incoming(id))
    requires j < |NewNotes(c, a)| && Arrival(NewNotes(c, a)[j])
    ensures var n := NewNotes(c, a)[j]; j == 0 && (n.delivered <==> Settled(c.h.notes, n.id))
  {
    hide Losses, Elapsed, Credits, Debits, AdvanceOutbox, Settled;
    if a.Received? && a.e.Publish? {
      PublishDecided(c, a.e, a.mem, j);
    } else {
      OthersBringNothing(c, a, j);
    }
  }

  lemma PublishDecided(c: Client, e: P.Event, mem: Memory, j: nat)
    requires c.cursor <= |c.queue| && Enabled(c, Received(e, mem)) && e.Publish? && Balanced(c, Incoming(e.id))
    requires j < |NewNotes(c, Received(e, mem))| && Arrival(NewNotes(c, Received(e, mem))[j])
    ensures var n := NewNotes(c, Received(e, mem))[j]; j == 0 && (n.delivered <==> Settled(c.h.notes, n.id))
  {
    hide Losses, Elapsed, Credits, Debits, AdvanceOutbox;
    KnownIff(c.queue, e.id);
  }

  lemma OthersBringNothing(c: Client, a: Action, j: nat)
    requires c.cursor <= |c.queue| && Enabled(c, a) && !(a.Received? && a.e.Publish?)
    requires j < |NewNotes(c, a)|
    ensures !Arrival(NewNotes(c, a)[j])
  {
    hide Losses, Elapsed, AdvanceOutbox;
    if !Plain(a) {
      forall q: seq<Item>, level: nat, k | 0 <= k < |Losses(q, level)| ensures !Arrival(Losses(q, level)[k]) { LossesNoArrival(q, level, k); }
    }
  }

  lemma {:induction false} LossesNoArrival(q: seq<Item>, level: nat, k: nat)
    requires k < |Losses(q, level)|
    ensures !Arrival(Losses(q, level)[k])
  {
    var here := if Keeps(level, q[0]) then [] else Loss(q[0]);
    if k >= |here| { LossesNoArrival(q[1..], level, k - |here|); }
  }

  lemma StepDecisions(c: Client, a: Action)
    requires c.cursor <= |c.queue| && Enabled(c, a) && DecisionsOk(c.h.notes) && forall id :: Balanced(c, Incoming(id))
    ensures DecisionsOk(Step(c, a).h.notes)
  {
    hide Step, NewNotes, Settled, Enabled;
    var old_, new_ := c.h.notes, NewNotes(c, a);
    NotesGrow(c, a);
    var ns := old_ + new_;
    forall j | 0 <= j < |ns| && Arrival(ns[j]) ensures ns[j].delivered <==> Settled(ns[..j], ns[j].id) {
      if j < |old_| {
        assert ns[..j] == old_[..j] && ns[j] == old_[j];
      } else {
        ArrivalDecided(c, a, j - |old_|);
        assert ns[..|old_|] == old_;
      }
    }
  }

  lemma {:induction false} RunDecisions(c: Client, acts: seq<Action>)
    requires EnabledRun(c, acts) && Basic(c) && DecisionsOk(c.h.notes) && forall id :: Balanced(c, Incoming(id))
    ensures DecisionsOk(Run(c, acts).h.notes)
    decreases |acts|
  {
    hide Step, Enabled, Balanced, DecisionsOk;
    if acts != [] {
      StepBasic(c, acts[0]);
      forall id ensures Balanced(Step(c, acts[0]), Incoming(id)) { StepBalanced(c, acts[0], Incoming(id)); }
      StepDecisions(c, acts[0]);
      RunDecisions(Step(c, acts[0]), acts[1..]);
    }
  }

  // an account with nothing booked out after position i has not gone down since
  lemma {:induction false} OpenSince(ns: seq<Note>, i: nat, j: nat, id: nat)
    requires i <= j <= |ns|
    requires forall k :: i <= k < j ==> ns[k] != Released(id) && ns[k] != Forgotten(id)
    ensures Credits(ns[..j], Incoming(id)) >= Credits(ns[..i], Incoming(id))
    ensures Debits(ns[..j], Incoming(id)) == Debits(ns[..i], Incoming(id))
    decreases j - i
  {
    if i < j {
      OpenSince(ns, i, j - 1, id);
      assert ns[..j] == ns[..j - 1] + [ns[j - 1]];
      SumsAppend(ns[..j - 1], [ns[j - 1]], Incoming(id));
      Singleton(ns[j - 1], Incoming(id));
    }
  }

  /**
    Exactly once: in every run, two complete deliveries of QoS 2 messages with the same id, the first of which
    could be stored, have a PUBREL matched for that id between them, unless its PUBREC was lost otherwise.
   */
  lemma {:induction false} ExactlyOnce(config: Config, acts: seq<Action>, i: nat, j: nat, id: nat)
    requires EnabledRun(Init(config), acts) && ConfigOk(config)
    requires i < j < |Run(Init(config), acts).h.notes|
    requires var ns := Run(Init(config), acts).h.notes;
             ns[i] == Stored(id, true) && (ns[j] == Stored(id, true) || ns[j] == Unstored(id, true))
    ensures var ns := Run(Init(config), acts).h.notes;
            exists k :: i < k < j && (ns[k] == Released(id) || ns[k] == Forgotten(id))
  {
    var c := Init(config);
    var ns := Run(c, acts).h.notes;
    RunDecisions(c, acts);
    assert Settled(ns[..i], id) && Settled(ns[..j], id);
    if forall k :: i < k < j ==> ns[k] != Released(id) && ns[k] != Forgotten(id) {
      assert ns[..i + 1] == ns[..i] + [ns[i]];
      SumsAppend(ns[..i], [ns[i]], Incoming(id));
      Singleton(ns[i], Incoming(id));
      OpenSince(ns, i + 1, j, id);
    }
  }

  /** The other half: a message is handed over exactly when every earlier storing of its id has been settled. */
  lemma {:induction false} DeliveredExactly(config: Config, acts: seq<Action>, j: nat)
    requires EnabledRun(Init(config), acts) && ConfigOk(config)
    requires j < |Run(Init(config), acts).h.notes| && Arrival(Run(Init(config), acts).h.notes[j])
    ensures var ns := Run(Init(config), acts).h.notes;
            ns[j].delivered <==> Settled(ns[..j], ns[j].id)
  {
    RunDecisions(Init(config), acts);
  }

  // the account after a step
  lemma AccountStep(c: Client, a: Action, id: nat)
    requires Basic(c) && Enabled(c, a) && Balanced(c, Incoming(id))
    ensures var d := Step(c, a);
            && Basic(d) && Balanced(d, Incoming(id))
            && Ids(d.queue, Incoming(id)) + Debits(NewNotes(c, a), Incoming(id)) == Ids(c.queue, Incoming(id)) + Credits(NewNotes(c, a), Incoming(id))
  {
    hide Step, NewNotes, Enabled;
    StepBasic(c, a);
    StepBalanced(c, a, Incoming(id));
    NotesGrow(c, a);
    SumsAppend(c.h.notes, NewNotes(c, a), Incoming(id));
  }

  // a complete QoS 2 message is stored whether it is new or not
  lemma MessageStep(c: Client, e: P.Event)
    requires Basic(c) && c.state == Connected && e.Publish? && WellFormedEvent(e) && QosBits(e.header) == 2 && Last(e)
    requires Balanced(c, Incoming(e.id))
    ensures var d := Step(c, Received(e, Granted));
            var known := Ids(c.queue, Incoming(e.id)) > 0;
            && Basic(d) && Balanced(d, Incoming(e.id)) && d.state == Connected
            && Ids(d.queue, Incoming(e.id)) == Ids(c.queue, Incoming(e.id)) + 1
            && NewNotes(c, Received(e, Granted)) == [Stored(e.id, !known)] + if known then [] else [Fragment(e)]
  {
    hide Step, Enabled, NewNotes, Credits, Debits, Balanced, Basic, Ids;
    var a := Received(e, Granted);
    MessageTaken(c, e);
    AccountStep(c, a, e.id);
    var stored, rest := Stored(e.id, Ids(c.queue, Incoming(e.id)) == 0), if Ids(c.queue, Incoming(e.id)) > 0 then [] else [Fragment(e)];
    SumsAppend([stored], rest, Incoming(e.id));
    Singleton(stored, Incoming(e.id));
    Singleton(Fragment(e), Incoming(e.id));
    NoNotes(Incoming(e.id));
  }

  lemma MessageTaken(c: Client, e: P.Event)
    requires Basic(c) && c.state == Connected && e.Publish? && WellFormedEvent(e) && QosBits(e.header) == 2 && Last(e)
    ensures var a, known := Received(e, Granted), Ids(c.queue, Incoming(e.id)) > 0;
            Enabled(c, a) && Step(c, a).state == Connected
            && NewNotes(c, a) == [Stored(e.id, !known)] + if known then [] else [Fragment(e)]
  {
    hide FirstWith, Ids, AckBytes;
    KnownIff(c.queue, e.id);
  }

  /**
    At least once does not hold: when a QoS 2 message arrives twice before its PUBREL, that PUBREL settles only
    one of the two stored ids, and the next message with the id is kept from the application.
   */
  lemma {:induction false} RepeatHidesNextMessage(c: Client, e: P.Event)
    requires Basic(c) && c.state == Connected && e.Publish? && WellFormedEvent(e) && QosBits(e.header) == 2 && Last(e)
    requires Balanced(c, Incoming(e.id)) && Ids(c.queue, Incoming(e.id)) == 0
    ensures var arrive, release := Received(e, Granted), Received(P.Ack(PUBREL + 2, e.id), Granted);
            Enabled(c, arrive) &&
            var c1 := Step(c, arrive);
            Basic(c1) && Enabled(c1, arrive) &&
            var c2 := Step(c1, arrive);
            Basic(c2) && Enabled(c2, release) &&
            var c3 := Step(c2, release);
            Basic(c3) && Enabled(c3, arrive) && NewNotes(c3, arrive) == [Stored(e.id, false)]
  {
    var arrive, release := Received(e, Granted), Received(P.Ack(PUBREL + 2, e.id), Granted);
    assert Kind(PUBREL + 2) == PUBREL;
    assert WellFormedEvent(release.e);
    hide Apply, Credits, Debits, Step, WellFormedEvent, NewNotes;
    MessageStep(c, e);
    var c1 := Step(c, arrive);
    MessageStep(c1, e);
    var c2 := Step(c1, arrive);
    AccountStep(c2, release, e.id);
    ReleaseNotes(c2, e.id);
    ReleaseKeepsState(c2, e.id);
    MessageStep(Step(c2, release), e);
  }

  lemma ReleaseNotes(c: Client, id: nat)
    requires Basic(c) && c.state == Connected && 0 < id < 65536
    ensures Debits(NewNotes(c, Received(P.Ack(PUBREL + 2, id), Granted)), Incoming(id)) <= 1
  {
    assert Kind(PUBREL + 2) == PUBREL;
    Singleton(Released(id), Incoming(id));
  }

  lemma ReleaseKeepsState(c: Client, id: nat)
    requires Basic(c) && c.state == Connected && 0 < id < 65536
    ensures Step(c, Received(P.Ack(PUBREL + 2, id), Granted)).state == Connected
  {
    hide Response;
  }
}
