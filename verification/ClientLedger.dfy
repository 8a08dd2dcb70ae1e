/**
  Where message ids go. Two ledgers are kept balanced by every step: outgoing QoS > 0 messages from their
  acceptance, and received QoS 2 messages from the moment their id is stored in a PUBREC.
 */
module ClientLedger {
  import opened Bytes
  import opened Constants
  import opened Options
  import opened PacketSpec
  import opened Outbox
  import opened ClientSpec
  import opened ClientRuns
  import P = ParserSpec

  /** The account of one id in one of the ledgers. */
  datatype Account = Outgoing(id: nat) | Incoming(id: nat)

  function One(there: bool): nat {
    if there then 1 else 0
  }

  function Weight(p: Item, l: Account): nat {
    One(p.id == l.id && if l.Outgoing? then InFlight(p) else Receipt(p))
  }

  /** How often a queue holds the id: as in-flight outgoing message, or as stored incoming one. */
  function Ids(q: seq<Item>, l: Account): nat {
    if q == [] then 0 else Weight(q[0], l) + Ids(q[1..], l)
  }

  function Credit(n: Note, l: Account): nat {
    match n
    case Accepted(id) => One(l == Outgoing(id))
    case Stored(id, _) => One(l == Incoming(id))
    case _ => 0
  }

  function Debit(n: Note, l: Account): nat {
    match n
    case Completed(id) => One(l == Outgoing(id))
    case Discarded(id) => One(l == Outgoing(id))
    case Released(id) => One(l == Incoming(id))
    case Forgotten(id) => One(l == Incoming(id))
    case _ => 0
  }

  function Credits(ns: seq<Note>, l: Account): nat {
    if ns == [] then 0 else Credit(ns[0], l) + Credits(ns[1..], l)
  }

  function Debits(ns: seq<Note>, l: Account): nat {
    if ns == [] then 0 else Debit(ns[0], l) + Debits(ns[1..], l)
  }

  /** Everything that came in has left, or is still there. */
  predicate Balanced(c: Client, l: Account) {
    Credits(c.h.notes, l) == Debits(c.h.notes, l) + Ids(c.queue, l)
  }

  // ---- sums over lists ----

  lemma {:induction false} SumsAppend(a: seq<Note>, b: seq<Note>, l: Account)
    ensures Credits(a + b, l) == Credits(a, l) + Credits(b, l)
    ensures Debits(a + b, l) == Debits(a, l) + Debits(b, l)
  {
    if a == [] {
      assert a + b == b;
    } else {
      assert (a + b)[0] == a[0] && (a + b)[1..] == a[1..] + b;
      SumsAppend(a[1..], b, l);
    }
  }

  lemma {:induction false} IdsAppend(a: seq<Item>, b: seq<Item>, l: Account)
    ensures Ids(a + b, l) == Ids(a, l) + Ids(b, l)
  {
    if a == [] {
      assert a + b == b;
    } else {
      assert (a + b)[0] == a[0] && (a + b)[1..] == a[1..] + b;
      IdsAppend(a[1..], b, l);
    }
  }

  lemma IdsOne(p: Item, l: Account)
    ensures Ids([p], l) == Weight(p, l)
  {
    assert [p][1..] == [];
  }

  lemma IdsWithout(q: seq<Item>, i: nat, l: Account)
    requires i < |q|
    ensures Ids(q, l) == Ids(Without(q, i), l) + Weight(q[i], l)
  {
    hide Ids, Weight;
    IdsAppend(q[..i], q[i + 1..], l);
    IdsAppend(q[..i], [q[i]] + q[i + 1..], l);
    IdsAppend([q[i]], q[i + 1..], l);
    IdsOne(q[i], l);
    assert q == q[..i] + ([q[i]] + q[i + 1..]);
  }

  lemma IdsUpdate(q: seq<Item>, i: nat, p: Item, l: Account)
    requires i < |q| && Weight(p, l) == Weight(q[i], l)
    ensures Ids(q[i := p], l) == Ids(q, l)
  {
    IdsWithout(q, i, l);
    IdsWithout(q[i := p], i, l);
    assert Without(q[i := p], i) == Without(q, i);
  }

  // what clearing loses is what it removes
  lemma {:induction false} IdsKept(q: seq<Item>, level: nat, l: Account)
    ensures Ids(q, l) == Ids(Kept(q, level), l) + Debits(Losses(q, level), l)
    ensures Credits(Losses(q, level), l) == 0
  {
    if q != [] {
      var kept, lost := if Keeps(level, q[0]) then [q[0]] else [], if Keeps(level, q[0]) then [] else Loss(q[0]);
      IdsKept(q[1..], level, l);
      IdsAppend(kept, Kept(q[1..], level), l);
      SumsAppend(lost, Losses(q[1..], level), l);
      IdsOne(q[0], l);
      LossWeight(q[0], l);
      assert kept == [] ==> Ids(kept, l) == 0;
    }
  }

  lemma LossWeight(p: Item, l: Account)
    ensures Debits(Loss(p), l) == Weight(p, l) && Credits(Loss(p), l) == 0
  {
    if Loss(p) != [] { assert Loss(p)[1..] == []; }
  }

  // ---- edits ----

  // weight of what an edit appends and of what it removes
  function AddWeight(e: Edit, l: Account): nat {
    match e.add
    case None => 0
    case Some(p) => Weight(Item(p.bytes, p.id, 0, 0, false), l)
  }

  function RemoveWeight(q: seq<Item>, e: Edit, l: Account): nat
    requires e.remove.Some? ==> e.remove.value < |q|
  {
    match e.remove
    case None => 0
    case Some(i) => Weight(q[i], l)
  }

  predicate FairEdit(q: seq<Item>, e: Edit, l: Account) {
    && (e.remove.Some? ==> e.remove.value < |q|)
    && Credits(e.notes, l) + RemoveWeight(q, e, l) == Debits(e.notes, l) + AddWeight(e, l)
  }

  lemma ApplyBalanced(c: Client, e: Edit, l: Account)
    requires Balanced(c, l) && FairEdit(c.queue, e, l)
    ensures Balanced(Apply(c, e), l)
  {
    hide Ids, Credits, Debits, Weight;
    var c1 := AppendNew(c, e.add);
    SumsAppend(c.h.notes, e.notes, l);
    if e.add.Some? {
      var p := c1.queue[|c.queue|];
      IdsAppend(c.queue, [p], l);
      IdsOne(p, l);
      assert Weight(p, l) == AddWeight(e, l) by { SameWeight(p, Item(e.add.value.bytes, e.add.value.id, 0, 0, false), l); }
    }
    if e.remove.Some? {
      IdsWithout(c1.queue, e.remove.value, l);
      assert c1.queue[e.remove.value] == c.queue[e.remove.value];
    }
  }

  lemma SameWeight(p: Item, q: Item, l: Account)
    requires TypeOf(p) == TypeOf(q) && p.id == q.id
    ensures Weight(p, l) == Weight(q, l)
  {
  }

  lemma Singleton(n: Note, l: Account)
    ensures Credits([n], l) == Credit(n, l) && Debits([n], l) == Debit(n, l)
  {
    assert [n][1..] == [];
  }

  lemma FirstBytes(id: nat, topic: seq<byte>, payload: seq<byte>, qos: nat, retain: bool, items: seq<SubscribeItem>, topics: seq<seq<byte>>)
    requires id < 65536 && qos <= 2
    ensures var b := PublishBytes(id, topic, payload, qos, retain); b != [] && Kind(b[0]) == PUBLISH
    ensures var b := SubscribeBytes(id, items); b != [] && Kind(b[0]) == SUBSCRIBE
    ensures var b := UnsubscribeBytes(id, topics); b != [] && Kind(b[0]) == UNSUBSCRIBE
  {
    assert Kind(SUBSCRIBE + 2) == SUBSCRIBE && Kind(UNSUBSCRIBE + 2) == UNSUBSCRIBE;
  }

  lemma AckFirstByte(kind: byte, id: nat)
    requires id < 65536 && kind in {PUBACK, PUBREC, PUBREL, PUBCOMP}
    ensures Kind(AckBytes(kind, id)[0]) == kind
  {
  }

  lemma OnPublishFair(q: seq<Item>, e: P.Event, mem: Memory, l: Account)
    requires e.Publish? && WellFormedEvent(e)
    ensures FairEdit(q, OnPublish(q, e, mem), l)
  {
    var id, r := e.id, OnPublish(q, e, mem);
    AckFirstByte(PUBACK, id);
    AckFirstByte(PUBREC, id);
    Singleton(Fragment(e), l);
    if r.notes != [] {
      SumsAppend([r.notes[0]], r.notes[1..], l);
      Singleton(r.notes[0], l);
      assert r.notes == [r.notes[0]] + r.notes[1..];
    }
    hide AckBytes, FirstWith, Credits, Debits;
  }

  // what a handler removes is accounted for by the packet it appends and the note it makes
  lemma AnswerFair(q: seq<Item>, id: nat, mem: Memory, l: Account)
    requires 0 < id < 65536
    ensures FairEdit(q, OnPuback(q, id), l) && FairEdit(q, OnPubcomp(q, id), l)
    ensures FairEdit(q, OnPubrec(q, id, mem), l) && FairEdit(q, OnPubrel(q, id, mem), l)
  {
    hide AckBytes, FirstOf, Credits, Debits, OnPubrec, OnPubrel, FairEdit;
    CompletionFair(q, id, l);
    HandshakeFair(q, id, mem, l);
  }

  lemma CompletionFair(q: seq<Item>, id: nat, l: Account)
    requires 0 < id < 65536
    ensures FairEdit(q, OnPuback(q, id), l) && FairEdit(q, OnPubcomp(q, id), l)
  {
    hide FirstOf, Credits, Debits;
    Singleton(Completed(id), l);
    NoNotes(l);
  }

  lemma HandshakeFair(q: seq<Item>, id: nat, mem: Memory, l: Account)
    requires 0 < id < 65536
    ensures FairEdit(q, OnPubrec(q, id, mem), l) && FairEdit(q, OnPubrel(q, id, mem), l)
  {
    hide AckBytes, FirstOf, Credits, Debits;
    AckFirstByte(PUBREL, id);
    AckFirstByte(PUBCOMP, id);
    Singleton(Discarded(id), l);
    Singleton(Released(id), l);
    NoNotes(l);
  }

  lemma NoNotes(l: Account)
    ensures Credits([], l) == 0 && Debits([], l) == 0
  {
  }

  lemma RemovalFair(q: seq<Item>, id: nat, l: Account)
    requires 0 < id < 65536
    ensures FairEdit(q, OnSuback(q, id), l) && FairEdit(q, OnUnsuback(q, id), l)
  {
    Singleton(OnSubscribe(id), l);
    Singleton(OnUnsubscribe(id), l);
    var i := FirstId(q, id);
    if i < |q| {
      LossWeight(q[i], l);
      SumsAppend(Loss(q[i]), [OnUnsubscribe(id)], l);
    }
    NoNotes(l);
    hide FirstId, FirstWith, Credits, Debits, Loss;
  }

  lemma ResponseFair(q: seq<Item>, e: P.Event, mem: Memory, l: Account)
    requires WellFormedEvent(e)
    ensures FairEdit(q, Response(q, e, mem), l)
  {
    NoNotes(l);
    hide OnPublish, OnPuback, OnPubrec, OnPubrel, OnPubcomp, OnSuback, OnUnsuback, Credits, Debits;
    match e {
      case Publish(_, _, _, _, _, _) => OnPublishFair(q, e, mem, l);
      case Ack(header, id) =>
        AnswerFair(q, id, mem, l);
        RemovalFair(q, id, l);
      case Suback(id, _) => RemovalFair(q, id, l);
      case _ =>
    }
  }

  // packets that are neither messages nor receipts do not enter any account
  lemma NeutralAdd(bytes: seq<byte>, id: nat, mem: Memory, notes: seq<Note>, q: seq<Item>, l: Account)
    requires bytes != [] && (id == 0 || Kind(bytes[0]) !in {PUBLISH, PUBREL, PUBREC})
    requires Credits(notes, l) == Debits(notes, l) == 0
    ensures FairEdit(q, Edit(Added(bytes, id, mem), None, notes), l)
  {
  }

  lemma NothingFair(q: seq<Item>, l: Account)
    ensures FairEdit(q, NOTHING, l)
  {
  }

  lemma BareFair(kind: byte)
    ensures BareBytes(kind) != []
  {
  }

  lemma PublishFair(q: seq<Item>, id: nat, topic: seq<byte>, payload: seq<byte>, qos: nat, retain: bool, mem: Memory, l: Account)
    requires 0 < id < 65536 && qos <= 2
    ensures FairEdit(q, Edit(Added(PublishBytes(id, topic, payload, qos, retain), id, mem), None,
                             [if mem == Granted then Accepted(id) else OnError(id)]), l)
    ensures FairEdit(q, Edit(Added(PublishBytes(1, topic, payload, 0, retain), 0, mem), None, if mem == Granted then [] else [OnError(1)]), l)
  {
    hide PublishBytes, Credits, Debits;
    NoNotes(l);
    FirstBytes(id, topic, payload, qos, retain, [], []);
    FirstBytes(1, topic, payload, 0, retain, [], []);
    Singleton(Accepted(id), l);
    Singleton(OnError(id), l);
    Singleton(OnError(1), l);
  }

  lemma EditFair(c: Client, a: Action, l: Account)
    requires Plain(a) && Enabled(c, a)
    ensures FairEdit(c.queue, EditFor(c, a), l)
  {
    hide PublishBytes, SubscribeBytes, UnsubscribeBytes, Response, Elapsed, Credits, Debits, FairEdit, NextPacketId, Added, BareBytes,
         WellFormedEvent;
    NothingFair(c.queue, l);
    NoNotes(l);
    var id := NextPacketId(c.packetId);
    match a {
      case DoPublish(topic, payload, qos, retain, mem) => PublishFair(c.queue, id, topic, payload, qos, retain, mem, l);
      case DoSubscribe(items, mem) =>
        FirstBytes(id, [], [], 0, false, items, []);
        NeutralAdd(SubscribeBytes(id, items), id, mem, [], c.queue, l);
      case DoUnsubscribe(topics, mem) =>
        FirstBytes(id, [], [], 0, false, [], topics);
        NeutralAdd(UnsubscribeBytes(id, topics), id, mem, [], c.queue, l);
      case Goodbye(mem) =>
        Singleton(OnError(0), l);
        BareFair(DISCONNECT);
        NeutralAdd(BareBytes(DISCONNECT), 0, mem, if mem == Granted then [] else [OnError(0)], c.queue, l);
      case Received(e, mem) => ResponseFair(c.queue, e, mem, l);
      case Ping(_, mem) =>
        BareFair(PINGREQ);
        NeutralAdd(BareBytes(PINGREQ), 0, mem, [], c.queue, l);
      case _ =>
    }
  }

  // ---- steps and runs ----

  lemma AdvanceBalanced(c: Client, l: Account)
    requires Balanced(c, l)
    ensures Balanced(AdvanceOutbox(c), l)
  {
    hide Ids, Credits, Debits;
    if c.cursor < |c.queue| {
      var p := c.queue[c.cursor];
      IdsWithout(c.queue, c.cursor, l);
      IdsUpdate(c.queue, c.cursor, SetDup(p), l);
      assert Removable(p) ==> Weight(p, l) == 0;
    }
  }

  lemma ClearBalanced(c: Client, level: nat, l: Account)
    requires Balanced(c, l) && c.cursor <= |c.queue|
    ensures Balanced(ClearQueue(c, level), l)
  {
    hide Ids, Credits, Debits, Kept, Losses;
    IdsKept(c.queue, level, l);
    SumsAppend(c.h.notes, Losses(c.queue, level), l);
  }

  lemma NoteBalanced(c: Client, n: Note, l: Account)
    requires Balanced(c, l) && Credit(n, l) == Debit(n, l) == 0
    ensures Balanced(WithNotes(c, [n]), l)
  {
    SumsAppend(c.h.notes, [n], l);
    Singleton(n, l);
  }

  lemma ConnackBalanced(c: Client, sessionPresent: byte, returnCode: byte, l: Account)
    requires Balanced(c, l) && c.cursor <= |c.queue|
    ensures Balanced(OnConnack(c, sessionPresent, returnCode), l)
  {
    hide Balanced, ClearQueue;
    if returnCode == 0 {
      var c1 := c.(pingSent := false, state := Connected, h := c.h.(connackSeen := true));
      SameLedger(c, c1, l);
      AdvanceBalanced(c1, l);
      var c2 := AdvanceOutbox(c1);
      if sessionPresent == 0 { ClearBalanced(c2, 1, l); }
      NoteBalanced(if sessionPresent == 0 then ClearQueue(c2, 1) else c2, OnConnect(sessionPresent != 0), l);
    } else {
      SameLedger(c, OnConnack(c, sessionPresent, returnCode), l);
    }
  }

  lemma SameLedger(c: Client, d: Client, l: Account)
    requires Balanced(c, l) && c.queue == d.queue && c.h.notes == d.h.notes
    ensures Balanced(d, l)
  {
  }

  lemma SendBalanced(c: Client, w: nat, now: nat, l: Account)
    requires Balanced(c, l)
    ensures Balanced(SendPacket(c, w, now), l)
  {
    var d := SendPacket(c, w, now);
    if c.cursor < |c.queue| { IdsUpdate(c.queue, c.cursor, d.queue[c.cursor], l); }
  }

  lemma ConnectBalanced(c: Client, mem: Memory, l: Account)
    requires Balanced(c, l)
    ensures Balanced(Connect(c, mem), l)
  {
    var c1 := AddPacketFront(c, c.config.connectBytes, mem);
    if mem == Granted { assert c1.queue[1..] == c.queue; }
    hide Balanced, AddPacketFront;
    if c.state == Disconnected {
      if mem == Granted {
        var c2 := c1.(state := ConnectingTcp1, h := c1.h.(connackSeen := false, wire := [], done := []));
        assert Balanced(c1, l) by { FrontBalanced(c, l); }
        SameLedger(c1, c2, l);
        NoteBalanced(c2, ConnectCalled, l);
      } else {
        assert c1.queue == c.queue && c1.h.notes == c.h.notes by { FrontFailed(c, mem); }
        SameLedger(c, c1, l);
        NoteBalanced(c1, OnError(0), l);
      }
    }
  }

  lemma FrontBalanced(c: Client, l: Account)
    requires Balanced(c, l)
    ensures Balanced(AddPacketFront(c, c.config.connectBytes, Granted), l)
  {
    assert AddPacketFront(c, c.config.connectBytes, Granted).queue[1..] == c.queue;
  }

  lemma FrontFailed(c: Client, mem: Memory)
    requires mem != Granted
    ensures var c1 := AddPacketFront(c, c.config.connectBytes, mem); c1.queue == c.queue && c1.h.notes == c.h.notes
  {
  }

  lemma StepBalanced(c: Client, a: Action, l: Account)
    requires c.cursor <= |c.queue| && Enabled(c, a) && Balanced(c, l)
    ensures Balanced(Step(c, a), l)
  {
    if Plain(a) {
      hide Step, Enabled, EditFor, Apply, Balanced, FairEdit;
      PlainStep(c, a);
      EditFair(c, a, l);
      ApplyBalanced(c, EditFor(c, a), l);
      SameLedger(Apply(c, EditFor(c, a)), Step(c, a), l);
    } else {
      hide Step, Enabled, Balanced;
      WorkBalanced(c, a, l);
    }
  }

  lemma WorkBalanced(c: Client, a: Action, l: Account)
    requires c.cursor <= |c.queue| && Enabled(c, a) && Balanced(c, l) && !Plain(a)
    ensures Balanced(Step(c, a), l)
  {
    hide Balanced, ClearQueue, AdvanceOutbox, SendPacket, OnConnack, Connect;
    match a {
      case DoConnect(mem) => ConnectBalanced(c, mem, l);
      case DoClearQueue(all) => ClearBalanced(c, if all then 2 else 0, l);
      case TcpGone =>
        ClearBalanced(c, 0, l);
        var c1 := ClearQueue(c, 0);
        var c2 := c1.(state := Disconnected, bytesSent := 0, h := c1.h.(wire := [], done := []));
        SameLedger(c1, c2, l);
        NoteBalanced(c2, OnDisconnect(c.reason), l);
      case SendOnly(w, now) => SendBalanced(c, w, now, l);
      case SendAndAdvance(w, now) =>
        SendBalanced(c, w, now, l);
        AdvanceBalanced(SendPacket(c, w, now), l);
      case Received(e, _) => ConnackBalanced(c, e.sessionPresent, e.returnCode, l);
      case Timeout(now) => SameLedger(c, Step(c, a), l);
    }
  }

  lemma {:induction false} RunBalanced(c: Client, acts: seq<Action>, l: Account)
    requires EnabledRun(c, acts) && Balanced(c, l)
    ensures Balanced(Run(c, acts), l)
    decreases |acts|
  {
    hide Step, Enabled, Balanced;
    if acts != [] {
      StepBalanced(c, acts[0], l);
      RunBalanced(Step(c, acts[0]), acts[1..], l);
    }
  }

  /**
    Outgoing conservation, in every run and for every id: acceptances equal onPublish completions and discards,
    plus the PUBLISH and PUBREL packets of that id still in the outbox.
   */
  lemma {:induction false} OutgoingConservation(config: Config, acts: seq<Action>, id: nat)
    requires EnabledRun(Init(config), acts)
    ensures var c := Run(Init(config), acts);
            Credits(c.h.notes, Outgoing(id)) == Debits(c.h.notes, Outgoing(id)) + Ids(c.queue, Outgoing(id))
  {
    RunBalanced(Init(config), acts, Outgoing(id));
  }

  /** What a disconnect clears is never a message in flight or a stored id. */
  lemma {:induction false} DisconnectLosesNothing(q: seq<Item>)
    ensures Losses(q, 0) == []
  {
    if q != [] { DisconnectLosesNothing(q[1..]); }
  }

  /** The only ways a message in flight can be discarded, or a stored id forgotten. */
  predicate CanLose(a: Action) {
    match a
    case DoClearQueue(deleteSessionData) => deleteSessionData
    case Received(Connack(sessionPresent, _), _) => sessionPresent == 0
    case Received(Ack(header, _), mem) => Kind(header) == UNSUBACK || (Kind(header) == PUBREC && mem != Granted)
    case _ => false
  }

  /** Losses come from a session wipe, an UNSUBACK, or a PUBREL that could not be created; nothing else. */
  lemma {:induction false} LossCauses(c: Client, a: Action, id: nat)
    requires c.cursor <= |c.queue| && Enabled(c, a)
    requires Discarded(id) in NewNotes(c, a) || Forgotten(id) in NewNotes(c, a)
    ensures CanLose(a)
    ensures Forgotten(id) in NewNotes(c, a) && a.Received? && a.e.Ack? ==> Kind(a.e.header) == UNSUBACK && a.e.id == id
  {
    hide Elapsed, AdvanceOutbox, PublishBytes, SubscribeBytes, UnsubscribeBytes, AckBytes, Added, Losses, FirstOf, FirstWith, FirstId;
    DisconnectLosesNothing(c.queue);
  }
}
