/**
  Where the acknowledgements of QoS 1 messages go: every complete message owes one, and it is written, queued,
  dropped with the session or the connection, or could not be made.
 */
module ClientPubacks {
  import opened Bytes
  import opened Constants
  import opened Options
  import opened PacketSpec
  import opened Outbox
  import opened ClientSpec
  import opened ClientRuns
  import opened ClientPackets
  import ClientLedger
  import ClientTrace
  import P = ParserSpec

  /** The PUBACK for an id, as section 3.4 of MQTT 3.1.1 lays it out. */
  function Puback(id: nat): seq<byte>
    requires id < 65536
  {
    [0x40, 2, id / 256, id % 256]
  }

  function One(there: bool): nat {
    if there then 1 else 0
  }

  /** How many packets of a queue are exactly these bytes. */
  function Times(q: seq<Item>, bs: seq<byte>): nat {
    if q == [] then 0 else One(q[0].bytes == bs) + Times(q[1..], bs)
  }

  function TimesIn(bss: seq<seq<byte>>, bs: seq<byte>): nat {
    if bss == [] then 0 else One(bss[0] == bs) + TimesIn(bss[1..], bs)
  }

  // ---- what one action does to the account ----

  /** A QoS 1 message with the id arrives to its end. */
  predicate Owes(c: Client, a: Action, id: nat) {
    c.state == Connected && a.Received? && Completes(a.e) && QosBits(a.e.header) == 1 && a.e.id == id
  }

  predicate Refused(a: Action) {
    a.Received? && a.mem != Granted
  }

  /** The packets the step has written to their end. */
  function Passed(c: Client, a: Action): seq<seq<byte>>
    requires c.cursor <= |c.queue| && Enabled(c, a)
  {
    var done := Step(c, a).h.done;
    if |done| > |c.h.done| then done[|c.h.done|..] else []
  }

  predicate FirstTaken(q: seq<Item>, id: nat, i: nat) {
    i < |q| && q[i].id == id && forall j :: 0 <= j < i ==> q[j].id != id
  }

  // the first packet with the id is exactly these bytes
  ghost predicate TakesOne(q: seq<Item>, id: nat, bs: seq<byte>) {
    exists i: nat :: FirstTaken(q, id, i) && q[i].bytes == bs
  }

  /** PUBACKs that are dropped unsent: by a clearing, all of them; by an UNSUBACK that finds one under its id. */
  ghost function Dropped(c: Client, a: Action, bs: seq<byte>): int
    requires c.cursor <= |c.queue| && Enabled(c, a)
  {
    match a
    case DoClearQueue(_) => Times(c.queue, bs)
    case TcpGone => Times(c.queue, bs)
    case Received(Connack(sessionPresent, returnCode), _) =>
      if returnCode == 0 && sessionPresent == 0 then Times(c.queue, bs) - TimesIn(Passed(c, a), bs) else 0
    case Received(Ack(header, id), _) =>
      One(Talking(c) && Kind(header) == UNSUBACK && TakesOne(c.queue, id, bs))
    case _ => 0
  }

  // ---- counting ----

  lemma {:induction false} TimesAppend(a: seq<Item>, b: seq<Item>, bs: seq<byte>)
    ensures Times(a + b, bs) == Times(a, bs) + Times(b, bs)
  {
    if a == [] {
      assert a + b == b;
    } else {
      assert (a + b)[0] == a[0] && (a + b)[1..] == a[1..] + b;
      TimesAppend(a[1..], b, bs);
    }
  }

  lemma TimesOne(p: Item, bs: seq<byte>)
    ensures Times([p], bs) == One(p.bytes == bs)
  {
    assert [p][1..] == [];
  }

  lemma TimesInOne(x: seq<byte>, bs: seq<byte>)
    ensures TimesIn([x], bs) == One(x == bs) && TimesIn([], bs) == 0
  {
    assert [x][1..] == [];
  }

  lemma TimesWithout(q: seq<Item>, i: nat, bs: seq<byte>)
    requires i < |q|
    ensures Times(q, bs) == Times(Without(q, i), bs) + One(q[i].bytes == bs)
  {
    hide Times;
    TimesAppend(q[..i], q[i + 1..], bs);
    TimesAppend(q[..i], [q[i]] + q[i + 1..], bs);
    TimesAppend([q[i]], q[i + 1..], bs);
    TimesOne(q[i], bs);
    assert q == q[..i] + ([q[i]] + q[i + 1..]);
  }

  lemma TimesUpdate(q: seq<Item>, i: nat, p: Item, bs: seq<byte>)
    requires i < |q| && (p.bytes == bs <==> q[i].bytes == bs)
    ensures Times(q[i := p], bs) == Times(q, bs)
  {
    TimesWithout(q, i, bs);
    TimesWithout(q[i := p], i, bs);
    assert Without(q[i := p], i) == Without(q, i);
  }

  lemma {:induction false} TimesNone(q: seq<Item>, bs: seq<byte>)
    requires forall p :: p in q ==> p.bytes != bs
    ensures Times(q, bs) == 0
  {
    if q != [] {
      assert q[0] in q;
      TimesNone(q[1..], bs);
    }
  }

  // ---- steps ----

  lemma SendTimes(c: Client, w: nat, now: nat, bs: seq<byte>)
    ensures var d := SendPacket(c, w, now); Times(d.queue, bs) == Times(c.queue, bs) && d.h.done == c.h.done
  {
    var d := SendPacket(c, w, now);
    if c.cursor < |c.queue| { TimesUpdate(c.queue, c.cursor, d.queue[c.cursor], bs); }
  }

  // not a PUBLISH, and not kept when it is written
  predicate Fleeting(q: seq<Item>, bs: seq<byte>) {
    bs != [] && Kind(bs[0]) != PUBLISH && forall p :: p in q && p.bytes == bs ==> Removable(p)
  }

  // such a packet leaves the queue when it is passed
  lemma AdvanceTimes(c: Client, bs: seq<byte>)
    requires Fleeting(c.queue, bs)
    ensures var d := AdvanceOutbox(c);
            && c.h.done <= d.h.done
            && Times(c.queue, bs) == Times(d.queue, bs) + TimesIn(d.h.done[|c.h.done|..], bs)
  {
    hide Times, TimesIn;
    var d := AdvanceOutbox(c);
    if c.cursor < |c.queue| && c.bytesSent == |c.queue[c.cursor].bytes| {
      var p := c.queue[c.cursor];
      assert p in c.queue;
      assert d.h.done[|c.h.done|..] == [p.bytes];
      TimesInOne(p.bytes, bs);
      TimesWithout(c.queue, c.cursor, bs);
      if !Removable(p) { TimesUpdate(c.queue, c.cursor, SetDup(p), bs); }
    } else {
      assert d.h.done[|c.h.done|..] == [];
      TimesInOne([], bs);
    }
  }

  lemma PubackFleeting(q: seq<Item>, id: nat)
    requires id < 65536
    ensures Fleeting(q, Puback(id))
  {
  }

  lemma PumpTimes(c: Client, w: nat, now: nat, bs: seq<byte>)
    requires Fleeting(c.queue, bs)
    ensures var d := Pump(c, w, now);
            && c.h.done <= d.h.done
            && Times(c.queue, bs) == Times(d.queue, bs) + TimesIn(d.h.done[|c.h.done|..], bs)
  {
    SendFleeting(c, w, now, bs);
    hide Times, TimesIn, AdvanceOutbox, SendPacket, Fleeting;
    SendTimes(c, w, now, bs);
    AdvanceTimes(SendPacket(c, w, now), bs);
    TimesInOne([], bs);
    assert c.h.done[|c.h.done|..] == [];
  }

  lemma SendFleeting(c: Client, w: nat, now: nat, bs: seq<byte>)
    requires Fleeting(c.queue, bs)
    ensures Fleeting(SendPacket(c, w, now).queue, bs)
  {
    var d := SendPacket(c, w, now);
    forall p | p in d.queue && p.bytes == bs ensures Removable(p) {
      var i :| 0 <= i < |d.queue| && d.queue[i] == p;
      assert c.queue[i] in c.queue;
    }
  }

  lemma ClearTimes(c: Client, level: nat, id: nat)
    requires c.cursor <= |c.queue| && id < 65536
    ensures Times(ClearQueue(c, level).queue, Puback(id)) == 0 && ClearQueue(c, level).h.done == c.h.done
  {
    KeptFrom(c.queue, level);
    TimesNone(ClearQueue(c, level).queue, Puback(id));
  }

  function AddTimes(e: Edit, bs: seq<byte>): nat {
    match e.add
    case None => 0
    case Some(p) => One(p.bytes == bs)
  }

  function RemoveTimes(q: seq<Item>, e: Edit, bs: seq<byte>): nat
    requires e.remove.Some? ==> e.remove.value < |q|
  {
    match e.remove
    case None => 0
    case Some(i) => One(q[i].bytes == bs)
  }

  lemma ApplyTimes(c: Client, e: Edit, bs: seq<byte>)
    requires e.remove.Some? ==> e.remove.value < |c.queue|
    ensures Times(Apply(c, e).queue, bs) + RemoveTimes(c.queue, e, bs) == Times(c.queue, bs) + AddTimes(e, bs)
    ensures Apply(c, e).h.done == c.h.done
  {
    hide Times;
    var c1 := AppendNew(c, e.add);
    if e.add.Some? {
      var p := c1.queue[|c.queue|];
      TimesAppend(c.queue, [p], bs);
      TimesOne(p, bs);
    }
    if e.remove.Some? { TimesWithout(c1.queue, e.remove.value, bs); }
  }

  // a plain action appends a PUBACK exactly for a complete QoS 1 message, and only UNSUBACK takes one out
  lemma EditTimes(c: Client, a: Action, id: nat)
    requires Basic(c) && Plain(a) && Enabled(c, a) && id < 65536
    ensures var e, bs := EditFor(c, a), Puback(id);
            && AddTimes(e, bs) == One(Owes(c, a, id) && !Refused(a))
            && RemoveTimes(c.queue, e, bs) == Dropped(c, a, bs)
  {
    hide EditFor, Enabled, NonEmpty;
    if a.Received? { AnswerTimes(c, a, id); } else { RequestTimes(c, a, id); }
  }

  lemma RequestTimes(c: Client, a: Action, id: nat)
    requires Plain(a) && Enabled(c, a) && !a.Received? && id < 65536
    ensures EditFor(c, a).remove == None && AddTimes(EditFor(c, a), Puback(id)) == 0
  {
    hide PublishBytes, SubscribeBytes, UnsubscribeBytes, Elapsed, NextPacketId;
    var next := NextPacketId(c.packetId);
    match a {
      case DoPublish(topic, payload, qos, retain, _) =>
        ClientLedger.FirstBytes(next, topic, payload, qos, retain, [], []);
        ClientLedger.FirstBytes(1, topic, payload, 0, retain, [], []);
      case DoSubscribe(items, _) => ClientLedger.FirstBytes(next, [], [], 0, false, items, []);
      case DoUnsubscribe(topics, _) => ClientLedger.FirstBytes(next, [], [], 0, false, [], topics);
      case _ =>
    }
  }

  lemma AnswerTimes(c: Client, a: Action, id: nat)
    requires Basic(c) && Plain(a) && Enabled(c, a) && a.Received? && id < 65536
    ensures var e, bs := EditFor(c, a), Puback(id);
            && AddTimes(e, bs) == One(Owes(c, a, id) && !Refused(a))
            && RemoveTimes(c.queue, e, bs) == Dropped(c, a, bs)
  {
    hide EditFor, Dropped, NonEmpty, Puback;
    match a.e {
      case Publish(_, _, _, _, _, _) => MessageTimes(c, a, id);
      case Ack(_, _) => AckTimes(c, a, id);
      case _ => OtherTimes(c, a, id);
    }
  }

  lemma MessageTimes(c: Client, a: Action, id: nat)
    requires Basic(c) && Enabled(c, a) && a.Received? && a.e.Publish? && id < 65536
    ensures var e, bs := EditFor(c, a), Puback(id);
            AddTimes(e, bs) == One(Owes(c, a, id) && !Refused(a)) && e.remove == None && Dropped(c, a, bs) == 0
  {
    hide FirstWith, NonEmpty, Puback, AckBytes, Times, TimesIn;
    PubackIs(a.e.id, id);
  }

  lemma AckTimes(c: Client, a: Action, id: nat)
    requires Basic(c) && Enabled(c, a) && a.Received? && a.e.Ack? && id < 65536
    ensures var e, bs := EditFor(c, a), Puback(id);
            AddTimes(e, bs) == 0 && RemoveTimes(c.queue, e, bs) == Dropped(c, a, bs)
  {
    hide FirstOf, FirstId, Loss, NonEmpty, TakesOne, AckBytes;
    PubackIs(a.e.id, id);
    TakenIs(c.queue, a.e.id, Puback(id));
  }

  lemma OtherTimes(c: Client, a: Action, id: nat)
    requires Basic(c) && Enabled(c, a) && a.Received? && (a.e.Suback? || a.e.Pingresp?) && id < 65536
    ensures var e, bs := EditFor(c, a), Puback(id);
            e.add == None && RemoveTimes(c.queue, e, bs) == Dropped(c, a, bs) == 0
  {
    hide FirstWith, NonEmpty;
  }

  lemma PassedIs(c: Client, a: Action)
    requires c.cursor <= |c.queue| && Enabled(c, a) && c.h.done <= Step(c, a).h.done
    ensures Passed(c, a) == Step(c, a).h.done[|c.h.done|..]
  {
    hide Step;
  }

  lemma PubackIs(a: nat, b: nat)
    requires a < 65536 && b < 65536
    ensures AckBytes(PUBACK, a) == Puback(b) <==> a == b
    ensures AckBytes(PUBREC, a) != Puback(b) && AckBytes(PUBREL, a) != Puback(b) && AckBytes(PUBCOMP, a) != Puback(b)
  {
    assert AckBytes(PUBREC, a)[0] == PUBREC && AckBytes(PUBREL, a)[0] == PUBREL + 2 && AckBytes(PUBCOMP, a)[0] == PUBCOMP;
    assert Puback(b)[0] == PUBACK;
    if a != b {
      assert a / 256 != b / 256 || a % 256 != b % 256;
      assert AckBytes(PUBACK, a)[2] == a / 256 && AckBytes(PUBACK, a)[3] == a % 256;
    }
  }

  lemma TakenIs(q: seq<Item>, id: nat, bs: seq<byte>)
    ensures var i := FirstId(q, id);
            TakesOne(q, id, bs) <==> i < |q| && q[i].bytes == bs
  {
    var i := FirstId(q, id);
    if i < |q| { assert FirstTaken(q, id, i); }
    forall k: nat | FirstTaken(q, id, k) ensures k == i { }
  }

  lemma ConnectTimes(c: Client, mem: Memory, id: nat)
    requires Basic(c) && id < 65536
    ensures var d := Connect(c, mem); Times(d.queue, Puback(id)) == Times(c.queue, Puback(id)) && |d.h.done| <= |c.h.done|
  {
    var d := Connect(c, mem);
    if d.queue != c.queue { assert d.queue[1..] == c.queue; }
  }

  lemma ConnackTimes(c: Client, a: Action, id: nat)
    requires Basic(c) && Enabled(c, a) && a.Received? && a.e.Connack? && id < 65536
    ensures var d, bs := Step(c, a), Puback(id);
            Times(c.queue, bs) == Times(d.queue, bs) + TimesIn(Passed(c, a), bs) + Dropped(c, a, bs)
  {
    hide Times, TimesIn, Puback, Fleeting, AdvanceOutbox, NonEmpty;
    var c0 := c.(pingSent := false, state := Connected, h := c.h.(connackSeen := true));
    var bs := Puback(id);
    TimesInOne(bs, bs);
    PubackFleeting(c.queue, id);
    AdvanceTimes(c0, bs);
    if a.e.returnCode == 0 {
      assert AdvanceOutbox(c0).cursor <= |AdvanceOutbox(c0).queue| by { ClientTrace.AdvanceCursor(c0); }
      var grown := AdvanceOutbox(c0).h.done[|c.h.done|..];
      assert Passed(c, a) == grown;
      if a.e.sessionPresent == 0 { ClearTimes(AdvanceOutbox(c0), 1, id); }
    }
  }

  /** One step keeps the account: what was there or is owed now is there, has been written, is dropped, or was refused. */
  lemma StepPubacks(c: Client, a: Action, id: nat)
    requires Basic(c) && Enabled(c, a) && id < 65536
    ensures var d, bs := Step(c, a), Puback(id);
            Times(c.queue, bs) + One(Owes(c, a, id)) ==
              Times(d.queue, bs) + TimesIn(Passed(c, a), bs) + Dropped(c, a, bs) + One(Owes(c, a, id) && Refused(a))
  {
    hide Times, TimesIn, Puback, Fleeting, ClearQueue, AdvanceOutbox, SendPacket, OnConnack, Apply, NonEmpty;
    var bs := Puback(id);
    TimesInOne(bs, bs);
    PubackFleeting(c.queue, id);
    if Plain(a) {
      PlainStep(c, a);
      EditTimes(c, a, id);
      ApplyTimes(c, EditFor(c, a), bs);
    } else {
      match a {
        case DoConnect(mem) => ConnectTimes(c, mem, id);
        case DoClearQueue(all) => ClearTimes(c, if all then 2 else 0, id);
        case TcpGone => ClearTimes(c, 0, id);
        case SendOnly(w, now) => SendTimes(c, w, now, bs);
        case SendAndAdvance(w, now) =>
          PumpTimes(c, w, now, bs);
          PassedIs(c, a);
        case Received(e, _) => ConnackTimes(c, a, id);
        case Timeout(now) =>
      }
    }
  }

  // ---- runs ----

  datatype Account = Account(owed: nat, written: nat, dropped: int, refused: nat)

  /** What a run does to the account of one id. */
  ghost function Booked(c: Client, acts: seq<Action>, id: nat): Account
    requires EnabledRun(c, acts) && id < 65536
    decreases |acts|
  {
    if acts == [] then Account(0, 0, 0, 0)
    else
      var a, rest := acts[0], Booked(Step(c, acts[0]), acts[1..], id);
      Account(One(Owes(c, a, id)) + rest.owed, TimesIn(Passed(c, a), Puback(id)) + rest.written,
              Dropped(c, a, Puback(id)) + rest.dropped, One(Owes(c, a, id) && Refused(a)) + rest.refused)
  }

  lemma {:induction false} RunPubacks(c: Client, acts: seq<Action>, id: nat)
    requires Basic(c) && EnabledRun(c, acts) && id < 65536
    ensures var b := Booked(c, acts, id);
            Times(c.queue, Puback(id)) + b.owed == Times(Run(c, acts).queue, Puback(id)) + b.written + b.dropped + b.refused
    decreases |acts|
  {
    hide Step, Enabled, Times, TimesIn, Passed, Dropped, Owes, Refused, Puback, Basic;
    if acts != [] {
      assert c.cursor <= |c.queue|;
      StepPubacks(c, acts[0], id);
      StepBasic(c, acts[0]);
      RunPubacks(Step(c, acts[0]), acts[1..], id);
    }
  }

  /**
    In every run and for every id: the QoS 1 messages that arrived to their end are as many as the PUBACKs with
    their id that were written, are queued, were dropped, and could not be made.
   */
  lemma {:induction false} EveryMessageAnswered(config: Config, acts: seq<Action>, id: nat)
    requires ConfigOk(config) && EnabledRun(Init(config), acts) && id < 65536
    ensures var b := Booked(Init(config), acts, id);
            b.owed == b.written + Times(Run(Init(config), acts).queue, Puback(id)) + b.dropped + b.refused
  {
    RunPubacks(Init(config), acts, id);
  }
}
