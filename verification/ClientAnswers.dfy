/**
  What the client answers, and what an answer takes out of its outbox, for every packet it can receive. The
  packets it queues are described by what a receiver reads in them.
 */
module ClientAnswers {
  import opened Bytes
  import opened Constants
  import opened Options
  import opened PacketSpec
  import opened Outbox
  import opened ClientSpec
  import opened ClientRuns
  import opened ClientPackets
  import P = ParserSpec

  // the first packet of a kind
  predicate FirstAt(q: seq<Item>, i: nat, kind: byte) {
    i < |q| && TypeOf(q[i]) == kind && forall j :: 0 <= j < i ==> TypeOf(q[j]) != kind
  }

  // the first packet of a kind with an id
  predicate FirstFor(q: seq<Item>, i: nat, kind: byte, id: nat) {
    i < |q| && TypeOf(q[i]) == kind && q[i].id == id && forall j :: 0 <= j < i ==> !(TypeOf(q[j]) == kind && q[j].id == id)
  }

  /** The queue is `base` and one new packet, booked under the id, in which a receiver reads e. */
  predicate OneMore(base: seq<Item>, r: seq<Item>, e: P.Event, id: nat) {
    |r| == |base| + 1 && r[..|base|] == base && r[|base|].id == id && !r[|base|].whole && Reads(r[|base|].bytes, e)
  }

  // nothing but the queue, the place of the cursor in it and the history has changed
  predicate OutboxOnly(c: Client, d: Client) {
    d == c.(queue := d.queue, cursor := d.cursor, h := d.h)
    && d.h == c.h.(notes := d.h.notes, serials := d.h.serials)
  }

  predicate Knows(q: seq<Item>, id: nat) {
    exists i :: 0 <= i < |q| && TypeOf(q[i]) == PUBREC && q[i].id == id
  }

  lemma KnowsIff(q: seq<Item>, id: nat)
    ensures Knows(q, id) <==> FirstWith(q, PUBREC, id) < |q|
  {
    if Knows(q, id) { var i :| 0 <= i < |q| && TypeOf(q[i]) == PUBREC && q[i].id == id; }
  }

  /**
    A message that arrives to its end is answered by PUBACK at QoS 1 and by PUBREC at QoS 2, with its id; an
    earlier fragment and QoS 0 by nothing.
   */
  lemma MessageAnswered(c: Client, e: P.Event, mem: Memory)
    requires Basic(c) && c.state == Connected && e.Publish? && WellFormedEvent(e)
    ensures var a, qos := Received(e, mem), QosBits(e.header);
            && Enabled(c, a)
            && var d, owed := Step(c, a), Completes(e) && mem == Granted;
            && OutboxOnly(c, d) && d.cursor == c.cursor
            && (owed && qos == 1 ==> OneMore(c.queue, d.queue, P.Ack(0x40, e.id), e.id))
            && (owed && qos == 2 ==> OneMore(c.queue, d.queue, P.Ack(0x50, e.id), e.id))
            && (!(owed && (qos == 1 || qos == 2)) ==> d.queue == c.queue)
  {
    hide AckBytes, FirstWith, Reads, NonEmpty;
    if e.id > 0 { AckReads(e.id); }
  }

  /** It is handed to the application, fragment by fragment, unless it came at QoS 2 and a PUBREC with its id is still there. */
  lemma MessageHanded(c: Client, e: P.Event, mem: Memory)
    requires Basic(c) && c.state == Connected && e.Publish? && WellFormedEvent(e)
    ensures var a, qos := Received(e, mem), QosBits(e.header);
            && Enabled(c, a)
            && var handed := if qos == 2 && Knows(c.queue, e.id) then [] else [Fragment(e)];
               Step(c, a).h.notes ==
                 c.h.notes + (if !Completes(e) || qos != 2 then []
                              else if mem == Granted then [Stored(e.id, handed != [])] else [Unstored(e.id, handed != [])]) + handed
  {
    hide AckBytes, FirstWith, Knows, NonEmpty;
    KnowsIff(c.queue, e.id);
  }

  /** After disconnect() messages are no longer taken. */
  lemma MessageIgnored(c: Client, e: P.Event, mem: Memory)
    requires Basic(c) && Talking(c) && c.state != Connected && e.Publish? && WellFormedEvent(e)
    ensures Enabled(c, Received(e, mem)) && Step(c, Received(e, mem)) == c
  {
  }

  /** Before CONNACK any other packet ends the connection. */
  lemma TooEarly(c: Client, e: P.Event, mem: Memory)
    requires Basic(c) && c.state == ConnectingMqtt && !e.Connack? && WellFormedEvent(e)
    ensures Enabled(c, Received(e, mem)) && Step(c, Received(e, mem)) == c.(state := DisconnectingTcp1)
  {
  }

  // the kind of packet an acknowledgement answers
  function Awaited(kind: byte): byte {
    if kind == PUBREL then PUBREC else if kind == PUBCOMP then PUBREL else PUBLISH
  }

  /**
    An acknowledgement is about the first packet of the kind it answers, and about no other. If that has its id, it
    leaves the queue; PUBREC puts PUBREL in its place at the back, and PUBREL PUBCOMP, both with the same id.
   */
  lemma AcknowledgementTakes(c: Client, header: byte, id: nat, mem: Memory, i: nat)
    requires Basic(c) && Talking(c) && WellFormedEvent(P.Ack(header, id)) && Kind(header) != UNSUBACK
    requires FirstAt(c.queue, i, Awaited(Kind(header)))
    ensures var a, kind := Received(P.Ack(header, id), mem), Kind(header);
            && Enabled(c, a)
            && var d := Step(c, a);
            && (c.queue[i].id != id ==> d == c)
            && (c.queue[i].id == id ==>
                  && OutboxOnly(c, d) && d.cursor == CursorWithout(c.cursor, i)
                  && (kind == PUBREC && mem == Granted ==> OneMore(Without(c.queue, i), d.queue, P.Ack(0x62, id), id))
                  && (kind == PUBREL && mem == Granted ==> OneMore(Without(c.queue, i), d.queue, P.Ack(0x70, id), id))
                  && (kind == PUBACK || kind == PUBCOMP || mem != Granted ==> d.queue == Without(c.queue, i))
                  && d.h.notes == c.h.notes + if kind == PUBACK || kind == PUBCOMP then [Completed(id)]
                                              else if kind == PUBREL then [Released(id)]
                                              else if mem == Granted then [] else [Discarded(id)])
  {
    hide AckBytes, FirstOf, Reads, NonEmpty;
    AckReads(id);
    assert FirstOf(c.queue, Awaited(Kind(header))) == i;
    assert c.h.notes + [] == c.h.notes;
    AppendThenRemove(c, i);
  }

  // appending does not disturb what is removed before it
  lemma AppendThenRemove(c: Client, i: nat)
    requires i < |c.queue|
    ensures forall p: Item :: Without(c.queue + [p], i) == Without(c.queue, i) + [p]
  {
  }

  lemma AcknowledgementLost(c: Client, header: byte, id: nat, mem: Memory)
    requires Basic(c) && Talking(c) && WellFormedEvent(P.Ack(header, id)) && Kind(header) != UNSUBACK
    requires forall j :: 0 <= j < |c.queue| ==> TypeOf(c.queue[j]) != Awaited(Kind(header))
    ensures var a := Received(P.Ack(header, id), mem); Enabled(c, a) && Step(c, a) == c
  {
    hide FirstOf, NonEmpty;
    assert FirstOf(c.queue, Awaited(Kind(header))) == |c.queue|;
    ApplyNothing(c);
  }

  /** SUBACK takes the SUBSCRIBE with its id; without one it is dropped. */
  lemma SubackTakes(c: Client, id: nat, codes: seq<byte>, mem: Memory)
    requires Basic(c) && Talking(c) && 0 < id < 65536
    ensures var a := Received(P.Suback(id, codes), mem);
            && Enabled(c, a)
            && var d := Step(c, a);
            && (forall i :: FirstFor(c.queue, i, SUBSCRIBE, id) ==>
                  && OutboxOnly(c, d) && d.queue == Without(c.queue, i) && d.cursor == CursorWithout(c.cursor, i)
                  && d.h.notes == c.h.notes + [OnSubscribe(id)])
            && ((forall j :: 0 <= j < |c.queue| ==> !(TypeOf(c.queue[j]) == SUBSCRIBE && c.queue[j].id == id)) ==> d == c)
  {
    hide FirstWith, NonEmpty;
    ApplyNothing(c);
    forall i | FirstFor(c.queue, i, SUBSCRIBE, id) ensures FirstWith(c.queue, SUBSCRIBE, id) == i { }
  }

  /** UNSUBACK takes the first packet with its id, of whatever kind it is. */
  lemma UnsubackTakes(c: Client, header: byte, id: nat, mem: Memory)
    requires Basic(c) && Talking(c) && Kind(header) == UNSUBACK && 0 < id < 65536
    ensures var a := Received(P.Ack(header, id), mem);
            && Enabled(c, a)
            && var d := Step(c, a);
            && (forall i :: 0 <= i < |c.queue| && c.queue[i].id == id && (forall j :: 0 <= j < i ==> c.queue[j].id != id) ==>
                  && OutboxOnly(c, d) && d.queue == Without(c.queue, i) && d.cursor == CursorWithout(c.cursor, i)
                  && d.h.notes == c.h.notes + (Loss(c.queue[i]) + [OnUnsubscribe(id)]))
            && ((forall j :: 0 <= j < |c.queue| ==> c.queue[j].id != id) ==> d == c)
  {
    hide FirstId, NonEmpty, Loss;
    ApplyNothing(c);
    forall i | 0 <= i < |c.queue| && c.queue[i].id == id && (forall j :: 0 <= j < i ==> c.queue[j].id != id) ensures FirstId(c.queue, id) == i { }
  }
}
