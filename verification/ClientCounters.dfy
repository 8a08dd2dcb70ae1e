/** What the id counter and the ping flag promise over whole runs. */
module ClientCounters {
  import opened Constants
  import opened PacketSpec
  import opened Outbox
  import opened ClientSpec
  import opened ClientRuns
  import P = ParserSpec

  // ---- packet ids ----

  /** The id after k draws. */
  function Drawn(last: nat, k: nat): nat {
    if k == 0 then last else NextPacketId(Drawn(last, k - 1))
  }

  lemma {:induction false} DrawnIs(last: nat, k: nat)
    requires last < 65536 && k > 0
    ensures Drawn(last, k) == (last + k - 1) % 65535 + 1
  {
    hide NextPacketId;
    NextIs(last);
    if k > 1 {
      DrawnIs(last, k - 1);
      NextAfter(last + k - 2);
    }
  }

  lemma NextIs(last: nat)
    requires last < 65536
    ensures NextPacketId(last) == last % 65535 + 1
  {
  }

  lemma NextAfter(m: nat)
    ensures NextPacketId(m % 65535 + 1) == (m + 1) % 65535 + 1
  {
    assert (m + 1) % 65535 == if m % 65535 == 65534 then 0 else m % 65535 + 1;
  }

  /** Ids are never 0, and two draws give the same id exactly when a multiple of 65535 draws lies between them. */
  lemma {:induction false} IdsRepeatIff(last: nat, i: nat, j: nat)
    requires last < 65536 && 0 < i <= j
    ensures 0 < Drawn(last, i) < 65536
    ensures Drawn(last, i) == Drawn(last, j) <==> (j - i) % 65535 == 0
  {
    hide Drawn, NextPacketId;
    DrawnIs(last, i);
    DrawnIs(last, j);
    SameRemainder(last + i - 1, last + j - 1);
  }

  lemma SameRemainder(a: nat, b: nat)
    requires a <= b
    ensures 0 <= a % 65535 < 65535 && (a % 65535 == b % 65535 <==> (b - a) % 65535 == 0)
  {
    var qa, qb, q := a / 65535, b / 65535, (b - a) / 65535;
    assert a == 65535 * qa + a % 65535 && b == 65535 * qb + b % 65535 && b - a == 65535 * q + (b - a) % 65535;
  }

  /** The counter in the client: a QoS > 0 publish, a subscribe or an unsubscribe that is let in draws one id, nothing else does. */
  predicate Draws(c: Client, a: Action) {
    match a
    case DoPublish(_, _, qos, _, _) => Number(c.state) <= Number(Connected) && qos > 0
    case DoSubscribe(_, _) => c.state == Connected
    case DoUnsubscribe(_, _) => c.state == Connected
    case _ => false
  }

  function DrawCount(c: Client, acts: seq<Action>): nat
    requires EnabledRun(c, acts)
    decreases |acts|
  {
    if acts == [] then 0 else (if Draws(c, acts[0]) then 1 else 0) + DrawCount(Step(c, acts[0]), acts[1..])
  }

  lemma StepDraws(c: Client, a: Action)
    requires Basic(c) && Enabled(c, a)
    ensures Step(c, a).packetId == if Draws(c, a) then NextPacketId(c.packetId) else c.packetId
  {
    hide PublishBytes, SubscribeBytes, UnsubscribeBytes, Added, Elapsed, NextPacketId, Kept, Losses, Response, Apply, BareBytes,
         SetDup, Removable, TypeOf, AddPacketFront, FromStart, Available;
    FrontId(c, if a.DoConnect? then a.mem else NoNode);
  }

  lemma FrontId(c: Client, mem: Memory)
    ensures var d := AddPacketFront(c, c.config.connectBytes, mem); d.packetId == c.packetId && d.pingSent == c.pingSent
  {
  }

  lemma {:induction false} DrawnLater(last: nat, k: nat)
    ensures Drawn(last, k + 1) == Drawn(NextPacketId(last), k)
  {
    if k > 0 { DrawnLater(last, k - 1); }
  }

  /** In every run the counter stands on as many draws as the run made. */
  lemma {:induction false} CounterIsDraws(c: Client, acts: seq<Action>)
    requires Basic(c) && EnabledRun(c, acts)
    ensures Run(c, acts).packetId == Drawn(c.packetId, DrawCount(c, acts))
    decreases |acts|
  {
    hide Step, Enabled, Draws, NextPacketId;
    if acts != [] {
      StepDraws(c, acts[0]);
      StepBasic(c, acts[0]);
      CounterIsDraws(Step(c, acts[0]), acts[1..]);
      DrawnLater(c.packetId, DrawCount(Step(c, acts[0]), acts[1..]));
    }
  }

  // ---- pings ----

  // what lets the client ping again
  predicate Answered(a: Action) {
    a.Received? && (a.e.Pingresp? || (a.e.Connack? && a.e.returnCode == 0))
  }

  predicate Pings(c: Client, a: Action) {
    a.Ping? && PingDue(c, a.now) && a.mem == Granted
  }

  function PingCount(c: Client, acts: seq<Action>): nat
    requires EnabledRun(c, acts)
    decreases |acts|
  {
    if acts == [] then 0 else (if Pings(c, acts[0]) then 1 else 0) + PingCount(Step(c, acts[0]), acts[1..])
  }

  lemma PingQueues(c: Client, now: nat, mem: Memory)
    requires PingDue(c, now) && mem == Granted
    ensures CheckPing(c, now, mem).queue == c.queue + [Item(BareBytes(PINGREQ), 0, 0, c.h.serials, false)]
  {
    hide Elapsed, BareBytes;
  }

  lemma StepPings(c: Client, a: Action)
    requires Basic(c) && Enabled(c, a)
    ensures !Answered(a) ==> Step(c, a).pingSent == (c.pingSent || Pings(c, a))
    ensures Pings(c, a) ==> !c.pingSent && Step(c, a).queue == c.queue + [Item(BareBytes(PINGREQ), 0, 0, c.h.serials, false)]
  {
    hide PublishBytes, SubscribeBytes, UnsubscribeBytes, Elapsed, NextPacketId, Response, Kept, Losses, Apply, SetDup, Removable, TypeOf,
         FromStart, Available, AddPacketFront;
    if Pings(c, a) { PingQueues(c, a.now, a.mem); }
    FrontId(c, if a.DoConnect? then a.mem else NoNode);
  }

  // a PINGRESP once connected, and a CONNACK that accepts
  predicate Settles(c: Client, a: Action) {
    a.Received? && ((a.e.Pingresp? && c.state != ConnectingMqtt) || (a.e.Connack? && a.e.returnCode == 0))
  }

  /** Whether a ping is waiting for its answer, by what the run did. */
  function PingWaits(c: Client, acts: seq<Action>, waits: bool): bool
    requires EnabledRun(c, acts)
    decreases |acts|
  {
    if acts == [] then waits
    else PingWaits(Step(c, acts[0]), acts[1..], if Settles(c, acts[0]) then false else waits || Pings(c, acts[0]))
  }

  lemma StepSettles(c: Client, a: Action)
    requires Basic(c) && Enabled(c, a)
    ensures Step(c, a).pingSent == if Settles(c, a) then false else c.pingSent || Pings(c, a)
  {
    hide Step, Enabled, Pings;
    StepPings(c, a);
    if Answered(a) { AnswerSettles(c, a); }
  }

  lemma AnswerSettles(c: Client, a: Action)
    requires Basic(c) && Enabled(c, a) && Answered(a)
    ensures Step(c, a).pingSent == if Settles(c, a) then false else c.pingSent
    ensures !Pings(c, a)
  {
    hide Kept, Losses, SetDup, Removable, TypeOf, NonEmpty;
  }

  /** In every run the client takes a ping for unanswered exactly when one was queued since the last answer. */
  lemma {:induction false} PingWaitsIff(c: Client, acts: seq<Action>)
    requires Basic(c) && EnabledRun(c, acts)
    ensures Run(c, acts).pingSent == PingWaits(c, acts, c.pingSent)
    decreases |acts|
  {
    hide Step, Enabled, Pings, Settles, Basic;
    if acts != [] {
      StepSettles(c, acts[0]);
      StepBasic(c, acts[0]);
      PingWaitsIff(Step(c, acts[0]), acts[1..]);
    }
  }

  /** Without an answer or a new connection at most one PINGREQ is queued, however long the run is. */
  lemma {:induction false} OnePing(c: Client, acts: seq<Action>)
    requires Basic(c) && EnabledRun(c, acts) && forall a :: a in acts ==> !Answered(a)
    ensures PingCount(c, acts) + (if c.pingSent then 1 else 0) <= 1
    ensures Run(c, acts).pingSent <==> c.pingSent || PingCount(c, acts) > 0
    decreases |acts|
  {
    hide Step, Enabled, Pings, Answered;
    if acts != [] {
      assert acts[0] in acts;
      StepPings(c, acts[0]);
      StepBasic(c, acts[0]);
      OnePing(Step(c, acts[0]), acts[1..]);
    }
  }
}
