/**
  The incoming stream as a machine that takes one byte at a time. Each state carries only the fields that
  are still going to be read. `Parse` and `Drive` describe one call of the parser and the receive loop around
  it on a whole buffer; the theorems say that how the stream was cut into buffers does not matter.
 */
module ParserSpec {
  import opened Bytes
  import opened Constants
  import opened Options
  import RemainingLength

  datatype Event =
    | Connack(sessionPresent: byte, returnCode: byte)
    | Publish(header: byte, topic: seq<byte>, id: nat, index: nat, data: seq<byte>, total: nat)
    | Ack(header: byte, id: nat)
    | Suback(id: nat, codes: seq<byte>)
    | Pingresp

  datatype State =
    | AwaitHeader
    | AwaitFixedLength(header: byte)
    | AwaitZeroLength(header: byte)
    | AwaitLength(header: byte, raw: seq<byte>)
    | AwaitConnack1
    | AwaitConnack2(sessionPresent: byte)
    | AwaitId1(header: byte, topic: seq<byte>, total: nat)
    | AwaitId2(header: byte, topic: seq<byte>, total: nat, high: byte)
    | AwaitTopicLength1(header: byte, remaining: nat)
    | AwaitTopicLength2(header: byte, remaining: nat, high: byte)
    | InTopic(header: byte, topicLength: nat, total: nat, topic: seq<byte>)
    | InSuback(id: nat, total: nat, codes: seq<byte>)
    | InPayload(header: byte, topic: seq<byte>, id: nat, total: nat, got: nat)
    | Failed  // after a protocol error nothing is parsed until reset

  datatype Outcome = Outcome(state: State, event: Option<Event>)

  /** The states the parser can be in between two bytes. */
  predicate WellFormed(s: State) {
    match s
    case AwaitFixedLength(header) => HasFixedLength(header)
    case AwaitLength(header, raw) => |raw| < 4 && (Kind(header) == PUBLISH || header == SUBACK) && forall i :: 0 <= i < |raw| ==> raw[i] >= 128
    case AwaitTopicLength1(header, _) => Kind(header) == PUBLISH
    case AwaitTopicLength2(header, _, _) => Kind(header) == PUBLISH
    case InTopic(header, topicLength, _, topic) =>
      Kind(header) == PUBLISH && |topic| < MAX_TOPIC_LENGTH && (topicLength == 0 || |topic| < topicLength)
    case InSuback(_, total, codes) => |codes| < total < PAYLOAD_BUFFER_SIZE
    case AwaitZeroLength(header) => header == PINGRESP
    case AwaitId1(header, _, total) => CarriesId(header, total)
    case AwaitId2(header, _, total, _) => CarriesId(header, total)
    case InPayload(_, _, _, total, got) => got < total
    case _ => true
  }

  // headers of the packets with a packet id; a SUBACK's codes must fit their buffer
  predicate CarriesId(header: byte, total: nat) {
    if Kind(header) == SUBACK then 0 < total < PAYLOAD_BUFFER_SIZE
    else Kind(header) == PUBLISH || (HasFixedLength(header) && Kind(header) != CONNACK)
  }

  lemma HeaderKinds(header: byte)
    ensures HasFixedLength(header) ==> Kind(header) in {CONNACK, PUBACK, PUBREC, PUBREL, PUBCOMP, UNSUBACK}
    ensures header == SUBACK ==> Kind(header) == SUBACK
    ensures header == PINGRESP ==> Kind(header) == PINGRESP
  {
  }

  function Wait(s: State): Outcome { Outcome(s, None) }
  function Emit(e: Event): Outcome { Outcome(AwaitHeader, Some(e)) }
  function Fault(): Outcome { Outcome(Failed, None) }

  // headers of the packets with a two-byte variable header, reserved flags included
  predicate HasFixedLength(header: byte) {
    header == CONNACK || header == PUBACK || header == PUBREC || header == PUBREL + 2 || header == PUBCOMP || header == UNSUBACK
  }

  function OnHeader(b: byte): Outcome {
    if Kind(b) == PUBLISH then
      if Flags(b) <= 5 || Flags(b) >= 10 then Wait(AwaitLength(b, [])) else Fault()
    else if HasFixedLength(b) then Wait(AwaitFixedLength(b))
    else if b == SUBACK then Wait(AwaitLength(b, []))
    else if b == PINGRESP then Wait(AwaitZeroLength(b))
    else Fault()
  }

  function OnLength(header: byte, raw: seq<byte>, b: byte): Outcome {
    if b >= 128 then
      if |raw| + 1 == 4 then Fault() else Wait(AwaitLength(header, raw + [b]))
    else
      var remaining := RemainingLength.Decode(raw + [b]);
      if Kind(header) == PUBLISH then Wait(AwaitTopicLength1(header, remaining))
      else if 0 < remaining - 2 < PAYLOAD_BUFFER_SIZE then Wait(AwaitId1(header, [], remaining - 2))
      else Fault()
  }

  function OnId2(header: byte, topic: seq<byte>, total: nat, high: byte, b: byte): Outcome {
    var id := high * 256 + b;
    if id == 0 then Fault()
    else if Kind(header) == SUBACK then Wait(InSuback(id, total, []))
    else if Kind(header) == PUBLISH then
      var payload := SizeSub(total, 2);
      if payload == 0 then Emit(Publish(header, topic, id, 0, [], 0)) else Wait(InPayload(header, topic, id, payload, 0))
    else Emit(Ack(header, id))
  }

  function OnTopicLength2(header: byte, remaining: nat, high: byte, b: byte): Outcome {
    var topicLength := high * 256 + b;
    if topicLength <= SizeSub(remaining, 2 + (if QosBits(header) != 0 then 2 else 0))
    then Wait(InTopic(header, topicLength, SizeSub(remaining, 2 + topicLength), []))
    else Fault()
  }

  function OnTopic(header: byte, topicLength: nat, total: nat, topic: seq<byte>, b: byte): Outcome {
    var t := topic + [b];
    if |t| != topicLength && |t| != MAX_TOPIC_LENGTH then Wait(InTopic(header, topicLength, total, t))
    else if QosBits(header) != 0 then Wait(AwaitId1(header, t, total))
    else if total == 0 then Emit(Publish(header, t, 0, 0, [], 0))
    else Wait(InPayload(header, t, 0, total, 0))
  }

  function OnSuback(id: nat, total: nat, codes: seq<byte>, b: byte): Outcome {
    if b >= 3 && b != 128 then Fault()
    else if |codes| + 1 == total then Emit(Suback(id, codes + [b]))
    else Wait(InSuback(id, total, codes + [b]))
  }

  function OnPayload(header: byte, topic: seq<byte>, id: nat, total: nat, got: nat, run: seq<byte>): Outcome {
    Outcome(if got + |run| == total then AwaitHeader else InPayload(header, topic, id, total, got + |run|),
            Some(Publish(header, topic, id, got, run, total)))
  }

  /** One byte. */
  function Step(s: State, b: byte): (o: Outcome)
  {
    match s
    case AwaitHeader => OnHeader(b)
    case AwaitFixedLength(header) =>
      if b != 2 then Fault() else if Kind(header) == CONNACK then Wait(AwaitConnack1) else Wait(AwaitId1(header, [], 0))
    case AwaitZeroLength(_) => if b == 0 then Emit(Pingresp) else Fault()
    case AwaitLength(header, raw) => OnLength(header, raw, b)
    case AwaitConnack1 => if b < 2 then Wait(AwaitConnack2(b)) else Fault()
    case AwaitConnack2(sessionPresent) => if b <= 5 then Emit(Connack(sessionPresent, b)) else Fault()
    case AwaitId1(header, topic, total) => Wait(AwaitId2(header, topic, total, b))
    case AwaitId2(header, topic, total, high) => OnId2(header, topic, total, high, b)
    case AwaitTopicLength1(header, remaining) => Wait(AwaitTopicLength2(header, remaining, b))
    case AwaitTopicLength2(header, remaining, high) => OnTopicLength2(header, remaining, high, b)
    case InTopic(header, topicLength, total, topic) => OnTopic(header, topicLength, total, topic, b)
    case InSuback(id, total, codes) => OnSuback(id, total, codes, b)
    case InPayload(header, topic, id, total, got) => OnPayload(header, topic, id, total, got, [b])
    case Failed => Fault()
  }

  lemma StepWellFormed(s: State, b: byte)
    requires WellFormed(s)
    ensures WellFormed(Step(s, b).state)
  {
    if s.AwaitFixedLength? || s.AwaitId1? || s.AwaitId2? {
      IdWellFormed(s, b);
    } else if s.AwaitHeader? || s.AwaitLength? {
      LengthWellFormed(s, b);
    } else {
      hide OnHeader, OnLength, OnId2, HasFixedLength;
    }
  }

  lemma IdWellFormed(s: State, b: byte)
    requires WellFormed(s) && (s.AwaitFixedLength? || s.AwaitId1? || s.AwaitId2?)
    ensures WellFormed(Step(s, b).state)
  {
    hide OnHeader, OnLength, OnTopicLength2, OnTopic, OnSuback, OnPayload;
    if s.AwaitFixedLength? { HeaderKinds(s.header); }
  }

  lemma LengthWellFormed(s: State, b: byte)
    requires WellFormed(s) && (s.AwaitHeader? || s.AwaitLength?)
    ensures WellFormed(Step(s, b).state)
  {
    hide OnId2, OnTopicLength2, OnTopic, OnSuback, OnPayload, RemainingLength.Decode;
  }

  datatype Trace = Trace(state: State, events: seq<Event>)

  function Emitted(o: Option<Event>): seq<Event> {
    if o.Some? then [o.value] else []
  }

  /** The byte-at-a-time meaning of a stream: final state and events, up to the first protocol error. */
  function Run(s: State, bs: seq<byte>): Trace
    decreases |bs|
  {
    if bs == [] then Trace(s, [])
    else
      var o := Step(s, bs[0]);
      var t := Run(o.state, bs[1..]);
      Trace(t.state, Emitted(o.event) + t.events)
  }

  lemma {:induction false} RunAppend(s: State, a: seq<byte>, b: seq<byte>)
    ensures Run(s, a + b).state == Run(Run(s, a).state, b).state
    ensures Run(s, a + b).events == Run(s, a).events + Run(Run(s, a).state, b).events
    decreases |a|
  {
    if a == [] {
      assert a + b == b;
    } else {
      hide Step, Run, Emitted;
      assert (a + b)[0] == a[0] && (a + b)[1..] == a[1..] + b;
      RunUnfold(s, a);
      RunUnfold(s, a + b);
      var o := Step(s, a[0]);
      RunAppend(o.state, a[1..], b);
      Assoc(Emitted(o.event), Run(o.state, a[1..]).events, Run(Run(s, a).state, b).events);
    }
  }

  lemma RunUnfold(s: State, bs: seq<byte>)
    requires bs != []
    ensures var o := Step(s, bs[0]);
            var t := Run(o.state, bs[1..]);
            Run(s, bs) == Trace(t.state, Emitted(o.event) + t.events)
  {
    hide Step;
  }

  lemma {:induction false} RunFailed(bs: seq<byte>)
    ensures Run(Failed, bs) == Trace(Failed, [])
  {
    if bs != [] { RunFailed(bs[1..]); }
  }

  datatype Parsed = Parsed(state: State, event: Option<Event>, consumed: nat)

  /**
    One call of the parser on a buffer: stops after an event, a protocol error or the last byte. The payload
    state takes everything it can from the buffer at once.
   */
  function Parse(s: State, buf: seq<byte>): (p: Parsed)
    requires WellFormed(s) && s != Failed
    ensures WellFormed(p.state)
    ensures p.consumed <= |buf|
    ensures buf != [] ==> p.consumed >= 1
    ensures p.state != Failed && p.event == None ==> p.consumed == |buf|
    decreases |buf|
  {
    if buf == [] then Parsed(s, None, 0)
    else if s.InPayload? then
      var n := Min(|buf|, s.total - s.got);
      var o := OnPayload(s.header, s.topic, s.id, s.total, s.got, buf[..n]);
      Parsed(o.state, o.event, n)
    else
      StepWellFormed(s, buf[0]);
      var o := Step(s, buf[0]);
      if o.event.Some? || o.state == Failed then Parsed(o.state, o.event, 1)
      else
        var p := Parse(o.state, buf[1..]);
        p.(consumed := p.consumed + 1)
  }

  lemma ParseEmpty(s: State)
    requires WellFormed(s) && s != Failed
    ensures Parse(s, []) == Parsed(s, None, 0)
  {
  }

  // what a call does first
  lemma ParseUnfold(s: State, buf: seq<byte>)
    requires WellFormed(s) && s != Failed && buf != []
    ensures WellFormed(Step(s, buf[0]).state)
    ensures !s.InPayload? ==>
      var o := Step(s, buf[0]);
      Parse(s, buf) == if o.event.Some? || o.state == Failed then Parsed(o.state, o.event, 1)
                       else var p := Parse(o.state, buf[1..]); p.(consumed := p.consumed + 1)
    ensures s.InPayload? ==>
      var n := Min(|buf|, s.total - s.got);
      var o := OnPayload(s.header, s.topic, s.id, s.total, s.got, buf[..n]);
      Parse(s, buf) == Parsed(o.state, o.event, n)
  {
    hide Step, OnPayload, WellFormed;
    StepWellFormed(s, buf[0]);
  }

  /** The receive loop on one buffer: parse again on what is left until the buffer is used up or an error occurs. */
  function Drive(s: State, buf: seq<byte>): (t: Trace)
    requires WellFormed(s)
    ensures WellFormed(t.state)
    decreases |buf|
  {
    if buf == [] || s == Failed then Trace(s, [])
    else
      var p := Parse(s, buf);
      var t := Drive(p.state, buf[p.consumed..]);
      Trace(t.state, Emitted(p.event) + t.events)
  }

  /** The receive loop on a whole connection, one buffer after the other. */
  function DriveAll(s: State, chunks: seq<seq<byte>>): (t: Trace)
    requires WellFormed(s)
    ensures WellFormed(t.state)
    decreases |chunks|
  {
    if chunks == [] then Trace(s, [])
    else
      var t := Drive(s, chunks[0]);
      var u := DriveAll(t.state, chunks[1..]);
      Trace(u.state, t.events + u.events)
  }

  // ---- payload fragments ----

  function Bytewise(e: Event, from: nat): seq<Event>
    requires e.Publish? && from <= |e.data|
    decreases |e.data| - from
  {
    if from == |e.data| then [] else [e.(index := e.index + from, data := [e.data[from]])] + Bytewise(e, from + 1)
  }

  /** An event with its payload fragment cut into single bytes. */
  function Shatter(e: Event): seq<Event> {
    if e.Publish? && e.data != [] then Bytewise(e, 0) else [e]
  }

  function ShatterAll(es: seq<Event>): seq<Event> {
    if es == [] then [] else Shatter(es[0]) + ShatterAll(es[1..])
  }

  lemma {:induction false} ShatterAllAppend(a: seq<Event>, b: seq<Event>)
    ensures ShatterAll(a + b) == ShatterAll(a) + ShatterAll(b)
  {
    if a == [] {
      assert a + b == b;
    } else {
      assert (a + b)[1..] == a[1..] + b;
      ShatterAllAppend(a[1..], b);
    }
  }

  /** Taking a run of payload bytes at once is the same as taking them one by one. */
  lemma PayloadByte(s: State, b: byte)
    requires s.InPayload?
    ensures Step(s, b) == OnPayload(s.header, s.topic, s.id, s.total, s.got, [b])
  {
  }

  lemma {:induction false} PayloadRun(s: State, buf: seq<byte>, n: nat, e: Event, from: nat)
    requires s.InPayload? && from <= n <= |buf| && from <= s.got && s.got + (n - from) <= s.total && s.got < s.total
    requires e == Publish(s.header, s.topic, s.id, s.got - from, buf[..n], s.total) && from < n
    ensures Run(s, buf[from..n]).events == Bytewise(e, from)
    ensures Run(s, buf[from..n]).state == if s.got + (n - from) == s.total then AwaitHeader else s.(got := s.got + (n - from))
    decreases n - from
  {
    hide Step;
    var rest := buf[from..n];
    assert rest[1..] == buf[from + 1..n];
    PayloadByte(s, buf[from]);
    if from + 1 < n {
      PayloadRun(s.(got := s.got + 1), buf, n, e, from + 1);
    } else {
      assert Bytewise(e, n) == [];
    }
  }

  // only the payload state emits payload bytes
  lemma StepShatters(s: State, b: byte)
    requires !s.InPayload?
    ensures ShatterAll(Emitted(Step(s, b).event)) == Emitted(Step(s, b).event)
  {
    var e := Emitted(Step(s, b).event);
    if e != [] {
      assert e[0].Publish? ==> e[0].data == [];
      assert e[1..] == [];
    }
  }

  /** One parser call consumes a prefix whose byte-at-a-time meaning is the event it returns. */
  lemma {:induction false} ParseIsRun(s: State, buf: seq<byte>)
    requires WellFormed(s) && s != Failed
    ensures var p := Parse(s, buf);
            Run(s, buf[..p.consumed]) == Trace(p.state, ShatterAll(Emitted(p.event)))
    decreases |buf|
  {
    hide Step, Parse, WellFormed;
    var p := Parse(s, buf);
    if buf == [] {
      ParseEmpty(s);
      return;
    }
    ParseUnfold(s, buf);
    if s.InPayload? {
      ParsePayloadIsRun(s, buf);
      return;
    }
    var o := Step(s, buf[0]);
    if o.event.Some? || o.state == Failed {
      StepIsRun(s, buf[0]);
      assert buf[..1] == [buf[0]];
    } else {
      ParseIsRun(o.state, buf[1..]);
      assert buf[..p.consumed][1..] == buf[1..][..p.consumed - 1];
    }
  }

  lemma ParsePayloadIsRun(s: State, buf: seq<byte>)
    requires WellFormed(s) && s.InPayload? && buf != []
    ensures var p := Parse(s, buf);
            Run(s, buf[..p.consumed]) == Trace(p.state, ShatterAll(Emitted(p.event)))
  {
    hide Step, Run;
    var p := Parse(s, buf);
    var n := p.consumed;
    assert buf[0..n] == buf[..n];
    PayloadRun(s, buf, n, p.event.value, 0);
    assert Emitted(p.event)[1..] == [];
  }

  lemma StepIsRun(s: State, b: byte)
    requires !s.InPayload?
    ensures var o := Step(s, b); Run(s, [b]) == Trace(o.state, ShatterAll(Emitted(o.event)))
  {
    hide Step;
    StepShatters(s, b);
    assert [b][1..] == [];
    assert Run(Step(s, b).state, []) == Trace(Step(s, b).state, []);
  }

  /** The receive loop on one buffer means what the bytes mean one at a time. */
  lemma {:induction false} DriveIsRun(s: State, buf: seq<byte>)
    requires WellFormed(s)
    ensures Drive(s, buf).state == Run(s, buf).state
    ensures ShatterAll(Drive(s, buf).events) == Run(s, buf).events
    decreases |buf|
  {
    hide Step;
    hide Parse;
    if s == Failed {
      RunFailed(buf);
    } else if buf != [] {
      var p := Parse(s, buf);
      var rest := buf[p.consumed..];
      ParseIsRun(s, buf);
      DriveIsRun(p.state, rest);
      assert buf == buf[..p.consumed] + rest;
      RunAppend(s, buf[..p.consumed], rest);
      ShatterAllAppend(Emitted(p.event), Drive(p.state, rest).events);
    }
  }

  lemma {:induction false} DriveAllIsRun(s: State, chunks: seq<seq<byte>>)
    requires WellFormed(s)
    ensures DriveAll(s, chunks).state == Run(s, Flatten(chunks)).state
    ensures ShatterAll(DriveAll(s, chunks).events) == Run(s, Flatten(chunks)).events
    decreases |chunks|
  {
    if chunks != [] {
      var t := Drive(s, chunks[0]);
      DriveIsRun(s, chunks[0]);
      DriveAllIsRun(t.state, chunks[1..]);
      RunAppend(s, chunks[0], Flatten(chunks[1..]));
      ShatterAllAppend(t.events, DriveAll(t.state, chunks[1..]).events);
    }
  }
}
