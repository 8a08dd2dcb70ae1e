/**
  Whole messages out of payload fragments. Joining adjacent fragments of one PUBLISH gives the same list for
  every way the stream was cut, and every message in it but an unfinished last one runs from index 0 to total.
 */
module Messages {
  import opened Bytes
  import opened Constants
  import opened Options
  import opened ParserSpec

  /** `e` carries on the payload of `prior` where that stopped. */
  predicate Continues(prior: Event, e: Event) {
    && prior.Publish? && e.Publish?
    && e.header == prior.header && e.topic == prior.topic && e.id == prior.id && e.total == prior.total
    && prior.data != [] && e.data != []
    && e.index == prior.index + |prior.data| < prior.total
  }

  function Attach(joined: seq<Event>, e: Event): (r: seq<Event>)
    ensures r != []
  {
    var n := |joined|;
    if n > 0 && Continues(joined[n - 1], e)
    then joined[..n - 1] + [joined[n - 1].(data := joined[n - 1].data + e.data)]
    else joined + [e]
  }

  function JoinFrom(joined: seq<Event>, es: seq<Event>): seq<Event>
    decreases |es|
  {
    if es == [] then joined else JoinFrom(Attach(joined, es[0]), es[1..])
  }

  /** Adjacent fragments of the same PUBLISH joined. */
  function Join(es: seq<Event>): seq<Event> { JoinFrom([], es) }

  predicate FitsTotal(e: Event) {
    e.Publish? ==> e.index + |e.data| <= e.total
  }

  lemma {:induction false} JoinFromAppend(joined: seq<Event>, a: seq<Event>, b: seq<Event>)
    ensures JoinFrom(joined, a + b) == JoinFrom(JoinFrom(joined, a), b)
    decreases |a|
  {
    if a == [] {
      assert a + b == b;
    } else {
      assert (a + b)[1..] == a[1..] + b;
      JoinFromAppend(Attach(joined, a[0]), a[1..], b);
    }
  }

  // attaching the bytes from `from` on to a message that ends with the first `from` bytes of e
  lemma {:induction false} JoinBytewise(joined: seq<Event>, prior: Event, e: Event, from: nat)
    requires e.Publish? && FitsTotal(e) && 1 <= from <= |e.data|
    requires prior.Publish? && prior.data != [] && prior.index + |prior.data| == e.index + from
    requires prior.header == e.header && prior.topic == e.topic && prior.id == e.id && prior.total == e.total
    ensures JoinFrom(joined + [prior], Bytewise(e, from)) == joined + [prior.(data := prior.data + e.data[from..])]
    decreases |e.data| - from
  {
    if from == |e.data| {
      assert prior.data + e.data[from..] == prior.data;
    } else {
      var next := prior.(data := prior.data + [e.data[from]]);
      assert (joined + [prior])[..|joined|] == joined;
      JoinBytewise(joined, next, e, from + 1);
      assert next.data + e.data[from + 1..] == prior.data + e.data[from..];
    }
  }

  lemma {:induction false} JoinShatter(joined: seq<Event>, e: Event)
    requires FitsTotal(e)
    ensures JoinFrom(joined, Shatter(e)) == Attach(joined, e)
  {
    if e.Publish? && e.data != [] {
      hide JoinFrom, Bytewise, Shatter, Continues, FitsTotal;
      var n := |joined|;
      ShatterFirst(joined, e);
      if n > 0 && Continues(joined[n - 1], e) {
        JoinRest(joined[..n - 1], joined[n - 1], e);
      } else {
        JoinBytewise(joined, e.(data := [e.data[0]]), e, 1);
        assert [e.data[0]] + e.data[1..] == e.data;
      }
    } else {
      assert Shatter(e)[1..] == [];
    }
  }

  lemma JoinRest(joined: seq<Event>, prior: Event, e: Event)
    requires FitsTotal(e) && Continues(prior, e)
    ensures JoinFrom(joined + [prior.(data := prior.data + [e.data[0]])], Bytewise(e, 1)) == joined + [prior.(data := prior.data + e.data)]
  {
    hide JoinFrom, Bytewise;
    var grown := prior.(data := prior.data + [e.data[0]]);
    JoinBytewise(joined, grown, e, 1);
    assert grown.data + e.data[1..] == prior.data + e.data;
  }

  // the first byte of a message is attached as the message would be
  lemma ShatterFirst(joined: seq<Event>, e: Event)
    requires e.Publish? && e.data != []
    ensures var n, first := |joined|, e.(data := [e.data[0]]);
            JoinFrom(joined, Shatter(e)) ==
              JoinFrom(if n > 0 && Continues(joined[n - 1], e)
                       then joined[..n - 1] + [joined[n - 1].(data := joined[n - 1].data + [e.data[0]])] else joined + [first],
                       Bytewise(e, 1))
  {
    hide JoinFrom, Bytewise, Shatter;
    FirstByte(e);
    JoinOne(joined, e.(data := [e.data[0]]), Bytewise(e, 1));
  }

  lemma FirstByte(e: Event)
    requires e.Publish? && e.data != []
    ensures Shatter(e) == [e.(data := [e.data[0]])] + Bytewise(e, 1)
  {
    assert e.index + 0 == e.index;
  }

  lemma JoinOne(joined: seq<Event>, e: Event, es: seq<Event>)
    ensures JoinFrom(joined, [e] + es) == JoinFrom(Attach(joined, e), es)
  {
    hide Attach;
    assert ([e] + es)[1..] == es;
  }

  /** Joining does not see how fragments were cut. */
  lemma {:induction false} JoinShatterAll(joined: seq<Event>, es: seq<Event>)
    requires forall i :: 0 <= i < |es| ==> FitsTotal(es[i])
    ensures JoinFrom(joined, ShatterAll(es)) == JoinFrom(joined, es)
    decreases |es|
  {
    if es != [] {
      JoinFromAppend(joined, Shatter(es[0]), ShatterAll(es[1..]));
      JoinShatter(joined, es[0]);
      JoinShatterAll(Attach(joined, es[0]), es[1..]);
    }
  }

  // ---- the receive loop only produces fragments that fit ----

  lemma {:induction false} ParseFits(s: State, buf: seq<byte>)
    requires WellFormed(s) && s != Failed
    ensures Parse(s, buf).event.Some? ==> FitsTotal(Parse(s, buf).event.value)
    decreases |buf|
  {
    if buf != [] && !s.InPayload? {
      StepWellFormed(s, buf[0]);
      var o := Step(s, buf[0]);
      if o.event == None && o.state != Failed {
        ParseFits(o.state, buf[1..]);
      }
    }
  }

  lemma {:induction false} DriveFits(s: State, buf: seq<byte>)
    requires WellFormed(s)
    ensures forall e :: e in Drive(s, buf).events ==> FitsTotal(e)
    decreases |buf|
  {
    hide Parse;
    if buf != [] && s != Failed {
      ParseFits(s, buf);
      var p := Parse(s, buf);
      DriveFits(p.state, buf[p.consumed..]);
    }
  }

  lemma {:induction false} DriveAllFits(s: State, chunks: seq<seq<byte>>)
    requires WellFormed(s)
    ensures forall e :: e in DriveAll(s, chunks).events ==> FitsTotal(e)
    decreases |chunks|
  {
    if chunks != [] {
      DriveFits(s, chunks[0]);
      DriveAllFits(Drive(s, chunks[0]).state, chunks[1..]);
    }
  }

  /**
    Chunk independence: two ways of cutting the same byte stream into buffers end in the same parser state
    and deliver the same events once adjacent fragments of one payload are joined.
   */
  lemma {:induction false} ChunkIndependence(s: State, chunks: seq<seq<byte>>, others: seq<seq<byte>>)
    requires WellFormed(s) && Flatten(chunks) == Flatten(others)
    ensures DriveAll(s, chunks).state == DriveAll(s, others).state
    ensures Join(DriveAll(s, chunks).events) == Join(DriveAll(s, others).events)
  {
    DriveAllIsRun(s, chunks);
    DriveAllIsRun(s, others);
    DriveAllFits(s, chunks);
    DriveAllFits(s, others);
    JoinShatterAll([], DriveAll(s, chunks).events);
    JoinShatterAll([], DriveAll(s, others).events);
  }

  // ---- messages are complete ----

  /** A message as the application should see it: a PUBLISH payload from index 0 to its total. */
  predicate Whole(e: Event) {
    e.Publish? ==> e.index == 0 && |e.data| == e.total
  }

  /** All messages whole, except that the last may be the payload the parser is in the middle of. */
  predicate Consistent(joined: seq<Event>, s: State) {
    if s.InPayload? && s.got > 0 then
      && joined != []
      && (forall i :: 0 <= i < |joined| - 1 ==> Whole(joined[i]))
      && var m := joined[|joined| - 1];
         m.Publish? && m.header == s.header && m.topic == s.topic && m.id == s.id && m.index == 0 && |m.data| == s.got && m.total == s.total
    else
      forall i :: 0 <= i < |joined| ==> Whole(joined[i])
  }

  lemma StepConsistent(joined: seq<Event>, s: State, b: byte)
    requires WellFormed(s) && Consistent(joined, s)
    ensures Consistent(JoinFrom(joined, Emitted(Step(s, b).event)), Step(s, b).state)
  {
    var o := Step(s, b);
    if o.event.Some? {
      var after := Attach(joined, o.event.value);
      assert Emitted(o.event)[1..] == [];
      assert JoinFrom(joined, Emitted(o.event)) == after;
    }
  }

  lemma {:induction false} RunConsistent(joined: seq<Event>, s: State, bs: seq<byte>)
    requires WellFormed(s) && Consistent(joined, s)
    ensures Consistent(JoinFrom(joined, Run(s, bs).events), Run(s, bs).state)
    decreases |bs|
  {
    if bs != [] {
      var o := Step(s, bs[0]);
      StepWellFormed(s, bs[0]);
      StepConsistent(joined, s, bs[0]);
      RunConsistent(JoinFrom(joined, Emitted(o.event)), o.state, bs[1..]);
      JoinFromAppend(joined, Emitted(o.event), Run(o.state, bs[1..]).events);
    }
  }

  /**
    Fragments are contiguous from index 0 to total: on any stream, however cut, the messages joined up to its
    end or first protocol error are whole, but for a last one of which exactly the bytes received are there.
   */
  lemma {:induction false} FragmentsContiguous(chunks: seq<seq<byte>>)
    ensures Consistent(Join(DriveAll(AwaitHeader, chunks).events), DriveAll(AwaitHeader, chunks).state)
  {
    DriveAllIsRun(AwaitHeader, chunks);
    DriveAllFits(AwaitHeader, chunks);
    JoinShatterAll([], DriveAll(AwaitHeader, chunks).events);
    RunConsistent([], AwaitHeader, Flatten(chunks));
  }
}
