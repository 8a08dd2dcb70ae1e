/** What a user call does: what it queues, what it tells the user, and when it does nothing. */
module ClientCalls {
  import opened Bytes
  import opened Constants
  import opened Options
  import opened PacketSpec
  import opened ClientSpec
  import opened ClientRuns
  import opened ClientPackets
  import P = ParserSpec

  // the packet at the back is new, made by the call, and booked under the id
  predicate Queued(c: Client, a: Action, d: Client, id: nat) {
    && |d.queue| == |c.queue| + 1 && d.queue[..|c.queue|] == c.queue
    && d.queue[|c.queue|].id == id && d.queue[|c.queue|].serial == c.h.serials && !d.queue[|c.queue|].whole
    && Spells(c.config, a, d.queue[|c.queue|])
  }

  // the rest of the client is as it was
  predicate OnlyQueue(c: Client, d: Client) {
    d == c.(queue := d.queue, packetId := d.packetId, h := c.h.(notes := d.h.notes, serials := d.h.serials))
  }

  /**
    publish() is taken in every state up to `connected`: the message is queued under a new id, or under 0 at QoS 0,
    or onError tells the id. Later it does nothing.
   */
  lemma PublishQueues(c: Client, a: Action)
    requires Basic(c) && a.DoPublish? && Enabled(c, a)
    ensures var d := Step(c, a);
            && (Number(c.state) > Number(Connected) ==> d == c)
            && (Number(c.state) <= Number(Connected) ==>
                  && OnlyQueue(c, d)
                  && (a.mem == Granted ==> Queued(c, a, d, if a.qos > 0 then d.packetId else 0))
                  && (a.mem != Granted ==> d.queue == c.queue)
                  && d.h.notes == c.h.notes + if a.mem != Granted then [OnError(if a.qos > 0 then d.packetId else 1)]
                                              else if a.qos > 0 then [Accepted(d.packetId)] else [])
  {
    hide PublishBytes, Spells, Made, NextPacketId, NonEmpty;
    if a.mem == Granted && Number(c.state) <= Number(Connected) {
      var p := Step(c, a).queue[|c.queue|];
      assert Made(c.config, a, p) by { EditMade(c, a, p); }
      MadeSpells(c.config, a, p);
    }
    assert c.h.notes + [] == c.h.notes;
  }

  /** subscribe() and unsubscribe() are taken when connected, and queued under a new id. */
  lemma RequestQueues(c: Client, a: Action)
    requires Basic(c) && (a.DoSubscribe? || a.DoUnsubscribe?)
    ensures var d := Step(c, a);
            && (c.state != Connected ==> d == c)
            && (c.state == Connected ==>
                  && OnlyQueue(c, d) && d.h.notes == c.h.notes
                  && (a.mem == Granted ==> Queued(c, a, d, d.packetId))
                  && (a.mem != Granted ==> d.queue == c.queue))
  {
    hide SubscribeBytes, UnsubscribeBytes, Spells, Made, NextPacketId, NonEmpty;
    if a.mem == Granted && c.state == Connected {
      var p := Step(c, a).queue[|c.queue|];
      assert Made(c.config, a, p) by { EditMade(c, a, p); }
      MadeSpells(c.config, a, p);
    }
    assert c.h.notes + [] == c.h.notes;
  }

  /** connect() puts CONNECT in front of everything and starts; it is refused unless the client is disconnected. */
  lemma ConnectStarts(c: Client, mem: Memory)
    requires Basic(c)
    ensures var d := Step(c, DoConnect(mem));
            && (c.state != Disconnected ==> d == c)
            && (c.state == Disconnected && mem == Granted ==>
                  && d.state == ConnectingTcp1 && d.cursor == 0 && d.bytesSent == 0 && !d.h.connackSeen
                  && |d.queue| == |c.queue| + 1 && d.queue[1..] == c.queue
                  && d.queue[0].bytes == c.config.connectBytes && d.queue[0].id == 0
                  && d.h.notes == c.h.notes + [ConnectCalled])
            && (c.state == Disconnected && mem != Granted ==>
                  d.state == Disconnected && d.queue == c.queue && d.h.notes == c.h.notes + [OnError(0)])
  {
    hide NonEmpty;
  }
}
