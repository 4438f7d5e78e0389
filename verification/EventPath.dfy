/** The two layers together: what is broadcast, what the drain has finished, what is answered. */
module EventPath {
  import opened Wrappers
  import Bridge
  import opened Commands
  import Topics

  /** Every finished position is that of a broadcast event. */
  predicate InRange(s: Bridge.State<Event>) { forall i | 0 <= i < |s.finished| :: s.finished[i] < |s.sent| }

  /** The events the drain has finished with, in order. */
  function Drained(s: Bridge.State<Event>): (events: seq<Event>)
    requires InRange(s)
    ensures |events| == |s.finished| && forall i | 0 <= i < |events| :: events[i] == s.sent[s.finished[i]]
  {
    seq(|s.finished|, i requires 0 <= i < |s.finished| => s.sent[s.finished[i]])
  }

  /** The events finished in a run are broadcast events, at increasing places. */
  lemma FinishedWereSent(acts: seq<Bridge.Action<Event>>)
    requires Bridge.After(acts).0
    ensures var s := Bridge.After(acts).1;
            Bridge.Increasing(s.finished) && InRange(s)
  {
    Bridge.Conservation(acts);
    var s := Bridge.After(acts).1;
    var p := Bridge.Pipeline(s);
    assert forall i | 0 <= i < |s.finished| :: p[i] == s.finished[i] && p[i] in p;
  }

  /** A command message among the events is among the deliveries. */
  lemma {:induction false} MessageIsDelivered(t: Topics.Transport, events: seq<Event>, i: nat, cmd: string)
    requires i < |events| && events[i].Message? && events[i].topic == t.CommandTopic(cmd, "in") && Topics.CommandName(cmd)
    ensures Delivery(cmd, events[i].envelope, events[i].now, events[i].end) in Deliveries(t, events)
  {
    if i < |events| - 1 {
      MessageIsDelivered(t, events[..|events| - 1], i, cmd);
    } else {
      Topics.ExtractExactly(t, events[i].topic, cmd);
    }
  }

  /** What the processor has published once the drain has come this far. */
  function Published(t: Topics.Transport, handlers: set<string>, s: Bridge.State<Event>): seq<Publish>
    requires InRange(s)
  {
    ProcessAll(handlers, Deliveries(t, Drained(s))).log
  }

  /** End to end, over every interleaving: a broadcast message on a command topic that parses and
      that the drain has finished has its uuid answered. */
  lemma FinishedCommandIsAnswered(t: Topics.Transport, handlers: set<string>, acts: seq<Bridge.Action<Event>>,
                                  k: nat, cmd: string, e: Envelope)
    requires Bridge.After(acts).0 && k < |Bridge.After(acts).1.finished|
    requires var s := Bridge.After(acts).1;
             s.finished[k] < |s.sent| && s.sent[s.finished[k]].Message?
             && s.sent[s.finished[k]].topic == t.CommandTopic(cmd, "in") && s.sent[s.finished[k]].envelope == Some(e)
    requires Topics.CommandName(cmd)
    ensures InRange(Bridge.After(acts).1)
    ensures IsAnswered(Published(t, handlers, Bridge.After(acts).1), e.uuid)
  {
    FinishedWereSent(acts);
    var events := Drained(Bridge.After(acts).1);
    MessageIsDelivered(t, events, k, cmd);
    var d := Delivery(cmd, events[k].envelope, events[k].now, events[k].end);
    EveryDeliveryIsAnswered(handlers, Deliveries(t, events), d);
  }

  lemma DenseIsPrefix(s: Bridge.State<Event>)
    requires InRange(s) && forall i | 0 <= i < |s.finished| :: s.finished[i] == i
    ensures |s.finished| <= |s.sent| && Drained(s) == s.sent[..|s.finished|]
  {
    if s.finished != [] { assert s.finished[|s.finished| - 1] == |s.finished| - 1; }
  }

  lemma FinishedIsDense(acts: seq<Bridge.Action<Event>>)
    requires Bridge.After(acts).0 && Bridge.NeverOverrun(acts)
    ensures var s := Bridge.After(acts).1; forall i | 0 <= i < |s.finished| :: s.finished[i] == i
  {
    Bridge.NoLossNoLag(acts);
    var s := Bridge.After(acts).1;
    forall i | 0 <= i < |s.finished| ensures s.finished[i] == i { assert Bridge.Pipeline(s)[i] == s.finished[i]; }
  }

  /** And as long as the ring is never overrun, what the drain has finished is exactly what was
      broadcast first: no command is passed over. */
  lemma NothingIsPassedOver(acts: seq<Bridge.Action<Event>>)
    requires Bridge.After(acts).0 && Bridge.NeverOverrun(acts)
    ensures var s := Bridge.After(acts).1;
            |s.finished| <= |s.sent| && InRange(s) && Drained(s) == s.sent[..|s.finished|]
  {
    FinishedWereSent(acts);
    FinishedIsDense(acts);
    DenseIsPrefix(Bridge.After(acts).1);
  }

  /** Together: without an overrun, every command message among the first events broadcast, as
      many as the drain has finished, is answered. */
  lemma BroadcastCommandIsAnswered(t: Topics.Transport, handlers: set<string>, acts: seq<Bridge.Action<Event>>,
                                   i: nat, cmd: string, e: Envelope)
    requires Bridge.After(acts).0 && Bridge.NeverOverrun(acts)
    requires var s := Bridge.After(acts).1;
             i < |s.finished| && i < |s.sent| && s.sent[i].Message?
             && s.sent[i].topic == t.CommandTopic(cmd, "in") && s.sent[i].envelope == Some(e)
    requires Topics.CommandName(cmd)
    ensures InRange(Bridge.After(acts).1)
    ensures IsAnswered(Published(t, handlers, Bridge.After(acts).1), e.uuid)
  {
    FinishedIsDense(acts);
    FinishedCommandIsAnswered(t, handlers, acts, i, cmd, e);
  }
}
