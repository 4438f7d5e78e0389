/** Command processing: expiry, and the life of each command as it is published. */
module Commands {
  import opened Wrappers
  import Dedup
  import Topics

  // --- envelopes ---

  const MAX_TTL_SEC := 315_360_000
  const NANOS_PER_SEC := 1_000_000_000

  /** Times are nanoseconds of UTC; the payload is what a handler looks at. */
  datatype Envelope = Envelope(uuid: string, issuedAt: int, ttlSec: nat) {
    predicate IsExpiredAt(now: int) {
      var ttl := if ttlSec <= 0x7FFF_FFFF_FFFF_FFFF && ttlSec < MAX_TTL_SEC then ttlSec else MAX_TTL_SEC;
      now > issuedAt + ttl * NANOS_PER_SEC
    }
  }

  /** A larger time to live never expires a command sooner, no time to live lasts more than ten
      years of 365 days, and expiry is final. */
  lemma ExpiryMonotone(e: Envelope, longer: nat, now: int, later: int)
    requires e.ttlSec <= longer && now <= later
    ensures e.IsExpiredAt(now) ==> e.IsExpiredAt(later)
    ensures e.(ttlSec := longer).IsExpiredAt(now) ==> e.IsExpiredAt(now)
    ensures now > e.issuedAt + 10 * 365 * 86_400 * NANOS_PER_SEC ==> e.IsExpiredAt(now)
  {
  }

  /** The moment of expiry, from three facts: a command without time to live expires at once,
      each further second moves the moment by one second in nanoseconds, and from ten years of
      365 days on the time to live makes no difference. */
  lemma ExpiryBoundary(e: Envelope, t: nat, now: int)
    ensures e.(ttlSec := 0).IsExpiredAt(now) <==> now > e.issuedAt
    ensures t < 315_360_000 ==>
              (e.(ttlSec := t + 1).IsExpiredAt(now + 1_000_000_000) <==> e.(ttlSec := t).IsExpiredAt(now))
    ensures t >= 315_360_000 ==> (e.(ttlSec := t).IsExpiredAt(now) <==> e.(ttlSec := 315_360_000).IsExpiredAt(now))
  {
  }

  /** After a whole number of seconds within its time to live a command has not expired, and a
      nanosecond after the last of them it has. */
  lemma {:induction false} LivesExactly(e: Envelope, k: nat)
    requires k <= e.ttlSec && e.ttlSec <= 315_360_000
    ensures !e.IsExpiredAt(e.issuedAt + k * 1_000_000_000)
    ensures k == e.ttlSec ==> e.IsExpiredAt(e.issuedAt + k * 1_000_000_000 + 1)
    decreases k
  {
    if k == 0 {
      ExpiryBoundary(e, 0, e.issuedAt);
      ExpiryBoundary(e, 0, e.issuedAt + 1);
      ExpiryMonotone(e.(ttlSec := 0), e.ttlSec, e.issuedAt, e.issuedAt);
      assert e.(ttlSec := 0).(ttlSec := e.ttlSec) == e;
    } else {
      var shorter := e.(ttlSec := e.ttlSec - 1);
      LivesExactly(shorter, k - 1);
      ExpiryBoundary(e, e.ttlSec - 1, e.issuedAt + (k - 1) * 1_000_000_000);
      ExpiryBoundary(e, e.ttlSec - 1, e.issuedAt + (k - 1) * 1_000_000_000 + 1);
      assert e.(ttlSec := e.ttlSec - 1 + 1) == e;
    }
  }

  // --- what is published ---

  datatype CommandState = Accepted | InProgress | Completed | Failed | Rejected | Expired

  datatype Publish =
    | Status(cmd: string, uuid: string, state: CommandState)
    | Outcome(cmd: string, uuid: string, ok: bool)

  /** How the select between the handler and the shutdown token ends. */
  datatype HandlerEnd = Succeeded | Errored | ShutDown

  /** A payload delivered for a command; `None` is one that does not parse as an envelope. */
  datatype Delivery = Delivery(cmd: string, envelope: Option<Envelope>, now: int, end: HandlerEnd)

  /** A handler start, with the place of its uuid among the accepted ones. */
  datatype Start = Start(cmd: string, uuid: string, envelope: Envelope, now: int, place: nat)

  datatype Trace = Trace(calls: seq<string>, log: seq<Publish>, starts: seq<Start>)

  /** The publishes of one accepted delivery. */
  function Block(handlers: set<string>, cmd: string, e: Envelope, now: int, end: HandlerEnd): seq<Publish> {
    var u := e.uuid;
    if e.IsExpiredAt(now) then [Status(cmd, u, Expired)]
    else if cmd !in handlers then [Status(cmd, u, Accepted), Status(cmd, u, Rejected)]
    else match end
      case Succeeded =>
        [Status(cmd, u, Accepted), Status(cmd, u, InProgress), Status(cmd, u, Completed), Outcome(cmd, u, true)]
      case Errored =>
        [Status(cmd, u, Accepted), Status(cmd, u, InProgress), Status(cmd, u, Failed), Outcome(cmd, u, false)]
      case ShutDown =>
        [Status(cmd, u, Accepted), Status(cmd, u, InProgress)]
  }

  /** The effect of one delivery on the trace. */
  function Process(handlers: set<string>, t: Trace, d: Delivery): Trace {
    match d.envelope
    case None => t
    case Some(e) =>
      if e.uuid in Dedup.Window(t.calls) then t.(calls := t.calls + [e.uuid])
      else
        Trace(t.calls + [e.uuid],
              t.log + Block(handlers, d.cmd, e, d.now, d.end),
              if e.IsExpiredAt(d.now) || d.cmd !in handlers then t.starts
              else t.starts + [Start(d.cmd, e.uuid, e, d.now, |Dedup.Accepted(t.calls)|)])
  }

  const EMPTY := Trace([], [], [])

  function ProcessAll(handlers: set<string>, ds: seq<Delivery>): Trace {
    if ds == [] then EMPTY
    else Process(handlers, ProcessAll(handlers, ds[..|ds| - 1]), ds[|ds| - 1])
  }

  // --- the lifecycle automaton ---

  /** What an observer of the processor's publishes knows of the command in progress. */
  datatype Phase =
    | Between
    | Acknowledged(cmd: string, uuid: string)
    | Running(cmd: string, uuid: string)
    | Reporting(cmd: string, uuid: string, ok: bool)
    | Illegal

  /** One publish seen by the observer.  A new command may begin between commands, and also
      after a running one that shutdown has cut off. */
  function Observe(ph: Phase, p: Publish): Phase {
    match p
    case Status(c, u, Expired) => if ph.Between? || ph.Running? then Between else Illegal
    case Status(c, u, Accepted) => if ph.Between? || ph.Running? then Acknowledged(c, u) else Illegal
    case Status(c, u, Rejected) => if ph == Acknowledged(c, u) then Between else Illegal
    case Status(c, u, InProgress) => if ph == Acknowledged(c, u) then Running(c, u) else Illegal
    case Status(c, u, Completed) => if ph == Running(c, u) then Reporting(c, u, true) else Illegal
    case Status(c, u, Failed) => if ph == Running(c, u) then Reporting(c, u, false) else Illegal
    case Outcome(c, u, ok) => if ph == Reporting(c, u, ok) then Between else Illegal
  }

  function ObserveAll(log: seq<Publish>): Phase {
    if log == [] then Between else Observe(ObserveAll(log[..|log| - 1]), log[|log| - 1])
  }

  function ObserveFrom(ph: Phase, log: seq<Publish>): Phase
    decreases |log|
  {
    if log == [] then ph else ObserveFrom(Observe(ph, log[0]), log[1..])
  }

  lemma {:induction false} ObserveAppend(log: seq<Publish>, more: seq<Publish>)
    ensures ObserveAll(log + more) == ObserveFrom(ObserveAll(log), more)
    decreases |more|
  {
    if more == [] {
      assert log + more == log;
    } else {
      assert (log + [more[0]])[..|log|] == log;
      assert (log + [more[0]]) + more[1..] == log + more;
      ObserveAppend(log + [more[0]], more[1..]);
    }
  }

  lemma BlockIsLegal(handlers: set<string>, cmd: string, e: Envelope, now: int, end: HandlerEnd, ph: Phase)
    requires ph.Between? || ph.Running?
    ensures var next := ObserveFrom(ph, Block(handlers, cmd, e, now, end));
      next.Between? || (next == Running(cmd, e.uuid) && end.ShutDown?)
  {
    var b := Block(handlers, cmd, e, now, end);
    ObserveFour(ph, b);
  }

  lemma ObserveFour(ph: Phase, b: seq<Publish>)
    requires 1 <= |b| <= 4
    ensures |b| == 1 ==> ObserveFrom(ph, b) == Observe(ph, b[0])
    ensures |b| == 2 ==> ObserveFrom(ph, b) == Observe(Observe(ph, b[0]), b[1])
    ensures |b| == 4 ==> ObserveFrom(ph, b) == Observe(Observe(Observe(Observe(ph, b[0]), b[1]), b[2]), b[3])
    decreases |b|
  {
    if |b| > 1 {
      ObserveFour(Observe(ph, b[0]), b[1..]);
      if |b| == 4 { ObserveFour(Observe(Observe(ph, b[0]), b[1]), b[1..][1..]); }
    }
  }

  /** Every run's publishes are uninterleaved lifecycles of single commands, and the last one is
      complete unless shutdown cut its handler off. */
  lemma {:induction false} TraceIsLegal(handlers: set<string>, ds: seq<Delivery>)
    ensures var ph := ObserveAll(ProcessAll(handlers, ds).log);
      ph.Between? || (ph.Running? && exists d | d in ds :: d.end.ShutDown?)
  {
    if ds != [] {
      var front, d := ds[..|ds| - 1], ds[|ds| - 1];
      TraceIsLegal(handlers, front);
      var t := ProcessAll(handlers, front);
      assert ds == front + [d];
      if d.envelope.Some? && d.envelope.value.uuid !in Dedup.Window(t.calls) {
        var e := d.envelope.value;
        ObserveAppend(t.log, Block(handlers, d.cmd, e, d.now, d.end));
        BlockIsLegal(handlers, d.cmd, e, d.now, d.end, ObserveAll(t.log));
      }
    }
  }

  // --- causes and answers ---

  /** The delivery explains the publish: its command, its uuid, and the outcome that was due. */
  predicate Explains(handlers: set<string>, d: Delivery, p: Publish) {
    && d.envelope.Some? && p.cmd == d.cmd && p.uuid == d.envelope.value.uuid
    && var expired, known := d.envelope.value.IsExpiredAt(d.now), d.cmd in handlers;
       match p
       case Outcome(_, _, ok) => !expired && known && d.end == (if ok then Succeeded else Errored)
       case Status(_, _, state) =>
         match state
         case Expired => expired
         case Accepted => !expired
         case Rejected => !expired && !known
         case InProgress => !expired && known
         case Completed => !expired && known && d.end.Succeeded?
         case Failed => !expired && known && d.end.Errored?
  }

  lemma BlockIsExplained(handlers: set<string>, d: Delivery, p: Publish)
    requires d.envelope.Some? && p in Block(handlers, d.cmd, d.envelope.value, d.now, d.end)
    ensures Explains(handlers, d, p)
  {
  }

  /** Nothing is published without a delivery that calls for it. */
  lemma {:induction false} EveryPublishIsExplained(handlers: set<string>, ds: seq<Delivery>, p: Publish)
    requires p in ProcessAll(handlers, ds).log
    ensures exists d | d in ds :: Explains(handlers, d, p)
  {
    var front, d := ds[..|ds| - 1], ds[|ds| - 1];
    var t := ProcessAll(handlers, front);
    assert ds == front + [d];
    if p in t.log {
      EveryPublishIsExplained(handlers, front, p);
    } else {
      BlockIsExplained(handlers, d, p);
    }
  }

  /** The uuid has been answered with Accepted or Expired. */
  ghost predicate IsAnswered(log: seq<Publish>, uuid: string) {
    exists p | p in log :: p.Status? && p.uuid == uuid && (p.state.Accepted? || p.state.Expired?)
  }

  lemma BlockAnswers(handlers: set<string>, log: seq<Publish>, cmd: string, e: Envelope, now: int, end: HandlerEnd)
    ensures IsAnswered(log + Block(handlers, cmd, e, now, end), e.uuid)
  {
    var b := Block(handlers, cmd, e, now, end);
    assert b[0] in log + b;
  }

  lemma AnswersStay(log: seq<Publish>, more: seq<Publish>, uuid: string)
    requires IsAnswered(log, uuid)
    ensures IsAnswered(log + more, uuid)
  {
    var p :| p in log && p.Status? && p.uuid == uuid && (p.state.Accepted? || p.state.Expired?);
    assert p in log + more;
  }

  lemma {:induction false} AcceptedAreAnswered(handlers: set<string>, ds: seq<Delivery>, uuid: string)
    requires uuid in Dedup.Accepted(ProcessAll(handlers, ds).calls)
    ensures IsAnswered(ProcessAll(handlers, ds).log, uuid)
  {
    var front, d := ds[..|ds| - 1], ds[|ds| - 1];
    var t := ProcessAll(handlers, front);
    if d.envelope.None? {
      AcceptedAreAnswered(handlers, front, uuid);
    } else {
      var e := d.envelope.value;
      if uuid in Dedup.Accepted(t.calls) {
        AcceptedAreAnswered(handlers, front, uuid);
        AnswersStay(t.log, Block(handlers, d.cmd, e, d.now, d.end), uuid);
      } else {
        BlockAnswers(handlers, t.log, d.cmd, e, d.now, d.end);
      }
    }
  }

  /** Every delivery that parses is answered, at the latest by the first delivery of its uuid. */
  lemma {:induction false} EveryDeliveryIsAnswered(handlers: set<string>, ds: seq<Delivery>, d: Delivery)
    requires d in ds && d.envelope.Some?
    ensures IsAnswered(ProcessAll(handlers, ds).log, d.envelope.value.uuid)
  {
    var front, last := ds[..|ds| - 1], ds[|ds| - 1];
    var t := ProcessAll(handlers, front);
    assert ds == front + [last];
    if d in front {
      EveryDeliveryIsAnswered(handlers, front, d);
      if last.envelope.Some? {
        AnswersStay(t.log, Block(handlers, last.cmd, last.envelope.value, last.now, last.end), d.envelope.value.uuid);
      }
    } else {
      var e := d.envelope.value;
      if e.uuid in Dedup.Window(t.calls) {
        AcceptedAreAnswered(handlers, front, e.uuid);
      } else {
        BlockAnswers(handlers, t.log, d.cmd, e, d.now, d.end);
      }
    }
  }

  /** A first delivery of a known command within its time to live is never answered Expired: it is
      accepted, and its handler starts. */
  lemma {:induction false} TimelyCommandStarts(handlers: set<string>, ds: seq<Delivery>, d: Delivery, e: Envelope)
    requires d.envelope == Some(e) && d.cmd in handlers && e.uuid !in Dedup.Window(ProcessAll(handlers, ds).calls)
    requires e.ttlSec <= 315_360_000 && d.now <= e.issuedAt + e.ttlSec * 1_000_000_000
    ensures var t, n := ProcessAll(handlers, ds), ProcessAll(handlers, ds + [d]);
            && |n.log| >= |t.log| + 2 && n.log[..|t.log|] == t.log
            && n.log[|t.log|] == Status(d.cmd, e.uuid, Accepted) && n.log[|t.log| + 1] == Status(d.cmd, e.uuid, InProgress)
            && (forall p | p in n.log[|t.log|..] :: !(p.Status? && p.state.Expired?))
            && |n.starts| == |t.starts| + 1 && n.starts[|t.starts|].cmd == d.cmd && n.starts[|t.starts|].envelope == e
  {
    var t, b := ProcessAll(handlers, ds), Block(handlers, d.cmd, e, d.now, d.end);
    assert (t.log + b)[|t.log|..] == b;
  }

  /** And one delivered later is answered Expired, once, and starts nothing. */
  lemma LateCommandExpires(handlers: set<string>, ds: seq<Delivery>, d: Delivery, e: Envelope)
    requires d.envelope == Some(e) && e.uuid !in Dedup.Window(ProcessAll(handlers, ds).calls)
    requires e.ttlSec <= 315_360_000 && d.now > e.issuedAt + e.ttlSec * 1_000_000_000
    ensures var t, n := ProcessAll(handlers, ds), ProcessAll(handlers, ds + [d]);
            n.log == t.log + [Status(d.cmd, e.uuid, Expired)] && n.starts == t.starts
  {
    LivesExactly(e, e.ttlSec);
    ExpiryMonotone(e, e.ttlSec, e.issuedAt + e.ttlSec * 1_000_000_000 + 1, d.now);
  }

  // --- handler starts ---

  /** Every start has its uuid at its place among the accepted ones, in increasing places. */
  ghost predicate Placed(starts: seq<Start>, acc: seq<string>, handlers: set<string>) {
    && (forall i | 0 <= i < |starts| ::
          && starts[i].place < |acc| && acc[starts[i].place] == starts[i].uuid
          && starts[i].envelope.uuid == starts[i].uuid
          && !starts[i].envelope.IsExpiredAt(starts[i].now) && starts[i].cmd in handlers)
    && (forall i, j | 0 <= i < j < |starts| :: starts[i].place < starts[j].place)
  }

  lemma PlacedGrows(starts: seq<Start>, acc: seq<string>, handlers: set<string>, s: Start)
    requires Placed(starts, acc, handlers)
    ensures Placed(starts, acc + [s.uuid], handlers)
    ensures s.place == |acc| && s.envelope.uuid == s.uuid && !s.envelope.IsExpiredAt(s.now) && s.cmd in handlers ==>
              Placed(starts + [s], acc + [s.uuid], handlers)
  {
  }

  lemma PlacedStep(handlers: set<string>, t: Trace, d: Delivery)
    requires Placed(t.starts, Dedup.Accepted(t.calls), handlers)
    ensures var n := Process(handlers, t, d); Placed(n.starts, Dedup.Accepted(n.calls), handlers)
  {
    if d.envelope.Some? {
      var e, acc := d.envelope.value, Dedup.Accepted(t.calls);
      PlacedGrows(t.starts, acc, handlers, Start(d.cmd, e.uuid, e, d.now, |acc|));
    }
  }

  lemma {:induction false} StartsPlaced(handlers: set<string>, ds: seq<Delivery>)
    ensures var t := ProcessAll(handlers, ds); Placed(t.starts, Dedup.Accepted(t.calls), handlers)
  {
    if ds != [] {
      StartsPlaced(handlers, ds[..|ds| - 1]);
      PlacedStep(handlers, ProcessAll(handlers, ds[..|ds| - 1]), ds[|ds| - 1]);
    }
  }

  /** A handler starts only for an unexpired envelope of a known command, and two starts for one
      uuid have at least 256 acceptances of other deliveries between them. */
  lemma StartsAreSpaced(handlers: set<string>, ds: seq<Delivery>, i: nat, j: nat)
    requires i < j < |ProcessAll(handlers, ds).starts|
    ensures var starts := ProcessAll(handlers, ds).starts;
      && !starts[i].envelope.IsExpiredAt(starts[i].now) && starts[i].cmd in handlers
      && (starts[i].uuid == starts[j].uuid ==> starts[j].place - starts[i].place > 256)
  {
    StartsPlaced(handlers, ds);
    var t := ProcessAll(handlers, ds);
    if t.starts[i].uuid == t.starts[j].uuid {
      Dedup.Spacing(t.calls, t.starts[i].place, t.starts[j].place);
    }
  }

  /** A redelivery of what was just delivered publishes nothing and starts nothing, whatever the
      time and whatever the handler would do. */
  lemma RedeliveryIsSilent(handlers: set<string>, ds: seq<Delivery>, d: Delivery, now: int, end: HandlerEnd)
    ensures var t := ProcessAll(handlers, ds + [d]);
      Process(handlers, t, d.(now := now, end := end)).log == t.log
      && Process(handlers, t, d.(now := now, end := end)).starts == t.starts
  {
    assert (ds + [d])[..|ds|] == ds;
    if d.envelope.Some? {
      Dedup.Remembered(ProcessAll(handlers, ds).calls, d.envelope.value.uuid);
    }
  }

  /** The commands that were reported in progress, in order. */
  function InProgressOf(log: seq<Publish>): seq<(string, string)> {
    if log == [] then []
    else
      var front, last := InProgressOf(log[..|log| - 1]), log[|log| - 1];
      if last.Status? && last.state.InProgress? then front + [(last.cmd, last.uuid)] else front
  }

  function Started(starts: seq<Start>): (names: seq<(string, string)>)
    ensures |names| == |starts| && forall i | 0 <= i < |starts| :: names[i] == (starts[i].cmd, starts[i].uuid)
  {
    seq(|starts|, i requires 0 <= i < |starts| => (starts[i].cmd, starts[i].uuid))
  }

  lemma {:induction false} InProgressConcat(log: seq<Publish>, more: seq<Publish>)
    ensures InProgressOf(log + more) == InProgressOf(log) + InProgressOf(more)
    decreases |more|
  {
    if more == [] {
      assert log + more == log;
    } else {
      var front, last := more[..|more| - 1], more[|more| - 1];
      InProgressConcat(log, front);
      assert log + more == log + front + [last] && front + [last] == more;
    }
  }

  function InProgressIn(p: Publish): seq<(string, string)> {
    if p.Status? && p.state.InProgress? then [(p.cmd, p.uuid)] else []
  }

  lemma InProgressOfOne(p: Publish)
    ensures InProgressOf([p]) == InProgressIn(p)
  {
    assert [] + [p] == [p];
  }

  lemma InProgressOfTwo(p: Publish, q: Publish)
    ensures InProgressOf([p, q]) == InProgressIn(p) + InProgressIn(q)
  {
    InProgressOfOne(p);
    assert [p] + [q] == [p, q];
  }

  lemma InProgressOfFour(p: Publish, q: Publish, r: Publish, s: Publish)
    ensures InProgressOf([p, q, r, s]) == InProgressIn(p) + InProgressIn(q) + (InProgressIn(r) + InProgressIn(s))
  {
    InProgressOfTwo(p, q);
    InProgressOfTwo(r, s);
    InProgressConcat([p, q], [r, s]);
    assert [p, q] + [r, s] == [p, q, r, s];
  }

  lemma InProgressOfBlock(handlers: set<string>, cmd: string, e: Envelope, now: int, end: HandlerEnd)
    ensures InProgressOf(Block(handlers, cmd, e, now, end)) ==
              if e.IsExpiredAt(now) || cmd !in handlers then [] else [(cmd, e.uuid)]
  {
    var b := Block(handlers, cmd, e, now, end);
    if |b| == 1 {
      InProgressOfOne(b[0]);
      assert b == [b[0]];
    } else if |b| == 2 {
      InProgressOfTwo(b[0], b[1]);
      assert b == [b[0], b[1]];
    } else {
      InProgressOfFour(b[0], b[1], b[2], b[3]);
      assert b == [b[0], b[1], b[2], b[3]];
    }
  }

  /** Handlers start exactly for what is reported in progress, once each and in that order. */
  lemma {:induction false} StartsAreReported(handlers: set<string>, ds: seq<Delivery>)
    ensures var t := ProcessAll(handlers, ds); InProgressOf(t.log) == Started(t.starts)
  {
    if ds != [] {
      var d := ds[|ds| - 1];
      StartsAreReported(handlers, ds[..|ds| - 1]);
      if d.envelope.Some? {
        var t, e := ProcessAll(handlers, ds[..|ds| - 1]), d.envelope.value;
        InProgressConcat(t.log, Block(handlers, d.cmd, e, d.now, d.end));
        InProgressOfBlock(handlers, d.cmd, e, d.now, d.end);
      }
    }
  }

  // --- the processor ---

  /** What `drain_commands` may receive from the bridge. */
  datatype Event =
    | Message(topic: string, envelope: Option<Envelope>, now: int, end: HandlerEnd)
    | Connected
    | Disconnected

  /** The deliveries among the events: the messages on command topics. */
  function Deliveries(transport: Topics.Transport, events: seq<Event>): seq<Delivery> {
    if events == [] then []
    else
      var front, last := Deliveries(transport, events[..|events| - 1]), events[|events| - 1];
      if !last.Message? then front
      else match Topics.ExtractCommandName(last.topic, transport.CommandTopic("", ""))
        case None => front
        case Some(cmd) => front + [Delivery(cmd, last.envelope, last.now, last.end)]
  }

  /** Every delivery is an event on the topic of its command. */
  lemma {:induction false} DeliveryWasMessage(transport: Topics.Transport, events: seq<Event>, d: Delivery)
    requires d in Deliveries(transport, events)
    ensures Topics.CommandName(d.cmd)
    ensures Message(transport.CommandTopic(d.cmd, "in"), d.envelope, d.now, d.end) in events
  {
    var front, last := events[..|events| - 1], events[|events| - 1];
    assert events == front + [last];
    if d in Deliveries(transport, front) {
      DeliveryWasMessage(transport, front, d);
    } else {
      Topics.ExtractExactly(transport, last.topic, d.cmd);
    }
  }

  /** One wildcard subscription for every connection. */
  function Subscriptions(transport: Topics.Transport, events: seq<Event>): seq<string> {
    if events == [] then []
    else
      var front := Subscriptions(transport, events[..|events| - 1]);
      if events[|events| - 1].Connected? then front + [transport.CommandTopic("+", "in")] else front
  }

  /** The events that announce a connection, by their places. */
  function Connects(events: seq<Event>): set<nat> { set i: nat | i < |events| && events[i].Connected? }

  lemma ConnectsSnoc(events: seq<Event>)
    requires events != []
    ensures var front, n := events[..|events| - 1], |events| - 1;
            |Connects(events)| == |Connects(front)| + if events[n].Connected? then 1 else 0
  {
    var front, n := events[..|events| - 1], |events| - 1;
    assert Connects(events) == Connects(front) + if events[n].Connected? then {n} else {};
  }

  /** A filter that delivers exactly the topics a command is extracted from (section 4.7.1.3 of
      MQTT Version 3.1.1): topic names carry no wildcard, and the level must not be empty. */
  ghost predicate DeliversCommands(transport: Topics.Transport, filter: string) {
    forall topic: string | '+' !in topic && '#' !in topic ::
      Topics.ExtractCommandName(topic, transport.CommandTopic("", "")).Some?
      <==> Topics.Matches(Topics.Levels(filter), Topics.Levels(topic))
           && |Topics.Levels(topic)| == 6 && Topics.Levels(topic)[4] != ""
  }

  lemma {:induction false} SubscriptionCount(transport: Topics.Transport, events: seq<Event>)
    ensures |Subscriptions(transport, events)| == |Connects(events)|
  {
    if events != [] {
      SubscriptionCount(transport, events[..|events| - 1]);
      ConnectsSnoc(events);
    }
  }

  lemma WildcardDelivers(transport: Topics.Transport)
    requires transport.Valid()
    ensures DeliversCommands(transport, transport.CommandTopic("+", "in"))
  {
    forall topic: string | '+' !in topic && '#' !in topic
      ensures Topics.ExtractCommandName(topic, transport.CommandTopic("", "")).Some?
              <==> Topics.Matches(Topics.Levels(transport.CommandTopic("+", "in")), Topics.Levels(topic))
                   && |Topics.Levels(topic)| == 6 && Topics.Levels(topic)[4] != ""
    {
      Topics.ExtractsWhatItSubscribes(transport, topic);
    }
  }

  /** Every subscription of a drain delivers exactly the commands. */
  lemma {:induction false} SubscriptionsDeliver(transport: Topics.Transport, events: seq<Event>)
    requires transport.Valid()
    ensures forall f | f in Subscriptions(transport, events) :: DeliversCommands(transport, f)
  {
    if events != [] {
      SubscriptionsDeliver(transport, events[..|events| - 1]);
      WildcardDelivers(transport);
    }
  }

  class CommandProcessor {
    const transport: Topics.Transport
    const handlers: set<string>
    const dedup: Dedup.DedupQueue<string>
    var log: seq<Publish>
    var subscribed: seq<string>
    ghost var starts: seq<Start>
    ghost var deliveries: seq<Delivery>

    ghost function View(): Trace
      reads this, dedup
    {
      Trace(dedup.calls, log, starts)
    }

    ghost predicate Valid()
      reads this, dedup
    {
      dedup.Valid() && View() == ProcessAll(handlers, deliveries)
    }

    constructor (transport: Topics.Transport, handlers: set<string>)
      ensures Valid() && fresh(dedup) && deliveries == [] && subscribed == []
      ensures this.transport == transport && this.handlers == handlers
    {
      this.transport, this.handlers := transport, handlers;
      dedup := new Dedup.DedupQueue<string>();
      log, subscribed, starts, deliveries := [], [], [], [];
    }

    method PublishStatus(cmd: string, uuid: string, state: CommandState)
      modifies this`log
      ensures log == old(log) + [Status(cmd, uuid, state)]
    {
      log := log + [Status(cmd, uuid, state)];
    }

    method PublishResult(cmd: string, uuid: string, ok: bool)
      modifies this`log
      ensures log == old(log) + [Outcome(cmd, uuid, ok)]
    {
      log := log + [Outcome(cmd, uuid, ok)];
    }

    /** `false` for a uuid that is remembered. */
    method RecordUuid(uuid: string) returns (isNew: bool)
      requires dedup.Valid()
      modifies dedup
      ensures dedup.Valid() && dedup.calls == old(dedup.calls) + [uuid]
      ensures isNew <==> uuid !in Dedup.Window(old(dedup.calls))
    {
      isNew := dedup.Record(uuid);
    }

    method ProcessCommand(cmd: string, payload: Option<Envelope>, now: int, end: HandlerEnd)
      requires Valid()
      modifies this`log, this`starts, this`deliveries, dedup
      ensures Valid()
      ensures deliveries == old(deliveries) + [Delivery(cmd, payload, now, end)]
      ensures View() == Process(handlers, old(View()), Delivery(cmd, payload, now, end))
    {
      ghost var place := |Dedup.Accepted(dedup.calls)|;
      deliveries := deliveries + [Delivery(cmd, payload, now, end)];
      if payload.None? {
        return;
      }
      var isNew := RecordUuid(payload.value.uuid);
      if isNew {
        Execute(cmd, payload.value, now, end, place);
      }
    }

    /** The life of a command that is no duplicate. */
    method Execute(cmd: string, envelope: Envelope, now: int, end: HandlerEnd, ghost place: nat)
      modifies this`log, this`starts
      ensures log == old(log) + Block(handlers, cmd, envelope, now, end)
      ensures starts == if envelope.IsExpiredAt(now) || cmd !in handlers then old(starts)
                        else old(starts) + [Start(cmd, envelope.uuid, envelope, now, place)]
    {
      var uuid := envelope.uuid;
      if envelope.IsExpiredAt(now) {
        PublishStatus(cmd, uuid, Expired);
        return;
      }
      PublishStatus(cmd, uuid, Accepted);
      if cmd !in handlers {
        PublishStatus(cmd, uuid, Rejected);
        return;
      }
      PublishStatus(cmd, uuid, InProgress);
      starts := starts + [Start(cmd, uuid, envelope, now, place)];
      match end {
        case ShutDown =>
        case Succeeded =>
          PublishStatus(cmd, uuid, Completed);
          PublishResult(cmd, uuid, true);
        case Errored =>
          PublishStatus(cmd, uuid, Failed);
          PublishResult(cmd, uuid, false);
      }
    }

    /** Handles every event in order until the channel closes. */
    method DrainCommands(events: seq<Event>)
      requires Valid() && deliveries == [] && subscribed == []
      modifies this, dedup
      ensures Valid() && deliveries == Deliveries(transport, events)
      ensures View() == ProcessAll(handlers, Deliveries(transport, events))
      ensures subscribed == Subscriptions(transport, events) && |subscribed| == |Connects(events)|
      ensures transport.Valid() ==> forall f | f in subscribed :: DeliversCommands(transport, f)
    {
      var prefix := transport.CommandTopic("", "");
      for k := 0 to |events|
        invariant Valid() && deliveries == Deliveries(transport, events[..k])
        invariant subscribed == Subscriptions(transport, events[..k])
      {
        assert events[..k + 1][..k] == events[..k];
        match events[k] {
          case Message(topic, payload, now, end) =>
            var name := Topics.ExtractCommandName(topic, prefix);
            if name.Some? {
              ProcessCommand(name.value, payload, now, end);
            }
          case Connected =>
            subscribed := subscribed + [transport.CommandTopic("+", "in")];
          case Disconnected =>
        }
      }
      assert events[..|events|] == events;
      SubscriptionCount(transport, events);
      if transport.Valid() { SubscriptionsDeliver(transport, events); }
    }
  }
}
