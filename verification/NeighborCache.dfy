/** The LTE polling loop: a neighbour map updated and expired in place, and the shared reading. */
module NeighborCache {
  import opened Wrappers
  import opened Text
  import opened LteParsers
  import FakeModem

  /** The outcome of one AT command, with the clock read after it. */
  datatype Reply = Answered(text: string, now: nat) | Failure

  /** What the loop makes of a reply. */
  datatype Answer =
    | NoAnswer
    | Serving(signal: Option<Signal>)
    | Neighbors(cells: seq<Cell>, now: nat)

  datatype Reading = Reading(imsi: string, signal: Signal, neighbors: map<int, Cell>)

  datatype Config = Config(modem: ModemType, imsi: string, expiry: real)

  /** The local map and the reading shared with the reporters. */
  datatype Cache = Cache(neighbors: map<int, Cell>, shared: Option<Reading>)

  const EMPTY := Cache(map[], None)

  /** Iteration `k` of the loop, counted from 0, runs with counter 2 + k. */
  predicate IsNeighborQuery(modem: ModemType, k: nat) {
    SupportsNeighborQuery(modem) && (2 + k) % 2 != 0
  }

  function Interpret(modem: ModemType, k: nat, reply: Reply): Answer {
    match reply
    case Failure => NoAnswer
    case Answered(text, now) =>
      if IsNeighborQuery(modem, k) then Neighbors(FakeModem.CellsIn(Lines(text)), now)
      else Serving(ParseServingCell(modem, text))
  }

  function InterpretAll(modem: ModemType, replies: seq<Reply>): (answers: seq<Answer>)
    ensures |answers| == |replies|
    ensures forall k | 0 <= k < |replies| :: answers[k] == Interpret(modem, k, replies[k])
  {
    seq(|replies|, k requires 0 <= k < |replies| => Interpret(modem, k, replies[k]))
  }

  function ServingPcid(shared: Option<Reading>): int {
    if shared.Some? then shared.value.signal.pcid else -1
  }

  /** The cells of a response that are not the serving cell, stamped. */
  function Stamped(cells: seq<Cell>, serving: int, now: nat): (seen: seq<Cell>)
    ensures forall c | c in seen :: c.lastSeen == now && c.pcid != serving
  {
    if cells == [] then []
    else
      var front, last := Stamped(cells[..|cells| - 1], serving, now), cells[|cells| - 1];
      if last.pcid == serving then front else front + [last.(lastSeen := now)]
  }

  function Insert(m: map<int, Cell>, cells: seq<Cell>): map<int, Cell> {
    if cells == [] then m
    else Insert(m, cells[..|cells| - 1])[cells[|cells| - 1].pcid := cells[|cells| - 1]]
  }

  function SaturatingSub(a: nat, b: nat): nat { if a < b then 0 else a - b }

  function Expire(m: map<int, Cell>, expiry: real, now: nat): map<int, Cell> {
    map p | p in m && SaturatingSub(now, m[p].lastSeen) as real <= expiry :: m[p]
  }

  function Poll(cfg: Config, c: Cache, answer: Answer): Cache {
    match answer
    case NoAnswer => c
    case Serving(None) => c
    case Serving(Some(signal)) => c.(shared := Some(Reading(cfg.imsi, signal, c.neighbors)))
    case Neighbors(cells, now) =>
      var m := Expire(Insert(c.neighbors, Stamped(cells, ServingPcid(c.shared), now)), cfg.expiry, now);
      Cache(m, if c.shared.Some? then Some(c.shared.value.(neighbors := m)) else None)
  }

  function PollAll(cfg: Config, answers: seq<Answer>): Cache {
    if answers == [] then EMPTY
    else Poll(cfg, PollAll(cfg, answers[..|answers| - 1]), answers[|answers| - 1])
  }

  lemma PollAllSnoc(cfg: Config, answers: seq<Answer>, k: nat)
    requires k < |answers|
    ensures PollAll(cfg, answers[..k + 1]) == Poll(cfg, PollAll(cfg, answers[..k]), answers[k])
  {
    assert answers[..k + 1][..k] == answers[..k];
  }

  // --- the loop ---

  class LteSensor {
    const cfg: Config
    var neighbors: map<int, Cell>
    var atCounter: nat
    var shared: Option<Reading>

    constructor (cfg: Config)
      ensures this.cfg == cfg && neighbors == map[] && atCounter == 1 && shared == None
    {
      this.cfg := cfg;
      neighbors, atCounter, shared := map[], 1, None;
    }

    /** Polls until the replies end, which is when the loop is cancelled. */
    method PollLoop(replies: seq<Reply>)
      requires neighbors == map[] && atCounter == 1 && shared == None
      modifies this
      ensures Cache(neighbors, shared) == PollAll(cfg, InterpretAll(cfg.modem, replies))
      ensures atCounter == 1 + |replies|
    {
      ghost var answers := InterpretAll(cfg.modem, replies);
      for k := 0 to |replies|
        invariant Cache(neighbors, shared) == PollAll(cfg, answers[..k]) && atCounter == 1 + k
      {
        PollAllSnoc(cfg, answers, k);
        atCounter := atCounter + 1;
        match replies[k] {
          case Failure =>
          case Answered(text, now) =>
            if SupportsNeighborQuery(cfg.modem) && atCounter % 2 != 0 {
              NeighborAnswer(text, now);
            } else {
              ServingAnswer(text);
            }
        }
      }
      assert answers[..|replies|] == answers;
    }

    method ServingAnswer(text: string)
      modifies this`shared
      ensures Cache(neighbors, shared) == Poll(cfg, Cache(old(neighbors), old(shared)), Serving(ParseServingCell(cfg.modem, text)))
    {
      var signal := ParseServingCell(cfg.modem, text);
      if signal.Some? {
        shared := Some(Reading(cfg.imsi, signal.value, neighbors));
      }
    }

    method NeighborAnswer(text: string, now: nat)
      modifies this`neighbors, this`shared
      ensures Cache(neighbors, shared) == Poll(cfg, Cache(old(neighbors), old(shared)), Neighbors(FakeModem.CellsIn(Lines(text)), now))
    {
      var serving := ServingPcid(shared);
      var lines := Lines(text);
      for k := 0 to |lines|
        invariant shared == old(shared)
        invariant neighbors == Absorbed(old(neighbors), lines[..k], serving, now)
      {
        var cell := ParseNeighbor(lines[k]);
        AbsorbedAppend(old(neighbors), lines[..k], lines[k], cell, serving, now);
        assert lines[..k + 1] == lines[..k] + [lines[k]];
        if cell.Some? && cell.value.pcid != serving {
          neighbors := neighbors[cell.value.pcid := cell.value.(lastSeen := now)];
        }
      }
      assert lines[..|lines|] == lines;
      neighbors := Expire(neighbors, cfg.expiry, now);
      if shared.Some? {
        shared := Some(shared.value.(neighbors := neighbors));
      }
    }
  }

  /** The map after the lines of a response, before anything expires. */
  function Absorbed(m: map<int, Cell>, lines: seq<string>, serving: int, now: nat): map<int, Cell> {
    Insert(m, Stamped(FakeModem.CellsIn(lines), serving, now))
  }

  /** One more line: nothing, or the cell it parses to unless that is the serving one. */
  function Absorb(m: map<int, Cell>, parsed: Option<Cell>, serving: int, now: nat): map<int, Cell> {
    if parsed.None? || parsed.value.pcid == serving then m else m[parsed.value.pcid := parsed.value.(lastSeen := now)]
  }

  lemma AbsorbedAppend(m: map<int, Cell>, lines: seq<string>, line: string, parsed: Option<Cell>, serving: int, now: nat)
    requires parsed == ParseNeighbor(line)
    ensures Absorbed(m, lines + [line], serving, now) == Absorb(Absorbed(m, lines, serving, now), parsed, serving, now)
  {
    FakeModem.CellsInAppend(lines, line);
    if parsed.Some? {
      var c := parsed.value;
      StampedAppend(FakeModem.CellsIn(lines), c, serving, now);
      InsertAppend(m, Stamped(FakeModem.CellsIn(lines), serving, now), c.(lastSeen := now));
    }
  }

  lemma StampedAppend(cells: seq<Cell>, c: Cell, serving: int, now: nat)
    ensures Stamped(cells + [c], serving, now) ==
              if c.pcid == serving then Stamped(cells, serving, now) else Stamped(cells, serving, now) + [c.(lastSeen := now)]
  {
    assert (cells + [c])[..|cells|] == cells;
  }

  lemma InsertAppend(m: map<int, Cell>, cells: seq<Cell>, c: Cell)
    ensures Insert(m, cells + [c]) == Insert(m, cells)[c.pcid := c]
  {
    assert (cells + [c])[..|cells|] == cells;
  }

  // --- the whole observation history ---

  /** The signal of the last serving answer that parsed: what the loop's past says the serving
      cell is, without looking at the loop's state. */
  function LastServing(answers: seq<Answer>): Option<Signal> {
    if answers == [] then None
    else
      var last := answers[|answers| - 1];
      if last.Serving? && last.signal.Some? then last.signal else LastServing(answers[..|answers| - 1])
  }

  /** Every observation of a cell that was not the serving cell of its time. */
  function Observed(answers: seq<Answer>): seq<Cell> {
    if answers == [] then []
    else
      var front, last := answers[..|answers| - 1], answers[|answers| - 1];
      if !last.Neighbors? then Observed(front)
      else
        Observed(front) + Sighted(front, last)
  }

  /** What one answered neighbour query adds to the history before it. */
  function Sighted(front: seq<Answer>, query: Answer): (seen: seq<Cell>)
    requires query.Neighbors?
    ensures forall c | c in seen :: c.lastSeen == query.now
  {
    var serving := LastServing(front);
    Stamped(query.cells, if serving.Some? then serving.value.pcid else -1, query.now)
  }

  /** The time of the last answered neighbour query, 0 before the first. */
  function QueryTime(answers: seq<Answer>): nat {
    if answers == [] then 0
    else
      var last := answers[|answers| - 1];
      if last.Neighbors? then last.now else QueryTime(answers[..|answers| - 1])
  }

  /** The latest observation of a pcid. */
  function Latest(seen: seq<Cell>, p: int): (c: Option<Cell>)
    ensures c.Some? ==> c.value in seen && c.value.pcid == p
    ensures c.None? ==> forall x | x in seen :: x.pcid != p
  {
    if seen == [] then None
    else
      var last := seen[|seen| - 1];
      assert seen == seen[..|seen| - 1] + [last];
      if last.pcid == p then Some(last) else Latest(seen[..|seen| - 1], p)
  }

  /** The latest clock reading of the queries from the last sighting of a pcid onwards. */
  function Peak(answers: seq<Answer>, p: int): nat {
    if answers == [] then 0
    else
      var front, last := answers[..|answers| - 1], answers[|answers| - 1];
      if !last.Neighbors? then Peak(front, p)
      else if Latest(Sighted(front, last), p).Some? then last.now
      else Max(Peak(front, p), last.now)
  }

  function Max(a: nat, b: nat): nat { if a < b then b else a }

  /**
    * A pcid is in the map exactly when its last sighting was no older than the
    * expiry at every query from then on, and then with that sighting.
    */
  ghost predicate HeldByHistory(m: map<int, Cell>, seen: Option<Cell>, expiry: real, peak: nat, p: int) {
    match seen
    case None => p !in m
    case Some(c) =>
      c.lastSeen <= peak && (p in m <==> (peak - c.lastSeen) as real <= expiry) && (p in m ==> m[p] == c)
  }

  /** `m` holds, for each pcid, its latest observation iff that is no older than the expiry at
      time `t`, and nothing else. */
  ghost predicate IsRecent(m: map<int, Cell>, seen: seq<Cell>, expiry: real, t: nat) {
    forall p :: IsRecentAt(m, Latest(seen, p), expiry, t, p)
  }

  ghost predicate IsRecentAt(m: map<int, Cell>, seen: Option<Cell>, expiry: real, t: nat, p: int) {
    match seen
    case None => p !in m
    case Some(c) => (p in m <==> (t - c.lastSeen) as real <= expiry) && (p in m ==> m[p] == c)
  }

  /** The clock never goes back from one answered neighbour query to the next. */
  ghost predicate ClockMonotone(answers: seq<Answer>) {
    forall i, j | 0 <= i < j < |answers| && answers[i].Neighbors? && answers[j].Neighbors? :: answers[i].now <= answers[j].now
  }

  lemma {:induction false} QueryTimeIsPast(answers: seq<Answer>, now: nat)
    requires forall i | 0 <= i < |answers| && answers[i].Neighbors? :: answers[i].now <= now
    ensures QueryTime(answers) <= now
  {
    if answers != [] && !answers[|answers| - 1].Neighbors? {
      QueryTimeIsPast(answers[..|answers| - 1], now);
    }
  }

  lemma {:induction false} LatestAppend(seen: seq<Cell>, more: seq<Cell>, p: int)
    ensures Latest(seen + more, p) == if Latest(more, p).Some? then Latest(more, p) else Latest(seen, p)
  {
    if more == [] {
      assert seen + more == seen;
    } else {
      LatestAppend(seen, more[..|more| - 1], p);
      assert (seen + more)[..|seen + more| - 1] == seen + more[..|more| - 1];
    }
  }

  lemma {:induction false} InsertLatest(m: map<int, Cell>, more: seq<Cell>, p: int)
    ensures match Latest(more, p)
            case None => (p in Insert(m, more) <==> p in m) && (p in m ==> Insert(m, more)[p] == m[p])
            case Some(c) => p in Insert(m, more) && Insert(m, more)[p] == c
  {
    if more != [] {
      InsertLatest(m, more[..|more| - 1], p);
    }
  }

  /** One answered neighbour query, for one pcid. */
  lemma QueryKeepsHeld(m: map<int, Cell>, seen: Option<Cell>, more: seq<Cell>, expiry: real, peak: nat, now: nat, p: int)
    requires HeldByHistory(m, seen, expiry, peak, p) && expiry >= 0.0
    requires forall c | c in more :: c.lastSeen == now
    ensures var next := Expire(Insert(m, more), expiry, now);
            if Latest(more, p).Some? then HeldByHistory(next, Latest(more, p), expiry, now, p)
            else HeldByHistory(next, seen, expiry, Max(peak, now), p)
  {
    InsertLatest(m, more, p);
  }

  /** The shared reading agrees with the loop: its signal is the last one that parsed, and when
      there is one it carries exactly the local map. */
  predicate SharedAgrees(cfg: Config, c: Cache, serving: Option<Signal>) {
    match c.shared
    case None => serving.None?
    case Some(r) => serving == Some(r.signal) && r.neighbors == c.neighbors && r.imsi == cfg.imsi
  }

  /** At every iteration boundary, whatever the clock did. */
  lemma {:induction false} SharedAgreesAlways(cfg: Config, answers: seq<Answer>)
    ensures SharedAgrees(cfg, PollAll(cfg, answers), LastServing(answers))
  {
    if answers != [] {
      SharedAgreesAlways(cfg, answers[..|answers| - 1]);
    }
  }

  /** The cache is a function of the whole history, whatever the clock did. */
  lemma {:induction false} CacheUnderAnyClock(cfg: Config, answers: seq<Answer>, p: int)
    requires cfg.expiry >= 0.0
    ensures HeldByHistory(PollAll(cfg, answers).neighbors, Latest(Observed(answers), p), cfg.expiry, Peak(answers, p), p)
  {
    if answers != [] {
      var front, last := answers[..|answers| - 1], answers[|answers| - 1];
      CacheUnderAnyClock(cfg, front, p);
      SharedAgreesAlways(cfg, front);
      if last.Neighbors? {
        var c, more := PollAll(cfg, front), Sighted(front, last);
        assert more == Stamped(last.cells, ServingPcid(c.shared), last.now);
        LatestAppend(Observed(front), more, p);
        QueryKeepsHeld(c.neighbors, Latest(Observed(front), p), more, cfg.expiry, Peak(front, p), last.now, p);
      }
    }
  }

  lemma {:induction false} PeakBounds(answers: seq<Answer>, p: int)
    ensures Latest(Observed(answers), p).Some? ==> Peak(answers, p) >= QueryTime(answers)
    ensures ClockMonotone(answers) ==> Peak(answers, p) <= QueryTime(answers)
  {
    if answers != [] {
      var front, last := answers[..|answers| - 1], answers[|answers| - 1];
      PeakBounds(front, p);
      if last.Neighbors? {
        LatestAppend(Observed(front), Sighted(front, last), p);
        if ClockMonotone(answers) {
          assert ClockMonotone(front);
          QueryTimeIsPast(front, last.now);
        }
      } else if ClockMonotone(answers) {
        assert ClockMonotone(front);
      }
    }
  }

  /** Nothing that looks recent now looked too old at some query since it was last seen. */
  ghost predicate NothingLooksYounger(answers: seq<Answer>, expiry: real) {
    forall p :: LooksNoYounger(answers, Latest(Observed(answers), p), expiry, p)
  }

  ghost predicate LooksNoYounger(answers: seq<Answer>, seen: Option<Cell>, expiry: real, p: int) {
    seen.Some? && (QueryTime(answers) - seen.value.lastSeen) as real <= expiry ==>
      (Peak(answers, p) - seen.value.lastSeen) as real <= expiry
  }

  /**
    * The local map is exactly the recent part of everything observed, as of the
    * last answered neighbour query, if and only if the clock has not made an
    * expired sighting look recent again.
    */
  lemma RecentExactly(cfg: Config, answers: seq<Answer>)
    requires cfg.expiry >= 0.0
    ensures IsRecent(PollAll(cfg, answers).neighbors, Observed(answers), cfg.expiry, QueryTime(answers))
            <==> NothingLooksYounger(answers, cfg.expiry)
  {
    var m, seen, t := PollAll(cfg, answers).neighbors, Observed(answers), QueryTime(answers);
    forall p
      ensures IsRecentAt(m, Latest(seen, p), cfg.expiry, t, p) <==> LooksNoYounger(answers, Latest(seen, p), cfg.expiry, p)
    {
      CacheUnderAnyClock(cfg, answers, p);
      PeakBounds(answers, p);
    }
  }

  /** The cache refines the history: with a clock that does not go back, after any answers the
      local map is exactly the recent part of everything observed, as of the last answered
      neighbour query. */
  lemma CacheRefinesHistory(cfg: Config, answers: seq<Answer>)
    requires cfg.expiry >= 0.0 && ClockMonotone(answers)
    ensures IsRecent(PollAll(cfg, answers).neighbors, Observed(answers), cfg.expiry, QueryTime(answers))
  {
    RecentExactly(cfg, answers);
    forall p ensures LooksNoYounger(answers, Latest(Observed(answers), p), cfg.expiry, p) { PeakBounds(answers, p); }
  }

  /** Every key of the map is the pcid of its cell, whatever the clock did. */
  lemma {:induction false} KeysArePcids(cfg: Config, answers: seq<Answer>)
    ensures forall p | p in PollAll(cfg, answers).neighbors :: PollAll(cfg, answers).neighbors[p].pcid == p
  {
    if answers != [] {
      KeysArePcids(cfg, answers[..|answers| - 1]);
      var c, last := PollAll(cfg, answers[..|answers| - 1]), answers[|answers| - 1];
      if last.Neighbors? {
        var more := Stamped(last.cells, ServingPcid(c.shared), last.now);
        forall p | p in Insert(c.neighbors, more) ensures Insert(c.neighbors, more)[p].pcid == p {
          InsertLatest(c.neighbors, more, p);
        }
      }
    }
  }

  /** The refinement needs the clock: a cell seen at 100 and dropped by the query at 200 looks
      recent again to the query at 105, and is not in the map. */
  lemma ClockStepBack(cfg: Config, c: Cell)
    requires cfg.expiry == 10.0 && c.pcid != -1
    ensures var answers := [Neighbors([c], 100), Neighbors([], 200), Neighbors([], 105)];
            !IsRecent(PollAll(cfg, answers).neighbors, Observed(answers), cfg.expiry, QueryTime(answers))
  {
    var answers := [Neighbors([c], 100), Neighbors([], 200), Neighbors([], 105)];
    var seen := c.(lastSeen := 100);
    assert answers[..2] == [Neighbors([c], 100), Neighbors([], 200)] && answers[..2][..1] == [Neighbors([c], 100)];
    assert answers[..2][..1][..0] == [] && [c][..0] == [];
    assert Observed(answers[..2][..1]) == [] + Stamped([c], -1, 100) == [seen];
    assert Observed(answers[..2]) == [seen] + [] && Observed(answers) == [seen] + [];
    assert Observed(answers) == [seen] && Latest([seen], c.pcid) == Some(seen);
    assert Peak(answers[..2][..1], c.pcid) == 100 && Peak(answers[..2], c.pcid) == 200;
    assert !LooksNoYounger(answers, Some(seen), 10.0, c.pcid);
    RecentExactly(cfg, answers);
  }

  /** No other modem is ever asked for neighbours, so none is ever cached. */
  lemma {:induction false} OthersHaveNoNeighbors(cfg: Config, replies: seq<Reply>)
    requires cfg.modem != QuectelEm12
    ensures PollAll(cfg, InterpretAll(cfg.modem, replies)).neighbors == map[]
  {
    NoNeighborAnswers(cfg, InterpretAll(cfg.modem, replies));
  }

  lemma {:induction false} NoNeighborAnswers(cfg: Config, answers: seq<Answer>)
    requires forall k | 0 <= k < |answers| :: !answers[k].Neighbors?
    ensures PollAll(cfg, answers).neighbors == map[]
  {
    if answers != [] {
      NoNeighborAnswers(cfg, answers[..|answers| - 1]);
    }
  }

  /** The command of iteration `k`. */
  function QueryCommand(modem: ModemType, k: nat): string {
    if IsNeighborQuery(modem, k) then "AT+QENG=\"neighbourcell\""
    else if modem.Simcom7600? then "AT+CPSI?"
    else "AT+QENG=\"servingcell\""
  }

  /** What each model is asked: EM12 alternately for the serving cell and its neighbours, the other
      Quectel models only for the serving cell, SIMCOM for its own status. */
  lemma QueriesByModel(modem: ModemType, k: nat)
    ensures modem == Simcom7600 ==> QueryCommand(modem, k) == "AT+CPSI?"
    ensures modem == QuectelEm06E || modem == QuectelEm06GL || (modem == QuectelEm12 && k % 2 == 0) ==>
              QueryCommand(modem, k) == "AT+QENG=\"servingcell\""
    ensures modem == QuectelEm12 && k % 2 == 1 ==> QueryCommand(modem, k) == "AT+QENG=\"neighbourcell\""
  {
    assert IsNeighborQuery(QuectelEm12, k) <==> k % 2 == 1;
  }

  /** Iteration `k` against the simulated modem gets the response with counter value `k + 1`: every
      query uses the counter once, and they go alternately to the serving cell and the neighbours. */
  lemma SimulatedQuery(k: nat)
    ensures FakeModem.UsesCounter(FakeModem.Asks(QueryCommand(QuectelEm12, k)))
    ensures FakeModem.Respond(FakeModem.Asks(QueryCommand(QuectelEm12, k)), k + 1) == SimulatedText(k)
  {
    FakeModem.CommandsAreRecognised();
    assert IsNeighborQuery(QuectelEm12, k) <==> k % 2 == 1;
  }

  /** Reply `k` of a loop driven by the simulated modem: it carries counter value `k + 1`. */
  function SimulatedText(k: nat): string {
    if k % 2 == 1 then FakeModem.SynthNeighbors(FakeModem.Neighbors(k + 1)) else FakeModem.SynthServing(k + 1)
  }

  predicate SimulatedAt(reply: Reply, k: nat) { reply.Answered? && reply.text == SimulatedText(k) }

  /** What a simulated modem prints for each counter value: a serving signal and two cells. */
  datatype Simulator = Simulator(signal: nat -> Signal, one: nat -> Cell, two: nat -> Cell)

  function SimulatedModem(): Simulator {
    Simulator((n: nat) => FakeModem.ServingSignal(n), (n: nat) => FakeModem.Neighbors(n)[0], (n: nat) => FakeModem.Neighbors(n)[1])
  }

  ghost predicate HasFixedPcids(m: Simulator) {
    forall n: nat :: m.signal(n).pcid == 250 && m.one(n).pcid == 100 && m.two(n).pcid == 200
  }

  /** What the parsers make of reply `k`, answered at time `t`. */
  function AnswerAt(m: Simulator, k: nat, t: nat): Answer {
    if k % 2 == 1 then Neighbors([m.one(k + 1), m.two(k + 1)], t) else Serving(Some(m.signal(k + 1)))
  }

  /** The last serving query and the last neighbour query among `k` replies. */
  function LastServingQuery(k: nat): nat
    requires k >= 1
  {
    if k % 2 == 1 then k - 1 else k - 2
  }

  function LastNeighborQuery(k: nat): nat
    requires k >= 2
  {
    if k % 2 == 0 then k - 1 else k - 2
  }

  /** The two cells printed for counter value `n`, as seen at a time. */
  function NeighborMap(m: Simulator, n: nat, now: nat): map<int, Cell> {
    map[100 := m.one(n).(lastSeen := now), 200 := m.two(n).(lastSeen := now)]
  }

  /** What the cache holds after `k` simulated replies, the last neighbour query answered at `now`:
      exactly the cells of that query, and in the shared reading the signal of the last serving
      query with the same cells. */
  predicate SimulatedCache(m: Simulator, imsi: string, c: Cache, k: nat, now: nat) {
    && c.neighbors == (if k >= 2 then NeighborMap(m, LastNeighborQuery(k) + 1, now) else map[])
    && c.shared == if k >= 1 then Some(Reading(imsi, m.signal(LastServingQuery(k) + 1), c.neighbors)) else None
  }

  function Times(replies: seq<Reply>): (ts: seq<nat>)
    ensures |ts| == |replies|
  {
    seq(|replies|, k requires 0 <= k < |replies| => if replies[k].Answered? then replies[k].now else 0)
  }

  /** When the last neighbour query was answered. */
  function QueriedAt(times: seq<nat>): nat { if |times| >= 2 then times[LastNeighborQuery(|times|)] else 0 }

  /** End to end: against the simulated EM12, after any number of replies the cache holds exactly
      what the simulated modem printed last, seen at the time of the last neighbour query. */
  lemma {:induction false} SimulationEndToEnd(cfg: Config, replies: seq<Reply>)
    requires cfg.modem.QuectelEm12? && cfg.expiry >= 0.0
    requires forall k | 0 <= k < |replies| :: SimulatedAt(replies[k], k)
    ensures SimulatedCache(SimulatedModem(), cfg.imsi, PollAll(cfg, InterpretAll(cfg.modem, replies)),
                           |replies|, QueriedAt(Times(replies)))
  {
    var m, answers, times := SimulatedModem(), InterpretAll(cfg.modem, replies), Times(replies);
    forall k: nat | k < |replies| ensures answers[k] == AnswerAt(m, k, times[k]) {
      SimulatedYields(k, replies[k].now);
      assert replies[k] == Answered(SimulatedText(k), replies[k].now);
    }
    SimulationCache(m, cfg, answers, times);
  }

  lemma {:induction false} SimulatedYields(k: nat, now: nat)
    ensures Interpret(QuectelEm12, k, Answered(SimulatedText(k), now)) == AnswerAt(SimulatedModem(), k, now)
  {
    if k % 2 == 1 {
      FakeModem.NeighborRoundTrip(k + 1);
      assert FakeModem.Neighbors(k + 1) == [FakeModem.Neighbors(k + 1)[0], FakeModem.Neighbors(k + 1)[1]];
    } else {
      FakeModem.ServingRoundTrip(k + 1);
    }
  }

  lemma OddTurn(k: nat)
    requires k % 2 == 1
    ensures LastNeighborQuery(k + 1) == k && LastServingQuery(k + 1) == LastServingQuery(k)
  {
  }

  lemma NeighborStep(m: Simulator, cfg: Config, c: Cache, k: nat, before: nat, t: nat)
    requires HasFixedPcids(m) && cfg.expiry >= 0.0 && SimulatedCache(m, cfg.imsi, c, k, before) && k % 2 == 1
    ensures SimulatedCache(m, cfg.imsi, Poll(cfg, c, AnswerAt(m, k, t)), k + 1, t)
  {
    OddTurn(k);
    assert c.neighbors.Keys <= {100, 200};
    AbsorbsTwo(cfg, c, m.one(k + 1), m.two(k + 1), t);
  }

  lemma AbsorbsTwo(cfg: Config, c: Cache, one: Cell, two: Cell, t: nat)
    requires cfg.expiry >= 0.0 && c.neighbors.Keys <= {100, 200} && one.pcid == 100 && two.pcid == 200
    requires c.shared.Some? && c.shared.value.signal.pcid == 250
    ensures var cells := map[100 := one.(lastSeen := t), 200 := two.(lastSeen := t)];
            Poll(cfg, c, Neighbors([one, two], t)) == Cache(cells, Some(c.shared.value.(neighbors := cells)))
  {
    TwoCells(cfg.expiry, c.neighbors, one, two, t);
  }

  lemma ServingStep(m: Simulator, cfg: Config, c: Cache, k: nat, before: nat, t: nat)
    requires SimulatedCache(m, cfg.imsi, c, k, before) && k % 2 == 0
    ensures SimulatedCache(m, cfg.imsi, Poll(cfg, c, AnswerAt(m, k, t)), k + 1, before)
  {
  }

  lemma QueriedSnoc(times: seq<nat>, k: nat)
    requires |times| == k + 1
    ensures QueriedAt(times) == if k % 2 == 1 then times[k] else QueriedAt(times[..k])
  {
  }

  lemma {:induction false} SimulationCache(m: Simulator, cfg: Config, answers: seq<Answer>, times: seq<nat>)
    requires HasFixedPcids(m) && cfg.expiry >= 0.0 && |answers| == |times|
    requires forall k: nat | k < |answers| :: answers[k] == AnswerAt(m, k, times[k])
    ensures SimulatedCache(m, cfg.imsi, PollAll(cfg, answers), |answers|, QueriedAt(times))
  {
    if answers != [] {
      var k := |answers| - 1;
      var c := PollAll(cfg, answers[..k]);
      SimulationCache(m, cfg, answers[..k], times[..k]);
      QueriedSnoc(times, k);
      if k % 2 == 1 {
        NeighborStep(m, cfg, c, k, QueriedAt(times[..k]), times[k]);
      } else {
        ServingStep(m, cfg, c, k, QueriedAt(times[..k]), times[k]);
      }
    }
  }

  lemma TwoCells(expiry: real, m: map<int, Cell>, one: Cell, two: Cell, now: nat)
    requires expiry >= 0.0 && m.Keys <= {100, 200} && one.pcid == 100 && two.pcid == 200
    ensures Expire(Insert(m, Stamped([one, two], 250, now)), expiry, now)
            == map[100 := one.(lastSeen := now), 200 := two.(lastSeen := now)]
  {
    StampedTwo(one, two, 250, now);
    InsertTwo(m, one.(lastSeen := now), two.(lastSeen := now));
  }

  lemma StampedTwo(a: Cell, b: Cell, serving: int, now: nat)
    requires a.pcid != serving && b.pcid != serving
    ensures Stamped([a, b], serving, now) == [a.(lastSeen := now), b.(lastSeen := now)]
  {
    var none: seq<Cell> := [];
    StampedAppend(none, a, serving, now);
    StampedAppend(none + [a], b, serving, now);
    assert [a, b] == none + [a] + [b];
  }

  lemma InsertTwo(m: map<int, Cell>, a: Cell, b: Cell)
    ensures Insert(m, [a, b]) == m[a.pcid := a][b.pcid := b]
  {
    var none: seq<Cell> := [];
    InsertAppend(m, none, a);
    InsertAppend(m, none + [a], b);
    assert [a, b] == none + [a] + [b];
  }
}
