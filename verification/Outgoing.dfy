/** The outgoing MAVLink queue: producers that never wait, a bounded FIFO, and a consumer that
    connects, throws away what an outage left behind, sends, and reconnects on error. */
module Outgoing {
  const CAPACITY := 500

  /** A frame as the queue sees it: its contents are opaque here. */
  datatype Item<+T> = Item(frame: T, number: nat, conn: nat)

  datatype Sent<+T> = Sent(item: Item<T>, conn: nat)

  /** The consumer: not connected; connected and discarding stale frames; connected and pulling
      a batch; connected and sending the rest of a batch; shut down. */
  datatype Link<+T> =
    | Down
    | Discarding
    | Pulling(batch: seq<Item<T>>)
    | Sending(batch: seq<Item<T>>)
    | Stopped

  /** The telemetry reporter inside `send_to_both`.  `free` is the room its capacity check saw;
      `others` counts the frames that other producers have enqueued since then, and `between`
      those of them after its first send; the places are numbers in `accepted`. */
  datatype Reporter<+T> =
    | Ready
    | Checked(gcs: T, bs: T, free: nat, others: nat)
    | HalfSent(bs: T, gcsAt: int, free: nat, others: nat, between: nat)

  /** How one `send_to_both` ended; a place of -1 says the frame was not enqueued. */
  datatype Pair = Pair(free: nat, gcsAt: int, bsAt: int, others: nat, between: nat)

  datatype State<+T> = State(
    accepted: seq<Item<T>>,
    queue: seq<Item<T>>,
    conns: nat,
    link: Link<T>,
    wire: seq<Sent<T>>,
    stale: seq<Item<T>>,
    lost: seq<Item<T>>,
    reporter: Reporter<T>,
    pairs: seq<Pair>)

  datatype Action<+T> =
    | Offer(frame: T)
    | Check(gcs: T, bs: T)
    | SendGcs
    | SendBs
    | Connect
    | Discard
    | Ready
    | Tick
    | Pull
    | Pulled
    | Send(ok: bool)
    | Stop

  predicate Enabled<T>(s: State<T>, a: Action<T>) {
    match a
    case Offer(_) => true
    case Check(_, _) => s.reporter.Ready?
    case SendGcs => s.reporter.Checked?
    case SendBs => s.reporter.HalfSent?
    case Connect => s.link.Down?
    case Discard => s.link.Discarding? && s.queue != []
    case Ready => s.link.Discarding? && s.queue == []
    case Tick => s.link.Sending? && s.link.batch == []
    case Pull => s.link.Pulling? && s.queue != []
    case Pulled => s.link.Pulling? && s.queue == []
    case Send(_) => s.link.Sending? && s.link.batch != []
    case Stop => s.link.Down? || (s.link.Sending? && s.link.batch == [])
  }

  predicate HasRoom<T>(s: State<T>) { |s.queue| < CAPACITY }

  /** `try_send`: the frame is appended when there is room and dropped otherwise. */
  function TrySend<T>(s: State<T>, frame: T): State<T> {
    var item := Item(frame, |s.accepted|, s.conns);
    if HasRoom(s) then s.(accepted := s.accepted + [item], queue := s.queue + [item]) else s
  }

  function Place<T>(s: State<T>): int { if HasRoom(s) then |s.accepted| else -1 }

  function NoteOther<T>(r: Reporter<T>): Reporter<T> {
    match r
    case Ready => r
    case Checked(gcs, bs, free, n) => Checked(gcs, bs, free, n + 1)
    case HalfSent(bs, at, free, n, m) => HalfSent(bs, at, free, n + 1, m + 1)
  }

  function Next<T>(s: State<T>, a: Action<T>): State<T>
    requires Enabled(s, a)
  {
    match a
    case Offer(f) => TrySend(s, f).(reporter := if HasRoom(s) then NoteOther(s.reporter) else s.reporter)
    case Check(gcs, bs) =>
      var free := CAPACITY - |s.queue|;
      if free < 2 then s else s.(reporter := Checked(gcs, bs, free, 0))
    case SendGcs =>
      TrySend(s, s.reporter.gcs).(
        reporter := HalfSent(s.reporter.bs, Place(s), s.reporter.free, s.reporter.others, 0))
    case SendBs =>
      var r := s.reporter;
      TrySend(s, r.bs).(
        reporter := Reporter.Ready, pairs := s.pairs + [Pair(r.free, r.gcsAt, Place(s), r.others, r.between)])
    case Connect => s.(conns := s.conns + 1, link := Discarding)
    case Discard => s.(queue := s.queue[1..], stale := s.stale + [s.queue[0]])
    case Ready => s.(link := Sending([]))
    case Tick => s.(link := Pulling([]))
    case Pull => s.(queue := s.queue[1..], link := Pulling(s.link.batch + [s.queue[0]]))
    case Pulled => s.(link := Sending(s.link.batch))
    case Send(ok) =>
      if ok then s.(link := Sending(s.link.batch[1..]), wire := s.wire + [Sent(s.link.batch[0], s.conns)])
      else s.(link := Down, lost := s.lost + s.link.batch)
    case Stop => s.(link := Stopped)
  }

  function Start<T>(): State<T> { State([], [], 0, Down, [], [], [], Reporter.Ready, []) }

  /** The state after a sequence of actions, and whether each was enabled in its turn. */
  function After<T>(acts: seq<Action<T>>): (bool, State<T>) {
    if acts == [] then (true, Start())
    else
      var (ok, s) := After(acts[..|acts| - 1]);
      if ok && Enabled(s, acts[|acts| - 1]) then (true, Next(s, acts[|acts| - 1])) else (false, s)
  }

  lemma AfterAppend<T>(acts: seq<Action<T>>, a: Action<T>)
    requires After(acts).0 && Enabled(After(acts).1, a)
    ensures After(acts + [a]) == (true, Next(After(acts).1, a))
  {
    assert (acts + [a])[..|acts|] == acts;
  }

  // --- invariants ---

  function Batch<T>(l: Link<T>): seq<Item<T>> {
    if l.Pulling? || l.Sending? then l.batch else []
  }

  function Items<T>(wire: seq<Sent<T>>): (items: seq<Item<T>>)
    ensures |items| == |wire| && forall i | 0 <= i < |wire| :: items[i] == wire[i].item
  {
    seq(|wire|, i requires 0 <= i < |wire| => wire[i].item)
  }

  ghost predicate Numbered<T>(s: State<T>) {
    && (forall i | 0 <= i < |s.accepted| :: s.accepted[i].number == i)
    && |s.queue| <= |s.accepted| && |s.queue| <= CAPACITY
    && (forall i | 0 <= i < |s.queue| :: s.queue[i] == s.accepted[|s.accepted| - |s.queue| + i])
  }

  /** Numbers strictly increase through what was sent and what is about to be sent, and stay
      below those still queued. */
  ghost predicate InOrder<T>(s: State<T>) {
    var out := Items(s.wire) + Batch(s.link);
    && (forall i, j | 0 <= i < j < |out| :: out[i].number < out[j].number)
    && (forall i | 0 <= i < |out| :: out[i].number < |s.accepted| - |s.queue| && out[i] == s.accepted[out[i].number])
  }

  ghost predicate FreshOnly<T>(s: State<T>) {
    && (forall i | 0 <= i < |s.accepted| :: s.accepted[i].conn <= s.conns)
    && (s.link.Pulling? || s.link.Sending? ==> forall x | x in s.queue + s.link.batch :: x.conn == s.conns)
    && (forall x | x in s.wire :: x.item.conn == x.conn)
  }

  ghost predicate Conserved<T>(s: State<T>) {
    multiset(s.accepted) ==
      multiset(Items(s.wire)) + multiset(s.stale) + multiset(s.lost) + multiset(Batch(s.link)) + multiset(s.queue)
  }

  /** What the reporter knows, given how many frames others slipped in. */
  ghost predicate ReporterAgrees<T>(s: State<T>) {
    match s.reporter
    case Ready => true
    case Checked(_, _, free, others) => 2 <= free <= CAPACITY && |s.queue| + free <= CAPACITY + others
    case HalfSent(_, at, free, others, between) =>
      && 2 <= free <= CAPACITY && between <= others && |s.queue| + free <= CAPACITY + others + 1
      && (others - between + 1 <= free ==> at >= 0)
      && -1 <= at && (at >= 0 ==> |s.accepted| == at + 1 + between)
  }

  /** A pair is placed whole unless too many frames slipped in, and with exactly the frames
      between its copies that slipped in between its sends. */
  predicate PairAgrees(p: Pair) {
    && 2 <= p.free <= CAPACITY && p.between <= p.others && -1 <= p.gcsAt && -1 <= p.bsAt
    && (p.others + 2 <= p.free ==> Whole(p))
    && (p.others + 1 <= p.free ==> p.gcsAt >= 0)
    && (Whole(p) ==> p.bsAt == p.gcsAt + 1 + p.between)
  }

  predicate Whole(p: Pair) { p.gcsAt >= 0 && p.bsAt >= 0 }

  ghost predicate PairsWhole<T>(s: State<T>) {
    ReporterAgrees(s) && forall p | p in s.pairs :: PairAgrees(p)
  }

  ghost predicate Inv<T>(s: State<T>) {
    Numbered(s) && InOrder(s) && FreshOnly(s) && Conserved(s) && PairsWhole(s)
  }

  lemma DequeueNumbers<T>(s: State<T>, t: State<T>)
    requires Numbered(s) && s.queue != [] && t.accepted == s.accepted && t.queue == s.queue[1..]
    ensures Numbered(t)
  {
  }

  lemma NumberedKept<T>(s: State<T>, a: Action<T>)
    requires Numbered(s) && Enabled(s, a)
    ensures Numbered(Next(s, a))
  {
    match a
    case Discard => DequeueNumbers(s, Next(s, a));
    case Pull => DequeueNumbers(s, Next(s, a));
    case _ =>
  }

  lemma PairsKept<T>(s: State<T>, a: Action<T>)
    requires Numbered(s) && PairsWhole(s) && Enabled(s, a)
    ensures PairsWhole(Next(s, a))
  {
  }

  lemma FreshKept<T>(s: State<T>, a: Action<T>)
    requires FreshOnly(s) && Numbered(s) && Enabled(s, a)
    ensures FreshOnly(Next(s, a))
  {
  }

  lemma PullKeepsOrder<T>(s: State<T>)
    requires Numbered(s) && InOrder(s) && Enabled(s, Pull)
    ensures InOrder(Next(s, Pull))
  {
    var t := Next(s, Pull);
    assert Items(t.wire) + Batch(t.link) == (Items(s.wire) + Batch(s.link)) + [s.queue[0]];
  }

  lemma SendKeepsOrder<T>(s: State<T>, ok: bool)
    requires Numbered(s) && InOrder(s) && Enabled(s, Send(ok))
    ensures InOrder(Next(s, Send(ok)))
  {
    var t := Next(s, Send(ok));
    var out := Items(s.wire) + Batch(s.link);
    assert Items(t.wire) + Batch(t.link) == if ok then out else out[..|s.wire|];
  }

  lemma OrderKept<T>(s: State<T>, a: Action<T>)
    requires Numbered(s) && InOrder(s) && Enabled(s, a)
    ensures InOrder(Next(s, a))
  {
    match a
    case Pull => PullKeepsOrder(s);
    case Send(ok) => SendKeepsOrder(s, ok);
    case _ => assert Items(Next(s, a).wire) + Batch(Next(s, a).link) == Items(s.wire) + Batch(s.link);
  }

  lemma TrySendConserves<T>(s: State<T>, frame: T)
    requires Conserved(s)
    ensures Conserved(TrySend(s, frame))
  {
  }

  lemma HeadAndTail<T>(s: seq<T>)
    requires s != []
    ensures multiset(s) == multiset{s[0]} + multiset(s[1..])
  {
    assert s == [s[0]] + s[1..];
  }

  lemma SendConserves<T>(s: State<T>, ok: bool)
    requires Conserved(s) && Enabled(s, Send(ok))
    ensures Conserved(Next(s, Send(ok)))
  {
    HeadAndTail(s.link.batch);
    if ok {
      assert Items(Next(s, Send(ok)).wire) == Items(s.wire) + [s.link.batch[0]];
    }
  }

  lemma DequeueConserves<T>(s: State<T>, a: Action<T>)
    requires Conserved(s) && Enabled(s, a) && (a.Discard? || a.Pull?)
    ensures Conserved(Next(s, a))
  {
    HeadAndTail(s.queue);
  }

  lemma ConservedKept<T>(s: State<T>, a: Action<T>)
    requires Conserved(s) && Enabled(s, a)
    ensures Conserved(Next(s, a))
  {
    match a
    case Offer(f) => TrySendConserves(s, f);
    case SendGcs => TrySendConserves(s, s.reporter.gcs);
    case SendBs => TrySendConserves(s, s.reporter.bs);
    case Discard => DequeueConserves(s, a);
    case Pull => DequeueConserves(s, a);
    case Send(ok) => SendConserves(s, ok);
    case _ =>
  }

  lemma {:induction false} InvAfter<T>(acts: seq<Action<T>>)
    requires After(acts).0
    ensures Inv(After(acts).1)
  {
    if acts != [] {
      var front, a := acts[..|acts| - 1], acts[|acts| - 1];
      InvAfter(front);
      var s := After(front).1;
      NumberedKept(s, a);
      OrderKept(s, a);
      FreshKept(s, a);
      ConservedKept(s, a);
      PairsKept(s, a);
    }
  }

  // --- what holds of every interleaving ---

  /** At most 500 frames are queued, and every accepted frame is, exactly once, sent, discarded
      as stale, lost to a send error, in the current batch, or queued. */
  lemma {:induction false} QueueConservation<T>(acts: seq<Action<T>>)
    requires After(acts).0
    ensures var s := After(acts).1;
      && |s.queue| <= 500 && Conserved(s)
      && |s.accepted| == |s.wire| + |s.stale| + |s.lost| + |Batch(s.link)| + |s.queue|
  {
    InvAfter(acts);
    var s := After(acts).1;
    assert |multiset(s.accepted)| == |s.accepted|;
    assert |multiset(Items(s.wire))| == |s.wire|;
  }

  /** The wire carries a subsequence of the enqueue order, and no frame enqueued before a
      connection was established is ever sent on that connection. */
  lemma WireOrderAndFreshness<T>(acts: seq<Action<T>>)
    requires After(acts).0
    ensures var s := After(acts).1;
      && (forall i, j | 0 <= i < j < |s.wire| :: s.wire[i].item.number < s.wire[j].item.number)
      && (forall x | x in s.wire :: x.item.number < |s.accepted| && x.item == s.accepted[x.item.number] && x.item.conn == x.conn)
  {
    InvAfter(acts);
    var s := After(acts).1;
    var out := Items(s.wire) + Batch(s.link);
    forall i, j | 0 <= i < j < |s.wire| ensures s.wire[i].item.number < s.wire[j].item.number {
      assert out[i] == s.wire[i].item && out[j] == s.wire[j].item;
    }
    forall x | x in s.wire ensures x.item.number < |s.accepted| && x.item == s.accepted[x.item.number] {
      var i :| 0 <= i < |s.wire| && s.wire[i] == x;
      assert out[i] == x.item;
    }
  }

  /** Telemetry pairs in every run, by the room `free` that the capacity check saw: both copies
      are enqueued as long as at most `free - 2` frames of others slip in, GCS first, with
      exactly those frames in between that slipped in between the two sends; consumer steps
      never break a pair. */
  lemma PairsStayWhole<T>(acts: seq<Action<T>>, p: Pair)
    requires After(acts).0 && p in After(acts).1.pairs
    ensures p.others + 2 <= p.free ==> Whole(p)
    ensures p.others + 1 <= p.free ==> p.gcsAt >= 0
    ensures Whole(p) ==> p.bsAt == p.gcsAt + 1 + p.between
    ensures p.bsAt == p.gcsAt + 1 && p.gcsAt >= 0 <==> Whole(p) && p.between == 0
  {
    InvAfter(acts);
  }

  lemma Then<T>(acts: seq<Action<T>>, a: Action<T>) returns (more: seq<Action<T>>)
    requires After(acts).0 && Enabled(After(acts).1, a)
    ensures After(more) == (true, Next(After(acts).1, a))
  {
    AfterAppend(acts, a);
    more := acts + [a];
  }

  /** Frames of other producers, as long as there is room. */
  lemma {:induction false} OfferMany<T>(acts: seq<Action<T>>, n: nat, frame: T) returns (more: seq<Action<T>>)
    requires After(acts).0 && |After(acts).1.queue| + n <= CAPACITY
    ensures After(more).0
    ensures var s, t := After(acts).1, After(more).1;
            && |t.queue| == |s.queue| + n && |t.accepted| == |s.accepted| + n
            && t.link == s.link && t.pairs == s.pairs && t.reporter == NoteMany(s.reporter, n)
  {
    if n == 0 {
      more := acts;
    } else {
      more := OfferMany(acts, n - 1, frame);
      more := Then(more, Offer(frame));
    }
  }

  function NoteMany<T>(r: Reporter<T>, n: nat): Reporter<T> { if n == 0 then r else NoteOther(NoteMany(r, n - 1)) }

  lemma {:induction false} NotedWhileChecked<T>(gcs: T, bs: T, free: nat, others: nat, n: nat)
    ensures NoteMany(Checked(gcs, bs, free, others), n) == Checked(gcs, bs, free, others + n)
  {
    if n > 0 {
      NotedWhileChecked(gcs, bs, free, others, n - 1);
    }
  }

  /** The consumer discards one frame and another producer takes its place, again and again. */
  lemma {:induction false} Replace<T>(acts: seq<Action<T>>, n: nat, frame: T) returns (more: seq<Action<T>>)
    requires After(acts).0 && After(acts).1.link.Discarding? && |After(acts).1.queue| == CAPACITY - 1
    requires After(acts).1.reporter.Checked?
    ensures After(more).0
    ensures var s, t := After(acts).1, After(more).1;
            && t.link.Discarding? && |t.queue| == |s.queue| && t.pairs == s.pairs
            && t.reporter == Checked(s.reporter.gcs, s.reporter.bs, s.reporter.free, s.reporter.others + n)
  {
    if n == 0 {
      more := acts;
    } else {
      more := Replace(acts, n - 1, frame);
      more := Then(more, Discard);
      more := Then(more, Offer(frame));
    }
  }

  /** A run up to a capacity check that sees room for `free` frames. */
  lemma UpToCheck<T>(free: nat, other: T, gcs: T, bs: T) returns (acts: seq<Action<T>>)
    requires 2 <= free <= CAPACITY
    ensures After(acts).0
    ensures var s := After(acts).1;
            && s.link.Discarding? && |s.queue| == CAPACITY - free && s.pairs == []
            && s.reporter == Checked(gcs, bs, free, 0)
  {
    acts := Then([], Connect);
    acts := OfferMany(acts, CAPACITY - free, other);
    NotedWhileReady<T>(CAPACITY - free);
    acts := Then(acts, Check(gcs, bs));
  }

  lemma {:induction false} NotedWhileReady<T>(n: nat)
    ensures NoteMany<T>(Reporter.Ready, n) == Reporter.Ready
  {
    if n > 0 {
      NotedWhileReady<T>(n - 1);
    }
  }

  /** The bound is exact: whatever room was seen, any larger number of frames of others can
      leave the GCS copy queued without its partner. */
  lemma OthersSplitAPair<T>(free: nat, others: nat, other: T, gcs: T, bs: T) returns (acts: seq<Action<T>>, p: Pair)
    requires 2 <= free <= CAPACITY && free < others + 2
    ensures After(acts).0 && After(acts).1.pairs == [p]
    ensures p.free == free && p.others == others && p.gcsAt >= 0 && p.bsAt == -1
  {
    acts := UpToCheck(free, other, gcs, bs);
    acts := OfferMany(acts, free - 1, other);
    NotedWhileChecked(gcs, bs, free, 0, free - 1);
    acts := Replace(acts, others - (free - 1), other);
    acts, p := LastSlot(acts);
  }

  lemma LastSlot<T>(acts: seq<Action<T>>) returns (more: seq<Action<T>>, p: Pair)
    requires After(acts).0
    requires var s := After(acts).1; |s.queue| == CAPACITY - 1 && s.reporter.Checked? && s.pairs == []
    ensures After(more).0 && After(more).1.pairs == [p]
    ensures var r := After(acts).1.reporter; p.free == r.free && p.others == r.others && p.gcsAt >= 0 && p.bsAt == -1
  {
    more := Then(acts, SendGcs);
    more := Then(more, SendBs);
    p := After(more).1.pairs[0];
  }

  /** In every run, pairs that saw this much room and this many frames of others are whole. */
  ghost predicate AlwaysWhole<T(!new)>(free: nat, others: nat) {
    forall acts: seq<Action<T>>, p | After(acts).0 && p in After(acts).1.pairs && p.free == free && p.others == others :: Whole(p)
  }

  /** A pair is whole in every run for exactly the numbers that fit into the room it saw. */
  lemma WholeExactly<T(!new)>(free: nat, others: nat, frame: T)
    requires 2 <= free <= 500
    ensures AlwaysWhole<T>(free, others) <==> others + 2 <= free
  {
    if others + 2 <= free {
      forall acts: seq<Action<T>>, p | After(acts).0 && p in After(acts).1.pairs && p.free == free && p.others == others
        ensures Whole(p)
      {
        PairsStayWhole(acts, p);
      }
    } else {
      var acts, p := OthersSplitAPair(free, others, frame, frame, frame);
      assert p in After(acts).1.pairs;
    }
  }

  /** The smallest case: room for exactly two, and one frame from another producer. */
  lemma OneOfferSplitsAPair<T>(other: T, gcs: T, bs: T) returns (acts: seq<Action<T>>, p: Pair)
    ensures After(acts).0 && After(acts).1.pairs == [p]
    ensures p.free == 2 && p.others == 1 && p.gcsAt >= 0 && p.bsAt == -1
  {
    acts, p := OthersSplitAPair(2, 1, other, gcs, bs);
  }

  // --- the code's loops ---

  function Frames<T>(items: seq<Item<T>>): (frames: seq<T>)
    ensures |frames| == |items| && forall i | 0 <= i < |items| :: frames[i] == items[i].frame
  {
    seq(|items|, i requires 0 <= i < |items| => items[i].frame)
  }

  lemma SplitAt<T>(all: seq<T>, k: nat)
    requires k < |all|
    ensures all[k..] != [] && all[k..][0] == all[k] && all[k..][1..] == all[k + 1..]
    ensures all[..k + 1] == all[..k] + [all[k]]
  {
  }

  function OnWire<T>(items: seq<Item<T>>, conn: nat): (sent: seq<Sent<T>>)
    ensures |sent| == |items| && forall i | 0 <= i < |items| :: sent[i] == Sent(items[i], conn)
  {
    seq(|items|, i requires 0 <= i < |items| => Sent(items[i], conn))
  }

  lemma OnWireSnoc<T>(items: seq<Item<T>>, k: nat, conn: nat)
    requires k < |items|
    ensures OnWire(items[..k + 1], conn) == OnWire(items[..k], conn) + [Sent(items[k], conn)]
  {
  }

  /** The frames the wire has carried. */
  function Carried<T>(wire: seq<Sent<T>>): seq<T> {
    if wire == [] then [] else Carried(wire[..|wire| - 1]) + [wire[|wire| - 1].item.frame]
  }

  lemma {:induction false} CarriedConcat<T>(wire: seq<Sent<T>>, more: seq<Sent<T>>)
    ensures Carried(wire + more) == Carried(wire) + Carried(more)
  {
    if more == [] {
      assert wire + more == wire;
    } else {
      CarriedConcat(wire, more[..|more| - 1]);
      assert (wire + more)[..|wire + more| - 1] == wire + more[..|more| - 1];
    }
  }

  lemma {:induction false} CarriedOnWire<T>(batch: seq<Item<T>>, conn: nat)
    ensures Carried(OnWire(batch, conn)) == Frames(batch)
  {
    if batch != [] {
      var front := batch[..|batch| - 1];
      CarriedOnWire(front, conn);
      assert OnWire(batch, conn)[..|batch| - 1] == OnWire(front, conn);
      assert Frames(batch) == Frames(front) + [batch[|batch| - 1].frame];
    }
  }

  /** A whole batch on the wire adds its frames to what the wire carried. */
  lemma CarriedBatch<T>(before: seq<Sent<T>>, batch: seq<Item<T>>, conn: nat)
    ensures Carried(before + OnWire(batch, conn)) == Carried(before) + Frames(batch)
  {
    CarriedConcat(before, OnWire(batch, conn));
    CarriedOnWire(batch, conn);
  }

  /** What arrives before a tick, and which sends of its batch succeed. */
  datatype TickInput<!T> = TickInput(arrivals: seq<T>, ok: nat -> bool)

  /** What fits into an empty queue. */
  function FirstFew<T>(frames: seq<T>): seq<T> {
    if |frames| <= CAPACITY then frames else frames[..CAPACITY]
  }

  predicate SendFails<T>(t: TickInput<T>) {
    exists i | 0 <= i < |FirstFew(t.arrivals)| :: !t.ok(i)
  }

  /** What the first ticks deliver when none of their sends fails. */
  function Delivered<T>(ticks: seq<TickInput<T>>, n: nat): seq<T>
    requires n <= |ticks|
  {
    if n == 0 then [] else Delivered(ticks, n - 1) + FirstFew(ticks[n - 1].arrivals)
  }

  /** No send of the first ticks fails. */
  predicate AllPass<T>(ticks: seq<TickInput<T>>, n: nat)
    requires n <= |ticks|
  {
    n == 0 || (AllPass(ticks, n - 1) && !SendFails(ticks[n - 1]))
  }

  /** One attempt to connect. */
  datatype Attempt<!T> = Refused | Opens(ticks: seq<TickInput<T>>)

  predicate Lasts<T>(a: Attempt<T>) { a.Opens? && AllPass(a.ticks, |a.ticks|) }

  predicate NoneLasts<T>(attempts: seq<Attempt<T>>, n: nat)
    requires n <= |attempts|
  {
    n == 0 || (NoneLasts(attempts, n - 1) && !Lasts(attempts[n - 1]))
  }

  function Opened<T>(attempts: seq<Attempt<T>>, n: nat): nat
    requires n <= |attempts|
  {
    if n == 0 then 0 else Opened(attempts, n - 1) + if attempts[n - 1].Opens? then 1 else 0
  }

  lemma {:induction false} LastingAttempt<T>(attempts: seq<Attempt<T>>, k: nat, n: nat)
    requires k < n <= |attempts| && Lasts(attempts[k])
    ensures !NoneLasts(attempts, n)
  {
    if k < n - 1 {
      LastingAttempt(attempts, k, n - 1);
    }
  }

  lemma {:induction false} FailedTick<T>(ticks: seq<TickInput<T>>, k: nat, n: nat)
    requires k < n <= |ticks| && SendFails(ticks[k])
    ensures !AllPass(ticks, n)
  {
    if k < n - 1 {
      FailedTick(ticks, k, n - 1);
    }
  }

  /** The queue with its consumer and the reporter as the code runs them between two steps of
      anybody else; each method extends the run it belongs to. */
  class DroneComponent<T> {
    var accepted: seq<Item<T>>
    var queue: seq<Item<T>>
    var conns: nat
    var link: Link<T>
    var wire: seq<Sent<T>>
    var stale: seq<Item<T>>
    var lost: seq<Item<T>>
    var reporter: Reporter<T>
    var pairs: seq<Pair>
    ghost var acts: seq<Action<T>>

    ghost function View(): State<T>
      reads this
    {
      State(accepted, queue, conns, link, wire, stale, lost, reporter, pairs)
    }

    ghost predicate Valid()
      reads this
    {
      After(acts) == (true, View())
    }

    constructor ()
      ensures Valid() && View() == Start()
    {
      accepted, queue, conns, link := [], [], 0, Down;
      wire, stale, lost, reporter, pairs, acts := [], [], [], Reporter.Ready, [], [];
    }

    ghost method Took(a: Action<T>)
      requires After(acts).0 && Enabled(After(acts).1, a) && Next(After(acts).1, a) == View()
      modifies this`acts
      ensures Valid() && old(acts) <= acts
    {
      AfterAppend(acts, a);
      acts := acts + [a];
    }

    method Enqueue(frame: T) returns (ok: bool)
      requires |queue| <= CAPACITY
      modifies this`accepted, this`queue
      ensures ok <==> |old(queue)| < CAPACITY
      ensures View() == TrySend(old(View()), frame)
      ensures Frames(queue) == if ok then Frames(old(queue)) + [frame] else Frames(old(queue))
    {
      ok := |queue| < CAPACITY;
      if ok {
        var item := Item(frame, |accepted|, conns);
        accepted, queue := accepted + [item], queue + [item];
      }
    }

    /** Both copies or neither, when nobody else runs in between. */
    method SendToBoth(gcs: T, bs: T)
      requires Valid() && reporter.Ready?
      modifies this`accepted, this`queue, this`reporter, this`pairs, this`acts
      ensures Valid() && old(acts) <= acts && reporter.Ready?
      ensures Frames(queue) == if CAPACITY - |old(queue)| < 2 then Frames(old(queue)) else Frames(old(queue)) + [gcs, bs]
    {
      if CAPACITY - |queue| < 2 {
        Took(Check(gcs, bs));
        return;
      }
      reporter := Checked(gcs, bs, CAPACITY - |queue|, 0);
      Took(Check(gcs, bs));
      SendFirst();
      SendSecond();
    }

    method SendFirst()
      requires Valid() && reporter.Checked? && reporter.others == 0 && |queue| + 2 <= CAPACITY
      modifies this`accepted, this`queue, this`reporter, this`acts
      ensures Valid() && old(acts) <= acts && |queue| < CAPACITY
      ensures Frames(queue) == Frames(old(queue)) + [old(reporter.gcs)]
      ensures reporter == HalfSent(old(reporter.bs), |old(accepted)|, old(reporter.free), 0, 0)
    {
      var was, gcsAt := reporter, |accepted|;
      var gcsIn := Enqueue(was.gcs);
      reporter := HalfSent(was.bs, gcsAt, was.free, 0, 0);
      Took(SendGcs);
    }

    method SendSecond()
      requires Valid() && reporter.HalfSent? && |queue| < CAPACITY
      modifies this`accepted, this`queue, this`reporter, this`pairs, this`acts
      ensures Valid() && old(acts) <= acts && reporter.Ready?
      ensures Frames(queue) == Frames(old(queue)) + [old(reporter.bs)]
    {
      var was, bsAt := reporter, |accepted|;
      var bsIn := Enqueue(was.bs);
      reporter, pairs := Reporter.Ready, pairs + [Pair(was.free, was.gcsAt, bsAt, was.others, was.between)];
      Took(SendBs);
    }

    /** Throws away everything queued before the connection. */
    method DiscardStale()
      requires Valid() && link.Discarding?
      modifies this`queue, this`stale, this`link, this`acts
      ensures Valid() && old(acts) <= acts
      ensures queue == [] && stale == old(stale) + old(queue) && link == Sending([])
    {
      ghost var all, k := queue, 0;
      while queue != []
        invariant Valid() && old(acts) <= acts && link.Discarding?
        invariant k <= |all| && stale == old(stale) + all[..k] && queue == all[k..]
        decreases |queue|
      {
        SplitAt(all, k);
        DiscardOne();
        k := k + 1;
      }
      link := Sending([]);
      Took(Action.Ready);
    }

    method DiscardOne()
      requires Valid() && link.Discarding? && queue != []
      modifies this`queue, this`stale, this`acts
      ensures Valid() && old(acts) <= acts && queue == old(queue)[1..] && stale == old(stale) + [old(queue)[0]]
    {
      queue, stale := queue[1..], stale + [queue[0]];
      Took(Discard);
    }

    /** Pulls every queued frame, in order. */
    method DrainQueue() returns (messages: seq<Item<T>>)
      requires Valid() && link == Sending([])
      modifies this`queue, this`link, this`acts
      ensures Valid() && old(acts) <= acts
      ensures queue == [] && messages == old(queue) && link == Sending(messages)
    {
      link := Pulling([]);
      Took(Tick);
      messages := PullAll();
    }

    method PullAll() returns (messages: seq<Item<T>>)
      requires Valid() && link == Pulling([])
      modifies this`queue, this`link, this`acts
      ensures Valid() && old(acts) <= acts
      ensures queue == [] && messages == old(queue) && link == Sending(messages)
    {
      messages := [];
      ghost var all, k := queue, 0;
      while queue != []
        invariant Valid() && old(acts) <= acts && link == Pulling(messages)
        invariant k <= |all| && messages == all[..k] && queue == all[k..]
        decreases |queue|
      {
        SplitAt(all, k);
        messages := messages + [queue[0]];
        PullOne();
        k := k + 1;
      }
      link := Sending(messages);
      Took(Pulled);
    }

    method PullOne()
      requires Valid() && link.Pulling? && queue != []
      modifies this`queue, this`link, this`acts
      ensures Valid() && old(acts) <= acts && queue == old(queue)[1..]
      ensures link == Pulling(old(link.batch) + [old(queue)[0]])
    {
      queue, link := queue[1..], Pulling(link.batch + [queue[0]]);
      Took(Pull);
    }

    /** Sends a batch until it ends or a send fails; the rest of a failed batch is lost. */
    method SendBatch(messages: seq<Item<T>>, ok: nat -> bool) returns (sent: nat)
      requires Valid() && link == Sending(messages)
      modifies this`wire, this`lost, this`link, this`acts
      ensures Valid() && old(acts) <= acts
      ensures sent <= |messages| && (forall k | 0 <= k < sent :: ok(k)) && (sent < |messages| ==> !ok(sent))
      ensures link == if sent < |messages| then Down else Sending([])
      ensures wire == old(wire) + OnWire(messages[..sent], conns) && lost == old(lost) + messages[sent..]
    {
      sent := 0;
      while sent < |messages|
        invariant Valid() && old(acts) <= acts && sent <= |messages| && link == Sending(messages[sent..])
        invariant wire == old(wire) + OnWire(messages[..sent], conns) && lost == old(lost)
        invariant forall k | 0 <= k < sent :: ok(k)
      {
        SplitAt(messages, sent);
        SendOne(ok(sent));
        if !ok(sent) {
          return;
        }
        OnWireSnoc(messages, sent, conns);
        sent := sent + 1;
      }
    }

    method SendOne(ok: bool)
      requires Valid() && link.Sending? && link.batch != []
      modifies this`wire, this`lost, this`link, this`acts
      ensures Valid() && old(acts) <= acts
      ensures link == if ok then Sending(old(link.batch)[1..]) else Down
      ensures wire == if ok then old(wire) + [Sent(old(link.batch)[0], conns)] else old(wire)
      ensures lost == if ok then old(lost) else old(lost) + old(link.batch)
    {
      if ok {
        wire, link := wire + [Sent(link.batch[0], conns)], Sending(link.batch[1..]);
      } else {
        lost, link := lost + link.batch, Down;
      }
      Took(Send(ok));
    }

    /** What other tasks enqueue before a tick. */
    method Arrive(frames: seq<T>)
      requires Valid() && reporter.Ready? && queue == []
      modifies this`accepted, this`queue, this`acts
      ensures Valid() && old(acts) <= acts
      ensures Frames(queue) == FirstFew(frames)
    {
      for k := 0 to |frames|
        invariant Valid() && old(acts) <= acts && Frames(queue) == FirstFew(frames[..k])
      {
        assert frames[..k + 1] == frames[..k] + [frames[k]];
        var ok := Enqueue(frames[k]);
        Took(Offer(frames[k]));
      }
      assert frames[..|frames|] == frames;
    }

    /** One tick of the send loop, with what arrives before it. */
    method OneTick(input: TickInput<T>) returns (disconnected: bool)
      requires Valid() && link == Sending([]) && reporter.Ready? && queue == []
      modifies this`accepted, this`queue, this`link, this`wire, this`lost, this`acts
      ensures Valid() && old(acts) <= acts && queue == []
      ensures disconnected <==> SendFails(input)
      ensures link == if disconnected then Down else Sending([])
      ensures !disconnected ==> lost == old(lost) && Carried(wire) == Carried(old(wire)) + FirstFew(input.arrivals)
    {
      Arrive(input.arrivals);
      var messages := DrainQueue();
      var sent := SendBatch(messages, input.ok);
      disconnected := sent < |messages|;
      if !disconnected {
        assert messages[..sent] == messages && messages[sent..] == [];
        CarriedBatch(old(wire), messages, conns);
      }
    }

    /** One connection: discard what is stale, then drain and send on every tick until a send
        fails or the ticks end, which is a shutdown request.  `done` ticks went through. */
    method Session(ticks: seq<TickInput<T>>) returns (done: nat)
      requires Valid() && link.Down? && reporter.Ready?
      modifies this`accepted, this`queue, this`conns, this`link, this`wire, this`stale, this`lost, this`acts
      ensures Valid() && old(acts) <= acts && conns == old(conns) + 1 && queue == []
      ensures done <= |ticks| && link == if done < |ticks| then Down else Stopped
      ensures AllPass(ticks, done)
      ensures done < |ticks| ==> SendFails(ticks[done])
      ensures stale == old(stale) + old(queue)
      ensures done == |ticks| ==> lost == old(lost) && Carried(wire) == Carried(old(wire)) + Delivered(ticks, |ticks|)
    {
      Open();
      done := TickLoop(ticks);
      if done == |ticks| {
        link := Stopped;
        Took(Stop);
      }
    }

    method Open()
      requires Valid() && link.Down?
      modifies this`queue, this`conns, this`link, this`stale, this`acts
      ensures Valid() && old(acts) <= acts && conns == old(conns) + 1 && queue == []
      ensures stale == old(stale) + old(queue) && link == Sending([])
    {
      conns, link := conns + 1, Discarding;
      Took(Action.Connect);
      DiscardStale();
    }

    method NextTick(ticks: seq<TickInput<T>>, k: nat, ghost base: seq<T>) returns (disconnected: bool)
      requires Valid() && link == Sending([]) && reporter.Ready? && queue == [] && k < |ticks|
      requires Carried(wire) == base + Delivered(ticks, k) && AllPass(ticks, k)
      modifies this`accepted, this`queue, this`link, this`wire, this`lost, this`acts
      ensures Valid() && old(acts) <= acts && queue == []
      ensures if disconnected then link == Down && SendFails(ticks[k])
              else && link == Sending([]) && lost == old(lost) && AllPass(ticks, k + 1)
                   && Carried(wire) == base + Delivered(ticks, k + 1)
    {
      disconnected := OneTick(ticks[k]);
      assert base + Delivered(ticks, k) + FirstFew(ticks[k].arrivals) == base + (Delivered(ticks, k) + FirstFew(ticks[k].arrivals));
    }

    method TickLoop(ticks: seq<TickInput<T>>) returns (done: nat)
      requires Valid() && link == Sending([]) && reporter.Ready? && queue == []
      modifies this`accepted, this`queue, this`link, this`wire, this`lost, this`acts
      ensures Valid() && old(acts) <= acts && queue == []
      ensures done <= |ticks| && link == if done < |ticks| then Down else Sending([])
      ensures AllPass(ticks, done)
      ensures done < |ticks| ==> SendFails(ticks[done])
      ensures done == |ticks| ==> lost == old(lost) && Carried(wire) == Carried(old(wire)) + Delivered(ticks, |ticks|)
    {
      ghost var base := Carried(wire);
      done := 0;
      while done < |ticks|
        invariant Valid() && old(acts) <= acts && done <= |ticks| && link == Sending([]) && queue == [] && lost == old(lost)
        invariant Carried(wire) == base + Delivered(ticks, done)
        invariant AllPass(ticks, done)
      {
        var disconnected := NextTick(ticks, done, base);
        if disconnected {
          return;
        }
        done := done + 1;
      }
    }

    /**
      * The reconnecting consumer: each attempt fails, or opens a connection with
      * the ticks it lives through.  It goes on until a connection is ended by a
      * shutdown request and not by a failed send.
      */
    method Connect(attempts: seq<Attempt<T>>) returns (tried: nat)
      requires Valid() && link.Down? && reporter.Ready?
      modifies this`accepted, this`queue, this`conns, this`link, this`wire, this`stale, this`lost, this`acts
      ensures Valid() && old(acts) <= acts && tried <= |attempts|
      ensures conns == old(conns) + Opened(attempts, tried)
      ensures link == if NoneLasts(attempts, |attempts|) then Down else Stopped
      ensures if NoneLasts(attempts, |attempts|) then tried == |attempts|
              else tried > 0 && Lasts(attempts[tried - 1]) && NoneLasts(attempts, tried - 1)
    {
      tried := 0;
      while tried < |attempts|
        invariant Valid() && old(acts) <= acts && link.Down? && reporter.Ready? && tried <= |attempts|
        invariant conns == old(conns) + Opened(attempts, tried) && NoneLasts(attempts, tried)
      {
        var attempt := attempts[tried];
        tried := tried + 1;
        if attempt.Opens? {
          var done := Session(attempt.ticks);
          if done == |attempt.ticks| {
            LastingAttempt(attempts, tried - 1, |attempts|);
            return;
          }
          FailedTick(attempt.ticks, done, |attempt.ticks|);
        }
      }
    }
  }
}
