/** The path of an MQTT event to the command processor: a broadcast ring that overwrites its
    oldest events, the bridge task, a bounded channel, and the sequential drain. */
module Bridge {
  const RING := 256
  const BRIDGE_CAPACITY := 64

  /** `sent` is everything ever broadcast; `next` is the position the bridge's receiver reads
      next; `lagged` counts the events reported to it as missed.  The stages hold positions in
      `sent`; `held` and `current` have at most one. */
  datatype State<T> = State(
    sent: seq<T>,
    next: nat,
    lagged: nat,
    held: seq<nat>,
    queue: seq<nat>,
    current: seq<nat>,
    finished: seq<nat>)

  datatype Action<T> =
    | Broadcast(event: T)
    | Receive
    | Forward
    | Take
    | Finish

  /** Events overwritten in the ring before the bridge could read them, not yet reported. */
  function Missed<T>(s: State<T>): int { if |s.sent| - s.next > RING then |s.sent| - s.next - RING else 0 }

  function Unread<T>(s: State<T>): int { |s.sent| - s.next - Missed(s) }

  predicate Enabled<T>(s: State<T>, a: Action<T>) {
    match a
    case Broadcast(_) => true
    case Receive => s.held == [] && s.next < |s.sent|
    case Forward => s.held != [] && |s.queue| < BRIDGE_CAPACITY
    case Take => s.current == [] && s.queue != []
    case Finish => s.current != []
  }

  function Next<T>(s: State<T>, a: Action<T>): State<T>
    requires Enabled(s, a)
  {
    match a
    case Broadcast(e) => s.(sent := s.sent + [e])
    case Receive =>
      // An overrun receiver is told how many events it missed and goes on with the oldest kept.
      if Missed(s) > 0 then s.(next := s.next + Missed(s), lagged := s.lagged + Missed(s))
      else s.(held := [s.next], next := s.next + 1)
    case Forward => s.(queue := s.queue + s.held, held := [])
    case Take => s.(current := [s.queue[0]], queue := s.queue[1..])
    case Finish => s.(finished := s.finished + s.current, current := [])
  }

  /** The state after a sequence of actions, and whether each was enabled in its turn. */
  function After<T>(acts: seq<Action<T>>): (bool, State<T>) {
    if acts == [] then (true, State([], 0, 0, [], [], [], []))
    else
      var (ok, s) := After(acts[..|acts| - 1]);
      var a := acts[|acts| - 1];
      if ok && Enabled(s, a) then (true, Next(s, a)) else (false, s)
  }

  /** Everything past the ring, oldest first. */
  function Pipeline<T>(s: State<T>): seq<nat> { s.finished + s.current + s.queue + s.held }

  ghost predicate Increasing(p: seq<nat>) { forall i, j | 0 <= i < j < |p| :: p[i] < p[j] }

  ghost predicate Inv<T>(s: State<T>) {
    && s.next <= |s.sent|
    && |s.held| <= 1 && |s.current| <= 1 && |s.queue| <= BRIDGE_CAPACITY
    && Increasing(Pipeline(s))
    && (forall p | p in Pipeline(s) :: p < s.next)
    && s.next == |Pipeline(s)| + s.lagged
  }

  lemma StepKeeps<T>(s: State<T>, a: Action<T>)
    requires Inv(s) && Enabled(s, a)
    ensures Inv(Next(s, a))
  {
    var t := Next(s, a);
    match a
    case Receive =>
      var p := Pipeline(s);
      assert forall i | 0 <= i < |p| :: p[i] in p;
      assert Pipeline(t) == if Missed(s) == 0 then p + [s.next] else p;
    case Take =>
      assert s.queue == [s.queue[0]] + s.queue[1..];
      assert Pipeline(t) == Pipeline(s);
    case _ => assert Pipeline(t) == Pipeline(s);
  }

  lemma {:induction false} InvAfter<T>(acts: seq<Action<T>>)
    requires After(acts).0
    ensures Inv(After(acts).1)
  {
    if acts != [] {
      InvAfter(acts[..|acts| - 1]);
      StepKeeps(After(acts[..|acts| - 1]).1, acts[|acts| - 1]);
    }
  }

  /** Conservation, order and bounds over every interleaving: each broadcast event is finished,
      in progress, in the bridge channel (at most 64), held by the bridge task (at most 1),
      unread in the ring (at most 256), overwritten but not yet reported, or reported as lagged;
      and what gets through is the broadcast sequence at strictly increasing positions. */
  lemma Conservation<T>(acts: seq<Action<T>>)
    requires After(acts).0
    ensures var s := After(acts).1;
      && |s.sent| == |s.finished| + |s.current| + |s.queue| + |s.held| + Unread(s) + Missed(s) + s.lagged
      && |s.current| <= 1 && |s.queue| <= 64 && |s.held| <= 1 && 0 <= Unread(s) <= 256
      && Increasing(Pipeline(s)) && forall p | p in Pipeline(s) :: p < |s.sent|
  {
    InvAfter(acts);
  }

  /** An overrun receiver is told how many events were overwritten before it could read them, all of
      them and no others, and the next event it holds is the oldest of the 256 that were kept. */
  lemma OverrunResumes<T>(s: State<T>)
    requires s.held == [] && |s.sent| - s.next > 256
    ensures Enabled(s, Receive)
    ensures var t := Next(s, Receive);
            && t.held == [] && t.lagged - s.lagged == |s.sent| - 256 - s.next && Enabled(t, Receive)
            && var u := Next(t, Receive);
               u.held == [|s.sent| - 256] && u.next == |s.sent| - 255 && u.lagged == t.lagged
  {
  }

  /** A receiver that is not overrun is told nothing and holds the very next event. */
  lemma InTimeReceives<T>(s: State<T>)
    requires s.held == [] && 0 < |s.sent| - s.next <= 256
    ensures Enabled(s, Receive)
    ensures var t := Next(s, Receive); t.held == [s.next] && t.next == s.next + 1 && t.lagged == s.lagged
  {
  }

  /** Both tasks have run until they block: the bridge on a full channel or an empty ring, the
      drain on a command in progress or an empty channel. */
  predicate Blocked<T>(s: State<T>) {
    && !Enabled(s, Receive) && !Enabled(s, Forward) && !Enabled(s, Take)
  }

  function Outstanding<T>(s: State<T>): int { |s.sent| - s.lagged - |s.finished| }

  /** Capacity: whenever both tasks have run until they block, an event has been overwritten
      unread if and only if more than 256 + 1 + 64 + 1 are outstanding. */
  lemma CapacityExact<T>(acts: seq<Action<T>>)
    requires After(acts).0 && Blocked(After(acts).1)
    ensures Missed(After(acts).1) > 0 <==> Outstanding(After(acts).1) > 256 + 1 + 64 + 1
  {
    InvAfter(acts);
  }

  /** At no moment of the run was an event overwritten before the bridge could read it. */
  ghost predicate NeverOverrun<T>(acts: seq<Action<T>>) {
    forall k | 0 <= k <= |acts| :: Missed(After(acts[..k]).1) == 0
  }

  /** Nothing is ever reported lagged as long as the ring is never overrun. */
  lemma {:induction false} NoLossNoLag<T>(acts: seq<Action<T>>)
    requires After(acts).0 && NeverOverrun(acts)
    ensures After(acts).1.lagged == 0
    ensures var p := Pipeline(After(acts).1); forall i | 0 <= i < |p| :: p[i] == i
  {
    if acts != [] {
      var front := acts[..|acts| - 1];
      forall k | 0 <= k <= |front| ensures Missed(After(front[..k]).1) == 0 {
        assert front[..k] == acts[..k];
      }
      NoLossNoLag(front);
      assert acts[..|front|] == front;
      InvAfter(front);
      InvAfter(acts);
      LosslessIsDense(After(acts).1);
    } else {
      assert acts[..0] == acts;
    }
  }

  lemma LosslessIsDense<T>(s: State<T>)
    requires Inv(s) && s.lagged == 0
    ensures forall i | 0 <= i < |Pipeline(s)| :: Pipeline(s)[i] == i
  {
    IncreasingIsDense(Pipeline(s), s.next);
  }

  /** An increasing sequence of n positions below n is 0, 1, ..., n - 1. */
  lemma {:induction false} IncreasingIsDense(p: seq<nat>, n: nat)
    requires Increasing(p) && |p| == n && forall x | x in p :: x < n
    ensures forall i | 0 <= i < n :: p[i] == i
  {
    if n > 0 {
      var front := p[..n - 1];
      forall x | x in front ensures x < n - 1 {
        var i :| 0 <= i < n - 1 && front[i] == x;
        assert p[i] < p[n - 1] && p[n - 1] in p;
      }
      IncreasingIsDense(front, n - 1);
      if n > 1 { assert p[n - 2] == front[n - 2] < p[n - 1]; }
      assert p[n - 1] in p;
    }
  }

  // --- the two tasks ---

  /** How far what is on its way still is from being taken. */
  function Work<T>(s: State<T>): int { 3 * (|s.sent| - s.next) + 2 * |s.held| + |s.queue| }

  /** The ring with the bridge task and the drain task, one method for what each does between awaits. */
  class EventBridge<T> {
    var sent: seq<T>
    var next: nat
    var lagged: nat
    var held: seq<nat>
    var queue: seq<nat>
    var current: seq<nat>
    var finished: seq<nat>
    ghost var acts: seq<Action<T>>

    ghost function View(): State<T>
      reads this
    {
      State(sent, next, lagged, held, queue, current, finished)
    }

    ghost predicate Valid()
      reads this
    {
      After(acts) == (true, View())
    }

    constructor ()
      ensures Valid() && View() == State([], 0, 0, [], [], [], [])
    {
      sent, next, lagged, held, queue, current, finished, acts := [], 0, 0, [], [], [], [], [];
    }

    ghost method Took(a: Action<T>, was: State<T>)
      requires After(acts) == (true, was) && Enabled(was, a) && View() == Next(was, a)
      modifies `acts
      ensures Valid() && acts == old(acts) + [a]
    {
      assert (acts + [a])[..|acts|] == acts;
      acts := acts + [a];
    }

    /** The transport announces an event; it never waits. */
    method Send(event: T)
      requires Valid()
      modifies this
      ensures Valid() && View() == Next(old(View()), Broadcast(event))
    {
      sent := sent + [event];
      Took(Broadcast(event), old(View()));
    }

    /** The bridge receives: the next event, or the news that some were missed. */
    method ReceiveEvent()
      requires Valid() && held == [] && next < |sent|
      modifies this
      ensures Valid() && View() == Next(old(View()), Receive)
    {
      if |sent| - next > RING {
        var missed := |sent| - next - RING;
        next, lagged := next + missed, lagged + missed;
      } else {
        held, next := [next], next + 1;
      }
      Took(Receive, old(View()));
    }

    /** The awaited send into the channel, once it has room. */
    method ForwardEvent()
      requires Valid() && held != [] && |queue| < BRIDGE_CAPACITY
      modifies this
      ensures Valid() && View() == Next(old(View()), Forward)
    {
      queue, held := queue + held, [];
      Took(Forward, old(View()));
    }

    /** The drain takes an event and starts on it. */
    method TakeEvent()
      requires Valid() && current == [] && queue != []
      modifies this
      ensures Valid() && View() == Next(old(View()), Take)
    {
      current, queue := [queue[0]], queue[1..];
      Took(Take, old(View()));
    }

    method FinishEvent()
      requires Valid() && current != []
      modifies this
      ensures Valid() && View() == Next(old(View()), Finish)
    {
      finished, current := finished + current, [];
      Took(Finish, old(View()));
    }

    /** One of the two tasks makes a step. */
    method RunOnce()
      requires Valid() && next <= |sent| && !Blocked(View())
      modifies this
      ensures Valid() && next <= |sent| && sent == old(sent) && finished == old(finished)
      ensures Work(View()) < Work(old(View()))
      ensures Missed(old(View())) <= 0 ==> lagged == old(lagged) && Missed(View()) <= 0
    {
      InvAfter(acts);
      if current == [] && queue != [] {
        TakeEvent();
      } else if held != [] {
        ForwardEvent();
      } else {
        ReceiveEvent();
      }
    }

    /**
      * Both tasks run, while nothing is announced and no command finishes, until
      * neither can go on.  Then an event is missing only if more than 256 + 1 +
      * 64 + 1 are outstanding, and none was reported missed on the way unless the
      * ring was overrun at the start.
      */
    method RunUntilBlocked()
      requires Valid()
      modifies this
      ensures Valid() && Blocked(View()) && sent == old(sent) && finished == old(finished)
      ensures Missed(View()) > 0 <==> Outstanding(View()) > 256 + 1 + 64 + 1
      ensures Missed(old(View())) <= 0 ==> lagged == old(lagged) && Missed(View()) <= 0
    {
      InvAfter(acts);
      while (held == [] && next < |sent|) || (held != [] && |queue| < BRIDGE_CAPACITY) || (current == [] && queue != [])
        invariant Valid() && next <= |sent| && sent == old(sent) && finished == old(finished)
        invariant Missed(old(View())) <= 0 ==> lagged == old(lagged) && Missed(View()) <= 0
        decreases Work(View())
      {
        RunOnce();
      }
      CapacityExact(acts);
    }

    /** Events announced one by one while both tasks keep up: from a blocked state whose ring is
        not overrun, nothing is reported missed and nothing is missing as long as the outstanding
        events together with the new ones are at most 256 + 1 + 64 + 1. */
    method SendAll(events: seq<T>)
      requires Valid() && Blocked(View()) && Missed(View()) <= 0
      requires Outstanding(View()) + |events| <= RING + 1 + BRIDGE_CAPACITY + 1
      modifies this
      ensures Valid() && Blocked(View()) && sent == old(sent) + events && finished == old(finished)
      ensures lagged == old(lagged) && Missed(View()) <= 0
    {
      for k := 0 to |events|
        invariant Valid() && Blocked(View()) && sent == old(sent) + events[..k] && finished == old(finished)
        invariant lagged == old(lagged) && Missed(View()) <= 0
      {
        SendOne(events[k]);
        assert events[..k + 1] == events[..k] + [events[k]];
      }
      assert events[..|events|] == events;
    }

    method SendOne(event: T)
      requires Valid() && Blocked(View()) && Missed(View()) <= 0
      requires Outstanding(View()) < RING + 1 + BRIDGE_CAPACITY + 1
      modifies this
      ensures Valid() && Blocked(View()) && sent == old(sent) + [event] && finished == old(finished)
      ensures lagged == old(lagged) && Missed(View()) <= 0
    {
      InvAfter(acts);
      Send(event);
      if held != [] { CapacityExact(acts); }
      RunUntilBlocked();
    }
  }
}
