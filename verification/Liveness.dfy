/** Restarting another unit, and watching that it stays active. */
module Liveness {
  import opened Wrappers
  import opened Text

  const VERIFY_WINDOW_MS := 10000
  const VERIFY_INTERVAL_MS := 500

  /** What one run of a systemctl command came to. */
  datatype CommandRun = NotInvoked(reason: string) | Ran(success: bool, code: Option<int>, out: string, err: string)

  /** The commands and clocks outside the program, for the n-th poll of a unit. */
  datatype World = World(poll: nat -> CommandRun, pollTime: nat -> nat, oversleep: nat -> nat)

  predicate Active(run: CommandRun) { run.Ran? && run.success && Trim(run.out) == "active" }

  /** What is reported of a poll that is not active. */
  function Reported(run: CommandRun): string {
    match run
    case NotInvoked(reason) => "failed to invoke systemctl is-active: " + reason
    case Ran(_, _, out, _) => if Trim(out) == "" then "unknown" else Trim(out)
  }

  /** When the n-th poll starts, counted from the start of the watch. */
  function StartOf(w: World, interval: nat, n: nat): nat
    decreases n, 0
  {
    if n == 0 then 0 else EndOf(w, interval, n - 1) + interval + w.oversleep(n - 1)
  }

  /** When the n-th poll ends. */
  function EndOf(w: World, interval: nat, n: nat): nat
    decreases n, 1
  {
    StartOf(w, interval, n) + w.pollTime(n)
  }

  lemma {:induction false} EndsGrow(w: World, interval: nat, n: nat)
    ensures EndOf(w, interval, n) >= n * interval
  {
    if n > 0 {
      EndsGrow(w, interval, n - 1);
      assert n * interval == (n - 1) * interval + interval;
    }
  }

  /** Sum of the first `n` values of a clock. */
  function Total(f: nat -> nat, n: nat): nat { if n == 0 then 0 else Total(f, n - 1) + f(n - 1) }

  /** The end of a poll in closed form: `n` pauses of the interval, what they overran, and the time
      of all polls up to this one. */
  lemma {:induction false} EndInTotal(w: World, interval: nat, n: nat)
    ensures EndOf(w, interval, n) == n * interval + Total(w.oversleep, n) + Total(w.pollTime, n + 1)
  {
    if n > 0 {
      EndInTotal(w, interval, n - 1);
      assert n * interval == (n - 1) * interval + interval;
    }
  }

  lemma {:induction false} EndsAscend(w: World, interval: nat, m: nat, n: nat)
    requires m <= n
    ensures EndOf(w, interval, m) <= EndOf(w, interval, n)
  {
    if m < n {
      EndsAscend(w, interval, m, n - 1);
    }
  }

  function CeilDiv(a: nat, b: nat): (q: nat)
    requires b > 0
    ensures a <= q * b < a + b
  {
    (a + b - 1) / b
  }

  /** A poll that found the unit active before the end of the window. */
  ghost predicate Passed(w: World, window: nat, interval: nat, k: nat) {
    Active(w.poll(k)) && EndOf(w, interval, k) < window
  }

  datatype Watch = Stayed | Left(state: string)

  /**
    * What a watch of a number of polls has found: all but the last poll were
    * active and ended before the window did, and the last one decided.
    */
  ghost predicate Verdict(w: World, window: nat, interval: nat, polls: nat, result: Watch) {
    && polls > 0
    && (forall k: nat | k < polls - 1 :: Passed(w, window, interval, k))
    && match result
       case Stayed => Active(w.poll(polls - 1)) && EndOf(w, interval, polls - 1) >= window
       case Left(state) => !Active(w.poll(polls - 1)) && state == Reported(w.poll(polls - 1))
  }

  /** The poll would still be made if every poll before it were active. */
  ghost predicate WithinWindow(w: World, window: nat, interval: nat, k: nat) {
    k == 0 || EndOf(w, interval, k - 1) < window
  }

  lemma PollBound(w: World, window: nat, interval: nat, n: nat)
    requires interval > 0 && WithinWindow(w, window, interval, n)
    ensures n <= CeilDiv(window, interval)
  {
    if n > 0 {
      EndsGrow(w, interval, n - 1);
      var q := CeilDiv(window, interval);
      assert (n - 1) * interval < q * interval;
      Smaller(n - 1, q, interval);
    }
  }

  lemma Smaller(a: int, b: int, c: nat)
    requires a * c < b * c
    ensures a < b
  {
  }

  /** The watch has one possible outcome. */
  lemma VerdictUnique(w: World, window: nat, interval: nat,
                      polls: nat, result: Watch, polls': nat, result': Watch)
    requires Verdict(w, window, interval, polls, result) && Verdict(w, window, interval, polls', result')
    ensures polls == polls' && result == result'
  {
    ghost var one, other := Passed(w, window, interval, polls - 1), Passed(w, window, interval, polls' - 1);
  }

  lemma LastPollIsDue(w: World, window: nat, interval: nat, polls: nat, result: Watch)
    requires Verdict(w, window, interval, polls, result)
    ensures WithinWindow(w, window, interval, polls - 1)
    ensures forall j: nat | j < polls - 1 :: Active(w.poll(j))
  {
    if polls > 1 { assert Passed(w, window, interval, polls - 2); }
    forall j: nat | j < polls - 1 ensures Active(w.poll(j)) { assert Passed(w, window, interval, j); }
  }

  /** A unit passes if and only if it is active at every poll the window has room for. */
  lemma PassesExactlyWhenActive(w: World, window: nat, interval: nat, polls: nat, result: Watch)
    requires Verdict(w, window, interval, polls, result)
    ensures result.Stayed? <==> forall k: nat | WithinWindow(w, window, interval, k) :: Active(w.poll(k))
  {
    LastPollIsDue(w, window, interval, polls, result);
    if result.Stayed? {
      forall k: nat | WithinWindow(w, window, interval, k) ensures Active(w.poll(k)) {
        if k >= polls {
          EndsAscend(w, interval, polls - 1, k - 1);
        } else if k < polls - 1 {
          assert Passed(w, window, interval, k);
        }
      }
    }
  }

  /** What a poll prints decides: it is active exactly when systemctl succeeded and printed the
      word active, with or without a line feed; otherwise the state it printed is reported, or
      unknown when it printed nothing but white space. */
  lemma PollIsJudged(success: bool, code: Option<int>, state: string, err: string)
    requires state != "" && !IsSpace(state[0]) && !IsSpace(state[|state| - 1])
    ensures Active(Ran(success, code, state + "\n", err)) <==> success && state == "active"
    ensures !(success && state == "active") ==> Reported(Ran(success, code, state + "\n", err)) == state
    ensures !Active(Ran(success, code, "\n", err)) && Reported(Ran(success, code, "\n", err)) == "unknown"
    ensures !Active(NotInvoked(err))
  {
    TrimNewline(state);
    TrimFixed(IsSpace, state);
    TrimNewline("");
    assert "" + "\n" == "\n";
  }

  /** With the default window and interval a watch makes at most 21 polls. */
  lemma DefaultPolls(w: World, k: nat)
    requires WithinWindow(w, VERIFY_WINDOW_MS, VERIFY_INTERVAL_MS, k)
    ensures k < 21
  {
    PollBound(w, VERIFY_WINDOW_MS, VERIFY_INTERVAL_MS, k);
  }

  lemma PassedWereActive(w: World, window: nat, interval: nat, n: nat)
    requires forall k: nat | k < n :: Passed(w, window, interval, k)
    ensures forall k: nat | k < n :: w.poll(k).Ran? && w.poll(k).success && Trim(w.poll(k).out) == "active"
  {
    forall k: nat | k < n ensures w.poll(k).Ran? && w.poll(k).success && Trim(w.poll(k).out) == "active" {
      assert Passed(w, window, interval, k);
    }
  }

  /** Polls a unit until one poll fails or one ends at or after the end of the window. */
  method VerifyActive(w: World, window: nat, interval: nat) returns (polls: nat, result: Watch)
    requires interval > 0
    ensures Verdict(w, window, interval, polls, result)
    ensures polls <= CeilDiv(window, interval) + 1
    ensures result.Stayed? ==>
              forall k: nat | k < polls :: w.poll(k).Ran? && w.poll(k).success && Trim(w.poll(k).out) == "active"
    ensures result.Left? ==>
              var last := w.poll(polls - 1);
              && result.state != "" && (last.Ran? ==> !last.success || Trim(last.out) != "active")
              && (last.Ran? && Trim(last.out) != "" ==> result.state == Trim(last.out))
              && (last.Ran? && Trim(last.out) == "" ==> result.state == "unknown")
  {
    var now := 0;
    polls := 0;
    while true
      invariant now == StartOf(w, interval, polls)
      invariant forall k: nat | k < polls :: Passed(w, window, interval, k)
      invariant WithinWindow(w, window, interval, polls)
      invariant polls <= CeilDiv(window, interval)
      decreases CeilDiv(window, interval) - polls
    {
      var out := w.poll(polls);
      now := now + w.pollTime(polls);
      polls := polls + 1;
      if out.NotInvoked? {
        return polls, Left("failed to invoke systemctl is-active: " + out.reason);
      }
      var state := Trim(out.out);
      if !out.success || state != "active" {
        return polls, Left(if state == "" then "unknown" else state);
      }
      if now >= window {
        PassedWereActive(w, window, interval, polls - 1);
        return polls, Stayed;
      }
      now := now + interval + w.oversleep(polls - 1);
      PollBound(w, window, interval, polls);
    }
  }

  // --- restarting a unit ---

  datatype RestartError =
    | InvokeFailed(reason: string)
    | RestartFailed(unit: string, code: Option<int>, stderr: string)
    | NotActive(state: string)

  /**
    * Restarts a unit through systemctl and then watches it. It succeeds exactly
    * when systemctl did and the unit was active at every poll of the window.
    */
  method RestartUnit(unit: string, restart: CommandRun, w: World) returns (result: Result<string, RestartError>)
    ensures result.Ok? <==>
            && restart.Ran? && restart.success
            && forall k: nat | WithinWindow(w, VERIFY_WINDOW_MS, VERIFY_INTERVAL_MS, k) ::
                 w.poll(k).Ran? && w.poll(k).success && Trim(w.poll(k).out) == "active"
    ensures match restart
            case NotInvoked(reason) => result == Err(InvokeFailed(reason))
            case Ran(success, code, _, err) =>
              if !success then result == Err(RestartFailed(unit, code, Trim(err)))
              else result.Err? ==>
                exists k: nat ::
                  && WithinWindow(w, VERIFY_WINDOW_MS, VERIFY_INTERVAL_MS, k) && !Active(w.poll(k))
                  && (forall j: nat | j < k :: Active(w.poll(j)))
                  && result.error == NotActive(Reported(w.poll(k)))
  {
    if restart.NotInvoked? { return Err(InvokeFailed(restart.reason)); }
    if !restart.success { return Err(RestartFailed(unit, restart.code, Trim(restart.err))); }
    var polls, verdict := VerifyActive(w, VERIFY_WINDOW_MS, VERIFY_INTERVAL_MS);
    PassesExactlyWhenActive(w, VERIFY_WINDOW_MS, VERIFY_INTERVAL_MS, polls, verdict);
    if verdict.Left? {
      LastPollIsDue(w, VERIFY_WINDOW_MS, VERIFY_INTERVAL_MS, polls, verdict);
      return Err(NotActive(verdict.state));
    }
    result := Ok(unit);
  }
}
