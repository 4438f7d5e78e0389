/** The discipline of the lifecycle is exact: a step that breaks it can be continued, by steps
    that respect it, to a history that no longer has the shape of a lifecycle. */
module RestartExactness {
  import opened Text
  import opened RestartProtocol
  import opened RestartSafety
  import opened RestartLifecycle

  /** `t` goes on from `r` by steps that are disciplined for `u`. */
  ghost predicate Continues(r: Run, t: Run, u: string) {
    && IsRun(r) && IsRun(t) && r.states <= t.states && r.acts <= t.acts
    && forall i {:trigger t.acts[i]} | |r.acts| <= i < |t.acts| :: Disciplined(t.states[i], t.acts[i], u)
  }

  ghost predicate History(r: Run, u: string)
    requires r.states != []
  {
    Shaped(About(Last(r).log, u))
  }

  /** Whatever happens next, as long as it is disciplined, the history of `u` keeps its shape. */
  ghost predicate StaysShaped(r: Run, u: string) {
    forall t :: Continues(r, t, u) ==> History(t, u)
  }

  // --- continuing a run ---

  lemma Go(b: Run, r: Run, a: Action, u: string) returns (t: Run)
    requires Continues(b, r, u) && Enabled(Last(r), a) && Disciplined(Last(r), a, u)
    ensures Continues(b, t, u) && Last(t) == Next(Last(r), a)
  {
    t := Extend(r, a);
  }

  /** The publishes of a publisher that never succeeds with one. */
  function Tries(boot: nat, todo: seq<Entry>): seq<Attempt> {
    if todo == [] then []
    else
      var e := todo[0];
      [Attempt(boot, Publisher(e.path), e.uuid, Completed, false), Attempt(boot, Publisher(e.path), e.uuid, ResultOk, false)]
      + Tries(boot, todo[1..])
  }

  lemma {:induction false} TryAll(b: Run, r: Run, u: string, todo: seq<Entry>) returns (t: Run)
    requires Continues(b, r, u) && todo != [] && Last(r).publisher == Publishing(todo, AtStatus)
    ensures Continues(b, t, u) && Last(t).log == Last(r).log + Tries(Last(r).boot, todo)
    decreases |todo|
  {
    var e, boot := todo[0], Last(r).boot;
    t := Go(b, r, PublishStatus(false), u);
    t := Go(b, t, PublishResult(false), u);
    var both := [Attempt(boot, Publisher(e.path), e.uuid, Completed, false), Attempt(boot, Publisher(e.path), e.uuid, ResultOk, false)];
    assert Last(t).log == Last(r).log + both;
    if |todo| > 1 {
      t := TryAll(b, t, u, todo[1..]);
      assert Last(r).log + both + Tries(boot, todo[1..]) == Last(r).log + (both + Tries(boot, todo[1..]));
    } else {
      assert Tries(boot, todo[1..]) == [];
    }
  }

  /** A claim and everything after it, with every publish failing. */
  lemma ClaimAndTry(b: Run, r: Run, u: string, scratch: string) returns (t: Run, todo: seq<Entry>)
    requires Continues(b, r, u) && Last(r).publisher.Claiming? && Names(Last(r).disk, MAIN, u)
    requires IsInflight(scratch) && scratch !in Last(r).disk
    ensures Continues(b, t, u) && Last(t).log == Last(r).log + Tries(Last(r).boot, todo)
    ensures Entry(scratch, u) in todo
    ensures forall e | e in Last(r).publisher.entries && e.uuid != "" :: e in todo
  {
    var entries := Last(r).publisher.entries;
    t := Go(b, r, Claim(scratch), u);
    assert scratch in Last(t).disk && UuidIn(Last(t).disk[scratch]) == u;
    t := Go(b, t, ReadClaimed(true), u);
    var all := entries + [Entry(scratch, u)];
    todo := Named(all);
    assert Last(t).publisher == Waiting(todo) by {
      assert Entry(scratch, u) in all;
    }
    t := Go(b, t, Connected, u);
    t := TryAll(b, t, u, todo);
  }

  lemma {:induction false} Enumerate(names: set<string>) returns (listing: seq<string>)
    ensures forall i, j | 0 <= i < j < |listing| :: listing[i] != listing[j]
    ensures forall p :: p in listing <==> p in names
  {
    if names == {} {
      listing := [];
    } else {
      var p :| p in names;
      listing := Enumerate(names - {p});
      listing := listing + [p];
    }
  }

  lemma {:induction false} Longer(names: set<string>) returns (n: nat)
    ensures forall p | p in names :: |p| < n
  {
    if names == {} {
      n := 0;
    } else {
      var p :| p in names;
      n := Longer(names - {p});
      n := if |p| < n then n else |p| + 1;
    }
  }

  /** There is always a fresh scratch name. */
  lemma Unused(d: Disk) returns (scratch: string)
    ensures IsInflight(scratch) && scratch !in d
  {
    var n := Longer(d.Keys);
    scratch := INFLIGHT_PREFIX + seq(n, i => 'x');
    assert scratch[..|INFLIGHT_PREFIX|] == INFLIGHT_PREFIX;
  }

  /** From a crash on: the next boot finds every file that names a uuid and tries to report it. */
  lemma NextBootTries(b: Run, r: Run, u: string) returns (t: Run, scratch: string, todo: seq<Entry>)
    requires Continues(b, r, u) && Names(Last(r).disk, MAIN, u)
    ensures Continues(b, t, u) && Last(t).log == Last(r).log + Tries(Last(r).boot + 1, todo)
    ensures scratch !in Last(r).disk && Entry(scratch, u) in todo
    ensures forall p | IsInflight(p) && Names(Last(r).disk, p, u) :: Entry(p, u) in todo
  {
    var d := Last(r).disk;
    t := Go(b, r, Crash(false), u);
    var listing := Enumerate(set p | p in d && IsInflight(p));
    scratch := Unused(d);
    t := Go(b, t, Scan(listing), u);
    var read := Read(listing, d);
    forall p | IsInflight(p) && Names(d, p, u) ensures Entry(p, u) in read {
      var i :| 0 <= i < |listing| && listing[i] == p;
      assert read[i] == Entry(p, u);
    }
    t, todo := ClaimAndTry(b, t, u, scratch);
  }

  // --- histories that are no lifecycle ---

  lemma AboutSnoc(x: seq<Attempt>, y: seq<Attempt>, a: Attempt, u: string)
    requires About(x + y, u) == About(x, u) + About(y, u)
    ensures About(x + (y + [a]), u) == About(x, u) + About(y + [a], u)
  {
    AboutAppend(x + y, a, u);
    AboutAppend(y, a, u);
    Regroup(x, y, [a]);
    if a.uuid == u { Regroup(About(x, u), About(y, u), [a]); }
  }

  lemma Regroup<T>(x: seq<T>, y: seq<T>, z: seq<T>)
    ensures x + (y + z) == (x + y) + z
  {
  }

  lemma {:induction false} AboutConcat(x: seq<Attempt>, y: seq<Attempt>, u: string)
    ensures About(x + y, u) == About(x, u) + About(y, u)
    decreases |y|
  {
    if y == [] {
      assert x + y == x && About(y, u) == [];
    } else {
      AboutConcat(x, y[..|y| - 1], u);
      AboutSnoc(x, y[..|y| - 1], y[|y| - 1], u);
      assert y[..|y| - 1] + [y[|y| - 1]] == y;
    }
  }

  lemma {:induction false} AboutMembers(log: seq<Attempt>, u: string, a: Attempt)
    ensures a in About(log, u) <==> a in log && a.uuid == u
  {
    if log != [] {
      AboutMembers(log[..|log| - 1], u, a);
      assert log == log[..|log| - 1] + [log[|log| - 1]];
    }
  }

  lemma {:induction false} TriesMembers(boot: nat, todo: seq<Entry>)
    ensures forall a | a in Tries(boot, todo) :: a.boot == boot && Deferral(a.kind)
    ensures forall e | e in todo :: Attempt(boot, Publisher(e.path), e.uuid, Completed, false) in Tries(boot, todo)
  {
    if todo != [] {
      TriesMembers(boot, todo[1..]);
      assert todo == [todo[0]] + todo[1..];
    }
  }

  lemma {:induction false} StaysIllegal(l: seq<Attempt>, m: seq<Attempt>)
    requires !Legal(l)
    ensures !Legal(l + m)
  {
    if m == [] {
      assert l + m == l;
    } else {
      assert (l + m)[..|l + m| - 1] == l + m[..|m| - 1];
      StaysIllegal(l, m[..|m| - 1]);
    }
  }

  /** An attempt that may not come directly next breaks the shape for good. */
  lemma CannotFollow(l: seq<Attempt>, m: seq<Attempt>)
    requires m != []
    requires if l == [] then m[0].kind != Accepted && m[0].kind != Expired else !Follows(l[|l| - 1], m[0])
    ensures !Shaped(l + m)
  {
    if Shaped(l + m) {
      ShapeIsLegal(l + m);
      assert l + m == (l + [m[0]]) + m[1..];
      StaysIllegal(l + [m[0]], m[1..]);
    }
  }

  lemma NotDue(l: seq<Attempt>, m: seq<Attempt>)
    requires m != [] && !Deferred(l) && forall a | a in m :: Deferral(a.kind)
    ensures !Shaped(l + m)
  {
    assert m[0] in m;
    CannotFollow(l, m);
  }

  lemma SameBoot(l: seq<Attempt>, m: seq<Attempt>, a: Attempt)
    requires l != [] && a in m && a.kind == Completed && l[|l| - 1].boot == a.boot
    ensures !Shaped(l + m)
  {
    var k :| 0 <= k < |m| && m[k] == a;
    assert (l + m)[|l| - 1] == l[|l| - 1] && (l + m)[|l| + k] == a;
  }

  lemma TwiceInOneBoot(l: seq<Attempt>, m: seq<Attempt>, a: Attempt, c: Attempt)
    requires a in m && c in m && a != c && a.kind == c.kind == Completed && a.boot == c.boot
    ensures !Shaped(l + m)
  {
    var i :| 0 <= i < |m| && m[i] == a;
    var k :| 0 <= k < |m| && m[k] == c;
    assert (l + m)[|l| + i] == a && (l + m)[|l| + k] == c;
  }

  /** What the history gains from tried entries. */
  lemma HistoryOfTries(log: seq<Attempt>, boot: nat, todo: seq<Entry>, u: string) returns (m: seq<Attempt>)
    ensures About(log + Tries(boot, todo), u) == About(log, u) + m
    ensures forall a | a in m :: a.boot == boot && Deferral(a.kind)
    ensures forall e | e in todo && e.uuid == u :: Attempt(boot, Publisher(e.path), u, Completed, false) in m
  {
    var tries := Tries(boot, todo);
    m := About(tries, u);
    AboutConcat(log, tries, u);
    TriesMembers(boot, todo);
    forall a ensures a in m <==> a in tries && a.uuid == u { AboutMembers(tries, u, a); }
  }

  // --- the steps that break the discipline ---

  /** A uuid about which something was reported is accepted again. */
  lemma RepeatedReceive(b: Run, u: string)
    requires IsRun(b) && Last(b).handler == Got(u) && About(Last(b).log, u) != []
    ensures !StaysShaped(b, u)
  {
    var l, a := About(Last(b).log, u), Attempt(Last(b).boot, Processor, u, Accepted, true);
    var t := Go(b, b, Accept(true), u);
    AboutAppend(Last(b).log, a, u);
    CannotFollow(l, [a]);
  }

  /** A file names `u` although no completion of `u` is due. */
  lemma UndueFile(b: Run, r: Run, u: string)
    requires Continues(b, r, u) && Names(Last(r).disk, MAIN, u) && !Deferred(About(Last(r).log, u))
    ensures !StaysShaped(b, u)
  {
    var t, scratch, todo := NextBootTries(b, r, u);
    var m := HistoryOfTries(Last(r).log, Last(r).boot + 1, todo, u);
    NotDue(About(Last(r).log, u), m);
  }

  /** Two files name `u`: the next boot reports it from both. */
  lemma TwoFiles(b: Run, u: string, p: string)
    requires IsRun(b) && Names(Last(b).disk, MAIN, u) && IsInflight(p) && Names(Last(b).disk, p, u)
    ensures !StaysShaped(b, u)
  {
    var t, scratch, todo := NextBootTries(b, b, u);
    var boot := Last(b).boot + 1;
    var m := HistoryOfTries(Last(b).log, boot, todo, u);
    assert Entry(p, u) in todo && Entry(scratch, u) in todo;
    TwiceInOneBoot(About(Last(b).log, u), m,
                   Attempt(boot, Publisher(p), u, Completed, false), Attempt(boot, Publisher(scratch), u, Completed, false));
  }

  /** The claim is still to come in the boot that last reported about `u`. */
  lemma EarlyFile(b: Run, u: string)
    requires IsRun(b) && Names(Last(b).disk, MAIN, u) && BeforeClaim(Last(b).publisher)
    requires var l := About(Last(b).log, u); l != [] && l[|l| - 1].boot == Last(b).boot
    ensures !StaysShaped(b, u)
  {
    var boot := Last(b).boot;
    var scratch := Unused(Last(b).disk);
    var t := b;
    if Last(b).publisher.Scanning? {
      t := Go(b, b, ScanFail, u);
    }
    var todo;
    t, todo := ClaimAndTry(b, t, u, scratch);
    var m := HistoryOfTries(Last(b).log, boot, todo, u);
    assert Entry(scratch, u) in todo;
    SameBoot(About(Last(b).log, u), m, Attempt(boot, Publisher(scratch), u, Completed, false));
  }

  lemma WriteNamesMain(s: State, u: string)
    requires Enabled(s, Write) && u != "" && Trim(s.handler.uuid) == u
    ensures Names(Next(s, Write).disk, MAIN, u)
    ensures forall p | p != MAIN && Names(s.disk, p, u) :: Names(Next(s, Write).disk, p, u)
  {
    TrimNewline(s.handler.uuid);
  }

  lemma ReportedByNow(r: Run, u: string)
    requires IsDisciplined(r, u)
    ensures var l := About(Last(r).log, u); l != [] ==> l[|l| - 1].boot <= Last(r).boot
  {
    UuidInvHolds(r, |r.acts|, u);
  }

  /** Which of the three conditions on a write is broken. */
  lemma WriteMayNot(s: State, u: string, l: seq<Attempt>)
    requires !MayBeWritten(s, u, l) && (l != [] ==> l[|l| - 1].boot <= s.boot)
    ensures || !Deferred(l) || (exists p :: Names(s.disk, p, u) && p != MAIN)
            || (BeforeClaim(s.publisher) && l != [] && l[|l| - 1].boot == s.boot)
  {
  }

  /** A main file that names `u` although one of the three conditions on its write is broken. */
  lemma BadFile(b: Run, u: string)
    requires IsRun(b) && Names(Last(b).disk, MAIN, u)
    requires var l := About(Last(b).log, u);
             || !Deferred(l) || (exists p :: IsInflight(p) && Names(Last(b).disk, p, u))
             || (BeforeClaim(Last(b).publisher) && l != [] && l[|l| - 1].boot == Last(b).boot)
    ensures !StaysShaped(b, u)
  {
    if !Deferred(About(Last(b).log, u)) {
      UndueFile(b, b, u);
    } else if exists p :: IsInflight(p) && Names(Last(b).disk, p, u) {
      var p :| IsInflight(p) && Names(Last(b).disk, p, u);
      TwoFiles(b, u, p);
    } else {
      EarlyFile(b, u);
    }
  }

  lemma BadWrite(r: Run, u: string)
    requires IsDisciplined(r, u) && Enabled(Last(r), Write) && !Disciplined(Last(r), Write, u)
    ensures !StaysShaped(Extend(r, Write), u)
  {
    WriteNamesMain(Last(r), u);
    ReportedByNow(r, u);
    WriteMayNot(Last(r), u, About(Last(r).log, u));
    PathsKnown(r, |r.acts|);
    BadFile(Extend(r, Write), u);
  }

  lemma BadDelete(r: Run, u: string)
    requires IsDisciplined(r, u) && Enabled(Last(r), Delete(false)) && !Disciplined(Last(r), Delete(false), u)
    ensures !StaysShaped(Extend(r, Delete(false)), u)
  {
    var b := Extend(r, Delete(false));
    var t := Go(b, b, PublishFailed(true), u);
    AboutAppend(Last(b).log, Attempt(Last(b).boot, Processor, u, Kind.Failed, true), u);
    UndueFile(b, t, u);
  }

  lemma Undisciplined(r: Run, a: Action, u: string)
    requires IsDisciplined(r, u) && Enabled(Last(r), a) && !Disciplined(Last(r), a, u)
    ensures !StaysShaped(Extend(r, a), u)
  {
    match a
    case Receive(_) => RepeatedReceive(Extend(r, a), u);
    case Write => BadWrite(r, u);
    case Delete(_) => BadDelete(r, u);
  }

  lemma ContinuesDisciplined(r: Run, a: Action, u: string, t: Run)
    requires IsDisciplined(r, u) && Enabled(Last(r), a) && Disciplined(Last(r), a, u)
    requires Continues(Extend(r, a), t, u)
    ensures IsDisciplined(t, u)
  {
    var b := Extend(r, a);
    forall i {:trigger t.acts[i]} | 0 <= i < |t.acts| ensures Disciplined(t.states[i], t.acts[i], u) {
      if i < |r.acts| {
        assert b.acts[i] == r.acts[i] && b.states[i] == r.states[i];
        assert t.acts[i] == r.acts[i] && t.states[i] == r.states[i];
      } else if i == |r.acts| {
        assert t.acts[i] == b.acts[i] == a && t.states[i] == b.states[i] == Last(r);
      }
    }
  }

  /**
    * The discipline is exact, for every uuid: after any disciplined run a step
    * leaves every disciplined continuation with a history of the stated shape if
    * and only if the step is disciplined itself.
    */
  lemma DisciplineIsExact(r: Run, a: Action, u: string)
    requires IsDisciplined(r, u) && Enabled(Last(r), a)
    ensures StaysShaped(Extend(r, a), u) <==> Disciplined(Last(r), a, u)
  {
    if Disciplined(Last(r), a, u) {
      forall t | Continues(Extend(r, a), t, u) ensures History(t, u) {
        ContinuesDisciplined(r, a, u, t);
        Lifecycle(t, |t.states| - 1, u);
      }
    } else {
      Undisciplined(r, a, u);
    }
  }

  /** For the handler's own uuid the condition on the write is the order of the two tasks: the
      claim of the boot must be over, unless the publisher would discard the file anyway. */
  lemma OwnWrite(r: Run, u: string)
    requires IsDisciplined(r, u) && Last(r).handler == Executing(u)
    ensures Disciplined(Last(r), Write, u) <==> u == "" || Trim(u) != u || !BeforeClaim(Last(r).publisher)
  {
    UuidInvHolds(r, |r.acts|, u);
  }

  ghost predicate HoldsOwn(s: State, u: string) {
    (s.handler == Wrote(u) || s.handler == Deleting(u)) && u != "" && Trim(u) == u ==> Names(s.disk, MAIN, u)
  }

  lemma StepHoldsOwn(s: State, a: Action, u: string)
    requires Inv(s) && UuidInv(s, u) && HoldsOwn(s, u) && Enabled(s, a)
    ensures HoldsOwn(Next(s, a), u)
  {
    if RemovesFile(a) {
      RemovalLeavesMain(s, a);
    } else if a.Write? {
      WriteNames(s.disk, s.handler.uuid, s.writes, u);
    }
  }

  lemma {:induction false} MainHoldsOwn(r: Run, i: nat, u: string)
    requires IsDisciplined(r, u) && i < |r.states|
    ensures HoldsOwn(r.states[i], u)
  {
    if i > 0 {
      MainHoldsOwn(r, i - 1, u);
      InvHolds(r, i - 1);
      UuidInvHolds(r, i - 1, u);
      StepHoldsOwn(r.states[i - 1], r.acts[i - 1], u);
    }
  }

  /** And the condition on the delete is that it succeeds, again unless the file would be
      discarded or reported under another uuid. */
  lemma OwnDelete(r: Run, u: string, ok: bool)
    requires IsDisciplined(r, u) && Last(r).handler == Deleting(u)
    ensures Disciplined(Last(r), Delete(ok), u) <==> u == "" || Trim(u) != u || ok
  {
    MainHoldsOwn(r, |r.acts|, u);
  }
}
