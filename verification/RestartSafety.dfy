/** What every run of the self-restart protocol keeps: no pending uuid is lost, the publisher
    and the handler stay out of each other's files, and an undisturbed publisher finishes. */
module RestartSafety {
  import opened Text
  import opened RestartProtocol

  // --- the invariant ---

  /** The entries the publisher still owns. */
  function Owned(ph: PublisherPhase): seq<Entry> {
    match ph
    case Scanning => []
    case Claiming(entries) => entries
    case Reading(entries, _) => entries
    case Waiting(entries) => entries
    case Publishing(todo, _) => todo
    case Finished => []
  }

  ghost predicate DistinctPaths(entries: seq<Entry>) {
    forall i, j | 0 <= i < j < |entries| :: entries[i].path != entries[j].path
  }

  ghost predicate WritesNumbered(s: State) {
    && (forall p | p in s.disk :: s.disk[p].write < s.writes)
    && (forall p, q | p in s.disk && q in s.disk && p != q :: s.disk[p].write != s.disk[q].write)
  }

  ghost predicate OwnsFile(s: State, e: Entry) {
    IsInflight(e.path) && e.path in s.disk && UuidIn(s.disk[e.path]) == e.uuid && e.path !in s.doomed
  }

  ghost predicate OwnsItsEntries(s: State) {
    && DistinctPaths(Owned(s.publisher))
    && (forall e | e in Owned(s.publisher) :: OwnsFile(s, e))
    && (s.publisher.Waiting? || s.publisher.Publishing? ==>
          forall e | e in Owned(s.publisher) :: e.uuid != "")
    && (s.publisher.Reading? ==>
          && IsInflight(s.publisher.scratch) && s.publisher.scratch in s.disk
          && s.publisher.scratch !in s.doomed
          && forall e | e in s.publisher.entries :: e.path != s.publisher.scratch)
    && (s.publisher.Scanning? || s.publisher.Claiming? || s.publisher.Reading? ==> s.doomed == {})
  }

  ghost predicate DoomedAreEmpty(s: State) {
    forall p | p in s.doomed :: IsInflight(p) && (p in s.disk ==> UuidIn(s.disk[p]) == "")
  }

  /** The log holds both deferred publishes of an entry, both Ok, status before result. */
  ghost predicate Delivered(log: seq<Attempt>, boot: nat, path: string, u: string) {
    exists x, y | 0 <= x < y < |log| ::
      && log[x] == Attempt(boot, Publisher(path), u, Completed, true)
      && log[y] == Attempt(boot, Publisher(path), u, ResultOk, true)
  }

  ghost predicate StageBacked(s: State) {
    s.publisher.Publishing? && s.publisher.todo != [] ==>
      var e := s.publisher.todo[0];
      match s.publisher.stage
      case AtStatus => true
      case AtResult(ok) => ok ==> Attempt(s.boot, Publisher(e.path), e.uuid, Completed, true) in s.log
      case AtRemove => Delivered(s.log, s.boot, e.path, e.uuid)
  }

  ghost predicate NoEmptyPublished(s: State) {
    forall a | a in s.log && a.source.Publisher? :: a.uuid != "" && IsInflight(a.source.path)
  }

  ghost predicate Inv(s: State) {
    && WritesNumbered(s)
    && OwnsItsEntries(s)
    && DoomedAreEmpty(s)
    && StageBacked(s)
    && NoEmptyPublished(s)
  }

  lemma {:induction false} NamedKeepsDistinct(entries: seq<Entry>)
    requires DistinctPaths(entries)
    ensures DistinctPaths(Named(entries))
  {
    if entries != [] {
      var front := entries[..|entries| - 1];
      NamedKeepsDistinct(front);
      forall e | e in Named(front) ensures e.path != entries[|entries| - 1].path {
        assert e in front;
      }
    }
  }

  lemma SettleKeeps(s: State, entries: seq<Entry>)
    requires WritesNumbered(s) && DoomedAreEmpty(s) && NoEmptyPublished(s)
    requires s.doomed == {} && DistinctPaths(entries)
    requires forall e | e in entries :: OwnsFile(s, e)
    ensures Inv(Settle(s, entries))
  {
    NamedKeepsDistinct(entries);
    var t := Settle(s, entries);
    forall e | e in Named(entries) ensures OwnsFile(t, e) {
      assert OwnsFile(s, e);
      forall f | f in entries && f.uuid == "" ensures f.path != e.path {
        assert OwnsFile(s, f);
      }
    }
    forall p | p in t.doomed ensures IsInflight(p) && (p in t.disk ==> UuidIn(t.disk[p]) == "") {
      var e :| e in entries && e.uuid == "" && e.path == p;
      assert OwnsFile(s, e);
    }
  }

  lemma HandlerKeeps(s: State, a: Action)
    requires Inv(s) && Enabled(s, a)
    requires a.Receive? || a.Expire? || a.Accept? || a.Start? || a.Write? || a.WriteFail? || a.Systemctl?
             || a.Delete? || a.PublishFailed? || a.PublishRefusal? || a.Cancel? || a.Crash?
    ensures Inv(Next(s, a))
  {
    var t := Next(s, a);
    if !a.Crash? {
      forall e | e in Owned(t.publisher) ensures OwnsFile(t, e) { assert OwnsFile(s, e); }
      DeliveredGrows(s, t);
    }
  }

  lemma DeliveredGrows(s: State, t: State)
    requires s.log <= t.log
    ensures forall b, p, u | Delivered(s.log, b, p, u) :: Delivered(t.log, b, p, u)
    ensures forall a | a in s.log :: a in t.log
  {
    forall b, p, u | Delivered(s.log, b, p, u) ensures Delivered(t.log, b, p, u) {
      var x, y :| 0 <= x < y < |s.log|
                  && s.log[x] == Attempt(b, Publisher(p), u, Completed, true)
                  && s.log[y] == Attempt(b, Publisher(p), u, ResultOk, true);
      assert t.log[x] == s.log[x] && t.log[y] == s.log[y];
    }
  }

  lemma ClaimKeeps(s: State, scratch: string)
    requires Inv(s) && Enabled(s, Claim(scratch))
    ensures Inv(Next(s, Claim(scratch)))
  {
    var t := Next(s, Claim(scratch));
    forall e | e in Owned(t.publisher) ensures OwnsFile(t, e) { assert OwnsFile(s, e); }
  }

  lemma ReadClaimedKeeps(s: State, ok: bool)
    requires Inv(s) && Enabled(s, ReadClaimed(ok))
    ensures Inv(Next(s, ReadClaimed(ok)))
  {
    SettleKeeps(s, if ok then s.publisher.entries + [Entry(s.publisher.scratch, UuidIn(s.disk[s.publisher.scratch]))]
                   else s.publisher.entries);
  }

  lemma CollectKeeps(s: State, a: Action)
    requires Inv(s) && Enabled(s, a)
    requires a.Scan? || a.ScanFail? || a.Claim? || a.ClaimNothing? || a.ClaimFail? || a.ReadClaimed?
             || a.Connected? || a.GiveUp? || a.RemoveDoomed?
    ensures Inv(Next(s, a))
  {
    match a
    case Claim(scratch) => ClaimKeeps(s, scratch);
    case ClaimNothing => SettleKeeps(s, s.publisher.entries);
    case ClaimFail => SettleKeeps(s, s.publisher.entries);
    case ReadClaimed(ok) => ReadClaimedKeeps(s, ok);
    case _ =>
  }

  lemma RemoveKeeps(s: State, ok: bool)
    requires Inv(s) && Enabled(s, Remove(ok))
    ensures Inv(Next(s, Remove(ok)))
  {
    var t := Next(s, Remove(ok));
    assert OwnsFile(s, s.publisher.todo[0]);
    forall f | f in Owned(t.publisher) ensures OwnsFile(t, f) && f.uuid != "" {
      var i :| 0 <= i < |s.publisher.todo| - 1 && f == s.publisher.todo[1..][i];
      assert f == s.publisher.todo[i + 1] && OwnsFile(s, f);
    }
  }

  lemma PublishStatusKeeps(s: State, ok: bool)
    requires Inv(s) && Enabled(s, PublishStatus(ok))
    ensures Inv(Next(s, PublishStatus(ok)))
  {
    var t := Next(s, PublishStatus(ok));
    var e := s.publisher.todo[0];
    assert e in Owned(s.publisher) && OwnsFile(s, e);
    forall f | f in Owned(t.publisher) ensures OwnsFile(t, f) { assert OwnsFile(s, f); }
    assert t.log[|s.log|] == Attempt(s.boot, Publisher(e.path), e.uuid, Completed, ok);
  }

  lemma PublishResultKeeps(s: State, ok: bool)
    requires Inv(s) && Enabled(s, PublishResult(ok))
    ensures Inv(Next(s, PublishResult(ok)))
  {
    var t := Next(s, PublishResult(ok));
    var e := s.publisher.todo[0];
    assert e in Owned(s.publisher) && OwnsFile(s, e);
    forall f | f in Owned(t.publisher) ensures OwnsFile(t, f) && f.uuid != "" {
      assert f in Owned(s.publisher) && OwnsFile(s, f);
    }
    if s.publisher.stage.statusOk && ok {
      var x :| 0 <= x < |s.log| && s.log[x] == Attempt(s.boot, Publisher(e.path), e.uuid, Completed, true);
      assert t.log[x] == s.log[x] && t.log[|s.log|] == Attempt(s.boot, Publisher(e.path), e.uuid, ResultOk, true);
      assert Delivered(t.log, t.boot, e.path, e.uuid);
    }
  }

  lemma StepKeeps(s: State, a: Action)
    requires Inv(s) && Enabled(s, a)
    ensures Inv(Next(s, a))
  {
    if a.PublishStatus? {
      PublishStatusKeeps(s, a.ok);
    } else if a.PublishResult? {
      PublishResultKeeps(s, a.ok);
    } else if a.Remove? {
      RemoveKeeps(s, a.ok);
    } else if a.Scan? || a.ScanFail? || a.Claim? || a.ClaimNothing? || a.ClaimFail? || a.ReadClaimed?
              || a.Connected? || a.GiveUp? || a.RemoveDoomed? {
      CollectKeeps(s, a);
    } else {
      HandlerKeeps(s, a);
    }
  }

  /** The invariant holds in every state of every run. */
  lemma {:induction false} InvHolds(r: Run, i: nat)
    requires IsRun(r) && i < |r.states|
    ensures Inv(r.states[i])
  {
    if i > 0 {
      InvHolds(r, i - 1);
      StepKeeps(r.states[i - 1], r.acts[i - 1]);
    }
  }

  // --- durability ---

  ghost predicate Holds(d: Disk, w: nat, u: string) {
    exists p | p in d :: d[p].write == w && UuidIn(d[p]) == u
  }

  /** The two ways in which the product of write `w`, naming `u`, may leave the disk: a
      delivery of `u` in the current boot, followed by the removal of exactly that file, or
      the handler's own overwrite or delete of the main path while that file is there. */
  ghost predicate Releases(s: State, a: Action, w: nat, u: string) {
    var onMain := MAIN in s.disk && s.disk[MAIN].write == w;
    match a
    case Remove(ok) =>
      && ok && s.publisher.Publishing? && s.publisher.todo != []
      && var p := s.publisher.todo[0].path;
         p in s.disk && s.disk[p].write == w && Delivered(s.log, s.boot, p, u)
    case Write => onMain
    case WriteFail(torn) => torn && onMain
    case Crash(torn) => torn && onMain
    case Delete(ok) => ok && onMain
    case _ => false
  }

  lemma StepIsDurable(s: State, a: Action, w: nat, u: string)
    requires Inv(s) && Enabled(s, a) && u != ""
    requires Holds(s.disk, w, u) && !Holds(Next(s, a).disk, w, u)
    ensures Releases(s, a, w, u)
  {
    var t := Next(s, a);
    var p :| p in s.disk && s.disk[p].write == w && UuidIn(s.disk[p]) == u;
    if a.Remove? {
      assert OwnsFile(s, s.publisher.todo[0]);
    }
    var q := if a.Claim? && p == MAIN then a.scratch else p;
    assert q in t.disk ==> t.disk[q] != s.disk[p];
  }

  /** Step `k` of the run releases the product of the write. */
  ghost predicate ReleasedAt(r: Run, k: int, w: nat, u: string)
    requires 0 <= k < |r.acts| < |r.states|
  {
    Releases(r.states[k], r.acts[k], w, u)
  }

  lemma RunStepIsDurable(r: Run, k: nat, w: nat, u: string)
    requires IsRun(r) && k < |r.acts| && u != ""
    requires Holds(r.states[k].disk, w, u) && !Holds(r.states[k + 1].disk, w, u)
    ensures ReleasedAt(r, k, w, u)
  {
    InvHolds(r, k);
    StepIsDurable(r.states[k], r.acts[k], w, u);
  }

  /** Durability: over any stretch of any run, across any number of boots and crashes, a file
      naming a uuid is gone at the end only if some step in between released it. */
  lemma {:induction false} Durability(r: Run, i: nat, j: nat, w: nat, u: string)
    requires IsRun(r) && i <= j < |r.states| && u != ""
    requires Holds(r.states[i].disk, w, u) && !Holds(r.states[j].disk, w, u)
    ensures exists k | i <= k < j :: ReleasedAt(r, k, w, u)
    decreases j
  {
    if Holds(r.states[j - 1].disk, w, u) {
      RunStepIsDurable(r, j - 1, w, u);
    } else {
      Durability(r, i, j - 1, w, u);
    }
  }

  // --- isolation ---

  predicate ByHandler(a: Action) {
    a.Receive? || a.Expire? || a.Accept? || a.Start? || a.Write? || a.WriteFail? || a.Systemctl?
    || a.Delete? || a.PublishFailed? || a.PublishRefusal? || a.Cancel?
  }

  predicate RemovesFile(a: Action) { a.Remove? || a.RemoveDoomed? }

  /** Claim isolation in every run: the scan never selects the main file, no handler step
      touches a file the publisher owns or has claimed, and no publisher removal touches the
      main file. */
  lemma ClaimIsolation(r: Run, i: nat)
    requires IsRun(r) && i < |r.acts|
    ensures var s, a, t := r.states[i], r.acts[i], r.states[i + 1];
      && (forall e | e in Owned(t.publisher) :: e.path != MAIN)
      && (ByHandler(a) ==>
            && t.publisher == s.publisher && t.doomed == s.doomed
            && forall p | IsInflight(p) :: (p in t.disk <==> p in s.disk) && (p in s.disk ==> t.disk[p] == s.disk[p]))
      && (RemovesFile(a) ==>
            (MAIN in t.disk <==> MAIN in s.disk) && (MAIN in s.disk ==> t.disk[MAIN] == s.disk[MAIN]))
  {
    InvHolds(r, i);
    InvHolds(r, i + 1);
    OwnsNoMain(r.states[i + 1]);
    if ByHandler(r.acts[i]) { HandlerLeavesInflight(r.states[i], r.acts[i]); }
    if RemovesFile(r.acts[i]) { RemovalLeavesMain(r.states[i], r.acts[i]); }
  }

  lemma OwnsNoMain(s: State)
    requires Inv(s)
    ensures forall e | e in Owned(s.publisher) :: e.path != MAIN
  {
    forall e | e in Owned(s.publisher) ensures e.path != MAIN { assert OwnsFile(s, e); }
  }

  lemma HandlerLeavesInflight(s: State, a: Action)
    requires Enabled(s, a) && ByHandler(a)
    ensures Next(s, a).publisher == s.publisher && Next(s, a).doomed == s.doomed
    ensures forall p | IsInflight(p) ::
              (p in Next(s, a).disk <==> p in s.disk) && (p in s.disk ==> Next(s, a).disk[p] == s.disk[p])
  {
  }

  lemma RemovalLeavesMain(s: State, a: Action)
    requires Inv(s) && Enabled(s, a) && RemovesFile(a)
    ensures MAIN in Next(s, a).disk <==> MAIN in s.disk
    ensures MAIN in s.disk ==> Next(s, a).disk[MAIN] == s.disk[MAIN]
  {
    if a.Remove? { assert OwnsFile(s, s.publisher.todo[0]); }
  }

  /** Nothing orders the tasks: what the handler may do depends on the handler alone, what the
      publisher may do on the publisher and the files alone, and a crash may fall anywhere. */
  lemma TasksInterleave(s: State, t: State, a: Action)
    ensures Enabled(s, Crash(false))
    ensures ByHandler(a) && s.handler == t.handler ==> (Enabled(s, a) <==> Enabled(t, a))
    ensures !ByHandler(a) && !a.Crash? && s.publisher == t.publisher && s.disk == t.disk && s.doomed == t.doomed ==>
              (Enabled(s, a) <==> Enabled(t, a))
  {
  }

  // --- progress ---

  /** No failure of the publisher's own operations, no give-up and no crash. */
  predicate Undisturbed(a: Action) {
    match a
    case ScanFail => false
    case ClaimFail => false
    case ReadClaimed(ok) => ok
    case GiveUp => false
    case PublishStatus(ok) => ok
    case PublishResult(ok) => ok
    case Remove(ok) => ok
    case Crash(_) => false
    case _ => true
  }

  /** The publisher has the file in hand. */
  ghost predicate InHand(s: State, p: string) {
    (s.publisher.Reading? && p == s.publisher.scratch) || exists e | e in Owned(s.publisher) :: e.path == p
  }

  /** Nothing that names a uuid has slipped out of the publisher's hands. */
  ghost predicate AllInHand(s: State) {
    && (s.publisher.Publishing? ==> s.publisher.todo != [] && (s.publisher.stage.AtResult? ==> s.publisher.stage.statusOk))
    && (s.publisher.Waiting? ==> s.publisher.entries != [])
    && (!s.publisher.Scanning? ==>
          forall p | p in s.disk && IsInflight(p) && UuidIn(s.disk[p]) != "" :: InHand(s, p))
  }

  lemma CollectingKeepsInHand(s: State, a: Action, p: string)
    requires Inv(s) && AllInHand(s) && Enabled(s, a) && Undisturbed(a) && !Next(s, a).publisher.Scanning?
    requires a.Scan? || a.ClaimNothing? || a.Claim? || a.ReadClaimed?
    requires p in Next(s, a).disk && IsInflight(p) && UuidIn(Next(s, a).disk[p]) != ""
    ensures InHand(Next(s, a), p)
  {
    match a
    case Scan(listing) =>
      assert p in listing;
      var i :| 0 <= i < |listing| && listing[i] == p;
      assert Read(listing, s.disk)[i] in Owned(Next(s, a).publisher);
    case ClaimNothing =>
      var e :| e in s.publisher.entries && e.path == p;
      assert OwnsFile(s, e);
    case ReadClaimed(ok) => ReadingKeepsInHand(s, p);
    case Claim(scratch) =>
      if p != scratch {
        assert p in s.disk && InHand(s, p);
      }
  }

  lemma ReadingKeepsInHand(s: State, p: string)
    requires Inv(s) && AllInHand(s) && s.publisher.Reading?
    requires p in s.disk && IsInflight(p) && UuidIn(s.disk[p]) != ""
    ensures InHand(Next(s, ReadClaimed(true)), p)
  {
    var claimed := Entry(s.publisher.scratch, UuidIn(s.disk[s.publisher.scratch]));
    var all := s.publisher.entries + [claimed];
    if p == s.publisher.scratch {
      KeptInHand(s, all, claimed);
    } else {
      var e :| e in s.publisher.entries && e.path == p;
      assert OwnsFile(s, e);
      KeptInHand(s, all, e);
    }
  }

  lemma KeptInHand(s: State, entries: seq<Entry>, e: Entry)
    requires e in entries && e.uuid != ""
    ensures InHand(Settle(s, entries), e.path)
  {
    assert e in Named(entries);
  }

  lemma RemovingKeepsInHand(s: State, p: string)
    requires Inv(s) && AllInHand(s) && Enabled(s, Remove(true))
    requires p in Next(s, Remove(true)).disk && IsInflight(p) && UuidIn(s.disk[p]) != ""
    ensures InHand(Next(s, Remove(true)), p)
  {
    var e :| e in s.publisher.todo && e.path == p;
    assert e != s.publisher.todo[0];
    assert e in s.publisher.todo[1..];
  }

  lemma OthersKeepInHand(s: State, a: Action, p: string)
    requires Inv(s) && AllInHand(s) && Enabled(s, a) && Undisturbed(a) && !Next(s, a).publisher.Scanning?
    requires !(a.Scan? || a.ClaimNothing? || a.Claim? || a.ReadClaimed? || a.Remove?)
    requires p in Next(s, a).disk && IsInflight(p) && UuidIn(Next(s, a).disk[p]) != ""
    ensures InHand(Next(s, a), p)
  {
    assert p in s.disk && UuidIn(s.disk[p]) != "";
    assert InHand(s, p);
  }

  lemma UndisturbedKeeps(s: State, a: Action)
    requires Inv(s) && AllInHand(s) && Enabled(s, a) && Undisturbed(a)
    ensures AllInHand(Next(s, a))
  {
    var t := Next(s, a);
    if !t.publisher.Scanning? {
      forall p | p in t.disk && IsInflight(p) && UuidIn(t.disk[p]) != "" ensures InHand(t, p) {
        if a.Scan? || a.ClaimNothing? || a.Claim? || a.ReadClaimed? {
          CollectingKeepsInHand(s, a, p);
        } else if a.Remove? {
          RemovingKeepsInHand(s, p);
        } else {
          OthersKeepInHand(s, a, p);
        }
      }
    }
  }

  /** Progress: if from a boot's start nothing disturbs the publisher and it has finished,
      then every in-flight file that named a uuid at any moment of that stretch has its two
      publishes logged as Ok in this boot, no in-flight file left on the disk names a uuid,
      and no publish was ever made for a file without one. */
  lemma Progress(r: Run, i: nat, m: nat, j: nat, p: string)
    requires IsRun(r) && i <= m <= j < |r.states|
    requires r.states[i].publisher.Scanning? && r.states[j].publisher.Finished?
    requires forall k | i <= k < j :: Undisturbed(r.acts[k])
    requires IsInflight(p) && p in r.states[m].disk && UuidIn(r.states[m].disk[p]) != ""
    ensures forall q | q in r.states[j].disk && IsInflight(q) :: UuidIn(r.states[j].disk[q]) == ""
    ensures Delivered(r.states[j].log, r.states[i].boot, p, UuidIn(r.states[m].disk[p]))
    ensures forall a | a in r.states[j].log && a.source.Publisher? :: a.uuid != ""
  {
    InHandThroughout(r, i, j);
    InvHolds(r, j);
    LeavesDelivered(r, i, m, j, p, r.states[m].disk[p]);
  }

  predicate IsDiscarded(s: State, p: string) { p in s.doomed || p !in s.disk }

  /** An in-flight file without a uuid is still to be read or settled, or on its way out. */
  ghost predicate EmptyTracked(s: State, p: string) {
    IsInflight(p)
    && match s.publisher
       case Scanning => p in s.disk && UuidIn(s.disk[p]) == ""
       case Claiming(entries) => p in s.disk && Entry(p, "") in entries
       case Reading(entries, _) => p in s.disk && Entry(p, "") in entries
       case _ => IsDiscarded(s, p)
  }

  /** No failure of a background removal either. */
  predicate Unfailing(a: Action) { Undisturbed(a) && (a.RemoveDoomed? ==> a.ok) }

  lemma ScanTracksEmpty(s: State, listing: seq<string>, p: string)
    requires Inv(s) && Enabled(s, Scan(listing)) && EmptyTracked(s, p)
    ensures EmptyTracked(Next(s, Scan(listing)), p)
  {
    assert p in listing;
    var i :| 0 <= i < |listing| && listing[i] == p;
    assert Read(listing, s.disk)[i] == Entry(p, "");
  }

  lemma SettleDiscards(s: State, entries: seq<Entry>, p: string)
    requires Entry(p, "") in entries
    ensures p in Settle(s, entries).doomed
  {
  }

  lemma StepTracksEmpty(s: State, a: Action, p: string)
    requires Inv(s) && Enabled(s, a) && Unfailing(a) && EmptyTracked(s, p)
    ensures EmptyTracked(Next(s, a), p)
  {
    match a
    case Scan(listing) => ScanTracksEmpty(s, listing, p);
    case ClaimNothing => SettleDiscards(s, s.publisher.entries, p);
    case ReadClaimed(_) =>
      var scratch := s.publisher.scratch;
      SettleDiscards(s, s.publisher.entries + [Entry(scratch, UuidIn(s.disk[scratch]))], p);
    case _ =>
  }

  lemma {:induction false} EmptyTrackedThroughout(r: Run, i: nat, j: nat, p: string)
    requires IsRun(r) && i <= j < |r.states| && EmptyTracked(r.states[i], p)
    requires forall k | i <= k < j :: Unfailing(r.acts[k])
    ensures EmptyTracked(r.states[j], p)
    decreases j
  {
    if i < j {
      EmptyTrackedThroughout(r, i, j - 1, p);
      InvHolds(r, j - 1);
      StepTracksEmpty(r.states[j - 1], r.acts[j - 1], p);
    }
  }

  /** Discarding: an in-flight file without a uuid that is on the disk at the scan of a boot in
      which nothing fails is, once the publisher has finished, handed to background removal or
      gone. */
  lemma EmptyFilesAreDiscarded(r: Run, i: nat, j: nat, p: string)
    requires IsRun(r) && i <= j < |r.states|
    requires r.states[i].publisher.Scanning? && r.states[j].publisher.Finished?
    requires forall k | i <= k < j :: Unfailing(r.acts[k])
    requires IsInflight(p) && p in r.states[i].disk && UuidIn(r.states[i].disk[p]) == ""
    ensures IsDiscarded(r.states[j], p)
  {
    EmptyTrackedThroughout(r, i, j, p);
  }

  predicate BeforeClaim(ph: PublisherPhase) { ph.Scanning? || ph.Claiming? }

  predicate ChangesMain(a: Action) {
    a.Write? || (a.WriteFail? && a.torn) || (a.Delete? && a.ok)
  }

  /** Progress of the main file: if the handler leaves the main file alone until the claim,
      the uuid it named at the boot's start is delivered from a claimed file. */
  lemma ProgressOfMain(r: Run, i: nat, j: nat)
    requires IsRun(r) && i <= j < |r.states|
    requires r.states[i].publisher.Scanning? && r.states[j].publisher.Finished?
    requires forall k | i <= k < j :: Undisturbed(r.acts[k])
    requires forall k {:trigger r.acts[k]} | i <= k < j :: BeforeClaim(r.states[k].publisher) ==> !ChangesMain(r.acts[k])
    requires MAIN in r.states[i].disk && UuidIn(r.states[i].disk[MAIN]) != ""
    ensures exists p | IsInflight(p) ::
              Delivered(r.states[j].log, r.states[i].boot, p, UuidIn(r.states[i].disk[MAIN]))
    ensures !Holds(r.states[j].disk, r.states[i].disk[MAIN].write, UuidIn(r.states[i].disk[MAIN]))
  {
    var f := r.states[i].disk[MAIN];
    MainReaches(r, i, j, f);
    InHandThroughout(r, i, j);
    InvHolds(r, j);
    PathsKnown(r, j);
    var p :| IsInflight(p) && InFlightOrDelivered(r.states[j], r.states[i].boot, p, f);
    assert p in r.states[j].disk ==> UuidIn(r.states[j].disk[p]) == "";
  }

  /** Every file of the env directory is the main file or an in-flight one. */
  lemma {:induction false} PathsKnown(r: Run, i: nat)
    requires IsRun(r) && i < |r.states|
    ensures forall p | p in r.states[i].disk :: p == MAIN || IsInflight(p)
  {
    if i > 0 {
      PathsKnown(r, i - 1);
      var a := r.acts[i - 1];
    }
  }

  ghost predicate InFlightOrDelivered(s: State, boot: nat, p: string, f: File) {
    (p in s.disk && s.disk[p] == f) || Delivered(s.log, boot, p, UuidIn(f))
  }

  /** The write is over and its product is not, or no longer, the main file. */
  predicate OffMain(s: State, w: nat) {
    w < s.writes && (MAIN in s.disk ==> s.disk[MAIN].write != w)
  }

  /** Until the claim the main file is as it was; afterwards it is in flight or delivered, and
      never the main file again. */
  ghost predicate MainTracked(s: State, boot: nat, f: File) {
    if BeforeClaim(s.publisher) then MAIN in s.disk && s.disk[MAIN] == f
    else OffMain(s, f.write) && exists p | IsInflight(p) :: InFlightOrDelivered(s, boot, p, f)
  }

  lemma StaysOffMain(s: State, a: Action, w: nat)
    requires Inv(s) && Enabled(s, a) && OffMain(s, w) && !a.Claim?
    ensures OffMain(Next(s, a), w)
  {
    if RemovesFile(a) { RemovalLeavesMain(s, a); }
  }

  lemma {:induction false} MainReaches(r: Run, i: nat, j: nat, f: File)
    requires IsRun(r) && i <= j < |r.states| && r.states[i].publisher.Scanning?
    requires forall k | i <= k < j :: Undisturbed(r.acts[k])
    requires forall k {:trigger r.acts[k]} | i <= k < j :: BeforeClaim(r.states[k].publisher) ==> !ChangesMain(r.acts[k])
    requires MAIN in r.states[i].disk && r.states[i].disk[MAIN] == f && UuidIn(f) != ""
    ensures MainTracked(r.states[j], r.states[i].boot, f)
    decreases j
  {
    if i < j {
      MainReaches(r, i, j - 1, f);
      InHandThroughout(r, i, j - 1);
      MainStays(r, j - 1, f);
    }
  }

  lemma MainStays(r: Run, k: nat, f: File)
    requires IsRun(r) && k < |r.acts| && Undisturbed(r.acts[k]) && UuidIn(f) != ""
    requires BeforeClaim(r.states[k].publisher) ==> !ChangesMain(r.acts[k])
    requires MainTracked(r.states[k], r.states[k].boot, f)
    ensures MainTracked(r.states[k + 1], r.states[k].boot, f)
  {
    var s, a := r.states[k], r.acts[k];
    InvHolds(r, k);
    if BeforeClaim(s.publisher) {
      if a.Claim? { assert InFlightOrDelivered(Next(s, a), s.boot, a.scratch, f); }
    } else {
      var p :| IsInflight(p) && InFlightOrDelivered(s, s.boot, p, f);
      RunLeavesDelivered(r, k, p, f);
      StaysOffMain(s, a, f.write);
    }
  }

  lemma {:induction false} InHandThroughout(r: Run, i: nat, j: nat)
    requires IsRun(r) && i <= j < |r.states| && r.states[i].publisher.Scanning?
    requires forall k | i <= k < j :: Undisturbed(r.acts[k])
    ensures AllInHand(r.states[j]) && r.states[j].boot == r.states[i].boot
  {
    if i < j {
      InHandThroughout(r, i, j - 1);
      InvHolds(r, j - 1);
      UndisturbedKeeps(r.states[j - 1], r.acts[j - 1]);
    }
  }

  /** In one boot an in-flight file naming a uuid disappears only after its delivery. */
  lemma {:induction false} LeavesDelivered(r: Run, i: nat, m: nat, j: nat, p: string, f: File)
    requires IsRun(r) && i <= m <= j < |r.states| && r.states[i].publisher.Scanning?
    requires forall k | i <= k < j :: Undisturbed(r.acts[k])
    requires IsInflight(p) && p in r.states[m].disk && r.states[m].disk[p] == f && UuidIn(f) != ""
    ensures InFlightOrDelivered(r.states[j], r.states[i].boot, p, f)
    decreases j
  {
    if m < j {
      LeavesDelivered(r, i, m, j - 1, p, f);
      InHandThroughout(r, i, j - 1);
      RunLeavesDelivered(r, j - 1, p, f);
    }
  }

  lemma RunLeavesDelivered(r: Run, k: nat, p: string, f: File)
    requires IsRun(r) && k < |r.acts| && Undisturbed(r.acts[k]) && IsInflight(p) && UuidIn(f) != ""
    requires InFlightOrDelivered(r.states[k], r.states[k].boot, p, f)
    ensures InFlightOrDelivered(r.states[k + 1], r.states[k].boot, p, f)
  {
    InvHolds(r, k);
    StepLeavesDelivered(r.states[k], r.acts[k], p, f);
  }

  lemma StepLeavesDelivered(s: State, a: Action, p: string, f: File)
    requires Inv(s) && Enabled(s, a) && Undisturbed(a) && IsInflight(p) && UuidIn(f) != ""
    requires InFlightOrDelivered(s, s.boot, p, f)
    ensures InFlightOrDelivered(Next(s, a), s.boot, p, f)
  {
    DeliveredGrows(s, Next(s, a));
    if a.Remove? { assert OwnsFile(s, s.publisher.todo[0]); }
  }
}
