/** The publish attempts a self-restart uuid can ever receive, across boots. */
module RestartLifecycle {
  import opened Text
  import opened RestartProtocol
  import opened RestartSafety

  /** The attempts about one uuid, in order. */
  function About(log: seq<Attempt>, u: string): (l: seq<Attempt>)
    ensures |l| <= |log|
  {
    if log == [] then []
    else
      var last := log[|log| - 1];
      var before := About(log[..|log| - 1], u);
      if last.uuid == u then before + [last] else before
  }

  lemma AboutAppend(log: seq<Attempt>, a: Attempt, u: string)
    ensures About(log + [a], u) == if a.uuid == u then About(log, u) + [a] else About(log, u)
  {
    assert (log + [a])[..|log|] == log;
  }

  /** Which attempt may come directly after which. */
  predicate Follows(p: Attempt, n: Attempt) {
    match n.kind
    case Expired => false
    case Accepted => false
    case InProgress => p.kind == Accepted && n.boot == p.boot
    case Failed => p.kind == InProgress && n.boot == p.boot
    case ResultFail => p.kind == Failed && n.boot == p.boot
    case Completed => (p.kind == InProgress || p.kind == Completed || p.kind == ResultOk) && p.boot < n.boot
    case ResultOk => p.kind == Completed && n.boot == p.boot
  }

  predicate Legal(l: seq<Attempt>) {
    if l == [] then true
    else if |l| == 1 then l[0].kind == Accepted || l[0].kind == Expired
    else Legal(l[..|l| - 1]) && Follows(l[|l| - 2], l[|l| - 1])
  }

  // --- what the discipline asks of a run ---

  /** The file is one that the publisher would report as `u`; it reports nothing for blank ones. */
  predicate Names(d: Disk, p: string, u: string) { u != "" && p in d && UuidIn(d[p]) == u }

  /** What a step must respect for the history of one uuid.  Other uuids matter only to the
      write, when they differ from `u` by surrounding white space alone. */
  ghost predicate Disciplined(s: State, a: Action, u: string)
    requires Enabled(s, a)
  {
    match a
    case Receive(v) => v == u ==> About(s.log, u) == []
    case Write => u != "" && Trim(s.handler.uuid) == u ==> MayBeWritten(s, u, About(s.log, u))
    case Delete(ok) => s.handler.uuid == u && Names(s.disk, MAIN, u) ==> ok
    case _ => true
  }

  /** A completion of `u` may follow: it is due, no other file will report it too, and it is not
      reported in the boot that last reported about it. */
  ghost predicate MayBeWritten(s: State, u: string, l: seq<Attempt>) {
    && Deferred(l)
    && (forall p :: Names(s.disk, p, u) ==> p == MAIN)
    && (BeforeClaim(s.publisher) ==> l[|l| - 1].boot < s.boot)
  }

  ghost predicate IsDisciplined(r: Run, u: string) {
    IsRun(r) && forall i {:trigger r.acts[i]} | 0 <= i < |r.acts| :: Disciplined(r.states[i], r.acts[i], u)
  }

  // --- the invariant for one uuid ---

  predicate Handles(h: Handler, u: string) { !h.Idle? && h.uuid == u }

  /** The path still has its status publish of this boot ahead of it. */
  predicate Pending(ph: PublisherPhase, p: string) {
    match ph
    case Scanning => true
    case Claiming(_) => true
    case Reading(entries, scratch) => p == scratch || exists e | e in entries :: e.path == p
    case Waiting(entries) => exists e | e in entries :: e.path == p
    case Publishing(todo, stage) =>
      todo != [] && ((stage.AtStatus? && todo[0].path == p) || exists e | e in todo[1..] :: e.path == p)
    case Finished => false
  }

  predicate Deferred(l: seq<Attempt>) {
    l != [] && var k := l[|l| - 1].kind; k == InProgress || k == Completed || k == ResultOk
  }

  predicate EndsWithNow(l: seq<Attempt>, kind: Kind, boot: nat) {
    l != [] && l[|l| - 1].kind == kind && l[|l| - 1].boot == boot
  }

  /** Only the main file may name the uuid, and then the claim of this boot is over. */
  ghost predicate OnlyOnMain(s: State, u: string) {
    forall p :: Names(s.disk, p, u) ==> p == MAIN && !BeforeClaim(s.publisher)
  }

  /** The handler's position agrees with what was attempted and with what is on the disk. */
  ghost predicate HandlerAgrees(s: State, u: string, l: seq<Attempt>) {
    Handles(s.handler, u) ==>
      match s.handler
      case Idle => true
      case Got(_) => l == [] && forall p :: !Names(s.disk, p, u)
      case Acknowledged(_) => EndsWithNow(l, Accepted, s.boot) && forall p :: !Names(s.disk, p, u)
      case Executing(_) => EndsWithNow(l, InProgress, s.boot) && forall p :: !Names(s.disk, p, u)
      case Failing(_) => EndsWithNow(l, InProgress, s.boot) && forall p :: !Names(s.disk, p, u)
      case Refused(_) => EndsWithNow(l, Kind.Failed, s.boot) && forall p :: !Names(s.disk, p, u)
      case Wrote(_) => EndsWithNow(l, InProgress, s.boot) && OnlyOnMain(s, u)
      case Deleting(_) => EndsWithNow(l, InProgress, s.boot) && OnlyOnMain(s, u)
      case Parked(_) => EndsWithNow(l, InProgress, s.boot) && OnlyOnMain(s, u)
  }

  ghost predicate FilesAgree(s: State, u: string, l: seq<Attempt>) {
    && (forall p, q :: Names(s.disk, p, u) && Names(s.disk, q, u) ==> p == q)
    && (forall p :: Names(s.disk, p, u) ==> Deferred(l))
    && (forall p :: Names(s.disk, p, u) && Pending(s.publisher, p) ==> l != [] && l[|l| - 1].boot < s.boot)
  }

  ghost predicate StageAgrees(s: State, u: string, l: seq<Attempt>) {
    (s.publisher.Publishing? && s.publisher.todo != [] && s.publisher.stage.AtResult?
     && s.publisher.todo[0].uuid == u) ==> EndsWithNow(l, Completed, s.boot)
  }

  ghost predicate UuidInv(s: State, u: string) {
    var l := About(s.log, u);
    && Legal(l)
    && (l != [] ==> l[|l| - 1].boot <= s.boot)
    && HandlerAgrees(s, u, l)
    && FilesAgree(s, u, l)
    && StageAgrees(s, u, l)
  }

  /** Which publish the handler makes from where it is, and where that takes it. */
  predicate HandlerPublishes(from: Handler, kind: Kind, to: Handler) {
    && (to.Idle? || (!from.Idle? && to.uuid == from.uuid))
    && match from
       case Got(_) => (kind == Expired && to.Idle?) || (kind == Accepted && to.Acknowledged?)
       case Acknowledged(_) => kind == InProgress && to.Executing?
       case Failing(_) => kind == Kind.Failed && to.Refused?
       case Refused(_) => kind == ResultFail && to.Idle?
       case _ => false
  }

  lemma OwnPublishFollows(s: State, kind: Kind, to: Handler, u: string, l: seq<Attempt>, a: Attempt)
    requires HandlerAgrees(s, u, l) && Handles(s.handler, u) && HandlerPublishes(s.handler, kind, to)
    requires Legal(l) && a.kind == kind && a.boot == s.boot
    ensures Legal(l + [a])
    ensures forall p :: !Names(s.disk, p, u)
    ensures !EndsWithNow(l, Completed, s.boot)
  {
  }

  lemma OwnPublishAgrees(s: State, kind: Kind, to: Handler, u: string, l: seq<Attempt>, a: Attempt)
    requires HandlerAgrees(s, u, l) && Handles(s.handler, u) && HandlerPublishes(s.handler, kind, to)
    requires a.kind == kind && a.boot == s.boot
    ensures HandlerAgrees(s.(handler := to), u, l + [a])
  {
  }

  lemma OwnPublishKeeps(s: State, to: Handler, kind: Kind, ok: bool, u: string)
    requires UuidInv(s, u) && Handles(s.handler, u) && HandlerPublishes(s.handler, kind, to)
    ensures UuidInv(s.(handler := to, log := Log(s, Processor, u, kind, ok)), u)
  {
    var last := Attempt(s.boot, Processor, u, kind, ok);
    var l, t := About(s.log, u), s.(handler := to, log := s.log + [last]);
    AboutAppend(s.log, last, u);
    OwnPublishFollows(s, kind, to, u, l, last);
    OwnPublishAgrees(s, kind, to, u, l, last);
    assert FilesAgree(t, u, l + [last]) && StageAgrees(t, u, l + [last]);
  }

  /** The handler publishes `kind`: nothing else changes but its own position. */
  lemma HandlerPublishKeeps(s: State, to: Handler, kind: Kind, ok: bool, u: string)
    requires UuidInv(s, u) && !s.handler.Idle? && HandlerPublishes(s.handler, kind, to)
    ensures UuidInv(s.(handler := to, log := Log(s, Processor, s.handler.uuid, kind, ok)), u)
  {
    if s.handler.uuid == u {
      OwnPublishKeeps(s, to, kind, ok, u);
    } else {
      AboutAppend(s.log, Attempt(s.boot, Processor, s.handler.uuid, kind, ok), u);
    }
  }

  lemma WriteNames(d: Disk, h: string, n: nat, u: string)
    ensures forall p :: Names(d[MAIN := File(h + "\n", n)], p, u)
                        <==> if p == MAIN then u != "" && Trim(h) == u else Names(d, p, u)
  {
    TrimNewline(h);
    var e := d[MAIN := File(h + "\n", n)];
    assert UuidIn(e[MAIN]) == Trim(h);
    forall p ensures Names(e, p, u) <==> if p == MAIN then u != "" && Trim(h) == u else Names(d, p, u) {
      assert p != MAIN ==> (p in e <==> p in d);
    }
  }

  lemma WriteKeeps(s: State, d: Disk, n: nat, u: string)
    requires UuidInv(s, u) && Enabled(s, Write) && Disciplined(s, Write, u)
    requires forall p :: Names(d, p, u) <==> if p == MAIN then u != "" && Trim(s.handler.uuid) == u else Names(s.disk, p, u)
    requires !BeforeClaim(s.publisher) ==> !Pending(s.publisher, MAIN)
    ensures UuidInv(s.(disk := d, writes := n, handler := Wrote(s.handler.uuid)), u)
  {
    var l, t := About(s.log, u), s.(disk := d, writes := n, handler := Wrote(s.handler.uuid));
    assert FilesAgree(t, u, l);
    assert HandlerAgrees(t, u, l);
  }

  /** The main file is emptied or removed, or nothing happens to it. */
  lemma LosesMain(s: State, d: Disk, n: nat, h: Handler, u: string)
    requires UuidInv(s, u)
    requires d == s.disk || d == s.disk - {MAIN} || (MAIN in d && d[MAIN].text == "" && d - {MAIN} == s.disk - {MAIN})
    requires h.Idle? || (!s.handler.Idle? && h.uuid == s.handler.uuid)
    requires match s.handler
             case Executing(_) => h.Failing? || h.Idle?
             case Wrote(_) => h.Idle? || ((h.Deleting? || h.Parked?) && d == s.disk)
             case Deleting(_) => h.Idle? || (h.Failing? && (h.uuid == u ==> !Names(d, MAIN, u)))
             case Parked(_) => h.Idle?
             case _ => false
    ensures UuidInv(s.(disk := d, writes := n, handler := h), u)
  {
    assert forall p :: Names(d, p, u) ==> Names(s.disk, p, u) by {
      forall p | Names(d, p, u) ensures Names(s.disk, p, u) {
        if p != MAIN { assert p in d - {MAIN}; }
      }
    }
  }

  /** The publisher moves on without publishing, and files may disappear. */
  lemma PublisherMoves(s: State, d: Disk, ph: PublisherPhase, doomed: set<string>, u: string)
    requires UuidInv(s, u)
    requires forall p :: Names(d, p, u) ==> Names(s.disk, p, u)
    requires forall p :: Names(d, p, u) && Pending(ph, p) ==> Pending(s.publisher, p)
    requires BeforeClaim(ph) ==> BeforeClaim(s.publisher)
    requires ph == s.publisher || !(ph.Publishing? && ph.stage.AtResult?)
    ensures UuidInv(s.(disk := d, publisher := ph, doomed := doomed), u)
  {
  }

  lemma SettleMoves(s: State, entries: seq<Entry>, u: string)
    requires UuidInv(s, u)
    requires s.publisher.Claiming?
             || (s.publisher.Reading? && forall e | e in entries :: e.path == s.publisher.scratch || e in s.publisher.entries)
    ensures UuidInv(Settle(s, entries), u)
  {
    var t := Settle(s, entries);
    PublisherMoves(s, s.disk, t.publisher, t.doomed, u);
  }

  lemma ClaimKeeps(s: State, scratch: string, u: string)
    requires UuidInv(s, u) && Enabled(s, Claim(scratch))
    ensures UuidInv(Next(s, Claim(scratch)), u)
  {
    var d := Rename(s.disk, MAIN, scratch);
    forall p ensures Names(d, p, u) <==> if p == scratch then Names(s.disk, MAIN, u) else p != MAIN && Names(s.disk, p, u) {
      assert p != scratch && p != MAIN ==> (p in d <==> p in s.disk);
    }
  }

  /** What the structural invariant says about the entry being published. */
  ghost predicate Current(s: State, e: Entry) {
    && s.publisher.Publishing? && s.publisher.todo != [] && e == s.publisher.todo[0]
    && Names(s.disk, e.path, e.uuid) && e.path != MAIN
    && forall f | f in s.publisher.todo[1..] :: f.path != e.path
  }

  lemma IsCurrent(s: State)
    requires Inv(s) && s.publisher.Publishing? && s.publisher.todo != []
    ensures Current(s, s.publisher.todo[0])
  {
    var todo := s.publisher.todo;
    assert OwnsFile(s, todo[0]);
    forall f | f in todo[1..] ensures f.path != todo[0].path {
      var i :| 0 <= i < |todo| - 1 && todo[1..][i] == f;
      assert todo[i + 1] == f;
    }
  }

  lemma PublishStatusMoves(s: State, e: Entry, ok: bool, u: string)
    requires UuidInv(s, u) && Current(s, e) && s.publisher.stage.AtStatus?
    ensures UuidInv(s.(publisher := Publishing(s.publisher.todo, AtResult(ok)),
                       log := Log(s, Publisher(e.path), e.uuid, Completed, ok)), u)
  {
    var a := Attempt(s.boot, Publisher(e.path), e.uuid, Completed, ok);
    AboutAppend(s.log, a, u);
    if e.uuid == u {
      OwnCompletedFollows(s, e, u, About(s.log, u), a);
    }
  }

  lemma OwnCompletedFollows(s: State, e: Entry, u: string, l: seq<Attempt>, a: Attempt)
    requires HandlerAgrees(s, u, l) && FilesAgree(s, u, l) && Legal(l) && Current(s, e) && s.publisher.stage.AtStatus?
    requires e.uuid == u && a.kind == Completed && a.boot == s.boot
    ensures Legal(l + [a]) && !Handles(s.handler, u)
  {
    assert Names(s.disk, e.path, u) && Pending(s.publisher, e.path);
  }

  lemma PublishResultMoves(s: State, e: Entry, ph: PublisherPhase, ok: bool, u: string)
    requires UuidInv(s, u) && Current(s, e) && s.publisher.stage.AtResult?
    requires ph == Publishing(s.publisher.todo, AtRemove) || ph == Advance(s.publisher.todo)
    ensures UuidInv(s.(publisher := ph, log := Log(s, Publisher(e.path), e.uuid, ResultOk, ok)), u)
  {
    var a := Attempt(s.boot, Publisher(e.path), e.uuid, ResultOk, ok);
    AboutAppend(s.log, a, u);
    if e.uuid == u {
    }
    ResultEndsPending(s, e, ph);
  }

  lemma ResultEndsPending(s: State, e: Entry, ph: PublisherPhase)
    requires Current(s, e) && s.publisher.stage.AtResult?
    requires ph == Publishing(s.publisher.todo, AtRemove) || ph == Advance(s.publisher.todo)
    ensures forall p :: Pending(ph, p) ==> Pending(s.publisher, p) && p != e.path
  {
  }

  lemma CrashKeeps(s: State, d: Disk, n: nat, u: string)
    requires UuidInv(s, u)
    requires forall p :: Names(d, p, u) ==> Names(s.disk, p, u)
    ensures UuidInv(s.(disk := d, writes := n, boot := s.boot + 1, handler := Idle, publisher := Scanning, doomed := {}), u)
  {
  }

  /** The handler receives a command or publishes about it. */
  predicate IsExchange(a: Action) {
    a.Receive? || a.Expire? || a.Accept? || a.Start? || a.PublishFailed? || a.PublishRefusal?
  }

  lemma ExchangeKeeps(s: State, a: Action, u: string)
    requires UuidInv(s, u) && Enabled(s, a) && Disciplined(s, a, u) && IsExchange(a)
    ensures UuidInv(Next(s, a), u)
  {
    match a
    case Expire(ok) => HandlerPublishKeeps(s, Idle, Kind.Expired, ok, u);
    case Accept(ok) => HandlerPublishKeeps(s, Acknowledged(s.handler.uuid), Accepted, ok, u);
    case Start(ok) => HandlerPublishKeeps(s, Executing(s.handler.uuid), InProgress, ok, u);
    case PublishFailed(ok) => HandlerPublishKeeps(s, Refused(s.handler.uuid), Kind.Failed, ok, u);
    case PublishRefusal(ok) => HandlerPublishKeeps(s, Idle, ResultFail, ok, u);
    case _ =>
  }

  lemma WriteStepKeeps(s: State, u: string)
    requires Inv(s) && UuidInv(s, u) && Enabled(s, Write) && Disciplined(s, Write, u)
    ensures UuidInv(Next(s, Write), u)
  {
    WriteNames(s.disk, s.handler.uuid, s.writes, u);
    OwnsNoMain(s);
    WriteKeeps(s, Next(s, Write).disk, Next(s, Write).writes, u);
  }

  lemma HandlerStepKeeps(s: State, a: Action, u: string)
    requires Inv(s) && UuidInv(s, u) && Enabled(s, a) && Disciplined(s, a, u) && ByHandler(a)
    ensures UuidInv(Next(s, a), u)
  {
    if IsExchange(a) {
      ExchangeKeeps(s, a, u);
    } else if a.Write? {
      WriteStepKeeps(s, u);
    } else {
      DiskStepKeeps(s, a, u);
    }
  }

  lemma DiskStepKeeps(s: State, a: Action, u: string)
    requires UuidInv(s, u) && Enabled(s, a) && Disciplined(s, a, u)
    requires a.WriteFail? || a.Systemctl? || a.Delete? || a.Cancel?
    ensures UuidInv(Next(s, a), u)
  {
    match a
    case WriteFail(torn) => LosesMain(s, Next(s, a).disk, Next(s, a).writes, Failing(s.handler.uuid), u);
    case Systemctl(accepted) => LosesMain(s, s.disk, s.writes, Next(s, a).handler, u);
    case Delete(ok) => LosesMain(s, Next(s, a).disk, s.writes, Failing(s.handler.uuid), u);
    case Cancel => LosesMain(s, s.disk, s.writes, Idle, u);
  }

  lemma CollectStepKeeps(s: State, a: Action, u: string)
    requires Inv(s) && UuidInv(s, u) && Enabled(s, a)
    requires a.Scan? || a.ScanFail? || a.Claim? || a.ClaimNothing? || a.ClaimFail? || a.ReadClaimed?
    ensures UuidInv(Next(s, a), u)
  {
    match a
    case Scan(_) => PublisherMoves(s, s.disk, Next(s, a).publisher, s.doomed, u);
    case ScanFail => PublisherMoves(s, s.disk, Claiming([]), s.doomed, u);
    case Claim(scratch) => ClaimKeeps(s, scratch, u);
    case ClaimNothing => SettleMoves(s, s.publisher.entries, u);
    case ClaimFail => SettleMoves(s, s.publisher.entries, u);
    case ReadClaimed(ok) =>
      var scratch := s.publisher.scratch;
      SettleMoves(s, if ok then s.publisher.entries + [Entry(scratch, UuidIn(s.disk[scratch]))] else s.publisher.entries, u);
  }

  lemma PublishStepKeeps(s: State, a: Action, u: string)
    requires Inv(s) && UuidInv(s, u) && Enabled(s, a)
    requires a.Connected? || a.GiveUp? || a.PublishStatus? || a.PublishResult? || a.Remove?
    ensures UuidInv(Next(s, a), u)
  {
    match a
    case Connected => ConnectedKeeps(s, u);
    case GiveUp => PublisherMoves(s, s.disk, Finished, s.doomed, u);
    case PublishStatus(ok) => PublishStatusKeeps(s, ok, u);
    case PublishResult(ok) => PublishResultKeeps(s, ok, u);
    case Remove(ok) => RemoveStepKeeps(s, ok, u);
  }

  lemma ConnectedKeeps(s: State, u: string)
    requires UuidInv(s, u) && Enabled(s, Connected)
    ensures UuidInv(Next(s, Connected), u)
  {
    PublisherMoves(s, s.disk, Publishing(s.publisher.entries, AtStatus), s.doomed, u);
  }

  lemma RemoveStepKeeps(s: State, ok: bool, u: string)
    requires UuidInv(s, u) && Enabled(s, Remove(ok))
    ensures UuidInv(Next(s, Remove(ok)), u)
  {
    var d := if ok then s.disk - {s.publisher.todo[0].path} else s.disk;
    AdvanceEndsPending(s.publisher.todo, s.publisher.stage);
    assert forall p :: Names(d, p, u) ==> Names(s.disk, p, u);
    PublisherMoves(s, d, Advance(s.publisher.todo), s.doomed, u);
  }

  lemma AdvanceEndsPending(todo: seq<Entry>, stage: Stage)
    requires todo != []
    ensures forall p :: Pending(Advance(todo), p) ==> Pending(Publishing(todo, stage), p)
  {
  }

  lemma PublishStatusKeeps(s: State, ok: bool, u: string)
    requires Inv(s) && UuidInv(s, u) && Enabled(s, PublishStatus(ok))
    ensures UuidInv(Next(s, PublishStatus(ok)), u)
  {
    IsCurrent(s);
    PublishStatusMoves(s, s.publisher.todo[0], ok, u);
  }

  lemma PublishResultKeeps(s: State, ok: bool, u: string)
    requires Inv(s) && UuidInv(s, u) && Enabled(s, PublishResult(ok))
    ensures UuidInv(Next(s, PublishResult(ok)), u)
  {
    IsCurrent(s);
    PublishResultMoves(s, s.publisher.todo[0], Next(s, PublishResult(ok)).publisher, ok, u);
  }

  lemma OtherStepKeeps(s: State, a: Action, u: string)
    requires UuidInv(s, u) && Enabled(s, a) && (a.RemoveDoomed? || a.Crash?)
    ensures UuidInv(Next(s, a), u)
  {
    var d := Next(s, a).disk;
    assert Trim("") == "";
    forall p | Names(d, p, u) ensures Names(s.disk, p, u) { }
    match a
    case RemoveDoomed(path, ok) => PublisherMoves(s, d, s.publisher, s.doomed - {path}, u);
    case Crash(torn) => CrashKeeps(s, d, Next(s, a).writes, u);
  }

  lemma UuidStepKeeps(s: State, a: Action, u: string)
    requires Inv(s) && UuidInv(s, u) && Enabled(s, a) && Disciplined(s, a, u)
    ensures UuidInv(Next(s, a), u)
  {
    if ByHandler(a) {
      HandlerStepKeeps(s, a, u);
    } else if a.RemoveDoomed? || a.Crash? {
      OtherStepKeeps(s, a, u);
    } else if s.publisher.Waiting? || s.publisher.Publishing? {
      PublishStepKeeps(s, a, u);
    } else {
      CollectStepKeeps(s, a, u);
    }
  }

  lemma {:induction false} UuidInvHolds(r: Run, i: nat, u: string)
    requires IsDisciplined(r, u) && i < |r.states|
    ensures UuidInv(r.states[i], u)
  {
    if i > 0 {
      UuidInvHolds(r, i - 1, u);
      InvHolds(r, i - 1);
      UuidStepKeeps(r.states[i - 1], r.acts[i - 1], u);
    }
  }

  // --- the lifecycle ---

  predicate Deferral(k: Kind) { k == Completed || k == ResultOk }

  /** The shape of a legal history, said position by position: nothing, one Expired, or a
      prefix of Accepted, InProgress continued either by a prefix of Failed, ResultFail in the
      same boot, or by rounds of Completed and ResultOk in strictly later boots, a round
      without its result being one that a crash cut short. */
  ghost predicate Shaped(l: seq<Attempt>) {
    Opens(l) && Continues(l) && RoundsAscend(l) && ResultsPaired(l)
  }

  predicate Opens(l: seq<Attempt>) {
    && (|l| >= 1 ==> l[0].kind == Accepted || (l[0].kind == Expired && |l| == 1))
    && (|l| >= 2 ==> l[1].kind == InProgress && l[1].boot == l[0].boot)
  }

  predicate Continues(l: seq<Attempt>) {
    |l| >= 3 ==>
      || (l[2].kind == Failed && l[2].boot == l[0].boot && |l| <= 4
          && (|l| == 4 ==> l[3].kind == ResultFail && l[3].boot == l[0].boot))
      || (forall i | 2 <= i < |l| :: Deferral(l[i].kind) && l[0].boot < l[i].boot)
  }

  predicate RoundsAscend(l: seq<Attempt>) {
    forall i, j | 0 <= i < j < |l| ::
      l[i].boot <= l[j].boot && (l[j].kind == Completed ==> l[i].boot < l[j].boot)
  }

  predicate ResultsPaired(l: seq<Attempt>) {
    forall i, j | 0 <= i < |l| && 0 <= j < |l| && j == i - 1 && l[i].kind == ResultOk ::
      l[j].kind == Completed && l[j].boot == l[i].boot
  }

  lemma RoundsExtend(front: seq<Attempt>, a: Attempt)
    requires front != [] && Follows(front[|front| - 1], a)
    requires RoundsAscend(front) && ResultsPaired(front)
    ensures RoundsAscend(front + [a]) && ResultsPaired(front + [a])
  {
    assert forall i | 0 <= i < |front| :: front[i].boot <= front[|front| - 1].boot;
  }

  lemma ShapeExtends(front: seq<Attempt>, a: Attempt)
    requires front != [] && Follows(front[|front| - 1], a) && Opens(front) && Continues(front) && RoundsAscend(front)
    ensures Opens(front + [a]) && Continues(front + [a])
  {
  }

  lemma {:induction false} LegalShape(l: seq<Attempt>)
    requires Legal(l)
    ensures Shaped(l)
  {
    if |l| > 1 {
      var front := l[..|l| - 1];
      LegalShape(front);
      RoundsExtend(front, l[|l| - 1]);
      ShapeExtends(front, l[|l| - 1]);
      assert l == front + [l[|l| - 1]];
    }
  }

  lemma {:induction false} ShapeIsLegal(l: seq<Attempt>)
    requires Shaped(l)
    ensures Legal(l)
  {
    if |l| > 1 {
      var front := l[..|l| - 1];
      assert RoundsAscend(front) && ResultsPaired(front);
      assert Opens(front) && Continues(front);
      ShapeIsLegal(front);
      LastFollows(l);
    }
  }

  lemma LastFollows(l: seq<Attempt>)
    requires |l| > 1 && Shaped(l)
    ensures Follows(l[|l| - 2], l[|l| - 1])
  {
    var n := |l| - 1;
    assert l[n - 1].boot <= l[n].boot;
    if l[n].kind == ResultOk {
      assert l[n - 1].kind == Completed;
    }
  }

  /** Cross-boot lifecycle: in every state of a disciplined run the attempts about one uuid
      have the shape above; in particular a uuid reported Failed is never reported Completed. */
  lemma Lifecycle(r: Run, i: nat, u: string)
    requires IsDisciplined(r, u) && i < |r.states|
    ensures Shaped(About(r.states[i].log, u))
    ensures !(exists x, y :: x in About(r.states[i].log, u) && y in About(r.states[i].log, u)
                             && x.kind == Failed && y.kind == Completed)
  {
    UuidInvHolds(r, i, u);
    LegalShape(About(r.states[i].log, u));
  }

  /** The deferred completion carries the commanded uuid exactly when that uuid has no
      surrounding white space, and is dropped exactly when it is nothing but white space. */
  lemma DeferredUuid(u: string, w: nat)
    ensures UuidIn(File(u + "\n", w)) == u <==> (u == "" || (!IsSpace(u[0]) && !IsSpace(u[|u| - 1])))
    ensures UuidIn(File(u + "\n", w)) == "" <==> forall c | c in u :: IsSpace(c)
  {
    TrimNewline(u);
    TrimFixed(IsSpace, u);
    TrimEmpty(IsSpace, u);
  }

  // --- why the discipline is needed ---

  function Last(r: Run): State
    requires r.states != []
  {
    r.states[|r.states| - 1]
  }

  lemma Step(r: Run, a: Action) returns (t: Run)
    requires IsRun(r) && Enabled(Last(r), a)
    ensures IsRun(t) && Last(t) == Next(Last(r), a)
  {
    t := Extend(r, a);
  }

  /** A boot that has written the pending file for `u` before its publisher has started. */
  lemma WrittenRun(u: string) returns (r: Run)
    requires u != "" && Trim(u) == u
    ensures IsRun(r)
    ensures Last(r) == State(map[MAIN := File(u + "\n", 0)], 0, Wrote(u), Scanning, {},
                             [Attempt(0, Processor, u, Accepted, true), Attempt(0, Processor, u, InProgress, true)], 1)
  {
    r := Run([INIT], []);
    r := Step(r, Receive(u));
    r := Step(r, Accept(true));
    r := Step(r, Start(true));
    r := Step(r, Write);
  }

  /** The publisher takes the main file to its status publish. */
  lemma PublishMain(r: Run, u: string, scratch: string) returns (t: Run)
    requires u != "" && Trim(u) == u && IsInflight(scratch)
    requires IsRun(r) && Last(r).publisher.Scanning? && Last(r).disk.Keys == {MAIN} && Last(r).disk[MAIN].text == u + "\n"
    ensures IsRun(t) && Last(t).boot == Last(r).boot && Last(t).handler == Last(r).handler
    ensures Last(t).log == Log(Last(r), Publisher(scratch), u, Completed, true)
  {
    t := ClaimMain(r, u, scratch);
    t := Step(t, Connected);
    t := Step(t, PublishStatus(true));
  }

  lemma ClaimMain(r: Run, u: string, scratch: string) returns (t: Run)
    requires u != "" && Trim(u) == u && IsInflight(scratch)
    requires IsRun(r) && Last(r).publisher.Scanning? && Last(r).disk.Keys == {MAIN} && Last(r).disk[MAIN].text == u + "\n"
    ensures IsRun(t) && Last(t).publisher == Waiting([Entry(scratch, u)])
    ensures Last(t).boot == Last(r).boot && Last(t).handler == Last(r).handler && Last(t).log == Last(r).log
  {
    var e := Entry(scratch, u);
    TrimNewline(u);
    t := Step(r, Scan([]));
    assert Last(t) == Last(r).(publisher := Claiming([]));
    t := Step(t, Claim(scratch));
    assert Last(t).publisher == Reading([], scratch);
    assert scratch in Last(t).disk && UuidIn(Last(t).disk[scratch]) == u;
    t := Step(t, ReadClaimed(true));
    assert [] + [e] == [e] && [e][..0] == [];
    assert Named([e]) == [e];
  }

  /** The claim may come after this boot's own write, since nothing orders the two tasks: then
      the completion of `u` is published while the process that is to be restarted still runs. */
  lemma ClaimAfterWrite(u: string, scratch: string) returns (r: Run)
    requires u != "" && Trim(u) == u && IsInflight(scratch)
    ensures IsRun(r) && Last(r).boot == 0 && Last(r).handler == Wrote(u)
    ensures Attempt(0, Publisher(scratch), u, Completed, true) in Last(r).log
  {
    r := WrittenRun(u);
    r := PublishMain(r, u, scratch);
    assert Last(r).log[2] == Attempt(0, Publisher(scratch), u, Completed, true);
  }

  /** A handler delete that fails leaves `u` to be reported Failed now and Completed later. */
  lemma FailedAndCompleted(u: string, scratch: string) returns (r: Run)
    requires u != "" && Trim(u) == u && IsInflight(scratch)
    ensures IsRun(r)
    ensures Attempt(0, Processor, u, Kind.Failed, true) in Last(r).log
    ensures Attempt(1, Publisher(scratch), u, Completed, true) in Last(r).log
  {
    r := WrittenRun(u);
    r := Step(r, Systemctl(false));
    r := Step(r, Delete(false));
    r := Step(r, PublishFailed(true));
    r := Step(r, Crash(false));
    var log := Last(r).log;
    r := PublishMain(r, u, scratch);
    assert Last(r).log == log + [Attempt(1, Publisher(scratch), u, Completed, true)];
    assert Last(r).log[2] == Attempt(0, Processor, u, Kind.Failed, true);
    assert Last(r).log[3] == Attempt(1, Publisher(scratch), u, Completed, true);
  }
}
