/** The self-restart protocol as a transition system over the env directory.

    One process life is a boot.  Within a boot the command processor runs at most one
    `restart{unitctl}` command at a time (the handler) while the completion publisher scans,
    claims, waits for MQTT and publishes; a crash may fall between any two steps. */
module RestartProtocol {
  import opened Text

  const MAIN := "pending-restart-uuid"
  const INFLIGHT_PREFIX := "pending-restart-uuid.in-flight."

  predicate IsInflight(name: string) { StartsWith(name, INFLIGHT_PREFIX) }

  /** A file and the number of the write that produced it; a rename keeps both. */
  datatype File = File(text: string, write: nat)
  type Disk = map<string, File>

  function UuidIn(f: File): string { Trim(f.text) }

  function Rename(d: Disk, from: string, to: string): Disk
    requires from in d
  {
    (d - {from})[to := d[from]]
  }

  datatype Entry = Entry(path: string, uuid: string)

  datatype Kind = Expired | Accepted | InProgress | Failed | ResultFail | Completed | ResultOk
  datatype Source = Processor | Publisher(path: string)

  /** One call of `publish` about a self-restart, and whether it returned Ok. */
  datatype Attempt = Attempt(boot: nat, source: Source, uuid: string, kind: Kind, ok: bool)

  /** Where the command processor is; `Executing` is before the write of the pending file,
      `Parked` is the await that only a cancellation or the end of the process leaves. */
  datatype Handler =
    | Idle
    | Got(uuid: string)
    | Acknowledged(uuid: string)
    | Executing(uuid: string)
    | Wrote(uuid: string)
    | Deleting(uuid: string)
    | Parked(uuid: string)
    | Failing(uuid: string)
    | Refused(uuid: string)

  datatype Stage = AtStatus | AtResult(statusOk: bool) | AtRemove

  datatype PublisherPhase =
    | Scanning
    | Claiming(entries: seq<Entry>)
    | Reading(entries: seq<Entry>, scratch: string)
    | Waiting(entries: seq<Entry>)
    | Publishing(todo: seq<Entry>, stage: Stage)
    | Finished

  datatype State = State(
    disk: Disk,
    boot: nat,
    handler: Handler,
    publisher: PublisherPhase,
    doomed: set<string>,
    log: seq<Attempt>,
    writes: nat)

  const INIT := State(map[], 0, Idle, Scanning, {}, [], 0)

  datatype Action =
    | Receive(uuid: string)
    | Expire(ok: bool)
    | Accept(ok: bool)
    | Start(ok: bool)
    | Write
    | WriteFail(torn: bool)
    | Systemctl(accepted: bool)
    | Delete(ok: bool)
    | PublishFailed(ok: bool)
    | PublishRefusal(ok: bool)
    | Cancel
    | Scan(listing: seq<string>)
    | ScanFail
    | Claim(scratch: string)
    | ClaimNothing
    | ClaimFail
    | ReadClaimed(ok: bool)
    | Connected
    | GiveUp
    | PublishStatus(ok: bool)
    | PublishResult(ok: bool)
    | Remove(ok: bool)
    | RemoveDoomed(path: string, ok: bool)
    | Crash(torn: bool)

  ghost predicate Lists(listing: seq<string>, d: Disk) {
    && (forall i, j | 0 <= i < j < |listing| :: listing[i] != listing[j])
    && (forall p :: p in listing <==> p in d && IsInflight(p))
  }

  ghost predicate Enabled(s: State, a: Action) {
    match a
    case Receive(_) => s.handler.Idle?
    case Expire(_) => s.handler.Got?
    case Accept(_) => s.handler.Got?
    case Start(_) => s.handler.Acknowledged?
    case Write => s.handler.Executing?
    case WriteFail(_) => s.handler.Executing?
    case Systemctl(_) => s.handler.Wrote?
    case Delete(_) => s.handler.Deleting?
    case PublishFailed(_) => s.handler.Failing?
    case PublishRefusal(_) => s.handler.Refused?
    case Cancel => s.handler.Executing? || s.handler.Wrote? || s.handler.Deleting? || s.handler.Parked?
    case Scan(listing) => s.publisher.Scanning? && Lists(listing, s.disk)
    case ScanFail => s.publisher.Scanning?
    case Claim(scratch) =>
      s.publisher.Claiming? && MAIN in s.disk && IsInflight(scratch) && scratch !in s.disk
    case ClaimNothing => s.publisher.Claiming? && MAIN !in s.disk
    case ClaimFail => s.publisher.Claiming?
    case ReadClaimed(_) => s.publisher.Reading?
    case Connected => s.publisher.Waiting?
    case GiveUp => s.publisher.Waiting?
    case PublishStatus(_) => s.publisher.Publishing? && s.publisher.todo != [] && s.publisher.stage.AtStatus?
    case PublishResult(_) => s.publisher.Publishing? && s.publisher.todo != [] && s.publisher.stage.AtResult?
    case Remove(_) => s.publisher.Publishing? && s.publisher.todo != [] && s.publisher.stage.AtRemove?
    case RemoveDoomed(path, _) => path in s.doomed
    case Crash(torn) => torn ==> s.handler.Executing?
  }

  function Read(listing: seq<string>, d: Disk): (entries: seq<Entry>)
    requires forall p | p in listing :: p in d
    ensures |entries| == |listing|
    ensures forall i | 0 <= i < |listing| :: entries[i] == Entry(listing[i], UuidIn(d[listing[i]]))
  {
    seq(|listing|, i requires 0 <= i < |listing| => Entry(listing[i], UuidIn(d[listing[i]])))
  }

  /** The entries that name a uuid, in order. */
  function Named(entries: seq<Entry>): (kept: seq<Entry>)
    ensures forall e | e in kept :: e in entries && e.uuid != ""
    ensures forall e | e in entries && e.uuid != "" :: e in kept
  {
    if entries == [] then []
    else
      var last := entries[|entries| - 1];
      assert entries == entries[..|entries| - 1] + [last];
      Named(entries[..|entries| - 1]) + if last.uuid == "" then [] else [last]
  }

  function EmptyPaths(entries: seq<Entry>): set<string> {
    set e | e in entries && e.uuid == "" :: e.path
  }

  /** The publisher once collecting is over: empty files go to background removal, and it
      waits for a connection only when something is left to publish. */
  function Settle(s: State, entries: seq<Entry>): State {
    var kept := Named(entries);
    s.(publisher := if kept == [] then Finished else Waiting(kept),
       doomed := s.doomed + EmptyPaths(entries))
  }

  function Advance(todo: seq<Entry>): PublisherPhase
    requires todo != []
  {
    if |todo| == 1 then Finished else Publishing(todo[1..], AtStatus)
  }

  function Log(s: State, source: Source, uuid: string, kind: Kind, ok: bool): seq<Attempt> {
    s.log + [Attempt(s.boot, source, uuid, kind, ok)]
  }

  function PutMain(s: State, text: string): State {
    s.(disk := s.disk[MAIN := File(text, s.writes)], writes := s.writes + 1)
  }

  ghost function Next(s: State, a: Action): State
    requires Enabled(s, a)
  {
    match a
    case Receive(u) => s.(handler := Got(u))
    case Expire(ok) => s.(handler := Idle, log := Log(s, Processor, s.handler.uuid, Kind.Expired, ok))
    case Accept(ok) =>
      s.(handler := Acknowledged(s.handler.uuid), log := Log(s, Processor, s.handler.uuid, Accepted, ok))
    case Start(ok) =>
      s.(handler := Executing(s.handler.uuid), log := Log(s, Processor, s.handler.uuid, InProgress, ok))
    case Write => PutMain(s, s.handler.uuid + "\n").(handler := Wrote(s.handler.uuid))
    case WriteFail(torn) => (if torn then PutMain(s, "") else s).(handler := Failing(s.handler.uuid))
    case Systemctl(accepted) =>
      s.(handler := if accepted then Parked(s.handler.uuid) else Deleting(s.handler.uuid))
    case Delete(ok) =>
      s.(disk := if ok then s.disk - {MAIN} else s.disk, handler := Failing(s.handler.uuid))
    case PublishFailed(ok) =>
      s.(handler := Refused(s.handler.uuid), log := Log(s, Processor, s.handler.uuid, Kind.Failed, ok))
    case PublishRefusal(ok) =>
      s.(handler := Idle, log := Log(s, Processor, s.handler.uuid, ResultFail, ok))
    case Cancel => s.(handler := Idle)
    case Scan(listing) => s.(publisher := Claiming(Read(listing, s.disk)))
    case ScanFail => s.(publisher := Claiming([]))
    case Claim(scratch) =>
      s.(disk := Rename(s.disk, MAIN, scratch), publisher := Reading(s.publisher.entries, scratch))
    case ClaimNothing => Settle(s, s.publisher.entries)
    case ClaimFail => Settle(s, s.publisher.entries)
    case ReadClaimed(ok) =>
      var scratch := s.publisher.scratch;
      Settle(s, if ok && scratch in s.disk
                then s.publisher.entries + [Entry(scratch, UuidIn(s.disk[scratch]))]
                else s.publisher.entries)
    case Connected => s.(publisher := Publishing(s.publisher.entries, AtStatus))
    case GiveUp => s.(publisher := Finished)
    case PublishStatus(ok) =>
      var e := s.publisher.todo[0];
      s.(publisher := Publishing(s.publisher.todo, AtResult(ok)),
         log := Log(s, Publisher(e.path), e.uuid, Completed, ok))
    case PublishResult(ok) =>
      var e := s.publisher.todo[0];
      s.(publisher := if s.publisher.stage.statusOk && ok then Publishing(s.publisher.todo, AtRemove)
                      else Advance(s.publisher.todo),
         log := Log(s, Publisher(e.path), e.uuid, ResultOk, ok))
    case Remove(ok) =>
      s.(disk := if ok then s.disk - {s.publisher.todo[0].path} else s.disk,
         publisher := Advance(s.publisher.todo))
    case RemoveDoomed(path, ok) =>
      s.(disk := if ok then s.disk - {path} else s.disk, doomed := s.doomed - {path})
    case Crash(torn) =>
      (if torn then PutMain(s, "") else s).(
        boot := s.boot + 1, handler := Idle, publisher := Scanning, doomed := {})
  }

  /** A run from the first boot: every state with the action taken in it. */
  datatype Run = Run(states: seq<State>, acts: seq<Action>)

  ghost predicate IsRun(r: Run) {
    && |r.states| == |r.acts| + 1
    && r.states[0] == INIT
    && forall i {:trigger r.acts[i]} | 0 <= i < |r.acts| ::
         Enabled(r.states[i], r.acts[i]) && r.states[i + 1] == Next(r.states[i], r.acts[i])
  }

  ghost function Extend(r: Run, a: Action): (t: Run)
    requires IsRun(r) && Enabled(r.states[|r.acts|], a)
    ensures IsRun(t)
    ensures t.states[|t.acts|] == Next(r.states[|r.acts|], a)
  {
    Run(r.states + [Next(r.states[|r.acts|], a)], r.acts + [a])
  }
}
