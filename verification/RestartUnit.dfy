/** The restart handler and the completion publisher as the code runs them, step by step over
    the env directory.  Every method extends the run of RestartProtocol it belongs to, so what
    holds of all runs holds of this code. */
module RestartUnit {
  import opened Wrappers
  import opened Text
  import opened RestartProtocol
  import opened RestartSafety
  import opened RestartLifecycle

  /** How `tokio::fs::write` on the main path ends: a failed write may leave it truncated. */
  datatype WriteOutcome = Written | Untouched | Torn

  datatype SystemctlOutcome = SpawnError | Exited(success: bool, code: Option<int>)

  datatype HandlerEnd = ParkedForever | Errored(message: string)

  /** What the publisher may receive while it waits for the connection. */
  datatype WaitEvent = IsConnected | OtherEvent | Lagged | Closed | Cancelled

  ghost predicate Extends(before: Run, after: Run) {
    before.states <= after.states && before.acts <= after.acts
  }

  function Paths(entries: seq<Entry>): seq<string> {
    seq(|entries|, i requires 0 <= i < |entries| => entries[i].path)
  }

  /** The two publishes of each entry, in order, with their outcomes. */
  function Rounds(boot: nat, es: seq<Entry>, ok: (string, Kind) -> bool): seq<Attempt> {
    if es == [] then []
    else
      var e := es[|es| - 1];
      Rounds(boot, es[..|es| - 1], ok)
      + [Attempt(boot, Publisher(e.path), e.uuid, Completed, ok(e.path, Completed)),
         Attempt(boot, Publisher(e.path), e.uuid, ResultOk, ok(e.path, ResultOk))]
  }

  /** The paths whose two publishes and whose removal all succeed. */
  function Cleared(es: seq<Entry>, ok: (string, Kind) -> bool, removes: string -> bool): set<string> {
    set e | e in es && ok(e.path, Completed) && ok(e.path, ResultOk) && removes(e.path) :: e.path
  }

  lemma SplitAppend(entries: seq<Entry>, e: Entry)
    ensures Named(entries + [e]) == if e.uuid == "" then Named(entries) else Named(entries) + [e]
    ensures EmptyPaths(entries + [e]) == if e.uuid == "" then EmptyPaths(entries) + {e.path} else EmptyPaths(entries)
  {
    assert (entries + [e])[..|entries|] == entries;
    assert Named(entries) + [] == Named(entries);
    forall p ensures p in EmptyPaths(entries + [e]) <==> p in EmptyPaths(entries) || (e.uuid == "" && p == e.path) {
      if p in EmptyPaths(entries) {
        var f :| f in entries && f.uuid == "" && f.path == p;
        assert f in entries + [e];
      }
    }
  }

  /** Exactly the in-flight files of `d` that name a uuid, each with its uuid. */
  ghost predicate NamesAll(kept: seq<Entry>, d: Disk) {
    forall p, u :: Entry(p, u) in kept <==> p in d && IsInflight(p) && UuidIn(d[p]) == u && u != ""
  }

  /** `es` is what reading every in-flight file of `d` gives. */
  ghost predicate ReadsAll(es: seq<Entry>, d: Disk) {
    forall p, u :: Entry(p, u) in es <==> p in d && IsInflight(p) && UuidIn(d[p]) == u
  }

  lemma ClaimedNames(es: seq<Entry>, d: Disk, scratch: string)
    requires ReadsAll(es, d) && scratch !in d && IsInflight(scratch)
    ensures MAIN !in d ==> NamesAll(Named(es), d)
    ensures MAIN in d ==> NamesAll(Named(es + [Entry(scratch, UuidIn(d[MAIN]))]), Rename(d, MAIN, scratch))
  {
    if MAIN in d {
      var all, c := es + [Entry(scratch, UuidIn(d[MAIN]))], Rename(d, MAIN, scratch);
      forall p, u ensures Entry(p, u) in Named(all) <==> p in c && IsInflight(p) && UuidIn(c[p]) == u && u != "" {
        assert Entry(p, u) in all <==> Entry(p, u) in es || (p == scratch && u == UuidIn(d[MAIN]));
        assert p != scratch && p != MAIN ==> (p in c <==> p in d);
      }
    }
  }

  /** What parking is for: after a boot that parked with the uuid in the main file, a crash and a
      boot in which nothing disturbs the publisher deliver the uuid, as it reads without
      surrounding white space, and leave no file of that write. */
  lemma {:induction false} ParkedIsDelivered(r: Run, i: nat, j: nat, u: string)
    requires IsRun(r) && i < j < |r.states| && r.acts[i].Crash? && Trim(u) != ""
    requires r.states[i].handler == Parked(u) && MAIN in r.states[i].disk && r.states[i].disk[MAIN].text == u + "\n"
    requires r.states[j].publisher.Finished?
    requires forall k | i < k < j :: Undisturbed(r.acts[k])
    requires forall k {:trigger r.acts[k]} | i < k < j :: BeforeClaim(r.states[k].publisher) ==> !ChangesMain(r.acts[k])
    ensures exists p | IsInflight(p) :: Delivered(r.states[j].log, r.states[i].boot + 1, p, Trim(u))
    ensures !Holds(r.states[j].disk, r.states[i].disk[MAIN].write, Trim(u))
  {
    TrimNewline(u);
    assert r.states[i + 1] == Next(r.states[i], r.acts[i]);
    ProgressOfMain(r, i + 1, j);
  }

  class Unit {
    var disk: Disk
    var boot: nat
    var handler: Handler
    var publisher: PublisherPhase
    var doomed: set<string>
    var log: seq<Attempt>
    var writes: nat
    ghost var run: Run

    ghost function View(): State
      reads this
    {
      State(disk, boot, handler, publisher, doomed, log, writes)
    }

    ghost predicate Valid()
      reads this
    {
      IsRun(run) && Last(run) == View()
    }

    constructor ()
      ensures Valid() && View() == INIT
    {
      disk, boot, handler, publisher := map[], 0, Idle, Scanning;
      doomed, log, writes := {}, [], 0;
      run := Run([INIT], []);
    }

    /** Records that the fields have just taken action `a`. */
    ghost method Took(a: Action)
      requires IsRun(run) && Enabled(Last(run), a) && Next(Last(run), a) == View()
      modifies this`run
      ensures Valid() && Extends(old(run), run)
    {
      run := Extend(run, a);
    }

    /** The handler of `restart{unitctl}`: write the main file, ask systemd to restart the
        unit, park; take the file back when systemd refuses. */
    method ExecSelfRestart(mkdirOk: bool, write: WriteOutcome, systemctl: SystemctlOutcome, deleteOk: bool)
      returns (end: HandlerEnd)
      requires Valid() && handler.Executing?
      modifies this
      ensures Valid() && Extends(old(run), run)
      ensures end.ParkedForever? <==>
              mkdirOk && write.Written? && systemctl.Exited? && (systemctl.success || systemctl.code.None?)
      ensures handler == if end.ParkedForever? then Parked(old(handler.uuid)) else Failing(old(handler.uuid))
      ensures disk - {MAIN} == old(disk) - {MAIN}
      ensures end.ParkedForever? ==> MAIN in disk && disk[MAIN].text == old(handler.uuid) + "\n"
      ensures !mkdirOk || write.Untouched? ==> disk == old(disk)
      ensures mkdirOk && write.Written? && !end.ParkedForever? ==>
                if deleteOk then MAIN !in disk else MAIN in disk && disk[MAIN].text == old(handler.uuid) + "\n"
      ensures publisher == old(publisher) && log == old(log) && boot == old(boot)
    {
      var written := WritePending(mkdirOk, write);
      if !written {
        return Errored("failed to write the pending file");
      }
      if systemctl.SpawnError? {
        DeletePending(deleteOk);
        return Errored("failed to invoke systemctl");
      }
      if !systemctl.success && systemctl.code.Some? {
        DeletePending(deleteOk);
        return Errored("systemctl restart unitctl exited with an error");
      }
      handler := Parked(handler.uuid);
      Took(Systemctl(true));
      end := ParkedForever;
    }

    /** A systemctl that did not fail parks: one that succeeded, and one killed by a signal, as
        happens to it when the unit that called it is being stopped. */
    method ExecAndPark(exited: SystemctlOutcome, deleteOk: bool)
      requires Valid() && handler.Executing? && exited.Exited? && (exited.code.None? || exited.success)
      modifies this
      ensures Valid() && Extends(old(run), run) && handler == Parked(old(handler.uuid))
      ensures MAIN in disk && disk[MAIN].text == old(handler.uuid) + "\n" && boot == old(boot)
    {
      var end := ExecSelfRestart(true, Written, exited, deleteOk);
    }

    /** A systemctl that could not be run, or that failed with an exit code, never parks. */
    method ExecAndFail(systemctl: SystemctlOutcome, deleteOk: bool)
      requires Valid() && handler.Executing?
      requires systemctl.SpawnError? || (!systemctl.success && systemctl.code.Some?)
      modifies this
      ensures Valid() && Extends(old(run), run) && handler == Failing(old(handler.uuid))
      ensures deleteOk ==> MAIN !in disk
    {
      var end := ExecSelfRestart(true, Written, systemctl, deleteOk);
    }

    method WritePending(mkdirOk: bool, write: WriteOutcome) returns (written: bool)
      requires Valid() && handler.Executing?
      modifies this
      ensures Valid() && Extends(old(run), run)
      ensures written <==> mkdirOk && write.Written?
      ensures handler == if written then Wrote(old(handler.uuid)) else Failing(old(handler.uuid))
      ensures disk - {MAIN} == old(disk) - {MAIN}
      ensures written ==> MAIN in disk && disk[MAIN].text == old(handler.uuid) + "\n"
      ensures !mkdirOk || write.Untouched? ==> disk == old(disk)
      ensures publisher == old(publisher) && log == old(log) && boot == old(boot)
    {
      var uuid := handler.uuid;
      if !mkdirOk || write.Untouched? {
        handler := Failing(uuid);
        Took(WriteFail(false));
        return false;
      }
      if write.Torn? {
        disk, writes, handler := disk[MAIN := File("", writes)], writes + 1, Failing(uuid);
        Took(WriteFail(true));
        return false;
      }
      disk, writes, handler := disk[MAIN := File(uuid + "\n", writes)], writes + 1, Wrote(uuid);
      Took(Write);
      written := true;
    }

    method DeletePending(deleteOk: bool)
      requires Valid() && handler.Wrote?
      modifies this
      ensures Valid() && Extends(old(run), run)
      ensures disk == if deleteOk then old(disk) - {MAIN} else old(disk)
      ensures handler == Failing(old(handler.uuid))
      ensures publisher == old(publisher) && log == old(log) && boot == old(boot)
    {
      var uuid := handler.uuid;
      handler := Deleting(uuid);
      Took(Systemctl(false));
      if deleteOk {
        disk := disk - {MAIN};
      }
      handler := Failing(uuid);
      Took(Delete(deleteOk));
    }

    /** Reads every in-flight file of the directory; one that cannot be read fails the scan. */
    method CollectOrphanInflight(names: seq<string>, unreadable: set<string>) returns (r: Result<seq<Entry>, string>)
      requires forall i, j | 0 <= i < j < |names| :: names[i] != names[j]
      requires forall p :: p in names <==> p in disk
      ensures r.Ok? <==> forall p | p in names && IsInflight(p) :: p !in unreadable
      ensures r.Ok? ==> Lists(Paths(r.value), disk) && r.value == Read(Paths(r.value), disk)
      ensures r.Ok? ==> ReadsAll(r.value, disk)
    {
      var out: seq<Entry> := [];
      for k := 0 to |names|
        invariant forall p | p in names[..k] && IsInflight(p) :: p !in unreadable
        invariant forall e | e in out :: e.path in names[..k] && IsInflight(e.path) && e.uuid == UuidIn(disk[e.path])
        invariant forall p | p in names[..k] && IsInflight(p) :: Entry(p, UuidIn(disk[p])) in out
        invariant DistinctPaths(out)
      {
        var name := names[k];
        assert name !in names[..k];
        if IsInflight(name) {
          if name in unreadable {
            return Err("failed to read an in-flight file");
          }
          out := out + [Entry(name, UuidIn(disk[name]))];
        }
      }
      assert names[..|names|] == names;
      forall p ensures p in Paths(out) <==> p in disk && IsInflight(p) {
        if p in disk && IsInflight(p) {
          var i :| 0 <= i < |out| && out[i] == Entry(p, UuidIn(disk[p]));
          assert Paths(out)[i] == p;
        }
      }
      assert forall i | 0 <= i < |out| :: out[i] in out;
      r := Ok(out);
    }

    /** Claims the main file by renaming it to a fresh scratch name and reading that. */
    method ClaimMainPending(scratch: string, renameFails: bool, readOk: bool) returns (r: Result<Option<Entry>, string>)
      requires Valid() && publisher.Claiming? && IsInflight(scratch) && scratch !in disk
      modifies this
      ensures Valid() && Extends(old(run), run)
      ensures renameFails || MAIN !in old(disk) ==>
                r == (if renameFails then Err("rename failed") else Ok(None)) && View() == old(View())
      ensures !renameFails && MAIN in old(disk) ==>
                && View() == old(View()).(disk := Rename(old(disk), MAIN, scratch), publisher := Reading(old(publisher.entries), scratch))
                && r == if readOk then Ok(Some(Entry(scratch, UuidIn(old(disk)[MAIN])))) else Err("read failed")
    {
      if renameFails {
        return Err("rename failed");
      }
      if MAIN !in disk {
        return Ok(None);
      }
      disk, publisher := (disk - {MAIN})[scratch := disk[MAIN]], Reading(publisher.entries, scratch);
      Took(Claim(scratch));
      if !readOk {
        return Err("read failed");
      }
      r := Ok(Some(Entry(scratch, UuidIn(disk[scratch]))));
    }

    /** Splits the entries into those with a uuid and the paths of the others. */
    method DropEmpty(all: seq<Entry>) returns (kept: seq<Entry>, dropped: set<string>)
      ensures kept == Named(all) && dropped == EmptyPaths(all)
    {
      kept, dropped := [], {};
      for k := 0 to |all|
        invariant kept == Named(all[..k]) && dropped == EmptyPaths(all[..k])
      {
        assert all[..k + 1] == all[..k] + [all[k]];
        SplitAppend(all[..k], all[k]);
        if all[k].uuid == "" {
          dropped := dropped + {all[k].path};
        } else {
          kept := kept + [all[k]];
        }
      }
      assert all[..|all|] == all;
    }

    /** Keeps the entries with a uuid, leaving the other files to background removal. */
    method Retain(all: seq<Entry>, ghost a: Action) returns (kept: seq<Entry>)
      requires Valid() && Enabled(View(), a) && Next(View(), a) == Settle(View(), all)
      modifies this
      ensures Valid() && Extends(old(run), run)
      ensures kept == Named(all) && View() == Settle(old(View()), all)
    {
      var dropped;
      kept, dropped := DropEmpty(all);
      doomed := doomed + dropped;
      publisher := if kept == [] then Finished else Waiting(kept);
      Took(a);
    }

    /** The scan; when it fails the publisher goes on with no entries. */
    method ScanOrphans(names: seq<string>, unreadable: set<string>) returns (entries: seq<Entry>, complete: bool)
      requires Valid() && publisher.Scanning?
      requires forall i, j | 0 <= i < j < |names| :: names[i] != names[j]
      requires forall p :: p in names <==> p in disk
      modifies this
      ensures Valid() && Extends(old(run), run)
      ensures View() == old(View()).(publisher := Claiming(entries))
      ensures complete <==> forall p | p in names && IsInflight(p) :: p !in unreadable
      ensures if complete then ReadsAll(entries, disk) else entries == []
    {
      var scan := CollectOrphanInflight(names, unreadable);
      complete := scan.Ok?;
      if complete {
        entries := scan.value;
        publisher := Claiming(entries);
        Took(Scan(Paths(entries)));
      } else {
        entries := [];
        publisher := Claiming(entries);
        Took(ScanFail);
      }
    }

    /** The publisher up to its wait: scan, claim, retain. */
    method Collect(names: seq<string>, unreadable: set<string>, scratch: string, renameFails: bool, readOk: bool)
      returns (kept: seq<Entry>)
      requires Valid() && publisher.Scanning?
      requires forall i, j | 0 <= i < j < |names| :: names[i] != names[j]
      requires forall p :: p in names <==> p in disk
      requires IsInflight(scratch) && scratch !in disk
      modifies this
      ensures Valid() && Extends(old(run), run)
      ensures publisher == if kept == [] then Finished else Waiting(kept)
      ensures disk == if MAIN in old(disk) && !renameFails then Rename(old(disk), MAIN, scratch) else old(disk)
      ensures (forall p | p in names && IsInflight(p) :: p !in unreadable) && !renameFails && readOk ==> NamesAll(kept, disk)
      ensures log == old(log) && boot == old(boot) && handler == old(handler)
    {
      var entries, complete := ScanOrphans(names, unreadable);
      if complete { ClaimedNames(entries, disk, scratch); }
      var claim := ClaimMainPending(scratch, renameFails, readOk);
      ghost var a := if publisher.Reading? then ReadClaimed(readOk) else if renameFails then ClaimFail else ClaimNothing;
      if claim.Ok? && claim.value.Some? {
        entries := entries + [claim.value.value];
      }
      kept := Retain(entries, a);
    }

    /** Waits for the first connection; anything but a skipped event ends the wait. */
    method AwaitConnected(events: seq<WaitEvent>) returns (connected: bool)
      requires Valid() && publisher.Waiting?
      modifies this
      ensures Valid() && Extends(old(run), run)
      ensures connected <==> exists k | 0 <= k < |events| :: events[k].IsConnected? && forall i | 0 <= i < k :: events[i].OtherEvent? || events[i].Lagged?
      ensures View() == old(View()).(publisher := if connected then Publishing(old(publisher.entries), AtStatus) else Finished)
    {
      var k := 0;
      while k < |events| && (events[k].OtherEvent? || events[k].Lagged?)
        invariant k <= |events| && forall i | 0 <= i < k :: events[i].OtherEvent? || events[i].Lagged?
      {
        k := k + 1;
      }
      connected := k < |events| && events[k].IsConnected?;
      if connected {
        publisher := Publishing(publisher.entries, AtStatus);
        Took(Connected);
      } else {
        publisher := Finished;
        Took(GiveUp);
      }
    }

    /** One round: status, result, and the removal once both were published. */
    method PublishOne(ok: (string, Kind) -> bool, removes: string -> bool)
      requires Valid() && publisher.Publishing? && publisher.todo != [] && publisher.stage.AtStatus?
      modifies this
      ensures Valid() && Extends(old(run), run)
      ensures var e := old(publisher.todo)[0];
        && log == old(log) + Rounds(boot, [e], ok)
        && disk == old(disk) - Cleared([e], ok, removes)
        && publisher == Advance(old(publisher.todo))
      ensures boot == old(boot) && handler == old(handler) && doomed == old(doomed)
    {
      var e := publisher.todo[0];
      var statusOk, resultOk := ok(e.path, Completed), ok(e.path, ResultOk);
      PublishBoth(e, statusOk, resultOk);
      if statusOk && resultOk {
        var removed := removes(e.path);
        disk, publisher := if removed then disk - {e.path} else disk, Advance(publisher.todo);
        Took(Remove(removed));
      }
      assert Rounds(boot, [e][..0], ok) == [];
      assert Cleared([e], ok, removes) == if statusOk && resultOk && removes(e.path) then {e.path} else {};
    }

    method PublishBoth(e: Entry, statusOk: bool, resultOk: bool)
      requires Valid() && publisher.Publishing? && publisher.todo != [] && publisher.stage.AtStatus? && e == publisher.todo[0]
      modifies this`publisher, this`log, this`run
      ensures Valid() && Extends(old(run), run)
      ensures log == old(log) + [Attempt(boot, Publisher(e.path), e.uuid, Completed, statusOk),
                                 Attempt(boot, Publisher(e.path), e.uuid, ResultOk, resultOk)]
      ensures publisher == if statusOk && resultOk then Publishing(old(publisher.todo), AtRemove) else Advance(old(publisher.todo))
    {
      publisher, log := Publishing(publisher.todo, AtResult(statusOk)), log + [Attempt(boot, Publisher(e.path), e.uuid, Completed, statusOk)];
      Took(PublishStatus(statusOk));
      publisher, log := if statusOk && resultOk then Publishing(publisher.todo, AtRemove) else Advance(publisher.todo),
                        log + [Attempt(boot, Publisher(e.path), e.uuid, ResultOk, resultOk)];
      Took(PublishResult(resultOk));
    }

    method PublishEntries(kept: seq<Entry>, ok: (string, Kind) -> bool, removes: string -> bool)
      requires Valid() && kept != [] && publisher == Publishing(kept, AtStatus)
      modifies this
      ensures Valid() && Extends(old(run), run)
      ensures publisher.Finished?
      ensures log == old(log) + Rounds(boot, kept, ok)
      ensures disk == old(disk) - Cleared(kept, ok, removes)
      ensures boot == old(boot) && handler == old(handler) && doomed == old(doomed)
    {
      for k := 0 to |kept|
        invariant Valid() && Extends(old(run), run)
        invariant publisher == if k < |kept| then Publishing(kept[k..], AtStatus) else Finished
        invariant log == old(log) + Rounds(boot, kept[..k], ok)
        invariant disk == old(disk) - Cleared(kept[..k], ok, removes)
        invariant boot == old(boot) && handler == old(handler) && doomed == old(doomed)
      {
        PublishOne(ok, removes);
        assert kept[..k + 1][..k] == kept[..k] && [kept[k]][..0] == [];
        assert forall e :: e in kept[..k + 1] <==> e in kept[..k] || e == kept[k];
        assert Rounds(boot, [kept[k]][..0], ok) == [];
      }
      assert kept[..|kept|] == kept;
    }

    /** `RestartCompletionPublisher::run` of one boot, undisturbed by other tasks. */
    method RunPublisher(names: seq<string>, unreadable: set<string>, scratch: string, renameFails: bool, readOk: bool,
                        events: seq<WaitEvent>, ok: (string, Kind) -> bool, removes: string -> bool)
      returns (kept: seq<Entry>, connected: bool)
      requires Valid() && publisher.Scanning?
      requires forall i, j | 0 <= i < j < |names| :: names[i] != names[j]
      requires forall p :: p in names <==> p in disk
      requires IsInflight(scratch) && scratch !in disk
      modifies this
      ensures Valid() && Extends(old(run), run) && publisher.Finished?
      ensures log == old(log) + if connected then Rounds(boot, kept, ok) else []
      ensures var claimed := if MAIN in old(disk) && !renameFails then Rename(old(disk), MAIN, scratch) else old(disk);
        && ((forall p | p in names && IsInflight(p) :: p !in unreadable) && !renameFails && readOk ==> NamesAll(kept, claimed))
        && disk == if connected then claimed - Cleared(kept, ok, removes) else claimed
    {
      connected := false;
      kept := Collect(names, unreadable, scratch, renameFails, readOk);
      if kept == [] {
        return;
      }
      connected := AwaitConnected(events);
      if connected {
        PublishEntries(kept, ok, removes);
      }
    }
  }
}
