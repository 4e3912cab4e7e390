/**
 * The transaction skeleton shared by the deployment routines of
 * `SZONESDeploymentRoutines`: a `begin` block of external steps, a `rescue`
 * of `SZONESError` that rolls back, an `else` that may boot the new zone,
 * and an `ensure` that reboots a source zone the routine halted, removes
 * temporary files and closes SSH sessions.
 *
 * The external world (zone commands, file copies, SSH sessions, the
 * provisioning subroutines) is not modelled: every step takes its outcome
 * from a `World` value, and the routines record the steps they run as an
 * event trace.
 */
module Transactions {
  import opened Common
  import opened ErrorHandlers

  type Host = string

  /** Where a zone command runs: on the local machine or over SSH on a host. */
  datatype Where = Local | At(host: Host)

  /** The two SSH sessions a routine can hold. */
  datatype Role = SourceSide | DestSide

  /** A file handed to the cleaner, with the host it lives on (`None`: local). */
  datatype Registration = Registration(path: string, host: Option<Host>)

  /** What a provisioning subroutine is asked to install the zone from. */
  datatype Source =
    | Files(zonecfg: string, manifest: Option<string>, profile: Option<string>)
    | Clone(sourceZone: string, zonepath: Option<string>)
    | Archive(archive: string, zonecfg: string, zonepath: Option<string>)

  /** The steps a routine runs, in the order it runs them. */
  datatype Event =
    | Export(path: string)
    | Copy(sources: seq<string>, host: Host, dest: string)
    | Fetch(sources: seq<string>, host: Host, dir: string)
    | ExportArchive(zone: string, on: Where, to: Where)
    | OpenSession(role: Role, host: Host)
    | Halt(zone: string, on: Where)
    | Remove(zone: string, on: Where)
    | Provision(zone: string, on: Where, source: Source)
    | Boot(zone: string, on: Where)
    | RebootSource(zone: string, on: Where)
    | CleanupOnFailure
    | CleanupTemporary
    | CloseSession(role: Role, host: Host)
  {
    /** Events that only the `rescue`, `else` and `ensure` clauses produce. */
    predicate Concluding() {
      Boot? || RebootSource? || CleanupOnFailure? || CleanupTemporary?
    }
  }

  /** The outcome of one external step. */
  datatype Outcome = Ok | Err(e: Exception)

  /** A halt command either returns (with its `stderr`) or raises. */
  datatype HaltOutcome = Halted(stderr: string) | HaltFailed(e: Exception)

  /** An archive export either returns the archive and zonecfg paths or raises. */
  datatype ArchiveOutcome = Exported(archive: string, zonecfg: string) | ArchiveFailed(e: Exception)

  /** What a routine call ends with: a returned `status`, or an exception that escapes it. */
  datatype Result = Returned(status: bool) | Raised(e: Exception)

  /** The outcomes the external world supplies to one routine call. */
  datatype World = World(
    hasManifest: bool,
    hasProfile: bool,
    exportZonecfg: Outcome,
    exportManifest: Outcome,
    exportProfile: Outcome,
    copies: seq<Outcome>,
    openSource: Outcome,
    openDest: Outcome,
    halt: HaltOutcome,
    exportArchive: ArchiveOutcome,
    fetch: Outcome,
    remove: Outcome,
    provision: Outcome,
    boot: Outcome,
    reboot: Outcome)

  /** The outcome of the i-th copy command; commands past the list succeed. */
  function CopyOutcome(w: World, i: nat): Outcome {
    if i < |w.copies| then w.copies[i] else Ok
  }

  /** The halt step as a plain outcome: it fails exactly when the command raised. */
  function HaltStep(h: HaltOutcome): (o: Outcome)
    ensures o.Err? <==> h.HaltFailed?
  {
    if h.HaltFailed? then Err(h.e) else Ok
  }

  /** The archive export as a plain outcome. */
  function ArchiveStep(a: ArchiveOutcome): (o: Outcome)
    ensures o.Err? <==> a.ArchiveFailed?
  {
    if a.ArchiveFailed? then Err(a.e) else Ok
  }

  const AlreadyHaltedPattern := "already halted"

  /**
   * `booted = true unless halt.stderr =~ /already halted/`: the routine owes
   * the source zone a reboot when it asked for the halt, the halt command was
   * reached and returned, and its `stderr` does not report the zone as
   * already halted.
   */
  predicate RebootOwed(requested: bool, reached: bool, h: HaltOutcome) {
    requested && reached && h.Halted? && !Contains(h.stderr, AlreadyHaltedPattern)
  }

  /** One statement of a begin block: the step it records and the outcome the world gives it. */
  datatype Step = Step(event: Event, outcome: Outcome)

  /**
   * The steps of a begin block that run: each in turn, up to and including
   * the first one that raises, after which the block is left.
   */
  function Run(steps: seq<Step>): (r: seq<Event>)
    ensures |r| <= |steps|
    ensures forall i :: 0 <= i < |r| ==> r[i] == steps[i].event
    decreases |steps|
  {
    if |steps| == 0 then []
    else [steps[0].event] + (if steps[0].outcome.Err? then [] else Run(steps[1..]))
  }

  /** The exception a begin block raises: that of its first failing step, if any. */
  function Failure(steps: seq<Step>): (r: Option<Exception>)
    ensures r.None? <==> forall i :: 0 <= i < |steps| ==> steps[i].outcome.Ok?
    decreases |steps|
  {
    if |steps| == 0 then None
    else if steps[0].outcome.Err? then Some(steps[0].outcome.e)
    else Failure(steps[1..])
  }

  /** A step runs exactly when every step before it returned. */
  lemma {:induction false} RunOnlyAfterSuccess(steps: seq<Step>, i: nat)
    requires i < |steps|
    ensures i < |Run(steps)| <==> forall j :: 0 <= j < i ==> steps[j].outcome.Ok?
    decreases |steps|
  {
    if i > 0 {
      if steps[0].outcome.Err? {
        assert |Run(steps)| == 1;
      } else {
        var rest := steps[1..];
        assert Run(steps) == [steps[0].event] + Run(rest);
        RunOnlyAfterSuccess(rest, i - 1);
        assert (forall j :: 0 <= j < i - 1 ==> rest[j].outcome.Ok?) <==>
               (forall j :: 1 <= j < i ==> steps[j].outcome.Ok?) by {
          forall j | 1 <= j < i
            ensures rest[j - 1] == steps[j]
          {
          }
        }
      }
    }
  }

  /** A block that raises, raises the exception of the last step that ran. */
  lemma {:induction false} FailureIsLastRun(steps: seq<Step>)
    requires Failure(steps).Some?
    ensures |Run(steps)| > 0 && steps[|Run(steps)| - 1].outcome == Err(Failure(steps).value)
    decreases |steps|
  {
    if steps[0].outcome.Ok? {
      var rest := steps[1..];
      FailureIsLastRun(rest);
      assert Run(steps) == [steps[0].event] + Run(rest);
      assert steps[|Run(steps)| - 1] == rest[|Run(rest)| - 1];
    }
  }

  /** One more step: it runs, and can raise, only when the steps before it all returned. */
  lemma {:induction false} RunSnoc(steps: seq<Step>, s: Step)
    ensures Run(steps + [s]) == if Failure(steps).Some? then Run(steps) else Run(steps) + [s.event]
    ensures Failure(steps + [s]) == if Failure(steps).Some? then Failure(steps) else if s.outcome.Err? then Some(s.outcome.e) else None
    decreases |steps|
  {
    if |steps| == 0 {
      assert steps + [s] == [s];
    } else {
      assert (steps + [s])[0] == steps[0];
      assert (steps + [s])[1..] == steps[1..] + [s];
      RunSnoc(steps[1..], s);
    }
  }

  /** Once a step has raised, the steps after it add nothing. */
  lemma {:induction false} RunAfterFailure(steps: seq<Step>, more: seq<Step>)
    requires Failure(steps).Some?
    ensures Run(steps + more) == Run(steps) && Failure(steps + more) == Failure(steps)
    decreases |steps|
  {
    assert (steps + more)[0] == steps[0];
    if steps[0].outcome.Ok? {
      assert (steps + more)[1..] == steps[1..] + more;
      RunAfterFailure(steps[1..], more);
    }
  }

  /** The steps that ran and returned: those before the first one that raises. */
  function Completed(steps: seq<Step>): (r: seq<Event>)
    ensures |r| <= |steps|
    ensures forall i :: 0 <= i < |r| ==> r[i] == steps[i].event && steps[i].outcome.Ok?
    ensures |r| < |steps| ==> steps[|r|].outcome.Err?
    decreases |steps|
  {
    if |steps| == 0 || steps[0].outcome.Err? then []
    else [steps[0].event] + Completed(steps[1..])
  }

  /** One more step: it completes when it ran and returned. */
  lemma {:induction false} CompletedSnoc(steps: seq<Step>, s: Step)
    ensures Completed(steps + [s]) ==
            if Failure(steps).Some? || s.outcome.Err? then Completed(steps) else Completed(steps) + [s.event]
    decreases |steps|
  {
    if |steps| == 0 {
      assert steps + [s] == [s];
      assert [s][1..] == [];
    } else {
      assert (steps + [s])[0] == steps[0];
      assert (steps + [s])[1..] == steps[1..] + [s];
      CompletedSnoc(steps[1..], s);
    }
  }

  /** A step of a begin block: neither an event of the concluding clauses nor a session close. */
  predicate BlockStep(e: Event) {
    !e.Concluding() && !e.CloseSession?
  }

  /** The events a run records are events of its steps. */
  lemma RunBlockSteps(steps: seq<Step>)
    requires forall i :: 0 <= i < |steps| ==> BlockStep(steps[i].event)
    ensures forall e :: e in Run(steps) ==> BlockStep(e)
  {
    forall e | e in Run(steps)
      ensures BlockStep(e)
    {
      var k :| 0 <= k < |Run(steps)| && Run(steps)[k] == e;
      assert steps[k].event == e;
    }
  }

  /**
   * Runs step `s` of a begin block whose steps so far are `done`: the step
   * is recorded and its outcome taken only when nothing has raised yet.
   */
  method Perform(block: seq<Event>, err: Option<Exception>, ghost done: seq<Step>, s: Step)
    returns (block': seq<Event>, err': Option<Exception>)
    requires block == Run(done) && err == Failure(done)
    ensures block' == Run(done + [s]) && err' == Failure(done + [s])
  {
    RunSnoc(done, s);
    if err.None? {
      block' := block + [s.event];
      err' := if s.outcome.Err? then Some(s.outcome.e) else None;
    } else {
      block', err' := block, err;
    }
  }

  /**
   * With `force`, a removal is attempted before every provisioning step;
   * without it no removal is attempted at all.
   */
  ghost predicate RemovesFirst(trace: seq<Event>, force: bool, removal: Event) {
    && (removal in trace ==> force)
    && forall k :: 0 <= k < |trace| && trace[k].Provision? ==> (force <==> removal in trace[..k])
  }

  /** Without `force` nothing is removed; with it, each provisioning step has the removal at an earlier position. */
  lemma RemovesFirstOrder(trace: seq<Event>, force: bool, removal: Event)
    requires RemovesFirst(trace, force, removal)
    ensures !force ==> removal !in trace
    ensures force ==> forall k :: 0 <= k < |trace| && trace[k].Provision? ==>
                        exists j :: 0 <= j < k && trace[j] == removal
  {
    if force {
      forall k | 0 <= k < |trace| && trace[k].Provision?
        ensures exists j :: 0 <= j < k && trace[j] == removal
      {
        InPrefix(trace, k, removal);
      }
    }
  }

  /** An element of the first `k` events sits at a position below `k`. */
  lemma InPrefix(trace: seq<Event>, k: nat, e: Event)
    requires k <= |trace| && e in trace[..k]
    ensures exists j :: 0 <= j < k && trace[j] == e
  {
    var j :| 0 <= j < k && trace[..k][j] == e;
    assert trace[j] == e;
  }

  /** Nothing has been removed or provisioned yet. */
  lemma RemovesFirstEmpty(force: bool, removal: Event)
    ensures RemovesFirst([], force, removal)
  {
  }

  /** One more step keeps the order: the removal only when forced, a provisioning after it. */
  lemma RemovesFirstSnoc(block: seq<Event>, force: bool, removal: Event, e: Event)
    requires RemovesFirst(block, force, removal)
    requires e == removal ==> force
    requires e.Provision? ==> (force <==> removal in block)
    ensures RemovesFirst(block + [e], force, removal)
  {
    var t := block + [e];
    forall k | 0 <= k < |t| && t[k].Provision?
      ensures force <==> removal in t[..k]
    {
      if k < |block| {
        assert t[..k] == block[..k];
        assert t[k] == block[k];
      } else {
        assert t[..k] == block;
      }
    }
  }

  /**
   * A begin block whose last step provisions the zone, preceded by its
   * removal exactly when forced, removes first; `lead` is what ran before
   * the block.
   */
  lemma {:induction false} RunRemovesFirst(lead: seq<Event>, pre: seq<Step>, force: bool, removal: Event,
                                           removeOutcome: Outcome, provision: Step)
    requires removal.Remove? && provision.event.Provision?
    requires forall e :: e in lead ==> !e.Provision? && e != removal
    requires forall i :: 0 <= i < |pre| ==> !pre[i].event.Provision? && pre[i].event != removal
    ensures RemovesFirst(lead + Run(pre + (if force then [Step(removal, removeOutcome)] else []) + [provision]),
                         force, removal)
  {
    var mid := pre + (if force then [Step(removal, removeOutcome)] else []);
    RunRemovalStep(lead, pre, force, removal, removeOutcome);
    RunSnoc(mid, provision);
    if Failure(mid).None? {
      RemovesFirstSnoc(lead + Run(mid), force, removal, provision.event);
      assert lead + Run(mid + [provision]) == lead + Run(mid) + [provision.event];
    }
  }

  /** Before the provisioning step: the removal has run, when forced, unless something raised. */
  lemma {:induction false} RunRemovalStep(lead: seq<Event>, pre: seq<Step>, force: bool, removal: Event,
                                          removeOutcome: Outcome)
    requires removal.Remove?
    requires forall e :: e in lead ==> !e.Provision? && e != removal
    requires forall i :: 0 <= i < |pre| ==> !pre[i].event.Provision? && pre[i].event != removal
    ensures var mid := pre + (if force then [Step(removal, removeOutcome)] else []);
            && RemovesFirst(lead + Run(mid), force, removal)
            && (Failure(mid).None? ==> (force <==> removal in lead + Run(mid)))
  {
    var base := lead + Run(pre);
    forall e | e in base
      ensures !e.Provision? && e != removal
    {
      if e !in lead {
        var k :| 0 <= k < |Run(pre)| && Run(pre)[k] == e;
      }
    }
    assert RemovesFirst(base, force, removal);
    var mid := pre + (if force then [Step(removal, removeOutcome)] else []);
    if force {
      RunSnoc(pre, Step(removal, removeOutcome));
      if Failure(pre).None? {
        RemovesFirstSnoc(base, force, removal, removal);
        assert lead + Run(mid) == base + [removal];
      }
    } else {
      assert mid == pre;
    }
  }

  /** Events of the concluding clauses do not disturb the removal order of the begin block. */
  lemma RemovesFirstKept(block: seq<Event>, trace: seq<Event>, force: bool, removal: Event)
    requires RemovesFirst(block, force, removal) && removal.Remove?
    requires block <= trace && OnlyConcludingAfter(block, trace)
    ensures RemovesFirst(trace, force, removal)
  {
    forall k | 0 <= k < |trace| && trace[k].Provision?
      ensures force <==> removal in trace[..k]
    {
      assert k < |block|;
      assert trace[..k] == block[..k];
      assert block[k] == trace[k];
    }
    if removal in trace {
      var k :| 0 <= k < |trace| && trace[k] == removal;
      assert k < |block| && block[k] == removal;
    }
  }

  /** A step of the begin block is in the whole trace exactly when the block ran it. */
  lemma BlockEventKept(block: seq<Event>, trace: seq<Event>, e: Event)
    requires block <= trace && OnlyConcludingAfter(block, trace)
    requires !e.Concluding() && !e.CloseSession?
    ensures e in trace <==> e in block
  {
    if e in trace {
      var k :| 0 <= k < |trace| && trace[k] == e;
      assert k < |block| && block[k] == e;
    }
  }

  /** The begin block raised an error that its `rescue` clause catches. */
  predicate Rescued(blockError: Option<Exception>) {
    blockError.Some? && blockError.value.SZONESError?
  }

  /**
   * The value of a routine call: an exception from the compensating reboot
   * wins; otherwise a rescued error returns false, any other error from the
   * block escapes, an error from the boot escapes, and a clean run returns
   * true.
   */
  function Status(blockError: Option<Exception>, boot: Outcome, reboot: Outcome): (r: Result)
    ensures r == Returned(true) <==> blockError.None? && boot.Ok? && reboot.Ok?
    ensures r == Returned(false) <==> Rescued(blockError) && reboot.Ok?
  {
    if reboot.Err? then Raised(reboot.e)
    else if blockError.Some? then (if blockError.value.SZONESError? then Returned(false) else Raised(blockError.value))
    else if boot.Err? then Raised(boot.e)
    else Returned(true)
  }

  /** Every occurrence of `a` in `trace` comes before every occurrence of `b`. */
  ghost predicate Before(trace: seq<Event>, a: Event, b: Event) {
    forall i, j :: 0 <= i < |trace| && 0 <= j < |trace| && trace[i] == a && trace[j] == b ==> i < j
  }

  lemma BeforeSnoc(s: seq<Event>, x: Event, a: Event, b: Event)
    requires a != b && Before(s, a, b)
    requires x == a ==> b !in s
    ensures Before(s + [x], a, b)
  {
    var t := s + [x];
    forall i, j | 0 <= i < |t| && 0 <= j < |t| && t[i] == a && t[j] == b
      ensures i < j
    {
      if i < |s| && j < |s| {
        assert s[i] == a && s[j] == b;
      }
    }
  }

  lemma BeforeAppend(s: seq<Event>, t: seq<Event>, a: Event, b: Event)
    requires Before(s, a, b)
    requires a !in t
    ensures Before(s + t, a, b)
  {
    var u := s + t;
    forall i, j | 0 <= i < |u| && 0 <= j < |u| && u[i] == a && u[j] == b
      ensures i < j
    {
      if i < |s| && j < |s| {
        assert s[i] == a && s[j] == b;
      }
    }
  }

  /** When `a` or `b` does not occur at all, the order holds trivially. */
  lemma BeforeAbsent(s: seq<Event>, a: Event, b: Event)
    requires a !in s || b !in s
    ensures Before(s, a, b)
  {
  }

  /**
   * The guarantees of the `rescue` / `else` / `ensure` clauses, for a begin
   * block that raised `blockError` (or nothing), a boot of the new zone run
   * from `else` when `boot` names one, a compensating reboot of the source
   * zone run first in `ensure` when `reboot` names one, and the sessions
   * `closes` closed last in `ensure`:
   * - `cleanup_temporary!` runs once, unless the reboot raised before it;
   * - `cleanup_on_failure!` runs once exactly when the error was rescued,
   *   and before `cleanup_temporary!`;
   * - the new zone boots only after a clean block, and only when asked to;
   * - the source zone is rebooted exactly when that reboot is owed;
   * - each session is closed once, in the given order, unless the reboot
   *   raised first.
   */
  ghost predicate Concluded(trace: seq<Event>, result: Result, blockError: Option<Exception>,
                            boot: Option<Event>, bootOutcome: Outcome,
                            reboot: Option<Event>, rebootOutcome: Outcome, closes: seq<Event>)
  {
    var rebootRaised := reboot.Some? && rebootOutcome.Err?;
    && result == Status(blockError, if blockError.None? && boot.Some? then bootOutcome else Ok,
                        if reboot.Some? then rebootOutcome else Ok)
    && CleansUp(trace, rebootRaised)
    && RollsBackOnFailure(trace, blockError)
    && BootsOnSuccess(trace, blockError, boot)
    && RebootsWhenOwed(trace, reboot)
    && ClosesSessions(trace, closes, rebootRaised)
  }

  /**
   * A routine that returned `true` cleaned up its temporary files, did not
   * roll back, ran the requested boot and closed every session.
   */
  lemma ConcludedOnSuccess(trace: seq<Event>, result: Result, blockError: Option<Exception>,
                           boot: Option<Event>, bootOutcome: Outcome,
                           reboot: Option<Event>, rebootOutcome: Outcome, closes: seq<Event>)
    requires Concluded(trace, result, blockError, boot, bootOutcome, reboot, rebootOutcome, closes)
    requires result == Returned(true)
    ensures CleanupTemporary in trace && CleanupOnFailure !in trace
    ensures boot.Some? ==> boot.value in trace
    ensures forall i :: 0 <= i < |closes| ==> closes[i] in trace
  {
  }

  /** `cleanup_temporary!` ran once, or never when the reboot before it raised. */
  ghost predicate CleansUp(trace: seq<Event>, rebootRaised: bool) {
    multiset(trace)[CleanupTemporary] == if rebootRaised then 0 else 1
  }

  /** `cleanup_on_failure!` ran once exactly when the error was rescued, and before `cleanup_temporary!`. */
  ghost predicate RollsBackOnFailure(trace: seq<Event>, blockError: Option<Exception>) {
    && multiset(trace)[CleanupOnFailure] == (if Rescued(blockError) then 1 else 0)
    && Before(trace, CleanupOnFailure, CleanupTemporary)
  }

  /** The only boot is the requested one, and it runs once exactly when the block completed. */
  ghost predicate BootsOnSuccess(trace: seq<Event>, blockError: Option<Exception>, boot: Option<Event>) {
    && (forall e :: e in trace && e.Boot? ==> boot == Some(e) && blockError.None?)
    && (boot.Some? && blockError.None? ==> multiset(trace)[boot.value] == 1)
  }

  /** The only reboot is the owed one, and it runs once. */
  ghost predicate RebootsWhenOwed(trace: seq<Event>, reboot: Option<Event>) {
    && (forall e :: e in trace && e.RebootSource? ==> reboot == Some(e))
    && (reboot.Some? ==> multiset(trace)[reboot.value] == 1)
  }

  /** Each session is closed once, in the given order, or never when the reboot raised. */
  ghost predicate ClosesSessions(trace: seq<Event>, closes: seq<Event>, rebootRaised: bool) {
    && (forall i :: 0 <= i < |closes| ==> multiset(trace)[closes[i]] == if rebootRaised then 0 else 1)
    && (forall i, j :: 0 <= i < j < |closes| ==> Before(trace, closes[i], closes[j]))
  }

  /** What the events before `cleanup_temporary!` hold. */
  ghost predicate HeadFacts(head: seq<Event>, blockError: Option<Exception>, boot: Option<Event>,
                            reboot: Option<Event>, closes: seq<Event>)
  {
    && CleanupTemporary !in head
    && (forall i :: 0 <= i < |closes| ==> closes[i] !in head)
    && multiset(head)[CleanupOnFailure] == (if Rescued(blockError) then 1 else 0)
    && BootsOnSuccess(head, blockError, boot)
    && RebootsWhenOwed(head, reboot)
  }

  /** The events of the `rescue` clause, or of the `else` clause. */
  function Handler(blockError: Option<Exception>, boot: Option<Event>): (h: seq<Event>)
    requires boot.Some? ==> boot.value.Boot?
    ensures |h| <= 1
    ensures multiset(h)[CleanupOnFailure] == if Rescued(blockError) then 1 else 0
    ensures forall e :: e in h ==> e == CleanupOnFailure || (boot == Some(e) && blockError.None?)
    ensures boot.Some? && blockError.None? ==> h == [boot.value]
  {
    if blockError.Some? then (if blockError.value.SZONESError? then [CleanupOnFailure] else [])
    else if boot.Some? then [boot.value]
    else []
  }

  /**
   * The events of the begin block followed by those of the `rescue`,
   * `else` and `ensure` clauses, and the routine's result.
   */
  function Conclude(block: seq<Event>, blockError: Option<Exception>,
                    boot: Option<Event>, bootOutcome: Outcome,
                    reboot: Option<Event>, rebootOutcome: Outcome, closes: seq<Event>): (r: (Result, seq<Event>))
    requires ConcludeReady(block, boot, reboot, closes)
    ensures block <= r.1 && OnlyConcludingAfter(block, r.1)
    ensures EndsBlock(block, r.1, closes)
    ensures Concluded(r.1, r.0, blockError, boot, bootOutcome, reboot, rebootOutcome, closes)
  {
    if reboot.Some? && rebootOutcome.Err? then
      ConcludeWhenRebootRaised(block, blockError, boot, bootOutcome, reboot, rebootOutcome, closes);
      (Raised(rebootOutcome.e), block + Handler(blockError, boot) + [reboot.value])
    else
      ConcludeToEnd(block, blockError, boot, bootOutcome, reboot, rebootOutcome, closes);
      (Status(blockError, if blockError.None? && boot.Some? then bootOutcome else Ok, Ok),
       block + Handler(blockError, boot) + (if reboot.Some? then [reboot.value] else []) + [CleanupTemporary] + closes)
  }

  /**
   * What the concluding clauses need of their inputs: the begin block holds
   * no concluding event and no close, the boot and reboot are what they
   * say, and the sessions to close are distinct.
   */
  ghost predicate ConcludeReady(block: seq<Event>, boot: Option<Event>, reboot: Option<Event>, closes: seq<Event>) {
    && (forall e :: e in block ==> !e.Concluding())
    && (boot.Some? ==> boot.value.Boot?)
    && (reboot.Some? ==> reboot.value.RebootSource?)
    && (forall i :: 0 <= i < |closes| ==> closes[i].CloseSession? && closes[i] !in block)
    && (forall i, j :: 0 <= i < j < |closes| ==> closes[i] != closes[j])
  }

  /** A block of plain steps is ready for the concluding clauses, with a boot, a reboot and closes as given. */
  lemma ReadyToConclude(block: seq<Event>, boot: Option<Event>, reboot: Option<Event>, closes: seq<Event>)
    requires forall e :: e in block ==> BlockStep(e)
    requires boot.Some? ==> boot.value.Boot?
    requires reboot.Some? ==> reboot.value.RebootSource?
    requires forall i :: 0 <= i < |closes| ==> closes[i].CloseSession?
    requires forall i, j :: 0 <= i < j < |closes| ==> closes[i] != closes[j]
    ensures ConcludeReady(block, boot, reboot, closes)
  {
    forall i | 0 <= i < |closes|
      ensures closes[i] !in block
    {
      assert !BlockStep(closes[i]);
    }
  }

  /**
   * The trace is the begin block followed only by what the concluding
   * clauses run: concluding events and the sessions `closes` closed in
   * `ensure`. With the counts of `Concluded`, nothing else runs after the
   * block, and nothing runs twice.
   */
  ghost predicate EndsBlock(block: seq<Event>, trace: seq<Event>, closes: seq<Event>) {
    && block <= trace
    && forall k :: |block| <= k < |trace| ==> trace[k].Concluding() || trace[k] in closes
  }

  /** Events of the concluding clauses appended to the begin block end it. */
  lemma EndsBlockAppend(block: seq<Event>, rest: seq<Event>, closes: seq<Event>)
    requires forall e :: e in rest ==> e.Concluding() || e in closes
    ensures EndsBlock(block, block + rest, closes)
  {
    forall k | |block| <= k < |block + rest|
      ensures (block + rest)[k].Concluding() || (block + rest)[k] in closes
    {
      assert (block + rest)[k] == rest[k - |block|];
    }
  }

  /** When the begin block closes no session, every close in the trace is one of `closes`. */
  lemma EndsBlockCloses(block: seq<Event>, trace: seq<Event>, closes: seq<Event>)
    requires EndsBlock(block, trace, closes)
    requires forall e :: e in block ==> BlockStep(e)
    ensures forall e :: e in trace && e.CloseSession? ==> e in closes
  {
    forall j | 0 <= j < |block|
      ensures !trace[j].CloseSession?
    {
      assert trace[j] == block[j] && block[j] in block;
    }
    forall e | e in trace && e.CloseSession?
      ensures e in closes
    {
      var k :| 0 <= k < |trace| && trace[k] == e;
      assert trace[k].Concluding() || trace[k] in closes;
    }
  }

  /** Only concluding events and session closes follow the begin block. */
  ghost predicate OnlyConcludingAfter(block: seq<Event>, trace: seq<Event>) {
    forall k :: |block| <= k < |trace| ==> trace[k].Concluding() || trace[k].CloseSession?
  }

  lemma ConcludeWhenRebootRaised(block: seq<Event>, blockError: Option<Exception>,
                                 boot: Option<Event>, bootOutcome: Outcome,
                                 reboot: Option<Event>, rebootOutcome: Outcome, closes: seq<Event>)
    requires ConcludeReady(block, boot, reboot, closes)
    requires reboot.Some? && rebootOutcome.Err?
    ensures var trace := block + Handler(blockError, boot) + [reboot.value];
            && block <= trace && OnlyConcludingAfter(block, trace) && EndsBlock(block, trace, closes)
            && Concluded(trace, Raised(rebootOutcome.e), blockError, boot, bootOutcome, reboot, rebootOutcome, closes)
  {
    var head := block + Handler(blockError, boot) + [reboot.value];
    ConcludeHead(block, blockError, boot, reboot, closes);
    ConcludeRaised(head, blockError, boot, bootOutcome, reboot, rebootOutcome, closes);
    var rest := Handler(blockError, boot) + [reboot.value];
    assert head == block + rest;
    TailKinds(block, rest);
    EndsBlockAppend(block, rest, closes);
  }

  lemma ConcludeToEnd(block: seq<Event>, blockError: Option<Exception>,
                      boot: Option<Event>, bootOutcome: Outcome,
                      reboot: Option<Event>, rebootOutcome: Outcome, closes: seq<Event>)
    requires ConcludeReady(block, boot, reboot, closes)
    requires !(reboot.Some? && rebootOutcome.Err?)
    ensures var trace := block + Handler(blockError, boot) + (if reboot.Some? then [reboot.value] else []) +
                         [CleanupTemporary] + closes;
            && block <= trace && OnlyConcludingAfter(block, trace) && EndsBlock(block, trace, closes)
            && Concluded(trace, Status(blockError, if blockError.None? && boot.Some? then bootOutcome else Ok, Ok),
                         blockError, boot, bootOutcome, reboot, rebootOutcome, closes)
  {
    var head := block + Handler(blockError, boot) + (if reboot.Some? then [reboot.value] else []);
    ConcludeHead(block, blockError, boot, reboot, closes);
    ConcludeCompleted(head, blockError, boot, bootOutcome, reboot, rebootOutcome, closes);
    ConcludeToEndKinds(block, blockError, boot, reboot, closes);
    ConcludeToEndEnds(block, blockError, boot, reboot, closes);
  }

  /** After the begin block, the `ensure` clause that runs to its end adds only concluding events and `closes`. */
  lemma ConcludeToEndEnds(block: seq<Event>, blockError: Option<Exception>, boot: Option<Event>,
                          reboot: Option<Event>, closes: seq<Event>)
    requires boot.Some? ==> boot.value.Boot?
    requires reboot.Some? ==> reboot.value.RebootSource?
    ensures var trace := block + Handler(blockError, boot) + (if reboot.Some? then [reboot.value] else []) +
                         [CleanupTemporary] + closes;
            EndsBlock(block, trace, closes)
  {
    var compensation := if reboot.Some? then [reboot.value] else [];
    var rest := Handler(blockError, boot) + compensation + [CleanupTemporary] + closes;
    assert block + Handler(blockError, boot) + compensation + [CleanupTemporary] + closes == block + rest;
    EndsBlockAppend(block, rest, closes);
  }

  /** The events after the begin block, when the `ensure` clause runs to its end. */
  lemma ConcludeToEndKinds(block: seq<Event>, blockError: Option<Exception>, boot: Option<Event>,
                           reboot: Option<Event>, closes: seq<Event>)
    requires boot.Some? ==> boot.value.Boot?
    requires reboot.Some? ==> reboot.value.RebootSource?
    requires forall i :: 0 <= i < |closes| ==> closes[i].CloseSession?
    ensures var trace := block + Handler(blockError, boot) + (if reboot.Some? then [reboot.value] else []) +
                         [CleanupTemporary] + closes;
            block <= trace && OnlyConcludingAfter(block, trace)
  {
    var head := block + Handler(blockError, boot) + (if reboot.Some? then [reboot.value] else []);
    var rest := Handler(blockError, boot) + (if reboot.Some? then [reboot.value] else []);
    assert head == block + rest;
    TailKinds(block, rest);
    var more := [CleanupTemporary] + closes;
    forall k | 0 <= k < |more|
      ensures more[k].Concluding() || more[k].CloseSession?
    {
      if k > 0 {
        assert more[k] == closes[k - 1];
      }
    }
    TailMore(block, head, more);
    assert head + more == head + [CleanupTemporary] + closes;
  }

  lemma TailMore(block: seq<Event>, head: seq<Event>, more: seq<Event>)
    requires block <= head && OnlyConcludingAfter(block, head)
    requires forall k :: 0 <= k < |more| ==> more[k].Concluding() || more[k].CloseSession?
    ensures block <= head + more && OnlyConcludingAfter(block, head + more)
  {
    forall k | |block| <= k < |head + more|
      ensures (head + more)[k].Concluding() || (head + more)[k].CloseSession?
    {
      if k >= |head| {
        assert (head + more)[k] == more[k - |head|];
      } else {
        assert (head + more)[k] == head[k];
      }
    }
  }

  lemma TailKinds(block: seq<Event>, rest: seq<Event>)
    requires forall e :: e in rest ==> e.Concluding() || e.CloseSession?
    ensures OnlyConcludingAfter(block, block + rest)
  {
    forall k | |block| <= k < |block + rest|
      ensures (block + rest)[k].Concluding() || (block + rest)[k].CloseSession?
    {
      assert (block + rest)[k] == rest[k - |block|];
    }
  }

  /** When the reboot raises, the `ensure` clause stops there. */
  lemma ConcludeRaised(head: seq<Event>, blockError: Option<Exception>, boot: Option<Event>, bootOutcome: Outcome,
                       reboot: Option<Event>, rebootOutcome: Outcome, closes: seq<Event>)
    requires HeadFacts(head, blockError, boot, reboot, closes)
    requires reboot.Some? && rebootOutcome.Err?
    ensures Concluded(head, Raised(rebootOutcome.e), blockError, boot, bootOutcome, reboot, rebootOutcome, closes)
  {
    BeforeAbsent(head, CleanupOnFailure, CleanupTemporary);
    forall i, j | 0 <= i < j < |closes|
      ensures Before(head, closes[i], closes[j])
    {
      BeforeAbsent(head, closes[i], closes[j]);
    }
  }

  /** When the reboot, if any, returns, the `ensure` clause runs to its end. */
  lemma ConcludeCompleted(head: seq<Event>, blockError: Option<Exception>, boot: Option<Event>, bootOutcome: Outcome,
                          reboot: Option<Event>, rebootOutcome: Outcome, closes: seq<Event>)
    requires HeadFacts(head, blockError, boot, reboot, closes)
    requires boot.Some? ==> boot.value.Boot?
    requires reboot.Some? ==> reboot.value.RebootSource? && rebootOutcome.Ok?
    requires forall i :: 0 <= i < |closes| ==> closes[i].CloseSession?
    requires forall i, j :: 0 <= i < j < |closes| ==> closes[i] != closes[j]
    ensures Concluded(head + [CleanupTemporary] + closes,
                      Status(blockError, if blockError.None? && boot.Some? then bootOutcome else Ok, Ok),
                      blockError, boot, bootOutcome, reboot, rebootOutcome, closes)
  {
    var trace := head + [CleanupTemporary] + closes;
    ConcludeTail(head, closes);
    assert multiset(trace)[CleanupOnFailure] == multiset(head)[CleanupOnFailure];
    if boot.Some? {
      assert multiset(trace)[boot.value] == multiset(head)[boot.value];
    }
    if reboot.Some? {
      assert multiset(trace)[reboot.value] == multiset(head)[reboot.value];
    }
    assert BootsOnSuccess(trace, blockError, boot);
    assert RebootsWhenOwed(trace, reboot);
  }

  /** The events the begin block, the `rescue` or `else` clause and the reboot contribute. */
  lemma ConcludeHead(block: seq<Event>, blockError: Option<Exception>, boot: Option<Event>,
                     reboot: Option<Event>, closes: seq<Event>)
    requires forall e :: e in block ==> !e.Concluding()
    requires boot.Some? ==> boot.value.Boot?
    requires reboot.Some? ==> reboot.value.RebootSource?
    requires forall i :: 0 <= i < |closes| ==> closes[i].CloseSession? && closes[i] !in block
    ensures var head := block + Handler(blockError, boot) + (if reboot.Some? then [reboot.value] else []);
            block <= head && HeadFacts(head, blockError, boot, reboot, closes)
  {
    ConcludeHeadAbsent(block, blockError, boot, reboot, closes);
    ConcludeHeadCounts(block, blockError, boot, reboot);
    ConcludeHeadOnly(block, blockError, boot, reboot);
  }

  /** Neither `cleanup_temporary!` nor a close occurs before `cleanup_temporary!`. */
  lemma ConcludeHeadAbsent(block: seq<Event>, blockError: Option<Exception>, boot: Option<Event>,
                           reboot: Option<Event>, closes: seq<Event>)
    requires forall e :: e in block ==> !e.Concluding()
    requires boot.Some? ==> boot.value.Boot?
    requires reboot.Some? ==> reboot.value.RebootSource?
    requires forall i :: 0 <= i < |closes| ==> closes[i].CloseSession? && closes[i] !in block
    ensures var head := block + Handler(blockError, boot) + (if reboot.Some? then [reboot.value] else []);
            && CleanupTemporary !in head
            && (forall i :: 0 <= i < |closes| ==> closes[i] !in head)
  {
    var handler := Handler(blockError, boot);
    var compensation := if reboot.Some? then [reboot.value] else [];
    var head := block + handler + compensation;
    assert CleanupTemporary !in block;
    assert CleanupTemporary !in handler && CleanupTemporary !in compensation;
    forall i | 0 <= i < |closes|
      ensures closes[i] !in head
    {
      assert closes[i] !in handler && closes[i] !in compensation;
    }
  }

  /** The only boot and reboot before `cleanup_temporary!` are the requested ones. */
  lemma ConcludeHeadOnly(block: seq<Event>, blockError: Option<Exception>, boot: Option<Event>, reboot: Option<Event>)
    requires forall e :: e in block ==> !e.Concluding()
    requires boot.Some? ==> boot.value.Boot?
    requires reboot.Some? ==> reboot.value.RebootSource?
    ensures var head := block + Handler(blockError, boot) + (if reboot.Some? then [reboot.value] else []);
            && BootsOnSuccess(head, blockError, boot)
            && (forall e :: e in head && e.RebootSource? ==> reboot == Some(e))
  {
    var handler := Handler(blockError, boot);
    var compensation := if reboot.Some? then [reboot.value] else [];
    var head := block + handler + compensation;
    forall e | e in head && e.Boot?
      ensures boot == Some(e) && blockError.None?
    {
      assert e !in block && e !in compensation;
    }
    if boot.Some? && blockError.None? {
      assert boot.value !in block && boot.value !in compensation;
      assert multiset(block)[boot.value] == 0 && multiset(compensation)[boot.value] == 0;
    }
    forall e | e in head && e.RebootSource?
      ensures reboot == Some(e)
    {
      assert e !in block && e !in handler;
    }
  }

  /** How often rollback and reboot occur among the events before `cleanup_temporary!`. */
  lemma ConcludeHeadCounts(block: seq<Event>, blockError: Option<Exception>, boot: Option<Event>,
                           reboot: Option<Event>)
    requires forall e :: e in block ==> !e.Concluding()
    requires boot.Some? ==> boot.value.Boot?
    requires reboot.Some? ==> reboot.value.RebootSource?
    ensures var head := block + Handler(blockError, boot) + (if reboot.Some? then [reboot.value] else []);
            && multiset(head)[CleanupOnFailure] == (if Rescued(blockError) then 1 else 0)
            && (reboot.Some? ==> multiset(head)[reboot.value] == 1)
  {
    var handler := Handler(blockError, boot);
    assert CleanupOnFailure.Concluding() && CleanupOnFailure !in block;
    assert multiset(block)[CleanupOnFailure] == 0;
    if reboot.Some? {
      assert reboot.value.Concluding() && reboot.value !in block;
      assert multiset(block)[reboot.value] == 0;
      assert reboot.value !in handler;
      assert multiset(handler)[reboot.value] == 0;
    }
  }

  /** What the `ensure` clause adds once the reboot, if any, has returned. */
  lemma ConcludeTail(head: seq<Event>, closes: seq<Event>)
    requires CleanupTemporary !in head
    requires forall i :: 0 <= i < |closes| ==> closes[i].CloseSession? && closes[i] !in head
    requires forall i, j :: 0 <= i < j < |closes| ==> closes[i] != closes[j]
    ensures var trace := head + [CleanupTemporary] + closes;
            && head <= trace
            && (forall e :: e in trace ==> e in head || e == CleanupTemporary || e.CloseSession?)
            && multiset(trace)[CleanupTemporary] == 1
            && (forall e :: e != CleanupTemporary && !e.CloseSession? ==> multiset(trace)[e] == multiset(head)[e])
            && Before(trace, CleanupOnFailure, CleanupTemporary)
            && (forall i :: 0 <= i < |closes| ==> multiset(trace)[closes[i]] == 1)
            && (forall i, j :: 0 <= i < j < |closes| ==> Before(trace, closes[i], closes[j]))
  {
    var pre := head + [CleanupTemporary];
    var trace := pre + closes;
    assert CleanupTemporary !in closes;
    forall e | e != CleanupTemporary && !e.CloseSession?
      ensures multiset(trace)[e] == multiset(head)[e]
    {
      assert e !in closes;
    }
    BeforeAbsent(head, CleanupOnFailure, CleanupTemporary);
    BeforeSnoc(head, CleanupTemporary, CleanupOnFailure, CleanupTemporary);
    BeforeAppend(pre, closes, CleanupOnFailure, CleanupTemporary);
    forall i | 0 <= i < |closes|
      ensures multiset(trace)[closes[i]] == 1
    {
      assert closes[i] !in pre;
      CountOnce(closes, i);
    }
    forall i, j | 0 <= i < j < |closes|
      ensures Before(trace, closes[i], closes[j])
    {
      ClosesInOrder(pre, closes, i, j);
    }
  }

  /** Distinct events appended in order after a prefix that holds none of them keep that order. */
  lemma ClosesInOrder(pre: seq<Event>, closes: seq<Event>, i: nat, j: nat)
    requires i < j < |closes|
    requires closes[i] !in pre && closes[j] !in pre
    requires forall p, q :: 0 <= p < q < |closes| ==> closes[p] != closes[q]
    ensures Before(pre + closes, closes[i], closes[j])
  {
    var trace := pre + closes;
    forall p, q | 0 <= p < |trace| && 0 <= q < |trace| && trace[p] == closes[i] && trace[q] == closes[j]
      ensures p < q
    {
      if p >= |pre| && q >= |pre| {
        assert closes[p - |pre|] == closes[i] && closes[q - |pre|] == closes[j];
        DistinctIndex(closes, p - |pre|, i);
        DistinctIndex(closes, q - |pre|, j);
      }
    }
  }

  /** In a sequence of distinct elements, an element occurs once. */
  lemma CountOnce(s: seq<Event>, i: nat)
    requires i < |s|
    requires forall p, q :: 0 <= p < q < |s| ==> s[p] != s[q]
    ensures multiset(s)[s[i]] == 1
    decreases |s|
  {
    if i == |s| - 1 {
      assert s == s[..i] + [s[i]];
      assert s[i] !in s[..i];
    } else {
      assert s == s[..|s| - 1] + [s[|s| - 1]];
      CountOnce(s[..|s| - 1], i);
    }
  }

  /** In a sequence of distinct elements, equal elements sit at the same index. */
  lemma DistinctIndex(s: seq<Event>, p: nat, q: nat)
    requires p < |s| && q < |s| && s[p] == s[q]
    requires forall a, b :: 0 <= a < b < |s| ==> s[a] != s[b]
    ensures p == q
  {
  }

  /** The registrations of `paths`, in order, all on `host`. */
  function Registrations(paths: seq<string>, host: Option<Host>): (r: seq<Registration>)
    ensures |r| == |paths|
    ensures forall i :: 0 <= i < |r| ==> r[i].path == paths[i] && r[i].host == host
  {
    seq(|paths|, i requires 0 <= i < |paths| => Registration(paths[i], host))
  }

  /** Registering the files of `paths` one after another. */
  lemma RegistrationsSnoc(paths: seq<string>, path: string, host: Option<Host>)
    ensures Registrations(paths + [path], host) == Registrations(paths, host) + [Registration(path, host)]
  {
  }

  /**
   * `SZONESCleanuper`: the files to remove when the transaction ends. Only
   * the registrations are modelled; what its cleanup methods do with them
   * is not part of this model.
   */
  class Cleaner {
    var files: seq<Registration>

    constructor ()
      ensures files == []
    {
      files := [];
    }

    /** `add_tmp_file(path, host_spec)`: registers one more file. */
    method AddTmpFile(path: string, host: Option<Host>)
      modifies this
      ensures files == old(files) + [Registration(path, host)]
    {
      files := files + [Registration(path, host)];
    }
  }
}
