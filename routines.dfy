/**
 * The public routines of `SZONESDeploymentRoutines`. Each one runs its begin
 * block step by step, taking every step's outcome from the `World`, hands
 * the exception the block ends with to the shared `rescue` / `else` /
 * `ensure` clauses, and returns what the call ends with and the steps it
 * ran; the routines that register files themselves also return what their
 * cleaner was given.
 */
module Routines {
  import opened Common
  import opened ErrorHandlers
  import opened Transactions
  import opened Naming
  import opened Paths

  /** The options hash of a routine; a missing flag reads as false. */
  datatype Options = Options(
    boot: bool,
    force: bool,
    halt: bool,
    copy: Option<bool>,
    tmpDir: Option<string>,
    zonepath: Option<string>,
    pathToManifest: Option<string>,
    pathToProfile: Option<string>)

  /** The boot of the new zone that the `else` clause runs when `boot` was asked for. */
  function BootOf(boot: bool, zone: string, on: Where): Option<Event> {
    if boot then Some(Boot(zone, on)) else None
  }

  /** `remove_zone(zone_name) if force`. */
  function RemoveIfForced(force: bool, zone: string, on: Where, w: World): seq<Step> {
    if force then [Step(Remove(zone, on), w.remove)] else []
  }

  /**
   * The compensating reboot of the source zone that `ensure` runs when
   * `halt && booted`: the halt was asked for and `reached`, it returned,
   * and it did not report the zone as already halted.
   */
  function RebootOf(halt: bool, reached: bool, h: HaltOutcome, source: string, on: Where): (r: Option<Event>)
    ensures r.Some? <==> RebootOwed(halt, reached, h)
    ensures r.Some? ==> r.value == RebootSource(source, on)
  {
    if RebootOwed(halt, reached, h) then Some(RebootSource(source, on)) else None
  }

  /** `halt_zone(source_zone_name)` when `halt` was asked for. */
  function HaltIfAsked(halt: bool, source: string, on: Where, w: World): (r: seq<Step>)
    ensures forall i :: 0 <= i < |r| ==> Preparing(r[i].event)
  {
    if halt then [Step(Halt(source, on), HaltStep(w.halt))] else []
  }

  /** A step that prepares the installation: a plain step that neither removes nor installs a zone. */
  predicate Preparing(e: Event) {
    BlockStep(e) && !e.Remove? && !e.Provision?
  }

  /** A begin block made of preparing steps, the removal of the new zone when forced, and its installation. */
  function Block(pre: seq<Step>, force: bool, zone: string, on: Where, w: World, provision: Step): seq<Step> {
    pre + RemoveIfForced(force, zone, on, w) + [provision]
  }

  /**
   * Such a block holds only plain steps, and it removes the new zone before
   * it installs it, and only when forced, whatever the concluding clauses
   * add after it.
   */
  lemma BlockFacts(pre: seq<Step>, force: bool, zone: string, on: Where, w: World, provision: Step, block: seq<Event>)
    requires forall i :: 0 <= i < |pre| ==> Preparing(pre[i].event)
    requires provision.event.Provision?
    requires block == Run(Block(pre, force, zone, on, w, provision))
    ensures forall e :: e in block ==> BlockStep(e)
    ensures forall trace :: block <= trace && OnlyConcludingAfter(block, trace) ==> RemovesFirst(trace, force, Remove(zone, on))
  {
    var steps := Block(pre, force, zone, on, w, provision);
    forall i | 0 <= i < |steps|
      ensures BlockStep(steps[i].event)
    {
      if i < |pre| {
        assert steps[i] == pre[i];
      }
    }
    RunBlockSteps(steps);
    RunRemovesFirst([], pre, force, Remove(zone, on), w.remove, provision);
    assert [] + block == block;
    forall trace | block <= trace && OnlyConcludingAfter(block, trace)
      ensures RemovesFirst(trace, force, Remove(zone, on))
    {
      RemovesFirstKept(block, trace, force, Remove(zone, on));
    }
  }

  /**
   * The end that every begin block shares: the forced removal and the
   * installation after the preparing steps `pre`, then the concluding
   * clauses with the given boot, reboot and sessions to close in `ensure`.
   */
  method FinishBlock(block: seq<Event>, err: Option<Exception>, ghost pre: seq<Step>,
                     force: bool, zone: string, on: Where, w: World, provision: Step,
                     boot: Option<Event>, reboot: Option<Event>, rebootOutcome: Outcome, closes: seq<Event>)
    returns (result: Result, trace: seq<Event>)
    requires block == Run(pre) && err == Failure(pre)
    requires forall i :: 0 <= i < |pre| ==> Preparing(pre[i].event)
    requires provision.event.Provision?
    requires boot.Some? ==> boot.value.Boot?
    requires reboot.Some? ==> reboot.value.RebootSource?
    requires forall i :: 0 <= i < |closes| ==> closes[i].CloseSession?
    requires forall i, j :: 0 <= i < j < |closes| ==> closes[i] != closes[j]
    ensures var steps := Block(pre, force, zone, on, w, provision);
            && EndsBlock(Run(steps), trace, closes)
            && Concluded(trace, result, Failure(steps), boot, w.boot, reboot, rebootOutcome, closes)
            && RemovesFirst(trace, force, Remove(zone, on))
    ensures forall e :: e in trace && e.CloseSession? ==> e in closes
  {
    var events, failure := PerformRemoveAndProvision(block, err, pre, force, zone, on, w, provision);
    BlockReady(pre, force, zone, on, w, provision, events, boot, reboot, closes);
    var ending := Conclude(events, failure, boot, w.boot, reboot, rebootOutcome, closes);
    result, trace := ending.0, ending.1;
    EndsBlockCloses(events, trace, closes);
  }

  /** A begin block of preparing steps, a removal and an installation is ready for the concluding clauses. */
  lemma BlockReady(pre: seq<Step>, force: bool, zone: string, on: Where, w: World, provision: Step,
                   events: seq<Event>, boot: Option<Event>, reboot: Option<Event>, closes: seq<Event>)
    requires forall i :: 0 <= i < |pre| ==> Preparing(pre[i].event)
    requires provision.event.Provision?
    requires events == Run(Block(pre, force, zone, on, w, provision))
    requires boot.Some? ==> boot.value.Boot?
    requires reboot.Some? ==> reboot.value.RebootSource?
    requires forall i :: 0 <= i < |closes| ==> closes[i].CloseSession?
    requires forall i, j :: 0 <= i < j < |closes| ==> closes[i] != closes[j]
    ensures ConcludeReady(events, boot, reboot, closes)
    ensures forall e :: e in events ==> BlockStep(e)
    ensures forall trace :: events <= trace && OnlyConcludingAfter(events, trace) ==> RemovesFirst(trace, force, Remove(zone, on))
  {
    BlockFacts(pre, force, zone, on, w, provision, events);
    ReadyToConclude(events, boot, reboot, closes);
  }

  // ---------------------------------------------------------------------
  // From files on the local host
  // ---------------------------------------------------------------------

  /** What `deploy_zone_from_files` installs the zone from. */
  function FilesSource(pathToZonecfg: string, opts: Options): Source {
    Files(pathToZonecfg, opts.pathToManifest, opts.pathToProfile)
  }

  /** The begin block of `deploy_zone_from_files`: the forced removal, then the installation. */
  function FilesSteps(zone: string, pathToZonecfg: string, opts: Options, w: World): seq<Step> {
    Block([], opts.force, zone, Local, w, Step(Provision(zone, Local, FilesSource(pathToZonecfg, opts)), w.provision))
  }

  /**
   * `deploy_zone_from_files`: removes the zone first when forced, installs
   * it from the given zonecfg, manifest and profile, and boots it when asked.
   */
  method DeployZoneFromFiles(zone: string, pathToZonecfg: string, opts: Options, w: World)
    returns (result: Result, trace: seq<Event>)
    ensures var steps := FilesSteps(zone, pathToZonecfg, opts, w);
            && EndsBlock(Run(steps), trace, [])
            && Concluded(trace, result, Failure(steps), BootOf(opts.boot, zone, Local), w.boot, None, Ok, [])
    ensures RemovesFirst(trace, opts.force, Remove(zone, Local))
  {
    var provision := Step(Provision(zone, Local, FilesSource(pathToZonecfg, opts)), w.provision);
    result, trace := FinishBlock([], None, [], opts.force, zone, Local, w, provision, BootOf(opts.boot, zone, Local), None, Ok, []);
  }

  /** `deploy_template_from_files`: the same routine for the zone `template_<name>`. */
  method DeployTemplateFromFiles(name: string, pathToZonecfg: string, opts: Options, w: World)
    returns (result: Result, trace: seq<Event>)
    ensures var zone, steps := TemplateName(name), FilesSteps(TemplateName(name), pathToZonecfg, opts, w);
            && EndsBlock(Run(steps), trace, [])
            && Concluded(trace, result, Failure(steps), BootOf(opts.boot, zone, Local), w.boot, None, Ok, [])
            && RemovesFirst(trace, opts.force, Remove(zone, Local))
  {
    result, trace := DeployZoneFromFiles(TemplateName(name), pathToZonecfg, opts, w);
  }

  // ---------------------------------------------------------------------
  // Clones of a zone
  // ---------------------------------------------------------------------

  /** What the clone routines install the zone from: the source zone, under the joined zonepath. */
  function CloneSource(zone: string, source: string, opts: Options): Source {
    Clone(source, ZonePath(opts.zonepath, zone))
  }

  /** The begin block of `deploy_zone_from_zone`: halt, forced removal, clone. */
  function CloneSteps(zone: string, source: string, opts: Options, w: World): seq<Step> {
    Block(HaltIfAsked(opts.halt, source, Local, w), opts.force, zone, Local, w,
          Step(Provision(zone, Local, CloneSource(zone, source, opts)), w.provision))
  }

  /**
   * `deploy_zone_from_zone`: halts the source zone when asked, removes the
   * new zone first when forced, clones the source into it and boots it when
   * asked; the source zone is booted again in `ensure` when this call
   * halted it.
   */
  method DeployZoneFromZone(zone: string, source: string, opts: Options, w: World)
    returns (result: Result, trace: seq<Event>)
    ensures var steps := CloneSteps(zone, source, opts, w);
            && EndsBlock(Run(steps), trace, [])
            && Concluded(trace, result, Failure(steps), BootOf(opts.boot, zone, Local), w.boot,
                         RebootOf(opts.halt, true, w.halt, source, Local), w.reboot, [])
    ensures RemovesFirst(trace, opts.force, Remove(zone, Local))
  {
    var block, err := PerformHaltIfAsked([], None, [], opts.halt, source, Local, w);
    ghost var pre := HaltIfAsked(opts.halt, source, Local, w);
    assert [] + pre == pre;
    var provision := Step(Provision(zone, Local, CloneSource(zone, source, opts)), w.provision);
    result, trace := FinishBlock(block, err, pre, opts.force, zone, Local, w, provision,
                                 BootOf(opts.boot, zone, Local), RebootOf(opts.halt, true, w.halt, source, Local), w.reboot, []);
  }

  // ---------------------------------------------------------------------
  // From a VM spec on the local host
  // ---------------------------------------------------------------------

  /**
   * The files a VM spec is exported to, in export order: its zonecfg, then
   * its manifest and its profile when it holds them. Which parts it holds is
   * given by the world; the parser that decomposes it is not part of this
   * model.
   */
  function ExportFiles(tmpDir: string, base: string, w: World): seq<string> {
    [ExportPath(tmpDir, base, ZonecfgSuffix)]
      + (if w.hasManifest then [ExportPath(tmpDir, base, ManifestSuffix)] else [])
      + (if w.hasProfile then [ExportPath(tmpDir, base, ProfileSuffix)] else [])
  }

  /** The exports of a VM spec, each with the outcome the world gives it. */
  function ExportSteps(tmpDir: string, base: string, w: World): seq<Step> {
    [Step(Export(ExportPath(tmpDir, base, ZonecfgSuffix)), w.exportZonecfg)]
      + (if w.hasManifest then [Step(Export(ExportPath(tmpDir, base, ManifestSuffix)), w.exportManifest)] else [])
      + (if w.hasProfile then [Step(Export(ExportPath(tmpDir, base, ProfileSuffix)), w.exportProfile)] else [])
  }

  /** The files written by the export events among `events`, in order. */
  function Written(events: seq<Event>): seq<string>
    decreases |events|
  {
    if |events| == 0 then []
    else (if events[0].Export? then [events[0].path] else []) + Written(events[1..])
  }

  lemma {:induction false} WrittenSnoc(events: seq<Event>, e: Event)
    ensures Written(events + [e]) == Written(events) + (if e.Export? then [e.path] else [])
    decreases |events|
  {
    if |events| == 0 {
      assert events + [e] == [e];
      assert [e][1..] == [];
    } else {
      assert (events + [e])[0] == events[0];
      assert (events + [e])[1..] == events[1..] + [e];
      WrittenSnoc(events[1..], e);
    }
  }

  /** When every step of a run exports the file of its position, the completed exports wrote a prefix of the files. */
  lemma {:induction false} CompletedWritesPrefix(steps: seq<Step>, files: seq<string>)
    requires |steps| == |files|
    requires forall i :: 0 <= i < |steps| ==> steps[i].event == Export(files[i])
    ensures Written(Completed(steps)) == files[..|Completed(steps)|]
    decreases |steps|
  {
    if |steps| > 0 && steps[0].outcome.Ok? {
      CompletedWritesPrefix(steps[1..], files[1..]);
      assert Completed(steps) == [steps[0].event] + Completed(steps[1..]);
      assert Completed(steps)[1..] == Completed(steps[1..]);
      assert files[..|Completed(steps)|] == [files[0]] + files[1..][..|Completed(steps[1..])|];
    }
  }

  /** The zonecfg export comes first, the manifest's second and the profile's last, each only when the VM spec has it. */
  lemma ExportFilesLayout(tmpDir: string, base: string, w: World)
    ensures var files := ExportFiles(tmpDir, base, w);
            && |files| == 1 + (if w.hasManifest then 1 else 0) + (if w.hasProfile then 1 else 0)
            && files[0] == ExportPath(tmpDir, base, ZonecfgSuffix)
            && (w.hasManifest ==> files[1] == ExportPath(tmpDir, base, ManifestSuffix))
            && (w.hasProfile ==> files[|files| - 1] == ExportPath(tmpDir, base, ProfileSuffix))
  {
  }

  /** Each export writes the file of the same position. */
  lemma ExportStepsWriteFiles(tmpDir: string, base: string, w: World)
    ensures var files, steps := ExportFiles(tmpDir, base, w), ExportSteps(tmpDir, base, w);
            && |steps| == |files|
            && (forall i :: 0 <= i < |steps| ==> steps[i].event == Export(files[i]))
  {
    var files, steps := ExportFiles(tmpDir, base, w), ExportSteps(tmpDir, base, w);
    var man, prof := if w.hasManifest then 1 else 0, if w.hasProfile then 1 else 0;
    assert |steps| == |files| == 1 + man + prof;
    forall i | 0 <= i < |steps|
      ensures steps[i].event == Export(files[i])
    {
      if i == 0 {
      } else if i == 1 && w.hasManifest {
      } else {
        assert i == 1 + man && w.hasProfile;
      }
    }
  }

  /** The exports of one VM spec write different files. */
  lemma ExportFilesDistinct(tmpDir: string, zone: string, randomId: string, w: World)
    ensures var files := ExportFiles(tmpDir, BaseName(zone, randomId), w);
            forall i, j :: 0 <= i < j < |files| ==> files[i] != files[j]
  {
    ExportPathsDistinct(tmpDir, zone, randomId);
  }

  /** The files a run of the exports wrote before it stopped: a prefix of the export files. */
  lemma ExportsWritePrefix(tmpDir: string, base: string, w: World)
    ensures var steps := ExportSteps(tmpDir, base, w);
            Written(Completed(steps)) == ExportFiles(tmpDir, base, w)[..|Completed(steps)|]
  {
    ExportStepsWriteFiles(tmpDir, base, w);
    CompletedWritesPrefix(ExportSteps(tmpDir, base, w), ExportFiles(tmpDir, base, w));
  }

  /** What the VM spec routines install the zone from: the exported files. */
  function VmSpecSource(tmpDir: string, base: string, w: World): Source {
    Files(ExportPath(tmpDir, base, ZonecfgSuffix),
          if w.hasManifest then Some(ExportPath(tmpDir, base, ManifestSuffix)) else None,
          if w.hasProfile then Some(ExportPath(tmpDir, base, ProfileSuffix)) else None)
  }

  /**
   * Exports the parts of a VM spec to temporary files and hands each file
   * to the cleaner once its export returned. An export that raises ends
   * the preparation: what follows it neither runs nor is registered.
   */
  method ExportVmSpec(tmpDir: string, base: string, w: World, cleaner: Cleaner)
    returns (exported: seq<Event>, err: Option<Exception>)
    modifies cleaner
    ensures exported == Run(ExportSteps(tmpDir, base, w)) && err == Failure(ExportSteps(tmpDir, base, w))
    ensures cleaner.files == old(cleaner.files) + Registrations(Written(Completed(ExportSteps(tmpDir, base, w))), None)
  {
    ghost var before := cleaner.files;
    assert cleaner.files == before + Registrations(Written(Completed([])), None);
    var zonecfg := Step(Export(ExportPath(tmpDir, base, ZonecfgSuffix)), w.exportZonecfg);
    exported, err := ExportOne(cleaner, [], None, before, [], zonecfg);
    ghost var done := [zonecfg];
    assert [] + [zonecfg] == done;
    if w.hasManifest {
      var manifest := Step(Export(ExportPath(tmpDir, base, ManifestSuffix)), w.exportManifest);
      exported, err := ExportOne(cleaner, exported, err, before, done, manifest);
      done := done + [manifest];
    }
    if w.hasProfile {
      var profile := Step(Export(ExportPath(tmpDir, base, ProfileSuffix)), w.exportProfile);
      exported, err := ExportOne(cleaner, exported, err, before, done, profile);
      done := done + [profile];
    }
    assert done == ExportSteps(tmpDir, base, w);
  }

  /**
   * One export: it runs when nothing raised before it, and its file is
   * registered when it returned; `before` is what the cleaner held before
   * the exports.
   */
  method ExportOne(cleaner: Cleaner, exported: seq<Event>, err: Option<Exception>,
                   ghost before: seq<Registration>, ghost done: seq<Step>, s: Step)
    returns (exported': seq<Event>, err': Option<Exception>)
    requires s.event.Export?
    requires exported == Run(done) && err == Failure(done)
    requires cleaner.files == before + Registrations(Written(Completed(done)), None)
    modifies cleaner
    ensures exported' == Run(done + [s]) && err' == Failure(done + [s])
    ensures cleaner.files == before + Registrations(Written(Completed(done + [s])), None)
  {
    exported', err' := Perform(exported, err, done, s);
    ExportRegisters(done, s);
    if err'.None? {
      cleaner.AddTmpFile(s.event.path, None);
    }
  }

  /** The completed exports gain the new file exactly when nothing has raised after its export. */
  lemma ExportRegisters(done: seq<Step>, s: Step)
    requires s.event.Export?
    ensures Registrations(Written(Completed(done + [s])), None) ==
            Registrations(Written(Completed(done)), None) +
              (if Failure(done + [s]).None? then [Registration(s.event.path, None)] else [])
  {
    CompletedSnoc(done, s);
    RunSnoc(done, s);
    if Failure(done + [s]).None? {
      WrittenSnoc(Completed(done), s.event);
      RegistrationsSnoc(Written(Completed(done)), s.event.path, None);
    }
  }

  /** The exports only prepare the installation. */
  lemma ExportStepsPreparing(tmpDir: string, base: string, w: World)
    ensures var steps := ExportSteps(tmpDir, base, w);
            forall i :: 0 <= i < |steps| ==> Preparing(steps[i].event)
  {
    ExportStepsWriteFiles(tmpDir, base, w);
  }

  /**
   * The steps of `deploy_zone_from_vm_spec`: the exports made before its
   * begin block, then the forced removal and the installation from the
   * exported files.
   */
  function VmSpecSteps(zone: string, randomId: string, opts: Options, w: World): seq<Step> {
    var tmpDir, base := TmpDir(opts.tmpDir, DefaultTmpDir), BaseName(zone, randomId);
    Block(ExportSteps(tmpDir, base, w), opts.force, zone, Local, w,
          Step(Provision(zone, Local, VmSpecSource(tmpDir, base, w)), w.provision))
  }

  /**
   * `deploy_zone_from_vm_spec`: exports the zonecfg, manifest and profile of
   * the VM spec to temporary files named after the zone and `randomId`, then
   * removes the zone first when forced, installs it from those files and
   * boots it when asked. An export that raises escapes before the begin
   * block, so none of the concluding clauses runs. `registered` is what the
   * routine itself hands to its cleaner.
   */
  method DeployZoneFromVmSpec(zone: string, randomId: string, opts: Options, w: World)
    returns (result: Result, trace: seq<Event>, registered: seq<Registration>)
    ensures var exports := ExportSteps(TmpDir(opts.tmpDir, DefaultTmpDir), BaseName(zone, randomId), w);
            && registered == Registrations(Written(Completed(exports)), None)
            && (Failure(exports).Some? ==> result == Raised(Failure(exports).value) && trace == Run(exports))
            && (Failure(exports).None? ==>
                  var steps := VmSpecSteps(zone, randomId, opts, w);
                  && EndsBlock(Run(steps), trace, [])
                  && Concluded(trace, result, Failure(steps), BootOf(opts.boot, zone, Local), w.boot, None, Ok, []))
    ensures RemovesFirst(trace, opts.force, Remove(zone, Local))
  {
    var tmpDir, base := TmpDir(opts.tmpDir, DefaultTmpDir), BaseName(zone, randomId);
    var cleaner := new Cleaner();
    var block, err := ExportVmSpec(tmpDir, base, w, cleaner);
    registered := cleaner.files;
    ghost var pre := ExportSteps(tmpDir, base, w);
    ExportStepsPreparing(tmpDir, base, w);
    if err.Some? {
      PreparingOnly(pre, opts.force, Remove(zone, Local));
      result, trace := Raised(err.value), block;
      return;
    }
    var provision := Step(Provision(zone, Local, VmSpecSource(tmpDir, base, w)), w.provision);
    result, trace := FinishBlock(block, err, pre, opts.force, zone, Local, w, provision,
                                 BootOf(opts.boot, zone, Local), None, Ok, []);
  }

  /** `deploy_template_from_vm_spec`: the same routine for the zone `template_<name>`. */
  method DeployTemplateFromVmSpec(name: string, randomId: string, opts: Options, w: World)
    returns (result: Result, trace: seq<Event>, registered: seq<Registration>)
    ensures var zone := TemplateName(name);
            var exports := ExportSteps(TmpDir(opts.tmpDir, DefaultTmpDir), BaseName(zone, randomId), w);
            && registered == Registrations(Written(Completed(exports)), None)
            && (Failure(exports).Some? ==> result == Raised(Failure(exports).value) && trace == Run(exports))
            && (Failure(exports).None? ==>
                  var steps := VmSpecSteps(zone, randomId, opts, w);
                  && EndsBlock(Run(steps), trace, [])
                  && Concluded(trace, result, Failure(steps), BootOf(opts.boot, zone, Local), w.boot, None, Ok, []))
            && RemovesFirst(trace, opts.force, Remove(zone, Local))
  {
    result, trace, registered := DeployZoneFromVmSpec(TemplateName(name), randomId, opts, w);
  }

  // ---------------------------------------------------------------------
  // Sessions opened with a block
  // ---------------------------------------------------------------------

  /** The close of a session that was opened, and nothing for one that was not. */
  function Closing(isOpen: bool, role: Role, host: Host): seq<Event> {
    if isOpen then [CloseSession(role, host)] else []
  }

  /**
   * A session opened with a block is closed at the end of the block, still
   * inside the begin block: the plain steps followed by that close keep the
   * facts of the plain steps.
   */
  lemma SessionBlockFacts(block: seq<Event>, force: bool, removal: Event, closing: seq<Event>)
    requires forall e :: e in block ==> BlockStep(e)
    requires forall trace :: block <= trace && OnlyConcludingAfter(block, trace) ==> RemovesFirst(trace, force, removal)
    requires forall e :: e in closing ==> e.CloseSession?
    ensures forall e :: e in block + closing ==> !e.Concluding()
    ensures forall trace :: block + closing <= trace && OnlyConcludingAfter(block + closing, trace) ==>
                              RemovesFirst(trace, force, removal)
  {
    var events := block + closing;
    forall trace: seq<Event> | events <= trace && OnlyConcludingAfter(events, trace)
      ensures RemovesFirst(trace, force, removal)
    {
      assert trace[..|block|] == events[..|block|] == block;
      forall k | |block| <= k < |trace|
        ensures trace[k].Concluding() || trace[k].CloseSession?
      {
        if k < |events| {
          assert trace[k] == events[k] == closing[k - |block|];
        }
      }
    }
  }

  /** With no session left to close in `ensure`, a block of non-concluding events is ready to conclude. */
  lemma ReadyWithoutCloses(events: seq<Event>, boot: Option<Event>, reboot: Option<Event>)
    requires forall e :: e in events ==> !e.Concluding()
    requires boot.Some? ==> boot.value.Boot?
    requires reboot.Some? ==> reboot.value.RebootSource?
    ensures ConcludeReady(events, boot, reboot, [])
  {
  }

  // ---------------------------------------------------------------------
  // From files, on a remote host
  // ---------------------------------------------------------------------

  /** `files_to_copy`: the zonecfg, then the manifest and the profile when given. */
  function CopySources(pathToZonecfg: string, opts: Options): (r: seq<string>)
    ensures |r| == 1 + (if opts.pathToManifest.Some? then 1 else 0) + (if opts.pathToProfile.Some? then 1 else 0)
    ensures r[0] == pathToZonecfg
    ensures opts.pathToManifest.Some? ==> r[1] == opts.pathToManifest.value
    ensures opts.pathToProfile.Some? ==> r[|r| - 1] == opts.pathToProfile.value
  {
    [pathToZonecfg]
      + (if opts.pathToManifest.Some? then [opts.pathToManifest.value] else [])
      + (if opts.pathToProfile.Some? then [opts.pathToProfile.value] else [])
  }

  /**
   * `dest_files` as written: the entry pushed for the profile is the
   * profile's own path rather than its destination name.
   */
  function CopyDestinationsAsWritten(tmpDir: string, randomId: string, pathToZonecfg: string, opts: Options): (r: seq<string>)
    ensures |r| == |CopySources(pathToZonecfg, opts)|
    ensures forall i :: 0 <= i < |r| && !(opts.pathToProfile.Some? && i == |r| - 1) ==>
              r[i] == DestName(tmpDir, randomId, CopySources(pathToZonecfg, opts)[i])
    ensures opts.pathToProfile.Some? ==> r[|r| - 1] == opts.pathToProfile.value
  {
    var zonecfgDest := DestName(tmpDir, randomId, pathToZonecfg);
    match (opts.pathToManifest, opts.pathToProfile)
    case (Some(manifest), Some(profile)) => [zonecfgDest, DestName(tmpDir, randomId, manifest), profile]
    case (Some(manifest), None) => [zonecfgDest, DestName(tmpDir, randomId, manifest)]
    case (None, Some(profile)) => [zonecfgDest, profile]
    case (None, None) => [zonecfgDest]
  }

  /** `dest_files` as intended: every file to copy goes to its own destination name. */
  function CopyDestinations(tmpDir: string, randomId: string, pathToZonecfg: string, opts: Options): (r: seq<string>)
    ensures |r| == |CopySources(pathToZonecfg, opts)|
    ensures forall i :: 0 <= i < |r| ==> r[i] == DestName(tmpDir, randomId, CopySources(pathToZonecfg, opts)[i])
  {
    var files := CopySources(pathToZonecfg, opts);
    seq(|files|, i requires 0 <= i < |files| => DestName(tmpDir, randomId, files[i]))
  }

  /** What the remote installation reads: the destination names of the copied files. */
  function RemoteFilesSource(tmpDir: string, randomId: string, pathToZonecfg: string, opts: Options): Source {
    Files(DestName(tmpDir, randomId, pathToZonecfg),
          if opts.pathToManifest.Some? then Some(DestName(tmpDir, randomId, opts.pathToManifest.value)) else None,
          if opts.pathToProfile.Some? then Some(DestName(tmpDir, randomId, opts.pathToProfile.value)) else None)
  }

  /** Every file the remote installation reads is one the copies write. */
  lemma InstallationReadsCopies(tmpDir: string, randomId: string, pathToZonecfg: string, opts: Options)
    ensures var src, dests := RemoteFilesSource(tmpDir, randomId, pathToZonecfg, opts),
                              CopyDestinations(tmpDir, randomId, pathToZonecfg, opts);
            && src.zonecfg in dests
            && (src.manifest.Some? ==> src.manifest.value in dests)
            && (src.profile.Some? ==> src.profile.value in dests)
  {
    var files, dests := CopySources(pathToZonecfg, opts), CopyDestinations(tmpDir, randomId, pathToZonecfg, opts);
    assert dests[0] == DestName(tmpDir, randomId, files[0]);
    if opts.pathToManifest.Some? {
      assert files[1] == opts.pathToManifest.value;
      assert dests[1] == DestName(tmpDir, randomId, files[1]);
    }
    if opts.pathToProfile.Some? {
      assert files[|files| - 1] == opts.pathToProfile.value;
      assert dests[|dests| - 1] == DestName(tmpDir, randomId, files[|files| - 1]);
    }
  }

  /**
   * As written, a profile given by a plain name such as `p.xml` is copied
   * to that name on the host, while the installation reads
   * `/var/tmp/<random id>_p.xml`, which no copy writes.
   */
  lemma ProfileNotCopiedAsWritten(randomId: string, zonecfg: string, profile: string)
    requires !StartsWithSep(randomId)
    requires zonecfg != "" && '/' !in zonecfg && profile != "" && '/' !in profile && zonecfg != profile
    ensures var opts := Options(false, false, false, None, None, None, None, Some(profile));
            var src := RemoteFilesSource(DefaultTmpDir, randomId, zonecfg, opts);
            && src.profile == Some(DefaultTmpDir + randomId + "_" + profile)
            && src.profile.value !in CopyDestinationsAsWritten(DefaultTmpDir, randomId, zonecfg, opts)
  {
    var opts := Options(false, false, false, None, None, None, None, Some(profile));
    var head := DefaultTmpDir + randomId + "_";
    DestNameConcrete(randomId, profile);
    DestNameConcrete(randomId, zonecfg);
    assert RemoteFilesSource(DefaultTmpDir, randomId, zonecfg, opts).profile == Some(head + profile);
    assert CopyDestinationsAsWritten(DefaultTmpDir, randomId, zonecfg, opts) == [head + zonecfg] + [] + [profile];
    NameNotAmong(head, zonecfg, profile);
  }

  /** A name behind a non-empty prefix is neither the bare name nor another name behind the same prefix. */
  lemma NameNotAmong(head: string, other: string, name: string)
    requires head != "" && other != name
    ensures head + name !in [head + other, name]
  {
    assert (head + name)[|head|..] == name;
    assert (head + other)[|head|..] == other;
    assert |head + name| > |name|;
  }

  /** In the default directory a plain file name lands at `/var/tmp/<random id>_<name>`. */
  lemma DestNameConcrete(randomId: string, name: string)
    requires !StartsWithSep(randomId) && name != "" && '/' !in name
    ensures DestName(DefaultTmpDir, randomId, name) == DefaultTmpDir + randomId + "_" + name
  {
    LastComponentOfPlainName(name);
    DestNameInDefaultDir(randomId, name);
  }


  /** The copy commands: the i-th file to the i-th destination, one command each. */
  function CopySteps(files: seq<string>, dests: seq<string>, host: Host, w: World): (r: seq<Step>)
    requires |files| == |dests|
    ensures |r| == |files|
  {
    seq(|files|, i requires 0 <= i < |files| => Step(Copy([files[i]], host, dests[i]), CopyOutcome(w, i)))
  }

  /** The steps of `deploy_rzone_from_files` before the zone is removed or installed: the copies of `files` to `dests`, then the session. */
  function RFilesPrelude(host: Host, files: seq<string>, dests: seq<string>, w: World): seq<Step>
    requires |files| == |dests|
  {
    CopySteps(files, dests, host, w) + [Step(OpenSession(DestSide, host), w.openDest)]
  }

  /** The begin block of `deploy_rzone_from_files` with the copies going to `dests`, without the close of the session. */
  function RFilesSteps(zone: string, host: Host, pathToZonecfg: string, randomId: string, opts: Options,
                       dests: seq<string>, w: World): seq<Step>
    requires |dests| == |CopySources(pathToZonecfg, opts)|
  {
    var tmpDir := TmpDir(opts.tmpDir, DefaultTmpDir);
    Block(RFilesPrelude(host, CopySources(pathToZonecfg, opts), dests, w), opts.force, zone, At(host), w,
          Step(Provision(zone, At(host), RemoteFilesSource(tmpDir, randomId, pathToZonecfg, opts)), w.provision))
  }

  /**
   * As written, a zonecfg given by a plain name such as `z.cfg` is copied
   * to `/var/tmp/<random id>_z.cfg` on the host, but the cleaner is told to
   * remove `z.cfg` there instead.
   */
  lemma CopyNotRegisteredAsWritten(randomId: string, zonecfg: string, host: Host)
    requires !StartsWithSep(randomId) && zonecfg != "" && '/' !in zonecfg
    ensures var opts := Options(false, false, false, None, None, None, None, None);
            var dest := CopyDestinations(DefaultTmpDir, randomId, zonecfg, opts)[0];
            && dest == DefaultTmpDir + randomId + "_" + zonecfg
            && Registration(dest, Some(host)) !in Registrations(CopySources(zonecfg, opts), Some(host))
  {
    var opts := Options(false, false, false, None, None, None, None, None);
    DestNameConcrete(randomId, zonecfg);
    assert Registrations(CopySources(zonecfg, opts), Some(host)) == [Registration(zonecfg, Some(host))];
    assert |DefaultTmpDir + randomId + "_" + zonecfg| > |zonecfg|;
  }

  /**
   * The boot that the `else` clause of the remote routines runs as written
   * is `boot_zone(zone_name).exec` without a session, so it runs on this
   * host: a routine that concludes with it never boots the zone it
   * installed on `host`, and a call that returns true has booted a zone of
   * that name on this host instead.
   */
  lemma RemoteBootMissesZoneAsWritten(trace: seq<Event>, result: Result, blockError: Option<Exception>,
                                      bootOutcome: Outcome, zone: string, host: Host)
    requires Concluded(trace, result, blockError, Some(Boot(zone, Local)), bootOutcome, None, Ok, [])
    ensures Boot(zone, At(host)) !in trace
    ensures result == Returned(true) ==> Boot(zone, Local) in trace
  {
  }

  /**
   * `deploy_rzone_from_files` as written: copies the zonecfg, manifest and
   * profile to `host`, one command per file, to the destinations of
   * `dest_files` as written (the profile to its own path); once every copy
   * returned, registers the paths of the files on this host with `host`;
   * then, in a session opened with a block on `host`, removes the zone
   * first when forced and installs it from `<tmp dir>/<random id>_<name>`;
   * the session is closed as the block ends. The boot asked for runs on
   * this host. `opts[:copy] || true` is always true (`CopyFlag`), so the
   * copies always run.
   */
  method DeployRZoneFromFiles(zone: string, host: Host, pathToZonecfg: string, randomId: string, opts: Options, w: World)
    returns (result: Result, trace: seq<Event>, registered: seq<Registration>)
    ensures var files := CopySources(pathToZonecfg, opts);
            var dests := CopyDestinationsAsWritten(TmpDir(opts.tmpDir, DefaultTmpDir), randomId, pathToZonecfg, opts);
            var steps := RFilesSteps(zone, host, pathToZonecfg, randomId, opts, dests, w);
            var isOpen := Failure(RFilesPrelude(host, files, dests, w)).None?;
            && registered == (if Failure(CopySteps(files, dests, host, w)).None? then Registrations(files, Some(host)) else [])
            && EndsBlock(Run(steps) + Closing(isOpen, DestSide, host), trace, [])
            && Concluded(trace, result, Failure(steps), BootOf(opts.boot, zone, Local), w.boot, None, Ok, [])
    ensures RemovesFirst(trace, opts.force, Remove(zone, At(host)))
    ensures Boot(zone, At(host)) !in trace
    ensures opts.boot && result == Returned(true) ==> Boot(zone, Local) in trace
  {
    var files := CopySources(pathToZonecfg, opts);
    var dests := CopyDestinationsAsWritten(TmpDir(opts.tmpDir, DefaultTmpDir), randomId, pathToZonecfg, opts);
    result, trace, registered := RFilesRoutine(zone, host, pathToZonecfg, randomId, opts, w, dests, files, Local);
    if opts.boot {
      RemoteBootMissesZoneAsWritten(trace, result, Failure(RFilesSteps(zone, host, pathToZonecfg, randomId, opts, dests, w)),
                                    w.boot, zone, host);
    }
  }

  /**
   * `deploy_rzone_from_files` as intended: every file is copied to its own
   * destination name, those copies are what the cleaner is told to remove
   * on `host`, and the zone is booted on `host`, where it was installed.
   */
  method IntendedDeployRZoneFromFiles(zone: string, host: Host, pathToZonecfg: string, randomId: string, opts: Options, w: World)
    returns (result: Result, trace: seq<Event>, registered: seq<Registration>)
    ensures var files := CopySources(pathToZonecfg, opts);
            var dests := CopyDestinations(TmpDir(opts.tmpDir, DefaultTmpDir), randomId, pathToZonecfg, opts);
            var steps := RFilesSteps(zone, host, pathToZonecfg, randomId, opts, dests, w);
            var isOpen := Failure(RFilesPrelude(host, files, dests, w)).None?;
            && registered == (if Failure(CopySteps(files, dests, host, w)).None? then Registrations(dests, Some(host)) else [])
            && EndsBlock(Run(steps) + Closing(isOpen, DestSide, host), trace, [])
            && Concluded(trace, result, Failure(steps), BootOf(opts.boot, zone, At(host)), w.boot, None, Ok, [])
    ensures RemovesFirst(trace, opts.force, Remove(zone, At(host)))
  {
    var dests := CopyDestinations(TmpDir(opts.tmpDir, DefaultTmpDir), randomId, pathToZonecfg, opts);
    result, trace, registered := RFilesRoutine(zone, host, pathToZonecfg, randomId, opts, w, dests, dests, At(host));
  }

  /**
   * The body of `deploy_rzone_from_files`, for the copies going to `dests`,
   * the paths `kept` registered with `host` once every copy returned, and
   * the boot of the new zone run on `bootOn`.
   */
  method RFilesRoutine(zone: string, host: Host, pathToZonecfg: string, randomId: string, opts: Options, w: World,
                       dests: seq<string>, kept: seq<string>, bootOn: Where)
    returns (result: Result, trace: seq<Event>, registered: seq<Registration>)
    requires |dests| == |CopySources(pathToZonecfg, opts)|
    ensures var files := CopySources(pathToZonecfg, opts);
            var steps := RFilesSteps(zone, host, pathToZonecfg, randomId, opts, dests, w);
            var isOpen := Failure(RFilesPrelude(host, files, dests, w)).None?;
            && registered == (if Failure(CopySteps(files, dests, host, w)).None? then Registrations(kept, Some(host)) else [])
            && EndsBlock(Run(steps) + Closing(isOpen, DestSide, host), trace, [])
            && Concluded(trace, result, Failure(steps), BootOf(opts.boot, zone, bootOn), w.boot, None, Ok, [])
    ensures RemovesFirst(trace, opts.force, Remove(zone, At(host)))
  {
    var tmpDir := TmpDir(opts.tmpDir, DefaultTmpDir);
    var files := CopySources(pathToZonecfg, opts);
    var cleaner := new Cleaner();
    var block, err := CopyFiles(files, dests, host, w);
    ghost var done := CopySteps(files, dests, host, w);
    if err.None? {
      RegisterCopies(cleaner, kept, host);
    }
    registered := cleaner.files;
    CopyStepsPreparing(files, dests, host, w);
    var provision := Step(Provision(zone, At(host), RemoteFilesSource(tmpDir, randomId, pathToZonecfg, opts)), w.provision);
    result, trace := DeployOverSession(block, err, done, host, zone, opts.force, provision, opts.boot, bootOn, w);
  }

  /** A preparing step after preparing steps. */
  lemma PreparingSnoc(steps: seq<Step>, s: Step)
    requires forall i :: 0 <= i < |steps| ==> Preparing(steps[i].event)
    requires Preparing(s.event)
    ensures var more := steps + [s];
            forall i :: 0 <= i < |more| ==> Preparing(more[i].event)
  {
    var more := steps + [s];
    forall i | 0 <= i < |more|
      ensures Preparing(more[i].event)
    {
      if i < |steps| {
        assert more[i] == steps[i];
      }
    }
  }

  /** Copy commands only prepare the installation. */
  lemma CopyStepsPreparing(files: seq<string>, dests: seq<string>, host: Host, w: World)
    requires |files| == |dests|
    ensures var steps := CopySteps(files, dests, host, w);
            forall i :: 0 <= i < |steps| ==> Preparing(steps[i].event)
  {
  }

  /**
   * The part of a remote routine from its session on: a session opened with
   * a block on `host`, in which the zone is removed first when forced and
   * then installed, closed as the block ends; then the concluding clauses,
   * with the boot of the zone on `bootOn` when asked. `lead` holds the steps
   * of the begin block before the session.
   */
  method DeployOverSession(block: seq<Event>, err: Option<Exception>, ghost lead: seq<Step>, host: Host,
                           zone: string, force: bool, provision: Step, boot: bool, bootOn: Where, w: World)
    returns (result: Result, trace: seq<Event>)
    requires block == Run(lead) && err == Failure(lead)
    requires forall i :: 0 <= i < |lead| ==> Preparing(lead[i].event)
    requires provision.event.Provision?
    ensures var pre := lead + [Step(OpenSession(DestSide, host), w.openDest)];
            var steps := Block(pre, force, zone, At(host), w, provision);
            && EndsBlock(Run(steps) + Closing(Failure(pre).None?, DestSide, host), trace, [])
            && Concluded(trace, result, Failure(steps), BootOf(boot, zone, bootOn), w.boot, None, Ok, [])
            && RemovesFirst(trace, force, Remove(zone, At(host)))
  {
    var open := Step(OpenSession(DestSide, host), w.openDest);
    var events, failure := Perform(block, err, lead, open);
    ghost var pre := lead + [open];
    PreparingSnoc(lead, open);
    var closing := Closing(failure.None?, DestSide, host);
    events, failure := PerformRemoveAndProvision(events, failure, pre, force, zone, At(host), w, provision);
    SessionReady(pre, force, zone, At(host), w, provision, events, closing, BootOf(boot, zone, bootOn));
    var ending := Conclude(events + closing, failure, BootOf(boot, zone, bootOn), w.boot, None, Ok, []);
    result, trace := ending.0, ending.1;
  }

  /**
   * A begin block whose session closes as the block ends is ready for the
   * concluding clauses, and whatever they add keeps the removal before the
   * installation.
   */
  lemma SessionReady(pre: seq<Step>, force: bool, zone: string, on: Where, w: World, provision: Step,
                     events: seq<Event>, closing: seq<Event>, boot: Option<Event>)
    requires forall i :: 0 <= i < |pre| ==> Preparing(pre[i].event)
    requires provision.event.Provision?
    requires events == Run(Block(pre, force, zone, on, w, provision))
    requires forall e :: e in closing ==> e.CloseSession?
    requires boot.Some? ==> boot.value.Boot?
    ensures ConcludeReady(events + closing, boot, None, [])
    ensures forall trace :: events + closing <= trace && OnlyConcludingAfter(events + closing, trace) ==>
                              RemovesFirst(trace, force, Remove(zone, on))
  {
    BlockFacts(pre, force, zone, on, w, provision, events);
    SessionBlockFacts(events, force, Remove(zone, on), closing);
    ReadyWithoutCloses(events + closing, boot, None);
  }

  /** The copy commands, one file after the other, until one raises. */
  method CopyFiles(files: seq<string>, dests: seq<string>, host: Host, w: World)
    returns (block: seq<Event>, err: Option<Exception>)
    requires |files| == |dests|
    ensures block == Run(CopySteps(files, dests, host, w)) && err == Failure(CopySteps(files, dests, host, w))
  {
    block, err := [], None;
    ghost var steps := CopySteps(files, dests, host, w);
    var i := 0;
    while i < |files|
      invariant 0 <= i <= |files|
      invariant block == Run(steps[..i]) && err == Failure(steps[..i])
    {
      var s := Step(Copy([files[i]], host, dests[i]), CopyOutcome(w, i));
      assert steps[i] == s;
      assert steps[..i + 1] == steps[..i] + [s];
      block, err := Perform(block, err, steps[..i], s);
      i := i + 1;
    }
    assert steps[..i] == steps;
  }

  /** Hands each copied file to the cleaner, with the host it was copied to. */
  method RegisterCopies(cleaner: Cleaner, dests: seq<string>, host: Host)
    modifies cleaner
    ensures cleaner.files == old(cleaner.files) + Registrations(dests, Some(host))
  {
    var j := 0;
    while j < |dests|
      invariant 0 <= j <= |dests|
      invariant cleaner.files == old(cleaner.files) + Registrations(dests[..j], Some(host))
    {
      cleaner.AddTmpFile(dests[j], Some(host));
      RegistrationsSnoc(dests[..j], dests[j], Some(host));
      assert dests[..j + 1] == dests[..j] + [dests[j]];
      j := j + 1;
    }
    assert dests[..j] == dests;
  }

  // ---------------------------------------------------------------------
  // Shared steps of the begin blocks
  // ---------------------------------------------------------------------

  /** Preparing steps followed by preparing steps. */
  lemma PreparingAppend(a: seq<Step>, b: seq<Step>)
    requires forall i :: 0 <= i < |a| ==> Preparing(a[i].event)
    requires forall i :: 0 <= i < |b| ==> Preparing(b[i].event)
    ensures var c := a + b;
            forall i :: 0 <= i < |c| ==> Preparing(c[i].event)
  {
    var c := a + b;
    forall i | 0 <= i < |c|
      ensures Preparing(c[i].event)
    {
      if i < |a| {
        assert c[i] == a[i];
      } else {
        assert c[i] == b[i - |a|];
      }
    }
  }

  /** Runs the halt of the source zone when it was asked for, after the steps `done`. */
  method PerformHaltIfAsked(block: seq<Event>, err: Option<Exception>, ghost done: seq<Step>,
                            halt: bool, source: string, on: Where, w: World)
    returns (block': seq<Event>, err': Option<Exception>)
    requires block == Run(done) && err == Failure(done)
    ensures var steps := done + HaltIfAsked(halt, source, on, w);
            block' == Run(steps) && err' == Failure(steps)
  {
    block', err' := block, err;
    if halt {
      block', err' := Perform(block, err, done, Step(Halt(source, on), HaltStep(w.halt)));
    } else {
      assert done + [] == done;
    }
  }

  /** Runs the forced removal and the installation that end every begin block. */
  method PerformRemoveAndProvision(block: seq<Event>, err: Option<Exception>, ghost pre: seq<Step>,
                                   force: bool, zone: string, on: Where, w: World, provision: Step)
    returns (block': seq<Event>, err': Option<Exception>)
    requires block == Run(pre) && err == Failure(pre)
    ensures var steps := Block(pre, force, zone, on, w, provision);
            block' == Run(steps) && err' == Failure(steps)
  {
    ghost var done := pre;
    block', err' := block, err;
    if force {
      var removal := Step(Remove(zone, on), w.remove);
      block', err' := Perform(block', err', done, removal);
      done := done + [removal];
    }
    block', err' := Perform(block', err', done, provision);
    done := done + [provision];
    assert done == Block(pre, force, zone, on, w, provision);
  }

  /** A run of preparing steps alone removes nothing and installs nothing. */
  lemma PreparingOnly(steps: seq<Step>, force: bool, removal: Event)
    requires forall i :: 0 <= i < |steps| ==> Preparing(steps[i].event)
    requires removal.Remove?
    ensures RemovesFirst(Run(steps), force, removal)
  {
    var r := Run(steps);
    forall k | 0 <= k < |r|
      ensures !r[k].Provision? && r[k] != removal
    {
      assert r[k] == steps[k].event;
    }
  }

  // ---------------------------------------------------------------------
  // From a VM spec, on a remote host
  // ---------------------------------------------------------------------

  /**
   * The steps of `deploy_rzone_from_vm_spec` before its session: the
   * exports, then one command that copies all exported files into the
   * temporary directory of the host.
   */
  function RVmSpecLead(zone: string, host: Host, randomId: string, opts: Options, w: World): seq<Step> {
    var tmpDir, base := TmpDir(opts.tmpDir, DefaultTmpDir), BaseName(zone, randomId);
    ExportSteps(tmpDir, base, w) + [Step(Copy(ExportFiles(tmpDir, base, w), host, tmpDir), CopyOutcome(w, 0))]
  }

  /** The begin block of `deploy_rzone_from_vm_spec`, with the exports before it and without the close of the session. */
  function RVmSpecSteps(zone: string, host: Host, randomId: string, opts: Options, w: World): seq<Step> {
    var tmpDir, base := TmpDir(opts.tmpDir, DefaultTmpDir), BaseName(zone, randomId);
    Block(RVmSpecLead(zone, host, randomId, opts, w) + [Step(OpenSession(DestSide, host), w.openDest)],
          opts.force, zone, At(host), w, Step(Provision(zone, At(host), VmSpecSource(tmpDir, base, w)), w.provision))
  }

  /**
   * `deploy_rzone_from_vm_spec` as written: exports the VM spec to temporary
   * files as `deploy_zone_from_vm_spec` does, copies them with one command
   * into the temporary directory of `host` and registers them there; then,
   * in a session opened with a block on `host`, removes the zone first when
   * forced and installs it from the files. An export that raises escapes
   * before the begin block. The boot asked for runs on this host, so the
   * zone installed on `host` is never booted.
   */
  method DeployRZoneFromVmSpec(zone: string, host: Host, randomId: string, opts: Options, w: World)
    returns (result: Result, trace: seq<Event>, registered: seq<Registration>)
    ensures var tmpDir, base := TmpDir(opts.tmpDir, DefaultTmpDir), BaseName(zone, randomId);
            var exports, lead := ExportSteps(tmpDir, base, w), RVmSpecLead(zone, host, randomId, opts, w);
            && registered == Registrations(Written(Completed(exports)), None) +
                             (if Failure(lead).None? then Registrations(ExportFiles(tmpDir, base, w), Some(host)) else [])
            && (Failure(exports).Some? ==> result == Raised(Failure(exports).value) && trace == Run(exports))
            && (Failure(exports).None? ==>
                  var pre := lead + [Step(OpenSession(DestSide, host), w.openDest)];
                  var steps := RVmSpecSteps(zone, host, randomId, opts, w);
                  && EndsBlock(Run(steps) + Closing(Failure(pre).None?, DestSide, host), trace, [])
                  && Concluded(trace, result, Failure(steps), BootOf(opts.boot, zone, Local), w.boot, None, Ok, []))
    ensures RemovesFirst(trace, opts.force, Remove(zone, At(host)))
    ensures Boot(zone, At(host)) !in trace
    ensures opts.boot && result == Returned(true) ==> Boot(zone, Local) in trace
  {
    result, trace, registered := RVmSpecRoutine(zone, host, randomId, opts, w, Local);
    ghost var exports := ExportSteps(TmpDir(opts.tmpDir, DefaultTmpDir), BaseName(zone, randomId), w);
    if opts.boot && Failure(exports).None? {
      RemoteBootMissesZoneAsWritten(trace, result, Failure(RVmSpecSteps(zone, host, randomId, opts, w)), w.boot, zone, host);
    }
  }

  /** `deploy_rzone_from_vm_spec` as intended: the same routine, with the zone booted on `host`, where it was installed. */
  method IntendedDeployRZoneFromVmSpec(zone: string, host: Host, randomId: string, opts: Options, w: World)
    returns (result: Result, trace: seq<Event>, registered: seq<Registration>)
    ensures var tmpDir, base := TmpDir(opts.tmpDir, DefaultTmpDir), BaseName(zone, randomId);
            var exports, lead := ExportSteps(tmpDir, base, w), RVmSpecLead(zone, host, randomId, opts, w);
            && registered == Registrations(Written(Completed(exports)), None) +
                             (if Failure(lead).None? then Registrations(ExportFiles(tmpDir, base, w), Some(host)) else [])
            && (Failure(exports).Some? ==> result == Raised(Failure(exports).value) && trace == Run(exports))
            && (Failure(exports).None? ==>
                  var pre := lead + [Step(OpenSession(DestSide, host), w.openDest)];
                  var steps := RVmSpecSteps(zone, host, randomId, opts, w);
                  && EndsBlock(Run(steps) + Closing(Failure(pre).None?, DestSide, host), trace, [])
                  && Concluded(trace, result, Failure(steps), BootOf(opts.boot, zone, At(host)), w.boot, None, Ok, []))
    ensures RemovesFirst(trace, opts.force, Remove(zone, At(host)))
  {
    result, trace, registered := RVmSpecRoutine(zone, host, randomId, opts, w, At(host));
  }

  /** The body of `deploy_rzone_from_vm_spec`, with the boot of the new zone run on `bootOn`. */
  method RVmSpecRoutine(zone: string, host: Host, randomId: string, opts: Options, w: World, bootOn: Where)
    returns (result: Result, trace: seq<Event>, registered: seq<Registration>)
    ensures var tmpDir, base := TmpDir(opts.tmpDir, DefaultTmpDir), BaseName(zone, randomId);
            var exports, lead := ExportSteps(tmpDir, base, w), RVmSpecLead(zone, host, randomId, opts, w);
            && registered == Registrations(Written(Completed(exports)), None) +
                             (if Failure(lead).None? then Registrations(ExportFiles(tmpDir, base, w), Some(host)) else [])
            && (Failure(exports).Some? ==> result == Raised(Failure(exports).value) && trace == Run(exports))
            && (Failure(exports).None? ==>
                  var pre := lead + [Step(OpenSession(DestSide, host), w.openDest)];
                  var steps := RVmSpecSteps(zone, host, randomId, opts, w);
                  && EndsBlock(Run(steps) + Closing(Failure(pre).None?, DestSide, host), trace, [])
                  && Concluded(trace, result, Failure(steps), BootOf(opts.boot, zone, bootOn), w.boot, None, Ok, []))
    ensures RemovesFirst(trace, opts.force, Remove(zone, At(host)))
  {
    var block, err, exportErr;
    block, err, exportErr, registered := StageVmSpec(zone, host, randomId, opts, w);
    ghost var tmpDir, base := TmpDir(opts.tmpDir, DefaultTmpDir), BaseName(zone, randomId);
    ghost var exports := ExportSteps(tmpDir, base, w);
    ExportStepsPreparing(tmpDir, base, w);
    if exportErr.Some? {
      PreparingOnly(exports, opts.force, Remove(zone, At(host)));
      result, trace := Raised(exportErr.value), block;
      return;
    }
    result, trace := RVmSpecSession(zone, host, randomId, opts, w, block, err, bootOn);
  }

  /** The session of `deploy_rzone_from_vm_spec`, once the exports have returned. */
  method RVmSpecSession(zone: string, host: Host, randomId: string, opts: Options, w: World,
                        block: seq<Event>, err: Option<Exception>, bootOn: Where)
    returns (result: Result, trace: seq<Event>)
    requires block == Run(RVmSpecLead(zone, host, randomId, opts, w)) && err == Failure(RVmSpecLead(zone, host, randomId, opts, w))
    ensures var pre := RVmSpecLead(zone, host, randomId, opts, w) + [Step(OpenSession(DestSide, host), w.openDest)];
            var steps := RVmSpecSteps(zone, host, randomId, opts, w);
            && EndsBlock(Run(steps) + Closing(Failure(pre).None?, DestSide, host), trace, [])
            && Concluded(trace, result, Failure(steps), BootOf(opts.boot, zone, bootOn), w.boot, None, Ok, [])
    ensures RemovesFirst(trace, opts.force, Remove(zone, At(host)))
  {
    var tmpDir, base := TmpDir(opts.tmpDir, DefaultTmpDir), BaseName(zone, randomId);
    ghost var exports := ExportSteps(tmpDir, base, w);
    ghost var copy := [Step(Copy(ExportFiles(tmpDir, base, w), host, tmpDir), CopyOutcome(w, 0))];
    ghost var lead := exports + copy;
    assert lead == RVmSpecLead(zone, host, randomId, opts, w);
    ExportStepsPreparing(tmpDir, base, w);
    assert Preparing(copy[0].event);
    PreparingAppend(exports, copy);
    var provision := Step(Provision(zone, At(host), VmSpecSource(tmpDir, base, w)), w.provision);
    ghost var pre := lead + [Step(OpenSession(DestSide, host), w.openDest)];
    assert RVmSpecSteps(zone, host, randomId, opts, w) == Block(pre, opts.force, zone, At(host), w, provision);
    result, trace := DeployOverSession(block, err, lead, host, zone, opts.force, provision, opts.boot, bootOn, w);
  }

  /**
   * The part of `deploy_rzone_from_vm_spec` before its session: the exports
   * (an exception there, `exportErr`, escapes the routine), then the copy
   * of the exported files, which always runs since `opts[:copy] || true` is
   * true (`CopyFlag`), and their registration on the host when the copy
   * returned.
   */
  method StageVmSpec(zone: string, host: Host, randomId: string, opts: Options, w: World)
    returns (block: seq<Event>, err: Option<Exception>, exportErr: Option<Exception>, registered: seq<Registration>)
    ensures var tmpDir, base := TmpDir(opts.tmpDir, DefaultTmpDir), BaseName(zone, randomId);
            var exports, lead := ExportSteps(tmpDir, base, w), RVmSpecLead(zone, host, randomId, opts, w);
            && exportErr == Failure(exports)
            && registered == Registrations(Written(Completed(exports)), None) +
                             (if Failure(lead).None? then Registrations(ExportFiles(tmpDir, base, w), Some(host)) else [])
            && (exportErr.Some? ==> block == Run(exports))
            && (exportErr.None? ==> block == Run(lead) && err == Failure(lead))
  {
    var tmpDir, base := TmpDir(opts.tmpDir, DefaultTmpDir), BaseName(zone, randomId);
    var cleaner := new Cleaner();
    block, err := ExportVmSpec(tmpDir, base, w, cleaner);
    exportErr := err;
    ghost var exports := ExportSteps(tmpDir, base, w);
    var files := ExportFiles(tmpDir, base, w);
    ghost var copyStep := Step(Copy(files, host, tmpDir), CopyOutcome(w, 0));
    assert RVmSpecLead(zone, host, randomId, opts, w) == exports + [copyStep];
    if err.Some? {
      RunAfterFailure(exports, [copyStep]);
      registered := cleaner.files;
      return;
    }
    block, err := CopyAndRegister(cleaner, block, err, exports, files, host, tmpDir, w);
    registered := cleaner.files;
  }

  /** The one copy command of the exported files, and their registration on the host when it returned. */
  method CopyAndRegister(cleaner: Cleaner, block: seq<Event>, err: Option<Exception>, ghost exports: seq<Step>,
                         files: seq<string>, host: Host, tmpDir: string, w: World)
    returns (block': seq<Event>, err': Option<Exception>)
    requires block == Run(exports) && err == Failure(exports)
    modifies cleaner
    ensures var lead := exports + [Step(Copy(files, host, tmpDir), CopyOutcome(w, 0))];
            && block' == Run(lead) && err' == Failure(lead)
            && cleaner.files == old(cleaner.files) + (if err'.None? then Registrations(files, Some(host)) else [])
  {
    block', err' := Perform(block, err, exports, Step(Copy(files, host, tmpDir), CopyOutcome(w, 0)));
    if err'.None? {
      RegisterCopies(cleaner, files, host);
    } else {
      assert cleaner.files == old(cleaner.files) + [];
    }
  }

  /**
   * `deploy_rtemplate_from_vm_spec` as intended: `deploy_rzone_from_vm_spec`
   * for the zone `template_<name>` on `host`, which boots, as written, on
   * this host. The Ruby routine takes no destination host, so the fix needs
   * the extra parameter `host`.
   */
  method DeployRTemplateFromVmSpec(name: string, host: Host, randomId: string, opts: Options, w: World)
    returns (result: Result, trace: seq<Event>, registered: seq<Registration>)
    ensures var zone := TemplateName(name);
            var tmpDir, base := TmpDir(opts.tmpDir, DefaultTmpDir), BaseName(zone, randomId);
            var exports, lead := ExportSteps(tmpDir, base, w), RVmSpecLead(zone, host, randomId, opts, w);
            && registered == Registrations(Written(Completed(exports)), None) +
                             (if Failure(lead).None? then Registrations(ExportFiles(tmpDir, base, w), Some(host)) else [])
            && (Failure(exports).Some? ==> result == Raised(Failure(exports).value) && trace == Run(exports))
            && (Failure(exports).None? ==>
                  var pre := lead + [Step(OpenSession(DestSide, host), w.openDest)];
                  var steps := RVmSpecSteps(zone, host, randomId, opts, w);
                  && EndsBlock(Run(steps) + Closing(Failure(pre).None?, DestSide, host), trace, [])
                  && Concluded(trace, result, Failure(steps), BootOf(opts.boot, zone, Local), w.boot, None, Ok, []))
            && RemovesFirst(trace, opts.force, Remove(zone, At(host)))
  {
    result, trace, registered := DeployRZoneFromVmSpec(TemplateName(name), host, randomId, opts, w);
  }

  /**
   * `deploy_rtemplate_from_vm_spec` as written calls itself, with the name
   * prefixed once more, and never reaches a routine that deploys anything:
   * the recursion ends in `SystemStackError`, which no routine rescues.
   */
  function RTemplateFromVmSpecAsWritten(name: string): (r: Result)
    ensures r.Raised? && !r.e.SZONESError?
  {
    Raised(SystemStackError)
  }

  /**
   * `deploy_rtemplate_from_files` as written passes its three arguments to
   * `deploy_rzone_from_files`, which takes the zonecfg path as its third:
   * that parameter receives the options hash, whose missing `split` raises
   * `NoMethodError` before the begin block, so nothing runs and nothing is
   * registered.
   */
  function RTemplateFromFilesAsWritten(name: string, pathToZonecfg: string): (r: (Result, seq<Event>, seq<Registration>))
    ensures r.0.Raised? && !r.0.e.SZONESError? && r.1 == [] && r.2 == []
  {
    (Raised(NoMethodError("split")), [], [])
  }

  /**
   * `deploy_rtemplate_from_files` as intended: `deploy_rzone_from_files` for
   * the zone `template_<name>` on `host`, with that routine's copies,
   * registrations and boot as written. The Ruby routine takes no
   * destination host, so the fix needs the extra parameter `host`.
   */
  method DeployRTemplateFromFiles(name: string, host: Host, pathToZonecfg: string, randomId: string, opts: Options, w: World)
    returns (result: Result, trace: seq<Event>, registered: seq<Registration>)
    ensures var zone := TemplateName(name);
            var files := CopySources(pathToZonecfg, opts);
            var dests := CopyDestinationsAsWritten(TmpDir(opts.tmpDir, DefaultTmpDir), randomId, pathToZonecfg, opts);
            var steps := RFilesSteps(zone, host, pathToZonecfg, randomId, opts, dests, w);
            var isOpen := Failure(RFilesPrelude(host, files, dests, w)).None?;
            && registered == (if Failure(CopySteps(files, dests, host, w)).None? then Registrations(files, Some(host)) else [])
            && EndsBlock(Run(steps) + Closing(isOpen, DestSide, host), trace, [])
            && Concluded(trace, result, Failure(steps), BootOf(opts.boot, zone, Local), w.boot, None, Ok, [])
            && RemovesFirst(trace, opts.force, Remove(zone, At(host)))
  {
    result, trace, registered := DeployRZoneFromFiles(TemplateName(name), host, pathToZonecfg, randomId, opts, w);
  }

  // ---------------------------------------------------------------------
  // Clones on a remote host, and transfers through ZFS archives
  // ---------------------------------------------------------------------

  /** A session opened without a block: an ordinary preparing step of the begin block. */
  function Open(role: Role, host: Host, outcome: Outcome): Step {
    Step(OpenSession(role, host), outcome)
  }

  /** The steps of `rdeploy_zone_from_zone` before the removal: the session, then the halt. */
  function RCloneLead(host: Host, source: string, opts: Options, w: World): seq<Step> {
    [Open(DestSide, host, w.openDest)] + HaltIfAsked(opts.halt, source, At(host), w)
  }

  /** The begin block of `rdeploy_zone_from_zone`. */
  function RCloneSteps(zone: string, host: Host, source: string, opts: Options, w: World): seq<Step> {
    Block(RCloneLead(host, source, opts, w), opts.force, zone, At(host), w,
          Step(Provision(zone, At(host), CloneSource(zone, source, opts)), w.provision))
  }

  /** The steps before the removal in the routines below only prepare. */
  lemma LeadsPrepare(destHost: Host, source: string, srcHost: Host, opts: Options, w: World)
    ensures var lead := RCloneLead(destHost, source, opts, w);
            forall i :: 0 <= i < |lead| ==> Preparing(lead[i].event)
    ensures var lead := FromRZoneLead(srcHost, source, opts, w);
            forall i :: 0 <= i < |lead| ==> Preparing(lead[i].event)
    ensures var lead := ToRZoneLead(destHost, source, opts, w);
            forall i :: 0 <= i < |lead| ==> Preparing(lead[i].event)
    ensures var lead := RToRZoneLead(destHost, source, srcHost, opts, w);
            forall i :: 0 <= i < |lead| ==> Preparing(lead[i].event)
  {
    var srcHalt := HaltIfAsked(opts.halt, source, At(srcHost), w);
    var localHalt := HaltIfAsked(opts.halt, source, Local, w);
    var srcOpen := [Open(SourceSide, srcHost, w.openSource)];
    var destOpen := [Open(DestSide, destHost, w.openDest)];
    PreparingAppend(destOpen, HaltIfAsked(opts.halt, source, At(destHost), w));
    PreparingAppend(srcOpen, srcHalt);
    var fromRZone := [ExportArchiveStep(source, At(srcHost), At(srcHost), w)];
    PreparingAppend(srcOpen + srcHalt, fromRZone);
    PreparingAppend(srcOpen + srcHalt + fromRZone,
                    [Step(Fetch(ArchiveFiles(w.exportArchive), srcHost, TmpDir(opts.tmpDir, DefaultFetchDir)), w.fetch)]);
    var toRZone := [ExportArchiveStep(source, Local, At(destHost), w)];
    PreparingAppend(localHalt, toRZone);
    PreparingAppend(localHalt + toRZone, destOpen);
    var rToRZone := [ExportArchiveStep(source, At(srcHost), At(destHost), w)];
    PreparingAppend(srcOpen + srcHalt, rToRZone);
    PreparingAppend(srcOpen + srcHalt + rToRZone, destOpen);
  }

  /**
   * `rdeploy_zone_from_zone`: on `host`, over one session, halts the source
   * zone when asked, removes the new zone first when forced, clones the
   * source into it and boots it when asked; `ensure` boots the source zone
   * again when this call halted it and closes the session when it opened.
   */
  method RDeployZoneFromZone(zone: string, host: Host, source: string, opts: Options, w: World)
    returns (result: Result, trace: seq<Event>)
    ensures var steps, closes := RCloneSteps(zone, host, source, opts, w), Closing(w.openDest.Ok?, DestSide, host);
            && EndsBlock(Run(steps), trace, closes)
            && Concluded(trace, result, Failure(steps), BootOf(opts.boot, zone, At(host)), w.boot,
                         RebootOf(opts.halt, w.openDest.Ok?, w.halt, source, At(host)), w.reboot, closes)
    ensures forall e :: e in trace && e.CloseSession? ==> e == CloseSession(DestSide, host)
    ensures RemovesFirst(trace, opts.force, Remove(zone, At(host)))
  {
    var open := Open(DestSide, host, w.openDest);
    var block, err := Perform([], None, [], open);
    assert [] + [open] == [open];
    block, err := PerformHaltIfAsked(block, err, [open], opts.halt, source, At(host), w);
    ghost var pre := RCloneLead(host, source, opts, w);
    LeadsPrepare(host, source, host, opts, w);
    var provision := Step(Provision(zone, At(host), CloneSource(zone, source, opts)), w.provision);
    result, trace := FinishBlock(block, err, pre, opts.force, zone, At(host), w, provision,
                                 BootOf(opts.boot, zone, At(host)),
                                 RebootOf(opts.halt, w.openDest.Ok?, w.halt, source, At(host)),
                                 w.reboot, Closing(w.openDest.Ok?, DestSide, host));
  }

  /**
   * What the archive routines install the zone from: the archive and the
   * zonecfg the export returned. The zonepath is the raw `:zonepath` option,
   * because the options merged last override the joined one. When the export
   * raised, the paths are left empty: no step that reads them runs.
   */
  function ArchiveSource(a: ArchiveOutcome, opts: Options): Source {
    if a.Exported? then Archive(a.archive, a.zonecfg, opts.zonepath) else Archive("", "", opts.zonepath)
  }

  /** The archive and zonecfg paths the export returned, as the files to fetch. */
  function ArchiveFiles(a: ArchiveOutcome): seq<string> {
    if a.Exported? then [a.archive, a.zonecfg] else ["", ""]
  }

  /** The export of the source zone into a ZFS archive, run `on` one host and written `to` another. */
  function ExportArchiveStep(source: string, on: Where, to: Where, w: World): Step {
    Step(ExportArchive(source, on, to), ArchiveStep(w.exportArchive))
  }

  /**
   * The steps of `deploy_zone_from_rzone` before the removal: the session to
   * the source host, the halt there, the export into an archive on that
   * host and the fetch of the archive and its zonecfg into `tmp_dir`.
   */
  function FromRZoneLead(srcHost: Host, source: string, opts: Options, w: World): seq<Step> {
    [Open(SourceSide, srcHost, w.openSource)] + HaltIfAsked(opts.halt, source, At(srcHost), w) +
    [ExportArchiveStep(source, At(srcHost), At(srcHost), w)] +
    [Step(Fetch(ArchiveFiles(w.exportArchive), srcHost, TmpDir(opts.tmpDir, DefaultFetchDir)), w.fetch)]
  }

  /** The begin block of `deploy_zone_from_rzone`. */
  function FromRZoneSteps(zone: string, srcHost: Host, source: string, opts: Options, w: World): seq<Step> {
    Block(FromRZoneLead(srcHost, source, opts, w), opts.force, zone, Local, w,
          Step(Provision(zone, Local, ArchiveSource(w.exportArchive, opts)), w.provision))
  }

  /**
   * `deploy_zone_from_rzone`: over a session to `srcHost`, halts the source
   * zone there when asked, exports it into a ZFS archive on that host and
   * fetches the archive and its zonecfg; then removes the new zone on the
   * local host first when forced, installs it from the archive and boots it
   * when asked. `ensure` boots the source zone again over the session when
   * this call halted it, and closes the session when it opened.
   */
  method DeployZoneFromRZone(zone: string, srcHost: Host, source: string, opts: Options, w: World)
    returns (result: Result, trace: seq<Event>)
    ensures var steps, closes := FromRZoneSteps(zone, srcHost, source, opts, w), Closing(w.openSource.Ok?, SourceSide, srcHost);
            && EndsBlock(Run(steps), trace, closes)
            && Concluded(trace, result, Failure(steps), BootOf(opts.boot, zone, Local), w.boot,
                         RebootOf(opts.halt, w.openSource.Ok?, w.halt, source, At(srcHost)), w.reboot, closes)
    ensures forall e :: e in trace && e.CloseSession? ==> e == CloseSession(SourceSide, srcHost)
    ensures RemovesFirst(trace, opts.force, Remove(zone, Local))
  {
    var open := Open(SourceSide, srcHost, w.openSource);
    var block, err := Perform([], None, [], open);
    assert [] + [open] == [open];
    block, err := PerformHaltIfAsked(block, err, [open], opts.halt, source, At(srcHost), w);
    ghost var done := [open] + HaltIfAsked(opts.halt, source, At(srcHost), w);
    var archiving := ExportArchiveStep(source, At(srcHost), At(srcHost), w);
    block, err := Perform(block, err, done, archiving);
    var fetch := Step(Fetch(ArchiveFiles(w.exportArchive), srcHost, TmpDir(opts.tmpDir, DefaultFetchDir)), w.fetch);
    block, err := Perform(block, err, done + [archiving], fetch);
    ghost var pre := FromRZoneLead(srcHost, source, opts, w);
    LeadsPrepare(srcHost, source, srcHost, opts, w);
    var provision := Step(Provision(zone, Local, ArchiveSource(w.exportArchive, opts)), w.provision);
    result, trace := FinishBlock(block, err, pre, opts.force, zone, Local, w, provision,
                                 BootOf(opts.boot, zone, Local),
                                 RebootOf(opts.halt, w.openSource.Ok?, w.halt, source, At(srcHost)),
                                 w.reboot, Closing(w.openSource.Ok?, SourceSide, srcHost));
  }

  /**
   * The steps of `deploy_rzone_from_zone` before the removal: the local halt,
   * the export of the source zone into an archive on `destHost`, and the
   * session to that host.
   */
  function ToRZoneLead(destHost: Host, source: string, opts: Options, w: World): seq<Step> {
    HaltIfAsked(opts.halt, source, Local, w) +
    [ExportArchiveStep(source, Local, At(destHost), w)] + [Open(DestSide, destHost, w.openDest)]
  }

  /** The begin block of `deploy_rzone_from_zone`. */
  function ToRZoneSteps(zone: string, destHost: Host, source: string, opts: Options, w: World): seq<Step> {
    Block(ToRZoneLead(destHost, source, opts, w), opts.force, zone, At(destHost), w,
          Step(Provision(zone, At(destHost), ArchiveSource(w.exportArchive, opts)), w.provision))
  }

  /**
   * `deploy_rzone_from_zone`: halts the local source zone when asked,
   * exports it into a ZFS archive on `destHost`, and over a session to that
   * host removes the new zone first when forced, installs it from the
   * archive and boots it when asked. `ensure` boots the source zone again
   * when this call halted it, and closes the session when it opened.
   */
  method DeployRZoneFromZone(zone: string, destHost: Host, source: string, opts: Options, w: World)
    returns (result: Result, trace: seq<Event>)
    ensures var steps := ToRZoneSteps(zone, destHost, source, opts, w);
            var closes := Closing(Failure(ToRZoneLead(destHost, source, opts, w)).None?, DestSide, destHost);
            && EndsBlock(Run(steps), trace, closes)
            && Concluded(trace, result, Failure(steps), BootOf(opts.boot, zone, At(destHost)), w.boot,
                         RebootOf(opts.halt, true, w.halt, source, Local), w.reboot, closes)
    ensures forall e :: e in trace && e.CloseSession? ==> e == CloseSession(DestSide, destHost)
    ensures RemovesFirst(trace, opts.force, Remove(zone, At(destHost)))
  {
    var block, err := PerformHaltIfAsked([], None, [], opts.halt, source, Local, w);
    ghost var done := HaltIfAsked(opts.halt, source, Local, w);
    assert [] + done == done;
    var archiving := ExportArchiveStep(source, Local, At(destHost), w);
    block, err := Perform(block, err, done, archiving);
    var open := Open(DestSide, destHost, w.openDest);
    block, err := Perform(block, err, done + [archiving], open);
    ghost var pre := ToRZoneLead(destHost, source, opts, w);
    LeadsPrepare(destHost, source, destHost, opts, w);
    var provision := Step(Provision(zone, At(destHost), ArchiveSource(w.exportArchive, opts)), w.provision);
    result, trace := FinishBlock(block, err, pre, opts.force, zone, At(destHost), w, provision,
                                 BootOf(opts.boot, zone, At(destHost)),
                                 RebootOf(opts.halt, true, w.halt, source, Local),
                                 w.reboot, Closing(err.None?, DestSide, destHost));
  }

  /**
   * The steps of `deploy_rzone_from_rzone` before the removal: the session
   * to the source host, the halt there, the export of the source zone into
   * an archive on `destHost`, and the session to that host.
   */
  function RToRZoneLead(destHost: Host, source: string, srcHost: Host, opts: Options, w: World): seq<Step> {
    [Open(SourceSide, srcHost, w.openSource)] + HaltIfAsked(opts.halt, source, At(srcHost), w) +
    [ExportArchiveStep(source, At(srcHost), At(destHost), w)] + [Open(DestSide, destHost, w.openDest)]
  }

  /** The begin block of `deploy_rzone_from_rzone`. */
  function RToRZoneSteps(zone: string, destHost: Host, source: string, srcHost: Host, opts: Options, w: World): seq<Step> {
    Block(RToRZoneLead(destHost, source, srcHost, opts, w), opts.force, zone, At(destHost), w,
          Step(Provision(zone, At(destHost), ArchiveSource(w.exportArchive, opts)), w.provision))
  }

  /** The sessions `deploy_rzone_from_rzone` closes in `ensure`: the source one, then the destination one. */
  function RToRZoneCloses(destHost: Host, source: string, srcHost: Host, opts: Options, w: World): seq<Event> {
    Closing(w.openSource.Ok?, SourceSide, srcHost) +
    Closing(Failure(RToRZoneLead(destHost, source, srcHost, opts, w)).None?, DestSide, destHost)
  }

  /** The sessions of the two sides are closes of distinct sessions. */
  lemma ClosingBothSides(sourceOpen: bool, srcHost: Host, destOpen: bool, destHost: Host)
    ensures var closes := Closing(sourceOpen, SourceSide, srcHost) + Closing(destOpen, DestSide, destHost);
            && (forall i :: 0 <= i < |closes| ==> closes[i].CloseSession?)
            && (forall i, j :: 0 <= i < j < |closes| ==> closes[i] != closes[j])
            && (forall e :: e in closes ==> e == CloseSession(SourceSide, srcHost) || e == CloseSession(DestSide, destHost))
  {
  }

  /**
   * `deploy_rzone_from_rzone`: over a session to `srcHost`, halts the source
   * zone there when asked and exports it into a ZFS archive on `destHost`;
   * then over a session to `destHost` removes the new zone first when
   * forced, installs it from the archive and boots it when asked. `ensure`
   * boots the source zone again over the source session when this call
   * halted it, and closes each session that opened, the source one first.
   */
  method DeployRZoneFromRZone(zone: string, destHost: Host, source: string, srcHost: Host, opts: Options, w: World)
    returns (result: Result, trace: seq<Event>)
    ensures var steps := RToRZoneSteps(zone, destHost, source, srcHost, opts, w);
            var closes := RToRZoneCloses(destHost, source, srcHost, opts, w);
            && EndsBlock(Run(steps), trace, closes)
            && Concluded(trace, result, Failure(steps), BootOf(opts.boot, zone, At(destHost)), w.boot,
                         RebootOf(opts.halt, w.openSource.Ok?, w.halt, source, At(srcHost)), w.reboot, closes)
    ensures forall e :: e in trace && e.CloseSession? ==> e == CloseSession(SourceSide, srcHost) || e == CloseSession(DestSide, destHost)
    ensures RemovesFirst(trace, opts.force, Remove(zone, At(destHost)))
  {
    var openSource := Open(SourceSide, srcHost, w.openSource);
    var block, err := Perform([], None, [], openSource);
    assert [] + [openSource] == [openSource];
    block, err := PerformHaltIfAsked(block, err, [openSource], opts.halt, source, At(srcHost), w);
    ghost var done := [openSource] + HaltIfAsked(opts.halt, source, At(srcHost), w);
    var archiving := ExportArchiveStep(source, At(srcHost), At(destHost), w);
    block, err := Perform(block, err, done, archiving);
    var openDest := Open(DestSide, destHost, w.openDest);
    block, err := Perform(block, err, done + [archiving], openDest);
    ghost var pre := RToRZoneLead(destHost, source, srcHost, opts, w);
    LeadsPrepare(destHost, source, srcHost, opts, w);
    var closes := Closing(w.openSource.Ok?, SourceSide, srcHost) + Closing(err.None?, DestSide, destHost);
    ClosingBothSides(w.openSource.Ok?, srcHost, err.None?, destHost);
    var provision := Step(Provision(zone, At(destHost), ArchiveSource(w.exportArchive, opts)), w.provision);
    result, trace := FinishBlock(block, err, pre, opts.force, zone, At(destHost), w, provision,
                                 BootOf(opts.boot, zone, At(destHost)),
                                 RebootOf(opts.halt, w.openSource.Ok?, w.halt, source, At(srcHost)),
                                 w.reboot, closes);
  }

  /** A step that reads the paths the archive export returned. */
  predicate ReadsArchive(e: Event) {
    e.Fetch? || (e.Provision? && e.source.Archive?)
  }

  /** A step that reads the archive runs only after the export at `x`, with nothing reading it before, returned. */
  lemma {:induction false} ReadsOnlyAfterExport(steps: seq<Step>, x: nat)
    requires x < |steps|
    requires forall i :: 0 <= i <= x ==> !ReadsArchive(steps[i].event)
    ensures forall e :: e in Run(steps) && ReadsArchive(e) ==> steps[x].outcome.Ok?
  {
    var r := Run(steps);
    forall e | e in r && ReadsArchive(e)
      ensures steps[x].outcome.Ok?
    {
      var k :| 0 <= k < |r| && r[k] == e;
      assert steps[k].event == e;
      RunOnlyAfterSuccess(steps, k);
    }
  }

  /**
   * `deploy_zone_from_rzone` fetches the archive and installs the zone from
   * it only once the export has returned its paths: a failed export leaves
   * no step that reads them.
   */
  lemma FromRZoneReadsExportedArchive(zone: string, srcHost: Host, source: string, opts: Options, w: World)
    ensures forall e :: e in Run(FromRZoneSteps(zone, srcHost, source, opts, w)) && ReadsArchive(e) ==> w.exportArchive.Exported?
  {
    var steps := FromRZoneSteps(zone, srcHost, source, opts, w);
    var x := 1 + |HaltIfAsked(opts.halt, source, At(srcHost), w)|;
    assert steps[x] == ExportArchiveStep(source, At(srcHost), At(srcHost), w);
    ReadsOnlyAfterExport(steps, x);
  }

  /** `deploy_rzone_from_zone` installs the zone from the archive only once the export has returned its paths. */
  lemma ToRZoneReadsExportedArchive(zone: string, destHost: Host, source: string, opts: Options, w: World)
    ensures forall e :: e in Run(ToRZoneSteps(zone, destHost, source, opts, w)) && ReadsArchive(e) ==> w.exportArchive.Exported?
  {
    var steps := ToRZoneSteps(zone, destHost, source, opts, w);
    var x := |HaltIfAsked(opts.halt, source, Local, w)|;
    assert steps[x] == ExportArchiveStep(source, Local, At(destHost), w);
    ReadsOnlyAfterExport(steps, x);
  }

  /** `deploy_rzone_from_rzone` installs the zone from the archive only once the export has returned its paths. */
  lemma RToRZoneReadsExportedArchive(zone: string, destHost: Host, source: string, srcHost: Host, opts: Options, w: World)
    ensures forall e :: e in Run(RToRZoneSteps(zone, destHost, source, srcHost, opts, w)) && ReadsArchive(e) ==> w.exportArchive.Exported?
  {
    var steps := RToRZoneSteps(zone, destHost, source, srcHost, opts, w);
    var x := 1 + |HaltIfAsked(opts.halt, source, At(srcHost), w)|;
    assert steps[x] == ExportArchiveStep(source, At(srcHost), At(destHost), w);
    ReadsOnlyAfterExport(steps, x);
  }
}
