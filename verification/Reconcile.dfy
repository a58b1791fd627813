/**
 Reconcile passes over process restarts.

 A pass reads the stored status, runs the registered actions in order and may stop after
 any of them.  The reconciler framework is not part of this model: whether a pass stops,
 and whether the framework then writes the status back, is left open, so what is proved
 here holds for every choice.
 */
module Reconcile {
  import opened Wrappers
  import opened SemVer
  import opened Precedence
  import opened SemVerJson
  import opened StatusReport

  datatype Action =
    Initialize | UpgradeIfNeeded | Releases | RenderKustomize | Deploy | Deployments | ReportStatus | CollectGarbage

  /** The actions in the order they are registered. */
  const ACTIONS: seq<Action> :=
    [Initialize, UpgradeIfNeeded, Releases, RenderKustomize, Deploy, Deployments, ReportStatus, CollectGarbage]

  // ---------------------------------------------------------------- The stored status

  /** The status as the API server keeps it: versions as JSON, an empty platform version omitted. */
  datatype Stored = Stored(
    version: string,
    buildSource: string,
    platformName: string,
    platformVersion: Option<string>,
    sources: seq<Source>
  )

  function Save(m: ModuleStatus): Stored {
    Stored(
      MarshalJSON(m.version), m.buildSource, m.platformName,
      if m.platformVersion == "" then None else Some(MarshalJSON(m.platformVersion)),
      m.sources)
  }

  /** None when a stored version does not decode, so that the object cannot be read. */
  function Load(s: Stored): Option<ModuleStatus> {
    var platform := if s.platformVersion.None? then Some("") else Unmarshalled(s.platformVersion.value);
    match (Unmarshalled(s.version), platform)
    case (Some(v), Some(p)) => Some(ModuleStatus(v, s.buildSource, s.platformName, p, s.sources))
    case _ => None
  }

  /** A version that is not set, or one the strict parser accepts. */
  predicate Recordable(v: string) {
    v == "" || Parse(v).Some?
  }

  /** Storing a status and reading it back is the identity exactly when both versions are recordable. */
  lemma StatusRoundTrip(m: ModuleStatus)
    ensures Load(Save(m)) == Some(m) <==> Recordable(m.version) && Recordable(m.platformVersion)
  {
    JsonRoundTrip(m.version);
    JsonRoundTrip(m.platformVersion);
  }

  lemma LoadedIsRecordable(s: Stored)
    requires Load(s).Some?
    ensures Recordable(Load(s).value.version) && Recordable(Load(s).value.platformVersion)
    ensures Load(Save(Load(s).value)) == Load(s)
  {
    var m := Load(s).value;
    JsonStable(s.version);
    JsonRoundTrip(m.version);
    if s.platformVersion.Some? {
      JsonStable(s.platformVersion.value);
      JsonRoundTrip(m.platformVersion);
    }
    StatusRoundTrip(m);
  }

  lemma ReportIsRecordable(p: Process, i: Inputs)
    requires Started(p)
    ensures Load(Save(Report(p, i))) == Some(Report(p, i))
  {
    hide Parse, ParseTolerant, Print, SortedSources, Valid;
    ParsePrintVersion(p.release);
    CanonicalIsStrict(p.version);
    CanonicalIsStrict(Print(p.release));
    StatusRoundTrip(Report(p, i));
  }

  // ---------------------------------------------------------------- One pass

  /** The state inside a pass. */
  datatype Working = Working(status: ModuleStatus, upgradeCalled: bool, upgradeSucceeded: bool, reported: bool)

  /** What the actions of a pass read besides the working state: the upgrade trigger and the report to write. */
  datatype Context = Context(needs: ModuleStatus -> bool, report: ModuleStatus)

  /** One action; `ok` says whether it succeeds, which for a needed upgrade is whether the upgrade does. */
  function Perform(a: Action, c: Context, w: Working, ok: bool): Working {
    match a
    case UpgradeIfNeeded => if c.needs(w.status) then w.(upgradeCalled := true, upgradeSucceeded := ok) else w
    case ReportStatus => if ok then w.(status := c.report, reported := true) else w
    case _ => w
  }

  /** Where a pass stops: behind `finished` successful actions, and after one more that failed if `attempted`. */
  datatype Stop = Stop(finished: nat, attempted: bool)

  function Execute(actions: seq<Action>, stop: Stop, c: Context, w: Working): Working {
    if actions == [] then w
    else if stop.finished > 0 then
      Execute(actions[1..], stop.(finished := stop.finished - 1), c, Perform(actions[0], c, w, true))
    else if stop.attempted then Perform(actions[0], c, w, false)
    else w
  }

  function Start(status: ModuleStatus): Working {
    Working(status, false, false, false)
  }

  predicate Quiet(actions: seq<Action>) {
    forall a | a in actions :: a != UpgradeIfNeeded && a != ReportStatus
  }

  /** Actions of the framework leave the module status alone, wherever the pass stops among them. */
  lemma {:induction false} ExecuteQuiet(quiet: seq<Action>, rest: seq<Action>, stop: Stop, c: Context, w: Working)
    requires Quiet(quiet)
    ensures Execute(quiet + rest, stop, c, w)
            == if stop.finished < |quiet| then w
               else Execute(rest, stop.(finished := stop.finished - |quiet|), c, w)
  {
    if quiet == [] {
      assert quiet + rest == rest;
    } else {
      assert quiet[0] in quiet;
      assert (quiet + rest)[1..] == quiet[1..] + rest;
      if stop.finished > 0 {
        assert forall a | a in quiet[1..] :: a in quiet;
        ExecuteQuiet(quiet[1..], rest, stop.(finished := stop.finished - 1), c, w);
      }
    }
  }

  lemma AfterUpgrade(stop: Stop, c: Context, w: Working)
    ensures Execute([Releases, RenderKustomize, Deploy, Deployments] + [ReportStatus, CollectGarbage], stop, c, w)
            == if stop.finished > 4 then w.(status := c.report, reported := true) else w
  {
    var tail := [ReportStatus, CollectGarbage];
    ExecuteQuiet([Releases, RenderKustomize, Deploy, Deployments], tail, stop, c, w);
    if stop.finished > 4 {
      assert tail[1..] == [CollectGarbage] + [];
      ExecuteQuiet([CollectGarbage], [], Stop(stop.finished - 5, stop.attempted), c, Perform(ReportStatus, c, w, true));
    }
  }

  /** What a pass does, for every place it can stop at. */
  lemma PassMeaning(stop: Stop, c: Context, status: ModuleStatus)
    ensures var w := Execute(ACTIONS, stop, c, Start(status));
            && w.upgradeCalled == (c.needs(status) && (stop.finished > 1 || (stop.finished == 1 && stop.attempted)))
            && w.upgradeSucceeded == (c.needs(status) && stop.finished > 1)
            && w.reported == (stop.finished > 6)
            && w.status == if w.reported then c.report else status
  {
    var afterInitialize := ACTIONS[1..];
    assert ACTIONS == [Initialize] + afterInitialize;
    ExecuteQuiet([Initialize], afterInitialize, stop, c, Start(status));
    if stop.finished > 1 {
      assert afterInitialize[1..] == [Releases, RenderKustomize, Deploy, Deployments] + [ReportStatus, CollectGarbage];
      AfterUpgrade(Stop(stop.finished - 2, stop.attempted), c, Perform(UpgradeIfNeeded, c, Start(status), true));
    }
  }

  // ---------------------------------------------------------------- Runs

  datatype Event =
    | Restart(process: Process)
    | Pass(inputs: Inputs, stop: Stop, saved: bool)

  /** `epoch` counts restarts. */
  datatype World = World(process: Process, epoch: nat, stored: Stored)

  /** What one event did to the stored status, seen from outside. */
  datatype Step = Step(
    process: Process, epoch: nat, passed: bool, saved: bool, before: ModuleStatus, after: ModuleStatus, work: Working)

  function ContextOf(p: Process, i: Inputs): Context {
    Context(m => UpgradeNeeded(p, m), Report(p, i))
  }

  function TakeStep(w: World, e: Event, before: ModuleStatus): Step {
    match e
    case Restart(p) => Step(p, w.epoch + 1, false, false, before, before, Start(before))
    case Pass(i, stop, saved) =>
      var work := Execute(ACTIONS, stop, ContextOf(w.process, i), Start(before));
      Step(w.process, w.epoch, true, saved, before, if saved then work.status else before, work)
  }

  /** The framework writes a saved status back; nothing else changes what is stored. */
  function Advance(w: World, s: Step): World {
    World(s.process, s.epoch, if s.saved then Save(s.after) else w.stored)
  }

  /** The process has started and the stored object can be read. */
  ghost predicate Sound(w: World) {
    Started(w.process) && Load(w.stored).Some?
  }

  /** Restarts only bring up processes whose version parsed. */
  ghost predicate StartsProcesses(events: seq<Event>) {
    forall e | e in events && e.Restart? :: Started(e.process)
  }

  /** The steps of a run; it would end early where an object cannot be read, which `TraceLawful` excludes. */
  function Trace(w: World, events: seq<Event>): (steps: seq<Step>)
    ensures |steps| <= |events|
    decreases |events|
  {
    if events == [] || Load(w.stored).None? then []
    else
      var step := TakeStep(w, events[0], Load(w.stored).value);
      [step] + Trace(Advance(w, step), events[1..])
  }

  /** Both recorded versions are those of process `p`. */
  predicate RecordsProcess(m: ModuleStatus, p: Process) {
    m.version == p.version && m.platformVersion == Print(p.release)
  }

  /** The pass got past `reportStatus` and its status was stored. */
  predicate Completed(s: Step) {
    s.work.reported && s.saved
  }

  /** Facts every single step has. */
  ghost predicate StepLaws(s: Step) {
    && (s.work.upgradeCalled ==> s.passed && UpgradeNeeded(s.process, s.before))
    && (s.work.upgradeSucceeded ==> s.work.upgradeCalled)
    && (s.work.reported && UpgradeNeeded(s.process, s.before) ==> s.work.upgradeSucceeded)
    && (s.work.reported ==> RecordsProcess(s.work.status, s.process))
    && s.after == if Completed(s) then s.work.status else s.before
  }

  /** How a step continues the one before it. */
  ghost predicate Continues(s: Step, t: Step) {
    && t.before == s.after
    && (if t.passed then t.process == s.process && t.epoch == s.epoch else t.epoch == s.epoch + 1)
  }

  ghost predicate Lawful(steps: seq<Step>) {
    && (forall k | 0 <= k < |steps| :: StepLaws(steps[k]))
    && (forall k | 0 < k < |steps| :: Continues(steps[k - 1], steps[k]))
  }

  lemma StepIsLawful(w: World, e: Event, before: ModuleStatus)
    ensures StepLaws(TakeStep(w, e, before))
    ensures e.Pass? ==>
              var s := TakeStep(w, e, before);
              s.work.upgradeCalled ==
                (UpgradeNeeded(w.process, before) && (e.stop.finished > 1 || (e.stop.finished == 1 && e.stop.attempted)))
  {
    if e.Pass? {
      PassMeaning(e.stop, ContextOf(w.process, e.inputs), before);
    }
  }

  /** After every event the object can still be read, and reads as what the step ended with. */
  lemma AdvanceSound(w: World, e: Event)
    requires Sound(w)
    requires e.Restart? ==> Started(e.process)
    ensures var s := TakeStep(w, e, Load(w.stored).value);
            Sound(Advance(w, s)) && Load(Advance(w, s).stored) == Some(s.after)
  {
    LoadedIsRecordable(w.stored);
    if e.Pass? {
      PassMeaning(e.stop, ContextOf(w.process, e.inputs), Load(w.stored).value);
      ReportIsRecordable(w.process, e.inputs);
    }
  }

  /** Every run, of any processes and any stops, is complete and lawful. */
  lemma {:induction false} TraceLawful(w: World, events: seq<Event>)
    requires Sound(w) && StartsProcesses(events)
    ensures |Trace(w, events)| == |events|
    ensures Lawful(Trace(w, events))
    ensures events != [] ==> Trace(w, events)[0] == TakeStep(w, events[0], Load(w.stored).value)
    decreases |events|
  {
    if events != [] {
      assert events[0] in events;
      var before := Load(w.stored).value;
      var s := TakeStep(w, events[0], before);
      StepIsLawful(w, events[0], before);
      AdvanceSound(w, events[0]);
      var rest := Trace(Advance(w, s), events[1..]);
      TraceLawful(Advance(w, s), events[1..]);
      assert Trace(w, events) == [s] + rest;
      if rest != [] {
        FirstContinues(w, s, events[1]);
      }
      LawfulCons(s, rest);
    }
  }

  lemma FirstContinues(w: World, s: Step, e: Event)
    ensures Continues(s, TakeStep(Advance(w, s), e, s.after))
  {
  }

  lemma LawfulCons(s: Step, rest: seq<Step>)
    requires StepLaws(s) && Lawful(rest)
    requires rest != [] ==> Continues(s, rest[0])
    ensures Lawful([s] + rest)
  {
    var steps := [s] + rest;
    forall k | 0 < k < |steps|
      ensures Continues(steps[k - 1], steps[k])
    {
      if k > 1 {
        assert steps[k - 1] == rest[k - 2] && steps[k] == rest[k - 1];
      }
    }
  }

  // ---------------------------------------------------------------- Safety over whole runs

  lemma GreaterIsDifferent(s: string, t: string)
    requires GT(s, t)
    ensures s != t
  {
    GTIsStrictOrder(s, s, s);
  }

  /**
   No missed upgrade: in every run, a step that moves a recorded version from a non-empty
   value to a greater one is a pass in which the upgrade was called and succeeded.
   */
  lemma NoMissedUpgrade(w: World, events: seq<Event>, k: nat)
    requires Sound(w) && StartsProcesses(events) && k < |Trace(w, events)|
    requires var s := Trace(w, events)[k];
             || (s.before.version != "" && GT(s.after.version, s.before.version))
             || (s.before.platformVersion != "" && GT(s.after.platformVersion, s.before.platformVersion))
    ensures Trace(w, events)[k].work.upgradeCalled && Trace(w, events)[k].work.upgradeSucceeded
  {
    TraceLawful(w, events);
    var s := Trace(w, events)[k];
    assert StepLaws(s);
    if s.before.version != "" && GT(s.after.version, s.before.version) {
      GreaterIsDifferent(s.after.version, s.before.version);
    } else {
      GreaterIsDifferent(s.after.platformVersion, s.before.platformVersion);
    }
    assert Completed(s) && RecordsProcess(s.after, s.process);
  }

  lemma RecordedNeedsNoUpgrade(m: ModuleStatus, p: Process)
    requires RecordsProcess(m, p)
    ensures !UpgradeNeeded(p, m)
  {
    GTIsStrictOrder(p.version, p.version, p.version);
    GTIsStrictOrder(Print(p.release), Print(p.release), Print(p.release));
  }

  /** Restarts are counted, so steps of one epoch have no restart between them. */
  lemma {:induction false} EpochsGrow(steps: seq<Step>, j: nat, k: nat)
    requires Lawful(steps) && j <= k < |steps|
    ensures steps[j].epoch <= steps[k].epoch
  {
    if j < k {
      EpochsGrow(steps, j, k - 1);
      assert Continues(steps[k - 1], steps[k]);
    }
  }

  /** Within one epoch a completed pass leaves the record of its process in place. */
  lemma {:induction false} RecordStays(steps: seq<Step>, j: nat, k: nat)
    requires Lawful(steps) && j < k < |steps|
    requires Completed(steps[j]) && steps[j].epoch == steps[k].epoch
    ensures steps[k].passed && steps[k].process == steps[j].process
    ensures RecordsProcess(steps[k].before, steps[k].process)
  {
    assert Continues(steps[k - 1], steps[k]);
    EpochsGrow(steps, j, k - 1);
    if j == k - 1 {
      assert StepLaws(steps[j]);
    } else {
      RecordStays(steps, j, k - 1);
      assert StepLaws(steps[k - 1]);
    }
  }

  /**
   At most one completed upgrade per process: after a pass that reported and was saved, no
   later pass of the same process calls the upgrade.
   */
  lemma OneCompletedUpgradePerProcess(w: World, events: seq<Event>, j: nat, k: nat)
    requires Sound(w) && StartsProcesses(events) && j < k < |Trace(w, events)|
    requires Trace(w, events)[j].epoch == Trace(w, events)[k].epoch
    requires Completed(Trace(w, events)[j])
    ensures !Trace(w, events)[k].work.upgradeCalled
  {
    TraceLawful(w, events);
    var steps := Trace(w, events);
    RecordStays(steps, j, k);
    RecordedNeedsNoUpgrade(steps[k].before, steps[k].process);
    assert StepLaws(steps[k]);
  }

  /** Pass `e` gets to the upgrade action, whether or not the action succeeds. */
  predicate ReachesUpgrade(e: Event) {
    e.Pass? && (e.stop.finished > 1 || e.stop == Stop(1, true))
  }

  /** Until a pass completes, one epoch keeps its process and the status it started from. */
  lemma {:induction false} NothingRecorded(steps: seq<Step>, j: nat, k: nat)
    requires Lawful(steps) && j < k < |steps| && steps[j].epoch == steps[k].epoch
    requires forall i | j <= i < k :: !Completed(steps[i])
    ensures steps[k].process == steps[j].process && steps[k].before == steps[j].before
  {
    assert Continues(steps[k - 1], steps[k]);
    EpochsGrow(steps, j, k - 1);
    assert StepLaws(steps[k - 1]);
    if j < k - 1 {
      NothingRecorded(steps, j, k - 1);
    }
  }

  /**
   A pass that called the upgrade is followed by a retry: as long as no pass of the process
   has completed since, every pass that gets to the action calls the upgrade again, however
   many passes in between stopped before it.
   */
  lemma UpgradeIsRetried(w: World, events: seq<Event>, j: nat, k: nat)
    requires Sound(w) && StartsProcesses(events) && j < k < |Trace(w, events)|
    requires Trace(w, events)[j].epoch == Trace(w, events)[k].epoch
    requires Trace(w, events)[j].work.upgradeCalled
    requires forall i | j <= i < k :: !Completed(Trace(w, events)[i])
    requires ReachesUpgrade(events[k])
    ensures Trace(w, events)[k].work.upgradeCalled
  {
    TraceLawful(w, events);
    var steps := Trace(w, events);
    NothingRecorded(steps, j, k);
    assert StepLaws(steps[j]);
    var at := TraceStep(w, events, k);
    StepIsLawful(at, events[k], steps[k].before);
  }

  /** The world in which step `k` of a run is taken. */
  lemma {:induction false} TraceStep(w: World, events: seq<Event>, k: nat) returns (at: World)
    requires Sound(w) && StartsProcesses(events) && k < |Trace(w, events)|
    ensures Trace(w, events)[k] == TakeStep(at, events[k], Trace(w, events)[k].before)
    decreases k
  {
    TraceLawful(w, events);
    assert events[0] in events;
    if k == 0 {
      at := w;
    } else {
      var s := TakeStep(w, events[0], Load(w.stored).value);
      AdvanceSound(w, events[0]);
      TraceLawful(Advance(w, s), events[1..]);
      at := TraceStep(Advance(w, s), events[1..], k - 1);
    }
  }

  /** The recorded text names a version that precedes `v`. */
  ghost predicate Below(recorded: string, v: Option<Version>) {
    ParseTolerant(recorded).Some? && v.Some? && Precedes(ParseTolerant(recorded).value, v.value)
  }

  /** The trigger, in the order of versions: never on an empty or equal record, always on a lower one. */
  lemma UpgradeTrigger(p: Process, m: ModuleStatus)
    requires Started(p)
    ensures UpgradeNeeded(p, m) <==>
            || (m.version != "" && Below(m.version, ParseTolerant(p.version)))
            || (m.platformVersion != "" && Below(m.platformVersion, Some(p.release)))
  {
    hide Parse, ParseTolerant, Print, Precedes, GT, Valid;
    GTMeaning(p.version, m.version);
    GTMeaning(Print(p.release), m.platformVersion);
    ParsePrintVersion(p.release);
  }

  /** Equal inputs up to the order of the manifests, templates and charts. */
  ghost predicate SameInputs(i: Inputs, j: Inputs) {
    && multiset(i.manifests) == multiset(j.manifests)
    && multiset(i.templates) == multiset(j.templates)
    && multiset(i.charts) == multiset(j.charts)
  }

  /**
   After a stored completed pass, any later pass of the process whose inputs are the same up
   to order leaves the world as it was, wherever it stops and whether or not it is stored,
   even behind other such passes.
   */
  lemma {:induction false} RepeatedPassesChangeNothing(w: World, e: Event, later: seq<Event>)
    requires Sound(w) && e.Pass? && e.stop.finished > 6 && e.saved
    requires forall l | l in later :: l.Pass? && SameInputs(l.inputs, e.inputs)
    ensures var once := Advance(w, TakeStep(w, e, Load(w.stored).value));
            Load(once.stored).Some? && Final(once, later) == once
  {
    AdvanceSound(w, e);
    var before := Load(w.stored).value;
    var once := Advance(w, TakeStep(w, e, before));
    PassMeaning(e.stop, ContextOf(w.process, e.inputs), before);
    forall l | l in later
      ensures Advance(once, TakeStep(once, l, Load(once.stored).value)) == once
    {
      ReportIsCanonical(w.process, l.inputs, e.inputs);
      PassMeaning(l.stop, ContextOf(once.process, l.inputs), Load(once.stored).value);
    }
    StaysFinal(once, later);
  }

  /** The world after all events of a run. */
  function Final(w: World, events: seq<Event>): World
    decreases |events|
  {
    if events == [] || Load(w.stored).None? then w
    else Final(Advance(w, TakeStep(w, events[0], Load(w.stored).value)), events[1..])
  }

  lemma {:induction false} StaysFinal(w: World, events: seq<Event>)
    requires Load(w.stored).Some?
    requires forall e | e in events :: Advance(w, TakeStep(w, e, Load(w.stored).value)) == w
    ensures Final(w, events) == w
  {
    if events != [] {
      StaysFinal(w, events[1..]);
    }
  }
}
