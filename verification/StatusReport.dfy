/**
 The module actions of the AIGateway controller that touch state: `initialize`,
 `upgradeIfNeeded` and `reportStatus`.
 */
module StatusReport {
  import opened Wrappers
  import opened SemVer
  import opened Precedence

  datatype Source = Source(path: string, renderer: string)

  const KUSTOMIZE := "kustomize"
  const HELM := "helm"
  const TEMPLATE := "template"

  datatype ModuleStatus = ModuleStatus(
    version: string,
    buildSource: string,
    platformName: string,
    platformVersion: string,
    sources: seq<Source>
  )

  /** Where the code of a process comes from. */
  datatype Build = Build(repo: string, branch: string, commit: string)

  /** What is fixed for the lifetime of a process. */
  datatype Process = Process(version: string, build: Build, platformName: string, release: Version)

  /** `Config.Release`: an absent or unreadable platform version counts as 0.0.0. */
  function ReleaseVersion(platformVersion: string): (v: Version)
    ensures Valid(v)
  {
    ParseTolerantValid(platformVersion);
    if platformVersion == "" then Version(0, 0, 0, [], [])
    else
      match ParseTolerant(platformVersion)
      case Some(v) => v
      case None => Version(0, 0, 0, [], [])
  }

  /** `NewModule`: a process whose own version does not parse does not start. */
  function NewProcess(version: string, build: Build, platformName: string, platformVersion: string): Option<Process> {
    match NewSemVer(version)
    case None => None
    case Some(v) => Some(Process(v, build, platformName, ReleaseVersion(platformVersion)))
  }

  ghost predicate Started(p: Process) {
    Canonical(p.version) && Valid(p.release)
  }

  lemma NewProcessStarted(version: string, build: Build, platformName: string, platformVersion: string)
    ensures var p := NewProcess(version, build, platformName, platformVersion);
            p.Some? ==> Started(p.value)
  {
    if NewSemVer(version).Some? {
      CanonicalFixpoint(version);
    }
  }

  // ---------------------------------------------------------------- Sorted sources

  /** The comparison handed to `sort.Slice`. */
  predicate SourceLess(a: Source, b: Source) {
    if a.path == b.path then CompareText(a.renderer, b.renderer) == -1 else CompareText(a.path, b.path) == -1
  }

  ghost predicate Sorted(s: seq<Source>) {
    forall i, j | 0 <= i < j < |s| :: !SourceLess(s[j], s[i])
  }

  lemma CompareTextLaws(a: string, b: string, c: string)
    ensures CompareText(a, b) == -CompareText(b, a)
    ensures CompareText(a, b) == 0 <==> a == b
    ensures CompareText(a, b) <= 0 && CompareText(b, c) <= 0 ==> CompareText(a, c) <= 0
  {
    CompareTextMeaning(a, b);
    CompareTextMeaning(b, a);
    if CompareText(a, b) <= 0 && CompareText(b, c) <= 0 {
      CompareTextTransitive(a, b, c);
    }
  }

  /** The comparison leaves no two different sources tied, and its complement is transitive. */
  lemma SourceOrder(a: Source, b: Source, c: Source)
    ensures SourceLess(a, b) || SourceLess(b, a) || a == b
    ensures !(SourceLess(a, b) && SourceLess(b, a))
    ensures !SourceLess(b, a) && !SourceLess(c, b) ==> !SourceLess(c, a)
  {
    CompareTextLaws(a.path, b.path, c.path);
    CompareTextLaws(b.path, c.path, a.path);
    CompareTextLaws(c.path, a.path, b.path);
    CompareTextLaws(a.renderer, b.renderer, c.renderer);
    CompareTextLaws(b.renderer, c.renderer, a.renderer);
    CompareTextLaws(c.renderer, a.renderer, b.renderer);
  }

  lemma SmallestFirst(s: seq<Source>, t: seq<Source>)
    requires Sorted(s) && Sorted(t) && s != [] && t != []
    requires t[0] in s && s[0] in t
    ensures s[0] == t[0]
  {
    var i :| 0 <= i < |t| && t[i] == s[0];
    var j :| 0 <= j < |s| && s[j] == t[0];
    SourceOrder(s[0], t[0], s[0]);
  }

  lemma RestContents<T>(s: seq<T>)
    requires s != []
    ensures multiset(s[1..]) == multiset(s) - multiset{s[0]}
  {
    assert s == [s[0]] + s[1..];
  }

  /** A sorted list is determined by what it contains, so an unstable sort has one possible answer. */
  lemma {:induction false} SortedUnique(s: seq<Source>, t: seq<Source>)
    requires Sorted(s) && Sorted(t) && multiset(s) == multiset(t)
    ensures s == t
  {
    if s == [] {
      assert |multiset(t)| == 0;
    } else {
      assert |multiset(t)| == |s|;
      assert s[0] in multiset(t) && t[0] in multiset(s);
      SmallestFirst(s, t);
      RestContents(s);
      RestContents(t);
      SortedUnique(s[1..], t[1..]);
      assert s == [s[0]] + s[1..] && t == [t[0]] + t[1..];
    }
  }

  function InsertAt<T>(s: seq<T>, k: nat, x: T): seq<T>
    requires k <= |s|
  {
    s[..k] + [x] + s[k..]
  }

  lemma InsertContents<T>(s: seq<T>, k: nat, x: T)
    requires k <= |s|
    ensures multiset(InsertAt(s, k, x)) == multiset(s) + multiset{x}
  {
    assert s == s[..k] + s[k..];
  }

  /** The position behind every source not above `x` in a sorted list. */
  function InsertPosition(x: Source, s: seq<Source>): (k: nat)
    ensures k <= |s|
    ensures forall i | 0 <= i < k :: !SourceLess(x, s[i])
    ensures k < |s| ==> SourceLess(x, s[k])
  {
    if s == [] || SourceLess(x, s[0]) then 0 else 1 + InsertPosition(x, s[1..])
  }

  lemma InsertKeepsSorted(x: Source, s: seq<Source>)
    requires Sorted(s)
    ensures Sorted(InsertAt(s, InsertPosition(x, s), x))
  {
    var k := InsertPosition(x, s);
    var t := InsertAt(s, k, x);
    forall i, j | 0 <= i < j < |t|
      ensures !SourceLess(t[j], t[i])
    {
      if i == k {
        assert t[j] == s[j - 1];
        SourceOrder(x, s[k], x);
        SourceOrder(x, s[k], s[j - 1]);
      }
    }
  }

  lemma SortedInsert(x: Source, s: seq<Source>)
    requires Sorted(s)
    ensures var t := InsertAt(s, InsertPosition(x, s), x);
            Sorted(t) && multiset(t) == multiset(s) + multiset{x}
  {
    InsertKeepsSorted(x, s);
    InsertContents(s, InsertPosition(x, s), x);
  }

  lemma NothingSorted()
    ensures Sorted([])
  {
  }

  /**
   Stands for `sort.Slice`.  The library promises a sorted rearrangement and nothing
   about ties, so callers may rely on this contract only.
   */
  method SortSlice(sources: seq<Source>) returns (sorted: seq<Source>)
    ensures Sorted(sorted)
    ensures multiset(sorted) == multiset(sources)
  {
    hide Sorted, InsertAt, InsertPosition;
    sorted := [];
    NothingSorted();
    for i := 0 to |sources|
      invariant Sorted(sorted)
      invariant multiset(sorted) == multiset(sources[..i])
    {
      SortedInsert(sources[i], sorted);
      assert sources[..i + 1] == sources[..i] + [sources[i]];
      sorted := InsertAt(sorted, InsertPosition(sources[i], sorted), sources[i]);
    }
    assert sources[..|sources|] == sources;
  }

  function InsertionSort(sources: seq<Source>): seq<Source> {
    if sources == [] then [] else
      var s := InsertionSort(sources[1..]);
      InsertAt(s, InsertPosition(sources[0], s), sources[0])
  }

  lemma {:induction false} InsertionSortSorts(sources: seq<Source>)
    ensures Sorted(InsertionSort(sources)) && multiset(InsertionSort(sources)) == multiset(sources)
  {
    if sources != [] {
      InsertionSortSorts(sources[1..]);
      SortedInsert(sources[0], InsertionSort(sources[1..]));
      assert sources == [sources[0]] + sources[1..];
    }
  }

  /** The one sorted rearrangement of `sources`. */
  function SortedSources(sources: seq<Source>): (sorted: seq<Source>)
    ensures Sorted(sorted) && multiset(sorted) == multiset(sources)
  {
    InsertionSortSorts(sources);
    InsertionSort(sources)
  }

  // ---------------------------------------------------------------- The actions

  function Tagged(paths: seq<string>, renderer: string): (sources: seq<Source>)
    ensures |sources| == |paths|
    ensures forall i | 0 <= i < |paths| :: sources[i] == Source(paths[i], renderer)
  {
    seq(|paths|, i requires 0 <= i < |paths| => Source(paths[i], renderer))
  }

  /** The rendering inputs of one pass. */
  datatype Inputs = Inputs(manifests: seq<string>, templates: seq<string>, charts: seq<string>)

  function AllSources(i: Inputs): seq<Source> {
    Tagged(i.manifests, KUSTOMIZE) + Tagged(i.templates, TEMPLATE) + Tagged(i.charts, HELM)
  }

  function BuildSource(b: Build): string {
    b.repo + "@" + b.branch + "/" + b.commit
  }

  /** The module status a process reports for given inputs. */
  function Report(p: Process, i: Inputs): ModuleStatus {
    ModuleStatus(p.version, BuildSource(p.build), p.platformName, Print(p.release), SortedSources(AllSources(i)))
  }

  // ---------------------------------------------------------------- What a report says

  lemma CountFirst<T>(values: seq<T>, x: T)
    requires values != []
    ensures multiset(values)[x] == (if values[0] == x then 1 else 0) + multiset(values[1..])[x]
  {
    assert values == [values[0]] + values[1..];
  }

  lemma TaggedStep(paths: seq<string>, renderer: string)
    requires paths != []
    ensures var tagged := Tagged(paths, renderer);
            tagged != [] && tagged[0] == Source(paths[0], renderer) && tagged[1..] == Tagged(paths[1..], renderer)
  {
  }

  lemma {:induction false} CountTagged(paths: seq<string>, renderer: string, x: Source)
    ensures multiset(Tagged(paths, renderer))[x] == if x.renderer == renderer then multiset(paths)[x.path] else 0
  {
    if paths != [] {
      hide Tagged;
      CountTagged(paths[1..], renderer, x);
      TaggedStep(paths, renderer);
      CountFirst(paths, x.path);
      CountFirst(Tagged(paths, renderer), x);
    }
  }

  /** Listed as often as in `paths`, with one renderer. */
  ghost predicate Lists(sources: seq<Source>, renderer: string, paths: seq<string>) {
    forall path :: multiset(sources)[Source(path, renderer)] == multiset(paths)[path]
  }

  /** By path, and by renderer where the paths are the same, both in the order of their characters. */
  ghost predicate InOrder(a: Source, b: Source) {
    if a.path == b.path then !FirstDifference(CharLess, b.renderer, a.renderer) else FirstDifference(CharLess, a.path, b.path)
  }

  /** A status that says what the process is and what the pass rendered, in order. */
  ghost predicate Reflects(status: ModuleStatus, p: Process, i: Inputs) {
    && status.version == p.version
    && status.buildSource == p.build.repo + "@" + p.build.branch + "/" + p.build.commit
    && status.platformName == p.platformName
    && status.platformVersion == Print(p.release)
    && Lists(status.sources, "kustomize", i.manifests)
    && Lists(status.sources, "template", i.templates)
    && Lists(status.sources, "helm", i.charts)
    && (forall source | source in status.sources :: source.renderer in {"kustomize", "template", "helm"})
    && (forall j, k | 0 <= j < k < |status.sources| :: InOrder(status.sources[j], status.sources[k]))
  }

  lemma RenderersApart()
    ensures KUSTOMIZE == "kustomize" && TEMPLATE == "template" && HELM == "helm"
    ensures KUSTOMIZE != TEMPLATE && KUSTOMIZE != HELM && TEMPLATE != HELM
  {
    assert KUSTOMIZE[0] == 'k' && TEMPLATE[0] == 't' && HELM[0] == 'h';
  }

  lemma CountAll(i: Inputs, x: Source)
    ensures multiset(AllSources(i))[x]
            == if x.renderer == KUSTOMIZE then multiset(i.manifests)[x.path]
               else if x.renderer == TEMPLATE then multiset(i.templates)[x.path]
               else if x.renderer == HELM then multiset(i.charts)[x.path] else 0
  {
    hide Tagged;
    RenderersApart();
    CountTagged(i.manifests, KUSTOMIZE, x);
    CountTagged(i.templates, TEMPLATE, x);
    CountTagged(i.charts, HELM, x);
  }

  lemma SourceOrderMeaning(a: Source, b: Source)
    ensures !SourceLess(b, a) <==> InOrder(a, b)
  {
    CompareTextMeaning(a.path, b.path);
    CompareTextMeaning(b.path, a.path);
    CompareTextMeaning(b.renderer, a.renderer);
    CompareTextLaws(a.path, b.path, a.path);
  }

  /** The report is the one status that reflects the process and the pass. */
  lemma ReportMeaning(p: Process, i: Inputs, status: ModuleStatus)
    ensures status == Report(p, i) <==> Reflects(status, p, i)
  {
    hide SourceLess, InOrder, AllSources, SortedSources, Print;
    RenderersApart();
    forall x: Source { CountAll(i, x); }
    forall a: Source, b: Source { SourceOrderMeaning(a, b); }
    if Reflects(status, p, i) {
      forall x: Source
        ensures multiset(status.sources)[x] == multiset(AllSources(i))[x]
      {
        assert x.renderer !in {KUSTOMIZE, TEMPLATE, HELM} ==> x !in status.sources;
      }
      SortedUnique(status.sources, SortedSources(AllSources(i)));
    }
    if status == Report(p, i) {
      forall source | source in status.sources
        ensures source.renderer in {KUSTOMIZE, TEMPLATE, HELM}
      {
        assert multiset(AllSources(i))[source] > 0;
      }
    }
  }

  /** The trigger of `upgradeIfNeeded`. */
  predicate UpgradeNeeded(p: Process, prev: ModuleStatus) {
    || (prev.version != "" && GT(p.version, prev.version))
    || (prev.platformVersion != "" && GT(Print(p.release), prev.platformVersion))
  }

  class AIGateway {
    var managementState: string
    var status: ModuleStatus

    constructor (managementState: string, status: ModuleStatus)
      ensures this.managementState == managementState && this.status == status
    {
      this.managementState := managementState;
      this.status := status;
    }
  }

  class ReconciliationRequest {
    var manifests: seq<string>
    var templates: seq<string>
    var charts: seq<string>

    constructor ()
      ensures GetInputs() == Inputs([], [], [])
    {
      manifests, templates, charts := [], [], [];
    }

    function GetInputs(): Inputs
      reads this
    {
      Inputs(manifests, templates, charts)
    }
  }

  class Module {
    const process: Process
    const batchGatewayManifests: string

    constructor (process: Process, batchGatewayManifests: string)
      ensures this.process == process && this.batchGatewayManifests == batchGatewayManifests
    {
      this.process := process;
      this.batchGatewayManifests := batchGatewayManifests;
    }

    /**
     `obj` is null when the instance is not an AIGateway; `paramsApplied` says whether
     writing params.env worked.  The manifests stay appended when it did not.
     */
    method Initialize(obj: AIGateway?, rr: ReconciliationRequest, paramsApplied: bool) returns (ok: bool)
      modifies rr
      ensures var managed := obj != null && obj.managementState == "Managed";
              && ok == (obj != null && (managed ==> paramsApplied))
              && rr.manifests == old(rr.manifests) + (if managed then [batchGatewayManifests] else [])
      ensures rr.templates == old(rr.templates) && rr.charts == old(rr.charts)
    {
      if obj == null {
        return false;
      }
      if obj.managementState == "Managed" {
        rr.manifests := rr.manifests + [batchGatewayManifests];
        if !paramsApplied {
          return false;
        }
      }
      return true;
    }

    /** Overwrites the module status; the sources are collected in three loops and sorted. */
    method ReportStatus(obj: AIGateway?, rr: ReconciliationRequest) returns (ok: bool)
      modifies obj
      ensures ok == (obj != null)
      ensures obj != null ==>
                obj.status == Report(process, old(rr.GetInputs())) && obj.managementState == old(obj.managementState)
      ensures obj != null ==> Reflects(obj.status, process, old(rr.GetInputs()))
    {
      if obj == null {
        return false;
      }
      var sources: seq<Source> := [];
      for i := 0 to |rr.manifests|
        invariant sources == Tagged(rr.manifests, KUSTOMIZE)[..i]
      {
        sources := sources + [Source(rr.manifests[i], KUSTOMIZE)];
      }
      for i := 0 to |rr.templates|
        invariant sources == Tagged(rr.manifests, KUSTOMIZE) + Tagged(rr.templates, TEMPLATE)[..i]
      {
        sources := sources + [Source(rr.templates[i], TEMPLATE)];
      }
      for i := 0 to |rr.charts|
        invariant sources == Tagged(rr.manifests, KUSTOMIZE) + Tagged(rr.templates, TEMPLATE) + Tagged(rr.charts, HELM)[..i]
      {
        sources := sources + [Source(rr.charts[i], HELM)];
      }
      assert sources == AllSources(rr.GetInputs());
      var sorted := SortSlice(sources);
      SortedUnique(sorted, SortedSources(sources));
      obj.status := ModuleStatus(process.version, BuildSource(process.build), process.platformName, Print(process.release), sorted);
      ReportMeaning(process, rr.GetInputs(), obj.status);
      return true;
    }
  }

  // ---------------------------------------------------------------- One canonical report

  lemma TaggedContents(a: seq<string>, b: seq<string>, renderer: string)
    requires multiset(a) == multiset(b)
    ensures multiset(Tagged(a, renderer)) == multiset(Tagged(b, renderer))
  {
    forall x: Source
      ensures multiset(Tagged(a, renderer))[x] == multiset(Tagged(b, renderer))[x]
    {
      CountTagged(a, renderer, x);
      CountTagged(b, renderer, x);
    }
  }

  /** Reordering manifests, templates or charts does not show in the report. */
  lemma ReportIsCanonical(p: Process, i: Inputs, j: Inputs)
    requires multiset(i.manifests) == multiset(j.manifests)
    requires multiset(i.templates) == multiset(j.templates)
    requires multiset(i.charts) == multiset(j.charts)
    ensures Report(p, i) == Report(p, j)
  {
    TaggedContents(i.manifests, j.manifests, KUSTOMIZE);
    TaggedContents(i.templates, j.templates, TEMPLATE);
    TaggedContents(i.charts, j.charts, HELM);
    SortedUnique(SortedSources(AllSources(i)), SortedSources(AllSources(j)));
  }
}
