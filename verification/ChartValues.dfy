/**
 The values file: what is extracted from the first Deployment, how its resources are
 printed, and what an installation with just these values gives back.
 */
module ChartValues {
  import opened Wrappers
  import opened GoStrings
  import opened PassLaws
  import opened Yaml
  import opened TreeEdits
  import opened Elision
  import opened ChartRendering
  import opened HelmTemplate
  import opened EmittedRendering
  import opened DeploymentChart
  import opened DeploymentRoundTrip
  import opened ImageReference

  // ---------------------------------------------------------------- Reading a resource

  /** The plain scalars the YAML library reads as something other than a string. */
  type Typing = string -> bool

  predicate IsText(typing: Typing, text: string) {
    IsQuoted(text) || (text != "{}" && text != "[]" && !typing(text))
  }

  /** A type assertion to `string`. */
  function StringOf(typing: Typing, node: Node): Option<string> {
    if node.Scalar? && IsText(typing, node.text) then Some(Unquote(node.text)) else None
  }

  /** A type assertion to a map. */
  function MapOf(node: Node): Option<Entries> {
    match node
    case Mapping(entries) => Some(entries)
    case Scalar(text) => if text == "{}" then Some(NoEntries) else None
    case Sequence(_) => None
  }

  function Lookup(entries: Entries, key: string): Option<Node> {
    match entries
    case NoEntries => None
    case Entry(k, value, rest) => if k == key then Some(value) else Lookup(rest, key)
    case Splice(_, rest) => Lookup(rest, key)
  }

  function LookupMap(entries: Entries, key: string): Option<Entries> {
    match Lookup(entries, key)
    case None => None
    case Some(node) => MapOf(node)
  }

  function LookupString(typing: Typing, entries: Entries, key: string): Option<string> {
    match Lookup(entries, key)
    case None => None
    case Some(node) => StringOf(typing, node)
  }

  /** Follows the keys of a path through nested maps. */
  function LookupPath(entries: Entries, path: seq<string>): Option<Entries>
    decreases path
  {
    if path == [] then Some(entries)
    else
      match LookupMap(entries, path[0])
      case None => None
      case Some(inner) => LookupPath(inner, path[1..])
  }

  predicate IsDeployment(typing: Typing, entries: Entries) {
    && LookupString(typing, entries, "apiVersion") == Some("apps/v1")
    && LookupString(typing, entries, "kind") == Some("Deployment")
  }

  /** The empty collections are printed inline, and are no strings. */
  lemma InlineCollections(typing: Typing)
    ensures StringOf(typing, Scalar("{}")) == None && MapOf(Scalar("{}")) == Some(NoEntries)
    ensures StringOf(typing, Scalar("[]")) == None && MapOf(Scalar("[]")) == None
  {
  }

  /** The first container of the pod template, if it is a map. */
  function FirstContainer(entries: Entries): Option<Entries> {
    match LookupPath(entries, ["spec", "template", "spec"])
    case None => None
    case Some(pod) =>
      match Lookup(pod, "containers")
      case Some(Sequence(Item(value, _))) => MapOf(value)
      case _ => None
  }

  // ---------------------------------------------------------------- Extraction

  /** An empty string is a value that is left out. */
  datatype ResourceList = ResourceList(cpu: string, memory: string)

  datatype ResourceSpec = ResourceSpec(limits: ResourceList, requests: ResourceList)

  datatype ChartDefaults = ChartDefaults(repository: string, tag: string, resources: ResourceSpec)

  /** `DefaultValues`. */
  const DEFAULTS := ChartDefaults("controller", DEFAULT_TAG,
                                  ResourceSpec(ResourceList("500m", "128Mi"), ResourceList("10m", "64Mi")))

  function StringOrEmpty(s: Option<string>): string {
    match s
    case None => ""
    case Some(v) => v
  }

  /** A CPU quantity that is no string is printed by a library and not part of the model. */
  predicate NumericCPU(typing: Typing, list: Entries) {
    Lookup(list, "cpu").Some? && LookupString(typing, list, "cpu").None?
  }

  function ListOf(typing: Typing, res: Entries, key: string): Option<ResourceList> {
    match LookupMap(res, key)
    case None => Some(ResourceList("", ""))
    case Some(list) =>
      if NumericCPU(typing, list) then None
      else Some(ResourceList(StringOrEmpty(LookupString(typing, list, "cpu")),
                             StringOrEmpty(LookupString(typing, list, "memory"))))
  }

  function SpecOf(typing: Typing, res: Entries): Option<ResourceSpec> {
    var limits, requests := ListOf(typing, res, "limits"), ListOf(typing, res, "requests");
    if limits.None? || requests.None? then None else Some(ResourceSpec(limits.value, requests.value))
  }

  /** `extractResources`: fills the four fields in turn. */
  method ExtractResources(typing: Typing, res: Entries) returns (spec: Option<ResourceSpec>)
    ensures spec == SpecOf(typing, res)
  {
    var filled := ResourceSpec(ResourceList("", ""), ResourceList("", ""));
    var limits := LookupMap(res, "limits");
    if limits.Some? {
      var cpu := LookupString(typing, limits.value, "cpu");
      if cpu.Some? {
        filled := filled.(limits := filled.limits.(cpu := cpu.value));
      } else if Lookup(limits.value, "cpu").Some? {
        return None;
      }
      var memory := LookupString(typing, limits.value, "memory");
      if memory.Some? {
        filled := filled.(limits := filled.limits.(memory := memory.value));
      }
    }
    var requests := LookupMap(res, "requests");
    if requests.Some? {
      var cpu := LookupString(typing, requests.value, "cpu");
      if cpu.Some? {
        filled := filled.(requests := filled.requests.(cpu := cpu.value));
      } else if Lookup(requests.value, "cpu").Some? {
        return None;
      }
      var memory := LookupString(typing, requests.value, "memory");
      if memory.Some? {
        filled := filled.(requests := filled.requests.(memory := memory.value));
      }
    }
    return Some(filled);
  }

  /** What one Deployment changes in the defaults. */
  function DefaultsOf(typing: Typing, deployment: Entries): Option<ChartDefaults> {
    match FirstContainer(deployment)
    case None => Some(DEFAULTS)
    case Some(container) =>
      var named :=
        match LookupString(typing, container, "image")
        case None => DEFAULTS
        case Some(image) => DEFAULTS.(repository := SplitTag(image).0, tag := SplitTag(image).1);
      match LookupMap(container, "resources")
      case None => Some(named)
      case Some(res) =>
        match SpecOf(typing, res)
        case None => None
        case Some(spec) => Some(named.(resources := spec))
  }

  // ---------------------------------------------------------------- What is extracted, by place

  /** The pod template of a Deployment holds these containers. */
  ghost predicate HoldsContainers(deployment: Entries, spec: Entries, template: Entries, pod: Entries, items: Items) {
    && LookupMap(deployment, "spec") == Some(spec)
    && LookupMap(spec, "template") == Some(template)
    && LookupMap(template, "spec") == Some(pod)
    && Lookup(pod, "containers") == Some(Sequence(items))
  }

  /** The container at index 0, which is a map. */
  ghost predicate ContainerZero(deployment: Entries, container: Entries) {
    exists spec, template, pod, items ::
      && HoldsContainers(deployment, spec, template, pod, items)
      && ItemList(items) != [] && MapOf(ItemList(items)[0]) == Some(container)
  }

  /** Repository and tag of a reference: cut at the last colon behind the last slash. */
  ghost predicate CutReference(image: string, repository: string, tag: string) {
    || (|image| >= 2 && exists i: nat :: TagColon(image, i) && repository == image[..i] && tag == image[i + 1..])
    || ((|image| < 2 || forall i: nat :: !TagColon(image, i)) && repository == image && tag == "latest")
  }

  ghost predicate NamesImage(typing: Typing, deployment: Entries, container: Entries, image: string) {
    ContainerZero(deployment, container) && LookupString(typing, container, "image") == Some(image)
  }

  ghost predicate HoldsResources(deployment: Entries, container: Entries, res: Entries) {
    ContainerZero(deployment, container) && LookupMap(container, "resources") == Some(res)
  }

  /** The quantity a list holds as a string, and the empty string without one. */
  ghost predicate HoldsQuantity(typing: Typing, res: Entries, list: string, key: string, v: string) {
    match LookupMap(res, list)
    case None => v == ""
    case Some(quantities) =>
      match LookupString(typing, quantities, key)
      case None => v == ""
      case Some(text) => v == text
  }

  ghost predicate HoldsQuantities(typing: Typing, res: Entries, spec: ResourceSpec) {
    && HoldsQuantity(typing, res, "limits", "cpu", spec.limits.cpu)
    && HoldsQuantity(typing, res, "limits", "memory", spec.limits.memory)
    && HoldsQuantity(typing, res, "requests", "cpu", spec.requests.cpu)
    && HoldsQuantity(typing, res, "requests", "memory", spec.requests.memory)
  }

  /** A CPU quantity of the list is no string. */
  ghost predicate HoldsOtherCPU(typing: Typing, res: Entries, list: string) {
    match LookupMap(res, list)
    case None => false
    case Some(quantities) => Lookup(quantities, "cpu").Some? && LookupString(typing, quantities, "cpu") == None
  }

  ghost predicate CPUAsStrings(typing: Typing, deployment: Entries) {
    forall container, res | HoldsResources(deployment, container, res) ::
      !HoldsOtherCPU(typing, res, "limits") && !HoldsOtherCPU(typing, res, "requests")
  }

  /**
   The values of a Deployment: image and resources of the container at index 0 and of no
   other, and the values of the chart where it has none.
   */
  ghost predicate ValuesByPlace(typing: Typing, deployment: Entries, values: ChartDefaults) {
    && (forall container, image | NamesImage(typing, deployment, container, image) ::
          CutReference(image, values.repository, values.tag))
    && ((forall container, image :: !NamesImage(typing, deployment, container, image)) ==>
          values.repository == "controller" && values.tag == "latest")
    && (forall container, res | HoldsResources(deployment, container, res) :: HoldsQuantities(typing, res, values.resources))
    && ((forall container, res :: !HoldsResources(deployment, container, res)) ==>
          && values.resources.limits == ResourceList("500m", "128Mi")
          && values.resources.requests == ResourceList("10m", "64Mi"))
  }

  lemma FirstIsZero(deployment: Entries, container: Entries)
    ensures FirstContainer(deployment) == Some(container) <==> ContainerZero(deployment, container)
  {
    hide Lookup, MapOf;
    ThreeSteps(deployment);
    if FirstContainer(deployment) == Some(container) {
      var spec := LookupMap(deployment, "spec").value;
      var template := LookupMap(spec, "template").value;
      var pod := LookupMap(template, "spec").value;
      var items := Lookup(pod, "containers").value.items;
      assert HoldsContainers(deployment, spec, template, pod, items);
    }
  }

  lemma ThreeSteps(entries: Entries)
    ensures LookupPath(entries, ["spec", "template", "spec"])
            == match LookupMap(entries, "spec")
               case None => None
               case Some(spec) =>
                 match LookupMap(spec, "template")
                 case None => None
                 case Some(template) => LookupMap(template, "spec")
  {
    hide LookupMap;
    var path := ["spec", "template", "spec"];
    assert path[1..] == ["template", "spec"] && path[1..][1..] == ["spec"] && path[1..][1..][1..] == [];
  }

  lemma SplitIsCut(image: string, repository: string, tag: string)
    ensures SplitTag(image) == (repository, tag) <==> CutReference(image, repository, tag)
  {
    hide SplitTag;
    SplitTagMeaning(image);
    if Tagged(image) {
      var i: nat :| TagColon(image, i) && SplitTag(image) == (image[..i], image[i + 1..]);
      assert forall k: nat | TagColon(image, k) :: k == i;
    }
  }

  lemma ListHoldsQuantities(typing: Typing, res: Entries, list: string)
    ensures ListOf(typing, res, list) == None <==> HoldsOtherCPU(typing, res, list)
    ensures forall l :: ListOf(typing, res, list) == Some(l) <==>
              && !HoldsOtherCPU(typing, res, list)
              && HoldsQuantity(typing, res, list, "cpu", l.cpu) && HoldsQuantity(typing, res, list, "memory", l.memory)
  {
    hide Lookup, StringOf, MapOf;
  }

  lemma SpecHoldsQuantities(typing: Typing, res: Entries, spec: ResourceSpec)
    ensures SpecOf(typing, res) == Some(spec) <==>
              && !HoldsOtherCPU(typing, res, "limits") && !HoldsOtherCPU(typing, res, "requests")
              && HoldsQuantities(typing, res, spec)
  {
    hide ListOf, HoldsOtherCPU, HoldsQuantity;
    ListHoldsQuantities(typing, res, "limits");
    ListHoldsQuantities(typing, res, "requests");
  }

  /** What is extracted from a Deployment, exactly. */
  lemma DefaultsMeaning(typing: Typing, deployment: Entries, values: ChartDefaults)
    ensures DefaultsOf(typing, deployment) == Some(values)
            <==> CPUAsStrings(typing, deployment) && ValuesByPlace(typing, deployment, values)
  {
    hide FirstContainer, ContainerZero, LookupString, LookupMap, SplitTag, SpecOf, HoldsOtherCPU, HoldsQuantities, CutReference;
    forall container { FirstIsZero(deployment, container); }
    match FirstContainer(deployment)
    case None =>
    case Some(container) =>
      var image, res := LookupString(typing, container, "image"), LookupMap(container, "resources");
      if image.Some? {
        assert NamesImage(typing, deployment, container, image.value);
        SplitIsCut(image.value, values.repository, values.tag);
      }
      if res.Some? {
        assert HoldsResources(deployment, container, res.value);
        SpecHoldsQuantities(typing, res.value, values.resources);
      }
  }

  lemma ExtractsMeaning(typing: Typing, deployment: Entries)
    ensures DefaultsOf(typing, deployment).Some? <==> CPUAsStrings(typing, deployment)
  {
    hide FirstContainer, ContainerZero, LookupString, LookupMap, SplitTag, SpecOf, HoldsOtherCPU, HoldsQuantities;
    forall container { FirstIsZero(deployment, container); }
    match FirstContainer(deployment)
    case None =>
    case Some(container) =>
      var res := LookupMap(container, "resources");
      if res.Some? {
        assert HoldsResources(deployment, container, res.value);
        SpecExtracts(typing, res.value);
      }
  }

  lemma SpecExtracts(typing: Typing, res: Entries)
    ensures SpecOf(typing, res).Some? <==> !HoldsOtherCPU(typing, res, "limits") && !HoldsOtherCPU(typing, res, "requests")
  {
    hide ListOf, HoldsOtherCPU, HoldsQuantity;
    ListHoldsQuantities(typing, res, "limits");
    ListHoldsQuantities(typing, res, "requests");
  }

  /** What is extracted from a Deployment says where it comes from. */
  lemma ExtractedByPlace(typing: Typing, deployment: Entries)
    ensures var values := DefaultsOf(typing, deployment);
            && (values.Some? <==> CPUAsStrings(typing, deployment))
            && (values.Some? ==> ValuesByPlace(typing, deployment, values.value))
  {
    hide DefaultsOf, CPUAsStrings, ValuesByPlace;
    ExtractsMeaning(typing, deployment);
    if DefaultsOf(typing, deployment).Some? {
      DefaultsMeaning(typing, deployment, DefaultsOf(typing, deployment).value);
    }
  }

  /** What the object says of itself. */
  ghost predicate Declares(typing: Typing, obj: Entries, apiVersion: string, kind: string) {
    LookupString(typing, obj, "apiVersion") == Some(apiVersion) && LookupString(typing, obj, "kind") == Some(kind)
  }

  /** The Deployment at `k` has none before it. */
  ghost predicate FirstDeployment(typing: Typing, resources: seq<Entries>, k: nat) {
    && k < |resources| && Declares(typing, resources[k], "apps/v1", "Deployment")
    && forall j | 0 <= j < k :: !Declares(typing, resources[j], "apps/v1", "Deployment")
  }

  /** `ExtractDefaults`: only the first Deployment counts. */
  method ExtractDefaults(typing: Typing, resources: seq<Entries>) returns (values: Option<ChartDefaults>)
    ensures (forall k: nat :: !FirstDeployment(typing, resources, k)) ==>
              values == Some(ChartDefaults("controller", "latest",
                                           ResourceSpec(ResourceList("500m", "128Mi"), ResourceList("10m", "64Mi"))))
    ensures forall k: nat | FirstDeployment(typing, resources, k) ::
              && (values.Some? <==> CPUAsStrings(typing, resources[k]))
              && (values.Some? ==> ValuesByPlace(typing, resources[k], values.value))
    ensures forall k: nat | FirstDeployment(typing, resources, k) :: values == DefaultsOf(typing, resources[k])
  {
    hide Lookup, LookupPath, SplitTag, StringOf, MapOf, ValuesByPlace, CPUAsStrings;
    var filled := DEFAULTS;
    for i := 0 to |resources|
      invariant filled == DEFAULTS
      invariant forall k | 0 <= k < i :: !Declares(typing, resources[k], "apps/v1", "Deployment")
    {
      if !IsDeployment(typing, resources[i]) {
        continue;
      }
      assert FirstDeployment(typing, resources, i);
      assert forall k: nat | FirstDeployment(typing, resources, k) :: k == i;
      ExtractedByPlace(typing, resources[i]);
      var container := FirstContainer(resources[i]);
      if container.Some? {
        var image := LookupString(typing, container.value, "image");
        if image.Some? {
          var repository, tag := SplitImageTag(image.value);
          filled := filled.(repository := repository, tag := tag);
        }
        var res := LookupMap(container.value, "resources");
        if res.Some? {
          var spec := ExtractResources(typing, res.value);
          if spec.None? {
            return None;
          }
          filled := filled.(resources := spec.value);
        }
      }
      return Some(filled);
    }
    return Some(filled);
  }

  // ---------------------------------------------------------------- Printing the values

  /** A string value as the YAML library prints it: quoted where it would not read back. */
  function PrintString(typing: Typing, v: string): string {
    if Clean(v) && !IsQuoted(v) && v != "{}" && v != "[]" && !typing(v) then v else Quoted(v)
  }

  lemma PrintStringReadsBack(typing: Typing, v: string)
    ensures StringOf(typing, Scalar(PrintString(typing, v))) == Some(v)
    ensures Unquote(PrintString(typing, v)) == v
    ensures '\n' !in v ==> Clean(PrintString(typing, v))
  {
    UnquoteQuoted(v);
  }

  /** A field is left out when its string is empty. */
  function OptionalField(typing: Typing, key: string, v: string, rest: Entries): Entries {
    if v == "" then rest else Entry(key, Scalar(PrintString(typing, v)), rest)
  }

  function ListNode(typing: Typing, list: ResourceList): Node {
    var fields := OptionalField(typing, "cpu", list.cpu, OptionalField(typing, "memory", list.memory, NoEntries));
    if fields == NoEntries then Scalar("{}") else Mapping(fields)
  }

  /** `.Values.resources` as it stands in the values file. */
  function ResourcesTree(typing: Typing, spec: ResourceSpec): Entries {
    Entry("limits", ListNode(typing, spec.limits), Entry("requests", ListNode(typing, spec.requests), NoEntries))
  }

  predicate OneLineList(list: ResourceList) {
    '\n' !in list.cpu && '\n' !in list.memory
  }

  lemma OptionalFieldPrintable(typing: Typing, key: string, v: string, rest: Entries)
    requires GoodKey(key) && '\n' !in v && PrintableEntries(rest)
    ensures PrintableEntries(OptionalField(typing, key, v, rest))
  {
    hide PrintString, Clean;
    PrintStringReadsBack(typing, v);
  }

  lemma ListNodePrintable(typing: Typing, list: ResourceList)
    requires OneLineList(list)
    ensures Printable(ListNode(typing, list))
  {
    hide OptionalField;
    assert GoodKey("cpu") && GoodKey("memory") && Clean("{}");
    assert PrintableEntries(NoEntries);
    OptionalFieldPrintable(typing, "memory", list.memory, NoEntries);
    OptionalFieldPrintable(typing, "cpu", list.cpu, OptionalField(typing, "memory", list.memory, NoEntries));
  }

  lemma ResourcesTreePrintable(typing: Typing, spec: ResourceSpec)
    requires OneLineList(spec.limits) && OneLineList(spec.requests)
    ensures PrintableEntries(ResourcesTree(typing, spec)) && ResourcesTree(typing, spec) != NoEntries
  {
    hide ListNode;
    assert GoodKey("limits") && GoodKey("requests");
    ListNodePrintable(typing, spec.limits);
    ListNodePrintable(typing, spec.requests);
    assert PrintableEntries(Entry("requests", ListNode(typing, spec.requests), NoEntries));
  }

  lemma {:induction false} LookupPrintable(entries: Entries, key: string)
    requires PrintableEntries(entries) && Lookup(entries, key).Some?
    ensures Printable(Lookup(entries, key).value)
  {
    if entries.key != key {
      LookupPrintable(entries.rest, key);
    }
  }

  lemma StringOneLine(typing: Typing, entries: Entries, key: string)
    requires PrintableEntries(entries)
    ensures '\n' !in StringOrEmpty(LookupString(typing, entries, key))
  {
    if Lookup(entries, key).Some? {
      LookupPrintable(entries, key);
    }
  }

  lemma ListOneLine(typing: Typing, res: Entries, key: string)
    requires PrintableEntries(res) && ListOf(typing, res, key).Some?
    ensures OneLineList(ListOf(typing, res, key).value)
  {
    hide Lookup, StringOf;
    if Lookup(res, key).Some? {
      LookupPrintable(res, key);
    }
    if LookupMap(res, key).Some? {
      StringOneLine(typing, LookupMap(res, key).value, "cpu");
      StringOneLine(typing, LookupMap(res, key).value, "memory");
    }
  }

  // ---------------------------------------------------------------- Resources come back

  /** A field the extraction keeps: a string, and not the empty one. */
  predicate KeptField(typing: Typing, node: Node) {
    StringOf(typing, node).Some? && StringOf(typing, node).value != ""
  }

  predicate KeptList(typing: Typing, node: Node) {
    match node
    case Scalar(text) => Unquote(text) == "{}"
    case Sequence(_) => false
    case Mapping(entries) =>
      match entries
      case Entry("cpu", cpu, NoEntries) => KeptField(typing, cpu)
      case Entry("memory", memory, NoEntries) => KeptField(typing, memory)
      case Entry("cpu", cpu, Entry("memory", memory, NoEntries)) => KeptField(typing, cpu) && KeptField(typing, memory)
      case _ => false
  }

  /** The resources hold limits and requests, each empty or with nothing but CPU and memory strings. */
  predicate KeptResources(typing: Typing, res: Entries) {
    match res
    case Entry("limits", limits, Entry("requests", requests, NoEntries)) =>
      KeptList(typing, limits) && KeptList(typing, requests)
    case _ => false
  }

  lemma UnquoteEmptyMap()
    ensures Unquote("{}") == "{}"
  {
  }

  lemma OptionalFieldNormal(typing: Typing, key: string, v: string, rest: Entries)
    ensures Normal(OptionalField(typing, key, v, rest)) == if v == "" then Normal(rest) else Entry(key, Scalar(v), Normal(rest))
  {
    PrintStringReadsBack(typing, v);
  }

  /** What a list of the values file looks like, unquoted. */
  lemma ListNodeNormal(typing: Typing, list: ResourceList)
    ensures NormalNode(ListNode(typing, list)) ==
              if list.cpu == "" && list.memory == "" then Scalar("{}")
              else if list.cpu == "" then Mapping(Entry("memory", Scalar(list.memory), NoEntries))
              else if list.memory == "" then Mapping(Entry("cpu", Scalar(list.cpu), NoEntries))
              else Mapping(Entry("cpu", Scalar(list.cpu), Entry("memory", Scalar(list.memory), NoEntries)))
  {
    hide PrintString, Unquote;
    UnquoteEmptyMap();
    OptionalFieldNormal(typing, "memory", list.memory, NoEntries);
    OptionalFieldNormal(typing, "cpu", list.cpu, OptionalField(typing, "memory", list.memory, NoEntries));
  }

  /** The list extracted from a value. */
  function ListOfNode(typing: Typing, node: Node): Option<ResourceList> {
    ListOf(typing, Entry("list", node, NoEntries), "list")
  }

  lemma {:induction false} LookupTwo(a: string, x: Node, b: string, y: Node, rest: Entries)
    ensures Lookup(Entry(a, x, Entry(b, y, rest)), "cpu")
            == if a == "cpu" then Some(x) else if b == "cpu" then Some(y) else Lookup(rest, "cpu")
    ensures Lookup(Entry(a, x, Entry(b, y, rest)), "memory")
            == if a == "memory" then Some(x) else if b == "memory" then Some(y) else Lookup(rest, "memory")
  {
  }

  lemma ListComesBack(typing: Typing, node: Node)
    requires Printable(node) && ListOfNode(typing, node).Some?
    ensures NormalNode(ListNode(typing, ListOfNode(typing, node).value)) == NormalNode(node) <==> KeptList(typing, node)
  {
    hide ListNode, Unquote, IsText;
    UnquoteEmptyMap();
    var list := ListOfNode(typing, node).value;
    ListNodeNormal(typing, list);
    assert LookupMap(Entry("list", node, NoEntries), "list") == MapOf(node);
    match node
    case Scalar(text) =>
    case Sequence(_) =>
    case Mapping(entries) =>
      assert entries.Entry? && PrintableEntries(entries.rest);
      if entries.rest.Entry? {
        LookupTwo(entries.key, entries.value, entries.rest.key, entries.rest.value, entries.rest.rest);
        TwoFieldsComeBack(typing, entries, list);
      } else {
        assert entries == Entry(entries.key, entries.value, NoEntries);
        OneFieldComesBack(typing, entries.key, entries.value, list);
      }
  }

  lemma OneFieldComesBack(typing: Typing, key: string, x: Node, list: ResourceList)
    requires ListOfNode(typing, Mapping(Entry(key, x, NoEntries))) == Some(list)
    ensures var node := Mapping(Entry(key, x, NoEntries));
            NormalNode(ListNode(typing, list)) == NormalNode(node) <==> KeptList(typing, node)
  {
    hide Unquote, IsText, ListNode;
    var entries := Entry(key, x, NoEntries);
    ListNodeNormal(typing, list);
    assert LookupMap(Entry("list", Mapping(entries), NoEntries), "list") == Some(entries);
    assert Lookup(entries, "cpu") == if key == "cpu" then Some(x) else None;
    assert Lookup(entries, "memory") == if key == "memory" then Some(x) else None;
    assert Normal(entries) == Entry(key, NormalNode(x), NoEntries);
    assert KeptList(typing, Mapping(entries)) <==> (key == "cpu" || key == "memory") && KeptField(typing, x);
    assert "cpu" != "memory" by { assert "cpu"[0] != "memory"[0]; }
  }

  lemma TwoFieldsComeBack(typing: Typing, entries: Entries, list: ResourceList)
    requires entries.Entry? && entries.rest.Entry? && PrintableEntries(entries)
    requires ListOfNode(typing, Mapping(entries)) == Some(list)
    ensures NormalNode(ListNode(typing, list)) == Mapping(Normal(entries)) <==> KeptList(typing, Mapping(entries))
  {
    hide Unquote, IsText;
    var (a, x, b, y, rest) := (entries.key, entries.value, entries.rest.key, entries.rest.value, entries.rest.rest);
    LookupTwo(a, x, b, y, rest);
    ListNodeNormal(typing, list);
    assert LookupMap(Entry("list", Mapping(entries), NoEntries), "list") == Some(entries);
    assert Normal(entries) == Entry(a, NormalNode(x), Normal(entries.rest));
    assert Normal(entries.rest) == Entry(b, NormalNode(y), Normal(rest));
    assert KeptList(typing, Mapping(entries))
        <==> a == "cpu" && b == "memory" && rest == NoEntries && KeptField(typing, x) && KeptField(typing, y);
    assert Normal(rest) == NoEntries <==> rest == NoEntries;
  }

  lemma TwoListsPrintable(a: string, x: Node, b: string, y: Node)
    requires PrintableEntries(Entry(a, x, Entry(b, y, NoEntries)))
    ensures Printable(x) && Printable(y)
  {
    assert PrintableEntries(Entry(b, y, NoEntries));
  }

  lemma SpecOfTwo(typing: Typing, limits: Node, requests: Node)
    ensures var res := Entry("limits", limits, Entry("requests", requests, NoEntries));
            && ListOf(typing, res, "limits") == ListOfNode(typing, limits)
            && ListOf(typing, res, "requests") == ListOfNode(typing, requests)
  {
    hide StringOf, MapOf;
    var res := Entry("limits", limits, Entry("requests", requests, NoEntries));
    assert Lookup(res, "limits") == Some(limits);
    assert Lookup(res, "requests") == Lookup(Entry("requests", requests, NoEntries), "requests") == Some(requests);
    assert Lookup(Entry("list", limits, NoEntries), "list") == Some(limits);
    assert Lookup(Entry("list", requests, NoEntries), "list") == Some(requests);
  }

  lemma {:induction false} NormalTwo(a: string, x: Node, b: string, y: Node, res: Entries)
    ensures Normal(Entry(a, x, Entry(b, y, NoEntries))) == Normal(res)
            <==> res.Entry? && res.rest.Entry? && res.rest.rest.NoEntries?
                 && res.key == a && res.rest.key == b
                 && NormalNode(x) == NormalNode(res.value) && NormalNode(y) == NormalNode(res.rest.value)
  {
    hide Unquote;
    assert Normal(Entry(b, y, NoEntries)) == Entry(b, NormalNode(y), NoEntries);
    assert Normal(NoEntries) == NoEntries;
    if res.Entry? && res.rest.Entry? {
      assert Normal(res.rest) == Entry(res.rest.key, NormalNode(res.rest.value), Normal(res.rest.rest));
    }
  }

  /** The resources come back exactly when they have the shape the extraction keeps. */
  lemma ResourcesComeBack(typing: Typing, res: Entries)
    requires PrintableEntries(res) && SpecOf(typing, res).Some?
    ensures Normal(ResourcesTree(typing, SpecOf(typing, res).value)) == Normal(res) <==> KeptResources(typing, res)
  {
    hide ListNode, KeptList, Normal, ListOf, PrintableEntries, NormalNode;
    var spec := SpecOf(typing, res).value;
    NormalTwo("limits", ListNode(typing, spec.limits), "requests", ListNode(typing, spec.requests), res);
    match res
    case Entry("limits", limits, Entry("requests", requests, NoEntries)) =>
      TwoListsPrintable("limits", limits, "requests", requests);
      SpecOfTwo(typing, limits, requests);
      ListComesBack(typing, limits);
      ListComesBack(typing, requests);
    case _ =>
  }

  // ---------------------------------------------------------------- Installing with the extracted values

  /** The chart installed with its values file as it was written; `replicas` is given. */
  function InstalledWith(typing: Typing, values: ChartDefaults, replicas: string, release: Release): Env {
    Env(release, Values(values.repository, values.tag, "", replicas, ResourcesTree(typing, values.resources),
                        "", NoEntries, "", ""))
  }

  /** The service account takes the name of the release exactly when that needs no shortening. */
  lemma AccountIsRelease(env: Env)
    requires env.values.accountName == "" && env.values.fullnameOverride == ""
    ensures AccountName(env) == env.release.name
            <==> |env.release.name| <= 63 && (env.release.name == "" || env.release.name[|env.release.name| - 1] != '-')
  {
  }

  lemma {:induction false} PathPrintable(entries: Entries, path: seq<string>)
    requires PrintableEntries(entries) && LookupPath(entries, path).Some?
    ensures PrintableEntries(LookupPath(entries, path).value)
    decreases path
  {
    if path != [] {
      LookupPrintable(entries, path[0]);
      PathPrintable(LookupMap(entries, path[0]).value, path[1..]);
    }
  }

  lemma ContainerPrintable(entries: Entries)
    requires PrintableEntries(entries) && FirstContainer(entries).Some?
    ensures PrintableEntries(FirstContainer(entries).value)
  {
    hide LookupPath, Lookup;
    PathPrintable(entries, ["spec", "template", "spec"]);
    var pod := LookupPath(entries, ["spec", "template", "spec"]).value;
    LookupPrintable(pod, "containers");
    var items := Lookup(pod, "containers").value.items;
    assert PrintableItems(items) && Printable(items.value);
  }

  lemma MapPrintable(entries: Entries, key: string)
    requires PrintableEntries(entries) && LookupMap(entries, key).Some?
    ensures PrintableEntries(LookupMap(entries, key).value)
  {
    hide Lookup;
    LookupPrintable(entries, key);
  }

  lemma SpecOneLine(typing: Typing, res: Entries)
    requires PrintableEntries(res) && SpecOf(typing, res).Some?
    ensures var spec := SpecOf(typing, res).value; OneLineList(spec.limits) && OneLineList(spec.requests)
  {
    hide ListOf;
    ListOneLine(typing, res, "limits");
    ListOneLine(typing, res, "requests");
  }

  lemma DefaultsOneLine()
    ensures OneLineList(DEFAULTS.resources.limits) && OneLineList(DEFAULTS.resources.requests)
  {
    assert '\n' !in "500m" && '\n' !in "128Mi" && '\n' !in "10m" && '\n' !in "64Mi";
  }

  lemma ExtractedOneLine(typing: Typing, deployment: Entries)
    requires PrintableEntries(deployment) && DefaultsOf(typing, deployment).Some?
    ensures var spec := DefaultsOf(typing, deployment).value.resources; OneLineList(spec.limits) && OneLineList(spec.requests)
  {
    hide SpecOf, LookupMap, FirstContainer, SplitTag, LookupString, OneLineList, DEFAULTS;
    DefaultsOneLine();
    match FirstContainer(deployment)
    case None =>
    case Some(container) =>
      ContainerPrintable(deployment);
      match LookupMap(container, "resources")
      case None =>
      case Some(res) =>
        MapPrintable(container, "resources");
        SpecOneLine(typing, res);
  }

  /**
   The compiler's promise, for every Deployment: the chart installed with the values taken
   from it gives the Deployment back exactly when it carries, in every place the passes
   write, the namespace and the account name of the release, the given replicas, its first
   container's image under the pull policy `Always` and its first container's resources.
   */
  lemma ExtractedValuesRoundTrip(typing: Typing, deployment: Entries, replicas: string, release: Release)
    requires Compilable(deployment) && DefaultsOf(typing, deployment).Some?
    ensures var values := DefaultsOf(typing, deployment).value;
            var env := InstalledWith(typing, values, replicas, release);
            var installed := DeploymentInstance(env, deployment);
            && Render(env, DeploymentText(Marshal(deployment))) == Some(PrintText(installed))
            && (Normal(installed) == Normal(deployment) <==>
                Conforms(Expected(release.namespace, values.repository + ":" + values.tag, replicas, AccountName(env),
                                  Normal(ResourcesTree(typing, values.resources))),
                         deployment, false))
  {
    hide Render, DeploymentText, Marshal, PrintText, Conforms, Normal, DeploymentInstance, DefaultsOf, ResourcesTree;
    hide AccountName, Compilable, OneLineList;
    var values := DefaultsOf(typing, deployment).value;
    var env := InstalledWith(typing, values, replicas, release);
    CompilablePrintable(deployment);
    ExtractedOneLine(typing, deployment);
    ResourcesTreePrintable(typing, values.resources);
    DeploymentComesBack(env, deployment);
    assert ImageRef(env) == values.repository + ":" + values.tag;
  }

  lemma CompilablePrintable(entries: Entries)
    requires Compilable(entries)
    ensures PrintableEntries(entries)
  {
    hide Fits;
  }

  /** The values extracted from a Deployment whose first container has a tagged image and kept resources. */
  lemma {:induction false} ExtractedFromContainer(typing: Typing, deployment: Entries, container: Entries, image: string, res: Entries)
    requires FirstContainer(deployment) == Some(container) && PrintableEntries(res)
    requires LookupString(typing, container, "image") == Some(image) && Tagged(image)
    requires LookupMap(container, "resources") == Some(res) && KeptResources(typing, res)
    ensures DefaultsOf(typing, deployment).Some?
    ensures var values := DefaultsOf(typing, deployment).value;
            && values.repository + ":" + values.tag == image
            && Normal(ResourcesTree(typing, values.resources)) == Normal(res)
  {
    hide FirstContainer, LookupString, LookupMap, SplitTag, Normal, ResourcesTree, SpecOf, KeptResources;
    KeptIsExtracted(typing, res);
    ResourcesComeBack(typing, res);
    ReferenceComesBack(image);
  }

  lemma KeptListIsExtracted(typing: Typing, node: Node)
    requires KeptList(typing, node)
    ensures ListOfNode(typing, node).Some?
  {
    hide StringOf;
    assert LookupMap(Entry("list", node, NoEntries), "list") == MapOf(node);
    if node.Mapping? {
      var entries := node.entries;
      if entries.rest.Entry? {
        LookupTwo(entries.key, entries.value, entries.rest.key, entries.rest.value, entries.rest.rest);
      } else {
        assert Lookup(entries, "cpu") == if entries.key == "cpu" then Some(entries.value) else None;
        assert "cpu"[0] != "memory"[0];
      }
    }
  }

  lemma KeptIsExtracted(typing: Typing, res: Entries)
    requires KeptResources(typing, res)
    ensures SpecOf(typing, res).Some?
  {
    hide KeptList, ListOf;
    match res
    case Entry("limits", limits, Entry("requests", requests, NoEntries)) =>
      KeptListIsExtracted(typing, limits);
      KeptListIsExtracted(typing, requests);
      SpecOfTwo(typing, limits, requests);
    case _ =>
  }

  /**
   A Deployment that names one namespace, one tagged image, one service account and one
   resources mapping throughout comes back from its chart, installed under the name of that
   account in that namespace.
   */
  lemma {:induction false} UniformDeploymentComesBack(
      typing: Typing, deployment: Entries, replicas: string, release: Release, container: Entries, image: string, res: Entries)
    requires Compilable(deployment) && PrintableEntries(res)
    requires FirstContainer(deployment) == Some(container)
    requires LookupString(typing, container, "image") == Some(image) && Tagged(image)
    requires LookupMap(container, "resources") == Some(res) && KeptResources(typing, res)
    requires |release.name| <= 63 && (release.name == "" || release.name[|release.name| - 1] != '-')
    requires Conforms(Expected(release.namespace, image, replicas, release.name, Normal(res)), deployment, false)
    ensures DefaultsOf(typing, deployment).Some?
    ensures var env := InstalledWith(typing, DefaultsOf(typing, deployment).value, replicas, release);
            exists installed: Entries ::
              && Render(env, DeploymentText(Marshal(deployment))) == Some(PrintText(installed))
              && Normal(installed) == Normal(deployment)
  {
    hide Render, DeploymentText, Marshal, PrintText, Conforms, Normal, DeploymentInstance, DefaultsOf, ResourcesTree;
    hide Compilable, AccountName, Lookup, FirstContainer, LookupString, KeptResources;
    ExtractedFromContainer(typing, deployment, container, image, res);
    var env := InstalledWith(typing, DefaultsOf(typing, deployment).value, replicas, release);
    AccountIsRelease(env);
    ExtractedValuesRoundTrip(typing, deployment, replicas, release);
    assert Normal(DeploymentInstance(env, deployment)) == Normal(deployment);
  }

  // ---------------------------------------------------------------- Containers that start with their image

  /** The image a container runs. */
  function ContainerImage(container: Node): Option<string> {
    if !container.Mapping? then None
    else
      match Lookup(container.entries, "image")
      case Some(Scalar(text)) => Some(Unquote(text))
      case _ => None
  }

  /** The container starts with its image, which then shares its row with the dash. */
  predicate ImageFirst(container: Node) {
    container.Mapping? && container.entries.Entry? && container.entries.key == "image"
  }

  lemma {:induction false} ImageOfInstance(env: Env, entries: Entries, text: string, indent: nat, dashed: bool)
    requires PrintableEntries(entries) && Lookup(entries, "image") == Some(Scalar(text))
    ensures Lookup(Instance(env, entries, indent, dashed), "image")
            == Some(Scalar(if dashed && entries.key == "image" then text else Quoted(ImageRef(env))))
  {
    hide AccountName, ImageRef, PullSecretRows, Quoted, Clean, GoodKey, InstanceEditor;
    match entries
    case Entry(k, value, rest) =>
      if value.Scalar? && !dashed {
        InstanceOfScalar(env, k, value.text, rest, indent);
      }
      if k != "image" {
        ImageOfInstance(env, rest, text, indent, false);
      }
  }

  /** What becomes of a container when the chart is installed. */
  function InstalledContainer(env: Env, container: Node, indent: nat): Node {
    FillItem(Evenly(InstanceEditor(env)), SetBlocks(env.values.resources), container, indent)
  }

  lemma ContainerRuns(env: Env, container: Node, indent: nat)
    requires Printable(container) && ContainerImage(container).Some?
    ensures ContainerImage(InstalledContainer(env, container, indent))
            == if ImageFirst(container) then ContainerImage(container) else Some(ImageRef(env))
  {
    hide ImageRef, Quoted, InstanceEditor, Clean, GoodKey, Unquote;
    var text := Lookup(container.entries, "image").value.text;
    ImageOfInstance(env, container.entries, text, indent, true);
    UnquoteQuoted(ImageRef(env));
    assert Instance(env, container.entries, indent, true)
        == Fill(Evenly(InstanceEditor(env)), SetBlocks(env.values.resources), container.entries, indent, true);
  }

  /** A container runs the chart's image under all values exactly when it does not start with its image. */
  lemma ContainerRunsAlways(container: Node, indent: nat)
    requires Printable(container) && ContainerImage(container).Some?
    ensures !ImageFirst(container)
            <==> forall env: Env :: ContainerImage(InstalledContainer(env, container, indent)) == Some(ImageRef(env))
  {
    hide ImageRef, ContainerImage, ImageFirst, InstalledContainer;
    forall env: Env
      ensures ContainerImage(InstalledContainer(env, container, indent))
              == if ImageFirst(container) then ContainerImage(container) else Some(ImageRef(env))
    {
      ContainerRuns(env, container, indent);
    }
    var env := OtherImage(ContainerImage(container).value);
    assert ContainerImage(InstalledContainer(env, container, indent)) == Some(ImageRef(env)) ==> !ImageFirst(container);
  }

  /** An installation whose image is not `image`. */
  lemma {:induction false} OtherImage(image: string) returns (env: Env)
    ensures ImageRef(env) != image
  {
    env := Env(Release("r", "n"), Values("", "", image + "x", "", NoEntries, "", NoEntries, "", ""));
    assert |ImageRef(env)| == |image| + 1;
  }

  /** An ordinary container: image, pull policy and name. */
  function ImageFirstContainer(): Entries {
    Entry("image", Scalar("r:1"), Entry("imagePullPolicy", Scalar("Always"), Entry("name", Scalar("m"), NoEntries)))
  }

  function Nest(key: string, entries: Entries): Entries {
    Entry(key, Mapping(entries), NoEntries)
  }

  function ImageFirstDeployment(): Entries {
    Nest("spec", Nest("template", Nest("spec",
      Entry("containers", Sequence(Item(Mapping(ImageFirstContainer()), NoItems)), NoEntries))))
  }

  ghost predicate Compiles(entries: Entries) {
    && PrintableEntries(entries) && Plain(entries) && Fits(TemplateEditor(), entries, false) && Lists(entries, false) == 0
  }

  lemma NestCompiles(key: string, entries: Entries)
    requires Compiles(entries) && entries != NoEntries
    requires GoodKey(key) && '{' !in key && key !in DEPLOYMENT_FIELDS && key != "resources"
    ensures Compiles(Nest(key, entries))
  {
    hide TemplateEditor, GoodKey, DEPLOYMENT_FIELDS;
    TemplateKeepsHeader(key);
    var outer := Nest(key, entries);
    assert Printable(Mapping(entries)) && PlainNode(Mapping(entries));
    assert PrintableEntries(NoEntries) && Plain(NoEntries) && Fits(TemplateEditor(), NoEntries, false);
    assert Lists(NoEntries, false) == 0;
    assert PrintableEntries(outer) && Plain(outer);
    assert Fits(TemplateEditor(), outer, false);
    assert Lists(outer, false) == Lists(entries, false);
  }

  lemma ContainerCompiles()
    ensures var items := Item(Mapping(ImageFirstContainer()), NoItems);
            && PrintableItems(items) && PlainItems(items)
            && FitsItems(TemplateEditor(), items) && ListsInItems(items) == 0
  {
    hide TemplateEditor, GoodKey, Clean, Contains;
    ContainerTexts();
    var name := Entry("name", Scalar("m"), NoEntries);
    var policy := Entry("imagePullPolicy", Scalar("Always"), name);
    NoBraceNoAction("m");
    NoBraceNoAction("Always");
    NoBraceNoAction("r:1");
    assert PrintableEntries(name) && Plain(name) && Fits(TemplateEditor(), name, false) && Lists(name, false) == 0;
    assert PrintableEntries(policy) && Plain(policy) && Fits(TemplateEditor(), policy, false) && Lists(policy, false) == 0;
    var container := ImageFirstContainer();
    assert PrintableEntries(container) && Plain(container) && Fits(TemplateEditor(), container, true);
    assert Lists(container, true) == 0;
  }

  lemma ContainerTexts()
    ensures GoodKey("name") && GoodKey("imagePullPolicy") && GoodKey("image")
    ensures '{' !in "name" && '{' !in "imagePullPolicy" && '{' !in "image"
    ensures Clean("m") && Clean("Always") && Clean("r:1") && '{' !in "m" && '{' !in "Always" && '{' !in "r:1"
  {
  }

  lemma PodKeys()
    ensures GoodKey("spec") && GoodKey("template") && GoodKey("containers")
    ensures '{' !in "spec" && '{' !in "template" && '{' !in "containers"
    ensures "spec" !in DEPLOYMENT_FIELDS && "template" !in DEPLOYMENT_FIELDS && "containers" !in DEPLOYMENT_FIELDS
    ensures "spec" != "resources" && "template" != "resources" && "containers" != "resources"
  {
    assert "spec"[0] == 's' && "template"[0] == 't' && "containers"[0] == 'c';
    assert "namespace"[0] == 'n' && "image"[0] == 'i' && "imagePullPolicy"[0] == 'i' && "replicas"[0] == 'r';
    assert |"serviceAccountName"| == 18 && "resources"[0] == 'r';
  }

  lemma ImageFirstCompiles()
    ensures Compilable(ImageFirstDeployment())
  {
    hide TemplateEditor, GoodKey, DEPLOYMENT_FIELDS, ImageFirstContainer;
    ContainerCompiles();
    PodKeys();
    TemplateKeepsHeader("containers");
    var items := Item(Mapping(ImageFirstContainer()), NoItems);
    var pod := Entry("containers", Sequence(items), NoEntries);
    assert Printable(Sequence(items)) && PlainNode(Sequence(items));
    assert Compiles(pod);
    NestCompiles("spec", pod);
    NestCompiles("template", Nest("spec", pod));
    NestCompiles("spec", Nest("template", Nest("spec", pod)));
    assert "spec" != "imagePullPolicy" by { assert "spec"[0] != "imagePullPolicy"[0]; }
  }

  /** A Deployment with such a container never comes back: its pull policy is lost. */
  lemma ImageFirstIsLost(env: Env)
    ensures Compilable(ImageFirstDeployment())
    ensures FirstContainer(ImageFirstDeployment()) == Some(ImageFirstContainer())
    ensures Normal(DeploymentInstance(env, ImageFirstDeployment())) != Normal(ImageFirstDeployment())
  {
    hide TemplateEditor, InstanceEditor, Normal, Compilable, ImageRef, AccountName;
    ImageFirstCompiles();
    CompilableFits(ImageFirstDeployment());
    InstanceConforms(env, ImageFirstDeployment(), 0, false);
    var x := ExpectedOf(env);
    var container := ImageFirstContainer();
    var pod := Entry("containers", Sequence(Item(Mapping(container), NoItems)), NoEntries);
    PodKeys();
    assert !Conforms(x, container.rest, false);
    assert !Conforms(x, container, true);
    assert !ConformsItem(x, Mapping(container)) && !ConformItems(x, Item(Mapping(container), NoItems));
    assert !Conforms(x, pod, false);
    assert !Conforms(x, Nest("spec", pod), false);
    assert !Conforms(x, Nest("template", Nest("spec", pod)), false);
    ImageFirstPath(pod);
  }

  lemma ImageFirstPath(pod: Entries)
    requires pod.Entry?
    ensures LookupPath(Nest("spec", Nest("template", Nest("spec", pod))), ["spec", "template", "spec"]) == Some(pod)
  {
    assert ["spec", "template", "spec"][1..] == ["template", "spec"];
    assert ["template", "spec"][1..] == ["spec"] && ["spec"][1..] == [];
    assert LookupPath(pod, []) == Some(pod);
    assert LookupPath(Nest("spec", pod), ["spec"]) == Some(pod);
    assert LookupPath(Nest("template", Nest("spec", pod)), ["template", "spec"]) == Some(pod);
  }

  lemma CompilableFits(entries: Entries)
    requires Compilable(entries)
    ensures PrintableEntries(entries) && Fits(TemplateEditor(), entries, false)
  {
    hide TemplateEditor;
  }
}
