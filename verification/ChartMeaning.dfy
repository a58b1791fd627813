/**
 What the chart holds for a resource of each kind: the kinds are written out, and the text
 that is dispatched for them is said to render, or to be substituted back, as the kind needs.
 */
module ChartMeaning {
  import opened Wrappers
  import opened GoStrings
  import opened LinePasses
  import opened PassLaws
  import opened Yaml
  import opened TreeEdits
  import opened HelmTemplate
  import opened ChartRendering
  import opened DeploymentChart
  import opened SectionTrees
  import opened BindingChart
  import opened AccountChart
  import opened ChartFiles
  import opened ChartDocuments
  import opened NamespaceRoundTrip
  import ChartValues

  // ---------------------------------------------------------------- The kinds

  lemma DeploymentKind(typing: ChartValues.Typing, obj: Entries)
    ensures TemplateText(typing, GVK("apps", "v1", "Deployment"), obj) == DeploymentText(Marshal(obj))
  {
    hide DeploymentText, Marshal;
  }

  lemma AccountKind(typing: ChartValues.Typing, obj: Entries)
    ensures TemplateText(typing, GVK("", "v1", "ServiceAccount"), obj)
            == AccountText(MetadataString(typing, obj, "name"), Marshal(obj))
  {
    hide AccountText, Marshal, MetadataString;
  }

  lemma BindingKinds(typing: ChartValues.Typing, kind: string, obj: Entries)
    requires kind == "RoleBinding" || kind == "ClusterRoleBinding"
    ensures TemplateText(typing, GVK("rbac.authorization.k8s.io", "v1", kind), obj) == BindingText(Marshal(obj))
  {
    hide BindingText, Marshal;
  }

  lemma WebhookKinds(typing: ChartValues.Typing, kind: string, obj: Entries)
    requires kind == "MutatingWebhookConfiguration" || kind == "ValidatingWebhookConfiguration"
    ensures TemplateText(typing, GVK("admissionregistration.k8s.io", "v1", kind), obj) == WebhookText(Marshal(obj))
  {
    hide WebhookText, Marshal;
  }

  lemma CertificateKind(typing: ChartValues.Typing, obj: Entries)
    ensures TemplateText(typing, GVK("cert-manager.io", "v1", "Certificate"), obj) == CertificateText(Marshal(obj))
  {
    hide CertificateText, Marshal;
  }

  lemma ConfigMapKind(typing: ChartValues.Typing, obj: Entries)
    ensures TemplateText(typing, GVK("", "v1", "ConfigMap"), obj) == ConfigMapText(Marshal(obj))
  {
    hide ConfigMapText, Marshal;
  }

  /** A kind with passes of its own. */
  predicate Special(gvk: GVK) {
    || gvk == GVK("apps", "v1", "Deployment")
    || gvk == GVK("", "v1", "ServiceAccount")
    || gvk == GVK("", "v1", "ConfigMap")
    || (gvk.group == "rbac.authorization.k8s.io" && gvk.version == "v1" && (gvk.kind == "RoleBinding" || gvk.kind == "ClusterRoleBinding"))
    || (gvk.group == "admissionregistration.k8s.io" && gvk.version == "v1"
        && (gvk.kind == "MutatingWebhookConfiguration" || gvk.kind == "ValidatingWebhookConfiguration"))
    || gvk == GVK("cert-manager.io", "v1", "Certificate")
  }

  /** The metadata name a namespace. */
  ghost predicate Namespaced(typing: ChartValues.Typing, obj: Entries) {
    exists metadata, namespace :: InNamespace(typing, obj, metadata, namespace)
  }

  ghost predicate InNamespace(typing: ChartValues.Typing, obj: Entries, metadata: Entries, namespace: string) {
    && ChartValues.LookupMap(obj, "metadata") == Some(metadata)
    && ChartValues.LookupString(typing, metadata, "namespace") == Some(namespace) && namespace != ""
  }

  lemma NamespaceFound(typing: ChartValues.Typing, obj: Entries)
    ensures MetadataString(typing, obj, "namespace") != "" <==> Namespaced(typing, obj)
  {
    hide ChartValues.LookupMap, ChartValues.LookupString;
    if MetadataString(typing, obj, "namespace") != "" {
      var metadata := ChartValues.LookupMap(obj, "metadata").value;
      assert InNamespace(typing, obj, metadata, ChartValues.LookupString(typing, metadata, "namespace").value);
    }
  }

  lemma OtherKinds(typing: ChartValues.Typing, gvk: GVK, obj: Entries)
    requires !Special(gvk)
    ensures TemplateText(typing, gvk, obj)
            == if MetadataString(typing, obj, "namespace") != "" then PassText(SetNamespace(), Marshal(obj)) else Marshal(obj)
  {
    hide PassText, Marshal, MetadataString;
  }

  // ---------------------------------------------------------------- Rendered kinds

  /** A Deployment of the chart installs as the resource with its fields and resources replaced. */
  lemma DeploymentInstalls(env: Env, typing: ChartValues.Typing, obj: Entries)
    requires Compilable(obj) && PrintableEntries(env.values.resources) && env.values.resources != NoEntries
    ensures Render(env, TemplateText(typing, GVK("apps", "v1", "Deployment"), obj)) == Some(PrintText(DeploymentInstance(env, obj)))
  {
    hide Render, TemplateText, DeploymentText, Marshal, PrintText, DeploymentInstance, Compilable, PrintableEntries;
    DeploymentKind(typing, obj);
    DeploymentMeaning(env, obj);
  }

  /** A service account installs under its own name. */
  lemma AccountInstalls(env: Env, typing: ChartValues.Typing, obj: Entries)
    requires AccountCompilable(MetadataString(typing, obj, "name"), obj) && PrintableEntries(env.values.annotations)
    ensures Render(env, TemplateText(typing, GVK("", "v1", "ServiceAccount"), obj))
            == Some(PrintText(AccountInstance(env, MetadataString(typing, obj, "name"), obj)))
  {
    hide Render, TemplateText, AccountText, Marshal, PrintText, AccountInstance, AccountCompilable, PrintableEntries, MetadataString;
    AccountKind(typing, obj);
    AccountMeaning(env, MetadataString(typing, obj, "name"), obj);
  }

  /** Both kinds of bindings install with their subjects and namespaces set. */
  lemma BindingInstalls(env: Env, typing: ChartValues.Typing, kind: string, obj: Entries)
    requires BindingCompilable(obj) && (kind == "RoleBinding" || kind == "ClusterRoleBinding")
    ensures Render(env, TemplateText(typing, GVK("rbac.authorization.k8s.io", "v1", kind), obj))
            == Some(PrintText(BindingInstance(env, obj)))
  {
    hide Render, TemplateText, BindingText, Marshal, PrintText, BindingInstance, BindingCompilable;
    BindingKinds(typing, kind, obj);
    BindingMeaning(env, obj);
  }

  // ---------------------------------------------------------------- All other kinds

  /** Leaves every entry as it is. */
  function Unchanged(): Editor {
    Editor((key, text) => [Field(key, text)], key => true)
  }

  lemma {:induction false} NothingEdited(entries: Entries, dashed: bool)
    requires PrintableEntries(entries)
    ensures EditEntries(Unchanged(), entries, dashed) == entries
    decreases entries
  {
    hide GoodKey, Clean;
    match entries
    case NoEntries =>
    case Entry(key, value, rest) =>
      NothingEdited(rest, false);
      match value
      case Scalar(text) =>
        UnchangedSetsTexts();
        assert SetsText(Unchanged(), key, text);
        SetTextEntry(Unchanged(), key, text, EditEntries(Unchanged(), rest, false));
      case Mapping(inner) => NothingEdited(inner, false);
      case Sequence(items) => NothingEditedIn(items);
  }

  lemma {:induction false} NothingEditedIn(items: Items)
    requires PrintableItems(items)
    ensures EditItems(Unchanged(), items) == items
    decreases items
  {
    hide GoodKey, Clean;
    match items
    case NoItems =>
    case Item(value, rest) =>
      NothingEditedIn(rest);
      match value
      case Scalar(_) =>
      case Mapping(entries) => NothingEdited(entries, true);
      case Sequence(inner) => NothingEditedIn(inner);
  }

  lemma UnchangedRenders(env: Env)
    ensures FieldsRender(env, Unchanged(), Unchanged())
  {
    hide Renders, Contains, GoodKey, Clean;
    forall key, text, indent
      ensures FieldRenders(env, Evenly(Unchanged()), Evenly(Unchanged()), key, text, indent)
    {
      if GoodKey(key) && '{' !in key && Clean(text) && !Contains(text, "{{") {
        RendersSame(env, key, text, indent);
      }
    }
  }

  lemma OneGoodField(e: Editor, key: string, text: string, text': string)
    requires e.field(key, text) == [Field(key, text')] && (GoodKey(key) && '{' !in key && Clean(text) ==> Clean(text'))
    ensures EmitsGoodAt(e, key, text)
  {
    hide GoodKey, Clean, Contains;
  }

  lemma BothEmitGood()
    ensures EmitsGood(Unchanged()) && EmitsGood(NamespaceEditor())
  {
    hide GoodKey, Contains, Action, EmitsGoodAt, NamespaceEditor, Clean;
    ActionShape(ReleaseNamespace());
    forall key, text
      ensures EmitsGoodAt(Unchanged(), key, text) && EmitsGoodAt(NamespaceEditor(), key, text)
    {
      OneGoodField(Unchanged(), key, text, text);
      NamespaceEmitsGood(key, text);
    }
  }

  lemma NamespaceEmitsGood(key: string, text: string)
    ensures EmitsGoodAt(NamespaceEditor(), key, text)
  {
    hide GoodKey, Contains, Action, Clean;
    ActionShape(ReleaseNamespace());
    OneGoodField(NamespaceEditor(), key, text,
                 if key == "namespace" && !Contains(text, "{{") then Action(ReleaseNamespace()) else text);
  }

  /** A resource rewritten by one editor installs as it is rewritten by the other. */
  lemma {:induction false} EditedInstalls(env: Env, t: Editor, i: Editor, obj: Entries)
    requires obj.Entry? && PrintableEntries(obj) && Plain(obj)
    requires FieldsRender(env, t, i) && EmitsGood(t) && SetsTexts(t) && SetsTexts(i)
    ensures Render(env, TextOf(Texts(PrintEntries(EditEntries(t, obj, false), 0)))) == Some(PrintText(EditEntries(i, obj, false)))
  {
    hide Render, TextOf, Texts, PrintText, EmitsGood, FieldRenders, BlockRenders, GoodKey, Fill, SetsTexts;
    NoBlocks(env);
    FirstFieldKept(t, obj);
    FirstFieldKept(i, obj);
    FillWithoutBlocks(t, obj, 0, false);
    FillWithoutBlocks(i, obj, 0, false);
    RenderFilled(env, Evenly(t), Evenly(i), KeepBlocks(), KeepBlocks(), obj);
  }

  lemma FirstFieldKept(e: Editor, obj: Entries)
    requires obj.Entry? && SetsTexts(e)
    ensures KeepsFirst(Evenly(e), obj)
  {
    if obj.value.Scalar? {
      assert SetsText(e, obj.key, obj.value.text);
    }
  }

  /** Every other kind installs with its namespaces set if its metadata name one, and as it is if they do not. */
  lemma OtherInstalls(env: Env, typing: ChartValues.Typing, gvk: GVK, obj: Entries)
    requires !Special(gvk) && obj.Entry? && PrintableEntries(obj) && Plain(obj)
    requires Namespaced(typing, obj) ==> Fits(NamespaceEditor(), obj, false)
    ensures Render(env, TemplateText(typing, gvk, obj))
            == Some(PrintText(if Namespaced(typing, obj) then EditEntries(InstalledNamespace(env), obj, false) else obj))
  {
    hide Render, TemplateText, Marshal, PassText, MetadataString, Namespaced, TextOf, Texts, EmitsGood, FieldRenders, Special;
    hide NamespaceEditor, InstalledNamespace, SetsTexts, Fits;
    NamespaceFound(typing, obj);
    OtherKinds(typing, gvk, obj);
    MarshalIsPrintText(obj);
    BothEmitGood();
    if Namespaced(typing, obj) {
      NamespaceOnTree(obj);
      NamespaceRenders(env);
      NamespaceSetsTexts();
      InstalledSetsTexts(env);
      EditedInstalls(env, NamespaceEditor(), InstalledNamespace(env), obj);
    } else {
      NothingEdited(obj, false);
      UnchangedRenders(env);
      UnchangedSetsTexts();
      TextOfPrint(PrintEntries(obj, 0));
      EditedInstalls(env, Unchanged(), Unchanged(), obj);
    }
  }

  lemma UnchangedSetsTexts()
    ensures SetsTexts(Unchanged())
  {
    forall key, text
      ensures SetsText(Unchanged(), key, text)
    {
    }
  }

  // ---------------------------------------------------------------- Webhooks and certificates

  /** A webhook configuration comes back under a namespace exactly when its rewritten lines carry it. */
  lemma WebhookComesBack(typing: ChartValues.Typing, kind: string, obj: Entries, n: string)
    requires kind == "MutatingWebhookConfiguration" || kind == "ValidatingWebhookConfiguration"
    requires TemplateFree(Marshal(obj)) && NamespaceName(n)
    ensures Substitute(TemplateText(typing, GVK("admissionregistration.k8s.io", "v1", kind), obj), n) == Marshal(obj)
            <==> forall line | line in LinesOf(Marshal(obj)) :: WebhookCarries(line, n)
  {
    hide TemplateText, Marshal, WebhookText, Substitute, WebhookCarries, TemplateFree, NamespaceName;
    WebhookKinds(typing, kind, obj);
    WebhookRoundTrip(Marshal(obj), n);
  }

  /** A certificate comes back under a namespace exactly when its rewritten lines carry it. */
  lemma CertificateComesBack(typing: ChartValues.Typing, obj: Entries, n: string)
    requires TemplateFree(Marshal(obj)) && NamespaceName(n)
    ensures Substitute(TemplateText(typing, GVK("cert-manager.io", "v1", "Certificate"), obj), n) == Marshal(obj)
            <==> forall k: nat | k < |LinesOf(Marshal(obj))| :: CertificateCarries(LinesOf(Marshal(obj)), k, n)
  {
    hide TemplateText, Marshal, CertificateText, Substitute, CertificateCarries, TemplateFree, NamespaceName;
    CertificateKind(typing, obj);
    CertificateRoundTrip(Marshal(obj), n);
  }

  // ---------------------------------------------------------------- ConfigMaps

  /** How many of the first lines open the data. */
  function DataLines(lines: seq<string>): nat {
    if lines == [] then 0 else (if TrimSpace(lines[0]) == "data:" then 1 else 0) + DataLines(lines[1..])
  }

  /** The namespace of the release in the place of the one a line names. */
  function NamespaceSet(line: string): string {
    if HasPrefix(TrimSpace(line), "namespace:") && !Contains(TrimSpace(line), "{{") then
      IndentOf(line) + "namespace: " + Directive()
    else line
  }

  /** What the values add to the data of a ConfigMap: the pull secret, if given, and every configuration entry. */
  function AddedToData(indent: string): seq<string> {
    [indent + "  {{- with .Values.imagePullSecret }}"] + [indent + "  imagePullSecret: {{ . }}"] + [indent + "  {{- end }}"]
    + [indent + "  {{- range $key, $val := .Values.config }}"] + [indent + "  {{ $key }}: {{ $val | quote }}"] + [indent + "  {{- end }}"]
  }

  lemma AddedIsWritten(indent: string)
    ensures ConfigValueLines(indent) == AddedToData(indent)
  {
  }

  /** What the ConfigMap pass leaves for one line. */
  function ConfigBlock(line: string): seq<string> {
    [NamespaceSet(line)] + if TrimSpace(line) == "data:" then AddedToData(IndentOf(line)) else []
  }

  lemma ConfigLine(line: string)
    requires '\n' !in line
    ensures Apply(AddConfigValues, LinesFor(SetNamespace(), line)) == ConfigBlock(line)
  {
    hide TrimSpace, IndentOf, Contains, Action, ConfigValueLines, AddedToData, Directive, SetsField;
    NamespaceRule();
    DirectiveIsWritten();
    var named := LinesFor(SetNamespace(), line);
    assert "namespace" + ":" == "namespace:";
    assert IndentOf(line) + "namespace" + ": " + Directive() == IndentOf(line) + "namespace: " + Directive();
    assert named == [NamespaceSet(line)];
    assert named[1..] == [];
    AddedIsWritten(IndentOf(line));
    if Untemplated(line, "namespace:") {
      SetLineShape(SetNamespace(), line);
      assert TrimSpace(NamespaceSet(line))[0] == 'n' && "data:"[0] == 'd';
      assert HasPrefix(TrimSpace(line), "namespace:");
    }
    assert Apply(AddConfigValues, named) == LinesFor(AddConfigValues, named[0]) + Apply(AddConfigValues, []);
  }

  function ConfigBlocks(lines: seq<string>): seq<string> {
    if lines == [] then [] else ConfigBlock(lines[0]) + ConfigBlocks(lines[1..])
  }

  lemma {:induction false} ConfigLines(lines: seq<string>)
    requires OneLineEach(lines)
    ensures Apply(AddConfigValues, Apply(SetNamespace(), lines)) == ConfigBlocks(lines)
  {
    hide LinesFor, ConfigBlock, SetNamespace;
    if lines != [] {
      assert lines[0] in lines;
      ConfigLine(lines[0]);
      ConfigLines(lines[1..]);
      ApplyAppend(AddConfigValues, LinesFor(SetNamespace(), lines[0]), Apply(SetNamespace(), lines[1..]));
    }
  }

  lemma BlockLength(line: string)
    ensures |ConfigBlock(line)| == if TrimSpace(line) == "data:" then 7 else 1
  {
    hide TrimSpace, IndentOf, Contains, Directive;
  }

  lemma {:induction false} BlockAt(lines: seq<string>, k: nat)
    requires k < |lines|
    ensures |ConfigBlocks(lines)| == |lines| + 6 * DataLines(lines)
    ensures var at := k + 6 * DataLines(lines[..k]);
            var block := ConfigBlock(lines[k]);
            at + |block| <= |ConfigBlocks(lines)| && ConfigBlocks(lines)[at..at + |block|] == block
    decreases |lines|
  {
    hide ConfigBlock, TrimSpace;
    var first, rest := ConfigBlock(lines[0]), ConfigBlocks(lines[1..]);
    BlockLength(lines[0]);
    if |lines| == 1 {
      assert lines[1..] == [] && first + [] == first && lines[..0] == [];
    } else if k == 0 {
      BlockAt(lines[1..], 0);
      assert lines[..0] == [];
      assert (first + rest)[..|first|] == first;
    } else {
      BlockAt(lines[1..], k - 1);
      assert lines[..k] == [lines[0]] + lines[1..][..k - 1];
      var at := k - 1 + 6 * DataLines(lines[1..][..k - 1]);
      var n := |ConfigBlock(lines[k])|;
      assert (first + rest)[|first| + at..|first| + at + n] == rest[at..at + n];
    }
  }

  /**
   Where a line of a ConfigMap is found in its template, and what stands behind it: the six
   lines written out above behind a `data:` line, and nothing behind any other.
   */
  lemma ConfigMapLine(typing: ChartValues.Typing, obj: Entries, k: nat)
    requires k < |LinesOf(Marshal(obj))|
    ensures var lines := LinesOf(Marshal(obj));
            var out := LinesOf(TemplateText(typing, GVK("", "v1", "ConfigMap"), obj));
            var at := k + 6 * DataLines(lines[..k]);
            var block := ConfigBlock(lines[k]);
            && |out| == |lines| + 6 * DataLines(lines)
            && at + |block| <= |out| && out[at..at + |block|] == block
  {
    hide TemplateText, Marshal, Apply, ConfigBlock, ConfigBlocks, DataLines, SetNamespace, SetsField, LinesFor;
    var raw := Marshal(obj);
    var lines := LinesOf(raw);
    ConfigMapKind(typing, obj);
    TextOfLines(raw);
    NamespaceRule();
    PassOnText(SetNamespace(), lines);
    var named := Apply(SetNamespace(), lines);
    NamespaceIsOneToOne(lines);
    LinesOfText(named);
    ConfigLines(lines);
    BlockAt(lines, k);
    BlocksOneLine(lines);
    LinesOfText(ConfigBlocks(lines));
    ConfigMapUnfolds(raw);
  }

  lemma ConfigMapUnfolds(raw: string)
    ensures ConfigMapText(raw) == TextOf(Apply(AddConfigValues, LinesOf(PassText(SetNamespace(), raw))))
  {
  }

  lemma NamespaceIsOneToOne(lines: seq<string>)
    requires lines != []
    ensures |Apply(SetNamespace(), lines)| == |lines|
  {
    SetValueAt(SetNamespace(), lines, 0);
  }

  lemma BlockOneLine(line: string)
    requires '\n' !in line
    ensures OneLineEach(ConfigBlock(line))
  {
    hide TrimSpace, IndentOf, Contains, Directive, ConfigValueLines, AddedToData;
    IndentOneLine(line);
    DirectiveShape();
    AddedIsWritten(IndentOf(line));
    ConfigLinesPlain(IndentOf(line));
  }

  lemma {:induction false} BlocksOneLine(lines: seq<string>)
    requires OneLineEach(lines)
    ensures OneLineEach(ConfigBlocks(lines))
  {
    hide ConfigBlock;
    if lines != [] {
      assert lines[0] in lines;
      BlockOneLine(lines[0]);
      BlocksOneLine(lines[1..]);
    }
  }

  // ---------------------------------------------------------------- The whole chart

  function Objects(resources: seq<Resource>): (objs: seq<Entries>)
    ensures |objs| == |resources| && forall i | 0 <= i < |resources| :: objs[i] == resources[i].obj
  {
    seq(|resources|, i requires 0 <= i < |resources| => resources[i].obj)
  }

  /** Every group has the text of its documents. */
  ghost predicate Rendered(typing: ChartValues.Typing, groups: map<GVK, seq<Resource>>, content: map<GVK, string>) {
    && content.Keys == groups.Keys
    && forall gvk | gvk in groups :: content[gvk] == Join(TemplateTexts(typing, gvk, Objects(groups[gvk])), "\n---\n")
  }

  /** The file of a kind is found in a directory, and cutting it at its separators gives these texts. */
  ghost predicate FileHolds(dir: Directory, gvk: GVK, texts: seq<string>) {
    Filename(gvk) in dir && Documents(dir[Filename(gvk)]) == texts
  }

  /** A group holds resources of the input, and is not empty when its kind occurs. */
  lemma GroupIsThere(resources: seq<Resource>, gvk: GVK)
    requires exists r :: r in resources && r.gvk == gvk
    ensures OfKind(resources, gvk) != [] && forall r | r in OfKind(resources, gvk) :: r in resources
  {
    hide OfKind;
    var at := OfKindPositions(resources, gvk);
    var r :| r in resources && r.gvk == gvk;
    var k: nat :| k < |resources| && resources[k] == r;
    assert k in at;
  }

  /**
   The chart as a whole: grouped, rendered and written in any order, the file of every kind
   but namespaces holds exactly the texts of its resources, in the order of the input.
   */
  lemma {:induction false} ChartHoldsItsResources(
      typing: ChartValues.Typing, resources: seq<Resource>, groups: map<GVK, seq<Resource>>, content: map<GVK, string>,
      order: seq<GVK>, dir: Directory, gvk: GVK)
    requires forall r | r in resources :: r.obj.Entry? && PrintableEntries(r.obj)
    requires Grouped(resources, groups) && Rendered(typing, groups, content) && NoClash(content)
    requires Enumerates(order, content.Keys)
    requires gvk != GVK("", "v1", "Namespace") && exists r :: r in resources && r.gvk == gvk
    ensures FileHolds(Written(content, order, dir), gvk, TemplateTexts(typing, gvk, Objects(OfKind(resources, gvk))))
  {
    hide TemplateText, Filename, Documents, Written, NoClash, PrintableEntries, Join, OfKind;
    GroupIsThere(resources, gvk);
    var objs := Objects(OfKind(resources, gvk));
    assert groups[gvk] == OfKind(resources, gvk);
    forall obj | obj in objs
      ensures obj.Entry? && PrintableEntries(obj)
    {
      var i: nat :| i < |objs| && objs[i] == obj;
      assert OfKind(resources, gvk)[i] in OfKind(resources, gvk);
    }
    GroupCutsIntoDocuments(typing, gvk, objs);
    WrittenMeaning(content, order, dir, Filename(gvk));
  }
}
