/**
 The documents of a template file: what each resource is turned into, and that cutting a
 file at its separators gives the documents back.
 */
module ChartDocuments {
  import opened GoStrings
  import opened LinePasses
  import opened PassLaws
  import opened Yaml
  import opened FieldRefinement
  import opened DeploymentChart
  import opened SectionTrees
  import opened BindingChart
  import opened AccountChart
  import opened ChartFiles
  import ChartValues

  // ---------------------------------------------------------------- One resource

  /** A string in the metadata, empty when there is none. */
  function MetadataString(typing: ChartValues.Typing, obj: Entries, key: string): string {
    match ChartValues.LookupMap(obj, "metadata")
    case None => ""
    case Some(metadata) => ChartValues.StringOrEmpty(ChartValues.LookupString(typing, metadata, key))
  }

  function ConfigMapText(raw: string): string {
    PassText(AddConfigValues, PassText(SetNamespace(), raw))
  }

  function CertificateText(raw: string): string {
    SectionText(DNSNames(), PassText(SetNamespace(), raw))
  }

  /** The template text of a resource, by its kind. */
  function TemplateText(typing: ChartValues.Typing, gvk: GVK, obj: Entries): string {
    var raw := Marshal(obj);
    if gvk == DEPLOYMENT then DeploymentText(raw)
    else if gvk == SERVICE_ACCOUNT then AccountText(MetadataString(typing, obj, "name"), raw)
    else if gvk == CONFIG_MAP then ConfigMapText(raw)
    else if gvk == CLUSTER_ROLE_BINDING || gvk == ROLE_BINDING then BindingText(raw)
    else if gvk == MUTATING_WEBHOOK || gvk == VALIDATING_WEBHOOK then WebhookText(raw)
    else if gvk == CERTIFICATE then CertificateText(raw)
    else if MetadataString(typing, obj, "namespace") != "" then PassText(SetNamespace(), raw)
    else raw
  }

  /** `transformResource`. */
  method TransformResource(typing: ChartValues.Typing, gvk: GVK, obj: Entries) returns (text: string)
    ensures text == TemplateText(typing, gvk, obj)
  {
    hide Marshal, PassText, SectionText, WebhookText, DeploymentText, AccountText, BindingText, MetadataString;
    if gvk == DEPLOYMENT {
      text := TransformDeployment(obj);
    } else if gvk == SERVICE_ACCOUNT {
      text := TransformServiceAccount(obj, MetadataString(typing, obj, "name"));
    } else if gvk == CONFIG_MAP {
      text := ReplaceNamespace(Marshal(obj));
      text := InjectConfigMapValues(text);
    } else if gvk == CLUSTER_ROLE_BINDING || gvk == ROLE_BINDING {
      text := TransformRoleBinding(obj);
    } else if gvk == MUTATING_WEBHOOK || gvk == VALIDATING_WEBHOOK {
      text := ReplaceWebhookNamespace(Marshal(obj));
    } else if gvk == CERTIFICATE {
      text := ReplaceNamespace(Marshal(obj));
      text := ReplaceCertificateDNSNames(text);
    } else {
      text := Marshal(obj);
      if MetadataString(typing, obj, "namespace") != "" {
        text := ReplaceNamespace(text);
      }
    }
  }

  // ---------------------------------------------------------------- Separators

  const SEPARATOR := "---"

  /** Lines that are no document separator, each on one line. */
  ghost predicate Plainly(lines: seq<string>) {
    OneLineEach(lines) && forall line | line in lines :: line != SEPARATOR
  }

  ghost predicate NoSeparator(text: string) {
    SEPARATOR !in LinesOf(text)
  }

  lemma PlainText(text: string)
    requires NoSeparator(text)
    ensures Plainly(LinesOf(text)) && TextOf(LinesOf(text)) == text && LinesOf(text) != []
  {
    TextOfLines(text);
  }

  lemma PlainlyText(lines: seq<string>)
    requires Plainly(lines)
    ensures NoSeparator(TextOf(lines))
  {
    LinesOfText(lines);
    assert "" != SEPARATOR;
  }

  lemma PlainlyAppend(a: seq<string>, b: seq<string>)
    requires Plainly(a) && Plainly(b)
    ensures Plainly(a + b)
  {
  }

  lemma PlainlyPart(lines: seq<string>, part: seq<string>)
    requires Plainly(lines) && forall line | line in part :: line in lines
    ensures Plainly(part)
  {
  }

  /** A line with anything but a dash in it separates nothing. */
  lemma NotOnlyDashes(a: string, b: string, i: nat)
    requires i < |b| && b[i] != '-' && '\n' !in a && '\n' !in b
    ensures Plainly([a + b])
  {
    var line := a + b;
    assert line[|a| + i] == b[i] && b[i] in line;
    assert forall c | c in SEPARATOR :: c == '-';
  }

  lemma FieldLinePlain(indent: string, key: string, value: string)
    requires '\n' !in indent && '\n' !in key && '\n' !in value
    ensures Plainly([indent + key + ": " + value])
  {
    var b := key + ": " + value;
    assert b[|key|] == ':';
    NotOnlyDashes(indent, b, |key|);
    assert indent + key + ": " + value == indent + b;
  }

  lemma EachPlain(lines: seq<string>)
    requires forall i | 0 <= i < |lines| :: Plainly([lines[i]])
    ensures Plainly(lines)
  {
    forall line | line in lines
      ensures '\n' !in line && line != SEPARATOR
    {
      var i :| 0 <= i < |lines| && lines[i] == line;
      assert line in [lines[i]];
    }
  }

  lemma ActionsOneLine()
    ensures '\n' !in Action(ReleaseNamespace()) && '\n' !in Action(ReplicasValue()) && '\n' !in Action(AccountExpression())
    ensures '\n' !in QuotedImageRef()
  {
    hide Contains;
    AccountNameOneLine();
    ActionShape(ReleaseNamespace());
    ActionShape(ReplicasValue());
    ActionShape(AccountExpression());
    ActionShape(ImageExpression());
  }

  lemma PullSecretLinesPlain(indent: string)
    requires '\n' !in indent
    ensures Plainly([indent + WithPullSecret(), indent + "imagePullSecrets:", indent + "  - name: " + Action("."), indent + EndDirective()])
  {
    hide Action;
    ActionShape(".");
    PullSecretRowsGood();
    NotOnlyDashes(indent, WithPullSecret(), 0);
    NotOnlyDashes(indent, "imagePullSecrets:", 0);
    NotOnlyDashes(indent, "  - name: " + Action("."), 0);
    NotOnlyDashes(indent, EndDirective(), 0);
    assert indent + "  - name: " + Action(".") == indent + ("  - name: " + Action("."));
    EachPlain([indent + WithPullSecret(), indent + "imagePullSecrets:", indent + "  - name: " + Action("."), indent + EndDirective()]);
  }

  lemma ConfigLinesPlain(indent: string)
    requires '\n' !in indent
    ensures Plainly(ConfigValueLines(indent))
  {
    NotOnlyDashes(indent, "  {{- with .Values.imagePullSecret }}", 0);
    NotOnlyDashes(indent, "  imagePullSecret: {{ . }}", 0);
    NotOnlyDashes(indent, "  {{- end }}", 0);
    ConfigRangePlain(indent);
    ConfigPairPlain(indent);
    EachPlain(ConfigValueLines(indent));
  }

  lemma ConfigRangePlain(indent: string)
    requires '\n' !in indent
    ensures Plainly([indent + "  {{- range $key, $val := .Values.config }}"])
  {
    var b := "  {{- range $key, $val := .Values.config }}";
    assert '\n' !in b;
    NotOnlyDashes(indent, b, 0);
  }

  lemma ConfigPairPlain(indent: string)
    requires '\n' !in indent
    ensures Plainly([indent + "  {{ $key }}: {{ $val | quote }}"])
  {
    var b := "  {{ $key }}: {{ $val | quote }}";
    assert '\n' !in b;
    NotOnlyDashes(indent, b, 0);
  }

  lemma RulePlain(rule: LineRule, line: string)
    requires (rule.SetValue? ==> '\n' !in rule.key && '\n' !in rule.template) && Plainly([line])
    ensures Plainly(LinesFor(rule, line))
  {
    hide TrimSpace, IndentOf, Contains, Action, QuotedImageRef, ConfigValueLines;
    assert line in [line];
    IndentOneLine(line);
    var indent := IndentOf(line);
    match rule
    case SetValue(key, template) => FieldLinePlain(indent, key, template);
    case SetImage =>
      ActionsOneLine();
      FieldLinePlain(indent, "image", QuotedImageRef());
      FieldLinePlain(indent, "imagePullPolicy", "Always");
      assert indent + "image" + ": " + QuotedImageRef() == indent + "image: " + QuotedImageRef();
      assert indent + "imagePullPolicy" + ": " + "Always" == indent + "imagePullPolicy: Always";
      EachPlain([indent + "image: " + QuotedImageRef(), indent + "imagePullPolicy: Always"]);
    case AddPullSecrets =>
      PullSecretLinesPlain(indent);
      PlainlyAppend([line], [indent + WithPullSecret(), indent + "imagePullSecrets:", indent + "  - name: " + Action("."), indent + EndDirective()]);
    case AddConfigValues =>
      ConfigLinesPlain(indent);
      PlainlyAppend([line], ConfigValueLines(indent));
  }

  lemma {:induction false} ApplyPlain(rule: LineRule, lines: seq<string>)
    requires (rule.SetValue? ==> '\n' !in rule.key && '\n' !in rule.template) && Plainly(lines)
    ensures Plainly(Apply(rule, lines))
  {
    hide LinesFor;
    if lines != [] {
      assert lines[0] in lines && Plainly([lines[0]]);
      RulePlain(rule, lines[0]);
      PlainlyPart(lines, lines[1..]);
      ApplyPlain(rule, lines[1..]);
      PlainlyAppend(LinesFor(rule, lines[0]), Apply(rule, lines[1..]));
    }
  }

  lemma RuleText(rule: LineRule, raw: string)
    requires (rule.SetValue? ==> '\n' !in rule.key && '\n' !in rule.template) && NoSeparator(raw)
    ensures NoSeparator(PassText(rule, raw))
  {
    hide Apply;
    PlainText(raw);
    ApplyPlain(rule, LinesOf(raw));
    PlainlyText(Apply(rule, LinesOf(raw)));
  }

  lemma {:induction false} ElidePlain(lines: seq<string>)
    requires Plainly(lines)
    ensures Plainly(Elide(lines))
    decreases |lines|
  {
    hide ResourcesLines, TrimSpace, IndentOf;
    if lines != [] {
      assert lines[0] in lines && Plainly([lines[0]]);
      if OpensResources(lines[0]) {
        var indent := IndentOf(lines[0]);
        var rest := SkipDeeper(lines[1..], |indent| + 2);
        SkippedIsSuffix(lines[1..], |indent| + 2);
        PlainlyPart(lines, rest);
        ElidePlain(rest);
        BlockLinesPlain(lines[0]);
        PlainlyAppend(ResourcesLines(indent), Elide(rest));
      } else {
        PlainlyPart(lines, lines[1..]);
        ElidePlain(lines[1..]);
        PlainlyAppend([lines[0]], Elide(lines[1..]));
      }
    }
  }

  lemma BlockLinesPlain(line: string)
    requires '\n' !in line
    ensures Plainly(ResourcesLines(IndentOf(line)))
  {
    hide IndentOf, ResourcesDirective;
    IndentOneLine(line);
    var indent := IndentOf(line);
    var directive := ResourcesDirective(|indent| + 2);
    DirectiveOneLine(|indent| + 2);
    NotOnlyDashes(indent, "resources:", 0);
    NotOnlyDashes(indent, "  " + directive, 0);
    assert indent + "  " + directive == indent + ("  " + directive);
    EachPlain(ResourcesLines(indent));
  }

  lemma ElideNoSeparator(raw: string)
    requires NoSeparator(raw)
    ensures NoSeparator(ElideText(raw))
  {
    hide Elide;
    PlainText(raw);
    ElidePlain(LinesOf(raw));
    PlainlyText(Elide(LinesOf(raw)));
  }

  ghost predicate RewritesPlainly(s: Section) {
    forall line :: Plainly([line]) ==> Plainly(s.rewrite(line))
  }

  lemma {:induction false} SectionPlain(s: Section, lines: seq<string>, inside: bool)
    requires RewritesPlainly(s) && Plainly(lines)
    ensures Plainly(SectionPass(s, lines, inside))
  {
    if lines != [] {
      assert lines[0] in lines && Plainly([lines[0]]);
      var now := Inside(s, lines[0], inside);
      PlainlyPart(lines, lines[1..]);
      SectionPlain(s, lines[1..], now);
      PlainlyAppend(SectionLines(s, lines[0], now), SectionPass(s, lines[1..], now));
    }
  }

  lemma SectionNoSeparator(s: Section, raw: string)
    requires RewritesPlainly(s) && NoSeparator(raw)
    ensures NoSeparator(SectionText(s, raw))
  {
    hide SectionPass, RewritesPlainly;
    PlainText(raw);
    SectionPlain(s, LinesOf(raw), false);
    PlainlyText(SectionPass(s, LinesOf(raw), false));
  }

  lemma FieldPlain(line: string, key: string, value: string)
    requires Plainly([line]) && '\n' !in key && '\n' !in value
    ensures Plainly([IndentOf(line) + key + ": " + value])
  {
    hide IndentOf;
    assert line in [line];
    IndentOneLine(line);
    FieldLinePlain(IndentOf(line), key, value);
  }

  lemma SubjectsPlain()
    ensures RewritesPlainly(SubjectsName()) && RewritesPlainly(SubjectsNamespace())
  {
    hide IndentOf, TrimSpace, Contains, Action, Plainly;
    ActionsOneLine();
    forall line | Plainly([line])
      ensures Plainly([SubjectNameLine(line)]) && Plainly([SubjectNamespaceLine(line)])
    {
      FieldPlain(line, "name", Action(AccountExpression()));
      FieldPlain(line, "namespace", Action(ReleaseNamespace()));
      assert IndentOf(line) + "name" + ": " == IndentOf(line) + "name: ";
      assert IndentOf(line) + "namespace" + ": " == IndentOf(line) + "namespace: ";
    }
  }

  lemma AccountLinesPlain(originalName: string, line: string)
    requires Plainly([line])
    ensures Plainly(AccountLines(originalName, line))
  {
    hide IndentOf, TrimSpace, Contains, Action, AnnotationsDirective;
    ActionsOneLine();
    assert line in [line];
    IndentOneLine(line);
    var indent := IndentOf(line);
    var directive := AnnotationsDirective(|indent| + 2);
    FieldPlain(line, "name", Action(AccountExpression()));
    assert indent + "name" + ": " + Action(AccountExpression()) == indent + "name: " + Action(AccountExpression());
    AnnotationLiteralsGood();
    AnnotationsDirectiveGood(|indent| + 2);
    NotOnlyDashes(indent, WithAnnotations(), 0);
    NotOnlyDashes(indent, "annotations:", 0);
    NotOnlyDashes(indent, "  " + directive, 0);
    NotOnlyDashes(indent, EndDirective(), 0);
    assert indent + "  " + directive == indent + ("  " + directive);
    EachPlain([indent + "name: " + Action(AccountExpression()), indent + WithAnnotations(), indent + "annotations:",
               indent + "  " + directive, indent + EndDirective()]);
  }

  lemma AccountPlain(originalName: string)
    ensures RewritesPlainly(AccountMetadata(originalName))
  {
    hide Plainly, AccountLines;
    forall line | Plainly([line])
      ensures Plainly(AccountLines(originalName, line))
    {
      AccountLinesPlain(originalName, line);
    }
  }

  lemma {:induction false} SplitNOneLine(s: string, sep: char, n: nat)
    requires n > 0 && '\n' !in s
    ensures OneLineEach(SplitN(s, sep, n))
    decreases n
  {
    var i := IndexOf(s, sep);
    if n > 1 && i < |s| {
      SplitNOneLine(s[i + 1..], sep, n - 1);
    }
  }

  lemma DNSLinePlain(line: string)
    requires Plainly([line])
    ensures Plainly([DNSNameLine(line)])
  {
    hide IndentOf, TrimSpace, Contains, Action, SplitN;
    ActionsOneLine();
    assert line in [line];
    IndentOneLine(line);
    var trimmed := TrimSpace(line);
    TrimSpaceChars(line, '\n');
    if HasPrefix(trimmed, "- ") && Contains(trimmed, ".svc") {
      var parts := SplitN(trimmed[2..], '.', 3);
      SplitNOneLine(trimmed[2..], '.', 3);
      if |parts| >= 3 {
        assert parts[0] in parts && parts[2] in parts;
        var b := "- " + parts[0] + "." + Action(ReleaseNamespace()) + "." + parts[2];
        NotOnlyDashes(IndentOf(line), b, 1);
        assert DNSNameLine(line) == IndentOf(line) + b;
      }
    }
  }

  lemma DNSNamesPlain()
    ensures RewritesPlainly(DNSNames())
  {
    hide Plainly, DNSNameLine;
    forall line | Plainly([line])
      ensures Plainly([DNSNameLine(line)])
    {
      DNSLinePlain(line);
    }
  }

  lemma AnnotationLinePlain(line: string)
    requires Plainly([line])
    ensures Plainly([AnnotationLine(line)])
  {
    hide IndentOf, TrimSpace, Contains, Action, SplitN;
    ActionsOneLine();
    assert line in [line];
    IndentOneLine(line);
    if Contains(line, InjectCAFrom()) {
      var parts := SplitN(line, ':', 2);
      SplitNOneLine(line, ':', 2);
      if |parts| == 2 {
        assert parts[0] in parts && parts[1] in parts;
        TrimSpaceChars(parts[0], '\n');
        TrimSpaceChars(parts[1], '\n');
        var valueParts := SplitN(TrimSpace(parts[1]), '/', 2);
        SplitNOneLine(TrimSpace(parts[1]), '/', 2);
        if |valueParts| == 2 {
          assert valueParts[1] in valueParts;
          var value := Action(ReleaseNamespace()) + "/" + valueParts[1];
          FieldLinePlain(IndentOf(line), TrimSpace(parts[0]), value);
          assert AnnotationLine(line) == IndentOf(line) + TrimSpace(parts[0]) + ": " + value;
        }
      }
    }
  }

  lemma WebhookNoSeparator(raw: string)
    requires NoSeparator(raw)
    ensures NoSeparator(WebhookText(raw))
  {
    hide AnnotationLine, PassText, Action;
    NamespaceText(raw);
    var text := PassText(SetNamespace(), raw);
    PlainText(text);
    var lines := LinesOf(text);
    forall i | 0 <= i < |lines|
      ensures Plainly([AnnotationLines(lines)[i]])
    {
      assert lines[i] in lines && Plainly([lines[i]]);
      AnnotationLinePlain(lines[i]);
    }
    EachPlain(AnnotationLines(lines));
    PlainlyText(AnnotationLines(lines));
  }

  lemma NamespaceText(raw: string)
    requires NoSeparator(raw)
    ensures NoSeparator(PassText(SetNamespace(), raw))
  {
    hide PassText, Action;
    ActionsOneLine();
    RuleText(SetNamespace(), raw);
  }

  lemma DeploymentNoSeparator(raw: string)
    requires NoSeparator(raw)
    ensures NoSeparator(DeploymentText(raw))
  {
    hide PassText, ElideText, Action;
    ActionsOneLine();
    NamespaceText(raw);
    var t1 := PassText(SetNamespace(), raw);
    RuleText(SetImage, t1);
    var t2 := PassText(SetImage, t1);
    RuleText(SetReplicas(), t2);
    var t3 := PassText(SetReplicas(), t2);
    ElideNoSeparator(t3);
    RuleText(SetAccount(), ElideText(t3));
    RuleText(AddPullSecrets, PassText(SetAccount(), ElideText(t3)));
  }

  lemma BindingNoSeparator(raw: string)
    requires NoSeparator(raw)
    ensures NoSeparator(BindingText(raw))
  {
    hide PassText, SectionText, RewritesPlainly;
    NamespaceText(raw);
    SubjectsPlain();
    SectionNoSeparator(SubjectsNamespace(), PassText(SetNamespace(), raw));
    SectionNoSeparator(SubjectsName(), SectionText(SubjectsNamespace(), PassText(SetNamespace(), raw)));
  }

  /** No transformation introduces a document separator, whatever the kind. */
  lemma NoPassSeparates(typing: ChartValues.Typing, gvk: GVK, obj: Entries)
    requires NoSeparator(Marshal(obj))
    ensures NoSeparator(TemplateText(typing, gvk, obj))
  {
    hide PassText, SectionText, RewritesPlainly, DeploymentText, BindingText, WebhookText, MetadataString, Marshal;
    var raw := Marshal(obj);
    NamespaceText(raw);
    var named := PassText(SetNamespace(), raw);
    DeploymentNoSeparator(raw);
    AccountPlain(MetadataString(typing, obj, "name"));
    SectionNoSeparator(AccountMetadata(MetadataString(typing, obj, "name")), named);
    RuleText(AddConfigValues, named);
    BindingNoSeparator(raw);
    WebhookNoSeparator(raw);
    DNSNamesPlain();
    SectionNoSeparator(DNSNames(), named);
  }

  // ---------------------------------------------------------------- Printed resources

  function Nothing(): Probe {
    Probe((key, text) => false, key => false)
  }

  function IsSeparator(): string -> bool {
    content => content == SEPARATOR
  }

  lemma {:induction false} NothingHits(entries: Entries, dashed: bool)
    ensures !Hits(Nothing(), entries, dashed)
    decreases entries
  {
    match entries
    case NoEntries =>
    case Splice(_, rest) => NothingHits(rest, false);
    case Entry(_, value, rest) =>
      NothingHits(rest, false);
      match value
      case Scalar(_) =>
      case Mapping(inner) => NothingHits(inner, false);
      case Sequence(items) => NothingInItems(items);
  }

  lemma {:induction false} NothingInItems(items: Items)
    ensures !ItemsHit(Nothing(), items)
    decreases items
  {
    match items
    case NoItems =>
    case Item(value, rest) =>
      NothingInItems(rest);
      match value
      case Scalar(_) =>
      case Mapping(entries) => NothingHits(entries, true);
      case Sequence(inner) => NothingInItems(inner);
  }

  lemma SeparatorIsNoRow()
    ensures Detects(Nothing(), IsSeparator())
  {
    var p, bad := Nothing(), IsSeparator();
    forall key, text
      ensures DetectsField(p, bad, key, text)
    {
      assert (key + ": " + text)[|key|] == ':';
    }
    forall key
      ensures DetectsHeader(p, bad, key)
    {
      assert (key + ":")[|key|] == ':';
    }
    forall content
      ensures DetectsDash(bad, content)
    {
      assert ("- " + content)[1] == ' ';
    }
  }

  lemma RowIsNoSeparator(row: Row)
    requires row.content != SEPARATOR
    ensures RowText(row) != SEPARATOR
  {
    if row.indent > 0 {
      assert RowText(row)[0] == ' ';
    } else {
      assert Spaces(0) == "" && RowText(row) == row.content;
    }
  }

  lemma MarshalHasNoSeparator(entries: Entries)
    requires entries.Entry? && PrintableEntries(entries)
    ensures NoSeparator(Marshal(entries))
  {
    hide RowText, PrintEntries, Hits, Marshal, Detects;
    var rows := PrintEntries(entries, 0);
    MarshalIsPrintText(entries);
    LinesOfPrintText(entries);
    NothingHits(entries, false);
    SeparatorIsNoRow();
    NoHitNoRow(Nothing(), IsSeparator(), entries, 0, false);
    forall i | 0 <= i < |rows|
      ensures Texts(rows)[i] != SEPARATOR
    {
      assert !IsSeparator()(rows[i].content);
      RowIsNoSeparator(rows[i]);
    }
  }

  // ---------------------------------------------------------------- A file

  function TemplateTexts(typing: ChartValues.Typing, gvk: GVK, objs: seq<Entries>): (texts: seq<string>)
    ensures |texts| == |objs| && forall i | 0 <= i < |objs| :: texts[i] == TemplateText(typing, gvk, objs[i])
  {
    seq(|objs|, i requires 0 <= i < |objs| => TemplateText(typing, gvk, objs[i]))
  }

  /** `renderGroup`. */
  method RenderGroup(typing: ChartValues.Typing, gvk: GVK, objs: seq<Entries>) returns (text: string)
    ensures text == Join(TemplateTexts(typing, gvk, objs), "\n---\n")
  {
    hide TemplateText;
    var parts: seq<string> := [];
    for i := 0 to |objs|
      invariant |parts| == i && forall k | 0 <= k < i :: parts[k] == TemplateText(typing, gvk, objs[k])
    {
      var transformed := TransformResource(typing, gvk, objs[i]);
      parts := parts + [transformed];
    }
    assert parts == TemplateTexts(typing, gvk, objs);
    text := Join(parts, "\n---\n");
  }

  /** Cuts lines into documents at the separators. */
  function Cut(lines: seq<string>): (docs: seq<seq<string>>)
    ensures docs != []
  {
    if lines == [] then [[]]
    else
      var rest := Cut(lines[1..]);
      if lines[0] == SEPARATOR then [[]] + rest else [[lines[0]] + rest[0]] + rest[1..]
  }

  function Documents(text: string): (docs: seq<string>) {
    var cut := Cut(LinesOf(text));
    seq(|cut|, i requires 0 <= i < |cut| => TextOf(cut[i]))
  }

  lemma {:induction false} CutWhole(lines: seq<string>)
    requires SEPARATOR !in lines
    ensures Cut(lines) == [lines]
  {
    if lines != [] {
      CutWhole(lines[1..]);
      assert [lines[0]] + lines[1..] == lines;
    }
  }

  lemma {:induction false} CutFirst(a: seq<string>, b: seq<string>)
    requires SEPARATOR !in a
    ensures Cut(a + [SEPARATOR] + b) == [a] + Cut(b)
  {
    var all := a + [SEPARATOR] + b;
    if a == [] {
      assert all[1..] == b;
    } else {
      assert all[1..] == a[1..] + [SEPARATOR] + b;
      CutFirst(a[1..], b);
      assert [a[0]] + a[1..] == a;
    }
  }

  lemma LinesAroundSeparator(a: string, b: string)
    ensures LinesOf(a + "\n---\n" + b) == LinesOf(a) + [SEPARATOR] + LinesOf(b)
  {
    TextOfLines(a);
    TextOfLines(b);
    var la, lb := LinesOf(a), LinesOf(b);
    JoinAppend([SEPARATOR], lb, "\n");
    JoinAppend(la, [SEPARATOR] + lb, "\n");
    assert a + "\n" + (SEPARATOR + "\n" + b) == a + "\n---\n" + b;
    assert la + ([SEPARATOR] + lb) == la + [SEPARATOR] + lb;
    LinesOfText(la + [SEPARATOR] + lb);
  }

  lemma {:induction false} CutJoined(parts: seq<string>)
    requires parts != [] && forall part | part in parts :: NoSeparator(part)
    ensures |Cut(LinesOf(Join(parts, "\n---\n")))| == |parts|
    ensures forall i | 0 <= i < |parts| :: Cut(LinesOf(Join(parts, "\n---\n")))[i] == LinesOf(parts[i])
  {
    assert parts[0] in parts;
    if |parts| == 1 {
      CutWhole(LinesOf(parts[0]));
    } else {
      CutJoined(parts[1..]);
      LinesAroundSeparator(parts[0], Join(parts[1..], "\n---\n"));
      CutFirst(LinesOf(parts[0]), LinesOf(Join(parts[1..], "\n---\n")));
    }
  }

  /** Cutting the text of a group at its separators gives back exactly the transformed documents. */
  lemma GroupCutsIntoDocuments(typing: ChartValues.Typing, gvk: GVK, objs: seq<Entries>)
    requires objs != [] && forall obj | obj in objs :: obj.Entry? && PrintableEntries(obj)
    ensures Documents(Join(TemplateTexts(typing, gvk, objs), "\n---\n")) == TemplateTexts(typing, gvk, objs)
  {
    hide TemplateText, NoSeparator, Cut;
    var parts := TemplateTexts(typing, gvk, objs);
    forall i | 0 <= i < |objs|
      ensures NoSeparator(parts[i])
    {
      assert objs[i] in objs;
      MarshalHasNoSeparator(objs[i]);
      NoPassSeparates(typing, gvk, objs[i]);
    }
    CutJoined(parts);
    forall i | 0 <= i < |parts|
      ensures Documents(Join(parts, "\n---\n"))[i] == parts[i]
    {
      TextOfLines(parts[i]);
    }
  }

  // ---------------------------------------------------------------- ConfigMaps

  /** `part` is `whole` with some lines left out. */
  predicate KeptInOrder(part: seq<string>, whole: seq<string>) {
    if part == [] then true
    else if whole == [] then false
    else if part[0] == whole[0] then KeptInOrder(part[1..], whole[1..])
    else KeptInOrder(part, whole[1..])
  }

  lemma {:induction false} KeptBehind(part: seq<string>, more: seq<string>, whole: seq<string>)
    requires KeptInOrder(part, whole)
    ensures KeptInOrder(part, more + whole)
    decreases |more| + |part|
  {
    if more == [] {
      assert more + whole == whole;
    } else if part != [] {
      assert (more + whole)[1..] == more[1..] + whole;
      if part[0] == more[0] {
        KeptTail(part, whole);
        KeptBehind(part[1..], more[1..], whole);
      } else {
        KeptBehind(part, more[1..], whole);
      }
    }
  }

  lemma {:induction false} KeptTail(part: seq<string>, whole: seq<string>)
    requires part != [] && KeptInOrder(part, whole)
    ensures KeptInOrder(part[1..], whole)
    decreases |whole|
  {
    if part[0] == whole[0] {
      if |part| > 1 && part[1] == whole[0] {
        KeptTail(part[1..], whole[1..]);
      }
    } else {
      KeptTail(part, whole[1..]);
      if |part| > 1 && part[1] == whole[0] {
        KeptTail(part[1..], whole[1..]);
      }
    }
  }

  /** Adding the configuration values keeps every line of the ConfigMap, in order. */
  lemma {:induction false} ConfigLinesKept(lines: seq<string>)
    ensures KeptInOrder(lines, Apply(AddConfigValues, lines))
  {
    hide TrimSpace, IndentOf, ConfigValueLines;
    if lines != [] {
      ConfigLinesKept(lines[1..]);
      var out := LinesFor(AddConfigValues, lines[0]);
      var rest := Apply(AddConfigValues, lines[1..]);
      assert out == [lines[0]] + out[1..];
      KeptBehind(lines[1..], out[1..], rest);
      assert (out + rest)[1..] == out[1..] + rest;
    }
  }
}
