/**
 The line passes of the chart compiler.

 Each pass is a method with the loop of the source, proved equal to a function on the
 list of lines; everything else in this project is proved about those functions.
 */
module LinePasses {
  import opened GoStrings
  import Decimal

  // ---------------------------------------------------------------- What the passes emit

  function Action(expression: string): string {
    "{{ " + expression + " }}"
  }

  function ReleaseNamespace(): string {
    ".Release.Namespace"
  }

  function ReplicasValue(): string {
    ".Values.replicas"
  }

  function AccountExpression(): string {
    "default (include \"chart.fullname\" .)" + " .Values.serviceAccount.name"
  }

  function ImageExpression(): string {
    "include \"chart.imageRef\" ."
  }

  function IndentText(indent: nat): string {
    Decimal.Print(indent)
  }

  function QuotedImageRef(): string {
    "\"" + Action(ImageExpression()) + "\""
  }

  function ResourcesDirective(indent: nat): string {
    "{{- " + "toYaml .Values.resources | nindent " + IndentText(indent) + " }}"
  }

  function AnnotationsDirective(indent: nat): string {
    "{{- " + "toYaml . | nindent " + IndentText(indent) + " }}"
  }

  function WithPullSecret(): string {
    "{{- " + "with .Values.imagePullSecret" + " }}"
  }

  function WithAnnotations(): string {
    "{{- " + "with .Values.serviceAccount.annotations" + " }}"
  }

  function EndDirective(): string {
    "{{- end }}"
  }

  // ---------------------------------------------------------------- Passes that treat every line alone

  datatype LineRule =
    | SetValue(key: string, template: string)
    | SetImage
    | AddPullSecrets
    | AddConfigValues

  function SetNamespace(): LineRule {
    SetValue("namespace", Action(ReleaseNamespace()))
  }

  function SetReplicas(): LineRule {
    SetValue("replicas", Action(ReplicasValue()))
  }

  function SetAccount(): LineRule {
    SetValue("serviceAccountName", Action(AccountExpression()))
  }

  function ConfigValueLines(indent: string): seq<string> {
    [indent + "  {{- with .Values.imagePullSecret }}",
     indent + "  imagePullSecret: {{ . }}",
     indent + "  {{- end }}",
     indent + "  {{- range $key, $val := .Values.config }}",
     indent + "  {{ $key }}: {{ $val | quote }}",
     indent + "  {{- end }}"]
  }

  /** The line carries `field` and no template action yet. */
  predicate Untemplated(line: string, field: string) {
    HasPrefix(TrimSpace(line), field) && !Contains(TrimSpace(line), "{{")
  }

  /** The lines a rule puts in the place of one line. */
  function LinesFor(rule: LineRule, line: string): seq<string> {
    var indent := IndentOf(line);
    match rule
    case SetValue(key, template) =>
      if Untemplated(line, key + ":") then [indent + key + ": " + template] else [line]
    case SetImage =>
      if Untemplated(line, "image:") then
        [indent + "image: " + QuotedImageRef(), indent + "imagePullPolicy: Always"]
      else if HasPrefix(TrimSpace(line), "imagePullPolicy:") then []
      else [line]
    case AddPullSecrets =>
      if HasPrefix(TrimSpace(line), "serviceAccountName:") then
        [line, indent + WithPullSecret(), indent + "imagePullSecrets:", indent + "  - name: " + Action("."), indent + EndDirective()]
      else [line]
    case AddConfigValues =>
      if TrimSpace(line) == "data:" then
        [line] + ConfigValueLines(indent)
      else [line]
  }

  function Apply(rule: LineRule, lines: seq<string>): seq<string> {
    if lines == [] then [] else LinesFor(rule, lines[0]) + Apply(rule, lines[1..])
  }

  lemma {:induction false} ApplyAppend(rule: LineRule, a: seq<string>, b: seq<string>)
    ensures Apply(rule, a + b) == Apply(rule, a) + Apply(rule, b)
  {
    if a == [] {
      assert a + b == b;
    } else {
      assert (a + b)[1..] == a[1..] + b;
      ApplyAppend(rule, a[1..], b);
    }
  }

  lemma ApplySnoc(rule: LineRule, lines: seq<string>, i: nat)
    requires i < |lines|
    ensures Apply(rule, lines[..i + 1]) == Apply(rule, lines[..i]) + LinesFor(rule, lines[i])
  {
    assert lines[..i + 1] == lines[..i] + [lines[i]];
    ApplyAppend(rule, lines[..i], [lines[i]]);
    assert [lines[i]][1..] == [];
    assert Apply(rule, [lines[i]]) == LinesFor(rule, lines[i]) + Apply(rule, []);
  }

  function LinesOf(raw: string): seq<string> {
    Split(raw, '\n')
  }

  function TextOf(lines: seq<string>): string {
    Join(lines, "\n")
  }

  /** A rule as a pass over text. */
  function PassText(rule: LineRule, raw: string): string {
    TextOf(Apply(rule, LinesOf(raw)))
  }

  /** A rule that sets a value leaves one line for each line. */
  lemma {:induction false} SetValueAt(rule: LineRule, lines: seq<string>, i: nat)
    requires rule.SetValue? && i < |lines|
    ensures |Apply(rule, lines)| == |lines|
    ensures [Apply(rule, lines)[i]] == LinesFor(rule, lines[i])
    decreases |lines|
  {
    hide TrimSpace, IndentOf, Contains;
    if |lines| > 1 {
      SetValueAt(rule, lines[1..], if i == 0 then 0 else i - 1);
    }
  }

  method ReplaceNamespace(raw: string) returns (r: string)
    ensures r == PassText(SetNamespace(), raw)
  {
    hide TrimSpace, IndentOf, Contains, Action, Apply;
    var lines := Split(raw, '\n');
    ghost var was := lines;
    ghost var out := Apply(SetNamespace(), was);
    SetValueAt(SetNamespace(), was, 0);
    for i := 0 to |lines|
      invariant |lines| == |was| == |out|
      invariant forall k | 0 <= k < i :: lines[k] == out[k]
      invariant forall k | i <= k < |lines| :: lines[k] == was[k]
    {
      SetValueAt(SetNamespace(), was, i);
      var line := lines[i];
      var trimmed := TrimSpace(line);
      if HasPrefix(trimmed, "namespace" + ":") && !Contains(trimmed, "{{") {
        lines := lines[i := IndentOf(line) + "namespace" + ": " + Action(ReleaseNamespace())];
      }
    }
    assert lines == out;
    r := Join(lines, "\n");
  }

  method ReplaceReplicas(raw: string) returns (r: string)
    ensures r == PassText(SetReplicas(), raw)
  {
    hide TrimSpace, IndentOf, Contains, Action, Apply;
    var lines := Split(raw, '\n');
    ghost var was := lines;
    ghost var out := Apply(SetReplicas(), was);
    SetValueAt(SetReplicas(), was, 0);
    for i := 0 to |lines|
      invariant |lines| == |was| == |out|
      invariant forall k | 0 <= k < i :: lines[k] == out[k]
      invariant forall k | i <= k < |lines| :: lines[k] == was[k]
    {
      SetValueAt(SetReplicas(), was, i);
      var line := lines[i];
      var trimmed := TrimSpace(line);
      if HasPrefix(trimmed, "replicas" + ":") && !Contains(trimmed, "{{") {
        lines := lines[i := IndentOf(line) + "replicas" + ": " + Action(ReplicasValue())];
      }
    }
    assert lines == out;
    r := Join(lines, "\n");
  }

  method ReplaceServiceAccountName(raw: string) returns (r: string)
    ensures r == PassText(SetAccount(), raw)
  {
    hide TrimSpace, IndentOf, Contains, Action, Apply;
    var lines := Split(raw, '\n');
    ghost var was := lines;
    ghost var out := Apply(SetAccount(), was);
    SetValueAt(SetAccount(), was, 0);
    for i := 0 to |lines|
      invariant |lines| == |was| == |out|
      invariant forall k | 0 <= k < i :: lines[k] == out[k]
      invariant forall k | i <= k < |lines| :: lines[k] == was[k]
    {
      SetValueAt(SetAccount(), was, i);
      var line := lines[i];
      var trimmed := TrimSpace(line);
      if HasPrefix(trimmed, "serviceAccountName" + ":") && !Contains(trimmed, "{{") {
        lines := lines[i := IndentOf(line) + "serviceAccountName" + ": " + Action(AccountExpression())];
      }
    }
    assert lines == out;
    r := Join(lines, "\n");
  }

  method ReplaceImageField(raw: string) returns (r: string)
    ensures r == PassText(SetImage, raw)
  {
    hide TrimSpace, IndentOf, Contains, Action, IndentText;
    var lines := Split(raw, '\n');
    var result: seq<string> := [];
    for i := 0 to |lines|
      invariant result == Apply(SetImage, lines[..i])
    {
      ApplySnoc(SetImage, lines, i);
      var line := lines[i];
      var trimmed := TrimSpace(line);
      if HasPrefix(trimmed, "image:") && !Contains(trimmed, "{{") {
        result := result + [IndentOf(line) + "image: " + QuotedImageRef(), IndentOf(line) + "imagePullPolicy: Always"];
      } else if HasPrefix(trimmed, "imagePullPolicy:") {
        // Dropped; the templated one is injected above.
        assert result == result + [];
      } else {
        result := result + [line];
      }
    }
    assert lines[..|lines|] == lines;
    r := Join(result, "\n");
  }

  method AddImagePullSecrets(raw: string) returns (r: string)
    ensures r == PassText(AddPullSecrets, raw)
  {
    hide TrimSpace, IndentOf, Contains, Action, IndentText;
    var lines := Split(raw, '\n');
    var result: seq<string> := [];
    for i := 0 to |lines|
      invariant result == Apply(AddPullSecrets, lines[..i])
    {
      ApplySnoc(AddPullSecrets, lines, i);
      var line := lines[i];
      result := result + [line];
      if HasPrefix(TrimSpace(line), "serviceAccountName:") {
        var indent := IndentOf(line);
        result := result + [
          indent + WithPullSecret(),
          indent + "imagePullSecrets:",
          indent + "  - name: " + Action("."),
          indent + EndDirective()];
      }
    }
    assert lines[..|lines|] == lines;
    r := Join(result, "\n");
  }

  method InjectConfigMapValues(raw: string) returns (r: string)
    ensures r == PassText(AddConfigValues, raw)
  {
    hide TrimSpace, IndentOf, Contains, ConfigValueLines;
    var lines := Split(raw, '\n');
    var result: seq<string> := [];
    for i := 0 to |lines|
      invariant result == Apply(AddConfigValues, lines[..i])
    {
      ApplySnoc(AddConfigValues, lines, i);
      var line := lines[i];
      result := result + [line];
      if TrimSpace(line) == "data:" {
        result := result + ConfigValueLines(IndentOf(line));
      }
    }
    assert lines[..|lines|] == lines;
    r := Join(result, "\n");
  }

  // ---------------------------------------------------------------- The resources block

  predicate Blank(line: string) {
    TrimSpace(line) == ""
  }

  predicate OpensResources(line: string) {
    TrimSpace(line) == "resources:"
  }

  /** Drops blank lines and lines indented by at least `base` from the front. */
  function SkipDeeper(lines: seq<string>, base: nat): (rest: seq<string>)
    ensures |rest| <= |lines|
  {
    if lines != [] && (Blank(lines[0]) || |IndentOf(lines[0])| >= base) then SkipDeeper(lines[1..], base) else lines
  }

  lemma {:induction false} SkippedIsSuffix(lines: seq<string>, base: nat)
    ensures forall line | line in SkipDeeper(lines, base) :: line in lines
  {
    if lines != [] && (Blank(lines[0]) || |IndentOf(lines[0])| >= base) {
      SkippedIsSuffix(lines[1..], base);
    }
  }

  function ResourcesLines(indent: string): seq<string> {
    [indent + "resources:", indent + "  " + ResourcesDirective(|indent| + 2)]
  }

  function Elide(lines: seq<string>): seq<string>
    decreases |lines|
  {
    if lines == [] then []
    else if OpensResources(lines[0]) then
      var indent := IndentOf(lines[0]);
      ResourcesLines(indent) + Elide(SkipDeeper(lines[1..], |indent| + 2))
    else [lines[0]] + Elide(lines[1..])
  }

  function ElideText(raw: string): string {
    TextOf(Elide(LinesOf(raw)))
  }

  lemma ElideStep(lines: seq<string>, i: nat)
    requires i < |lines|
    ensures lines[i..][1..] == lines[i + 1..]
    ensures Elide(lines[i..]) ==
              if OpensResources(lines[i]) then
                ResourcesLines(IndentOf(lines[i])) + Elide(SkipDeeper(lines[i + 1..], |IndentOf(lines[i])| + 2))
              else [lines[i]] + Elide(lines[i + 1..])
  {
    assert lines[i..][1..] == lines[i + 1..];
  }

  lemma SkipStep(lines: seq<string>, i: nat, base: nat)
    requires i <= |lines|
    ensures SkipDeeper(lines[i..], base) ==
              if i < |lines| && (Blank(lines[i]) || |IndentOf(lines[i])| >= base) then SkipDeeper(lines[i + 1..], base)
              else lines[i..]
  {
    if i < |lines| {
      assert lines[i..][1..] == lines[i + 1..];
    }
  }

  /** What is written and what the rest still becomes make up the whole. */
  ghost predicate Progress(result: seq<string>, rest: seq<string>, whole: seq<string>) {
    result + rest == whole
  }

  lemma Advance(result: seq<string>, next: seq<string>, rest: seq<string>, whole: seq<string>)
    requires Progress(result, next + rest, whole)
    ensures Progress(result + next, rest, whole)
  {
    assert result + (next + rest) == result + next + rest;
  }

  /** The nested loops share the index `i`. */
  method ReplaceResources(raw: string) returns (r: string)
    ensures r == ElideText(raw)
  {
    hide TrimSpace, IndentOf, Contains, Action, IndentText, Elide, SkipDeeper, ResourcesLines, OpensResources, Blank, Progress;
    var lines := Split(raw, '\n');
    ghost var whole := Elide(lines);
    var result: seq<string> := [];
    var i := 0;
    assert lines[0..] == lines;
    assert Progress(result, Elide(lines[i..]), whole) by { NoProgress(whole); }
    while i < |lines|
      invariant 0 <= i <= |lines|
      invariant Progress(result, Elide(lines[i..]), whole)
    {
      ElideStep(lines, i);
      if OpensResources(lines[i]) {
        var indent := IndentOf(lines[i]);
        var baseIndent := |indent| + 2;
        Advance(result, ResourcesLines(indent), Elide(SkipDeeper(lines[i + 1..], baseIndent)), whole);
        result := result + ResourcesLines(indent);

        // Skip the original block.
        i := i + 1;
        while i < |lines|
          invariant 0 <= i <= |lines|
          invariant Progress(result, Elide(SkipDeeper(lines[i..], baseIndent)), whole)
        {
          SkipStep(lines, i, baseIndent);
          if Blank(lines[i]) || |IndentOf(lines[i])| >= baseIndent {
            i := i + 1;
          } else {
            break;
          }
        }
        SkipStep(lines, i, baseIndent);
      } else {
        Advance(result, [lines[i]], Elide(lines[i + 1..]), whole);
        result := result + [lines[i]];
        i := i + 1;
      }
    }
    assert result == whole by { AllDone(lines, i, result, whole); }
    r := Join(result, "\n");
  }

  lemma NoProgress(whole: seq<string>)
    ensures Progress([], whole, whole)
  {
  }

  lemma AllDone(lines: seq<string>, i: nat, result: seq<string>, whole: seq<string>)
    requires i == |lines| && Progress(result, Elide(lines[i..]), whole)
    ensures result == whole
  {
    assert lines[i..] == [];
  }

  // ---------------------------------------------------------------- Passes with a section

  /** A pass that rewrites lines only between a line that opens a section and one that closes it. */
  datatype Section = Section(opens: string -> bool, closes: string -> bool, rewrite: string -> seq<string>)

  predicate OpensSubjects(line: string) {
    TrimSpace(line) == "subjects:"
  }

  /** A visible line that does not start with a space or a tab. */
  predicate AtMargin(line: string) {
    !HasPrefix(line, " ") && !HasPrefix(line, "\t") && TrimSpace(line) != ""
  }

  predicate ClosesSubjects(line: string) {
    AtMargin(line) && !HasPrefix(TrimSpace(line), "-")
  }

  predicate OpensMetadata(line: string) {
    TrimSpace(line) == "metadata:"
  }

  predicate OpensDNSNames(line: string) {
    TrimSpace(line) == "dnsNames:"
  }

  predicate ClosesDNSNames(line: string) {
    !HasPrefix(TrimSpace(line), "-") && TrimSpace(line) != ""
  }

  function SubjectNamespaceLine(line: string): string {
    if Untemplated(line, "namespace:") then IndentOf(line) + "namespace: " + Action(ReleaseNamespace()) else line
  }

  function SubjectNameLine(line: string): string {
    if Untemplated(line, "name:") then IndentOf(line) + "name: " + Action(AccountExpression()) else line
  }

  function AccountLines(originalName: string, line: string): seq<string> {
    var trimmed := TrimSpace(line);
    var indent := IndentOf(line);
    if HasPrefix(trimmed, "name:") && Contains(trimmed, originalName) then
      [indent + "name: " + Action(AccountExpression()),
       indent + WithAnnotations(),
       indent + "annotations:",
       indent + "  " + AnnotationsDirective(|indent| + 2),
       indent + EndDirective()]
    else [line]
  }

  /** `service.namespace.svc...` becomes `service.{{ .Release.Namespace }}.svc...`. */
  function DNSNameLine(line: string): string {
    var trimmed := TrimSpace(line);
    if HasPrefix(trimmed, "- ") && Contains(trimmed, ".svc") then
      var parts := SplitN(trimmed[2..], '.', 3);
      if |parts| >= 3 then IndentOf(line) + "- " + parts[0] + "." + Action(ReleaseNamespace()) + "." + parts[2] else line
    else line
  }

  function SubjectsNamespace(): Section {
    Section(OpensSubjects, ClosesSubjects, line => [SubjectNamespaceLine(line)])
  }

  function SubjectsName(): Section {
    Section(OpensSubjects, ClosesSubjects, line => [SubjectNameLine(line)])
  }

  function AccountMetadata(originalName: string): Section {
    Section(OpensMetadata, AtMargin, line => AccountLines(originalName, line))
  }

  function DNSNames(): Section {
    Section(OpensDNSNames, ClosesDNSNames, line => [DNSNameLine(line)])
  }

  /** Whether the section is open at `line`, given whether it was open before. */
  predicate Inside(s: Section, line: string, inside: bool) {
    s.opens(line) || (inside && !s.closes(line))
  }

  function SectionLines(s: Section, line: string, inside: bool): seq<string> {
    if inside then s.rewrite(line) else [line]
  }

  function SectionPass(s: Section, lines: seq<string>, inside: bool): seq<string> {
    if lines == [] then []
    else
      var now := Inside(s, lines[0], inside);
      SectionLines(s, lines[0], now) + SectionPass(s, lines[1..], now)
  }

  /** The section state behind `lines`. */
  predicate InsideAfter(s: Section, lines: seq<string>, inside: bool) {
    if lines == [] then inside else InsideAfter(s, lines[1..], Inside(s, lines[0], inside))
  }

  lemma {:induction false} SectionAppend(s: Section, a: seq<string>, b: seq<string>, inside: bool)
    ensures SectionPass(s, a + b, inside) == SectionPass(s, a, inside) + SectionPass(s, b, InsideAfter(s, a, inside))
    ensures InsideAfter(s, a + b, inside) == InsideAfter(s, b, InsideAfter(s, a, inside))
  {
    hide Inside, SectionLines;
    if a == [] {
      assert a + b == b;
    } else {
      assert (a + b)[1..] == a[1..] + b && (a + b)[0] == a[0];
      var now := Inside(s, a[0], inside);
      SectionAppend(s, a[1..], b, now);
      AppendAssociates(SectionLines(s, a[0], now), SectionPass(s, a[1..], now), SectionPass(s, b, InsideAfter(s, a[1..], now)));
    }
  }

  lemma AppendAssociates<T>(a: seq<T>, b: seq<T>, c: seq<T>)
    ensures a + (b + c) == a + b + c
  {
  }

  lemma SectionSnoc(s: Section, lines: seq<string>, i: nat)
    requires i < |lines|
    ensures var before := InsideAfter(s, lines[..i], false);
            var now := Inside(s, lines[i], before);
            && InsideAfter(s, lines[..i + 1], false) == now
            && SectionPass(s, lines[..i + 1], false)
               == SectionPass(s, lines[..i], false) + SectionLines(s, lines[i], now)
  {
    assert lines[..i + 1] == lines[..i] + [lines[i]];
    SectionAppend(s, lines[..i], [lines[i]], false);
    assert [lines[i]][1..] == [];
    var before := InsideAfter(s, lines[..i], false);
    var now := Inside(s, lines[i], before);
    assert SectionPass(s, [], now) == [];
    assert InsideAfter(s, [lines[i]], before) == InsideAfter(s, [], now) == now;
  }

  function SectionText(s: Section, raw: string): string {
    TextOf(SectionPass(s, LinesOf(raw), false))
  }

  lemma InsideNothing(s: Section, lines: seq<string>)
    ensures !InsideAfter(s, lines[..0], false)
  {
  }

  lemma InsideSnoc(s: Section, lines: seq<string>, i: nat)
    requires i < |lines|
    ensures InsideAfter(s, lines[..i + 1], false) == Inside(s, lines[i], InsideAfter(s, lines[..i], false))
  {
    SectionSnoc(s, lines, i);
  }

  /** What a section that rewrites single lines leaves at position `k`. */
  ghost function LineAt(s: Section, rewrite: string -> string, lines: seq<string>, k: nat): string
    requires k < |lines|
  {
    if InsideAfter(s, lines[..k + 1], false) then rewrite(lines[k]) else lines[k]
  }

  lemma {:induction false} OneToOneUpTo(s: Section, rewrite: string -> string, lines: seq<string>, n: nat)
    requires forall line :: s.rewrite(line) == [rewrite(line)]
    requires n <= |lines|
    ensures SectionPass(s, lines[..n], false) == seq(n, k requires 0 <= k < n => LineAt(s, rewrite, lines, k))
  {
    if n > 0 {
      OneToOneUpTo(s, rewrite, lines, n - 1);
      SectionSnoc(s, lines, n - 1);
    }
  }

  lemma OneToOne(s: Section, rewrite: string -> string, lines: seq<string>)
    requires forall line :: s.rewrite(line) == [rewrite(line)]
    ensures |SectionPass(s, lines, false)| == |lines|
    ensures forall k | 0 <= k < |lines| :: SectionPass(s, lines, false)[k] == LineAt(s, rewrite, lines, k)
  {
    OneToOneUpTo(s, rewrite, lines, |lines|);
    assert lines[..|lines|] == lines;
  }

  lemma SubjectsNamespaceAt(lines: seq<string>, i: nat)
    requires i < |lines|
    ensures |SectionPass(SubjectsNamespace(), lines, false)| == |lines|
    ensures var now := InsideAfter(SubjectsNamespace(), lines[..i + 1], false);
            && now == (OpensSubjects(lines[i]) || (InsideAfter(SubjectsNamespace(), lines[..i], false) && !ClosesSubjects(lines[i])))
            && SectionPass(SubjectsNamespace(), lines, false)[i] == if now then SubjectNamespaceLine(lines[i]) else lines[i]
    ensures OpensSubjects(lines[i]) ==> SubjectNamespaceLine(lines[i]) == lines[i]
  {
    hide IndentOf, Contains, SplitN;
    InsideSnoc(SubjectsNamespace(), lines, i);
    OneToOne(SubjectsNamespace(), SubjectNamespaceLine, lines);
  }

  method ReplaceSubjectsNamespace(raw: string) returns (r: string)
    ensures r == SectionText(SubjectsNamespace(), raw)
  {
    hide TrimSpace, IndentOf, Contains, Action, IndentText, SectionPass, InsideAfter;
    hide SubjectNamespaceLine, OpensSubjects, ClosesSubjects;
    var lines := Split(raw, '\n');
    ghost var was := lines;
    ghost var out := SectionPass(SubjectsNamespace(), was, false);
    SubjectsNamespaceAt(was, 0);
    InsideNothing(SubjectsNamespace(), was);
    var inSubjects := false;
    for i := 0 to |lines|
      invariant |lines| == |was| == |out|
      invariant inSubjects == InsideAfter(SubjectsNamespace(), was[..i], false)
      invariant forall k | 0 <= k < i :: lines[k] == out[k]
      invariant forall k | i <= k < |lines| :: lines[k] == was[k]
    {
      SubjectsNamespaceAt(was, i);
      var line := lines[i];
      if OpensSubjects(line) {
        inSubjects := true;
        continue;
      }
      if inSubjects && ClosesSubjects(line) {
        inSubjects := false;
      }
      if inSubjects {
        lines := lines[i := SubjectNamespaceLine(line)];
      }
    }
    assert lines == out;
    r := Join(lines, "\n");
  }

  lemma SubjectsNameAt(lines: seq<string>, i: nat)
    requires i < |lines|
    ensures |SectionPass(SubjectsName(), lines, false)| == |lines|
    ensures var now := InsideAfter(SubjectsName(), lines[..i + 1], false);
            && now == (OpensSubjects(lines[i]) || (InsideAfter(SubjectsName(), lines[..i], false) && !ClosesSubjects(lines[i])))
            && SectionPass(SubjectsName(), lines, false)[i] == if now then SubjectNameLine(lines[i]) else lines[i]
    ensures OpensSubjects(lines[i]) ==> SubjectNameLine(lines[i]) == lines[i]
  {
    hide IndentOf, Contains, SplitN;
    assert "name:"[0] != "subjects:"[0];
    InsideSnoc(SubjectsName(), lines, i);
    OneToOne(SubjectsName(), SubjectNameLine, lines);
  }

  method ReplaceSubjectsServiceAccount(raw: string) returns (r: string)
    ensures r == SectionText(SubjectsName(), raw)
  {
    hide TrimSpace, IndentOf, Contains, Action, IndentText, SectionPass, InsideAfter;
    hide SubjectNameLine, OpensSubjects, ClosesSubjects;
    var lines := Split(raw, '\n');
    ghost var was := lines;
    ghost var out := SectionPass(SubjectsName(), was, false);
    SubjectsNameAt(was, 0);
    InsideNothing(SubjectsName(), was);
    var inSubjects := false;
    for i := 0 to |lines|
      invariant |lines| == |was| == |out|
      invariant inSubjects == InsideAfter(SubjectsName(), was[..i], false)
      invariant forall k | 0 <= k < i :: lines[k] == out[k]
      invariant forall k | i <= k < |lines| :: lines[k] == was[k]
    {
      SubjectsNameAt(was, i);
      var line := lines[i];
      if OpensSubjects(line) {
        inSubjects := true;
        continue;
      }
      if inSubjects && ClosesSubjects(line) {
        inSubjects := false;
      }
      if inSubjects {
        lines := lines[i := SubjectNameLine(line)];
      }
    }
    assert lines == out;
    r := Join(lines, "\n");
  }

  method ReplaceServiceAccountMetadata(raw: string, originalName: string) returns (r: string)
    ensures r == SectionText(AccountMetadata(originalName), raw)
  {
    hide TrimSpace, IndentOf, Contains, Action, IndentText;
    var lines := Split(raw, '\n');
    var result: seq<string> := [];
    var inMetadata := false;
    ghost var s := AccountMetadata(originalName);
    for i := 0 to |lines|
      invariant result == SectionPass(s, lines[..i], false)
      invariant inMetadata == InsideAfter(s, lines[..i], false)
    {
      SectionSnoc(s, lines, i);
      var line := lines[i];
      var trimmed := TrimSpace(line);
      if trimmed == "metadata:" {
        inMetadata := true;
      } else if !HasPrefix(line, " ") && !HasPrefix(line, "\t") && trimmed != "" {
        inMetadata := false;
      }
      if inMetadata && HasPrefix(trimmed, "name:") && Contains(trimmed, originalName) {
        var indent := IndentOf(line);
        result := result + [indent + "name: " + Action(AccountExpression())];
        result := result + [
          indent + WithAnnotations(),
          indent + "annotations:",
          indent + "  " + AnnotationsDirective(|indent| + 2),
          indent + EndDirective()];
        continue;
      }
      result := result + [line];
    }
    assert lines[..|lines|] == lines;
    r := Join(result, "\n");
  }

  lemma DNSNamesAt(lines: seq<string>, i: nat)
    requires i < |lines|
    ensures |SectionPass(DNSNames(), lines, false)| == |lines|
    ensures var now := InsideAfter(DNSNames(), lines[..i + 1], false);
            && now == (OpensDNSNames(lines[i]) || (InsideAfter(DNSNames(), lines[..i], false) && !ClosesDNSNames(lines[i])))
            && SectionPass(DNSNames(), lines, false)[i] == if now then DNSNameLine(lines[i]) else lines[i]
    ensures OpensDNSNames(lines[i]) ==> DNSNameLine(lines[i]) == lines[i]
  {
    hide IndentOf, Contains, SplitN;
    assert "- "[0] != "dnsNames:"[0];
    InsideSnoc(DNSNames(), lines, i);
    OneToOne(DNSNames(), DNSNameLine, lines);
  }

  method ReplaceCertificateDNSNames(raw: string) returns (r: string)
    ensures r == SectionText(DNSNames(), raw)
  {
    hide TrimSpace, IndentOf, Contains, Action, IndentText, SectionPass, InsideAfter;
    hide DNSNameLine, OpensDNSNames, ClosesDNSNames;
    var lines := Split(raw, '\n');
    ghost var was := lines;
    ghost var out := SectionPass(DNSNames(), was, false);
    DNSNamesAt(was, 0);
    InsideNothing(DNSNames(), was);
    var inDNSNames := false;
    for i := 0 to |lines|
      invariant |lines| == |was| == |out|
      invariant inDNSNames == InsideAfter(DNSNames(), was[..i], false)
      invariant forall k | 0 <= k < i :: lines[k] == out[k]
      invariant forall k | i <= k < |lines| :: lines[k] == was[k]
    {
      DNSNamesAt(was, i);
      var line := lines[i];
      if OpensDNSNames(line) {
        inDNSNames := true;
        continue;
      }
      if inDNSNames && ClosesDNSNames(line) {
        inDNSNames := false;
      }
      if inDNSNames {
        lines := lines[i := DNSNameLine(line)];
      }
    }
    assert lines == out;
    r := Join(lines, "\n");
  }

  // ---------------------------------------------------------------- The webhook annotation

  function InjectCAFrom(): string {
    "cert-manager.io/inject-ca-from"
  }

  function AnnotationLine(line: string): string {
    if !Contains(line, InjectCAFrom()) then line
    else
      var parts := SplitN(line, ':', 2);
      if |parts| != 2 then line
      else
        var valueParts := SplitN(TrimSpace(parts[1]), '/', 2);
        if |valueParts| != 2 then line
        else IndentOf(line) + TrimSpace(parts[0]) + ": " + Action(ReleaseNamespace()) + "/" + valueParts[1]
  }

  function AnnotationLines(lines: seq<string>): (r: seq<string>)
    ensures |r| == |lines|
    ensures forall i | 0 <= i < |lines| :: r[i] == AnnotationLine(lines[i])
  {
    seq(|lines|, i requires 0 <= i < |lines| => AnnotationLine(lines[i]))
  }

  function WebhookText(raw: string): string {
    TextOf(AnnotationLines(LinesOf(PassText(SetNamespace(), raw))))
  }

  method ReplaceWebhookNamespace(raw: string) returns (r: string)
    ensures r == WebhookText(raw)
  {
    hide TrimSpace, IndentOf, Contains, Action, IndentText, InjectCAFrom, ReleaseNamespace, SplitN, PassText;
    var text := ReplaceNamespace(raw);
    var lines := Split(text, '\n');
    ghost var was := lines;
    for i := 0 to |lines|
      invariant |lines| == |was| && lines[i..] == was[i..]
      invariant forall k | 0 <= k < i :: lines[k] == AnnotationLine(was[k])
    {
      var line := lines[i];
      assert line == lines[i..][0] == was[i];
      if Contains(line, InjectCAFrom()) {
        var parts := SplitN(line, ':', 2);
        if |parts| == 2 {
          var value := TrimSpace(parts[1]);
          var valueParts := SplitN(value, '/', 2);
          if |valueParts| == 2 {
            var indent := IndentOf(line);
            lines := lines[i := indent + TrimSpace(parts[0]) + ": " + Action(ReleaseNamespace()) + "/" + valueParts[1]];
          }
        }
      }
    }
    assert lines == AnnotationLines(was);
    r := Join(lines, "\n");
  }
}
