/**
 Laws of the line passes that hold on every string: the passes of a Deployment fuse into
 one walk over the lines, they commute, and running one again changes nothing.
 */
module PassLaws {
  import opened GoStrings
  import opened LinePasses
  import Decimal

  // ---------------------------------------------------------------- Single lines

  /** A rule that sets one field other than `resources` to a template. */
  ghost predicate SetsField(rule: LineRule) {
    && rule.SetValue?
    && Clean(rule.key) && ':' !in rule.key && '{' !in rule.key && rule.key != "resources"
    && Clean(rule.template) && Contains(rule.template, "{{")
  }

  lemma ActionShape(expression: string)
    requires '\n' !in expression
    ensures Clean(Action(expression)) && Contains(Action(expression), "{{")
  {
    assert "{{" <= Action(expression);
  }

  lemma AccountNameOneLine()
    ensures '\n' !in AccountExpression()
  {
    assert '\n' !in "default (include \"chart.fullname\" .)";
    assert '\n' !in " .Values.serviceAccount.name";
  }

  lemma NamespaceRule()
    ensures SetsField(SetNamespace())
  {
    hide Contains, Action;
    ActionShape(ReleaseNamespace());
  }

  lemma ReplicasRule()
    ensures SetsField(SetReplicas())
  {
    hide Contains, Action;
    ActionShape(ReplicasValue());
  }

  lemma AccountKey()
    ensures Clean("serviceAccountName") && ':' !in "serviceAccountName" && '{' !in "serviceAccountName"
    ensures "serviceAccountName" != "resources"
  {
    assert |"serviceAccountName"| != |"resources"|;
  }

  lemma AccountRule()
    ensures SetsField(SetAccount())
  {
    hide Contains, Action, Clean;
    AccountKey();
    AccountNameOneLine();
    ActionShape(AccountExpression());
  }

  lemma KnownRules()
    ensures SetsField(SetNamespace()) && SetsField(SetReplicas()) && SetsField(SetAccount())
  {
    hide SetsField;
    NamespaceRule();
    ReplicasRule();
    AccountRule();
  }

  /** An indented line is its indent and its visible text. */
  lemma IndentedLine(line: string, text: string)
    requires Clean(text)
    ensures TrimSpace(IndentOf(line) + text) == text
    ensures IndentOf(IndentOf(line) + text) == IndentOf(line)
  {
    IndentIsSpaces(line);
    TrimClean(|IndentOf(line)|, text);
  }

  lemma SetLineShape(rule: LineRule, line: string)
    requires SetsField(rule) && Untemplated(line, rule.key + ":")
    ensures var out := IndentOf(line) + rule.key + ": " + rule.template;
            && LinesFor(rule, line) == [out]
            && TrimSpace(out) == rule.key + ": " + rule.template
            && IndentOf(out) == IndentOf(line)
  {
    hide TrimSpace, IndentOf, Contains;
    var text := rule.key + ": " + rule.template;
    assert IndentOf(line) + rule.key + ": " + rule.template == IndentOf(line) + text;
    IndentedLine(line, text);
  }

  /** Two fields without a colon in their names are told apart by `name:`. */
  lemma FieldPrefix(key: string, rest: string, field: string)
    requires ':' !in key && ':' !in field
    ensures HasPrefix(key + ":" + rest, field + ":") <==> key == field
  {
    var s := key + ":" + rest;
    assert s[|key|] == ':';
    if HasPrefix(s, field + ":") {
      assert (field + ":")[|field|] == ':' == s[|field|];
      assert forall i | 0 <= i < |field| :: s[i] == field[i] && field[i] in field;
      assert forall i | 0 <= i < |key| :: s[i] == key[i] && key[i] in key;
      assert |key| == |field|;
      assert key == s[..|key|] == field;
    }
    assert s[..|key| + 1] == key + ":";
  }

  /** Setting a field twice is setting it once. */
  lemma SetLineIdempotent(rule: LineRule, line: string)
    requires SetsField(rule)
    ensures Apply(rule, LinesFor(rule, line)) == LinesFor(rule, line)
  {
    hide TrimSpace, IndentOf, Contains;
    var out := LinesFor(rule, line);
    if Untemplated(line, rule.key + ":") {
      SetLineShape(rule, line);
      ContainsRight(rule.key + ": ", rule.template, "{{");
      assert LinesFor(rule, out[0]) == [out[0]];
    }
    assert out[1..] == [];
  }

  /** A line rewritten for one field does not look like another field. */
  lemma OtherFieldUntouched(rule: LineRule, other: LineRule, line: string)
    requires SetsField(rule) && SetsField(other) && rule.key != other.key
    ensures Apply(other, LinesFor(rule, line)) ==
              if Untemplated(line, rule.key + ":") then LinesFor(rule, line) else LinesFor(other, line)
  {
    hide TrimSpace, IndentOf, Contains;
    var out := LinesFor(rule, line);
    assert out[1..] == [];
    if Untemplated(line, rule.key + ":") {
      SetLineShape(rule, line);
      assert rule.key + ": " + rule.template == rule.key + ":" + (" " + rule.template);
      FieldPrefix(rule.key, " " + rule.template, other.key);
    }
  }

  lemma {:induction false} NotBothFields(s: string, a: string, b: string)
    requires HasPrefix(s, a + ":") && HasPrefix(s, b + ":")
    requires ':' !in a && ':' !in b
    ensures a == b
  {
    var rest := s[|a| + 1..];
    assert s == a + ":" + rest;
    FieldPrefix(a, rest, b);
  }

  lemma SetLinesCommute(rule: LineRule, other: LineRule, line: string)
    requires SetsField(rule) && SetsField(other) && rule.key != other.key
    ensures Apply(other, LinesFor(rule, line)) == Apply(rule, LinesFor(other, line))
  {
    hide TrimSpace, IndentOf, Contains;
    OtherFieldUntouched(rule, other, line);
    OtherFieldUntouched(other, rule, line);
    if Untemplated(line, rule.key + ":") && Untemplated(line, other.key + ":") {
      NotBothFields(TrimSpace(line), rule.key, other.key);
    }
  }

  // ---------------------------------------------------------------- Lists of lines

  lemma {:induction false} ApplyCommutes(rule: LineRule, other: LineRule, lines: seq<string>)
    requires SetsField(rule) && SetsField(other) && rule.key != other.key
    ensures Apply(other, Apply(rule, lines)) == Apply(rule, Apply(other, lines))
  {
    if lines != [] {
      SetLinesCommute(rule, other, lines[0]);
      ApplyCommutes(rule, other, lines[1..]);
      ApplyAppend(other, LinesFor(rule, lines[0]), Apply(rule, lines[1..]));
      ApplyAppend(rule, LinesFor(other, lines[0]), Apply(other, lines[1..]));
    }
  }

  lemma {:induction false} ApplyIdempotent(rule: LineRule, lines: seq<string>)
    requires SetsField(rule)
    ensures Apply(rule, Apply(rule, lines)) == Apply(rule, lines)
  {
    if lines != [] {
      SetLineIdempotent(rule, lines[0]);
      ApplyIdempotent(rule, lines[1..]);
      ApplyAppend(rule, LinesFor(rule, lines[0]), Apply(rule, lines[1..]));
    }
  }

  // ---------------------------------------------------------------- Text and lines

  ghost predicate OneLineEach(lines: seq<string>) {
    forall line | line in lines :: '\n' !in line
  }

  lemma LinesOfText(lines: seq<string>)
    requires OneLineEach(lines)
    ensures LinesOf(TextOf(lines)) == if lines == [] then [""] else lines
  {
    assert ['\n'] == "\n";
    if lines != [] {
      SplitJoin(lines, '\n');
    }
  }

  lemma TextOfLines(raw: string)
    ensures TextOf(LinesOf(raw)) == raw && OneLineEach(LinesOf(raw))
  {
    assert ['\n'] == "\n";
    JoinSplit(raw, '\n');
    SplitPartsFree(raw, '\n');
  }

  lemma IndentOneLine(line: string)
    ensures '\n' !in IndentOf(line)
  {
    IndentIsSpaces(line);
  }

  lemma PullSecretLinesOneLine(indent: string)
    requires '\n' !in indent
    ensures OneLineEach([indent + WithPullSecret(), indent + "imagePullSecrets:", indent + "  - name: " + Action("."), indent + EndDirective()])
  {
    hide Action, Contains;
    ActionShape(".");
    assert '\n' !in WithPullSecret() by {
      assert '\n' !in "{{- " && '\n' !in "with .Values.imagePullSecret" && '\n' !in " }}";
    }
    assert '\n' !in "imagePullSecrets:" && '\n' !in "  - name: " && '\n' !in EndDirective();
  }

  lemma ImageLinesOneLine(indent: string)
    requires '\n' !in indent
    ensures OneLineEach([indent + "image: " + QuotedImageRef(), indent + "imagePullPolicy: Always"])
  {
  }

  lemma LinesForOneLine(rule: LineRule, line: string)
    requires SetsField(rule) || rule == SetImage || rule == AddPullSecrets
    requires '\n' !in line
    ensures OneLineEach(LinesFor(rule, line))
  {
    hide TrimSpace, IndentOf, Contains, Action;
    IndentOneLine(line);
    if rule.AddPullSecrets? {
      PullSecretLinesOneLine(IndentOf(line));
    } else if rule.SetImage? {
      ImageLinesOneLine(IndentOf(line));
    }
  }

  lemma {:induction false} ApplyOneLine(rule: LineRule, lines: seq<string>)
    requires SetsField(rule) || rule == SetImage || rule == AddPullSecrets
    requires OneLineEach(lines)
    ensures OneLineEach(Apply(rule, lines))
  {
    if lines != [] {
      assert lines[0] in lines;
      LinesForOneLine(rule, lines[0]);
      ApplyOneLine(rule, lines[1..]);
    }
  }

  lemma DirectiveOneLine(n: nat)
    ensures Clean(ResourcesDirective(n))
  {
    assert forall c | c in Decimal.Print(n) :: Decimal.IsDigit(c);
  }

  lemma ResourcesLinesOneLine(line: string)
    ensures OneLineEach(ResourcesLines(IndentOf(line)))
  {
    IndentOneLine(line);
    DirectiveOneLine(|IndentOf(line)| + 2);
  }

  lemma {:induction false} ElideOneLine(lines: seq<string>)
    requires OneLineEach(lines)
    ensures OneLineEach(Elide(lines))
    decreases |lines|
  {
    if lines != [] {
      assert lines[0] in lines;
      if OpensResources(lines[0]) {
        ResourcesLinesOneLine(lines[0]);
        var rest := SkipDeeper(lines[1..], |IndentOf(lines[0])| + 2);
        SkippedIsSuffix(lines[1..], |IndentOf(lines[0])| + 2);
        ElideOneLine(rest);
      } else {
        ElideOneLine(lines[1..]);
      }
    }
  }

  lemma EmptyLineStays(rule: LineRule)
    requires SetsField(rule) || rule == SetImage || rule == AddPullSecrets
    ensures Apply(rule, [""]) == [""]
    ensures Elide([""]) == [""]
  {
    assert TrimSpace("") == "";
    assert LinesFor(rule, "") == [""];
    assert [""][1..] == [];
  }

  /** One more pass over text is one more walk over the lines, even where a pass dropped every line. */
  lemma PassOnText(rule: LineRule, lines: seq<string>)
    requires SetsField(rule) || rule == SetImage || rule == AddPullSecrets
    requires OneLineEach(lines)
    ensures PassText(rule, TextOf(lines)) == TextOf(Apply(rule, lines))
    ensures OneLineEach(Apply(rule, lines))
  {
    LinesOfText(lines);
    EmptyLineStays(rule);
    ApplyOneLine(rule, lines);
  }

  lemma ElideOnText(lines: seq<string>)
    requires OneLineEach(lines)
    ensures ElideText(TextOf(lines)) == TextOf(Elide(lines))
    ensures OneLineEach(Elide(lines))
  {
    LinesOfText(lines);
    EmptyLineStays(SetImage);
    ElideOneLine(lines);
  }

  // ---------------------------------------------------------------- The Deployment pipeline

  /** The passes `transformDeployment` runs on the text, in its order. */
  function DeploymentText(raw: string): string {
    PassText(AddPullSecrets,
      PassText(SetAccount(),
        ElideText(
          PassText(SetReplicas(),
            PassText(SetImage,
              PassText(SetNamespace(), raw))))))
  }

  function DeploymentLines(lines: seq<string>): seq<string> {
    Apply(AddPullSecrets,
      Apply(SetAccount(),
        Elide(
          Apply(SetReplicas(),
            Apply(SetImage,
              Apply(SetNamespace(), lines))))))
  }

  /** Splitting and joining once around all passes gives what splitting and joining around each gives. */
  lemma PassesFuse(raw: string)
    ensures DeploymentText(raw) == TextOf(DeploymentLines(LinesOf(raw)))
  {
    KnownRules();
    TextOfLines(raw);
    var l0 := LinesOf(raw);
    PassOnText(SetNamespace(), l0);
    var l1 := Apply(SetNamespace(), l0);
    PassOnText(SetImage, l1);
    var l2 := Apply(SetImage, l1);
    PassOnText(SetReplicas(), l2);
    var l3 := Apply(SetReplicas(), l2);
    ElideOnText(l3);
    var l4 := Elide(l3);
    PassOnText(SetAccount(), l4);
    PassOnText(AddPullSecrets, Apply(SetAccount(), l4));
  }

  // ---------------------------------------------------------------- Field passes and the resources block

  /** How a rule treats the lines the block skipping looks at. */
  ghost predicate KeepsBlocks(rule: LineRule, line: string) {
    var out := LinesFor(rule, line);
    && out != []
    && |IndentOf(out[0])| == |IndentOf(line)|
    && (Blank(line) || OpensResources(line) ==> out == [line])
    && (!Blank(line) && !OpensResources(line) ==>
          forall l | l in out :: !Blank(l) && !OpensResources(l) && |IndentOf(l)| >= |IndentOf(line)|)
  }

  lemma SetKeepsBlocks(rule: LineRule, line: string)
    requires SetsField(rule)
    ensures KeepsBlocks(rule, line)
  {
    hide TrimSpace, IndentOf, Contains;
    if Untemplated(line, rule.key + ":") {
      SetLineShape(rule, line);
      FieldIsNoBlock(rule.key, TrimSpace(line));
      assert rule.key + ": " + rule.template == rule.key + ":" + (" " + rule.template);
      NotTheBlock(rule.key, " " + rule.template);
    }
  }

  lemma FieldIsNoBlock(key: string, text: string)
    requires HasPrefix(text, key + ":") && ':' !in key && key != "resources"
    ensures text != "resources:" && text != ""
  {
    var rest := text[|key| + 1..];
    assert text == key + ":" + rest;
    NotTheBlock(key, rest);
  }

  lemma NotTheBlock(key: string, rest: string)
    requires ':' !in key && key != "resources"
    ensures key + ":" + rest != "resources:" && key + ":" + rest != ""
  {
    FieldPrefix(key, rest, "resources");
    assert "resources" + ":" == "resources:";
  }

  lemma PullSecretLine(line: string, text: string)
    requires Clean(text) && text[0] != 'r'
    ensures var l := IndentOf(line) + text;
            !Blank(l) && !OpensResources(l) && |IndentOf(l)| == |IndentOf(line)|
  {
    IndentedLine(line, text);
  }

  lemma TwoMoreSpaces(n: nat)
    ensures Spaces(n) + "  " == Spaces(n + 2)
  {
  }

  lemma ItemAfterIndent(indent: string, value: string)
    ensures indent + "  - name: " + value == indent + "  " + ("- name: " + value)
  {
  }

  lemma SecretItemClean()
    ensures var item := "- name: " + Action("."); Clean(item) && item[0] == '-'
    ensures "resources:"[0] == 'r'
  {
    hide Action, Contains;
    ActionShape(".");
    var item := "- name: " + Action(".");
    assert item[|item| - 1] == Action(".")[|Action(".")| - 1];
    assert '\n' !in "- name: ";
  }

  lemma PullSecretItem(line: string)
    ensures var l := IndentOf(line) + "  - name: " + Action(".");
            !Blank(l) && !OpensResources(l) && |IndentOf(l)| == |IndentOf(line)| + 2
  {
    hide TrimSpace, IndentOf, Contains, Action, Clean, Spaces;
    var item := "- name: " + Action(".");
    IndentIsSpaces(line);
    var n := |IndentOf(line)|;
    TwoMoreSpaces(n);
    ItemAfterIndent(IndentOf(line), Action("."));
    SecretItemClean();
    TrimClean(n + 2, item);
    assert |Spaces(n + 2)| == n + 2;
  }

  lemma PullSecretsKeepBlocks(line: string)
    ensures KeepsBlocks(AddPullSecrets, line)
  {
    hide TrimSpace, IndentOf, Contains, Action;
    if HasPrefix(TrimSpace(line), "serviceAccountName:") {
      PullSecretLine(line, WithPullSecret());
      PullSecretLine(line, "imagePullSecrets:");
      PullSecretLine(line, EndDirective());
      PullSecretItem(line);
      assert "serviceAccountName:"[0] != "resources:"[0];
    }
  }

  lemma FieldRuleKeepsBlocks(rule: LineRule, line: string)
    requires SetsField(rule) || rule == AddPullSecrets
    ensures KeepsBlocks(rule, line)
  {
    if rule == AddPullSecrets {
      PullSecretsKeepBlocks(line);
    } else {
      SetKeepsBlocks(rule, line);
    }
  }

  /** The two lines that replace a block are no field a rule looks for. */
  lemma HeaderUntouched(rule: LineRule, line: string)
    requires SetsField(rule) || rule == AddPullSecrets
    ensures LinesFor(rule, IndentOf(line) + "resources:") == [IndentOf(line) + "resources:"]
  {
    hide TrimSpace, IndentOf, Contains;
    IndentedLine(line, "resources:");
    if rule.SetValue? {
      assert "resources:" == "resources" + ":" + "";
      FieldPrefix("resources", "", rule.key);
    }
  }

  lemma DirectiveLine(line: string)
    ensures var n := |IndentOf(line)| + 2;
            && TrimSpace(IndentOf(line) + "  " + ResourcesDirective(n)) == ResourcesDirective(n)
            && IndentOf(IndentOf(line) + "  " + ResourcesDirective(n)) == Spaces(n)
  {
    hide TrimSpace, IndentOf, ResourcesDirective, Spaces, Clean;
    var n := |IndentOf(line)|;
    IndentIsSpaces(line);
    TwoMoreSpaces(n);
    DirectiveOneLine(n + 2);
    TrimClean(n + 2, ResourcesDirective(n + 2));
  }

  lemma DirectiveUntouched(rule: LineRule, line: string)
    requires SetsField(rule) || rule == AddPullSecrets
    ensures var d := IndentOf(line) + "  " + ResourcesDirective(|IndentOf(line)| + 2);
            LinesFor(rule, d) == [d]
  {
    hide TrimSpace, IndentOf, Contains;
    DirectiveLine(line);
    assert ResourcesDirective(|IndentOf(line)| + 2)[0] == '{';
    if rule.SetValue? {
      assert rule.key[0] in rule.key;
      assert (rule.key + ":")[0] == rule.key[0];
    }
  }

  /** The two lines that replace a block are no field a rule looks for. */
  lemma BlockLinesUntouched(rule: LineRule, line: string)
    requires SetsField(rule) || rule == AddPullSecrets
    ensures Apply(rule, ResourcesLines(IndentOf(line))) == ResourcesLines(IndentOf(line))
  {
    hide TrimSpace, IndentOf, Contains, LinesFor, ResourcesDirective;
    HeaderUntouched(rule, line);
    DirectiveUntouched(rule, line);
    var lines := ResourcesLines(IndentOf(line));
    assert lines[1..] == [lines[1]] && lines[1..][1..] == [];
    assert Apply(rule, [lines[1]]) == [lines[1]] + Apply(rule, []);
  }

  lemma {:induction false} SkipAllOf(lines: seq<string>, rest: seq<string>, base: nat)
    requires forall l | l in lines :: Blank(l) || |IndentOf(l)| >= base
    ensures SkipDeeper(lines + rest, base) == SkipDeeper(rest, base)
  {
    hide TrimSpace, IndentOf, Contains;
    if lines == [] {
      assert lines + rest == rest;
    } else {
      assert lines[0] in lines;
      assert (lines + rest)[1..] == lines[1..] + rest;
      SkipAllOf(lines[1..], rest, base);
    }
  }

  lemma {:induction false} SkipCommutes(rule: LineRule, lines: seq<string>, base: nat)
    requires SetsField(rule) || rule == AddPullSecrets
    ensures SkipDeeper(Apply(rule, lines), base) == Apply(rule, SkipDeeper(lines, base))
  {
    hide TrimSpace, IndentOf, Contains, LinesFor, SetsField;
    if lines != [] {
      var out := LinesFor(rule, lines[0]);
      FieldRuleKeepsBlocks(rule, lines[0]);
      if Blank(lines[0]) || |IndentOf(lines[0])| >= base {
        SkipAllOf(out, Apply(rule, lines[1..]), base);
        SkipCommutes(rule, lines[1..], base);
      } else {
        assert (out + Apply(rule, lines[1..]))[0] == out[0];
      }
    }
  }

  lemma {:induction false} ElideNoBlock(lines: seq<string>, rest: seq<string>)
    requires forall l | l in lines :: !OpensResources(l)
    ensures Elide(lines + rest) == lines + Elide(rest)
  {
    hide TrimSpace, IndentOf, Contains;
    if lines == [] {
      assert lines + rest == rest;
    } else {
      assert lines[0] in lines;
      assert (lines + rest)[1..] == lines[1..] + rest;
      ElideNoBlock(lines[1..], rest);
      assert lines == [lines[0]] + lines[1..];
    }
  }

  /** Setting fields and adding pull secrets commute with replacing the resources blocks. */
  lemma {:induction false} ElideCommutes(rule: LineRule, lines: seq<string>)
    requires SetsField(rule) || rule == AddPullSecrets
    ensures Elide(Apply(rule, lines)) == Apply(rule, Elide(lines))
    decreases |lines|
  {
    hide TrimSpace, IndentOf, Contains, LinesFor, ResourcesLines, SetsField, KeepsBlocks, SkipDeeper, OpensResources;
    if lines != [] {
      if OpensResources(lines[0]) {
        var rest := SkipDeeper(lines[1..], |IndentOf(lines[0])| + 2);
        ElideCommutes(rule, rest);
        BlockCommutes(rule, lines);
      } else {
        ElideCommutes(rule, lines[1..]);
        OtherLineCommutes(rule, lines);
      }
    }
  }

  lemma BlockCommutes(rule: LineRule, lines: seq<string>)
    requires SetsField(rule) || rule == AddPullSecrets
    requires lines != [] && OpensResources(lines[0])
    requires var rest := SkipDeeper(lines[1..], |IndentOf(lines[0])| + 2);
             Elide(Apply(rule, rest)) == Apply(rule, Elide(rest))
    ensures Elide(Apply(rule, lines)) == Apply(rule, Elide(lines))
  {
    hide TrimSpace, IndentOf, Contains, LinesFor, ResourcesLines, SetsField, SkipDeeper, OpensResources;
    var line := lines[0];
    var indent := IndentOf(line);
    var base := |indent| + 2;
    var rest := Apply(rule, lines[1..]);
    FieldRuleKeepsBlocks(rule, line);
    assert LinesFor(rule, line) == [line];
    assert Apply(rule, lines) == [line] + rest && ([line] + rest)[1..] == rest;
    SkipCommutes(rule, lines[1..], base);
    BlockLinesUntouched(rule, line);
    ApplyAppend(rule, ResourcesLines(indent), Elide(SkipDeeper(lines[1..], base)));
  }

  lemma OtherLineCommutes(rule: LineRule, lines: seq<string>)
    requires SetsField(rule) || rule == AddPullSecrets
    requires lines != [] && !OpensResources(lines[0])
    requires Elide(Apply(rule, lines[1..])) == Apply(rule, Elide(lines[1..]))
    ensures Elide(Apply(rule, lines)) == Apply(rule, Elide(lines))
  {
    hide TrimSpace, IndentOf, Contains, LinesFor, ResourcesLines, SetsField, SkipDeeper, OpensResources;
    var line := lines[0];
    var out := LinesFor(rule, line);
    FieldRuleKeepsBlocks(rule, line);
    ElideNoBlock(out, Apply(rule, lines[1..]));
    ApplyAppend(rule, [line], Elide(lines[1..]));
    assert [line][1..] == [];
    assert Apply(rule, [line]) == out + Apply(rule, []);
    assert out + [] == out;
    assert Elide(lines) == [line] + Elide(lines[1..]);
  }

  // ---------------------------------------------------------------- Laws on text

  /** The field passes commute pairwise, and with replacing the resources blocks, on every string. */
  lemma PassesCommute(rule: LineRule, other: LineRule, raw: string)
    requires SetsField(rule) && SetsField(other) && rule.key != other.key
    ensures PassText(rule, PassText(other, raw)) == PassText(other, PassText(rule, raw))
    ensures PassText(rule, ElideText(raw)) == ElideText(PassText(rule, raw))
  {
    TextOfLines(raw);
    var lines := LinesOf(raw);
    PassOnText(rule, lines);
    PassOnText(other, lines);
    PassOnText(rule, Apply(other, lines));
    PassOnText(other, Apply(rule, lines));
    ElideOnText(lines);
    PassOnText(rule, Elide(lines));
    ElideOnText(Apply(rule, lines));
    ElideCommutes(rule, lines);
    ApplyCommutes(rule, other, lines);
  }

  /** A field pass run again changes nothing, on every string. */
  lemma FieldPassIdempotent(rule: LineRule, raw: string)
    requires SetsField(rule)
    ensures PassText(rule, PassText(rule, raw)) == PassText(rule, raw)
  {
    TextOfLines(raw);
    PassOnText(rule, LinesOf(raw));
    PassOnText(rule, Apply(rule, LinesOf(raw)));
    ApplyIdempotent(rule, LinesOf(raw));
  }

  lemma {:induction false} SkipStops(lines: seq<string>, base: nat)
    ensures var rest := SkipDeeper(lines, base); rest != [] ==> !Blank(rest[0]) && |IndentOf(rest[0])| < base
  {
    if lines != [] && (Blank(lines[0]) || |IndentOf(lines[0])| >= base) {
      SkipStops(lines[1..], base);
    }
  }

  lemma BlockLinesShape(line: string)
    ensures var b := ResourcesLines(IndentOf(line));
            && OpensResources(b[0]) && !OpensResources(b[1])
            && IndentOf(b[0]) == IndentOf(line) && |IndentOf(b[1])| == |IndentOf(line)| + 2
  {
    hide TrimSpace, IndentOf;
    IndentedLine(line, "resources:");
    DirectiveLine(line);
    assert ResourcesDirective(|IndentOf(line)| + 2)[0] == '{';
  }

  /** Eliding keeps the first line's indent and visibility. */
  lemma ElideFirst(lines: seq<string>)
    requires lines != [] && !Blank(lines[0])
    ensures var out := Elide(lines); out != [] && !Blank(out[0]) && IndentOf(out[0]) == IndentOf(lines[0])
  {
    if OpensResources(lines[0]) {
      BlockLinesShape(lines[0]);
    }
  }

  lemma BlockLinesLength(line: string)
    ensures |ResourcesLines(IndentOf(line))| == 2
  {
  }

  /** Skipping drops a deeper line, and stops at once where it has stopped before. */
  lemma SkipOne(line: string, rest: seq<string>, base: nat)
    requires |IndentOf(line)| >= base
    requires rest != [] ==> !Blank(rest[0]) && |IndentOf(rest[0])| < base
    ensures SkipDeeper([line] + rest, base) == rest
  {
    hide TrimSpace, IndentOf, Blank;
    assert ([line] + rest)[1..] == rest;
  }

  lemma NothingElided()
    ensures Elide([]) == []
  {
  }

  lemma ElideBlockLines(line: string, rest: seq<string>)
    requires OpensResources(line)
    ensures Elide([line] + rest) == ResourcesLines(IndentOf(line)) + Elide(SkipDeeper(rest, |IndentOf(line)| + 2))
  {
    hide TrimSpace, IndentOf, ResourcesLines, SkipDeeper, OpensResources;
    assert ([line] + rest)[1..] == rest;
  }

  /** A replaced block is replaced by itself. */
  lemma SettledBlock(header: string, directive: string, out: seq<string>)
    requires OpensResources(header) && ResourcesLines(IndentOf(header)) == [header, directive]
    requires |IndentOf(directive)| == |IndentOf(header)| + 2
    requires out != [] ==> !Blank(out[0]) && |IndentOf(out[0])| < |IndentOf(header)| + 2
    ensures Elide([header, directive] + out) == [header, directive] + Elide(out)
  {
    hide TrimSpace, IndentOf, ResourcesLines, SkipDeeper, OpensResources, Blank, Elide;
    SkipOne(directive, out, |IndentOf(header)| + 2);
    ElideBlockLines(header, [directive] + out);
    assert [header, directive] + out == [header] + ([directive] + out);
  }

  lemma BlockSettles(lines: seq<string>)
    requires lines != [] && OpensResources(lines[0])
    requires var out := Elide(SkipDeeper(lines[1..], |IndentOf(lines[0])| + 2)); Elide(out) == out
    ensures Elide(Elide(lines)) == Elide(lines)
  {
    hide TrimSpace, IndentOf, Contains, ResourcesLines, SkipDeeper, OpensResources, Blank, Elide;
    var block := ResourcesLines(IndentOf(lines[0]));
    var base := |IndentOf(lines[0])| + 2;
    var rest := SkipDeeper(lines[1..], base);
    BlockLinesShape(lines[0]);
    BlockLinesLength(lines[0]);
    SkipStops(lines[1..], base);
    NothingElided();
    if rest != [] {
      ElideFirst(rest);
    }
    assert block == [block[0], block[1]];
    SettledBlock(block[0], block[1], Elide(rest));
    ElideBlockLines(lines[0], lines[1..]);
    assert lines == [lines[0]] + lines[1..];
  }

  lemma {:induction false} ElideIdempotent(lines: seq<string>)
    ensures Elide(Elide(lines)) == Elide(lines)
    decreases |lines|
  {
    hide TrimSpace, IndentOf, Contains, ResourcesLines, SkipDeeper, OpensResources, Blank;
    if lines != [] {
      if OpensResources(lines[0]) {
        ElideIdempotent(SkipDeeper(lines[1..], |IndentOf(lines[0])| + 2));
        BlockSettles(lines);
      } else {
        ElideIdempotent(lines[1..]);
        assert Elide(lines)[1..] == Elide(lines[1..]);
      }
    }
  }

  /** Replacing the resources blocks again changes nothing, on every string. */
  lemma ResourcesPassIdempotent(raw: string)
    ensures ElideText(ElideText(raw)) == ElideText(raw)
  {
    TextOfLines(raw);
    ElideOnText(LinesOf(raw));
    ElideOnText(Elide(LinesOf(raw)));
    ElideIdempotent(LinesOf(raw));
  }
}
