/** How each piece of template text the compiler emits renders. */
module EmittedRendering {
  import opened Wrappers
  import opened GoStrings
  import opened LinePasses
  import opened PassLaws
  import opened Yaml
  import opened HelmTemplate
  import Decimal

  // ---------------------------------------------------------------- toYaml | nindent

  lemma ShiftAppend(a: seq<Row>, b: seq<Row>, offset: nat)
    ensures Shift(a + b, offset) == Shift(a, offset) + Shift(b, offset)
  {
  }

  lemma DashShift(indent: nat, body: seq<Row>, offset: nat)
    ensures Dash(indent + offset, Shift(body, offset)) == Shift(Dash(indent, body), offset)
  {
    if body != [] {
      var first := [Row(indent, "- " + body[0].content)];
      ShiftAppend(first, body[1..], offset);
      RowShift("- " + body[0].content, indent, offset);
      assert Shift(body, offset)[1..] == Shift(body[1..], offset);
    }
  }

  lemma {:induction false} PrintShift(entries: Entries, indent: nat, offset: nat)
    ensures PrintEntries(entries, indent + offset) == Shift(PrintEntries(entries, indent), offset)
    decreases entries
  {
    hide Shift;
    match entries
    case NoEntries => assert Shift([], offset) == [];
    case Entry(key, value, rest) =>
      PrintEntryShift(key, value, indent, offset);
      PrintShift(rest, indent, offset);
      ShiftAppend(PrintEntry(key, value, indent), PrintEntries(rest, indent), offset);
    case Splice(rows, rest) =>
      PrintShift(rest, indent, offset);
      ShiftTwice(rows, indent, offset);
      ShiftAppend(Shift(rows, indent), PrintEntries(rest, indent), offset);
  }

  lemma ShiftTwice(rows: seq<Row>, a: nat, b: nat)
    ensures Shift(rows, a + b) == Shift(Shift(rows, a), b)
  {
  }

  lemma {:induction false} PrintEntryShift(key: string, value: Node, indent: nat, offset: nat)
    ensures PrintEntry(key, value, indent + offset) == Shift(PrintEntry(key, value, indent), offset)
    decreases value
  {
    hide Shift;
    var header := [Row(indent, key + ":")];
    HeaderShift(key, indent, offset);
    match value
    case Scalar(text) => RowShift(key + ": " + text, indent, offset);
    case Mapping(entries) =>
      PrintShift(entries, indent + 2, offset);
      assert indent + 2 + offset == indent + offset + 2;
      ShiftAppend(header, PrintEntries(entries, indent + 2), offset);
    case Sequence(items) =>
      PrintItemsShift(items, indent, offset);
      ShiftAppend(header, PrintItems(items, indent), offset);
  }

  lemma RowShift(content: string, indent: nat, offset: nat)
    ensures Shift([Row(indent, content)], offset) == [Row(indent + offset, content)]
  {
  }

  lemma HeaderShift(key: string, indent: nat, offset: nat)
    ensures Shift([Row(indent, key + ":")], offset) == [Row(indent + offset, key + ":")]
  {
    RowShift(key + ":", indent, offset);
  }

  lemma {:induction false} PrintItemShift(value: Node, indent: nat, offset: nat)
    ensures PrintItem(value, indent + offset) == Shift(PrintItem(value, indent), offset)
    decreases value
  {
    match value
    case Scalar(_) =>
    case Mapping(entries) => PrintShift(entries, indent, offset);
    case Sequence(items) => PrintItemsShift(items, indent, offset);
  }

  lemma {:induction false} PrintItemsShift(items: Items, indent: nat, offset: nat)
    ensures PrintItems(items, indent + offset) == Shift(PrintItems(items, indent), offset)
    decreases items
  {
    match items
    case NoItems =>
    case Item(value, rest) =>
      hide Shift, Dash;
      PrintItemShift(value, indent + 2, offset);
      assert indent + 2 + offset == indent + offset + 2;
      PrintItemsShift(rest, indent, offset);
      DashShift(indent, PrintItem(value, indent + 2), offset);
      ShiftAppend(Dash(indent, PrintItem(value, indent + 2)), PrintItems(rest, indent), offset);
  }

  lemma {:induction false} PadAppend(pad: string, a: string, b: string)
    ensures PadNewlines(pad, a + b) == PadNewlines(pad, a) + PadNewlines(pad, b)
  {
    if a == "" {
      assert a + b == b;
    } else {
      assert (a + b)[0] == a[0] && (a + b)[1..] == a[1..] + b;
      PadAppend(pad, a[1..], b);
    }
  }

  lemma {:induction false} PadOneLine(pad: string, a: string)
    requires '\n' !in a
    ensures PadNewlines(pad, a) == a
  {
    if a != "" {
      PadOneLine(pad, a[1..]);
    }
  }

  lemma ShiftedRow(row: Row, n: nat)
    ensures RowText(Row(row.indent + n, row.content)) == Spaces(n) + RowText(row)
  {
    assert Spaces(row.indent + n) == Spaces(n) + Spaces(row.indent);
  }

  lemma PadTwo(pad: string, first: string, rest: string)
    requires '\n' !in first
    ensures PadNewlines(pad, first + "\n" + rest) == first + ("\n" + pad + PadNewlines(pad, rest))
  {
    hide PadNewlines;
    PadAppend(pad, first + "\n", rest);
    PadAppend(pad, first, "\n");
    PadOneLine(pad, first);
    PadNewline(pad);
    assert first + ("\n" + pad) + PadNewlines(pad, rest) == first + ("\n" + pad + PadNewlines(pad, rest));
  }

  lemma NindentTwo(n: nat, first: string, rest: string)
    requires '\n' !in first
    ensures Nindent(n, first + "\n" + rest) == "\n" + (Spaces(n) + first) + Nindent(n, rest)
  {
    PadTwo(Spaces(n), first, rest);
    var tail := "\n" + Spaces(n) + PadNewlines(Spaces(n), rest);
    assert "\n" + Spaces(n) + (first + tail) == "\n" + (Spaces(n) + first) + tail;
  }

  /** Indenting the text of rows is shifting the rows. */
  lemma {:induction false} NindentRows(n: nat, rows: seq<Row>)
    requires rows != [] && GoodRows(rows)
    ensures Nindent(n, Join(Texts(rows), "\n")) == Block(Shift(rows, n))
  {
    hide RowText, GoodRow, Spaces, PadNewlines;
    var first := RowText(rows[0]);
    assert rows[0] in rows;
    RowLine(rows[0]);
    ShiftedRow(rows[0], n);
    assert Texts(rows)[1..] == Texts(rows[1..]);
    assert Shift(rows, n)[1..] == Shift(rows[1..], n);
    if |rows| > 1 {
      NindentRows(n, rows[1..]);
      NindentTwo(n, first, Join(Texts(rows[1..]), "\n"));
    } else {
      PadOneLine(Spaces(n), first);
      assert "\n" + Spaces(n) + first == "\n" + (Spaces(n) + first) + "";
    }
  }

  lemma PadNewline(pad: string)
    ensures PadNewlines(pad, "\n") == "\n" + pad
  {
    assert "\n"[1..] == "";
    assert "\n" + pad + "" == "\n" + pad;
  }

  lemma NindentEntries(n: nat, entries: Entries)
    requires PrintableEntries(entries) && entries != NoEntries
    ensures Nindent(n, ToYaml(entries)) == Block(PrintEntries(entries, n))
  {
    hide RowText, GoodRow;
    EntriesGood(entries, 0);
    NindentRows(n, PrintEntries(entries, 0));
    PrintShift(entries, 0, n);
  }

  // ---------------------------------------------------------------- Expressions

  /** The compiler writes expressions the renderer knows. */
  lemma EmittedExpressions()
    ensures ReleaseNamespace() == NamespaceReference() && ReplicasValue() == ReplicasReference()
    ensures AccountExpression() == AccountDefault() && ImageExpression() == ImageInclude()
  {
  }

  lemma ExpressionsApart(env: Env, dot: Dot)
    ensures With(env, ReleaseNamespace()) == None && Value(env, ReleaseNamespace(), dot) == Some(env.release.namespace)
    ensures With(env, ReplicasValue()) == None && Value(env, ReplicasValue(), dot) == Some(env.values.replicas)
    ensures With(env, ImageExpression()) == None && Value(env, ImageExpression(), dot) == Some(ImageRef(env))
  {
    hide ImageRef, AccountName;
    EmittedExpressions();
    assert ReleaseNamespace()[0] == '.' && ReplicasValue()[0] == '.' && ImageExpression()[0] == 'i';
    assert ReplicasValue()[1] == 'V' && ReleaseNamespace()[1] == 'R';
    assert AccountExpression()[0] == 'd';
    assert "with .Values.imagePullSecret"[0] == 'w' && "with .Values.serviceAccount.annotations"[0] == 'w';
  }

  lemma AccountExpressionValue(env: Env, dot: Dot)
    ensures With(env, AccountExpression()) == None && Value(env, AccountExpression(), dot) == Some(AccountName(env))
    ensures AccountExpression() != "end"
  {
    hide ImageRef, AccountName;
    EmittedExpressions();
    assert ReleaseNamespace()[0] == '.' && ReplicasValue()[0] == '.';
    assert AccountExpression()[0] == 'd';
    assert "with .Values.imagePullSecret"[0] == 'w' && "with .Values.serviceAccount.annotations"[0] == 'w';
    assert "end"[0] == 'e';
  }

  lemma RendersNamespace(env: Env, indent: nat)
    ensures Renders(env, [Row(indent, "namespace: " + Action(ReleaseNamespace()))],
                         [Row(indent, "namespace: " + env.release.namespace)])
  {
    hide Renders, With, Value, Action;
    ExpressionsApart(env, NoDot);
    RendersField(env, indent, "namespace:", ReleaseNamespace(), env.release.namespace);
    assert "namespace:" + " " + Action(ReleaseNamespace()) == "namespace: " + Action(ReleaseNamespace());
    assert "namespace:" + " " + env.release.namespace == "namespace: " + env.release.namespace;
  }

  lemma RendersReplicas(env: Env, indent: nat)
    ensures Renders(env, [Row(indent, "replicas: " + Action(ReplicasValue()))], [Row(indent, "replicas: " + env.values.replicas)])
  {
    hide Renders, With, Value, Action;
    ExpressionsApart(env, NoDot);
    RendersField(env, indent, "replicas:", ReplicasValue(), env.values.replicas);
    assert "replicas:" + " " + Action(ReplicasValue()) == "replicas: " + Action(ReplicasValue());
    assert "replicas:" + " " + env.values.replicas == "replicas: " + env.values.replicas;
  }

  lemma AccountExpressionClean()
    ensures Clean(AccountExpression()) && '}' !in AccountExpression() && AccountExpression()[0] == 'd'
  {
    AccountNameOneLine();
    assert '}' !in "default (include \"chart.fullname\" .)";
    assert '}' !in " .Values.serviceAccount.name";
  }

  /** Under any key without braces, `serviceAccountName` in a Deployment and `name` elsewhere. */
  lemma RendersAccount(env: Env, indent: nat, key: string)
    requires Clean(key) && '{' !in key
    ensures Renders(env, [Row(indent, key + ": " + Action(AccountExpression()))], [Row(indent, key + ": " + AccountName(env))])
  {
    hide Renders, With, Value, Action, AccountName;
    AccountExpressionValue(env, NoDot);
    AccountExpressionClean();
    CleanConcat(key, ":");
    RendersField(env, indent, key + ":", AccountExpression(), AccountName(env));
    assert key + ":" + " " + Action(AccountExpression()) == key + ": " + Action(AccountExpression());
    assert key + ":" + " " + AccountName(env) == key + ": " + AccountName(env);
  }

  function Quoted(s: string): string {
    "\"" + s + "\""
  }

  lemma RendersImage(env: Env, indent: nat)
    ensures Renders(env, [Row(indent, "image: " + QuotedImageRef())], [Row(indent, "image: " + Quoted(ImageRef(env)))])
  {
    hide Eval, With, Value, Action, ImageRef, IsSpace;
    ExpressionsApart(env, NoDot);
    var template, row := Row(indent, "image: " + QuotedImageRef()), Row(indent, "image: " + Quoted(ImageRef(env)));
    ImageFieldClean();
    forall r, out | LineEnd(r)
      ensures RendersAt(env, [template], [row], r, out)
    {
      EvalField(env, indent, "image:", " \"", ImageExpression(), "\"", r, out, NoDot, ImageRef(env));
      OneBlock(template);
      OneBlock(row);
      var margin := "\n" + Spaces(indent);
      assert margin + ("image: " + QuotedImageRef()) + r == margin + "image:" + " \"" + Action(ImageExpression()) + "\"" + r;
      assert out + (margin + ("image: " + Quoted(ImageRef(env)))) == out + margin + "image:" + " \"" + ImageRef(env) + "\"";
    }
  }

  lemma ImageFieldClean()
    ensures Clean("image:") && '{' !in "image:"
    ensures Clean(ImageExpression()) && '}' !in ImageExpression() && ImageExpression()[0] == 'i' && ImageExpression() != "end"
  {
  }

  // ---------------------------------------------------------------- Blocks of rows

  lemma {:induction false} TrimActionRow(env: Env, indent: nat, e: string, r: string, out: string, dot: Dot)
    requires Clean(e) && '}' !in e
    ensures Eval(env, "\n" + Spaces(indent) + TrimAction(e) + r, out, "", dot) == Act(env, e, r, out, dot)
  {
    hide Eval, Act, TrimAction, IsSpace;
    var margin := "\n" + Spaces(indent);
    MarginIsSpace(indent);
    assert margin + TrimAction(e) + r == margin + (TrimAction(e) + r);
    EvalSpace(env, margin, TrimAction(e) + r, out, "", dot);
    EvalTrimAction(env, e, r, out, "" + margin, dot);
  }

  lemma {:induction false} LiteralRow(env: Env, row: Row, r: string, out: string, dot: Dot)
    requires GoodRow(row) && !Contains(row.content, "{{") && LineEnd(r)
    ensures Eval(env, "\n" + RowText(row) + r, out, "", dot) == Eval(env, r, out + "\n" + RowText(row), "", dot)
  {
    hide Eval, Contains, IsSpace;
    var margin := "\n" + Spaces(row.indent);
    MarginIsSpace(row.indent);
    BracesAfterPlain(margin, row.content);
    EvalLiteral(env, margin + row.content, r, out, "", dot);
    assert margin + row.content == "\n" + RowText(row);
    assert out + "" + (margin + row.content) == out + "\n" + RowText(row);
  }

  lemma DigitsClean(n: nat)
    ensures Clean(Decimal.Print(n)) && '}' !in Decimal.Print(n)
  {
    var d := Decimal.Print(n);
    assert forall c | c in d :: Decimal.IsDigit(c);
    assert d[0] in d && d[|d| - 1] in d;
  }

  function ResourcesExpression(n: nat): string {
    ToYamlResources() + Decimal.Print(n)
  }

  lemma ResourcesExpressionClean(n: nat)
    ensures Clean(ResourcesExpression(n)) && '}' !in ResourcesExpression(n)
  {
    DigitsClean(n);
    assert '}' !in ToYamlResources() && '\n' !in ToYamlResources() && ToYamlResources()[0] == 't';
  }

  lemma DirectiveGroups(e: string, digits: string)
    ensures "{{- " + e + digits + " }}" == "{{- " + (e + digits) + " }}"
  {
  }

  lemma ResourcesDirectiveIsAction(n: nat)
    ensures ResourcesDirective(n) == TrimAction(ResourcesExpression(n))
  {
    DirectiveGroups(ToYamlResources(), Decimal.Print(n));
  }

  lemma ResourcesValue(env: Env, n: nat)
    ensures With(env, ResourcesExpression(n)) == None && ResourcesExpression(n) != "end"
    ensures Value(env, ResourcesExpression(n), NoDot) == Some(Nindent(n, ToYaml(env.values.resources)))
  {
    hide Nindent, ToYaml, AccountName, ImageRef;
    var e := ResourcesExpression(n);
    assert e[0] == 't' && e[|ToYamlResources()|..] == Decimal.Print(n);
    Decimal.ValueOfPrint(n);
    assert ReleaseNamespace()[0] == '.' && ReplicasValue()[0] == '.' && AccountExpression()[0] == 'd' && ImageExpression()[0] == 'i';
    assert "with .Values.imagePullSecret"[0] == 'w' && "with .Values.serviceAccount.annotations"[0] == 'w';
    assert "end"[0] == 'e';
  }

  lemma TwoBlock(a: Row, b: Row)
    ensures Block([a, b]) == "\n" + RowText(a) + ("\n" + RowText(b))
  {
    hide RowText;
    assert [a, b][1..] == [b] && [b][1..] == [];
    assert Block([b]) == "\n" + RowText(b) + "";
  }

  lemma RendersResourcesAt(env: Env, indent: nat, r: string, out: string)
    requires PrintableEntries(env.values.resources) && env.values.resources != NoEntries && LineEnd(r)
    ensures var text := "\n" + RowText(Row(indent, "resources:"));
            Eval(env, text + ("\n" + Spaces(indent + 2) + ResourcesDirective(indent + 2)) + r, out, "", NoDot)
            == Eval(env, r, out + text + Block(PrintEntries(env.values.resources, indent + 2)), "", NoDot)
  {
    hide Eval, Act, Value, With, Contains, ResourcesExpression, PrintableEntries, PrintEntries, TrimAction, Block, RowText, Nindent;
    var header := Row(indent, "resources:");
    var e := ResourcesExpression(indent + 2);
    var text := "\n" + RowText(header);
    var tail := "\n" + Spaces(indent + 2) + TrimAction(e) + r;
    ResourcesDirectiveIsAction(indent + 2);
    ResourcesExpressionClean(indent + 2);
    ResourcesValue(env, indent + 2);
    NindentEntries(indent + 2, env.values.resources);
    NoBraceNoAction("resources:");
    assert text + ("\n" + Spaces(indent + 2) + TrimAction(e)) + r == text + tail;
    assert out + "\n" + RowText(header) == out + text;
    LiteralRow(env, header, tail, out, NoDot);
    TrimActionRow(env, indent + 2, e, r, out + text, NoDot);
    ActValue(env, e, r, out + text, NoDot, Nindent(indent + 2, ToYaml(env.values.resources)));
  }

  /** The resources block renders to the resources of the values file. */
  lemma RendersResources(env: Env, indent: nat)
    requires PrintableEntries(env.values.resources) && env.values.resources != NoEntries
    ensures Renders(env, [Row(indent, "resources:"), Row(indent + 2, ResourcesDirective(indent + 2))],
                         [Row(indent, "resources:")] + PrintEntries(env.values.resources, indent + 2))
  {
    hide Eval, PrintableEntries, PrintEntries, Block, ResourcesDirective;
    var header, directive := Row(indent, "resources:"), Row(indent + 2, ResourcesDirective(indent + 2));
    var body := PrintEntries(env.values.resources, indent + 2);
    TwoBlock(header, directive);
    BlockAppend([header], body);
    OneBlock(header);
    forall r, out | LineEnd(r)
      ensures RendersAt(env, [header, directive], [header] + body, r, out)
    {
      RendersResourcesAt(env, indent, r, out);
      assert "\n" + RowText(directive) == "\n" + Spaces(indent + 2) + ResourcesDirective(indent + 2);
      assert "\n" + RowText(header) == Block([header]);
      assert out + Block([header]) + Block(body) == out + Block([header] + body);
    }
  }

  // ---------------------------------------------------------------- Skipping a block

  lemma {:induction false} SkipLiteral(a: string, b: string)
    requires '{' !in a
    ensures AfterEnd(a + b) == AfterEnd(b)
  {
    if a == "" {
      assert a + b == b;
    } else {
      assert (a + b)[0] == a[0] && (a + b)[1..] == a[1..] + b;
      assert EndDirective()[0] == '{';
      SkipLiteral(a[1..], b);
    }
  }

  lemma SkipAction(e: string, b: string)
    requires '{' !in e
    ensures AfterEnd(Action(e) + b) == AfterEnd(b)
  {
    var s := Action(e) + b;
    var tail := " " + e + " }}";
    assert s == "{{" + (tail + b);
    assert s[2] == ' ' && EndDirective()[2] == '-' && EndDirective()[1] == '{';
    assert s[1..] == "{" + (tail + b) && s[1..][1] == ' ';
    assert s[1..][1..] == tail + b;
    SkipLiteral(tail, b);
  }

  lemma SkipTrimAction(e: string, b: string)
    requires '{' !in e && e != "" && e[0] != 'e'
    ensures AfterEnd(TrimAction(e) + b) == AfterEnd(b)
  {
    var s := TrimAction(e) + b;
    var tail := "- " + e + " }}";
    assert s == "{{" + (tail + b);
    assert s[4] == e[0] && EndDirective()[4] == 'e' && EndDirective()[1] == '{';
    assert s[1..] == "{" + (tail + b) && s[1..][1] == '-';
    assert s[1..][1..] == tail + b;
    SkipLiteral(tail, b);
  }

  lemma SkipToEnd(indent: nat, r: string)
    ensures AfterEnd("\n" + Spaces(indent) + EndDirective() + r) == Some(r)
  {
    hide IsSpace;
    MarginIsSpace(indent);
    assert "\n" + Spaces(indent) + EndDirective() + r == "\n" + Spaces(indent) + (EndDirective() + r);
    SkipLiteral("\n" + Spaces(indent), EndDirective() + r);
    assert EndDirective() <= EndDirective() + r && (EndDirective() + r)[|EndDirective()|..] == r;
  }

  // ---------------------------------------------------------------- Guarded blocks

  lemma LineText(row: Row)
    ensures "\n" + RowText(row) == "\n" + Spaces(row.indent) + row.content
  {
  }

  lemma EndAction()
    ensures EndDirective() == TrimAction("end") && Clean("end") && '}' !in "end"
  {
  }

  function Guarded(indent: nat, e: string, body: seq<Row>): seq<Row> {
    [Row(indent, TrimAction(e))] + body + [Row(indent, EndDirective())]
  }

  /** Inside a block that binds `dot`, these rows render to those. */
  ghost predicate BodyRenders(env: Env, dot: Dot, body: seq<Row>, rows: seq<Row>) {
    forall r, out | LineEnd(r) :: BodyRendersAt(env, dot, body, rows, r, out)
  }

  ghost predicate BodyRendersAt(env: Env, dot: Dot, body: seq<Row>, rows: seq<Row>, r: string, out: string) {
    Eval(env, Block(body) + r, out, "", dot) == Eval(env, r, out + Block(rows), "", dot)
  }

  /** The rows hold no end of a block. */
  ghost predicate BodySkipped(body: seq<Row>) {
    forall r :: AfterEnd(Block(body) + r) == AfterEnd(r)
  }

  lemma GuardedText(indent: nat, e: string, body: seq<Row>, r: string)
    ensures Block(Guarded(indent, e, body)) + r
            == "\n" + Spaces(indent) + TrimAction(e) + (Block(body) + ("\n" + Spaces(indent) + EndDirective() + r))
  {
    hide TrimAction, Spaces, Block, RowText;
    var a, d := Row(indent, TrimAction(e)), Row(indent, EndDirective());
    BlockAppend([a], body);
    BlockAppend([a] + body, [d]);
    OneBlock(a);
    OneBlock(d);
    assert Block([a]) + Block(body) + Block([d]) + r == Block([a]) + (Block(body) + (Block([d]) + r));
  }

  lemma {:induction false} RendersGuardedAt(
      env: Env, indent: nat, e: string, bound: Dot, body: seq<Row>, rows: seq<Row>, r: string, out: string)
    requires Clean(e) && '}' !in e && e != "end" && LineEnd(r)
    requires With(env, e) == Some(bound) && BodySkipped(body)
    requires if bound.NoDot? then rows == [] else BodyRenders(env, bound, body, rows)
    ensures RendersAt(env, Guarded(indent, e, body), rows, r, out)
  {
    hide Eval, Block, AfterEnd, TrimAction, With, Guarded, IsSpace;
    var rest := "\n" + Spaces(indent) + EndDirective() + r;
    GuardedText(indent, e, body, r);
    TrimActionRow(env, indent, e, Block(body) + rest, out, NoDot);
    if bound.NoDot? {
      SkipToEnd(indent, r);
      NothingBlock();
      assert out + "" == out;
    } else {
      assert LineEnd(rest);
      assert BodyRendersAt(env, bound, body, rows, rest, out);
      EndAction();
      TrimActionRow(env, indent, "end", r, out + Block(rows), bound);
    }
  }

  lemma NothingBlock()
    ensures Block([]) == ""
  {
  }

  /** A guarded block renders to its body, or to nothing when the guard is empty. */
  lemma {:induction false} RendersGuarded(env: Env, indent: nat, e: string, bound: Dot, body: seq<Row>, rows: seq<Row>)
    requires Clean(e) && '}' !in e && e != "end"
    requires With(env, e) == Some(bound) && BodySkipped(body)
    requires if bound.NoDot? then rows == [] else BodyRenders(env, bound, body, rows)
    ensures Renders(env, Guarded(indent, e, body), rows)
  {
    hide RendersAt, BodyRenders, BodySkipped, Guarded, With;
    forall r, out | LineEnd(r)
      ensures RendersAt(env, Guarded(indent, e, body), rows, r, out)
    {
      RendersGuardedAt(env, indent, e, bound, body, rows, r, out);
    }
  }

  // ---------------------------------------------------------------- Pull secrets

  function SecretGuard(): string {
    "with .Values.imagePullSecret"
  }

  function PullSecretBody(indent: nat): seq<Row> {
    [Row(indent, "imagePullSecrets:"), Row(indent + 2, "- name: " + Action("."))]
  }

  function PullSecretRows(secret: string, indent: nat): seq<Row> {
    if secret == "" then [] else [Row(indent, "imagePullSecrets:"), Row(indent + 2, "- name: " + secret)]
  }

  lemma WithSecretAction()
    ensures WithPullSecret() == TrimAction(SecretGuard())
  {
  }

  lemma WithSecretClean()
    ensures Clean(SecretGuard()) && '}' !in SecretGuard() && SecretGuard() != "end"
  {
  }

  lemma DotExpression(env: Env, text: string)
    ensures With(env, ".") == None && Value(env, ".", TextDot(text)) == Some(text)
    ensures Clean(".") && '}' !in "." && "." != "end"
  {
    hide AccountName, ImageRef;
    assert |ReleaseNamespace()| > 1 && |ReplicasValue()| > 1 && |ImageExpression()| > 1 && |AccountExpression()| > 1;
  }

  lemma SecretFieldsClean()
    ensures Clean("imagePullSecrets:") && '{' !in "imagePullSecrets:"
    ensures Clean("- name:") && '{' !in "- name:"
  {
  }

  lemma ItemText(indent: nat, value: string)
    ensures "\n" + RowText(Row(indent, "- name: " + value)) == "\n" + Spaces(indent) + "- name:" + " " + value
  {
  }

  lemma PullSecretBodySkipped(indent: nat)
    ensures BodySkipped(PullSecretBody(indent))
  {
    hide AfterEnd, IsSpace, Block, RowText, Action;
    var first, second := Row(indent, "imagePullSecrets:"), Row(indent + 2, "- name: " + Action("."));
    var head := "\n" + Spaces(indent) + "imagePullSecrets:" + ("\n" + Spaces(indent + 2) + "- name:" + " ");
    MarginIsSpace(indent);
    MarginIsSpace(indent + 2);
    SecretFieldsClean();
    TwoBlock(first, second);
    LineText(first);
    ItemText(indent + 2, Action("."));
    assert Block([first, second]) == head + Action(".");
    forall r
      ensures AfterEnd(Block(PullSecretBody(indent)) + r) == AfterEnd(r)
    {
      assert head + Action(".") + r == head + (Action(".") + r);
      SkipLiteral(head, Action(".") + r);
      SkipAction(".", r);
    }
  }

  lemma RegroupBody(a: string, b: string, r: string)
    ensures a + b + r == a + (b + "" + r)
  {
  }

  lemma {:induction false} RegroupOut(out: string, line: string, a: string, b: string, c: string, d: string)
    ensures out + "\n" + line + a + b + c + d + "" == out + ("\n" + line + (a + b + c + d))
  {
  }

  lemma {:induction false} PullSecretBodyRendersAt(env: Env, indent: nat, secret: string, r: string, out: string)
    requires LineEnd(r) && secret != ""
    ensures BodyRendersAt(env, TextDot(secret), PullSecretBody(indent), PullSecretRows(secret, indent), r, out)
  {
    hide Eval, Action, With, Value, Contains, Block, RowText, Spaces, Clean, IsSpace;
    var first, second := Row(indent, "imagePullSecrets:"), Row(indent + 2, "- name: " + secret);
    var margin := "\n" + Spaces(indent + 2);
    var item := margin + "- name:" + " " + Action(".");
    SecretFieldsClean();
    TwoBlock(first, Row(indent + 2, "- name: " + Action(".")));
    ItemText(indent + 2, Action("."));
    RegroupBody("\n" + RowText(first), item, r);
    NoBraceNoAction("imagePullSecrets:");
    LiteralRow(env, first, item + "" + r, out, TextDot(secret));
    DotExpression(env, secret);
    EvalField(env, indent + 2, "- name:", " ", ".", "", r, out + "\n" + RowText(first), TextDot(secret), secret);
    TwoBlock(first, second);
    ItemText(indent + 2, secret);
    RegroupOut(out, RowText(first), margin, "- name:", " ", secret);
  }

  /** The guarded rows render to the pull secret, or to nothing without one. */
  lemma RendersPullSecrets(env: Env, indent: nat)
    ensures Renders(env, Guarded(indent, SecretGuard(), PullSecretBody(indent)),
                         PullSecretRows(env.values.imagePullSecret, indent))
  {
    hide Eval, Renders, Guarded, PullSecretBody, PullSecretRows, BodySkipped;
    var secret := env.values.imagePullSecret;
    WithSecretClean();
    PullSecretBodySkipped(indent);
    if secret == "" {
      NoSecretNoRows(indent);
      RendersGuarded(env, indent, SecretGuard(), NoDot, PullSecretBody(indent), PullSecretRows(secret, indent));
    } else {
      forall r, out | LineEnd(r)
        ensures BodyRendersAt(env, TextDot(secret), PullSecretBody(indent), PullSecretRows(secret, indent), r, out)
      {
        PullSecretBodyRendersAt(env, indent, secret, r, out);
      }
      RendersGuarded(env, indent, SecretGuard(), TextDot(secret), PullSecretBody(indent), PullSecretRows(secret, indent));
    }
  }

  lemma NoSecretNoRows(indent: nat)
    ensures PullSecretRows("", indent) == []
  {
  }

  // ---------------------------------------------------------------- Annotations

  function AccountAnnotationsGuard(): string {
    "with .Values.serviceAccount.annotations"
  }

  function AnnotationsBody(indent: nat): seq<Row> {
    [Row(indent, "annotations:"), Row(indent + 2, AnnotationsDirective(indent + 2))]
  }

  function AnnotationRows(annotations: Entries, indent: nat): seq<Row> {
    if annotations == NoEntries then []
    else [Row(indent, "annotations:")] + PrintEntries(annotations, indent + 2)
  }

  function AnnotationsExpression(n: nat): string {
    ToYamlDot() + Decimal.Print(n)
  }

  lemma WithAnnotationsAction()
    ensures WithAnnotations() == TrimAction(AccountAnnotationsGuard())
  {
  }

  lemma WithAnnotationsOneLine()
    ensures '\n' !in AccountAnnotationsGuard() && '}' !in AccountAnnotationsGuard()
  {
  }

  lemma WithAnnotationsClean()
    ensures Clean(AccountAnnotationsGuard()) && '}' !in AccountAnnotationsGuard() && AccountAnnotationsGuard() != "end"
  {
    hide IsSpace;
    WithAnnotationsOneLine();
    WithAnnotationsEnds();
  }

  lemma WithAnnotationsEnds()
    ensures var e := AccountAnnotationsGuard(); |e| > |"end"| && !IsSpace(e[0]) && !IsSpace(e[|e| - 1])
  {
  }

  lemma AnnotationsExpressionClean(n: nat)
    ensures Clean(AnnotationsExpression(n)) && '}' !in AnnotationsExpression(n) && '{' !in AnnotationsExpression(n)
    ensures AnnotationsExpression(n)[0] == 't'
  {
    DigitsClean(n);
    assert '{' !in Decimal.Print(n);
    assert '}' !in ToYamlDot() && '\n' !in ToYamlDot() && '{' !in ToYamlDot() && ToYamlDot()[0] == 't';
  }

  lemma AnnotationsDirectiveIsAction(n: nat)
    ensures AnnotationsDirective(n) == TrimAction(AnnotationsExpression(n))
  {
    DirectiveGroups(ToYamlDot(), Decimal.Print(n));
  }

  lemma AnnotationsValue(env: Env, n: nat, annotations: Entries)
    ensures With(env, AnnotationsExpression(n)) == None && AnnotationsExpression(n) != "end"
    ensures Value(env, AnnotationsExpression(n), TreeDot(annotations)) == Some(Nindent(n, ToYaml(annotations)))
  {
    hide Nindent, ToYaml, AccountName, ImageRef;
    var e := AnnotationsExpression(n);
    assert e[0] == 't' && e[7] == '.' && e[8] == ' ' && e[|ToYamlDot()|..] == Decimal.Print(n);
    Decimal.ValueOfPrint(n);
    assert ToYamlResources()[8] == 'V';
    assert ReleaseNamespace()[0] == '.' && ReplicasValue()[0] == '.' && AccountExpression()[0] == 'd' && ImageExpression()[0] == 'i';
    assert "with .Values.imagePullSecret"[0] == 'w' && "with .Values.serviceAccount.annotations"[0] == 'w';
    assert "end"[0] == 'e';
  }

  lemma AnnotationsFieldClean()
    ensures Clean("annotations:") && '{' !in "annotations:"
  {
  }

  lemma AnnotationsBodyText(indent: nat, r: string)
    ensures Block(AnnotationsBody(indent)) + r
            == "\n" + RowText(Row(indent, "annotations:"))
               + ("\n" + Spaces(indent + 2) + TrimAction(AnnotationsExpression(indent + 2)) + r)
  {
    hide Spaces, Block, RowText, TrimAction, AnnotationsExpression, AnnotationsDirective;
    var first, second := Row(indent, "annotations:"), Row(indent + 2, AnnotationsDirective(indent + 2));
    AnnotationsDirectiveIsAction(indent + 2);
    TwoBlock(first, second);
    LineText(second);
    assert "\n" + RowText(first) + ("\n" + RowText(second)) + r == "\n" + RowText(first) + ("\n" + RowText(second) + r);
  }

  lemma AnnotationsBodySkipped(indent: nat)
    ensures BodySkipped(AnnotationsBody(indent))
  {
    hide AfterEnd, IsSpace, Block, RowText, TrimAction, AnnotationsExpression, AnnotationsDirective;
    var e := AnnotationsExpression(indent + 2);
    var margin := "\n" + Spaces(indent + 2);
    var head := "\n" + RowText(Row(indent, "annotations:")) + margin;
    MarginIsSpace(indent);
    MarginIsSpace(indent + 2);
    AnnotationsFieldClean();
    LineText(Row(indent, "annotations:"));
    AnnotationsExpressionClean(indent + 2);
    forall r
      ensures AfterEnd(Block(AnnotationsBody(indent)) + r) == AfterEnd(r)
    {
      AnnotationsBodyText(indent, r);
      assert "\n" + RowText(Row(indent, "annotations:")) + (margin + TrimAction(e) + r) == head + (TrimAction(e) + r);
      SkipLiteral(head, TrimAction(e) + r);
      SkipTrimAction(e, r);
    }
  }

  lemma {:induction false} AnnotationsBodyRendersAt(env: Env, indent: nat, annotations: Entries, r: string, out: string)
    requires LineEnd(r) && annotations != NoEntries && PrintableEntries(annotations)
    ensures BodyRendersAt(env, TreeDot(annotations), AnnotationsBody(indent), AnnotationRows(annotations, indent), r, out)
  {
    hide Eval, Act, Value, With, Contains, AnnotationsExpression, PrintableEntries, PrintEntries, TrimAction, Block, RowText;
    hide Nindent, AnnotationsBody, IsSpace, Clean;
    var first := Row(indent, "annotations:");
    var e := AnnotationsExpression(indent + 2);
    var text := "\n" + RowText(first);
    var tail := "\n" + Spaces(indent + 2) + TrimAction(e) + r;
    var body := PrintEntries(annotations, indent + 2);
    AnnotationsFieldClean();
    AnnotationsBodyText(indent, r);
    AnnotationsExpressionClean(indent + 2);
    AnnotationsValue(env, indent + 2, annotations);
    NindentEntries(indent + 2, annotations);
    NoBraceNoAction("annotations:");
    assert out + "\n" + RowText(first) == out + text;
    LiteralRow(env, first, tail, out, TreeDot(annotations));
    TrimActionRow(env, indent + 2, e, r, out + text, TreeDot(annotations));
    ActValue(env, e, r, out + text, TreeDot(annotations), Nindent(indent + 2, ToYaml(annotations)));
    OneBlock(first);
    LineText(first);
    BlockAppend([first], body);
    assert out + text + Block(body) == out + (text + Block(body));
  }

  /** The guarded rows render to the annotations of the values file, or to nothing without any. */
  lemma RendersAnnotations(env: Env, indent: nat)
    requires PrintableEntries(env.values.annotations)
    ensures Renders(env, Guarded(indent, AccountAnnotationsGuard(), AnnotationsBody(indent)),
                         AnnotationRows(env.values.annotations, indent))
  {
    hide Eval, Renders, Guarded, AnnotationsBody, BodySkipped, PrintableEntries, PrintEntries;
    var annotations := env.values.annotations;
    var body, rows := AnnotationsBody(indent), AnnotationRows(annotations, indent);
    WithAnnotationsClean();
    AnnotationsGuard(env);
    AnnotationsBodySkipped(indent);
    if annotations == NoEntries {
      RendersGuarded(env, indent, AccountAnnotationsGuard(), NoDot, body, rows);
    } else {
      forall r, out | LineEnd(r)
        ensures BodyRendersAt(env, TreeDot(annotations), body, rows, r, out)
      {
        AnnotationsBodyRendersAt(env, indent, annotations, r, out);
      }
      RendersGuarded(env, indent, AccountAnnotationsGuard(), TreeDot(annotations), body, rows);
    }
  }

  lemma AnnotationsGuard(env: Env)
    ensures With(env, AccountAnnotationsGuard())
            == Some(if env.values.annotations == NoEntries then NoDot else TreeDot(env.values.annotations))
  {
    assert AccountAnnotationsGuard()[13] != SecretGuard()[13];
  }
}
