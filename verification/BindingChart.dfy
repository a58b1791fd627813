/**
 The RoleBinding and ClusterRoleBinding templates: what `transformRoleBinding` makes of a
 binding, and what that renders to.
 */
module BindingChart {
  import opened Wrappers
  import opened GoStrings
  import opened LinePasses
  import opened PassLaws
  import opened SectionLaws
  import opened Yaml
  import opened TreeEdits
  import opened FieldRefinement
  import opened HelmTemplate
  import opened EmittedRendering
  import opened ChartRendering
  import opened DeploymentChart
  import opened SectionTrees

  // ---------------------------------------------------------------- The passes

  function BindingText(raw: string): string {
    SectionText(SubjectsName(), SectionText(SubjectsNamespace(), PassText(SetNamespace(), raw)))
  }

  /** `transformRoleBinding`. */
  method TransformRoleBinding(obj: Entries) returns (text: string)
    ensures text == BindingText(Marshal(obj))
  {
    hide *;
    text := ReplaceNamespace(Marshal(obj));
    text := ReplaceSubjectsNamespace(text);
    text := ReplaceSubjectsServiceAccount(text);
    BindingTextUnfolds(Marshal(obj));
  }

  lemma BindingTextUnfolds(raw: string)
    ensures BindingText(raw) == SectionText(SubjectsName(), SectionText(SubjectsNamespace(), PassText(SetNamespace(), raw)))
  {
  }

  function SetName(): LineRule {
    SetValue("name", Action(AccountExpression()))
  }

  lemma NameRule()
    ensures SetsField(SetName())
  {
    hide Contains, Action;
    AccountNameOneLine();
    ActionShape(AccountExpression());
  }

  function NameEditor(): Editor {
    SetEditor("name", Action(AccountExpression()))
  }

  function NameRows(): Row -> seq<Row> {
    SetRows("name", Action(AccountExpression()))
  }

  predicate ClosesSubjectsRow(row: Row) {
    row.indent == 0 && !HasPrefix(row.content, "-")
  }

  function SubjectRows(): RowSection {
    RowSection("subjects", ClosesSubjectsRow, NameRows())
  }

  lemma MarginRow(row: Row)
    requires GoodRow(row)
    ensures AtMargin(RowText(row)) <==> row.indent == 0
  {
    hide TrimSpace;
    RowLine(row);
    if row.indent == 0 {
      assert RowText(row)[0] == row.content[0];
      assert IsSpace(' ') && IsSpace('\t');
    } else {
      assert RowText(row)[..1] == " ";
    }
  }

  lemma SubjectNameOnLine(line: string)
    ensures [SubjectNameLine(line)] == LinesFor(SetName(), line)
  {
    hide TrimSpace, IndentOf, Contains, Action;
    assert "name" + ":" == "name:";
    assert IndentOf(line) + "name" + ": " + Action(AccountExpression()) == IndentOf(line) + "name: " + Action(AccountExpression());
  }

  lemma SubjectsOnRow(row: Row)
    ensures SectionOnRow(SubjectsName(), SubjectRows(), row)
  {
    hide TrimSpace, RowText, Contains, Action, SetsField, Clean, AtMargin, LinesFor, SetRow;
    if GoodRow(row) {
      RowLine(row);
      MarginRow(row);
      NameRule();
      SubjectNameOnLine(RowText(row));
      SetLineOfRow(SetName(), row);
      MarginIsVisible(RowText(row));
      assert "subjects" + ":" == "subjects:";
    }
  }

  lemma MarginIsVisible(line: string)
    ensures AtMargin(line) ==> TrimSpace(line) != ""
  {
  }

  // ---------------------------------------------------------------- The shape of a binding

  /** The section of the subjects ends with their list, and there is no other `subjects:` row. */
  predicate BindingShape(entries: Entries) {
    match entries
    case NoEntries => true
    case Splice(_, _) => false
    case Entry(key, value, rest) =>
      && (if key == "subjects" && !value.Scalar? then FitsNode(NameEditor(), value)
          else !EntryHits(HeaderProbe("subjects"), key, value, false))
      && BindingShape(rest)
  }

  predicate FitsNode(e: Editor, value: Node) {
    match value
    case Scalar(_) => true
    case Mapping(entries) => Fits(e, entries, false)
    case Sequence(items) => FitsItems(e, items)
  }

  /** A binding the passes are written for, without template actions. */
  predicate BindingCompilable(entries: Entries) {
    && entries.Entry? && PrintableEntries(entries) && Plain(entries)
    && Fits(NamespaceEditor(), entries, false)
    && BindingShape(entries)
  }

  lemma SubjectsSection()
    ensures RootSection(SubjectRows())
  {
    hide Contains, Action;
    var s := SubjectRows();
    assert "name" + ":" == "name:";
    assert "subjects:"[0] != "name:"[0];
    forall content
      ensures ClosesAtRoot(s, content)
    {
    }
  }

  /** Rows of a nested value at the margin belong to a list and start with its dash. */
  lemma {:induction false} DeeperRows(entries: Entries, indent: nat)
    requires PrintableEntries(entries)
    ensures forall row | row in PrintEntries(entries, indent) :: row.indent >= indent
    decreases entries
  {
    hide GoodKey, Clean;
    match entries
    case NoEntries =>
    case Entry(key, value, rest) =>
      DeeperRows(rest, indent);
      match value
      case Scalar(_) =>
      case Mapping(inner) => DeeperRows(inner, indent + 2);
      case Sequence(items) => DeeperItemRows(items, indent);
  }

  lemma {:induction false} DeeperItemRows(items: Items, indent: nat)
    requires PrintableItems(items)
    ensures forall row | row in PrintItems(items, indent) ::
              row.indent >= indent && (row.indent == indent ==> HasPrefix(row.content, "-"))
    decreases items
  {
    hide GoodKey, Clean;
    match items
    case NoItems =>
    case Item(value, rest) =>
      DeeperItemRows(rest, indent);
      match value
      case Scalar(_) =>
      case Mapping(entries) => DeeperRows(entries, indent + 2);
      case Sequence(inner) => DeeperItemRows(inner, indent + 2);
  }

  lemma SubjectsStayOpen(value: Node)
    requires Printable(value) && !value.Scalar?
    ensures NoneCloses(SubjectRows(), PrintEntry("subjects", value, 0)[1..])
  {
    hide Action;
    match value
    case Mapping(inner) =>
      DeeperRows(inner, 2);
      assert PrintEntry("subjects", value, 0)[1..] == PrintEntries(inner, 2);
    case Sequence(items) =>
      DeeperItemRows(items, 0);
      assert PrintEntry("subjects", value, 0)[1..] == PrintItems(items, 0);
  }

  // ---------------------------------------------------------------- The template

  /** Under the subjects, the namespace and the name are set. */
  function SubjectEditor(): Editor {
    Then(NamespaceEditor(), NameEditor())
  }

  function Under(key: string, inside: Editor, outside: Editor): (string, Node) -> Node {
    (k, value) => EditNode(if k == key then inside else outside, value)
  }

  /** The template written for a binding, as a tree. */
  function BindingTemplate(entries: Entries): Entries {
    TopEdit(NamespaceEditor().field, Under("subjects", SubjectEditor(), NamespaceEditor()), entries)
  }

  lemma NamespaceSetsTexts()
    ensures SetsTexts(NamespaceEditor())
  {
    hide Contains, Action;
    forall key, text
      ensures SetsText(NamespaceEditor(), key, text)
    {
    }
  }

  /** The name pass on the rows under the subjects is the name editor on the tree under them. */
  lemma SubjectsRows(value: Node)
    requires Printable(value) && !value.Scalar? && FitsNode(NameEditor(), value)
    requires Printable(EditNode(NamespaceEditor(), value))
    ensures var named := EditNode(NamespaceEditor(), value);
            PrintEntry("subjects", EditNode(SubjectEditor(), value), 0)
            == [PrintEntry("subjects", named, 0)[0]] + EditRows(NameRows(), PrintEntry("subjects", named, 0)[1..])
  {
    hide Action, SetsField, Agrees, GoodKey, Clean, NamespaceEditor;
    NameRule();
    SetAgrees(SetName());
    NamespaceSetsTexts();
    var named := EditNode(NamespaceEditor(), value);
    var header := Row(0, "subjects" + ":");
    match value
    case Mapping(inner) =>
      var inner' := EditEntries(NamespaceEditor(), inner, false);
      FitsAfterEdit(NamespaceEditor(), NameEditor(), inner, false);
      EditPrintEntries(NameEditor(), NameRows(), inner', 2, false);
      EditThen(NamespaceEditor(), NameEditor(), inner, false);
      assert PrintEntry("subjects", named, 0) == [header] + PrintEntries(inner', 2);
      assert ([header] + PrintEntries(inner', 2))[1..] == PrintEntries(inner', 2);
    case Sequence(items) =>
      var items' := EditItems(NamespaceEditor(), items);
      FitItemsAfterEdit(NamespaceEditor(), NameEditor(), items);
      EditPrintItems(NameEditor(), NameRows(), items', 0);
      EditItemsThen(NamespaceEditor(), NameEditor(), items);
      assert PrintEntry("subjects", named, 0) == [header] + PrintItems(items', 0);
      assert ([header] + PrintItems(items', 0))[1..] == PrintItems(items', 0);
  }

  lemma HeadersOnly(h: string)
    ensures OnlyHeaders(HeaderProbe(h))
  {
  }

  lemma HeadersOfEntry(key: string, value: Node)
    requires Printable(value)
    ensures EntryHits(HeaderProbe("subjects"), key, EditNode(NamespaceEditor(), value), false)
            == EntryHits(HeaderProbe("subjects"), key, value, false)
  {
    hide NamespaceEditor;
    HeadersOnly("subjects");
    match value
    case Scalar(_) =>
    case Mapping(inner) => HeadersAfterEdit(HeaderProbe("subjects"), NamespaceEditor(), inner, false);
    case Sequence(items) => HeadersInItemsAfterEdit(HeaderProbe("subjects"), NamespaceEditor(), items);
  }

  lemma {:induction false} BindingRoots(entries: Entries)
    requires PrintableEntries(entries) && BindingShape(entries)
    requires PrintableEntries(EditEntries(NamespaceEditor(), entries, false))
    ensures var named := EditEntries(NamespaceEditor(), entries, false);
            && OpensOnlyAtRoot(SubjectRows(), named)
            && RootRows(SubjectRows(), named) == PrintEntries(BindingTemplate(entries), 0)
  {
    hide Action, GoodKey, Clean, EntryHits, FitsNode;
    hide NamespaceEditor, SubjectEditor;
    match entries
    case NoEntries =>
    case Entry(key, value, rest) =>
      var e := NamespaceEditor();
      var rest' := EditEntries(e, rest, false);
      TopRowsPrint(e.field, Under("subjects", SubjectEditor(), e), key, value, rest, 0);
      HeadersOfEntry(key, value);
      NamespaceSetsTexts();
      match value
      case Scalar(text) =>
        assert SetsText(e, key, text);
        SetTextEntry(e, key, text, rest');
        BindingRoots(rest);
        OnePiece(key, e.field(key, text)[0].text, 0);
        ScalarHitsNothing("subjects", key, e.field(key, text)[0].text);
        assert e.field(key, text) == [Field(key, e.field(key, text)[0].text)];
      case _ =>
        assert EditEntries(e, entries, false) == Entry(key, EditNode(e, value), rest');
        BindingRoots(rest);
        if key == "subjects" {
          SubjectsRows(value);
          SubjectsStayOpen(EditNode(e, value));
        }
  }

  lemma ScalarHitsNothing(h: string, key: string, text: string)
    ensures !EntryHits(HeaderProbe(h), key, Scalar(text), false)
  {
  }

  /** The text the passes write is the printout of the template tree. */
  lemma BindingTextIsTemplate(entries: Entries)
    requires BindingCompilable(entries)
    ensures BindingText(Marshal(entries)) == TextOf(Texts(PrintEntries(BindingTemplate(entries), 0)))
    ensures GoodRows(PrintEntries(BindingTemplate(entries), 0))
  {
    hide RowText, GoodRow, Marshal, SetsField, Action, Apply, SectionPass, NamespaceEditor, BindingTemplate, BindingShape, Plain;
    var e := NamespaceEditor();
    var rows := PrintEntries(entries, 0);
    var named := EditEntries(e, entries, false);
    MarshalIsPrintText(entries);
    SubjectsNamespaceIsIdentity(Marshal(entries));
    LinesOfPrintText(entries);
    EntriesGood(entries, 0);
    NamespaceOnTree(entries);
    EntriesGood(named, 0);
    TextsOneLine(PrintEntries(named, 0));
    LinesOfText(Texts(PrintEntries(named, 0)));
    forall row { SubjectsOnRow(row); }
    SectionOnRows(SubjectsName(), SubjectRows(), PrintEntries(named, 0), false);
    SubjectsSection();
    BindingRoots(entries);
    PassOnRoot(SubjectRows(), named, false);
  }

  /** The namespace pass on the text of a resource. */
  lemma NamespaceOnTree(entries: Entries)
    requires entries.Entry? && PrintableEntries(entries) && Fits(NamespaceEditor(), entries, false)
    ensures var named := EditEntries(NamespaceEditor(), entries, false);
            && PrintableEntries(named) && named != NoEntries
            && PassText(SetNamespace(), PrintText(entries)) == TextOf(Texts(PrintEntries(named, 0)))
  {
    hide RowText, GoodRow, SetsField, Action, PassText;
    NamespaceRule();
    FieldPassRefinesTreeRewriting(SetNamespace(), entries);
    SetKeepsPrintable(SetNamespace(), entries, false);
  }

  // ---------------------------------------------------------------- What it renders to

  function InstalledNamespace(env: Env): Editor {
    Editor((key, text) => [Field(key, if key == "namespace" then env.release.namespace else text)], key => true)
  }

  function InstalledSubject(env: Env): Editor {
    Editor((key, text) => [Field(key, if key == "namespace" then env.release.namespace
                                      else if key == "name" then AccountName(env) else text)], key => true)
  }

  /**
   The binding installed from a resource: every namespace is that of the release, every
   subject's name that of the service account, and nothing else changes.
   */
  function BindingInstance(env: Env, entries: Entries): Entries {
    TopEdit(InstalledNamespace(env).field, Under("subjects", InstalledSubject(env), InstalledNamespace(env)), entries)
  }

  lemma {:induction false} RendersOneField(env: Env, key: string, text: string, text': string, indent: nat)
    requires Renders(env, [Row(indent, key + ": " + text)], [Row(indent, key + ": " + text')])
    ensures Renders(env, PieceRows([Field(key, text)], indent), PieceRows([Field(key, text')], indent))
  {
    hide Renders;
    OnePiece(key, text, indent);
    OnePiece(key, text', indent);
  }

  lemma RendersSame(env: Env, key: string, text: string, indent: nat)
    requires GoodKey(key) && '{' !in key && Clean(text) && !Contains(text, "{{")
    ensures Renders(env, PieceRows([Field(key, text)], indent), PieceRows([Field(key, text)], indent))
  {
    hide Renders, Contains, GoodKey, LiteralRowOf;
    EntryRowLiteral(key, text, indent);
    LiteralRowRenders(env, Row(indent, key + ": " + text));
    OnePiece(key, text, indent);
  }

  lemma NamespaceRenders(env: Env)
    ensures FieldsRender(env, NamespaceEditor(), InstalledNamespace(env))
  {
    hide Renders, Contains, Action, GoodKey, Clean;
    assert "namespace" + ": " == "namespace: ";
    forall key, text, indent
      ensures FieldRenders(env, Evenly(NamespaceEditor()), Evenly(InstalledNamespace(env)), key, text, indent)
    {
      if GoodKey(key) && '{' !in key && Clean(text) && !Contains(text, "{{") {
        if key == "namespace" {
          RendersNamespace(env, indent);
          RendersOneField(env, key, Action(ReleaseNamespace()), env.release.namespace, indent);
        } else {
          RendersSame(env, key, text, indent);
        }
      }
    }
  }

  lemma SubjectField(key: string, text: string)
    requires !Contains(text, "{{")
    ensures SubjectEditor().field(key, text)
            == [Field(key, if key == "namespace" then Action(ReleaseNamespace())
                           else if key == "name" then Action(AccountExpression()) else text)]
  {
    hide Contains, Action;
    var k := if key == "namespace" then Action(ReleaseNamespace()) else text;
    assert NamespaceEditor().field(key, text) == [Field(key, k)];
    EditOnePiece(NameEditor(), key, k);
  }

  lemma NameKeyClean()
    ensures Clean("name") && '{' !in "name"
  {
  }

  lemma SubjectRenders(env: Env)
    ensures FieldsRender(env, SubjectEditor(), InstalledSubject(env))
  {
    hide Renders, Contains, Action, GoodKey, Clean, SubjectEditor, AccountName;
    assert "namespace" + ": " == "namespace: ";
    NameKeyClean();
    forall key, text, indent
      ensures FieldRenders(env, Evenly(SubjectEditor()), Evenly(InstalledSubject(env)), key, text, indent)
    {
      if GoodKey(key) && '{' !in key && Clean(text) && !Contains(text, "{{") {
        SubjectField(key, text);
        if key == "namespace" {
          RendersNamespace(env, indent);
          RendersOneField(env, key, Action(ReleaseNamespace()), env.release.namespace, indent);
        } else if key == "name" {
          RendersAccount(env, indent, "name");
          RendersOneField(env, key, Action(AccountExpression()), AccountName(env), indent);
        } else {
          RendersSame(env, key, text, indent);
        }
      }
    }
  }

  lemma {:induction false} BindingTopRenders(env: Env, entries: Entries)
    requires PrintableEntries(entries) && Plain(entries)
    ensures TopRenders(env, NamespaceEditor().field, Under("subjects", SubjectEditor(), NamespaceEditor()),
                       InstalledNamespace(env).field, Under("subjects", InstalledSubject(env), InstalledNamespace(env)),
                       entries, 0)
  {
    hide Renders, GoodKey, Clean, Contains, FieldsRender;
    hide NamespaceEditor, SubjectEditor, InstalledNamespace, InstalledSubject;
    match entries
    case NoEntries =>
    case Entry(key, value, rest) =>
      NamespaceRenders(env);
      SubjectRenders(env);
      BindingTopRenders(env, rest);
      match value
      case Scalar(text) =>
        OneFieldRenders(env, NamespaceEditor(), InstalledNamespace(env), key, text, 0);
      case _ =>
        RenderDeep(env, if key == "subjects" then SubjectEditor() else NamespaceEditor(),
                   if key == "subjects" then InstalledSubject(env) else InstalledNamespace(env), key, value, 0);
  }

  lemma {:induction false} OneFieldRenders(env: Env, t: Editor, i: Editor, key: string, text: string, indent: nat)
    requires FieldsRender(env, t, i) && GoodKey(key) && '{' !in key && Clean(text) && !Contains(text, "{{")
    ensures Renders(env, PieceRows(t.field(key, text), indent), PieceRows(i.field(key, text), indent))
  {
    hide Renders, GoodKey, Clean, Contains;
    assert FieldRenders(env, Evenly(t), Evenly(i), key, text, indent);
  }

  /** The first row of a top level whose scalars keep their keys. */
  lemma TopStartsVisibly(e: Editor, deep: (string, Node) -> Node, entries: Entries)
    requires SetsTexts(e) && entries.Entry? && GoodKey(entries.key) && '{' !in entries.key
    requires GoodRows(PrintEntries(TopEdit(e.field, deep, entries), 0))
    ensures StartsVisibly(PrintEntries(TopEdit(e.field, deep, entries), 0))
  {
    var key, value := entries.key, entries.value;
    var rows := PrintEntries(TopEdit(e.field, deep, entries), 0);
    TopRowsPrint(e.field, deep, key, value, entries.rest, 0);
    assert key[0] in key;
    if value.Scalar? {
      assert SetsText(e, key, value.text);
      var t := e.field(key, value.text)[0].text;
      assert e.field(key, value.text) == [Field(key, t)];
      OnePiece(key, t, 0);
      assert rows[0] == Row(0, key + ": " + t) && rows[0] in rows;
      assert (key + ": " + t)[0] == key[0];
    } else {
      FirstRowOfEntry(key, deep(key, value));
      assert rows[0] == PrintEntry(key, deep(key, value), 0)[0] && rows[0] in rows;
    }
  }

  lemma TopPrintsSomething(e: Editor, deep: (string, Node) -> Node, entries: Entries)
    requires SetsTexts(e) && entries.Entry?
    ensures PrintEntries(TopEdit(e.field, deep, entries), 0) != []
  {
    TopRowsPrint(e.field, deep, entries.key, entries.value, entries.rest, 0);
    if entries.value.Scalar? {
      assert SetsText(e, entries.key, entries.value.text);
    }
  }

  lemma InstalledSetsTexts(env: Env)
    ensures SetsTexts(InstalledNamespace(env))
  {
    forall key, text
      ensures SetsText(InstalledNamespace(env), key, text)
    {
    }
  }

  /** The meaning of the binding template, whatever the values and the release. */
  lemma BindingMeaning(env: Env, entries: Entries)
    requires BindingCompilable(entries)
    ensures Render(env, BindingText(Marshal(entries))) == Some(PrintText(BindingInstance(env, entries)))
  {
    hide Renders, Render, BindingText, Marshal, GoodKey, SetsTexts, StartsVisibly, GoodRows, TopRenders, Fits, BindingShape;
    hide NamespaceEditor, InstalledNamespace, InstalledSubject, SubjectEditor, TextOf, Texts;
    BindingTextIsTemplate(entries);
    BindingTopRenders(env, entries);
    NamespaceSetsTexts();
    InstalledSetsTexts(env);
    var deep := Under("subjects", SubjectEditor(), NamespaceEditor());
    var deep' := Under("subjects", InstalledSubject(env), InstalledNamespace(env));
    RenderTop(env, NamespaceEditor().field, deep, InstalledNamespace(env).field, deep', entries, 0);
    TopStartsVisibly(NamespaceEditor(), deep, entries);
    TopPrintsSomething(InstalledNamespace(env), deep', entries);
    RenderTextOf(env, PrintEntries(BindingTemplate(entries), 0), PrintEntries(BindingInstance(env, entries), 0));
    TextOfPrint(PrintEntries(BindingInstance(env, entries), 0));
  }
}
