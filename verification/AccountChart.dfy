/**
 The ServiceAccount template: what `transformServiceAccount` makes of a service account, and
 what that renders to.
 */
module AccountChart {
  import opened Wrappers
  import opened GoStrings
  import opened LinePasses
  import opened PassLaws
  import opened Yaml
  import opened TreeEdits
  import opened FieldRefinement
  import opened HelmTemplate
  import opened EmittedRendering
  import opened ChartRendering
  import opened DeploymentChart
  import opened DeploymentRoundTrip
  import opened SectionTrees
  import opened BindingChart

  // ---------------------------------------------------------------- The passes

  function AccountText(originalName: string, raw: string): string {
    SectionText(AccountMetadata(originalName), PassText(SetNamespace(), raw))
  }

  /** `transformServiceAccount`, for an object with the name `originalName`. */
  method TransformServiceAccount(obj: Entries, originalName: string) returns (text: string)
    ensures text == AccountText(originalName, Marshal(obj))
  {
    hide *;
    text := ReplaceNamespace(Marshal(obj));
    text := ReplaceServiceAccountMetadata(text, originalName);
    AccountTextUnfolds(originalName, Marshal(obj));
  }

  lemma AccountTextUnfolds(originalName: string, raw: string)
    ensures AccountText(originalName, raw) == SectionText(AccountMetadata(originalName), PassText(SetNamespace(), raw))
  {
  }

  /** A `name:` row that mentions the original name. */
  predicate NameRow(originalName: string, content: string) {
    HasPrefix(content, "name:") && Contains(content, originalName)
  }

  /** The guarded annotations behind a name at `indent`. */
  function AnnotationsBlock(indent: nat): seq<Row> {
    Guarded(indent, AccountAnnotationsGuard(), AnnotationsBody(indent))
  }

  function AccountRow(originalName: string, row: Row): seq<Row> {
    if NameRow(originalName, row.content) then
      [Row(row.indent, "name: " + Action(AccountExpression()))] + AnnotationsBlock(row.indent)
    else [row]
  }

  function AccountEdit(originalName: string): Row -> seq<Row> {
    row => AccountRow(originalName, row)
  }

  function AccountRows(originalName: string): RowSection {
    RowSection("metadata", (row: Row) => row.indent == 0, AccountEdit(originalName))
  }

  lemma NameFieldClean()
    ensures Clean("name: " + Action(AccountExpression()))
  {
    hide Action, Contains;
    AccountNameOneLine();
    ActionShape(AccountExpression());
    assert Clean("name:");
    CleanConcat("name:", Action(AccountExpression()));
    assert "name: " + Action(AccountExpression()) == "name:" + " " + Action(AccountExpression());
  }

  lemma AnnotationLiteralsGood()
    ensures Clean(WithAnnotations()) && Clean(EndDirective()) && Clean("annotations:")
  {
    hide TrimAction;
    WithAnnotationsAction();
    WithAnnotationsClean();
    TrimActionClean(AccountAnnotationsGuard());
    EndAction();
    TrimActionClean("end");
  }

  lemma AnnotationsDirectiveGood(n: nat)
    ensures Clean(AnnotationsDirective(n))
  {
    hide TrimAction, AnnotationsExpression, AnnotationsDirective;
    AnnotationsDirectiveIsAction(n);
    AnnotationsExpressionClean(n);
    TrimActionClean(AnnotationsExpression(n));
  }

  lemma TrimActionClean(e: string)
    requires '\n' !in e
    ensures Clean(TrimAction(e))
  {
    var s := TrimAction(e);
    assert s[0] == '{' && s[|s| - 1] == '}';
    assert '\n' !in "{{- " && '\n' !in " }}";
  }

  lemma AnnotationsBlockRows(indent: nat)
    ensures AnnotationsBlock(indent)
            == [Row(indent, WithAnnotations()), Row(indent, "annotations:"),
                Row(indent + 2, AnnotationsDirective(indent + 2)), Row(indent, EndDirective())]
  {
    hide TrimAction, AnnotationsDirective;
    WithAnnotationsAction();
  }

  lemma AnnotationsBlockGood(indent: nat)
    ensures GoodRows(AnnotationsBlock(indent))
  {
    hide AnnotationsBlock, Clean, AnnotationsDirective;
    AnnotationsBlockRows(indent);
    AnnotationLiteralsGood();
    AnnotationsDirectiveGood(indent + 2);
  }

  lemma AnnotationsBlockTexts(indent: nat)
    ensures Texts(AnnotationsBlock(indent))
            == [Spaces(indent) + WithAnnotations(), Spaces(indent) + "annotations:",
                Spaces(indent) + "  " + AnnotationsDirective(indent + 2), Spaces(indent) + EndDirective()]
  {
    hide AnnotationsBlock, AnnotationsDirective;
    AnnotationsBlockRows(indent);
    assert Spaces(indent + 2) == Spaces(indent) + "  ";
  }

  lemma AccountLinesOfRow(originalName: string, row: Row)
    requires GoodRow(row)
    ensures AccountLines(originalName, RowText(row)) == Texts(AccountRow(originalName, row))
    ensures GoodRows(AccountRow(originalName, row))
  {
    hide TrimSpace, IndentOf, Contains, Action, AnnotationsBlock, AnnotationsDirective, Clean;
    RowLine(row);
    if NameRow(originalName, row.content) {
      NameFieldClean();
      AnnotationsBlockGood(row.indent);
      AnnotationsBlockTexts(row.indent);
      TextsAppend([Row(row.indent, "name: " + Action(AccountExpression()))], AnnotationsBlock(row.indent));
      assert Spaces(row.indent) + "name: " + Action(AccountExpression()) == Spaces(row.indent) + ("name: " + Action(AccountExpression()));
      assert |Spaces(row.indent)| == row.indent;
    }
  }

  lemma AccountOnRow(originalName: string, row: Row)
    ensures SectionOnRow(AccountMetadata(originalName), AccountRows(originalName), row)
  {
    hide TrimSpace, RowText, Contains, Clean, AtMargin, AccountRow, AccountLines;
    if GoodRow(row) {
      RowLine(row);
      MarginRow(row);
      AccountLinesOfRow(originalName, row);
      assert "metadata" + ":" == "metadata:";
    }
  }

  lemma AccountSection(originalName: string)
    ensures RootSection(AccountRows(originalName))
  {
    hide Contains, AnnotationsBlock, Action;
    var s := AccountRows(originalName);
    assert "metadata:"[0] != "name:"[0];
    assert "metadata" + ":" == "metadata:";
    forall content
      ensures ClosesAtRoot(s, content)
    {
    }
  }

  // ---------------------------------------------------------------- The shape of a service account

  predicate IsName(originalName: string, key: string, text: string) {
    key == "name" && Contains(key + ": " + text, originalName)
  }

  /** A nested value under a `name` in which the original name occurs, as in `name` itself. */
  function NameHeaders(originalName: string): Probe {
    Probe((key, text) => false, key => key == "name" && Contains(key + ":", originalName))
  }

  /** A name with the original name in it. */
  function AnyNames(originalName: string): Probe {
    Probe((key, text) => IsName(originalName, key, text), key => key == "name" && Contains(key + ":", originalName))
  }

  predicate IsMetadata(key: string, value: Node) {
    key == "metadata" && value.Mapping?
  }

  /** The metadata are a mapping, and there is no other `metadata:` row. */
  predicate OneMetadata(entries: Entries) {
    match entries
    case NoEntries => true
    case Splice(_, _) => false
    case Entry(key, value, rest) =>
      && (if key == "metadata" && !value.Scalar? then value.Mapping? else !EntryHits(HeaderProbe("metadata"), key, value, false))
      && OneMetadata(rest)
  }

  /** No nested value of the metadata stands under a name to replace. */
  predicate NoNameHeaders(originalName: string, entries: Entries) {
    match entries
    case NoEntries => true
    case Splice(_, rest) => NoNameHeaders(originalName, rest)
    case Entry(key, value, rest) =>
      && (IsMetadata(key, value) ==> !Hits(NameHeaders(originalName), value.entries, false))
      && NoNameHeaders(originalName, rest)
  }

  /** On the first level of the metadata no nested value holds another name to replace. */
  predicate MetadataShape(originalName: string, entries: Entries) {
    match entries
    case NoEntries => true
    case Splice(_, rest) => MetadataShape(originalName, rest)
    case Entry(key, value, rest) =>
      && (!value.Scalar? ==> !EntryHits(AnyNames(originalName), key, value, false))
      && MetadataShape(originalName, rest)
  }

  /** Of the names in the metadata only those on the first level are ones to replace. */
  predicate NamesOnTop(originalName: string, entries: Entries) {
    match entries
    case NoEntries => true
    case Splice(_, rest) => NamesOnTop(originalName, rest)
    case Entry(key, value, rest) =>
      && (IsMetadata(key, value) ==> MetadataShape(originalName, value.entries))
      && NamesOnTop(originalName, rest)
  }

  /** A resource without template actions, with one `metadata:` row and no nested value under a namespace. */
  predicate AccountReadable(entries: Entries) {
    && entries.Entry? && PrintableEntries(entries) && Plain(entries)
    && Fits(NamespaceEditor(), entries, false)
    && OneMetadata(entries)
  }

  predicate AccountCompilable(originalName: string, entries: Entries) {
    AccountReadable(entries) && NoNameHeaders(originalName, entries)
  }

  // ---------------------------------------------------------------- The template

  /** What becomes of a one-line entry of the metadata at `indent`. */
  function MetadataField(originalName: string, indent: nat, key: string, text: string): seq<Piece> {
    if key == "namespace" && !Contains(text, "{{") then [Field(key, Action(ReleaseNamespace()))]
    else if IsName(originalName, key, text) then [Field(key, Action(AccountExpression())), Rows(AnnotationsRows(indent))]
    else [Field(key, text)]
  }

  /** The annotations block for `indent`, moved to the margin. */
  function AnnotationsRows(indent: nat): seq<Row> {
    [Row(0, WithAnnotations()), Row(0, "annotations:"), Row(2, AnnotationsDirective(indent + 2)), Row(0, EndDirective())]
  }

  function MetadataEditors(originalName: string): Editors {
    (indent: nat) => Editor((key, text) => MetadataField(originalName, indent, key, text), key => true)
  }

  /** Rewrites the metadata by one function, and every other nested value by an editor. */
  function AccountDeep(metadata: Entries -> Entries, outside: Editor): (string, Node) -> Node {
    (key: string, value: Node) =>
      if IsMetadata(key, value) then Mapping(metadata(value.entries)) else EditNode(outside, value)
  }

  function AccountTree(metadata: Entries -> Entries, outside: Editor, entries: Entries): Entries {
    TopEdit(outside.field, AccountDeep(metadata, outside), entries)
  }

  /** The metadata with every name that mentions the original name replaced, however deep. */
  function EveryName(originalName: string): Entries -> Entries {
    (entries: Entries) => Fill(MetadataEditors(originalName), KeepBlocks(), entries, 2, false)
  }

  /** The metadata with the names on their first level replaced. */
  function OwnName(originalName: string): Entries -> Entries {
    (entries: Entries) => TopEdit(MetadataEditors(originalName)(2).field, EditDeep(NamespaceEditor()), entries)
  }

  /** The template written for a service account, as a tree. */
  function AccountTemplate(originalName: string, entries: Entries): Entries {
    AccountTree(EveryName(originalName), NamespaceEditor(), entries)
  }

  /** The template that replaces the name of the account and keeps the names below it. */
  function OwnNameTemplate(originalName: string, entries: Entries): Entries {
    AccountTree(OwnName(originalName), NamespaceEditor(), entries)
  }

  lemma AnnotationsRowsShifted(indent: nat)
    ensures Shift(AnnotationsRows(indent), indent) == AnnotationsBlock(indent)
  {
    hide AnnotationsBlock, AnnotationsDirective;
    AnnotationsBlockRows(indent);
  }

  // ---------------------------------------------------------------- The rows of the metadata

  /** The namespace pass and then the account pass, on one row of the metadata. */
  function MetadataRows(originalName: string): Row -> seq<Row> {
    Compose(NamespaceRows(), AccountEdit(originalName))
  }

  lemma NamespaceAgrees()
    ensures Agrees(NamespaceEditor(), NamespaceRows())
  {
    hide SetsField, Agrees, Action;
    NamespaceRule();
    SetAgrees(SetNamespace());
  }

  lemma {:induction false} MetadataFieldRows(originalName: string, key: string, text: string, indent: nat)
    requires GoodKey(key) && Clean(text) && !Contains(text, "{{")
    ensures MetadataRows(originalName)(Row(indent, key + ": " + text))
            == PieceRows(MetadataField(originalName, indent, key, text), indent)
  {
    hide Contains, Action, AnnotationsBlock, AnnotationsRows, Clean, NamespaceRows;
    var f := AccountEdit(originalName);
    var text' := if key == "namespace" then Action(ReleaseNamespace()) else text;
    NamespaceAgrees();
    assert AgreesOnField(NamespaceEditor(), NamespaceRows(), key, text, indent);
    assert NamespaceEditor().field(key, text) == [Field(key, text')];
    OnePiece(key, text', indent);
    EditRow(f, Row(indent, key + ": " + text'));
    assert "name" + ":" == "name:" && "name" + ": " == "name: ";
    RowPrefix(key, text', "name");
    if IsName(originalName, key, text) {
      OnePiece(key, Action(AccountExpression()), indent);
      TwoPieceRows(Field(key, Action(AccountExpression())), Rows(AnnotationsRows(indent)), indent);
      RowsPiece(AnnotationsRows(indent), indent);
      AnnotationsRowsShifted(indent);
    }
  }

  lemma MetadataHeaderRows(originalName: string, key: string, indent: nat)
    requires GoodKey(key) && NamespaceEditor().keepsHeader(key)
    ensures MetadataRows(originalName)(Row(indent, key + ":")) == AccountRow(originalName, Row(indent, key + ":"))
    ensures NameRow(originalName, key + ":") <==> key == "name" && Contains(key + ":", originalName)
  {
    hide Contains, NamespaceRows, AccountRow;
    NamespaceAgrees();
    assert AgreesOnHeader(NamespaceEditor(), NamespaceRows(), key, indent);
    EditRow(AccountEdit(originalName), Row(indent, key + ":"));
    assert "name" + ":" == "name:";
    RowPrefix(key, "", "name");
  }

  lemma MetadataDashRows(originalName: string, content: string, indent: nat)
    ensures AgreesOnDash(MetadataRows(originalName), content, indent)
  {
    hide Contains, NamespaceRows, AnnotationsBlock, Action;
    NamespaceAgrees();
    assert AgreesOnDash(NamespaceRows(), content, indent);
    EditRow(AccountEdit(originalName), Row(indent, "- " + content));
    assert ("- " + content)[0] == '-' && "name:"[0] == 'n';
  }

  lemma BlockHasFour(originalName: string, row: Row)
    ensures |AccountRow(originalName, row)| == if NameRow(originalName, row.content) then 1 + 4 else 1
    ensures !NameRow(originalName, row.content) ==> AccountRow(originalName, row) == [row]
  {
    hide NameRow, AnnotationsBlock;
    AnnotationsBlockRows(row.indent);
  }

  lemma MetadataFieldGood(originalName: string, key: string, text: string, indent: nat)
    requires GoodKey(key) && Clean(text)
    ensures GoodRows(PieceRows(MetadataField(originalName, indent, key, text), indent))
    ensures |PieceRows(MetadataField(originalName, indent, key, text), indent)|
            == if key != "namespace" && IsName(originalName, key, text) then 1 + 4 else 1
  {
    hide Contains, Action, AnnotationsBlock, AnnotationsRows, Clean, GoodKey;
    OnePiece(key, Action(ReleaseNamespace()), indent);
    OnePiece(key, Action(AccountExpression()), indent);
    OnePiece(key, text, indent);
    TwoPieceRows(Field(key, Action(AccountExpression())), Rows(AnnotationsRows(indent)), indent);
    RowsPiece(AnnotationsRows(indent), indent);
    AnnotationsRowsShifted(indent);
    AnnotationsBlockGood(indent);
    AnnotationsBlockRows(indent);
    ActionShape(ReleaseNamespace());
    AccountNameOneLine();
    ActionShape(AccountExpression());
    EntryRowGood(key, Action(ReleaseNamespace()), indent);
    EntryRowGood(key, Action(AccountExpression()), indent);
    EntryRowGood(key, text, indent);
  }

  /** Replacing every name, the two passes write rows too many for the headers they hit. */
  lemma EveryNameGrows(originalName: string)
    ensures Grows(MetadataEditors(originalName), NameHeaders(originalName), NamespaceEditor(), MetadataRows(originalName))
  {
    hide Contains, NamespaceEditor, MetadataRows, MetadataField, AccountRow, NameRow, Clean, GoodKey;
    var e, p, keeps, g := MetadataEditors(originalName), NameHeaders(originalName), NamespaceEditor(), MetadataRows(originalName);
    forall key, text, indent
      ensures GrowsField(e, p, g, key, text, indent)
    {
      if GoodKey(key) && Clean(text) && !Contains(text, "{{") {
        MetadataFieldRows(originalName, key, text, indent);
        MetadataFieldGood(originalName, key, text, indent);
      }
    }
    MetadataHeadersGrow(originalName, p);
    forall content, indent { MetadataDashRows(originalName, content, indent); }
  }

  lemma MetadataHeadersGrow(originalName: string, p: Probe)
    requires p.header == AnyNames(originalName).header || p.header == NameHeaders(originalName).header
    ensures forall key, indent :: GrowsHeader(p, NamespaceEditor(), MetadataRows(originalName), key, indent)
  {
    hide Contains, NamespaceEditor, MetadataRows, AccountRow, NameRow, Clean, GoodKey;
    forall key, indent
      ensures GrowsHeader(p, NamespaceEditor(), MetadataRows(originalName), key, indent)
    {
      if GoodKey(key) && NamespaceEditor().keepsHeader(key) {
        MetadataHeaderRows(originalName, key, indent);
        BlockHasFour(originalName, Row(indent, key + ":"));
      }
    }
  }

  /** Replacing no name, they write rows too many for every name they hit. */
  lemma AnyNameGrows(originalName: string)
    ensures Grows(Evenly(NamespaceEditor()), AnyNames(originalName), NamespaceEditor(), MetadataRows(originalName))
  {
    hide Contains, MetadataRows, AccountRow, NameRow, Clean, GoodKey, Action, AnnotationsRows;
    var e, p, keeps, g := Evenly(NamespaceEditor()), AnyNames(originalName), NamespaceEditor(), MetadataRows(originalName);
    forall key, text, indent
      ensures GrowsField(e, p, g, key, text, indent)
    {
      if GoodKey(key) && Clean(text) && !Contains(text, "{{") {
        MetadataFieldRows(originalName, key, text, indent);
        MetadataFieldGood(originalName, key, text, indent);
        NamespaceFieldGood(key, text, indent);
      }
    }
    MetadataHeadersGrow(originalName, p);
    forall content, indent { MetadataDashRows(originalName, content, indent); }
  }

  lemma NamespaceFieldGood(key: string, text: string, indent: nat)
    requires GoodKey(key) && Clean(text) && !Contains(text, "{{")
    ensures NamespaceEditor().field(key, text) == [Field(key, if key == "namespace" then Action(ReleaseNamespace()) else text)]
    ensures var rows := PieceRows(NamespaceEditor().field(key, text), indent); GoodRows(rows) && |rows| == 1
  {
    hide Contains, Action, Clean, GoodKey;
    var text' := if key == "namespace" then Action(ReleaseNamespace()) else text;
    ActionShape(ReleaseNamespace());
    EntryRowGood(key, text', indent);
    OnePiece(key, text', indent);
  }

  // ---------------------------------------------------------------- What the passes add to a template

  /** How many names the nested values of a level hold that the pass replaces. */
  function Deeper(p: Probe, entries: Entries): nat {
    match entries
    case NoEntries => 0
    case Splice(_, rest) => Deeper(p, rest)
    case Entry(key, value, rest) => (if value.Scalar? then 0 else CountEntry(p, key, value, false)) + Deeper(p, rest)
  }

  /** On all metadata, the passes write `count` times four rows more than `metadata` has. */
  ghost predicate Adds(originalName: string, metadata: Entries -> Entries, count: Entries -> nat) {
    forall inner | PrintableEntries(inner) && Plain(inner) && Fits(NamespaceEditor(), inner, false) ::
      AddsTo(originalName, metadata, count, inner)
  }

  ghost predicate AddsTo(originalName: string, metadata: Entries -> Entries, count: Entries -> nat, inner: Entries) {
    LongerBy(EditRows(AccountEdit(originalName), PrintEntries(EditEntries(NamespaceEditor(), inner, false), 2)),
             PrintEntries(metadata(inner), 2), count(inner))
  }

  function HeaderCount(originalName: string): Entries -> nat {
    (entries: Entries) => Count(NameHeaders(originalName), entries, false)
  }

  function DeepCount(originalName: string): Entries -> nat {
    (entries: Entries) => Deeper(AnyNames(originalName), entries)
  }

  lemma MetadataRowsTwice(originalName: string, inner: Entries)
    requires PrintableEntries(inner) && Fits(NamespaceEditor(), inner, false)
    ensures EditRows(AccountEdit(originalName), PrintEntries(EditEntries(NamespaceEditor(), inner, false), 2))
            == EditRows(MetadataRows(originalName), PrintEntries(inner, 2))
  {
    hide NamespaceEditor, NamespaceRows, AccountEdit, Agrees, Compose;
    NamespaceAgrees();
    EditPrintEntries(NamespaceEditor(), NamespaceRows(), inner, 2, false);
    EditRowsCompose(NamespaceRows(), AccountEdit(originalName), PrintEntries(inner, 2));
  }

  lemma EveryNameAdds(originalName: string)
    ensures Adds(originalName, EveryName(originalName), HeaderCount(originalName))
  {
    hide NamespaceEditor, AccountEdit, Grows, LongerBy, MetadataEditors, MetadataRows, NameHeaders, Fill, Count;
    EveryNameGrows(originalName);
    forall inner | PrintableEntries(inner) && Plain(inner) && Fits(NamespaceEditor(), inner, false)
      ensures AddsTo(originalName, EveryName(originalName), HeaderCount(originalName), inner)
    {
      MetadataRowsTwice(originalName, inner);
      GrowsEntries(MetadataEditors(originalName), NameHeaders(originalName), NamespaceEditor(), MetadataRows(originalName),
                   inner, 2, false);
    }
  }

  lemma {:induction false} FirstLevelGrows(originalName: string, inner: Entries)
    requires PrintableEntries(inner) && Plain(inner) && Fits(NamespaceEditor(), inner, false)
    ensures LongerBy(EditRows(MetadataRows(originalName), PrintEntries(inner, 2)),
                     PrintEntries(OwnName(originalName)(inner), 2), Deeper(AnyNames(originalName), inner))
  {
    hide NamespaceEditor, MetadataRows, MetadataField, AnyNames, Grows, LongerBy, GoodKey, Clean, Contains, CountEntry;
    match inner
    case NoEntries => NothingLonger();
    case Entry(key, value, rest) =>
      var g, top, deep := MetadataRows(originalName), MetadataEditors(originalName)(2).field, EditDeep(NamespaceEditor());
      FirstLevelGrows(originalName, rest);
      TopRowsPrint(top, deep, key, value, rest, 2);
      EditRowsAppend(g, PrintEntry(key, value, 2), PrintEntries(rest, 2));
      FirstLevelEntryGrows(originalName, key, value);
      LongerBoth(EditRows(g, PrintEntry(key, value, 2)), TopRows(top, deep, key, value, 2),
                 if value.Scalar? then 0 else CountEntry(AnyNames(originalName), key, value, false),
                 EditRows(g, PrintEntries(rest, 2)), PrintEntries(TopEdit(top, deep, rest), 2), Deeper(AnyNames(originalName), rest));
  }

  lemma FirstLevelEntryGrows(originalName: string, key: string, value: Node)
    requires GoodKey(key) && Printable(value) && PlainNode(value) && FitsEntry(NamespaceEditor(), key, value, false)
    ensures LongerBy(EditRows(MetadataRows(originalName), PrintEntry(key, value, 2)),
                     TopRows(MetadataEditors(originalName)(2).field, EditDeep(NamespaceEditor()), key, value, 2),
                     if value.Scalar? then 0 else CountEntry(AnyNames(originalName), key, value, false))
  {
    hide NamespaceEditor, MetadataRows, MetadataField, AnyNames, Grows, GoodKey, Clean, Contains, CountEntry;
    if value.Scalar? {
      MetadataFieldRows(originalName, key, value.text, 2);
      MetadataFieldGood(originalName, key, value.text, 2);
      EditRow(MetadataRows(originalName), Row(2, key + ": " + value.text));
    } else {
      AnyNameGrows(originalName);
      GrowsEntry(Evenly(NamespaceEditor()), AnyNames(originalName), NamespaceEditor(), MetadataRows(originalName), key, value, 2, false);
      KeptRows(NamespaceEditor(), key, value, 2);
    }
  }

  lemma OwnNameAdds(originalName: string)
    ensures Adds(originalName, OwnName(originalName), DeepCount(originalName))
  {
    hide NamespaceEditor, AccountEdit, LongerBy, OwnName, MetadataRows, AnyNames, Deeper;
    forall inner | PrintableEntries(inner) && Plain(inner) && Fits(NamespaceEditor(), inner, false)
      ensures AddsTo(originalName, OwnName(originalName), DeepCount(originalName), inner)
    {
      MetadataRowsTwice(originalName, inner);
      FirstLevelGrows(originalName, inner);
    }
  }

  /** The count over all metadata of a resource. */
  function Extra(count: Entries -> nat, entries: Entries): nat {
    match entries
    case NoEntries => 0
    case Splice(_, rest) => Extra(count, rest)
    case Entry(key, value, rest) => (if IsMetadata(key, value) then count(value.entries) else 0) + Extra(count, rest)
  }

  lemma {:induction false} NoHeadersCounted(originalName: string, entries: Entries)
    ensures Extra(HeaderCount(originalName), entries) == 0 <==> NoNameHeaders(originalName, entries)
  {
    hide NameHeaders, Hits, Count;
    match entries
    case NoEntries =>
    case Splice(_, rest) => NoHeadersCounted(originalName, rest);
    case Entry(_, value, rest) =>
      NoHeadersCounted(originalName, rest);
      if value.Mapping? {
        CountMeaning(NameHeaders(originalName), value.entries, false);
      }
  }

  lemma {:induction false} DeeperMeaning(originalName: string, entries: Entries)
    ensures Deeper(AnyNames(originalName), entries) == 0 <==> MetadataShape(originalName, entries)
  {
    hide AnyNames, EntryHits, CountEntry;
    match entries
    case NoEntries =>
    case Splice(_, rest) => DeeperMeaning(originalName, rest);
    case Entry(key, value, rest) =>
      DeeperMeaning(originalName, rest);
      CountEntryMeaning(AnyNames(originalName), key, value, false);
  }

  lemma {:induction false} NoDeepNamesCounted(originalName: string, entries: Entries)
    ensures Extra(DeepCount(originalName), entries) == 0 <==> NamesOnTop(originalName, entries)
  {
    hide AnyNames, Deeper, MetadataShape;
    match entries
    case NoEntries =>
    case Splice(_, rest) => NoDeepNamesCounted(originalName, rest);
    case Entry(_, value, rest) =>
      NoDeepNamesCounted(originalName, rest);
      if value.Mapping? {
        DeeperMeaning(originalName, value.entries);
      }
  }

  // ---------------------------------------------------------------- The text of a service account

  lemma MetadataStaysOpen(originalName: string, entries: Entries)
    requires PrintableEntries(entries)
    ensures NoneCloses(AccountRows(originalName), PrintEntry("metadata", Mapping(entries), 0)[1..])
  {
    DeeperRows(entries, 2);
    assert PrintEntry("metadata", Mapping(entries), 0)[1..] == PrintEntries(entries, 2);
  }

  lemma MetadataHeaders(key: string, value: Node)
    requires Printable(value)
    ensures EntryHits(HeaderProbe("metadata"), key, EditNode(NamespaceEditor(), value), false)
            == EntryHits(HeaderProbe("metadata"), key, value, false)
  {
    hide NamespaceEditor;
    HeadersOnly("metadata");
    match value
    case Scalar(_) =>
    case Mapping(inner) => HeadersAfterEdit(HeaderProbe("metadata"), NamespaceEditor(), inner, false);
    case Sequence(items) => HeadersInItemsAfterEdit(HeaderProbe("metadata"), NamespaceEditor(), items);
  }

  /** A resource with its namespaces set, entry by entry. */
  lemma NamedEntry(key: string, value: Node, rest: Entries)
    ensures EditEntries(NamespaceEditor(), Entry(key, value, rest), false)
            == Entry(key, if value.Scalar? then Scalar(NamespaceEditor().field(key, value.text)[0].text)
                          else EditNode(NamespaceEditor(), value), EditEntries(NamespaceEditor(), rest, false))
  {
    hide NamespaceEditor;
    NamespaceSetsTexts();
    if value.Scalar? {
      assert SetsText(NamespaceEditor(), key, value.text);
      SetTextEntry(NamespaceEditor(), key, value.text, EditEntries(NamespaceEditor(), rest, false));
    }
  }

  lemma {:induction false} MetadataOpens(originalName: string, entries: Entries)
    requires PrintableEntries(entries) && OneMetadata(entries)
    requires PrintableEntries(EditEntries(NamespaceEditor(), entries, false))
    ensures OpensOnlyAtRoot(AccountRows(originalName), EditEntries(NamespaceEditor(), entries, false))
  {
    hide GoodKey, Clean, EntryHits, NamespaceEditor, AccountRow;
    match entries
    case NoEntries =>
    case Entry(key, value, rest) =>
      NamedEntry(key, value, rest);
      MetadataOpens(originalName, rest);
      MetadataHeaders(key, value);
      match value
      case Scalar(text) => ScalarHitsNothing("metadata", key, NamespaceEditor().field(key, text)[0].text);
      case Sequence(_) =>
      case Mapping(inner) =>
        if key == "metadata" {
          MetadataStaysOpen(originalName, EditEntries(NamespaceEditor(), inner, false));
        }
  }

  lemma {:induction false} AccountRootGrows(
      originalName: string, metadata: Entries -> Entries, count: Entries -> nat, key: string, value: Node)
    requires GoodKey(key) && Printable(value) && PlainNode(value) && FitsEntry(NamespaceEditor(), key, value, false)
    requires Adds(originalName, metadata, count) && (key == "metadata" && !value.Scalar? ==> value.Mapping?)
    requires var named := EditEntries(NamespaceEditor(), Entry(key, value, NoEntries), false);
             PrintableEntries(named)
    ensures LongerBy(RootRows(AccountRows(originalName), EditEntries(NamespaceEditor(), Entry(key, value, NoEntries), false)),
                     TopRows(NamespaceEditor().field, AccountDeep(metadata, NamespaceEditor()), key, value, 0),
                     if IsMetadata(key, value) then count(value.entries) else 0)
  {
    hide GoodKey, Clean, NamespaceEditor, AccountRow, Adds;
    var e := NamespaceEditor();
    NamedEntry(key, value, NoEntries);
    NamespaceSetsTexts();
    EntriesGood(EditEntries(e, Entry(key, value, NoEntries), false), 0);
    match value
    case Scalar(text) =>
      assert SetsText(e, key, text);
      OnePiece(key, e.field(key, text)[0].text, 0);
      assert e.field(key, text) == [Field(key, e.field(key, text)[0].text)];
    case Sequence(_) =>
    case Mapping(inner) =>
      if key == "metadata" {
        var inner' := EditEntries(e, inner, false);
        AddsHere(originalName, metadata, count, inner);
        assert PrintEntry("metadata", Mapping(inner'), 0) == [Row(0, "metadata" + ":")] + PrintEntries(inner', 2);
        assert PrintEntry("metadata", Mapping(inner'), 0)[1..] == PrintEntries(inner', 2);
      }
  }

  lemma AddsHere(originalName: string, metadata: Entries -> Entries, count: Entries -> nat, inner: Entries)
    requires Adds(originalName, metadata, count)
    requires PrintableEntries(inner) && Plain(inner) && Fits(NamespaceEditor(), inner, false)
    ensures AddsTo(originalName, metadata, count, inner)
  {
  }

  lemma {:induction false} AccountRoots(originalName: string, metadata: Entries -> Entries, count: Entries -> nat, entries: Entries)
    requires PrintableEntries(entries) && Plain(entries) && Fits(NamespaceEditor(), entries, false)
    requires OneMetadata(entries) && Adds(originalName, metadata, count)
    requires PrintableEntries(EditEntries(NamespaceEditor(), entries, false))
    ensures LongerBy(RootRows(AccountRows(originalName), EditEntries(NamespaceEditor(), entries, false)),
                     PrintEntries(AccountTree(metadata, NamespaceEditor(), entries), 0), Extra(count, entries))
  {
    hide GoodKey, Clean, EntryHits, NamespaceEditor, AccountRow, Adds, LongerBy, AccountDeep;
    match entries
    case NoEntries => NothingLonger();
    case Entry(key, value, rest) =>
      var e, s, deep := NamespaceEditor(), AccountRows(originalName), AccountDeep(metadata, NamespaceEditor());
      var one := EditEntries(e, Entry(key, value, NoEntries), false);
      NamedEntry(key, value, rest);
      NamedEntry(key, value, NoEntries);
      AccountRoots(originalName, metadata, count, rest);
      AccountRootGrows(originalName, metadata, count, key, value);
      TopRowsPrint(e.field, deep, key, value, rest, 0);
      RootRowsOne(s, one.key, one.value, EditEntries(e, rest, false));
      LongerBoth(RootRows(s, one), TopRows(e.field, deep, key, value, 0), if IsMetadata(key, value) then count(value.entries) else 0,
                 RootRows(s, EditEntries(e, rest, false)), PrintEntries(TopEdit(e.field, deep, rest), 0), Extra(count, rest));
  }

  lemma RootRowsOne(s: RowSection, key: string, value: Node, rest: Entries)
    ensures RootRows(s, Entry(key, value, rest)) == RootRows(s, Entry(key, value, NoEntries)) + RootRows(s, rest)
  {
  }

  /** The text the passes write is that of a template tree exactly when the passes add nothing to it. */
  lemma {:induction false} AccountTextExact(originalName: string, metadata: Entries -> Entries, count: Entries -> nat, entries: Entries)
    requires AccountReadable(entries) && Adds(originalName, metadata, count)
    ensures var template := PrintEntries(AccountTree(metadata, NamespaceEditor(), entries), 0);
            && GoodRows(template)
            && (AccountText(originalName, Marshal(entries)) == TextOf(Texts(template)) <==> Extra(count, entries) == 0)
  {
    hide RowText, GoodRow, Marshal, SetsField, Action, Apply, SectionPass, NamespaceEditor, AccountTree, Plain, Adds, AccountRow;
    var s := AccountRows(originalName);
    var named := EditEntries(NamespaceEditor(), entries, false);
    MarshalIsPrintText(entries);
    NamespaceOnTree(entries);
    EntriesGood(named, 0);
    TextsOneLine(PrintEntries(named, 0));
    LinesOfText(Texts(PrintEntries(named, 0)));
    forall row { AccountOnRow(originalName, row); }
    SectionOnRows(AccountMetadata(originalName), s, PrintEntries(named, 0), false);
    AccountSection(originalName);
    MetadataOpens(originalName, entries);
    PassOnRoot(s, named, false);
    AccountRoots(originalName, metadata, count, entries);
    TreePrintsSomething(metadata, entries);
    JoinTextsInjective(RootRows(s, named), PrintEntries(AccountTree(metadata, NamespaceEditor(), entries), 0));
  }

  lemma TreePrintsSomething(metadata: Entries -> Entries, entries: Entries)
    requires entries.Entry?
    ensures PrintEntries(AccountTree(metadata, NamespaceEditor(), entries), 0) != []
  {
    hide NamespaceEditor, AccountDeep;
    NamespaceSetsTexts();
    TopPrintsSomething(NamespaceEditor(), AccountDeep(metadata, NamespaceEditor()), entries);
  }

  /**
   The text the passes write is the printout of the template tree, in which every name of the
   metadata that mentions the original name is replaced, exactly when none of these names is
   that of a nested value.
   */
  lemma AccountTextIsTemplate(originalName: string, entries: Entries)
    requires AccountReadable(entries)
    ensures AccountText(originalName, Marshal(entries)) == TextOf(Texts(PrintEntries(AccountTemplate(originalName, entries), 0)))
            <==> NoNameHeaders(originalName, entries)
    ensures GoodRows(PrintEntries(AccountTemplate(originalName, entries), 0))
  {
    hide AccountText, Marshal, TextOf, Texts, NamespaceEditor, AccountTree, Adds, EveryName, HeaderCount, AccountReadable, GoodRows;
    EveryNameAdds(originalName);
    AccountTextExact(originalName, EveryName(originalName), HeaderCount(originalName), entries);
    NoHeadersCounted(originalName, entries);
  }

  /**
   The text is that of the template in which only the account's own name is replaced exactly
   when no name below the first level of the metadata mentions it.
   */
  lemma OwnNameAloneIsReplaced(originalName: string, entries: Entries)
    requires AccountReadable(entries)
    ensures AccountText(originalName, Marshal(entries)) == TextOf(Texts(PrintEntries(OwnNameTemplate(originalName, entries), 0)))
            <==> NamesOnTop(originalName, entries)
  {
    hide AccountText, Marshal, TextOf, Texts, NamespaceEditor, AccountTree, Adds, OwnName, DeepCount, AccountReadable, GoodRows;
    OwnNameAdds(originalName);
    AccountTextExact(originalName, OwnName(originalName), DeepCount(originalName), entries);
    NoDeepNamesCounted(originalName, entries);
  }

  // ---------------------------------------------------------------- Two accounts

  lemma ExampleKeys()
    ensures GoodKey("kind") && GoodKey("metadata") && GoodKey("labels") && GoodKey("name") && GoodKey("x")
    ensures '{' !in "kind" && '{' !in "metadata" && '{' !in "labels" && '{' !in "name" && '{' !in "x"
  {
  }

  lemma ExampleTexts()
    ensures Clean("ServiceAccount") && Clean("sa") && Clean("y")
    ensures '{' !in "ServiceAccount" && '{' !in "sa" && '{' !in "y"
  {
  }

  lemma ExampleName()
    ensures Contains("name" + ": " + "sa", "sa") && !Contains("name" + ":", "sa")
  {
    hide Contains;
    ContainsMiddle("name" + ": ", "sa", "");
    assert "name" + ": " + "sa" + "" == "name" + ": " + "sa";
    assert 's' in "sa" && 's' !in "name" + ":";
    if Contains("name" + ":", "sa") {
      ContainsChars("name" + ":", "sa", 's');
    }
  }

  /** Metadata whose name is a mapping, so that the resource counts as one without a name. */
  function NestedName(): Entries {
    var metadata := Entry("name", Mapping(Entry("x", Scalar("y"), NoEntries)), NoEntries);
    Entry("metadata", Mapping(metadata), NoEntries)
  }

  /** There the pass replaces the header of the mapping, and the text is that of no template tree. */
  lemma NestedNameIsBroken()
    ensures AccountReadable(NestedName())
    ensures AccountText("", Marshal(NestedName())) != TextOf(Texts(PrintEntries(AccountTemplate("", NestedName()), 0)))
  {
    hide GoodKey, Clean, Action, AccountText, Marshal, TextOf, Texts, AccountTemplate;
    ExampleKeys();
    ExampleTexts();
    NoBraceNoAction("y");
    var inner := Entry("x", Scalar("y"), NoEntries);
    assert PrintableEntries(inner) && Plain(inner) && Fits(NamespaceEditor(), inner, false);
    var metadata := Entry("name", Mapping(inner), NoEntries);
    assert "name" != "namespace" && "metadata"[0] != "namespace"[0];
    assert PrintableEntries(metadata) && Plain(metadata) && Fits(NamespaceEditor(), metadata, false);
    assert Hits(NameHeaders(""), metadata, false);
    assert OneMetadata(NestedName()) && !NoNameHeaders("", NestedName());
    AccountTextIsTemplate("", NestedName());
  }

  function LabelledMetadata(): Entries {
    Entry("labels", Mapping(Entry("name", Scalar("sa"), NoEntries)), Entry("name", Scalar("sa"), NoEntries))
  }

  /** A service account that has its name as a label, too. */
  function LabelledAccount(): Entries {
    Entry("kind", Scalar("ServiceAccount"), Entry("metadata", Mapping(LabelledMetadata()), NoEntries))
  }

  lemma LabelledReadable()
    ensures AccountReadable(LabelledAccount())
  {
    hide GoodKey, Clean, Contains, Action;
    ExampleKeys();
    ExampleTexts();
    NoBraceNoAction("ServiceAccount");
    NoBraceNoAction("sa");
    var name := Entry("name", Scalar("sa"), NoEntries);
    assert PrintableEntries(name) && Plain(name) && Fits(NamespaceEditor(), name, false);
    var inner := LabelledMetadata();
    assert "labels"[0] != "namespace"[0] && "metadata"[0] != "namespace"[0];
    assert PrintableEntries(inner) && Plain(inner) && Fits(NamespaceEditor(), inner, false);
    var root := Entry("metadata", Mapping(inner), NoEntries);
    assert PrintableEntries(root) && Plain(root) && Fits(NamespaceEditor(), root, false) && OneMetadata(root);
    ScalarHitsNothing("metadata", "kind", "ServiceAccount");
  }

  lemma LabelHits()
    ensures NoNameHeaders("sa", LabelledAccount()) && !NamesOnTop("sa", LabelledAccount())
  {
    hide Contains;
    ExampleName();
    var name := Entry("name", Scalar("sa"), NoEntries);
    assert !Hits(NameHeaders("sa"), name, false);
    assert !Hits(NameHeaders("sa"), LabelledMetadata(), false);
    assert Hits(AnyNames("sa"), name, false);
    assert EntryHits(AnyNames("sa"), "labels", Mapping(name), false);
    assert !MetadataShape("sa", LabelledMetadata());
    var root := Entry("metadata", Mapping(LabelledMetadata()), NoEntries);
    assert NoNameHeaders("sa", root) && !NamesOnTop("sa", root);
  }

  lemma NameRowCount(indent: nat)
    ensures |PrintEntries(Fill(MetadataEditors("sa"), KeepBlocks(), Entry("name", Scalar("sa"), NoEntries), indent, false), indent)| == 5
  {
    hide GoodKey, Clean, Contains, MetadataField;
    ExampleKeys();
    ExampleTexts();
    ExampleName();
    MetadataFieldGood("sa", "name", "sa", indent);
    FilledRowsPrint(MetadataEditors("sa"), KeepBlocks(), "name", Scalar("sa"), NoEntries, indent, false);
  }

  lemma LabelledRows()
    ensures |PrintEntries(LabelledAccount(), 0)| == 5
    ensures |PrintEntries(AccountTemplate("sa", LabelledAccount()), 0)| == 13
  {
    hide GoodKey, Clean, Contains, Action, MetadataField, NamespaceEditor, MetadataEditors;
    ExampleKeys();
    ExampleTexts();
    ExampleName();
    NoBraceNoAction("ServiceAccount");
    NamespaceFieldGood("kind", "ServiceAccount", 0);
    var name := Entry("name", Scalar("sa"), NoEntries);
    var root := Entry("metadata", Mapping(LabelledMetadata()), NoEntries);
    NameRowCount(4);
    NameRowCount(2);
    assert |PrintEntries(name, 4)| == 1 && |PrintEntries(name, 2)| == 1;
    assert |PrintEntries(LabelledMetadata(), 2)| == 3;
    var deep := AccountDeep(EveryName("sa"), NamespaceEditor());
    FilledRowsPrint(MetadataEditors("sa"), KeepBlocks(), "labels", Mapping(name), name, 2, false);
    assert |PrintEntries(EveryName("sa")(LabelledMetadata()), 2)| == 11;
    TopRowsPrint(NamespaceEditor().field, deep, "kind", Scalar("ServiceAccount"), root, 0);
    TopRowsPrint(NamespaceEditor().field, deep, "metadata", Mapping(LabelledMetadata()), NoEntries, 0);
  }

  /** The pass replaces the label, too, and puts a second block of annotations behind it: five rows become thirteen. */
  lemma LabelIsReplaced()
    ensures |PrintEntries(LabelledAccount(), 0)| == 5
    ensures |PrintEntries(AccountTemplate("sa", LabelledAccount()), 0)| == 13
    ensures AccountCompilable("sa", LabelledAccount())
    ensures var text := AccountText("sa", Marshal(LabelledAccount()));
            && text == TextOf(Texts(PrintEntries(AccountTemplate("sa", LabelledAccount()), 0)))
            && text != TextOf(Texts(PrintEntries(OwnNameTemplate("sa", LabelledAccount()), 0)))
  {
    hide AccountText, Marshal, TextOf, Texts, AccountTemplate, OwnNameTemplate, NoNameHeaders, NamesOnTop, AccountReadable;
    LabelledReadable();
    LabelHits();
    LabelledRows();
    AccountTextIsTemplate("sa", LabelledAccount());
    OwnNameAloneIsReplaced("sa", LabelledAccount());
  }

  // ---------------------------------------------------------------- What it renders to

  function InstalledField(env: Env, originalName: string, key: string, text: string): seq<Piece> {
    if key == "namespace" then [Field(key, env.release.namespace)]
    else if IsName(originalName, key, text) then
      [Field(key, AccountName(env)), Rows(AnnotationRows(env.values.annotations, 0))]
    else [Field(key, text)]
  }

  function InstalledEditors(env: Env, originalName: string): Editors {
    (indent: nat) => Editor((key, text) => InstalledField(env, originalName, key, text), key => true)
  }

  function InstalledMetadata(env: Env, originalName: string): Entries -> Entries {
    (entries: Entries) => Fill(InstalledEditors(env, originalName), KeepBlocks(), entries, 2, false)
  }

  /**
   The service account installed from a resource: every namespace is that of the release, and
   every name in the metadata that mentions the original name becomes that of the service
   account, followed by the annotations of the values.
   */
  function AccountInstance(env: Env, originalName: string, entries: Entries): Entries {
    AccountTree(InstalledMetadata(env, originalName), InstalledNamespace(env), entries)
  }

  lemma AnnotationRowsShifted(annotations: Entries, indent: nat)
    requires PrintableEntries(annotations)
    ensures Shift(AnnotationRows(annotations, 0), indent) == AnnotationRows(annotations, indent)
  {
    if annotations != NoEntries {
      PrintShift(annotations, 2, indent);
      ShiftAppend([Row(0, "annotations:")], PrintEntries(annotations, 2), indent);
    }
  }

  lemma AccountNameRenders(env: Env, indent: nat)
    requires PrintableEntries(env.values.annotations)
    ensures Renders(env, PieceRows([Field("name", Action(AccountExpression())), Rows(AnnotationsRows(indent))], indent),
                         PieceRows([Field("name", AccountName(env)), Rows(AnnotationRows(env.values.annotations, 0))], indent))
  {
    hide Renders, Action, AccountName, AnnotationsRows, AnnotationRows, PrintableEntries, Clean;
    var rows := AnnotationRows(env.values.annotations, 0);
    TwoPieceRows(Field("name", Action(AccountExpression())), Rows(AnnotationsRows(indent)), indent);
    TwoPieceRows(Field("name", AccountName(env)), Rows(rows), indent);
    OnePiece("name", Action(AccountExpression()), indent);
    OnePiece("name", AccountName(env), indent);
    RowsPiece(AnnotationsRows(indent), indent);
    RowsPiece(rows, indent);
    AnnotationsRowsShifted(indent);
    AnnotationRowsShifted(env.values.annotations, indent);
    NameKeyClean();
    RendersAccount(env, indent, "name");
    RendersAnnotations(env, indent);
    RendersBoth(env, [Row(indent, "name" + ": " + Action(AccountExpression()))], [Row(indent, "name" + ": " + AccountName(env))],
                AnnotationsBlock(indent), AnnotationRows(env.values.annotations, indent));
  }

  lemma {:induction false} MetadataFieldRenders(env: Env, originalName: string, key: string, text: string, indent: nat)
    requires PrintableEntries(env.values.annotations)
    ensures FieldRenders(env, MetadataEditors(originalName), InstalledEditors(env, originalName), key, text, indent)
  {
    hide Renders, Contains, Action, AccountName, AnnotationsRows, AnnotationRows, PrintableEntries, Clean, GoodKey;
    if GoodKey(key) && '{' !in key && Clean(text) && !Contains(text, "{{") {
      if key == "namespace" {
        RendersNamespace(env, indent);
        assert "namespace" + ": " == "namespace: ";
        RendersOneField(env, key, Action(ReleaseNamespace()), env.release.namespace, indent);
      } else if IsName(originalName, key, text) {
        AccountNameRenders(env, indent);
      } else {
        RendersSame(env, key, text, indent);
      }
    }
  }

  lemma MetadataMatches(env: Env, originalName: string)
    requires PrintableEntries(env.values.annotations)
    ensures Matches(env, MetadataEditors(originalName), InstalledEditors(env, originalName), KeepBlocks(), KeepBlocks())
  {
    hide Renders, FieldRenders, MetadataEditors, InstalledEditors, BlockRenders, PrintableEntries;
    forall key, text, indent
      ensures FieldRenders(env, MetadataEditors(originalName), InstalledEditors(env, originalName), key, text, indent)
    {
      MetadataFieldRenders(env, originalName, key, text, indent);
    }
    NoBlocks(env);
  }

  lemma MetadataRenders(env: Env, originalName: string, entries: Entries)
    requires PrintableEntries(entries) && Plain(entries) && PrintableEntries(env.values.annotations)
    ensures Renders(env, PrintEntries(EveryName(originalName)(entries), 2),
                         PrintEntries(InstalledMetadata(env, originalName)(entries), 2))
  {
    hide Renders, Matches, MetadataEditors, InstalledEditors, RendersTail, Fill, PrintableEntries, Plain;
    MetadataMatches(env, originalName);
    RenderFill(env, MetadataEditors(originalName), InstalledEditors(env, originalName), KeepBlocks(), KeepBlocks(), entries, 2, false);
    RestRenders(env, PrintEntries(EveryName(originalName)(entries), 2),
                     PrintEntries(InstalledMetadata(env, originalName)(entries), 2));
  }

  lemma {:induction false} AccountTopRenders(env: Env, originalName: string, entries: Entries)
    requires PrintableEntries(entries) && Plain(entries) && PrintableEntries(env.values.annotations)
    ensures TopRenders(env, NamespaceEditor().field, AccountDeep(EveryName(originalName), NamespaceEditor()),
                       InstalledNamespace(env).field,
                       AccountDeep(InstalledMetadata(env, originalName), InstalledNamespace(env)), entries, 0)
  {
    hide Renders, GoodKey, Clean, Contains, FieldsRender, NamespaceEditor, InstalledNamespace, InstalledMetadata, EveryName;
    match entries
    case NoEntries =>
    case Entry(key, value, rest) =>
      NamespaceRenders(env);
      AccountTopRenders(env, originalName, rest);
      match value
      case Scalar(text) =>
        OneFieldRenders(env, NamespaceEditor(), InstalledNamespace(env), key, text, 0);
      case Sequence(_) => RenderDeep(env, NamespaceEditor(), InstalledNamespace(env), key, value, 0);
      case Mapping(inner) =>
        if key == "metadata" {
          MetadataRenders(env, originalName, inner);
          RendersHeader(env, key, 0, PrintEntries(EveryName(originalName)(inner), 2),
                        PrintEntries(InstalledMetadata(env, originalName)(inner), 2));
        } else {
          RenderDeep(env, NamespaceEditor(), InstalledNamespace(env), key, value, 0);
        }
  }

  /** The meaning of the service account template, whatever the values and the release. */
  lemma AccountMeaning(env: Env, originalName: string, entries: Entries)
    requires AccountCompilable(originalName, entries) && PrintableEntries(env.values.annotations)
    ensures Render(env, AccountText(originalName, Marshal(entries))) == Some(PrintText(AccountInstance(env, originalName, entries)))
  {
    hide Renders, Render, AccountText, Marshal, GoodKey, SetsTexts, StartsVisibly, GoodRows, TopRenders, Fits, OneMetadata;
    hide NamespaceEditor, InstalledNamespace, InstalledMetadata, EveryName, TextOf, Texts, NoNameHeaders;
    AccountTextIsTemplate(originalName, entries);
    AccountTopRenders(env, originalName, entries);
    NamespaceSetsTexts();
    InstalledSetsTexts(env);
    var deep := AccountDeep(EveryName(originalName), NamespaceEditor());
    var deep' := AccountDeep(InstalledMetadata(env, originalName), InstalledNamespace(env));
    RenderTop(env, NamespaceEditor().field, deep, InstalledNamespace(env).field, deep', entries, 0);
    TopStartsVisibly(NamespaceEditor(), deep, entries);
    TopPrintsSomething(InstalledNamespace(env), deep', entries);
    RenderTextOf(env, PrintEntries(AccountTemplate(originalName, entries), 0),
                 PrintEntries(AccountInstance(env, originalName, entries), 0));
    TextOfPrint(PrintEntries(AccountInstance(env, originalName, entries), 0));
  }

  /** The account's own name is one the pass replaces, plain or quoted. */
  lemma OwnNameIsReplaced(text: string)
    ensures IsName(Unquote(text), "name", text)
  {
    if IsQuoted(text) {
      assert text == text[..1] + Unquote(text) + text[|text| - 1..];
      ContainsMiddle(text[..1], Unquote(text), text[|text| - 1..]);
    } else {
      assert Contains(text, text);
    }
    ContainsRight("name" + ": ", text, Unquote(text));
  }
}
