/**
 The Deployment template: what `transformDeployment` makes of a resource, and what that
 renders to.
 */
module DeploymentChart {
  import opened Wrappers
  import opened GoStrings
  import opened LinePasses
  import opened PassLaws
  import opened Yaml
  import opened TreeEdits
  import opened FieldRefinement
  import opened Elision
  import opened HelmTemplate
  import opened EmittedRendering
  import opened ChartRendering

  // ---------------------------------------------------------------- The passes on rows

  function ImageRow(row: Row): seq<Row> {
    if HasPrefix(row.content, "image:") && !Contains(row.content, "{{") then
      [Row(row.indent, "image: " + QuotedImageRef()), Row(row.indent, "imagePullPolicy: Always")]
    else if HasPrefix(row.content, "imagePullPolicy:") then []
    else [row]
  }

  /** The rows of the guarded pull secret, at indent 0. */
  function PullSecretBlock(): seq<Row> {
    Guarded(0, SecretGuard(), PullSecretBody(0))
  }

  function PullSecretRow(row: Row): seq<Row> {
    if HasPrefix(row.content, "serviceAccountName:") then [row] + Shift(PullSecretBlock(), row.indent) else [row]
  }

  /** A pass on lines, seen on rows. */
  ghost predicate OnRow(rule: LineRule, f: Row -> seq<Row>, row: Row) {
    GoodRow(row) ==> LinesFor(rule, RowText(row)) == Texts(f(row)) && GoodRows(f(row))
  }

  lemma {:induction false} ApplyOnRows(rule: LineRule, f: Row -> seq<Row>, rows: seq<Row>)
    requires forall row :: OnRow(rule, f, row)
    requires GoodRows(rows)
    ensures Apply(rule, Texts(rows)) == Texts(EditRows(f, rows)) && GoodRows(EditRows(f, rows))
  {
    hide RowText, GoodRow, LinesFor;
    if rows != [] {
      assert rows[0] in rows;
      assert OnRow(rule, f, rows[0]);
      ApplyOnRows(rule, f, rows[1..]);
      assert Texts(rows)[1..] == Texts(rows[1..]);
      TextsAppend(f(rows[0]), EditRows(f, rows[1..]));
    }
  }

  lemma SetOnRow(rule: LineRule, row: Row)
    requires rule.SetValue? && SetsField(rule)
    ensures OnRow(rule, SetRows(rule.key, rule.template), row)
  {
    hide RowText, LinesFor, SetRow, SetsField, Clean;
    if GoodRow(row) {
      SetLineOfRow(rule, row);
    }
  }

  lemma QuotedImageClean()
    ensures Clean(QuotedImageRef()) && Clean("image: " + QuotedImageRef()) && Clean("imagePullPolicy: Always")
  {
    ActionShape(ImageExpression());
  }

  lemma ImageOnRow(row: Row)
    ensures OnRow(SetImage, ImageRow, row)
  {
    hide TrimSpace, IndentOf, Contains, QuotedImageRef, Clean;
    if GoodRow(row) {
      RowLine(row);
      QuotedImageClean();
      assert Spaces(row.indent) + "image: " + QuotedImageRef() == Spaces(row.indent) + ("image: " + QuotedImageRef());
    }
  }

  lemma PullSecretTexts(indent: nat)
    ensures Texts(Shift(PullSecretBlock(), indent))
            == [Spaces(indent) + WithPullSecret(), Spaces(indent) + "imagePullSecrets:",
                Spaces(indent) + "  - name: " + Action("."), Spaces(indent) + EndDirective()]
  {
    hide Action, TrimAction;
    WithSecretAction();
    EndAction();
    assert Spaces(indent + 2) == Spaces(indent) + "  ";
    var rows := Shift(PullSecretBlock(), indent);
    assert rows[0] == Row(indent, WithPullSecret()) && rows[1] == Row(indent, "imagePullSecrets:");
    assert rows[2] == Row(indent + 2, "- name: " + Action(".")) && rows[3] == Row(indent, EndDirective());
    assert RowText(rows[2]) == Spaces(indent) + "  - name: " + Action(".");
  }

  lemma PullSecretRowsGood()
    ensures Clean(WithPullSecret()) && Clean(EndDirective()) && Clean("imagePullSecrets:")
    ensures WithPullSecret()[0] != 'r' && EndDirective()[0] != 'r'
  {
    assert '\n' !in "{{- " && '\n' !in "with .Values.imagePullSecret" && '\n' !in " }}";
    assert WithPullSecret()[|WithPullSecret()| - 1] == '}';
  }

  lemma PullSecretItemGood()
    ensures Clean("- name: " + Action(".")) && ("- name: " + Action("."))[0] == '-'
  {
    hide Action;
    ActionShape(".");
    assert Clean("- name:");
    CleanConcat("- name:", Action("."));
    assert "- name: " + Action(".") == "- name:" + " " + Action(".");
  }

  lemma PullSecretBlockGood()
    ensures GoodSplice(PullSecretBlock())
  {
    hide Action, TrimAction, Clean;
    WithSecretAction();
    EndAction();
    PullSecretRowsGood();
    PullSecretItemGood();
    var rows := PullSecretBlock();
    assert rows == [Row(0, WithPullSecret()), Row(0, "imagePullSecrets:"), Row(2, "- name: " + Action(".")), Row(0, EndDirective())];
    assert "resources:"[0] == 'r';
  }

  lemma PullSecretOnRow(row: Row)
    ensures OnRow(AddPullSecrets, PullSecretRow, row)
  {
    hide TrimSpace, IndentOf, Contains, Clean, PullSecretBlock, Action;
    if GoodRow(row) {
      RowLine(row);
      if HasPrefix(row.content, "serviceAccountName:") {
        PullSecretBlockGood();
        PullSecretTexts(row.indent);
        TextsAppend([row], Shift(PullSecretBlock(), row.indent));
        forall i | 0 <= i < |PullSecretBlock()|
          ensures GoodRow(Shift(PullSecretBlock(), row.indent)[i])
        {
          assert PullSecretBlock()[i] in PullSecretBlock();
        }
      }
    }
  }

  // ---------------------------------------------------------------- The passes on entries

  function ImageField(key: string, text: string): seq<Piece> {
    if key == "image" && !Contains(text, "{{") then
      [Field("image", QuotedImageRef()), Field("imagePullPolicy", "Always")]
    else if key == "imagePullPolicy" then []
    else [Field(key, text)]
  }

  function ImageEditor(): Editor {
    Editor(ImageField, key => key != "image" && key != "imagePullPolicy")
  }

  function PullSecretField(key: string, text: string): seq<Piece> {
    if key == "serviceAccountName" then [Field(key, text), Rows(PullSecretBlock())] else [Field(key, text)]
  }

  function PullSecretEditor(): Editor {
    Editor(PullSecretField, key => key != "serviceAccountName")
  }

  lemma OnePiece(key: string, text: string, indent: nat)
    ensures PieceRows([Field(key, text)], indent) == [Row(indent, key + ": " + text)]
  {
    assert [Field(key, text)][1..] == [];
  }

  /** An entry's row has the prefix of a field exactly when it has its key. */
  lemma RowPrefix(key: string, text: string, field: string)
    requires ':' !in key && ':' !in field
    ensures HasPrefix(key + ": " + text, field + ":") <==> key == field
    ensures HasPrefix(key + ":", field + ":") <==> key == field
  {
    FieldPrefix(key, " " + text, field);
    FieldPrefix(key, "", field);
    assert key + ": " + text == key + ":" + (" " + text);
    assert key + ":" == key + ":" + "";
  }

  lemma ImageAgrees()
    ensures Agrees(ImageEditor(), ImageRow)
  {
    hide Contains, QuotedImageRef, Clean;
    forall key, text, indent
      ensures AgreesOnField(ImageEditor(), ImageRow, key, text, indent)
    {
      if GoodKey(key) && Clean(text) {
        ImageAgreesOnField(key, text, indent);
      }
    }
    forall key, indent
      ensures AgreesOnHeader(ImageEditor(), ImageRow, key, indent)
    {
      if GoodKey(key) {
        assert "image" + ":" == "image:" && "imagePullPolicy" + ":" == "imagePullPolicy:";
        RowPrefix(key, "", "image");
        RowPrefix(key, "", "imagePullPolicy");
      }
    }
    forall content, indent
      ensures AgreesOnDash(ImageRow, content, indent)
    {
      assert ("- " + content)[0] == '-' && "image:"[0] == 'i' && "imagePullPolicy:"[0] == 'i';
    }
  }

  lemma ImageAgreesOnField(key: string, text: string, indent: nat)
    requires GoodKey(key) && Clean(text)
    ensures ImageRow(Row(indent, key + ": " + text)) == PieceRows(ImageField(key, text), indent)
  {
    hide Contains, QuotedImageRef, Clean;
    assert "image" + ":" == "image:" && "imagePullPolicy" + ":" == "imagePullPolicy:";
    RowPrefix(key, text, "image");
    RowPrefix(key, text, "imagePullPolicy");
    OnePiece(key, text, indent);
    if key == "image" {
      BracesAfterPlain("image: ", text);
      assert "image" + ": " == "image: ";
      var pieces := [Field("image", QuotedImageRef()), Field("imagePullPolicy", "Always")];
      assert pieces[1..] == [Field("imagePullPolicy", "Always")];
      OnePiece("imagePullPolicy", "Always", indent);
      assert "imagePullPolicy" + ": " + "Always" == "imagePullPolicy: Always";
    }
  }

  lemma PullSecretAgrees()
    ensures Agrees(PullSecretEditor(), PullSecretRow)
  {
    hide Contains, PullSecretBlock, Clean;
    assert "serviceAccountName" + ":" == "serviceAccountName:";
    forall key, text, indent
      ensures AgreesOnField(PullSecretEditor(), PullSecretRow, key, text, indent)
    {
      if GoodKey(key) && Clean(text) {
        RowPrefix(key, text, "serviceAccountName");
        OnePiece(key, text, indent);
        var pieces := [Field(key, text), Rows(PullSecretBlock())];
        assert pieces[1..] == [Rows(PullSecretBlock())] && pieces[1..][1..] == [];
        assert PieceRows(pieces[1..], indent) == Shift(PullSecretBlock(), indent) + PieceRows([], indent);
      }
    }
    forall key, indent
      ensures AgreesOnHeader(PullSecretEditor(), PullSecretRow, key, indent)
    {
      if GoodKey(key) {
        RowPrefix(key, "", "serviceAccountName");
      }
    }
    forall content, indent
      ensures AgreesOnDash(PullSecretRow, content, indent)
    {
      assert ("- " + content)[0] == '-' && "serviceAccountName:"[0] == 's';
    }
  }

  // ---------------------------------------------------------------- All passes at once

  function NamespaceEditor(): Editor {
    SetEditor("namespace", Action(ReleaseNamespace()))
  }

  function NamespaceRows(): Row -> seq<Row> {
    SetRows("namespace", Action(ReleaseNamespace()))
  }

  /** The passes of `transformDeployment` except the one for the resources block, in order. */
  function TemplateEditor(): Editor {
    Then(Then(Then(Then(NamespaceEditor(), ImageEditor()), SetEditor("replicas", Action(ReplicasValue()))),
              SetEditor("serviceAccountName", Action(AccountExpression()))),
         PullSecretEditor())
  }

  function TemplateRows(): Row -> seq<Row> {
    Compose(Compose(Compose(Compose(NamespaceRows(), ImageRow), SetRows("replicas", Action(ReplicasValue()))),
                    SetRows("serviceAccountName", Action(AccountExpression()))),
            PullSecretRow)
  }

  lemma SetFieldsOnly(rule: LineRule)
    requires rule.SetValue? && SetsField(rule) && rule.key[0] != '-'
    ensures FieldsOnly(SetEditor(rule.key, rule.template))
  {
    hide Contains;
    forall key, text
      ensures FieldsOnlyAt(SetEditor(rule.key, rule.template), key, text)
    {
    }
  }

  lemma ImageFieldsOnly()
    ensures FieldsOnly(ImageEditor())
  {
    hide Contains, QuotedImageRef;
    QuotedImageClean();
    forall key, text
      ensures FieldsOnlyAt(ImageEditor(), key, text)
    {
    }
  }

  lemma SetAgrees(rule: LineRule)
    requires rule.SetValue? && SetsField(rule) && rule.key[0] != '-'
    ensures Agrees(SetEditor(rule.key, rule.template), SetRows(rule.key, rule.template))
  {
    hide SetsField, Agrees;
    SetIsOneForOne(rule);
    OneForOneAgrees(SetEditor(rule.key, rule.template), SetRows(rule.key, rule.template));
  }

  lemma OneForOneAgrees(e: Editor, f: Row -> seq<Row>)
    requires OneForOne(e, f)
    ensures Agrees(e, f)
  {
    hide Agrees;
  }

  lemma TemplateAgrees()
    ensures Agrees(TemplateEditor(), TemplateRows())
  {
    hide Agrees, FieldsOnly, SetsField, Action;
    KnownRules();
    SetAgrees(SetNamespace());
    SetFieldsOnly(SetNamespace());
    ImageAgrees();
    ImageFieldsOnly();
    SetAgrees(SetReplicas());
    SetFieldsOnly(SetReplicas());
    SetAgrees(SetAccount());
    SetFieldsOnly(SetAccount());
    PullSecretAgrees();
    var e1, f1 := NamespaceEditor(), NamespaceRows();
    ComposeAgrees(e1, f1, ImageEditor(), ImageRow);
    ComposeFieldsOnly(e1, ImageEditor());
    var e2, f2 := Then(e1, ImageEditor()), Compose(f1, ImageRow);
    var e, f := SetEditor("replicas", Action(ReplicasValue())), SetRows("replicas", Action(ReplicasValue()));
    ComposeAgrees(e2, f2, e, f);
    ComposeFieldsOnly(e2, e);
    var e3, f3 := Then(e2, e), Compose(f2, f);
    var e', f' := SetEditor("serviceAccountName", Action(AccountExpression())), SetRows("serviceAccountName", Action(AccountExpression()));
    ComposeAgrees(e3, f3, e', f');
    ComposeFieldsOnly(e3, e');
    ComposeAgrees(Then(e3, e'), Compose(f3, f'), PullSecretEditor(), PullSecretRow);
  }

  /** What the passes together make of an entry without template actions. */
  function TemplateField(key: string, text: string): seq<Piece> {
    if key == "namespace" then [Field(key, Action(ReleaseNamespace()))]
    else if key == "image" then [Field(key, QuotedImageRef()), Field("imagePullPolicy", "Always")]
    else if key == "imagePullPolicy" then []
    else if key == "replicas" then [Field(key, Action(ReplicasValue()))]
    else if key == "serviceAccountName" then [Field(key, Action(AccountExpression())), Rows(PullSecretBlock())]
    else [Field(key, text)]
  }

  lemma EditOnePiece(e: Editor, key: string, text: string)
    ensures EditPieces(e, [Field(key, text)]) == e.field(key, text)
  {
    assert [Field(key, text)][1..] == [];
  }

  lemma TemplateFieldMeaning(key: string, text: string)
    requires !Contains(text, "{{")
    ensures TemplateEditor().field(key, text) == TemplateField(key, text)
  {
    hide Contains, Action, QuotedImageRef, PullSecretBlock;
    var rep, acc := SetEditor("replicas", Action(ReplicasValue())), SetEditor("serviceAccountName", Action(AccountExpression()));
    var k1 := if key == "namespace" then Action(ReleaseNamespace()) else text;
    assert NamespaceEditor().field(key, text) == [Field(key, k1)];
    EditOnePiece(ImageEditor(), key, k1);
    if key == "image" {
      var two := [Field("image", QuotedImageRef()), Field("imagePullPolicy", "Always")];
      TwoPieces(rep, two[0], two[1]);
      TwoPieces(acc, two[0], two[1]);
      TwoPieces(PullSecretEditor(), two[0], two[1]);
      assert EditPieces(rep, two) == two && EditPieces(acc, two) == two && EditPieces(PullSecretEditor(), two) == two;
    } else if key == "imagePullPolicy" {
      assert EditPieces(rep, []) == [] && EditPieces(acc, []) == [] && EditPieces(PullSecretEditor(), []) == [];
    } else {
      EditOnePiece(rep, key, k1);
      var k2 := if key == "replicas" then Action(ReplicasValue()) else k1;
      assert EditPieces(rep, [Field(key, k1)]) == [Field(key, k2)];
      EditOnePiece(acc, key, k2);
      var k3 := if key == "serviceAccountName" then Action(AccountExpression()) else k2;
      EditOnePiece(PullSecretEditor(), key, k3);
    }
  }

  lemma TwoPieces(e: Editor, a: Piece, b: Piece)
    requires a.Field? && b.Field?
    ensures EditPieces(e, [a, b]) == e.field(a.key, a.text) + e.field(b.key, b.text)
  {
    assert [a, b][1..] == [b];
    EditOnePiece(e, b.key, b.text);
  }

  // ---------------------------------------------------------------- The template

  /** `transformDeployment`. */
  method TransformDeployment(obj: Entries) returns (text: string)
    ensures text == DeploymentText(Marshal(obj))
  {
    hide *;
    var raw := Marshal(obj);
    text := ReplaceNamespace(raw);
    text := ReplaceImageField(text);
    text := ReplaceReplicas(text);
    text := ReplaceResources(text);
    text := ReplaceServiceAccountName(text);
    text := AddImagePullSecrets(text);
    DeploymentTextUnfolds(raw);
  }

  lemma DeploymentTextUnfolds(raw: string)
    ensures DeploymentText(raw)
            == PassText(AddPullSecrets, PassText(SetAccount(), ElideText(
                 PassText(SetReplicas(), PassText(SetImage, PassText(SetNamespace(), raw))))))
  {
  }

  /** The resource has the shape the passes are written for, and no template action in it. */
  ghost predicate Compilable(entries: Entries) {
    && PrintableEntries(entries) && Plain(entries)
    && entries.Entry? && entries.key != "imagePullPolicy"
    && Fits(TemplateEditor(), entries, false)
    && Lists(entries, false) == 0
  }

  /** The one-line fields of a Deployment the passes rewrite. */
  const DEPLOYMENT_FIELDS := {"namespace", "image", "imagePullPolicy", "replicas", "serviceAccountName"}

  lemma TemplateKeepsHeader(key: string)
    ensures TemplateEditor().keepsHeader(key) <==> key !in DEPLOYMENT_FIELDS
  {
  }

  /** The passes up to the resources block, on the rows of a resource. */
  lemma FieldPassesOnRows(rows: seq<Row>)
    requires GoodRows(rows)
    ensures Apply(AddPullSecrets, Apply(SetAccount(), Apply(SetReplicas(), Apply(SetImage, Apply(SetNamespace(), Texts(rows))))))
            == Texts(EditRows(TemplateRows(), rows))
    ensures GoodRows(EditRows(TemplateRows(), rows))
  {
    hide RowText, GoodRow, OnRow, SetsField, Texts, Action;
    KnownRules();
    var f1, f2, f3 := NamespaceRows(), ImageRow, SetRows("replicas", Action(ReplicasValue()));
    var f4, f5 := SetRows("serviceAccountName", Action(AccountExpression())), PullSecretRow;
    forall row { SetOnRow(SetNamespace(), row); }
    ApplyOnRows(SetNamespace(), f1, rows);
    forall row { ImageOnRow(row); }
    ApplyOnRows(SetImage, f2, EditRows(f1, rows));
    EditRowsCompose(f1, f2, rows);
    var g2 := Compose(f1, f2);
    forall row { SetOnRow(SetReplicas(), row); }
    ApplyOnRows(SetReplicas(), f3, EditRows(g2, rows));
    EditRowsCompose(g2, f3, rows);
    var g3 := Compose(g2, f3);
    forall row { SetOnRow(SetAccount(), row); }
    ApplyOnRows(SetAccount(), f4, EditRows(g3, rows));
    EditRowsCompose(g3, f4, rows);
    var g4 := Compose(g3, f4);
    forall row { PullSecretOnRow(row); }
    ApplyOnRows(AddPullSecrets, f5, EditRows(g4, rows));
    EditRowsCompose(g4, f5, rows);
  }

  /** The service account and pull secret passes may as well run before the resources block is replaced. */
  lemma BlockPassLast(lines: seq<string>)
    ensures DeploymentLines(lines)
            == Elide(Apply(AddPullSecrets, Apply(SetAccount(), Apply(SetReplicas(), Apply(SetImage, Apply(SetNamespace(), lines))))))
  {
    hide Elide, Apply, SetsField;
    AccountRule();
    var l := Apply(SetReplicas(), Apply(SetImage, Apply(SetNamespace(), lines)));
    ElideCommutes(SetAccount(), l);
    ElideCommutes(AddPullSecrets, Apply(SetAccount(), l));
  }

  lemma PolicyFieldGood()
    ensures GoodPiece(Field("imagePullPolicy", "Always"))
  {
  }

  lemma TemplateEmitsGood(key: string, text: string)
    requires GoodKey(key) && '{' !in key && Clean(text) && !Contains(text, "{{")
    ensures forall p | p in TemplateEditor().field(key, text) :: GoodPiece(p)
    ensures TemplateEditor().field(key, text) != [] ==> TemplateEditor().field(key, text)[0].Field?
  {
    hide Contains, Action, QuotedImageRef, PullSecretBlock, TemplateEditor, GoodSplice, Clean;
    PolicyFieldGood();
    TemplateFieldMeaning(key, text);
    ActionShape(ReleaseNamespace());
    ActionShape(ReplicasValue());
    AccountNameOneLine();
    ActionShape(AccountExpression());
    QuotedImageClean();
    PullSecretBlockGood();
  }

  lemma TemplateEmitsAllGood()
    ensures EmitsGood(TemplateEditor())
  {
    hide Contains, TemplateEditor, GoodPiece;
    forall key, text
      ensures EmitsGoodAt(TemplateEditor(), key, text)
    {
      if GoodKey(key) && '{' !in key && Clean(text) && !Contains(text, "{{") {
        TemplateEmitsGood(key, text);
      }
    }
  }

  /** The template written for a resource, as a tree. */
  function DeploymentTemplate(entries: Entries): Entries {
    Fill(Evenly(TemplateEditor()), DirectiveBlocks(), entries, 0, false)
  }

  /** The text passes together write the printout of the template tree. */
  lemma DeploymentTextIsTemplate(entries: Entries)
    requires Compilable(entries)
    ensures DeploymentText(Marshal(entries)) == TextOf(Texts(PrintEntries(DeploymentTemplate(entries), 0)))
  {
    hide RowText, Elide, Apply, TemplateEditor, TemplateRows, Agrees, EmitsGood, GoodRow, Marshal;
    var e, f := TemplateEditor(), TemplateRows();
    var rows := PrintEntries(entries, 0);
    var edited := EditEntries(e, entries, false);
    MarshalIsPrintText(entries);
    PassesFuse(Marshal(entries));
    LinesOfPrintText(entries);
    EntriesGood(entries, 0);
    BlockPassLast(Texts(rows));
    FieldPassesOnRows(rows);
    ElideLinesOfRows(EditRows(f, rows));
    TemplateAgrees();
    EditPrintEntries(e, f, entries, 0, false);
    TemplateEmitsAllGood();
    EditIsTemplate(e, entries, false);
    ListsAfterEdit(e, entries, false);
    ElideTemplate(edited);
    ElideAfterEdit(e, entries, 0, false);
  }

  // ---------------------------------------------------------------- What the template renders to

  /** What becomes of an entry when the chart is installed. */
  function InstanceField(env: Env, key: string, text: string): seq<Piece> {
    if key == "namespace" then [Field(key, env.release.namespace)]
    else if key == "image" then [Field(key, Quoted(ImageRef(env))), Field("imagePullPolicy", "Always")]
    else if key == "imagePullPolicy" then []
    else if key == "replicas" then [Field(key, env.values.replicas)]
    else if key == "serviceAccountName" then
      if env.values.imagePullSecret == "" then [Field(key, AccountName(env))]
      else [Field(key, AccountName(env)), Rows(PullSecretRows(env.values.imagePullSecret, 0))]
    else [Field(key, text)]
  }

  function InstanceEditor(env: Env): Editor {
    Editor((key, text) => InstanceField(env, key, text), key => true)
  }

  /**
   The Deployment installed from a resource: every one-line entry that shares no row with a
   dash replaced according to its key, and every resources mapping by that of the values.
   */
  function DeploymentInstance(env: Env, entries: Entries): Entries {
    Fill(Evenly(InstanceEditor(env)), SetBlocks(env.values.resources), entries, 0, false)
  }

  lemma TwoPieceRows(a: Piece, b: Piece, indent: nat)
    ensures PieceRows([a, b], indent) == PieceRows([a], indent) + PieceRows([b], indent)
  {
    assert [a, b] == [a] + [b];
    PieceRowsAppend([a], [b], indent);
  }

  lemma RowsPiece(rows: seq<Row>, indent: nat)
    ensures PieceRows([Rows(rows)], indent) == Shift(rows, indent)
  {
    assert [Rows(rows)][1..] == [];
    assert Shift(rows, indent) + PieceRows([], indent) == Shift(rows, indent);
  }

  lemma ShiftedPullSecret(env: Env, indent: nat)
    ensures Shift(PullSecretBlock(), indent) == Guarded(indent, SecretGuard(), PullSecretBody(indent))
    ensures Shift(PullSecretRows(env.values.imagePullSecret, 0), indent) == PullSecretRows(env.values.imagePullSecret, indent)
  {
  }

  lemma FieldMatches(env: Env, key: string, text: string, indent: nat)
    requires GoodKey(key) && '{' !in key && Clean(text) && !Contains(text, "{{")
    ensures Renders(env, PieceRows(TemplateField(key, text), indent), PieceRows(InstanceField(env, key, text), indent))
  {
    hide Renders, Contains, Action, QuotedImageRef, AccountName, ImageRef, PullSecretBlock, GoodKey, Clean, Quoted;
    OnePiece(key, Action(ReleaseNamespace()), indent);
    OnePiece(key, env.release.namespace, indent);
    OnePiece(key, text, indent);
    if key == "namespace" {
      RendersNamespace(env, indent);
      assert "namespace" + ": " == "namespace: ";
    } else if key == "image" {
      ImageMatches(env, indent);
    } else if key == "imagePullPolicy" {
      RendersNothing(env);
    } else if key == "replicas" {
      RendersReplicas(env, indent);
      OnePiece(key, Action(ReplicasValue()), indent);
      OnePiece(key, env.values.replicas, indent);
      assert "replicas" + ": " == "replicas: ";
    } else if key == "serviceAccountName" {
      AccountMatches(env, text, indent);
    } else {
      EntryRowLiteral(key, text, indent);
      LiteralRowRenders(env, Row(indent, key + ": " + text));
    }
  }

  lemma ImageMatches(env: Env, indent: nat)
    ensures Renders(env, PieceRows([Field("image", QuotedImageRef()), Field("imagePullPolicy", "Always")], indent),
                         PieceRows([Field("image", Quoted(ImageRef(env))), Field("imagePullPolicy", "Always")], indent))
  {
    hide Renders, QuotedImageRef, ImageRef, Quoted, Contains, GoodKey, Clean, LiteralRowOf;
    PolicyFieldGood();
    var policy := Row(indent, "imagePullPolicy" + ": " + "Always");
    TwoPieceRows(Field("image", QuotedImageRef()), Field("imagePullPolicy", "Always"), indent);
    TwoPieceRows(Field("image", Quoted(ImageRef(env))), Field("imagePullPolicy", "Always"), indent);
    OnePiece("image", QuotedImageRef(), indent);
    OnePiece("image", Quoted(ImageRef(env)), indent);
    OnePiece("imagePullPolicy", "Always", indent);
    assert "image" + ": " == "image: ";
    RendersImage(env, indent);
    NoBraceNoAction("Always");
    EntryRowLiteral("imagePullPolicy", "Always", indent);
    LiteralRowRenders(env, policy);
    RendersBoth(env, [Row(indent, "image: " + QuotedImageRef())], [Row(indent, "image: " + Quoted(ImageRef(env)))],
                [policy], [policy]);
  }

  lemma AccountMatches(env: Env, text: string, indent: nat)
    ensures Renders(env, PieceRows([Field("serviceAccountName", Action(AccountExpression())), Rows(PullSecretBlock())], indent),
                         PieceRows(InstanceField(env, "serviceAccountName", text), indent))
  {
    hide Renders, Action, AccountName, PullSecretBlock, PullSecretRows, Guarded, Shift;
    var secret := PullSecretRows(env.values.imagePullSecret, 0);
    TwoPieceRows(Field("serviceAccountName", Action(AccountExpression())), Rows(PullSecretBlock()), indent);
    TwoPieceRows(Field("serviceAccountName", AccountName(env)), Rows(secret), indent);
    OnePiece("serviceAccountName", Action(AccountExpression()), indent);
    OnePiece("serviceAccountName", AccountName(env), indent);
    RowsPiece(PullSecretBlock(), indent);
    RowsPiece(secret, indent);
    ShiftedPullSecret(env, indent);
    RendersAccount(env, indent, "serviceAccountName");
    RendersPullSecrets(env, indent);
    RendersBoth(env, [Row(indent, "serviceAccountName" + ": " + Action(AccountExpression()))],
                     [Row(indent, "serviceAccountName" + ": " + AccountName(env))],
                Shift(PullSecretBlock(), indent), Shift(secret, indent));
    if env.values.imagePullSecret == "" {
      NoSecretNoRows(0);
      assert PullSecretRows("", 0) == [];
      assert Shift([], indent) == [];
    }
  }

  lemma BlocksMatch(env: Env, indent: nat)
    requires PrintableEntries(env.values.resources) && env.values.resources != NoEntries
    ensures BlockRenders(env, DirectiveBlocks(), SetBlocks(env.values.resources), indent)
  {
    hide Renders, ResourcesDirective;
    DirectiveBody(indent);
    RendersResources(env, indent);
    assert [Row(indent, "resources:")] + [DirectiveRow(indent)] == [Row(indent, "resources:"), DirectiveRow(indent)];
  }

  lemma DeploymentMatches(env: Env)
    requires PrintableEntries(env.values.resources) && env.values.resources != NoEntries
    ensures Matches(env, Evenly(TemplateEditor()), Evenly(InstanceEditor(env)), DirectiveBlocks(), SetBlocks(env.values.resources))
  {
    hide Renders, Contains, TemplateEditor, BlockRenders, TemplateField, InstanceField;
    forall key, text, indent
      ensures FieldRenders(env, Evenly(TemplateEditor()), Evenly(InstanceEditor(env)), key, text, indent)
    {
      if GoodKey(key) && '{' !in key && Clean(text) && !Contains(text, "{{") {
        TemplateFieldMeaning(key, text);
        FieldMatches(env, key, text, indent);
      }
    }
    forall indent
      ensures BlockRenders(env, DirectiveBlocks(), SetBlocks(env.values.resources), indent)
    {
      BlocksMatch(env, indent);
    }
  }

  lemma FirstIsKept(env: Env, entries: Entries)
    requires Compilable(entries)
    ensures KeepsFirst(Evenly(TemplateEditor()), entries) && KeepsFirst(Evenly(InstanceEditor(env)), entries)
  {
    hide Contains, TemplateEditor;
    if entries.value.Scalar? {
      assert PlainNode(entries.value);
      TemplateFieldMeaning(entries.key, entries.value.text);
    }
  }

  /**
   The meaning of the Deployment template: whatever the values and the release, the text the
   passes write renders to the resource in which the fields and the resources mappings are
   replaced, and nothing else.
   */
  lemma DeploymentMeaning(env: Env, entries: Entries)
    requires Compilable(entries)
    requires PrintableEntries(env.values.resources) && env.values.resources != NoEntries
    ensures Render(env, DeploymentText(Marshal(entries))) == Some(PrintText(DeploymentInstance(env, entries)))
  {
    hide Matches, EmitsGood, Render, Fill, TemplateEditor, InstanceEditor, KeepsFirst;
    DeploymentTextIsTemplate(entries);
    DeploymentMatches(env);
    TemplateEmitsAllGood();
    FirstIsKept(env, entries);
    RenderFilled(env, Evenly(TemplateEditor()), Evenly(InstanceEditor(env)), DirectiveBlocks(), SetBlocks(env.values.resources), entries);
  }
}
