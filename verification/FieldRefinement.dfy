/**
 The passes that set a field refine a rewriting of the tree: what they do to the text of a
 resource is what replacing scalars does to the resource.
 */
module FieldRefinement {
  import opened GoStrings
  import opened LinePasses
  import opened PassLaws
  import opened Yaml
  import opened TreeEdits

  // ---------------------------------------------------------------- Lines of good rows

  /** A rule on rows; `LinesForRow` ties it to the rule on lines. */
  function SetRow(rule: LineRule, row: Row): seq<Row>
    requires rule.SetValue?
  {
    if HasPrefix(row.content, rule.key + ":") && !Contains(row.content, "{{") then
      [Row(row.indent, rule.key + ": " + rule.template)]
    else [row]
  }

  function SetRows(key: string, template: string): Row -> seq<Row> {
    row => SetRow(SetValue(key, template), row)
  }

  lemma SetLineOfRow(rule: LineRule, row: Row)
    requires SetsField(rule) && GoodRow(row)
    ensures LinesFor(rule, RowText(row)) == Texts(SetRow(rule, row))
    ensures GoodRows(SetRow(rule, row))
  {
    hide TrimSpace, IndentOf, Contains;
    RowLine(row);
    if HasPrefix(row.content, rule.key + ":") && !Contains(row.content, "{{") {
      assert Spaces(row.indent) + rule.key + ": " + rule.template == Spaces(row.indent) + (rule.key + ": " + rule.template);
      FieldTextClean(rule.key, rule.template);
    }
  }

  lemma FieldTextClean(key: string, text: string)
    requires Clean(key) && Clean(text)
    ensures Clean(key + ": " + text)
  {
    assert Clean(":");
    CleanConcat(key, ":");
    CleanConcat(key + ":", text);
    assert key + ": " + text == key + ":" + " " + text;
  }

  lemma {:induction false} SetLinesOfRows(rule: LineRule, rows: seq<Row>)
    requires rule.SetValue? && SetsField(rule) && GoodRows(rows)
    ensures Apply(rule, Texts(rows)) == Texts(EditRows(SetRows(rule.key, rule.template), rows))
    ensures GoodRows(EditRows(SetRows(rule.key, rule.template), rows))
  {
    hide RowText, GoodRow, LinesFor, SetRow, SetsField;
    if rows != [] {
      assert rows[0] in rows;
      SetLineOfRow(rule, rows[0]);
      SetLinesOfRows(rule, rows[1..]);
      assert Texts(rows)[1..] == Texts(rows[1..]);
      TextsAppend(SetRows(rule.key, rule.template)(rows[0]), EditRows(SetRows(rule.key, rule.template), rows[1..]));
    }
  }

  // ---------------------------------------------------------------- The tree rewriting

  function SetScalar(key: string, template: string, k: string, text: string): seq<Piece> {
    if k == key && !Contains(text, "{{") then [Field(key, template)] else [Field(k, text)]
  }

  /** Replaces the value of every one-line entry `key`, unless it is a template already. */
  function SetEditor(key: string, template: string): Editor {
    Editor((k, text) => SetScalar(key, template, k, text), k => k != key)
  }

  lemma SetAgreesOnField(rule: LineRule, key: string, text: string, indent: nat)
    requires SetsField(rule)
    ensures AgreesOnField(SetEditor(rule.key, rule.template), SetRows(rule.key, rule.template), key, text, indent)
  {
    hide TrimSpace, IndentOf, Contains;
    if GoodKey(key) && Clean(text) {
      var content := key + ": " + text;
      assert content == key + ":" + (" " + text);
      FieldPrefix(key, " " + text, rule.key);
      if key == rule.key {
        BracesAfterPlain(key + ": ", text);
      }
      var pieces := SetScalar(rule.key, rule.template, key, text);
      assert pieces[1..] == [];
      assert PieceRows(pieces, indent) == [Row(indent, pieces[0].key + ": " + pieces[0].text)];
      assert SetEditor(rule.key, rule.template).field(key, text) == pieces;
    }
  }

  lemma SetAgreesOnHeader(rule: LineRule, key: string, indent: nat)
    requires SetsField(rule)
    ensures AgreesOnHeader(SetEditor(rule.key, rule.template), SetRows(rule.key, rule.template), key, indent)
    ensures ChangesHeader(SetEditor(rule.key, rule.template), SetRows(rule.key, rule.template), key, indent)
  {
    hide TrimSpace, IndentOf, Contains;
    if GoodKey(key) {
      assert key + ":" == key + ":" + "";
      FieldPrefix(key, "", rule.key);
      if key == rule.key {
        NoBraceNoAction(key + ":");
        assert |rule.key + ": " + rule.template| > |key + ":"|;
      }
    }
  }

  lemma SetAgreesOnDash(rule: LineRule, content: string, indent: nat)
    requires SetsField(rule) && rule.key[0] != '-'
    ensures AgreesOnDash(SetRows(rule.key, rule.template), content, indent)
  {
    assert ("- " + content)[0] == '-' && (rule.key + ":")[0] == rule.key[0];
  }

  lemma SetIsOneForOne(rule: LineRule)
    requires SetsField(rule) && rule.key[0] != '-'
    ensures OneForOne(SetEditor(rule.key, rule.template), SetRows(rule.key, rule.template))
  {
    hide SetsField, AgreesOnField, AgreesOnHeader, AgreesOnDash, ChangesHeader;
    forall key, text, indent {
      SetAgreesOnField(rule, key, text, indent);
    }
    forall key, indent {
      SetAgreesOnHeader(rule, key, indent);
    }
    forall content, indent {
      SetAgreesOnDash(rule, content, indent);
    }
  }

  /** The edited tree can be printed again. */
  lemma {:induction false} SetKeepsPrintable(rule: LineRule, entries: Entries, dashed: bool)
    requires SetsField(rule) && rule.key[0] != '-' && PrintableEntries(entries)
    ensures var edited := EditEntries(SetEditor(rule.key, rule.template), entries, dashed);
            PrintableEntries(edited) && (entries != NoEntries ==> edited != NoEntries)
    decreases entries
  {
    hide Contains;
    match entries
    case NoEntries =>
    case Entry(key, value, rest) =>
      SetKeepsPrintable(rule, rest, false);
      match value
      case Scalar(text) =>
        var pieces := SetScalar(rule.key, rule.template, key, text);
        var rest' := EditEntries(SetEditor(rule.key, rule.template), rest, false);
        assert pieces[1..] == [];
        assert Prepend(pieces, rest') == Entry(pieces[0].key, Scalar(pieces[0].text), rest');
        assert SetEditor(rule.key, rule.template).field(key, text) == pieces;
      case Mapping(inner) => SetKeepsPrintable(rule, inner, false);
      case Sequence(items) => SetKeepsItemsPrintable(rule, items);
  }

  lemma {:induction false} SetKeepsItemsPrintable(rule: LineRule, items: Items)
    requires SetsField(rule) && rule.key[0] != '-' && PrintableItems(items)
    ensures var edited := EditItems(SetEditor(rule.key, rule.template), items);
            PrintableItems(edited) && (items != NoItems ==> edited != NoItems)
    decreases items
  {
    match items
    case NoItems =>
    case Item(value, rest) =>
      SetKeepsItemsPrintable(rule, rest);
      match value
      case Scalar(text) =>
      case Mapping(inner) => SetKeepsPrintable(rule, inner, true);
      case Sequence(inner) => SetKeepsItemsPrintable(rule, inner);
  }

  // ---------------------------------------------------------------- Text and tree

  lemma LinesOfPrintText(entries: Entries)
    requires PrintableEntries(entries) && entries != NoEntries
    ensures LinesOf(PrintText(entries)) == Texts(PrintEntries(entries, 0))
  {
    EntriesGood(entries, 0);
    TextsOneLine(PrintEntries(entries, 0));
    LinesOfText(Texts(PrintEntries(entries, 0)));
  }

  /** A text determines its rows. */
  lemma JoinTextsInjective(a: seq<Row>, b: seq<Row>)
    requires a != [] && b != [] && GoodRows(a) && GoodRows(b)
    ensures TextOf(Texts(a)) == TextOf(Texts(b)) <==> a == b
  {
    hide RowText, GoodRow;
    TextsOneLine(a);
    TextsOneLine(b);
    LinesOfText(Texts(a));
    LinesOfText(Texts(b));
    if TextOf(Texts(a)) == TextOf(Texts(b)) {
      TextsInjective(a, b);
    }
  }

  /**
   The pass that sets `key` does to the text what replacing scalars does to the tree,
   exactly when no nested value stands under that key where the pass would touch its header.
   */
  lemma FieldPassRefinesTreeRewriting(rule: LineRule, entries: Entries)
    requires rule.SetValue? && SetsField(rule) && rule.key[0] != '-'
    requires PrintableEntries(entries) && entries != NoEntries
    ensures var e := SetEditor(rule.key, rule.template);
            PassText(rule, PrintText(entries)) == PrintText(EditEntries(e, entries, false))
            <==> Fits(e, entries, false)
  {
    hide RowText, GoodRow, SetsField, LinesFor;
    var e, f := SetEditor(rule.key, rule.template), SetRows(rule.key, rule.template);
    var rows := PrintEntries(entries, 0);
    var edited := EditEntries(e, entries, false);
    LinesOfPrintText(entries);
    EntriesGood(entries, 0);
    SetLinesOfRows(rule, rows);
    SetIsOneForOne(rule);
    EditPrintExact(e, f, entries, 0, false);
    SetKeepsPrintable(rule, entries, false);
    EntriesGood(edited, 0);
    JoinTextsInjective(EditRows(f, rows), PrintEntries(edited, 0));
  }

  /** A nested value under the key does make the two differ. */
  lemma NestedNamespaceIsBroken()
    ensures var inner := Entry("kind", Scalar("Any"), NoEntries);
            var entries := Entry("namespace", Mapping(inner), NoEntries);
            var e := SetEditor("namespace", Action(ReleaseNamespace()));
            PrintableEntries(entries) && PassText(SetNamespace(), PrintText(entries)) != PrintText(EditEntries(e, entries, false))
  {
    hide SetsField, PassText, PrintText, Action;
    NamespaceRule();
    FieldPassRefinesTreeRewriting(SetNamespace(), Entry("namespace", Mapping(Entry("kind", Scalar("Any"), NoEntries)), NoEntries));
  }
}
