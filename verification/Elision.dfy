/**
 Replacing resources blocks: on a printed tree the skipping by indent removes exactly the
 subtree under the key.
 */
module Elision {
  import opened GoStrings
  import opened LinePasses
  import opened PassLaws
  import opened Yaml
  import opened FieldRefinement

  // ---------------------------------------------------------------- Rows

  predicate OpensRow(row: Row) {
    row.content == "resources:"
  }

  function SkipRows(rows: seq<Row>, base: nat): (rest: seq<Row>)
    ensures |rest| <= |rows|
  {
    if rows != [] && rows[0].indent >= base then SkipRows(rows[1..], base) else rows
  }

  function DirectiveRow(indent: nat): Row {
    Row(indent + 2, ResourcesDirective(indent + 2))
  }

  function ElideRows(rows: seq<Row>): seq<Row>
    decreases |rows|
  {
    if rows == [] then []
    else if OpensRow(rows[0]) then
      [rows[0], DirectiveRow(rows[0].indent)] + ElideRows(SkipRows(rows[1..], rows[0].indent + 2))
    else [rows[0]] + ElideRows(rows[1..])
  }

  lemma {:induction false} SkipLinesOfRows(rows: seq<Row>, base: nat)
    requires GoodRows(rows)
    ensures SkipDeeper(Texts(rows), base) == Texts(SkipRows(rows, base))
    ensures GoodRows(SkipRows(rows, base))
  {
    hide RowText;
    if rows != [] {
      assert rows[0] in rows;
      RowLine(rows[0]);
      assert Texts(rows)[1..] == Texts(rows[1..]);
      SkipLinesOfRows(rows[1..], base);
    }
  }

  lemma BlockOfRow(row: Row)
    requires GoodRow(row) && OpensRow(row)
    ensures ResourcesLines(IndentOf(RowText(row))) == Texts([row, DirectiveRow(row.indent)])
  {
    hide IndentOf, ResourcesDirective;
    RowLine(row);
    assert Spaces(row.indent) + "  " == Spaces(row.indent + 2);
  }

  lemma ElideLinesStep(row: Row, lines: seq<string>)
    requires GoodRow(row)
    ensures Elide([RowText(row)] + lines)
            == if OpensRow(row) then Texts([row, DirectiveRow(row.indent)]) + Elide(SkipDeeper(lines, row.indent + 2))
               else [RowText(row)] + Elide(lines)
  {
    hide RowText, ResourcesLines, ResourcesDirective, TrimSpace, IndentOf;
    RowLine(row);
    var all := [RowText(row)] + lines;
    assert all[1..] == lines;
    if OpensRow(row) {
      BlockOfRow(row);
    }
  }

  lemma ElideFirstRow(row: Row, rows: seq<Row>)
    requires GoodRows([row] + rows)
    requires var rest := if OpensRow(row) then SkipRows(rows, row.indent + 2) else rows;
             Elide(Texts(rest)) == Texts(ElideRows(rest)) && GoodRows(ElideRows(rest))
    ensures Elide(Texts([row] + rows)) == Texts(ElideRows([row] + rows)) && GoodRows(ElideRows([row] + rows))
  {
    hide RowText, Elide, DirectiveRow, SkipDeeper, ElideRows, SkipRows, OpensRow, GoodRow;
    assert row in [row] + rows;
    assert forall r | r in rows :: r in [row] + rows;
    TextsAppend([row], rows);
    assert Texts([row]) == [RowText(row)];
    ElideLinesStep(row, Texts(rows));
    ElideRowsStep(row, rows);
    if OpensRow(row) {
      SkipLinesOfRows(rows, row.indent + 2);
      DirectiveGood(row.indent);
      TextsAppend([row, DirectiveRow(row.indent)], ElideRows(SkipRows(rows, row.indent + 2)));
    } else {
      TextsAppend([row], ElideRows(rows));
    }
  }

  lemma {:induction false} ElideLinesOfRows(rows: seq<Row>)
    requires GoodRows(rows)
    ensures Elide(Texts(rows)) == Texts(ElideRows(rows))
    ensures GoodRows(ElideRows(rows))
    decreases |rows|
  {
    hide RowText, Elide, DirectiveRow, SkipDeeper, ElideRows, SkipRows, OpensRow, GoodRow;
    if rows != [] {
      if OpensRow(rows[0]) {
        SkipLinesOfRows(rows[1..], rows[0].indent + 2);
        ElideLinesOfRows(SkipRows(rows[1..], rows[0].indent + 2));
      } else {
        ElideLinesOfRows(rows[1..]);
      }
      ElideFirstRow(rows[0], rows[1..]);
      assert rows == [rows[0]] + rows[1..];
    } else {
      NoLinesElided();
      NoRowsElided();
    }
  }

  lemma DirectiveGood(indent: nat)
    ensures GoodRow(DirectiveRow(indent))
  {
    DirectiveOneLine(indent + 2);
  }

  lemma NoLinesElided()
    ensures Elide([]) == []
  {
  }

  /** No row stands further left than `indent`. */
  ghost predicate Within(rows: seq<Row>, indent: nat) {
    forall row | row in rows :: row.indent >= indent
  }

  ghost predicate StartsAt(rows: seq<Row>, indent: nat) {
    rows == [] || rows[0].indent == indent
  }

  lemma {:induction false} SkipInside(a: seq<Row>, b: seq<Row>, base: nat, indent: nat)
    requires StartsAt(b, indent) && indent < base
    ensures SkipRows(a + b, base) == SkipRows(a, base) + b
  {
    if a == [] {
      assert a + b == b;
    } else {
      assert (a + b)[1..] == a[1..] + b;
      if a[0].indent >= base {
        SkipInside(a[1..], b, base, indent);
      }
    }
  }

  lemma {:induction false} SkipAllRows(rows: seq<Row>, base: nat)
    requires Within(rows, base)
    ensures SkipRows(rows, base) == []
  {
    if rows != [] {
      assert rows[0] in rows;
      SkipAllRows(rows[1..], base);
    }
  }

  lemma {:induction false} SkipKeepsWithin(rows: seq<Row>, base: nat, indent: nat)
    requires Within(rows, indent)
    ensures Within(SkipRows(rows, base), indent)
  {
    if rows != [] {
      SkipKeepsWithin(rows[1..], base, indent);
    }
  }

  /** Rows that stand at or right of where the following rows start are elided on their own. */
  lemma {:induction false} ElideAppend(a: seq<Row>, b: seq<Row>, indent: nat)
    requires Within(a, indent) && StartsAt(b, indent)
    ensures ElideRows(a + b) == ElideRows(a) + ElideRows(b)
    decreases |a|
  {
    hide DirectiveRow, SkipRows, OpensRow, ElideRows;
    if a == [] {
      assert a + b == b;
      NoRowsElided();
    } else {
      assert a[0] in a;
      assert a == [a[0]] + a[1..];
      ElideRowsStep(a[0], a[1..]);
      assert a + b == [a[0]] + (a[1..] + b);
      ElideRowsStep(a[0], a[1..] + b);
      if OpensRow(a[0]) {
        var base := a[0].indent + 2;
        SkipInside(a[1..], b, base, indent);
        SkipKeepsWithin(a[1..], base, indent);
        ElideAppend(SkipRows(a[1..], base), b, indent);
      } else {
        ElideAppend(a[1..], b, indent);
      }
    }
  }

  lemma NoRowsElided()
    ensures ElideRows([]) == []
  {
  }

  lemma ElideRowsStep(row: Row, rest: seq<Row>)
    ensures ElideRows([row] + rest) ==
              if OpensRow(row) then [row, DirectiveRow(row.indent)] + ElideRows(SkipRows(rest, row.indent + 2))
              else [row] + ElideRows(rest)
  {
    hide DirectiveRow, SkipRows, OpensRow;
    assert ([row] + rest)[1..] == rest;
  }

  // ---------------------------------------------------------------- Trees

  /** Template rows between entries: they start at the indent of the entries and open no block. */
  predicate GoodSplice(rows: seq<Row>) {
    && rows != [] && rows[0].indent == 0
    && forall row | row in rows :: GoodRow(row) && !OpensRow(row)
  }

  /** A resource in which some entries may have been replaced by template rows. */
  predicate Template(node: Node) {
    match node
    case Scalar(text) => Clean(text)
    case Mapping(entries) => TemplateEntries(entries)
    case Sequence(items) => items != NoItems && TemplateItems(items)
  }

  predicate TemplateEntries(entries: Entries) {
    match entries
    case NoEntries => true
    case Entry(key, value, rest) => GoodKey(key) && Template(value) && TemplateEntries(rest)
    case Splice(rows, rest) => GoodSplice(rows) && TemplateEntries(rest)
  }

  predicate TemplateItems(items: Items) {
    match items
    case NoItems => true
    case Item(value, rest) => Template(value) && (value.Mapping? ==> value.entries.Entry?) && TemplateItems(rest)
  }

  /** Replaces the mapping under every `resources` key that does not share its row with a dash. */
  function ElideEntries(entries: Entries, indent: nat, dashed: bool): Entries {
    match entries
    case NoEntries => NoEntries
    case Splice(rows, rest) => Splice(rows, ElideEntries(rest, indent, false))
    case Entry(key, value, rest) =>
      var rest' := ElideEntries(rest, indent, false);
      match value
      case Scalar(_) => Entry(key, value, rest')
      case Mapping(inner) =>
        if key == "resources" && !dashed then
          Entry(key, Mapping(Splice([Row(0, ResourcesDirective(indent + 2))], NoEntries)), rest')
        else Entry(key, Mapping(ElideEntries(inner, indent + 2, false)), rest')
      case Sequence(items) => Entry(key, Sequence(ElideItems(items, indent)), rest')
  }

  function ElideItems(items: Items, indent: nat): Items {
    match items
    case NoItems => NoItems
    case Item(value, rest) => Item(ElideItem(value, indent + 2), ElideItems(rest, indent))
  }

  function ElideItem(value: Node, indent: nat): Node {
    match value
    case Scalar(_) => value
    case Mapping(entries) => Mapping(ElideEntries(entries, indent, true))
    case Sequence(items) => Sequence(ElideItems(items, indent))
  }

  /** How many sequences stand under a `resources` key where the pass opens a block. */
  function Lists(entries: Entries, dashed: bool): nat {
    match entries
    case NoEntries => 0
    case Splice(_, rest) => Lists(rest, false)
    case Entry(key, value, rest) =>
      Lists(rest, false) +
      match value
      case Scalar(_) => 0
      case Mapping(inner) => if key == "resources" && !dashed then 0 else Lists(inner, false)
      case Sequence(items) => (if key == "resources" && !dashed then 1 else 0) + ListsInItems(items)
  }

  function ListsInItems(items: Items): nat {
    match items
    case NoItems => 0
    case Item(value, rest) =>
      ListsInItems(rest) +
      match value
      case Scalar(_) => 0
      case Mapping(entries) => Lists(entries, true)
      case Sequence(inner) => ListsInItems(inner)
  }

  // ---------------------------------------------------------------- Where rows stand

  lemma {:induction false} EntriesWithin(entries: Entries, indent: nat)
    requires TemplateEntries(entries)
    ensures Within(PrintEntries(entries, indent), indent) && StartsAt(PrintEntries(entries, indent), indent)
    decreases entries
  {
    match entries
    case NoEntries =>
    case Splice(rows, rest) => EntriesWithin(rest, indent);
    case Entry(key, value, rest) =>
      EntryWithin(key, value, indent);
      EntriesWithin(rest, indent);
  }

  lemma {:induction false} EntryWithin(key: string, value: Node, indent: nat)
    requires Template(value)
    ensures Within(PrintEntry(key, value, indent), indent) && StartsAt(PrintEntry(key, value, indent), indent)
    decreases value
  {
    match value
    case Scalar(_) =>
    case Mapping(inner) => EntriesWithin(inner, indent + 2);
    case Sequence(items) => ItemsWithin(items, indent);
  }

  lemma {:induction false} ItemBody(value: Node, indent: nat)
    requires Template(value) && (value.Mapping? ==> value.entries.Entry?)
    ensures var body := PrintItem(value, indent);
            body != [] && Within(body, indent)
    decreases value
  {
    match value
    case Scalar(_) =>
    case Mapping(entries) => EntriesWithin(entries, indent);
    case Sequence(items) =>
      ItemsWithin(items, indent);
      ItemBody(items.value, indent + 2);
  }

  lemma {:induction false} ItemsWithin(items: Items, indent: nat)
    requires TemplateItems(items)
    ensures Within(PrintItems(items, indent), indent) && StartsAt(PrintItems(items, indent), indent)
    decreases items
  {
    match items
    case NoItems =>
    case Item(value, rest) =>
      ItemBody(value, indent + 2);
      ItemsWithin(rest, indent);
  }

  // ---------------------------------------------------------------- Rows and trees

  function ElideTail(rows: seq<Row>, dashed: bool): seq<Row> {
    if dashed && rows != [] then [rows[0]] + ElideRows(rows[1..]) else ElideRows(rows)
  }

  lemma ElideTailAppend(a: seq<Row>, b: seq<Row>, indent: nat, dashed: bool)
    requires a != [] && Within(a, indent) && StartsAt(b, indent)
    ensures ElideTail(a + b, dashed) == ElideTail(a, dashed) + ElideRows(b)
  {
    hide ElideRows;
    assert (a + b)[1..] == a[1..] + b;
    ElideAppend(a[1..], b, indent);
    ElideAppend(a, b, indent);
  }

  /** Two row lists are equal when `extra` is zero, and one is longer by `extra` otherwise. */
  ghost predicate OffBy(a: seq<Row>, b: seq<Row>, extra: nat) {
    |a| == |b| + extra && (extra == 0 ==> a == b)
  }

  lemma HeaderOpens(key: string, indent: nat)
    requires GoodKey(key)
    ensures OpensRow(Row(indent, key + ":")) <==> key == "resources"
  {
    if key + ":" == "resources:" {
      assert key == (key + ":")[..|key|] == "resources:"[..9];
      assert "resources:"[..9] == "resources";
    }
  }

  lemma ScalarOpensNothing(key: string, text: string, indent: nat)
    requires GoodKey(key) && Clean(text)
    ensures !OpensRow(Row(indent, key + ": " + text))
  {
    var content := key + ": " + text;
    assert content[|key|] == ':' && |content| > |key| + 1;
    assert forall i | 0 <= i < 9 :: "resources:"[i] != ':';
  }

  /** On the printout of a template the pass differs from the tree rewriting by one row for each list it runs into. */
  lemma {:induction false} ElidePrintEntries(entries: Entries, indent: nat, dashed: bool)
    requires TemplateEntries(entries) && (dashed ==> entries.Entry?)
    ensures OffBy(ElideTail(PrintEntries(entries, indent), dashed),
                  PrintEntries(ElideEntries(entries, indent, dashed), indent),
                  Lists(entries, dashed))
    decreases entries
  {
    hide GoodKey, Clean, DirectiveRow, ResourcesDirective;
    match entries
    case NoEntries =>
    case Splice(rows, rest) =>
      var a, b := Shift(rows, indent), PrintEntries(rest, indent);
      ElidePrintEntries(rest, indent, false);
      forall i | 0 <= i < |a|
        ensures !OpensRow(a[i])
      {
        assert rows[i] in rows;
      }
      NothingOpens(a, b);
    case Entry(key, value, rest) =>
      var a, b := PrintEntry(key, value, indent), PrintEntries(rest, indent);
      ElidePrintEntry(key, value, indent, dashed);
      ElidePrintEntries(rest, indent, false);
      EntryWithin(key, value, indent);
      EntriesWithin(rest, indent);
      ElideTailAppend(a, b, indent, dashed);
      EntryUnfolds(key, value, rest, indent, dashed);
  }

  lemma {:induction false} NothingOpens(a: seq<Row>, b: seq<Row>)
    requires forall row | row in a :: !OpensRow(row)
    ensures ElideRows(a + b) == a + ElideRows(b)
  {
    if a == [] {
      assert a + b == b;
    } else {
      assert a[0] in a;
      assert (a + b)[1..] == a[1..] + b;
      NothingOpens(a[1..], b);
      assert a == [a[0]] + a[1..];
    }
  }

  /** The value an entry has after the rewriting of the tree. */
  function ElidedValue(key: string, value: Node, indent: nat, dashed: bool): Node {
    match value
    case Scalar(_) => value
    case Mapping(inner) =>
      if key == "resources" && !dashed then Mapping(Splice([Row(0, ResourcesDirective(indent + 2))], NoEntries))
      else Mapping(ElideEntries(inner, indent + 2, false))
    case Sequence(items) => Sequence(ElideItems(items, indent))
  }

  function ListsInEntry(key: string, value: Node, dashed: bool): nat {
    match value
    case Scalar(_) => 0
    case Mapping(inner) => if key == "resources" && !dashed then 0 else Lists(inner, false)
    case Sequence(items) => (if key == "resources" && !dashed then 1 else 0) + ListsInItems(items)
  }

  lemma {:induction false} EntryUnfolds(key: string, value: Node, rest: Entries, indent: nat, dashed: bool)
    ensures ElideEntries(Entry(key, value, rest), indent, dashed)
            == Entry(key, ElidedValue(key, value, indent, dashed), ElideEntries(rest, indent, false))
    ensures Lists(Entry(key, value, rest), dashed) == ListsInEntry(key, value, dashed) + Lists(rest, false)
  {
    hide ResourcesDirective;
  }

  /** The rows of a resources mapping become its header and the directive. */
  lemma ElideBlock(inner: Entries, indent: nat)
    requires Within(PrintEntries(inner, indent + 2), indent + 2)
    ensures var value := Mapping(Splice([Row(0, ResourcesDirective(indent + 2))], NoEntries));
            ElideRows(PrintEntry("resources", Mapping(inner), indent)) == PrintEntry("resources", value, indent)
  {
    hide ResourcesDirective, SkipRows, PrintEntries;
    var header := Row(indent, "resources" + ":");
    var body := PrintEntries(inner, indent + 2);
    var rows := PrintEntry("resources", Mapping(inner), indent);
    assert rows == [header] + body && rows[1..] == body;
    assert OpensRow(header) by { assert "resources" + ":" == "resources:"; }
    SkipAllRows(body, indent + 2);
    DirectiveBody(indent);
    assert ElideRows([]) == [];
    assert ElideRows(rows) == [header, DirectiveRow(indent)] + [];
    assert [header] + [DirectiveRow(indent)] == [header, DirectiveRow(indent)];
  }

  lemma {:induction false} ElidePrintEntry(key: string, value: Node, indent: nat, dashed: bool)
    requires GoodKey(key) && Template(value)
    ensures OffBy(ElideTail(PrintEntry(key, value, indent), dashed),
                  PrintEntry(key, ElidedValue(key, value, indent, dashed), indent),
                  ListsInEntry(key, value, dashed))
    decreases value
  {
    hide GoodKey, Clean, ResourcesDirective;
    var header := Row(indent, key + ":");
    HeaderOpens(key, indent);
    match value
    case Scalar(text) =>
      var row := Row(indent, key + ": " + text);
      ScalarOpensNothing(key, text, indent);
      assert [row][1..] == [];
      assert ElideRows([row]) == [row] + ElideRows([]) && ElideTail([row], dashed) == [row];
    case Mapping(inner) =>
      var body := PrintEntries(inner, indent + 2);
      assert ([header] + body)[1..] == body;
      EntriesWithin(inner, indent + 2);
      if key == "resources" && !dashed {
        ElideBlock(inner, indent);
      } else {
        ElidePrintEntries(inner, indent + 2, false);
      }
    case Sequence(items) =>
      var body := PrintItems(items, indent);
      assert ([header] + body)[1..] == body;
      ItemsWithin(items, indent);
      ElidePrintItems(items, indent);
  }

  lemma DirectiveBody(indent: nat)
    ensures PrintEntries(Splice([Row(0, ResourcesDirective(indent + 2))], NoEntries), indent + 2) == [DirectiveRow(indent)]
  {
    hide ResourcesDirective;
  }

  lemma {:induction false} ElidePrintItem(value: Node, indent: nat)
    requires Template(value) && (value.Mapping? ==> value.entries.Entry?)
    ensures var body, elided := PrintItem(value, indent), PrintItem(ElideItem(value, indent), indent);
            && body != [] && elided != [] && elided[0] == body[0]
            && OffBy(ElideTail(body, true), elided, ListsInItems(Item(value, NoItems)))
    decreases value
  {
    hide GoodKey, Clean, ResourcesDirective;
    ItemBody(value, indent);
    match value
    case Scalar(text) =>
      assert PrintItem(value, indent)[1..] == [];
    case Mapping(entries) =>
      ElidePrintEntries(entries, indent, true);
      assert PrintEntries(ElideEntries(entries, indent, true), indent)[0] == PrintEntries(entries, indent)[0];
    case Sequence(items) =>
      ElidePrintItems(items, indent);
      ElidePrintItem(items.value, indent + 2);
      var rows := PrintItems(items, indent);
      DashOpensNothing(indent, PrintItem(items.value, indent + 2));
      assert ElideTail(rows, true) == ElideRows(rows);
  }

  lemma DashOpensNothing(indent: nat, body: seq<Row>)
    requires body != []
    ensures !OpensRow(Dash(indent, body)[0])
    ensures ElideRows(Dash(indent, body)) == Dash(indent, ElideTail(body, true))
  {
    assert Dash(indent, body)[0].content[0] == '-';
    assert Dash(indent, body)[1..] == body[1..];
  }

  lemma {:induction false} ElidePrintItems(items: Items, indent: nat)
    requires TemplateItems(items)
    ensures OffBy(ElideRows(PrintItems(items, indent)), PrintItems(ElideItems(items, indent), indent), ListsInItems(items))
    decreases items
  {
    match items
    case NoItems =>
    case Item(value, rest) =>
      var body := PrintItem(value, indent + 2);
      ItemBody(value, indent + 2);
      ElidePrintItem(value, indent + 2);
      ElidePrintItems(rest, indent);
      ItemsWithin(rest, indent);
      DashOpensNothing(indent, body);
      ElideAppend(Dash(indent, body), PrintItems(rest, indent), indent);
      DashOffBy(indent, ElideTail(body, true), PrintItem(ElideItem(value, indent + 2), indent + 2),
                ListsInItems(Item(value, NoItems)));
  }

  lemma DashOffBy(indent: nat, a: seq<Row>, b: seq<Row>, extra: nat)
    requires a != [] && b != [] && OffBy(a, b, extra)
    ensures OffBy(Dash(indent, a), Dash(indent, b), extra)
  {
  }

  // ---------------------------------------------------------------- Text

  lemma {:induction false} PrintableIsTemplate(entries: Entries)
    requires PrintableEntries(entries)
    ensures TemplateEntries(entries)
    decreases entries
  {
    match entries
    case NoEntries =>
    case Entry(key, value, rest) =>
      PrintableNodeIsTemplate(value);
      PrintableIsTemplate(rest);
  }

  lemma {:induction false} PrintableNodeIsTemplate(node: Node)
    requires Printable(node)
    ensures Template(node)
    decreases node
  {
    match node
    case Scalar(_) =>
    case Mapping(entries) => PrintableIsTemplate(entries);
    case Sequence(items) => PrintableItemsAreTemplate(items);
  }

  lemma {:induction false} PrintableItemsAreTemplate(items: Items)
    requires PrintableItems(items)
    ensures TemplateItems(items)
    decreases items
  {
    match items
    case NoItems =>
    case Item(value, rest) =>
      PrintableNodeIsTemplate(value);
      PrintableItemsAreTemplate(rest);
      assert value.Mapping? ==> PrintableEntries(value.entries);
  }

  lemma {:induction false} TemplateGood(entries: Entries, indent: nat)
    requires TemplateEntries(entries)
    ensures GoodRows(PrintEntries(entries, indent))
    decreases entries
  {
    hide Clean, GoodKey;
    match entries
    case NoEntries =>
    case Splice(rows, rest) =>
      TemplateGood(rest, indent);
      forall i | 0 <= i < |rows|
        ensures GoodRow(Shift(rows, indent)[i])
      {
        assert rows[i] in rows;
      }
    case Entry(key, value, rest) =>
      TemplateEntryGood(key, value, indent);
      TemplateGood(rest, indent);
  }

  lemma {:induction false} TemplateEntryGood(key: string, value: Node, indent: nat)
    requires GoodKey(key) && Template(value)
    ensures GoodRows(PrintEntry(key, value, indent))
    decreases value
  {
    EntryRowGood(key, key, indent);
    match value
    case Scalar(text) => EntryRowGood(key, text, indent);
    case Mapping(entries) => TemplateGood(entries, indent + 2);
    case Sequence(items) => TemplateItemsGood(items, indent);
  }

  lemma {:induction false} TemplateItemGood(value: Node, indent: nat)
    requires Template(value)
    ensures GoodRows(PrintItem(value, indent))
    decreases value
  {
    match value
    case Scalar(_) =>
    case Mapping(entries) => TemplateGood(entries, indent);
    case Sequence(items) => TemplateItemsGood(items, indent);
  }

  lemma {:induction false} TemplateItemsGood(items: Items, indent: nat)
    requires TemplateItems(items)
    ensures GoodRows(PrintItems(items, indent))
    decreases items
  {
    match items
    case NoItems =>
    case Item(value, rest) =>
      TemplateItemsGood(rest, indent);
      TemplateItemGood(value, indent + 2);
      DashGood(indent, PrintItem(value, indent + 2));
  }

  lemma {:induction false} ElideKeepsTemplate(entries: Entries, indent: nat, dashed: bool)
    requires TemplateEntries(entries)
    ensures TemplateEntries(ElideEntries(entries, indent, dashed))
    ensures entries.Entry? ==> ElideEntries(entries, indent, dashed).Entry?
    decreases entries
  {
    hide Clean, GoodKey, ResourcesDirective;
    match entries
    case NoEntries =>
    case Splice(rows, rest) => ElideKeepsTemplate(rest, indent, false);
    case Entry(key, value, rest) =>
      ElideKeepsTemplate(rest, indent, false);
      match value
      case Scalar(_) =>
      case Mapping(inner) =>
        ElideKeepsTemplate(inner, indent + 2, false);
        DirectiveSplice(indent + 2);
        assert TemplateEntries(Splice([Row(0, ResourcesDirective(indent + 2))], NoEntries));
        assert Template(ElidedValue(key, value, indent, dashed));
      case Sequence(items) => ElideKeepsItems(items, indent);
  }

  lemma DirectiveSplice(n: nat)
    ensures GoodSplice([Row(0, ResourcesDirective(n))])
  {
    DirectiveOneLine(n);
    assert ResourcesDirective(n)[0] == '{';
  }

  lemma {:induction false} ElideKeepsItems(items: Items, indent: nat)
    requires TemplateItems(items)
    ensures TemplateItems(ElideItems(items, indent)) && (items != NoItems ==> ElideItems(items, indent) != NoItems)
    decreases items
  {
    match items
    case NoItems =>
    case Item(value, rest) =>
      ElideKeepsItems(rest, indent);
      match value
      case Scalar(_) =>
      case Mapping(entries) => ElideKeepsTemplate(entries, indent + 2, true);
      case Sequence(inner) => ElideKeepsItems(inner, indent + 2);
  }

  /** On the rows of a template the pass is the tree rewriting exactly when it runs into no list. */
  lemma ElideTemplate(entries: Entries)
    requires TemplateEntries(entries)
    ensures ElideRows(PrintEntries(entries, 0)) == PrintEntries(ElideEntries(entries, 0, false), 0)
            <==> Lists(entries, false) == 0
  {
    ElidePrintEntries(entries, 0, false);
  }

  /**
   On the text of a resource, replacing the blocks removes the mapping under each `resources`
   key and nothing else, exactly when no sequence stands under such a key.
   */
  lemma ElisionIsExact(entries: Entries)
    requires PrintableEntries(entries) && entries != NoEntries
    ensures ElideText(PrintText(entries)) == TextOf(Texts(PrintEntries(ElideEntries(entries, 0, false), 0)))
            <==> Lists(entries, false) == 0
  {
    hide RowText, GoodRow, Elide;
    var rows := PrintEntries(entries, 0);
    var elided := ElideEntries(entries, 0, false);
    PrintableIsTemplate(entries);
    LinesOfPrintText(entries);
    EntriesGood(entries, 0);
    ElideLinesOfRows(rows);
    ElideKeepsTemplate(entries, 0, false);
    TemplateGood(elided, 0);
    ElideTemplate(entries);
    ElideNonEmpty(rows);
    JoinTextsInjective(ElideRows(rows), PrintEntries(elided, 0));
  }

  lemma ElideNonEmpty(rows: seq<Row>)
    requires rows != []
    ensures ElideRows(rows) != []
  {
  }

  /** A list under `resources` does make the two differ: the directive is added and the list stays. */
  lemma ListIsNotElided()
    ensures var entries := Entry("resources", Sequence(Item(Scalar("pods"), NoItems)), NoEntries);
            && PrintableEntries(entries)
            && ElideText(PrintText(entries)) != TextOf(Texts(PrintEntries(ElideEntries(entries, 0, false), 0)))
  {
    hide ElideText, PrintText, TextOf, Texts;
    ElisionIsExact(Entry("resources", Sequence(Item(Scalar("pods"), NoItems)), NoEntries));
  }
}
