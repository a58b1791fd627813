/**
 Kubernetes resources as YAML trees, and the block style they are printed in.

 A mapping is nested by two, a sequence under a key stands at the indent of the key, and
 the first row of a list item shares its row with the dash.
 */
module Yaml {
  import opened GoStrings

  /**
   A scalar carries its printed form, plain or quoted; the empty mapping `{}` and the empty
   sequence `[]` are printed inline and count as scalars.
   */
  datatype Node =
    | Scalar(text: string)
    | Mapping(entries: Entries)
    | Sequence(items: Items)

  /**
   Entries in the order they are printed.  A splice is a run of template rows between
   entries; resources have none, templates do.
   */
  datatype Entries =
    | NoEntries
    | Entry(key: string, value: Node, rest: Entries)
    | Splice(rows: seq<Row>, rest: Entries)

  datatype Items =
    | NoItems
    | Item(value: Node, rest: Items)

  function ItemList(items: Items): seq<Node> {
    match items
    case NoItems => []
    case Item(value, rest) => [value] + ItemList(rest)
  }

  /** A line of text, taken apart into its indent and what follows. */
  datatype Row = Row(indent: nat, content: string)

  // ---------------------------------------------------------------- Printing

  function Shift(rows: seq<Row>, offset: nat): (shifted: seq<Row>)
    ensures |shifted| == |rows|
    ensures forall i | 0 <= i < |rows| :: shifted[i] == Row(rows[i].indent + offset, rows[i].content)
  {
    seq(|rows|, i requires 0 <= i < |rows| => Row(rows[i].indent + offset, rows[i].content))
  }

  /** Puts a dash in front of the first row of a list item. */
  function Dash(indent: nat, body: seq<Row>): seq<Row> {
    if body == [] then [] else [Row(indent, "- " + body[0].content)] + body[1..]
  }

  function PrintEntry(key: string, value: Node, indent: nat): (rows: seq<Row>)
    ensures rows != []
    decreases value
  {
    match value
    case Scalar(text) => [Row(indent, key + ": " + text)]
    case Mapping(entries) => [Row(indent, key + ":")] + PrintEntries(entries, indent + 2)
    case Sequence(items) => [Row(indent, key + ":")] + PrintItems(items, indent)
  }

  function PrintEntries(entries: Entries, indent: nat): seq<Row> {
    match entries
    case NoEntries => []
    case Entry(key, value, rest) => PrintEntry(key, value, indent) + PrintEntries(rest, indent)
    case Splice(rows, rest) => Shift(rows, indent) + PrintEntries(rest, indent)
  }

  function PrintItem(value: Node, indent: nat): seq<Row> {
    match value
    case Scalar(text) => [Row(indent, text)]
    case Mapping(entries) => PrintEntries(entries, indent)
    case Sequence(items) => PrintItems(items, indent)
  }

  function PrintItems(items: Items, indent: nat): seq<Row> {
    match items
    case NoItems => []
    case Item(value, rest) => Dash(indent, PrintItem(value, indent + 2)) + PrintItems(rest, indent)
  }

  function RowText(row: Row): string {
    Spaces(row.indent) + row.content
  }

  function Texts(rows: seq<Row>): (lines: seq<string>)
    ensures |lines| == |rows|
    ensures forall i | 0 <= i < |rows| :: lines[i] == RowText(rows[i])
  {
    seq(|rows|, i requires 0 <= i < |rows| => RowText(rows[i]))
  }

  /** The text of a resource, without the newline at its end. */
  function PrintText(entries: Entries): string {
    Join(Texts(PrintEntries(entries, 0)), "\n")
  }

  /** `marshalResource`: the marshalled text, trimmed. */
  function Marshal(entries: Entries): string {
    TrimSpace(PrintText(entries) + "\n")
  }

  // ---------------------------------------------------------------- Trees that can be printed

  /** A mapping key: one visible line without a colon, not starting like a list item. */
  predicate GoodKey(key: string) {
    Clean(key) && ':' !in key && key[0] != '-'
  }

  predicate Printable(node: Node) {
    match node
    case Scalar(text) => Clean(text)
    case Mapping(entries) => entries != NoEntries && PrintableEntries(entries)
    case Sequence(items) => items != NoItems && PrintableItems(items)
  }

  /** A resource: no template rows. */
  predicate PrintableEntries(entries: Entries) {
    match entries
    case NoEntries => true
    case Entry(key, value, rest) => GoodKey(key) && Printable(value) && PrintableEntries(rest)
    case Splice(_, _) => false
  }

  predicate PrintableItems(items: Items) {
    match items
    case NoItems => true
    case Item(value, rest) => Printable(value) && PrintableItems(rest)
  }

  predicate GoodRow(row: Row) {
    Clean(row.content)
  }

  ghost predicate GoodRows(rows: seq<Row>) {
    forall row | row in rows :: GoodRow(row)
  }

  lemma CleanConcat(a: string, b: string)
    requires Clean(a) && Clean(b)
    ensures Clean(a + b) && Clean(a + " " + b)
  {
  }

  lemma EntryRowGood(key: string, text: string, indent: nat)
    requires GoodKey(key) && Clean(text)
    ensures GoodRow(Row(indent, key + ": " + text)) && GoodRow(Row(indent, key + ":"))
  {
    assert Clean(":");
    CleanConcat(key, ":");
    CleanConcat(key + ":", text);
    assert key + ": " + text == key + ":" + " " + text;
  }

  lemma DashGood(indent: nat, body: seq<Row>)
    requires GoodRows(body)
    ensures GoodRows(Dash(indent, body))
  {
    if body != [] {
      assert body[0] in body;
      assert Clean("-");
      CleanConcat("-", body[0].content);
      assert "- " + body[0].content == "-" + " " + body[0].content;
    }
  }

  lemma {:induction false} EntriesGood(entries: Entries, indent: nat)
    requires PrintableEntries(entries)
    ensures GoodRows(PrintEntries(entries, indent))
    ensures entries != NoEntries ==> PrintEntries(entries, indent) != []
  {
    match entries
    case NoEntries =>
    case Entry(key, value, rest) =>
      EntryGood(key, value, indent);
      EntriesGood(rest, indent);
  }

  lemma {:induction false} EntryGood(key: string, value: Node, indent: nat)
    requires GoodKey(key) && Printable(value)
    ensures GoodRows(PrintEntry(key, value, indent))
    decreases value
  {
    EntryRowGood(key, key, indent);
    match value
    case Scalar(text) => EntryRowGood(key, text, indent);
    case Mapping(entries) => EntriesGood(entries, indent + 2);
    case Sequence(items) => ItemsGood(items, indent);
  }

  lemma {:induction false} ItemGood(value: Node, indent: nat)
    requires Printable(value)
    ensures GoodRows(PrintItem(value, indent)) && PrintItem(value, indent) != []
  {
    match value
    case Scalar(text) =>
    case Mapping(entries) => EntriesGood(entries, indent);
    case Sequence(items) => ItemsGood(items, indent);
  }

  lemma {:induction false} ItemsGood(items: Items, indent: nat)
    requires PrintableItems(items)
    ensures GoodRows(PrintItems(items, indent))
    ensures items != NoItems ==> PrintItems(items, indent) != []
  {
    match items
    case NoItems =>
    case Item(value, rest) =>
      ItemGood(value, indent + 2);
      DashGood(indent, PrintItem(value, indent + 2));
      ItemsGood(rest, indent);
  }

  // ---------------------------------------------------------------- Rows and lines

  lemma RowLine(row: Row)
    requires GoodRow(row)
    ensures TrimSpace(RowText(row)) == row.content
    ensures IndentOf(RowText(row)) == Spaces(row.indent)
    ensures '\n' !in RowText(row)
  {
    TrimClean(row.indent, row.content);
  }

  lemma RowTextInjective(a: Row, b: Row)
    requires GoodRow(a) && GoodRow(b) && RowText(a) == RowText(b)
    ensures a == b
  {
    RowLine(a);
    RowLine(b);
    assert |Spaces(a.indent)| == |Spaces(b.indent)|;
  }

  lemma {:induction false} TextsInjective(a: seq<Row>, b: seq<Row>)
    requires GoodRows(a) && GoodRows(b) && Texts(a) == Texts(b)
    ensures a == b
  {
    hide RowText;
    assert |a| == |b|;
    forall i | 0 <= i < |a|
      ensures a[i] == b[i]
    {
      assert Texts(a)[i] == Texts(b)[i];
      assert a[i] in a && b[i] in b;
      RowTextInjective(a[i], b[i]);
    }
  }

  lemma TextsOneLine(rows: seq<Row>)
    requires GoodRows(rows)
    ensures forall line | line in Texts(rows) :: '\n' !in line
  {
    hide RowText;
    forall i | 0 <= i < |rows|
      ensures '\n' !in Texts(rows)[i]
    {
      assert rows[i] in rows;
      RowLine(rows[i]);
    }
  }

  lemma TextsAppend(a: seq<Row>, b: seq<Row>)
    ensures Texts(a + b) == Texts(a) + Texts(b)
  {
  }

  lemma JoinEnds(lines: seq<string>)
    requires lines != [] && lines[0] != "" && lines[|lines| - 1] != ""
    ensures var s := Join(lines, "\n"); s != "" && s[0] == lines[0][0]
    ensures var s := Join(lines, "\n"); var last := lines[|lines| - 1]; s[|s| - 1] == last[|last| - 1]
  {
    if |lines| > 1 {
      var front := lines[..|lines| - 1];
      assert lines == front + [lines[|lines| - 1]];
      JoinAppend(front, [lines[|lines| - 1]], "\n");
      assert lines[0] <= Join(lines, "\n");
    }
  }

  lemma EntriesStartAt(entries: Entries, indent: nat)
    requires PrintableEntries(entries) && entries != NoEntries
    ensures PrintEntries(entries, indent) != [] && PrintEntries(entries, indent)[0].indent == indent
  {
  }

  /** Trimming removes the newline `yaml.Marshal` ends with, and nothing else. */
  lemma MarshalIsPrintText(entries: Entries)
    requires PrintableEntries(entries) && entries != NoEntries
    ensures Marshal(entries) == PrintText(entries)
  {
    hide RowText, PrintEntries, PrintableEntries;
    var rows := PrintEntries(entries, 0);
    EntriesGood(entries, 0);
    EntriesStartAt(entries, 0);
    FirstAndLastVisible(rows);
    JoinEnds(Texts(rows));
    TrimNewline(PrintText(entries));
  }

  lemma FirstAndLastVisible(rows: seq<Row>)
    requires rows != [] && GoodRows(rows) && rows[0].indent == 0
    ensures var first := RowText(rows[0]); first != "" && !IsSpace(first[0])
    ensures var last := RowText(rows[|rows| - 1]); last != "" && !IsSpace(last[|last| - 1])
  {
    assert rows[0] in rows && rows[|rows| - 1] in rows;
    assert Spaces(0) == "";
  }

  lemma TrimNewline(s: string)
    requires s != "" && !IsSpace(s[0]) && !IsSpace(s[|s| - 1])
    ensures TrimSpace(s + "\n") == s
  {
    var t := s + "\n";
    assert TrimLeadingSpace(t) == t;
    assert t[|t| - 1] == '\n' && t[..|t| - 1] == s;
    assert TrimTrailingSpace(s) == s;
  }
}
