/**
 Row by row rewriting of a printout, and the rewriting of the tree it amounts to.

 Both sides are kept abstract here: a row rewriting and a field editor that agree on the
 rows an entry is printed as give the same result on every tree.
 */
module TreeEdits {
  import opened GoStrings
  import opened Yaml

  /** What can stand in the place of a one-line entry. */
  datatype Piece = Field(key: string, text: string) | Rows(rows: seq<Row>)

  /**
   `field` says what replaces an entry `key: text`; `keepsHeader` for which keys the header
   row of a nested value is left alone.
   */
  datatype Editor = Editor(field: (string, string) -> seq<Piece>, keepsHeader: string -> bool)

  function PieceRows(pieces: seq<Piece>, indent: nat): seq<Row> {
    if pieces == [] then []
    else
      (match pieces[0]
       case Field(key, text) => [Row(indent, key + ": " + text)]
       case Rows(rows) => Shift(rows, indent))
      + PieceRows(pieces[1..], indent)
  }

  function Prepend(pieces: seq<Piece>, rest: Entries): Entries {
    if pieces == [] then rest
    else
      match pieces[0]
      case Field(key, text) => Entry(key, Scalar(text), Prepend(pieces[1..], rest))
      case Rows(rows) => Splice(rows, Prepend(pieces[1..], rest))
  }

  lemma {:induction false} PrintPrepend(pieces: seq<Piece>, rest: Entries, indent: nat)
    ensures PrintEntries(Prepend(pieces, rest), indent) == PieceRows(pieces, indent) + PrintEntries(rest, indent)
  {
    if pieces != [] {
      PrintPrepend(pieces[1..], rest, indent);
    }
  }

  // ---------------------------------------------------------------- The tree side

  /**
   Rewrites every one-line entry of a tree.  The first entry of a list item is left alone:
   it shares its row with the dash, which is what `dashed` says.
   */
  function EditEntries(e: Editor, entries: Entries, dashed: bool): Entries {
    match entries
    case NoEntries => NoEntries
    case Splice(rows, rest) => Splice(rows, EditEntries(e, rest, false))
    case Entry(key, value, rest) =>
      var rest' := EditEntries(e, rest, false);
      match value
      case Scalar(text) => if dashed then Entry(key, value, rest') else Prepend(e.field(key, text), rest')
      case Mapping(inner) => Entry(key, Mapping(EditEntries(e, inner, false)), rest')
      case Sequence(items) => Entry(key, Sequence(EditItems(e, items)), rest')
  }

  function EditItems(e: Editor, items: Items): Items {
    match items
    case NoItems => NoItems
    case Item(value, rest) => Item(EditItem(e, value), EditItems(e, rest))
  }

  function EditItem(e: Editor, value: Node): Node {
    match value
    case Scalar(text) => value
    case Mapping(entries) => Mapping(EditEntries(e, entries, true))
    case Sequence(items) => Sequence(EditItems(e, items))
  }

  /** No header row of a nested value is one the rewriting would touch. */
  predicate Fits(e: Editor, entries: Entries, dashed: bool) {
    match entries
    case NoEntries => true
    case Splice(_, rest) => false
    case Entry(key, value, rest) =>
      && Fits(e, rest, false)
      && match value
         case Scalar(_) => true
         case Mapping(inner) => (dashed || e.keepsHeader(key)) && Fits(e, inner, false)
         case Sequence(items) => (dashed || e.keepsHeader(key)) && FitsItems(e, items)
  }

  predicate FitsItems(e: Editor, items: Items) {
    match items
    case NoItems => true
    case Item(value, rest) => FitsItem(e, value) && FitsItems(e, rest)
  }

  predicate FitsItem(e: Editor, value: Node) {
    match value
    case Scalar(_) => true
    case Mapping(entries) => Fits(e, entries, true)
    case Sequence(items) => FitsItems(e, items)
  }

  // ---------------------------------------------------------------- The row side

  function EditRows(f: Row -> seq<Row>, rows: seq<Row>): seq<Row> {
    if rows == [] then [] else f(rows[0]) + EditRows(f, rows[1..])
  }

  lemma {:induction false} EditRowsAppend(f: Row -> seq<Row>, a: seq<Row>, b: seq<Row>)
    ensures EditRows(f, a + b) == EditRows(f, a) + EditRows(f, b)
  {
    if a == [] {
      assert a + b == b;
    } else {
      assert (a + b)[1..] == a[1..] + b;
      EditRowsAppend(f, a[1..], b);
    }
  }

  lemma EditRow(f: Row -> seq<Row>, row: Row)
    ensures EditRows(f, [row]) == f(row)
  {
    assert [row][1..] == [];
  }

  /** The two sides agree on an entry's row, on header rows the editor keeps, and on rows with a dash. */
  ghost predicate AgreesOnField(e: Editor, f: Row -> seq<Row>, key: string, text: string, indent: nat) {
    GoodKey(key) && Clean(text) ==> f(Row(indent, key + ": " + text)) == PieceRows(e.field(key, text), indent)
  }

  ghost predicate AgreesOnHeader(e: Editor, f: Row -> seq<Row>, key: string, indent: nat) {
    GoodKey(key) && e.keepsHeader(key) ==> f(Row(indent, key + ":")) == [Row(indent, key + ":")]
  }

  ghost predicate AgreesOnDash(f: Row -> seq<Row>, content: string, indent: nat) {
    f(Row(indent, "- " + content)) == [Row(indent, "- " + content)]
  }

  ghost predicate Agrees(e: Editor, f: Row -> seq<Row>) {
    && (forall key, text, indent :: AgreesOnField(e, f, key, text, indent))
    && (forall key, indent :: AgreesOnHeader(e, f, key, indent))
    && (forall content, indent :: AgreesOnDash(f, content, indent))
  }

  /** Rewrites rows, except a first row that will carry a dash. */
  function EditTail(f: Row -> seq<Row>, rows: seq<Row>, dashed: bool): seq<Row> {
    if dashed && rows != [] then [rows[0]] + EditRows(f, rows[1..]) else EditRows(f, rows)
  }

  lemma EditTailAppend(f: Row -> seq<Row>, a: seq<Row>, b: seq<Row>, dashed: bool)
    requires a != []
    ensures EditTail(f, a + b, dashed) == EditTail(f, a, dashed) + EditRows(f, b)
  {
    hide EditRows;
    if dashed {
      assert (a + b)[1..] == a[1..] + b && (a + b)[0] == a[0];
      EditRowsAppend(f, a[1..], b);
      assert [a[0]] + (EditRows(f, a[1..]) + EditRows(f, b)) == [a[0]] + EditRows(f, a[1..]) + EditRows(f, b);
    } else {
      EditRowsAppend(f, a, b);
    }
  }

  /** Rewriting the rows of a printout gives the printout of the rewritten tree. */
  lemma {:induction false} EditPrintEntries(e: Editor, f: Row -> seq<Row>, entries: Entries, indent: nat, dashed: bool)
    requires Agrees(e, f) && PrintableEntries(entries) && Fits(e, entries, dashed)
    ensures EditTail(f, PrintEntries(entries, indent), dashed)
            == PrintEntries(EditEntries(e, entries, dashed), indent)
    decreases entries
  {
    hide Agrees;
    match entries
    case NoEntries =>
    case Entry(key, value, rest) =>
      EditPrintEntry(e, f, key, value, rest, indent, dashed);
      EditPrintEntries(e, f, rest, indent, false);
      EditTailAppend(f, PrintEntry(key, value, indent), PrintEntries(rest, indent), dashed);
  }

  lemma {:induction false} EditPrintEntry(
      e: Editor, f: Row -> seq<Row>, key: string, value: Node, rest: Entries, indent: nat, dashed: bool)
    requires Agrees(e, f) && GoodKey(key) && Printable(value)
    requires Fits(e, Entry(key, value, rest), dashed)
    ensures EditTail(f, PrintEntry(key, value, indent), dashed) + PrintEntries(EditEntries(e, rest, false), indent)
            == PrintEntries(EditEntries(e, Entry(key, value, rest), dashed), indent)
    decreases value
  {
    hide GoodKey, Clean, Shift;
    var rest' := EditEntries(e, rest, false);
    match value
    case Scalar(text) =>
      var row := Row(indent, key + ": " + text);
      assert AgreesOnField(e, f, key, text, indent);
      EditRow(f, row);
      PrintPrepend(e.field(key, text), rest', indent);
    case Mapping(inner) =>
      EditHeader(e, f, key, PrintEntries(inner, indent + 2), indent, dashed);
      EditPrintEntries(e, f, inner, indent + 2, false);
    case Sequence(items) =>
      EditHeader(e, f, key, PrintItems(items, indent), indent, dashed);
      EditPrintItems(e, f, items, indent);
  }

  lemma {:induction false} EditHeader(e: Editor, f: Row -> seq<Row>, key: string, rows: seq<Row>, indent: nat, dashed: bool)
    requires Agrees(e, f) && GoodKey(key)
    requires dashed || e.keepsHeader(key)
    ensures EditTail(f, [Row(indent, key + ":")] + rows, dashed) == [Row(indent, key + ":")] + EditRows(f, rows)
  {
    var header := Row(indent, key + ":");
    assert ([header] + rows)[1..] == rows;
    if !dashed {
      assert AgreesOnHeader(e, f, key, indent);
    }
  }

  lemma {:induction false} EditPrintItem(e: Editor, f: Row -> seq<Row>, value: Node, indent: nat)
    requires Agrees(e, f) && Printable(value) && FitsItem(e, value)
    ensures EditTail(f, PrintItem(value, indent), true) == PrintItem(EditItem(e, value), indent)
    decreases value
  {
    hide Agrees;
    match value
    case Scalar(text) =>
      assert PrintItem(value, indent)[1..] == [];
    case Mapping(entries) =>
      EditPrintEntries(e, f, entries, indent, true);
    case Sequence(items) =>
      EditPrintItems(e, f, items, indent);
      FirstItemDashed(e, f, items, indent);
  }

  /** The first row of a list has a dash, so leaving it alone and rewriting it are the same. */
  lemma FirstItemDashed(e: Editor, f: Row -> seq<Row>, items: Items, indent: nat)
    requires Agrees(e, f) && items != NoItems && PrintableItems(items)
    ensures EditTail(f, PrintItems(items, indent), true) == EditRows(f, PrintItems(items, indent))
  {
    var body := PrintItem(items.value, indent + 2);
    ItemGood(items.value, indent + 2);
    assert AgreesOnDash(f, body[0].content, indent);
    var rows := PrintItems(items, indent);
    assert rows[0] == Row(indent, "- " + body[0].content);
  }

  lemma EditDash(f: Row -> seq<Row>, body: seq<Row>, indent: nat)
    requires body != [] && AgreesOnDash(f, body[0].content, indent)
    ensures EditRows(f, Dash(indent, body)) == Dash(indent, EditTail(f, body, true))
  {
    assert Dash(indent, body)[1..] == body[1..];
  }

  lemma {:induction false} EditPrintItems(e: Editor, f: Row -> seq<Row>, items: Items, indent: nat)
    requires Agrees(e, f) && PrintableItems(items) && FitsItems(e, items)
    ensures EditRows(f, PrintItems(items, indent)) == PrintItems(EditItems(e, items), indent)
    decreases items
  {
    match items
    case NoItems =>
    case Item(value, rest) =>
      var body := PrintItem(value, indent + 2);
      ItemGood(value, indent + 2);
      EditPrintItem(e, f, value, indent + 2);
      assert AgreesOnDash(f, body[0].content, indent);
      EditDash(f, body, indent);
      EditPrintItems(e, f, rest, indent);
      EditRowsAppend(f, Dash(indent, body), PrintItems(rest, indent));
  }

  // ---------------------------------------------------------------- Exactly when the two sides agree

  /**
   For a rewriting that replaces single rows by single rows: it treats one-line entries as
   the editor does, and changes every header row the editor does not keep.
   */
  ghost predicate OneForOne(e: Editor, f: Row -> seq<Row>) {
    && Agrees(e, f)
    && (forall row :: |f(row)| == 1)
    && (forall key, text :: |e.field(key, text)| == 1 && e.field(key, text)[0].Field?)
    && (forall key, indent :: ChangesHeader(e, f, key, indent))
  }

  ghost predicate ChangesHeader(e: Editor, f: Row -> seq<Row>, key: string, indent: nat) {
    GoodKey(key) && !e.keepsHeader(key) ==> f(Row(indent, key + ":")) != [Row(indent, key + ":")]
  }

  lemma SplitEqual<T>(a: seq<T>, b: seq<T>, c: seq<T>, d: seq<T>)
    requires |a| == |c|
    ensures a + b == c + d <==> a == c && b == d
  {
    if a + b == c + d {
      assert (a + b)[..|a|] == a && (c + d)[..|c|] == c;
      assert (a + b)[|a|..] == b && (c + d)[|c|..] == d;
    }
  }

  /** The rewriting of the rows is the rewriting of the tree exactly on the trees that fit. */
  lemma {:induction false} EditPrintExact(e: Editor, f: Row -> seq<Row>, entries: Entries, indent: nat, dashed: bool)
    requires OneForOne(e, f) && PrintableEntries(entries)
    ensures var rows, tree := PrintEntries(entries, indent), PrintEntries(EditEntries(e, entries, dashed), indent);
            && |EditTail(f, rows, dashed)| == |rows| == |tree|
            && (EditTail(f, rows, dashed) == tree <==> Fits(e, entries, dashed))
    decreases entries
  {
    hide OneForOne, GoodKey, Clean;
    match entries
    case NoEntries =>
    case Entry(key, value, rest) =>
      var a, b := PrintEntry(key, value, indent), PrintEntries(rest, indent);
      EditPrintEntryExact(e, f, key, value, rest, indent, dashed);
      EditPrintExact(e, f, rest, indent, false);
      EditTailAppend(f, a, b, dashed);
      var edited := EditedEntryRows(e, key, value, indent, dashed);
      SplitEqual(EditTail(f, a, dashed), EditRows(f, b), edited, PrintEntries(EditEntries(e, rest, false), indent));
  }

  /** The rows an entry is printed as after the rewriting of the tree. */
  ghost function EditedEntryRows(e: Editor, key: string, value: Node, indent: nat, dashed: bool): seq<Row> {
    match value
    case Scalar(text) =>
      if dashed then PrintEntry(key, value, indent) else PieceRows(e.field(key, text), indent)
    case Mapping(inner) => PrintEntry(key, Mapping(EditEntries(e, inner, false)), indent)
    case Sequence(items) => PrintEntry(key, Sequence(EditItems(e, items)), indent)
  }

  ghost predicate FitsEntry(e: Editor, key: string, value: Node, dashed: bool) {
    match value
    case Scalar(_) => true
    case Mapping(inner) => (dashed || e.keepsHeader(key)) && Fits(e, inner, false)
    case Sequence(items) => (dashed || e.keepsHeader(key)) && FitsItems(e, items)
  }

  lemma {:induction false} EditPrintEntryExact(
      e: Editor, f: Row -> seq<Row>, key: string, value: Node, rest: Entries, indent: nat, dashed: bool)
    requires OneForOne(e, f) && GoodKey(key) && Printable(value)
    ensures var rows := PrintEntry(key, value, indent);
            var edited := EditedEntryRows(e, key, value, indent, dashed);
            && |EditTail(f, rows, dashed)| == |rows| == |edited|
            && (EditTail(f, rows, dashed) == edited <==> FitsEntry(e, key, value, dashed))
            && PrintEntries(EditEntries(e, Entry(key, value, rest), dashed), indent)
               == edited + PrintEntries(EditEntries(e, rest, false), indent)
    decreases value
  {
    hide GoodKey, Clean, Shift;
    match value
    case Scalar(text) =>
      var row := Row(indent, key + ": " + text);
      assert AgreesOnField(e, f, key, text, indent);
      EditRow(f, row);
      PrintPrepend(e.field(key, text), EditEntries(e, rest, false), indent);
      assert e.field(key, text)[1..] == [];
    case Mapping(inner) =>
      var body := PrintEntries(inner, indent + 2);
      EditPrintExact(e, f, inner, indent + 2, false);
      HeaderExact(e, f, key, body, PrintEntries(EditEntries(e, inner, false), indent + 2), indent, dashed);
    case Sequence(items) =>
      var body := PrintItems(items, indent);
      EditPrintItemsExact(e, f, items, indent);
      HeaderExact(e, f, key, body, PrintItems(EditItems(e, items), indent), indent, dashed);
  }

  lemma {:induction false} HeaderExact(
      e: Editor, f: Row -> seq<Row>, key: string, rows: seq<Row>, edited: seq<Row>, indent: nat, dashed: bool)
    requires OneForOne(e, f) && GoodKey(key)
    requires |EditRows(f, rows)| == |rows| == |edited|
    ensures var header := Row(indent, key + ":");
            && |EditTail(f, [header] + rows, dashed)| == 1 + |rows|
            && (EditTail(f, [header] + rows, dashed) == [header] + edited
                <==> (dashed || e.keepsHeader(key)) && EditRows(f, rows) == edited)
  {
    var header := Row(indent, key + ":");
    assert ([header] + rows)[1..] == rows;
    assert |f(header)| == 1;
    if !dashed {
      assert AgreesOnHeader(e, f, key, indent);
      assert ChangesHeader(e, f, key, indent);
      SplitEqual(f(header), EditRows(f, rows), [header], edited);
    } else {
      SplitEqual([header], EditRows(f, rows), [header], edited);
    }
  }

  lemma {:induction false} EditPrintItemExact(e: Editor, f: Row -> seq<Row>, value: Node, indent: nat)
    requires OneForOne(e, f) && Printable(value)
    ensures var rows, edited := PrintItem(value, indent), PrintItem(EditItem(e, value), indent);
            && |EditTail(f, rows, true)| == |rows| == |edited|
            && rows != [] && edited[0] == rows[0]
            && (EditTail(f, rows, true) == edited <==> FitsItem(e, value))
    decreases value
  {
    ItemGood(value, indent);
    match value
    case Scalar(text) =>
      assert PrintItem(value, indent)[1..] == [];
    case Mapping(entries) =>
      EditPrintExact(e, f, entries, indent, true);
      FirstEntryStays(e, entries, indent);
    case Sequence(items) =>
      EditPrintItemsExact(e, f, items, indent);
      FirstItemDashed(e, f, items, indent);
      EditPrintItemExact(e, f, items.value, indent + 2);
  }

  lemma FirstEntryStays(e: Editor, entries: Entries, indent: nat)
    requires PrintableEntries(entries) && entries != NoEntries
    ensures PrintEntries(EditEntries(e, entries, true), indent) != []
    ensures PrintEntries(EditEntries(e, entries, true), indent)[0] == PrintEntries(entries, indent)[0]
  {
  }

  lemma {:induction false} EditPrintItemsExact(e: Editor, f: Row -> seq<Row>, items: Items, indent: nat)
    requires OneForOne(e, f) && PrintableItems(items)
    ensures var rows, edited := PrintItems(items, indent), PrintItems(EditItems(e, items), indent);
            && |EditRows(f, rows)| == |rows| == |edited|
            && (EditRows(f, rows) == edited <==> FitsItems(e, items))
    decreases items
  {
    match items
    case NoItems =>
    case Item(value, rest) =>
      var body, edited := PrintItem(value, indent + 2), PrintItem(EditItem(e, value), indent + 2);
      EditPrintItemExact(e, f, value, indent + 2);
      assert AgreesOnDash(f, body[0].content, indent);
      EditDash(f, body, indent);
      EditPrintItemsExact(e, f, rest, indent);
      EditRowsAppend(f, Dash(indent, body), PrintItems(rest, indent));
      var tail := EditTail(f, body, true);
      SplitEqual([tail[0]], tail[1..], [edited[0]], edited[1..]);
      assert tail == [tail[0]] + tail[1..] && edited == [edited[0]] + edited[1..];
      SplitEqual([Row(indent, "- " + body[0].content)], tail[1..], [Row(indent, "- " + body[0].content)], edited[1..]);
      SplitEqual(Dash(indent, tail), EditRows(f, PrintItems(rest, indent)),
                 Dash(indent, edited), PrintItems(EditItems(e, rest), indent));
  }

  // ---------------------------------------------------------------- One rewriting after another

  function Compose(f: Row -> seq<Row>, g: Row -> seq<Row>): Row -> seq<Row> {
    row => EditRows(g, f(row))
  }

  lemma {:induction false} EditRowsCompose(f: Row -> seq<Row>, g: Row -> seq<Row>, rows: seq<Row>)
    ensures EditRows(g, EditRows(f, rows)) == EditRows(Compose(f, g), rows)
  {
    if rows != [] {
      EditRowsAppend(g, f(rows[0]), EditRows(f, rows[1..]));
      EditRowsCompose(f, g, rows[1..]);
    }
  }

  function EditPieces(e: Editor, pieces: seq<Piece>): seq<Piece> {
    if pieces == [] then []
    else
      (match pieces[0]
       case Field(key, text) => e.field(key, text)
       case Rows(_) => [pieces[0]])
      + EditPieces(e, pieces[1..])
  }

  function Then(first: Editor, second: Editor): Editor {
    Editor((key, text) => EditPieces(second, first.field(key, text)),
           key => first.keepsHeader(key) && second.keepsHeader(key))
  }

  ghost predicate GoodFields(pieces: seq<Piece>) {
    forall p | p in pieces :: p.Field? && GoodKey(p.key) && Clean(p.text)
  }

  /** The editor makes fields of fields. */
  ghost predicate FieldsOnly(e: Editor) {
    forall key, text :: FieldsOnlyAt(e, key, text)
  }

  ghost predicate FieldsOnlyAt(e: Editor, key: string, text: string) {
    GoodKey(key) && Clean(text) ==> GoodFields(e.field(key, text))
  }

  lemma PieceRowsAppend(a: seq<Piece>, b: seq<Piece>, indent: nat)
    ensures PieceRows(a + b, indent) == PieceRows(a, indent) + PieceRows(b, indent)
  {
    if a == [] {
      assert a + b == b;
    } else {
      assert (a + b)[1..] == a[1..] + b;
      PieceRowsAppend(a[1..], b, indent);
    }
  }

  lemma {:induction false} EditPieceRows(e: Editor, f: Row -> seq<Row>, pieces: seq<Piece>, indent: nat)
    requires Agrees(e, f) && GoodFields(pieces)
    ensures EditRows(f, PieceRows(pieces, indent)) == PieceRows(EditPieces(e, pieces), indent)
  {
    hide GoodKey, Clean, Shift;
    if pieces != [] {
      var p := pieces[0];
      assert p in pieces;
      assert AgreesOnField(e, f, p.key, p.text, indent);
      var row := Row(indent, p.key + ": " + p.text);
      EditRow(f, row);
      EditRowsAppend(f, [row], PieceRows(pieces[1..], indent));
      EditPieceRows(e, f, pieces[1..], indent);
      PieceRowsAppend(e.field(p.key, p.text), EditPieces(e, pieces[1..]), indent);
    }
  }

  lemma ComposeAgrees(e: Editor, f: Row -> seq<Row>, e': Editor, f': Row -> seq<Row>)
    requires Agrees(e, f) && Agrees(e', f') && FieldsOnly(e)
    ensures Agrees(Then(e, e'), Compose(f, f'))
  {
    hide GoodKey, Clean, GoodFields;
    forall key, text, indent
      ensures AgreesOnField(Then(e, e'), Compose(f, f'), key, text, indent)
    {
      if GoodKey(key) && Clean(text) {
        assert AgreesOnField(e, f, key, text, indent);
        assert FieldsOnlyAt(e, key, text);
        EditPieceRows(e', f', e.field(key, text), indent);
      }
    }
    forall key, indent
      ensures AgreesOnHeader(Then(e, e'), Compose(f, f'), key, indent)
    {
      assert AgreesOnHeader(e, f, key, indent);
      assert AgreesOnHeader(e', f', key, indent);
      EditRow(f', Row(indent, key + ":"));
    }
    forall content, indent
      ensures AgreesOnDash(Compose(f, f'), content, indent)
    {
      assert AgreesOnDash(f, content, indent);
      assert AgreesOnDash(f', content, indent);
      EditRow(f', Row(indent, "- " + content));
    }
  }

  lemma {:induction false} EditPiecesFields(e: Editor, pieces: seq<Piece>)
    requires FieldsOnly(e) && GoodFields(pieces)
    ensures GoodFields(EditPieces(e, pieces))
  {
    hide GoodKey, Clean;
    if pieces != [] {
      assert pieces[0] in pieces;
      assert FieldsOnlyAt(e, pieces[0].key, pieces[0].text);
      EditPiecesFields(e, pieces[1..]);
    }
  }

  lemma ComposeFieldsOnly(e: Editor, e': Editor)
    requires FieldsOnly(e) && FieldsOnly(e')
    ensures FieldsOnly(Then(e, e'))
  {
    hide GoodKey, Clean, GoodFields;
    forall key, text
      ensures FieldsOnlyAt(Then(e, e'), key, text)
    {
      assert FieldsOnlyAt(e, key, text);
      if GoodKey(key) && Clean(text) {
        EditPiecesFields(e', e.field(key, text));
      }
    }
  }
}
