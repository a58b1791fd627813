/**
 Rendering a whole template, tree by tree.

 Two editors describe a pipeline: one says what the compiler writes for an entry, the other
 what that renders to.  If they match entry by entry, the rendered template is the resource
 rewritten by the second editor.
 */
module ChartRendering {
  import opened Wrappers
  import opened GoStrings
  import opened LinePasses
  import opened Yaml
  import opened TreeEdits
  import opened Elision
  import opened HelmTemplate

  // ---------------------------------------------------------------- Filling in a tree

  /** What to put under a `resources` key at a given indent; None leaves the mapping to the editor. */
  type BlockEditor = nat -> Option<Entries>

  /** An editor for every indent. */
  type Editors = nat -> Editor

  /** The same editor at every indent. */
  function Evenly(e: Editor): Editors {
    (indent: nat) => e
  }

  /** `EditEntries`, with the mapping under every `resources` key that shares no row with a dash replaced. */
  function Fill(e: Editors, block: BlockEditor, entries: Entries, indent: nat, dashed: bool): Entries {
    match entries
    case NoEntries => NoEntries
    case Splice(rows, rest) => Splice(rows, Fill(e, block, rest, indent, false))
    case Entry(key, value, rest) =>
      var rest' := Fill(e, block, rest, indent, false);
      match value
      case Scalar(text) => if dashed then Entry(key, value, rest') else Prepend(e(indent).field(key, text), rest')
      case Mapping(inner) =>
        if key == "resources" && !dashed && block(indent).Some? then Entry(key, Mapping(block(indent).value), rest')
        else Entry(key, Mapping(Fill(e, block, inner, indent + 2, false)), rest')
      case Sequence(items) => Entry(key, Sequence(FillItems(e, block, items, indent)), rest')
  }

  function FillItems(e: Editors, block: BlockEditor, items: Items, indent: nat): Items {
    match items
    case NoItems => NoItems
    case Item(value, rest) => Item(FillItem(e, block, value, indent + 2), FillItems(e, block, rest, indent))
  }

  function FillItem(e: Editors, block: BlockEditor, value: Node, indent: nat): Node {
    match value
    case Scalar(text) => value
    case Mapping(entries) => Mapping(Fill(e, block, entries, indent, true))
    case Sequence(items) => Sequence(FillItems(e, block, items, indent))
  }

  function KeepBlocks(): BlockEditor {
    (indent: nat) => None
  }

  function DirectiveBlocks(): BlockEditor {
    (indent: nat) => Some(Splice([Row(0, ResourcesDirective(indent + 2))], NoEntries))
  }

  function SetBlocks(resources: Entries): BlockEditor {
    (indent: nat) => Some(resources)
  }

  lemma {:induction false} FillWithoutBlocks(e: Editor, entries: Entries, indent: nat, dashed: bool)
    ensures Fill(Evenly(e), KeepBlocks(), entries, indent, dashed) == EditEntries(e, entries, dashed)
    decreases entries
  {
    match entries
    case NoEntries =>
    case Splice(_, rest) => FillWithoutBlocks(e, rest, indent, false);
    case Entry(key, value, rest) =>
      FillWithoutBlocks(e, rest, indent, false);
      match value
      case Scalar(_) =>
      case Mapping(inner) => FillWithoutBlocks(e, inner, indent + 2, false);
      case Sequence(items) => FillItemsWithoutBlocks(e, items, indent);
  }

  lemma {:induction false} FillItemsWithoutBlocks(e: Editor, items: Items, indent: nat)
    ensures FillItems(Evenly(e), KeepBlocks(), items, indent) == EditItems(e, items)
    decreases items
  {
    match items
    case NoItems =>
    case Item(value, rest) =>
      FillItemsWithoutBlocks(e, rest, indent);
      match value
      case Scalar(_) =>
      case Mapping(entries) => FillWithoutBlocks(e, entries, indent + 2, true);
      case Sequence(inner) => FillItemsWithoutBlocks(e, inner, indent + 2);
  }

  lemma {:induction false} ElidePrepend(pieces: seq<Piece>, rest: Entries, indent: nat)
    ensures ElideEntries(Prepend(pieces, rest), indent, false) == Prepend(pieces, ElideEntries(rest, indent, false))
  {
    if pieces != [] {
      ElidePrepend(pieces[1..], rest, indent);
    }
  }

  /** Editing the entries and then replacing the blocks is filling in the directive. */
  lemma {:induction false} ElideAfterEdit(e: Editor, entries: Entries, indent: nat, dashed: bool)
    requires PrintableEntries(entries)
    ensures ElideEntries(EditEntries(e, entries, dashed), indent, dashed)
            == Fill(Evenly(e), DirectiveBlocks(), entries, indent, dashed)
    decreases entries
  {
    hide Clean, GoodKey, ResourcesDirective;
    match entries
    case NoEntries =>
    case Entry(key, value, rest) =>
      ElideAfterEdit(e, rest, indent, false);
      match value
      case Scalar(text) =>
        ElidePrepend(e.field(key, text), EditEntries(e, rest, false), indent);
      case Mapping(inner) => ElideAfterEdit(e, inner, indent + 2, false);
      case Sequence(items) => ElideItemsAfterEdit(e, items, indent);
  }

  lemma {:induction false} ElideItemsAfterEdit(e: Editor, items: Items, indent: nat)
    requires PrintableItems(items)
    ensures ElideItems(EditItems(e, items), indent) == FillItems(Evenly(e), DirectiveBlocks(), items, indent)
    decreases items
  {
    hide Clean, GoodKey, ResourcesDirective;
    match items
    case NoItems =>
    case Item(value, rest) =>
      ElideItemsAfterEdit(e, rest, indent);
      match value
      case Scalar(_) =>
      case Mapping(entries) => ElideAfterEdit(e, entries, indent + 2, true);
      case Sequence(inner) => ElideItemsAfterEdit(e, inner, indent + 2);
  }

  lemma {:induction false} ListsPrepend(pieces: seq<Piece>, rest: Entries)
    ensures Lists(Prepend(pieces, rest), false) == Lists(rest, false)
  {
    if pieces != [] {
      ListsPrepend(pieces[1..], rest);
    }
  }

  /** Editing scalars neither adds nor removes a list under `resources`. */
  lemma {:induction false} ListsAfterEdit(e: Editor, entries: Entries, dashed: bool)
    requires PrintableEntries(entries)
    ensures Lists(EditEntries(e, entries, dashed), dashed) == Lists(entries, dashed)
    decreases entries
  {
    hide Clean, GoodKey;
    match entries
    case NoEntries =>
    case Entry(key, value, rest) =>
      ListsAfterEdit(e, rest, false);
      match value
      case Scalar(text) => ListsPrepend(e.field(key, text), EditEntries(e, rest, false));
      case Mapping(inner) => ListsAfterEdit(e, inner, false);
      case Sequence(items) => ListsInItemsAfterEdit(e, items);
  }

  lemma {:induction false} ListsInItemsAfterEdit(e: Editor, items: Items)
    requires PrintableItems(items)
    ensures ListsInItems(EditItems(e, items)) == ListsInItems(items)
    decreases items
  {
    hide Clean, GoodKey;
    match items
    case NoItems =>
    case Item(value, rest) =>
      ListsInItemsAfterEdit(e, rest);
      match value
      case Scalar(_) =>
      case Mapping(entries) => ListsAfterEdit(e, entries, true);
      case Sequence(inner) => ListsInItemsAfterEdit(e, inner);
  }

  // ---------------------------------------------------------------- Edited trees are templates

  predicate GoodPiece(piece: Piece) {
    match piece
    case Field(key, text) => GoodKey(key) && '{' !in key && Clean(text)
    case Rows(rows) => GoodSplice(rows)
  }

  /** What an editor makes of good entries is good. */
  ghost predicate EmitsGood(e: Editor) {
    forall key, text :: EmitsGoodAt(e, key, text)
  }

  /** The pieces for an entry are good, and start with a field unless there are none. */
  ghost predicate EmitsGoodAt(e: Editor, key: string, text: string) {
    GoodKey(key) && '{' !in key && Clean(text) && !Contains(text, "{{") ==>
      && (forall p | p in e.field(key, text) :: GoodPiece(p))
      && (e.field(key, text) != [] ==> e.field(key, text)[0].Field?)
  }

  lemma {:induction false} PrependTemplate(pieces: seq<Piece>, rest: Entries)
    requires TemplateEntries(rest) && forall p | p in pieces :: GoodPiece(p)
    ensures TemplateEntries(Prepend(pieces, rest))
  {
    hide Clean, GoodKey, GoodSplice;
    if pieces != [] {
      assert pieces[0] in pieces;
      PrependTemplate(pieces[1..], rest);
    }
  }

  /** No template action anywhere, and no brace in a key. */
  predicate Plain(entries: Entries) {
    match entries
    case NoEntries => true
    case Splice(_, _) => false
    case Entry(key, value, rest) => '{' !in key && PlainNode(value) && Plain(rest)
  }

  predicate PlainNode(node: Node) {
    match node
    case Scalar(text) => !Contains(text, "{{")
    case Mapping(entries) => Plain(entries)
    case Sequence(items) => PlainItems(items)
  }

  predicate PlainItems(items: Items) {
    match items
    case NoItems => true
    case Item(value, rest) => PlainNode(value) && PlainItems(rest)
  }

  lemma {:induction false} EditIsTemplate(e: Editor, entries: Entries, dashed: bool)
    requires EmitsGood(e) && PrintableEntries(entries) && Plain(entries)
    ensures TemplateEntries(EditEntries(e, entries, dashed))
    ensures dashed && entries.Entry? ==> EditEntries(e, entries, dashed).Entry?
    decreases entries
  {
    hide Clean, GoodKey, Contains;
    match entries
    case NoEntries =>
    case Entry(key, value, rest) =>
      EditIsTemplate(e, rest, false);
      match value
      case Scalar(text) =>
        assert EmitsGoodAt(e, key, text);
        PrependTemplate(e.field(key, text), EditEntries(e, rest, false));
      case Mapping(inner) => EditIsTemplate(e, inner, false);
      case Sequence(items) => EditItemsAreTemplate(e, items);
  }

  lemma {:induction false} EditItemsAreTemplate(e: Editor, items: Items)
    requires EmitsGood(e) && PrintableItems(items) && PlainItems(items)
    ensures TemplateItems(EditItems(e, items))
    decreases items
  {
    hide Clean, GoodKey, Contains, EmitsGood;
    match items
    case NoItems =>
    case Item(value, rest) =>
      EditItemsAreTemplate(e, rest);
      match value
      case Scalar(_) =>
      case Mapping(entries) =>
        assert PrintableEntries(entries);
        EditIsTemplate(e, entries, true);
      case Sequence(inner) => EditItemsAreTemplate(e, inner);
  }

  // ---------------------------------------------------------------- Rendering trees

  /** Entry by entry, what the template editor writes renders to what the instance editor writes. */
  ghost predicate FieldRenders(env: Env, t: Editors, i: Editors, key: string, text: string, indent: nat) {
    GoodKey(key) && '{' !in key && Clean(text) && !Contains(text, "{{") ==>
      Renders(env, PieceRows(t(indent).field(key, text), indent), PieceRows(i(indent).field(key, text), indent))
  }

  ghost predicate BlockRenders(env: Env, bt: BlockEditor, bi: BlockEditor, indent: nat) {
    && bt(indent).Some? == bi(indent).Some?
    && (bt(indent).Some? ==>
          Renders(env, [Row(indent, "resources:")] + PrintEntries(bt(indent).value, indent + 2),
                       [Row(indent, "resources:")] + PrintEntries(bi(indent).value, indent + 2)))
  }

  ghost predicate Matches(env: Env, t: Editors, i: Editors, bt: BlockEditor, bi: BlockEditor) {
    && (forall key, text, indent :: FieldRenders(env, t, i, key, text, indent))
    && (forall indent :: BlockRenders(env, bt, bi, indent))
  }

  function Tail(rows: seq<Row>, dashed: bool): seq<Row> {
    if dashed && rows != [] then rows[1..] else rows
  }

  /** A row that renders to itself, with or without a dash. */
  ghost predicate LiteralRowOf(row: Row) {
    GoodRow(row) && !Contains(row.content, "{{")
  }

  lemma EntryRowLiteral(key: string, text: string, indent: nat)
    requires GoodKey(key) && '{' !in key && Clean(text) && !Contains(text, "{{")
    ensures LiteralRowOf(Row(indent, key + ": " + text)) && LiteralRowOf(Row(indent, key + ":"))
  {
    hide Contains, GoodKey;
    EntryRowGood(key, text, indent);
    BracesAfterPlain(key + ": ", text);
    NoBraceNoAction(key + ":");
  }

  lemma HeaderRowLiteral(key: string, indent: nat)
    requires GoodKey(key) && '{' !in key
    ensures LiteralRowOf(Row(indent, key + ":"))
  {
    hide Contains;
    NoBraceNoAction(key);
    EntryRowLiteral(key, key, indent);
  }

  lemma DashLiteral(row: Row, indent: nat)
    requires LiteralRowOf(row)
    ensures LiteralRowOf(Row(indent, "- " + row.content))
  {
    hide Contains;
    BracesAfterPlain("- ", row.content);
    assert Dash(indent, [row])[0] == Row(indent, "- " + row.content);
    DashGood(indent, [row]);
  }

  lemma {:induction false} RendersHeader(env: Env, key: string, indent: nat, a: seq<Row>, b: seq<Row>)
    requires GoodKey(key) && '{' !in key && Renders(env, a, b)
    ensures Renders(env, [Row(indent, key + ":")] + a, [Row(indent, key + ":")] + b)
  {
    hide Renders, GoodKey, LiteralRowOf;
    HeaderRowLiteral(key, indent);
    LiteralRowRenders(env, Row(indent, key + ":"));
    RendersBoth(env, [Row(indent, key + ":")], [Row(indent, key + ":")], a, b);
  }

  lemma LiteralRowRenders(env: Env, row: Row)
    requires LiteralRowOf(row)
    ensures Renders(env, [row], [row])
  {
    hide Renders, Contains;
    RendersLiteral(env, row);
  }

  /** Rows of one entry: rendered as a whole, or behind a first row that is the same literal on both sides. */
  ghost predicate RendersTail(env: Env, a: seq<Row>, b: seq<Row>, dashed: bool) {
    && Renders(env, Tail(a, dashed), Tail(b, dashed))
    && (dashed ==> (a == [] && b == []) || (a != [] && b != [] && a[0] == b[0] && LiteralRowOf(a[0])))
  }

  lemma {:induction false} RendersTailAppend(env: Env, a: seq<Row>, b: seq<Row>, c: seq<Row>, d: seq<Row>, dashed: bool)
    requires RendersTail(env, a, b, dashed) && Renders(env, c, d)
    requires dashed ==> a != []
    ensures RendersTail(env, a + c, b + d, dashed)
  {
    hide Renders, LiteralRowOf;
    RendersBoth(env, Tail(a, dashed), Tail(b, dashed), c, d);
    if dashed {
      assert (a + c)[1..] == a[1..] + c && (b + d)[1..] == b[1..] + d;
    }
  }

  lemma {:induction false} RendersTailHeader(env: Env, key: string, indent: nat, a: seq<Row>, b: seq<Row>, dashed: bool)
    requires GoodKey(key) && '{' !in key && Renders(env, a, b)
    ensures RendersTail(env, [Row(indent, key + ":")] + a, [Row(indent, key + ":")] + b, dashed)
  {
    hide Renders, GoodKey, LiteralRowOf;
    HeaderRowLiteral(key, indent);
    if dashed {
      assert ([Row(indent, key + ":")] + a)[1..] == a && ([Row(indent, key + ":")] + b)[1..] == b;
    } else {
      RendersHeader(env, key, indent, a, b);
    }
  }

  /** The rows of an entry in a filled-in tree, without the rows of the entries behind it. */
  ghost function FilledRows(e: Editors, block: BlockEditor, key: string, value: Node, indent: nat, dashed: bool): seq<Row> {
    match value
    case Scalar(text) => if dashed then [Row(indent, key + ": " + text)] else PieceRows(e(indent).field(key, text), indent)
    case Mapping(inner) =>
      [Row(indent, key + ":")] +
      (if key == "resources" && !dashed && block(indent).Some? then PrintEntries(block(indent).value, indent + 2)
       else PrintEntries(Fill(e, block, inner, indent + 2, false), indent + 2))
    case Sequence(items) => [Row(indent, key + ":")] + PrintItems(FillItems(e, block, items, indent), indent)
  }

  lemma {:induction false} FilledRowsPrint(e: Editors, block: BlockEditor, key: string, value: Node, rest: Entries, indent: nat, dashed: bool)
    ensures PrintEntries(Fill(e, block, Entry(key, value, rest), indent, dashed), indent)
            == FilledRows(e, block, key, value, indent, dashed)
               + PrintEntries(Fill(e, block, rest, indent, false), indent)
  {
    match value
    case Scalar(text) => PrintPrepend(e(indent).field(key, text), Fill(e, block, rest, indent, false), indent);
    case Mapping(_) =>
    case Sequence(_) =>
  }

  lemma {:induction false} RenderFill(
      env: Env, t: Editors, i: Editors, bt: BlockEditor, bi: BlockEditor, entries: Entries, indent: nat, dashed: bool)
    requires Matches(env, t, i, bt, bi) && PrintableEntries(entries) && Plain(entries)
    ensures RendersTail(env, PrintEntries(Fill(t, bt, entries, indent, dashed), indent),
                             PrintEntries(Fill(i, bi, entries, indent, dashed), indent), dashed)
    decreases entries
  {
    hide Matches, Renders, RendersTail, GoodKey, Clean, Contains, FilledRows;
    match entries
    case NoEntries =>
      NothingRenders(env, dashed);
    case Entry(key, value, rest) =>
      RenderFillEntry(env, t, i, bt, bi, key, value, indent, dashed);
      RenderFill(env, t, i, bt, bi, rest, indent, false);
      RestRenders(env, PrintEntries(Fill(t, bt, rest, indent, false), indent),
                       PrintEntries(Fill(i, bi, rest, indent, false), indent));
      FilledRowsPrint(t, bt, key, value, rest, indent, dashed);
      FilledRowsPrint(i, bi, key, value, rest, indent, dashed);
      RendersTailAppend(env, FilledRows(t, bt, key, value, indent, dashed), FilledRows(i, bi, key, value, indent, dashed),
                        PrintEntries(Fill(t, bt, rest, indent, false), indent),
                        PrintEntries(Fill(i, bi, rest, indent, false), indent), dashed);
  }

  lemma NothingRenders(env: Env, dashed: bool)
    ensures RendersTail(env, [], [], dashed)
  {
    hide Renders;
    RendersNothing(env);
  }

  lemma RestRenders(env: Env, a: seq<Row>, b: seq<Row>)
    requires RendersTail(env, a, b, false)
    ensures Renders(env, a, b)
  {
    hide Renders;
  }

  lemma {:induction false} RenderFillEntry(
      env: Env, t: Editors, i: Editors, bt: BlockEditor, bi: BlockEditor, key: string, value: Node, indent: nat, dashed: bool)
    requires Matches(env, t, i, bt, bi) && GoodKey(key) && '{' !in key && Printable(value) && PlainNode(value)
    ensures RendersTail(env, FilledRows(t, bt, key, value, indent, dashed),
                             FilledRows(i, bi, key, value, indent, dashed), dashed)
    ensures dashed ==> FilledRows(t, bt, key, value, indent, dashed) != []
    decreases value
  {
    hide Renders, GoodKey, Clean, Contains, LiteralRowOf;
    match value
    case Scalar(text) =>
      assert FieldRenders(env, t, i, key, text, indent);
      if dashed {
        EntryRowLiteral(key, text, indent);
        RendersNothing(env);
        assert [Row(indent, key + ": " + text)][1..] == [];
      }
    case Mapping(inner) =>
      RenderFill(env, t, i, bt, bi, inner, indent + 2, false);
      RestRenders(env, PrintEntries(Fill(t, bt, inner, indent + 2, false), indent + 2),
                       PrintEntries(Fill(i, bi, inner, indent + 2, false), indent + 2));
      assert BlockRenders(env, bt, bi, indent);
      if key == "resources" && !dashed && bt(indent).Some? {
        assert key + ":" == "resources:";
      } else {
        RendersTailHeader(env, key, indent, PrintEntries(Fill(t, bt, inner, indent + 2, false), indent + 2),
                          PrintEntries(Fill(i, bi, inner, indent + 2, false), indent + 2), dashed);
      }
    case Sequence(items) =>
      RenderFillItems(env, t, i, bt, bi, items, indent);
      RendersTailHeader(env, key, indent, PrintItems(FillItems(t, bt, items, indent), indent),
                        PrintItems(FillItems(i, bi, items, indent), indent), dashed);
  }

  lemma {:induction false} RenderFillItem(
      env: Env, t: Editors, i: Editors, bt: BlockEditor, bi: BlockEditor, value: Node, indent: nat)
    requires Matches(env, t, i, bt, bi) && Printable(value) && PlainNode(value)
    ensures var a, b := PrintItem(FillItem(t, bt, value, indent), indent), PrintItem(FillItem(i, bi, value, indent), indent);
            RendersTail(env, a, b, true) && a != []
    decreases value
  {
    hide Matches, Renders, GoodKey, Contains;
    match value
    case Scalar(text) =>
      RendersNothing(env);
      assert [Row(indent, text)][1..] == [];
    case Mapping(entries) =>
      RenderFill(env, t, i, bt, bi, entries, indent, true);
      FillNotEmpty(t, bt, entries, indent);
    case Sequence(items) =>
      RenderFillItems(env, t, i, bt, bi, items, indent);
      FirstItemRenders(env, t, i, bt, bi, items, indent);
  }

  lemma FillNotEmpty(e: Editors, block: BlockEditor, entries: Entries, indent: nat)
    requires entries.Entry?
    ensures PrintEntries(Fill(e, block, entries, indent, true), indent) != []
  {
    hide Prepend;
  }

  /** A list item that is itself a list starts with a literal row, too. */
  lemma {:induction false} FirstItemRenders(
      env: Env, t: Editors, i: Editors, bt: BlockEditor, bi: BlockEditor, items: Items, indent: nat)
    requires Matches(env, t, i, bt, bi) && items != NoItems && PrintableItems(items) && PlainItems(items)
    ensures var a, b := PrintItems(FillItems(t, bt, items, indent), indent), PrintItems(FillItems(i, bi, items, indent), indent);
            RendersTail(env, a, b, true) && a != []
    decreases items, 0
  {
    hide Matches, Renders, LiteralRowOf;
    RenderFillItem(env, t, i, bt, bi, items.value, indent + 2);
    RenderFillItems(env, t, i, bt, bi, items.rest, indent);
    var a := PrintItem(FillItem(t, bt, items.value, indent + 2), indent + 2);
    var b := PrintItem(FillItem(i, bi, items.value, indent + 2), indent + 2);
    DashLiteral(a[0], indent);
    assert Dash(indent, a)[1..] == a[1..] && Dash(indent, b)[1..] == b[1..];
    RendersTailAppend(env, Dash(indent, a), Dash(indent, b),
                      PrintItems(FillItems(t, bt, items.rest, indent), indent),
                      PrintItems(FillItems(i, bi, items.rest, indent), indent), true);
  }

  lemma {:induction false} RenderFillItems(
      env: Env, t: Editors, i: Editors, bt: BlockEditor, bi: BlockEditor, items: Items, indent: nat)
    requires Matches(env, t, i, bt, bi) && PrintableItems(items) && PlainItems(items)
    ensures Renders(env, PrintItems(FillItems(t, bt, items, indent), indent), PrintItems(FillItems(i, bi, items, indent), indent))
    decreases items, 1
  {
    hide Matches, Renders, LiteralRowOf;
    match items
    case NoItems => RendersNothing(env);
    case Item(value, rest) =>
      FirstItemRenders(env, t, i, bt, bi, items, indent);
      var a, b := PrintItems(FillItems(t, bt, items, indent), indent), PrintItems(FillItems(i, bi, items, indent), indent);
      LiteralRowRenders(env, a[0]);
      RendersBoth(env, [a[0]], [b[0]], a[1..], b[1..]);
      assert a == [a[0]] + a[1..] && b == [b[0]] + b[1..];
  }

  // ---------------------------------------------------------------- Text

  function After(prefix: string, result: Option<string>): Option<string> {
    match result
    case None => None
    case Some(s) => Some(prefix + s)
  }

  /** Output only grows: what is there already does not influence the rest. */
  lemma {:induction false} EvalPrefix(env: Env, s: string, prefix: string, out: string, space: string, dot: Dot)
    ensures Eval(env, s, prefix + out, space, dot) == After(prefix, Eval(env, s, out, space, dot))
    decreases |s|, 0
  {
    hide TrimSpace, FindClose, IsSpace;
    if s == "" {
      assert prefix + out + space == prefix + (out + space);
    } else if !HasPrefix(s, "{{") {
      if IsSpace(s[0]) {
        EvalPrefix(env, s[1..], prefix, out, space + [s[0]], dot);
      } else {
        EvalPrefix(env, s[1..], prefix, out + space + [s[0]], "", dot);
        assert prefix + out + space + [s[0]] == prefix + (out + space + [s[0]]);
      }
    } else {
      var trim := HasPrefix(s, "{{- ");
      var body := s[if trim then 3 else 2..];
      var i := FindClose(body);
      if i.Some? {
        ActPrefix(env, TrimSpace(body[..i.value]), body[i.value + 2..], prefix, if trim then out else out + space, dot);
        assert prefix + (out + space) == prefix + out + space;
      }
    }
  }

  lemma {:induction false} ActPrefix(env: Env, e: string, rest: string, prefix: string, out: string, dot: Dot)
    ensures Act(env, e, rest, prefix + out, dot) == After(prefix, Act(env, e, rest, out, dot))
    decreases |rest|, 1
  {
    hide With, Value;
    if e == "end" {
      EvalPrefix(env, rest, prefix, out, "", NoDot);
    } else {
      match With(env, e)
      case Some(NoDot) =>
        if AfterEnd(rest).Some? {
          EvalPrefix(env, AfterEnd(rest).value, prefix, out, "", dot);
        }
      case Some(bound) => EvalPrefix(env, rest, prefix, out, "", bound);
      case None =>
        var v := Value(env, e, dot);
        if v.Some? {
          EvalPrefix(env, rest, prefix, out + v.value, "", dot);
          assert prefix + out + v.value == prefix + (out + v.value);
        }
    }
  }

  /** A template file starts with a visible character, so the newline in front of its rows can be dropped. */
  lemma DropFirstNewline(env: Env, text: string, result: string)
    requires text != "" && !IsSpace(text[0]) && text[0] != '{'
    requires Eval(env, "\n" + text, "", "", NoDot) == Some("\n" + result)
    ensures Render(env, text) == Some(result)
  {
    hide TrimSpace, FindClose;
    var s := "\n" + text;
    assert s[0] == '\n' && s[1..] == text && IsSpace('\n');
    assert Eval(env, s, "", "", NoDot) == Eval(env, text, "", "" + ['\n'], NoDot);
    assert "" + ("" + ['\n']) + [text[0]] == "\n" + [text[0]] && "" + "" + [text[0]] == [text[0]];
    EvalPrefix(env, text[1..], "\n", [text[0]], "", NoDot);
    assert After("\n", Render(env, text)) == Some("\n" + result);
    var r := Render(env, text).value;
    assert ("\n" + r)[1..] == r && ("\n" + result)[1..] == result;
  }

  ghost predicate StartsVisibly(rows: seq<Row>) {
    rows != [] && rows[0].indent == 0 && GoodRow(rows[0]) && rows[0].content[0] != '{'
  }

  lemma VisibleText(rows: seq<Row>)
    requires StartsVisibly(rows)
    ensures var text := Join(Texts(rows), "\n"); text != "" && !IsSpace(text[0]) && text[0] != '{'
  {
    hide IsSpace;
    assert Spaces(0) == "";
    assert Texts(rows)[0] == rows[0].content;
    assert Texts(rows)[0] <= Join(Texts(rows), "\n");
    assert Join(Texts(rows), "\n")[0] == rows[0].content[0];
  }

  /** Rendering the text of template rows gives the text of the rows they render to. */
  lemma RenderTextOf(env: Env, a: seq<Row>, b: seq<Row>)
    requires StartsVisibly(a) && b != [] && Renders(env, a, b)
    ensures Render(env, TextOf(Texts(a))) == Some(TextOf(Texts(b)))
  {
    hide Eval, Block, Texts, IsSpace, GoodRow, Render;
    assert RendersAt(env, a, b, "", "");
    assert Block(a) + "" == Block(a) && "" + Block(b) == Block(b);
    EvalNothing(env, Block(b));
    BlockIsText(a);
    BlockIsText(b);
    VisibleText(a);
    DropFirstNewline(env, TextOf(Texts(a)), TextOf(Texts(b)));
  }

  lemma EvalNothing(env: Env, out: string)
    ensures Eval(env, "", out, "", NoDot) == Some(out)
  {
    assert out + "" == out;
  }

  /** The first entry is kept, so the text of the filled-in tree starts with a key. */
  predicate KeepsFirst(e: Editors, entries: Entries) {
    entries.Entry? && (entries.value.Scalar? ==>
      var pieces := e(0).field(entries.key, entries.value.text);
      pieces != [] && pieces[0].Field?)
  }

  lemma FillStartsVisibly(e: Editors, block: BlockEditor, entries: Entries)
    requires EmitsGood(e(0)) && PrintableEntries(entries) && Plain(entries) && KeepsFirst(e, entries)
    ensures StartsVisibly(PrintEntries(Fill(e, block, entries, 0, false), 0))
  {
    hide Contains;
    var key, value := entries.key, entries.value;
    FilledRowsPrint(e, block, key, value, entries.rest, 0, false);
    EntryRowGood(key, key, 0);
    assert key[0] in key;
    if value.Scalar? {
      assert EmitsGoodAt(e(0), key, value.text);
      var p := e(0).field(key, value.text)[0];
      assert GoodPiece(p);
      EntryRowGood(p.key, p.text, 0);
      assert p.key[0] in p.key;
      assert (p.key + ": " + p.text)[0] == p.key[0];
    } else {
      assert (key + ":")[0] == key[0];
    }
  }

  /** The template a pipeline produces from a resource renders to the resource rewritten by the instance editor. */
  lemma {:induction false} RenderFilled(env: Env, t: Editors, i: Editors, bt: BlockEditor, bi: BlockEditor, entries: Entries)
    requires Matches(env, t, i, bt, bi) && EmitsGood(t(0))
    requires PrintableEntries(entries) && Plain(entries) && KeepsFirst(t, entries) && KeepsFirst(i, entries)
    ensures Render(env, TextOf(Texts(PrintEntries(Fill(t, bt, entries, 0, false), 0))))
            == Some(PrintText(Fill(i, bi, entries, 0, false)))
  {
    hide Matches, Renders, GoodKey, Contains, Render, TextOf, EmitsGood, StartsVisibly, Texts;
    var a, b := PrintEntries(Fill(t, bt, entries, 0, false), 0), PrintEntries(Fill(i, bi, entries, 0, false), 0);
    RenderFill(env, t, i, bt, bi, entries, 0, false);
    RestRenders(env, a, b);
    FillStartsVisibly(t, bt, entries);
    FillPrintsSomething(i, bi, entries);
    RenderTextOf(env, a, b);
    TextOfPrint(b);
  }

  lemma TextOfPrint(rows: seq<Row>)
    ensures TextOf(Texts(rows)) == Join(Texts(rows), "\n")
  {
  }

  lemma FillPrintsSomething(e: Editors, block: BlockEditor, entries: Entries)
    requires KeepsFirst(e, entries)
    ensures PrintEntries(Fill(e, block, entries, 0, false), 0) != []
  {
    FilledRowsPrint(e, block, entries.key, entries.value, entries.rest, 0, false);
  }
}
