/**
 Section passes on printed resources.  A resource's top level entries start at the margin,
 so a section opened by one of them reaches to the next: the pass rewrites the rows under
 one top level key and nothing else.
 */
module SectionTrees {
  import opened GoStrings
  import opened LinePasses
  import opened Yaml
  import opened TreeEdits
  import opened HelmTemplate
  import opened ChartRendering

  // ---------------------------------------------------------------- A section pass on rows

  /** A section opened by the header of `key`. */
  datatype RowSection = RowSection(key: string, closes: Row -> bool, rewrite: Row -> seq<Row>)

  predicate OpensAt(s: RowSection, row: Row) {
    row.content == s.key + ":"
  }

  predicate RowInside(s: RowSection, row: Row, inside: bool) {
    OpensAt(s, row) || (inside && !s.closes(row))
  }

  function RowPass(s: RowSection, rows: seq<Row>, inside: bool): seq<Row> {
    if rows == [] then []
    else
      var now := RowInside(s, rows[0], inside);
      (if now then s.rewrite(rows[0]) else [rows[0]]) + RowPass(s, rows[1..], now)
  }

  predicate RowInsideAfter(s: RowSection, rows: seq<Row>, inside: bool) {
    if rows == [] then inside else RowInsideAfter(s, rows[1..], RowInside(s, rows[0], inside))
  }

  /** A section on lines, seen on rows. */
  ghost predicate SectionOnRow(ls: Section, s: RowSection, row: Row) {
    GoodRow(row) ==>
      && ls.opens(RowText(row)) == OpensAt(s, row)
      && ls.closes(RowText(row)) == s.closes(row)
      && ls.rewrite(RowText(row)) == Texts(s.rewrite(row))
      && GoodRows(s.rewrite(row))
  }

  lemma {:induction false} SectionOnRows(ls: Section, s: RowSection, rows: seq<Row>, inside: bool)
    requires forall row :: SectionOnRow(ls, s, row)
    requires GoodRows(rows)
    ensures SectionPass(ls, Texts(rows), inside) == Texts(RowPass(s, rows, inside))
    ensures GoodRows(RowPass(s, rows, inside))
  {
    hide RowText, GoodRow, OpensAt;
    if rows != [] {
      var row := rows[0];
      assert row in rows;
      assert SectionOnRow(ls, s, row);
      var now := RowInside(s, row, inside);
      SectionOnRows(ls, s, rows[1..], now);
      assert Texts(rows)[0] == RowText(row) && Texts(rows)[1..] == Texts(rows[1..]);
      var out := if now then s.rewrite(row) else [row];
      TextsAppend(out, RowPass(s, rows[1..], now));
    }
  }

  lemma {:induction false} RowPassAppend(s: RowSection, a: seq<Row>, b: seq<Row>, inside: bool)
    ensures RowPass(s, a + b, inside) == RowPass(s, a, inside) + RowPass(s, b, RowInsideAfter(s, a, inside))
    ensures RowInsideAfter(s, a + b, inside) == RowInsideAfter(s, b, RowInsideAfter(s, a, inside))
  {
    hide RowInside;
    if a == [] {
      assert a + b == b;
    } else {
      assert (a + b)[1..] == a[1..] + b;
      RowPassAppend(s, a[1..], b, RowInside(s, a[0], inside));
    }
  }

  ghost predicate NoneOpens(s: RowSection, rows: seq<Row>) {
    forall row | row in rows :: !OpensAt(s, row)
  }

  ghost predicate NoneCloses(s: RowSection, rows: seq<Row>) {
    forall row | row in rows :: !s.closes(row)
  }

  lemma {:induction false} OutsideStays(s: RowSection, rows: seq<Row>)
    requires NoneOpens(s, rows)
    ensures RowPass(s, rows, false) == rows && !RowInsideAfter(s, rows, false)
  {
    if rows != [] {
      assert rows[0] in rows;
      OutsideStays(s, rows[1..]);
    }
  }

  lemma {:induction false} InsideRewrites(s: RowSection, rows: seq<Row>)
    requires NoneCloses(s, rows)
    ensures RowPass(s, rows, true) == EditRows(s.rewrite, rows) && RowInsideAfter(s, rows, true)
  {
    if rows != [] {
      assert rows[0] in rows;
      InsideRewrites(s, rows[1..]);
    }
  }

  // ---------------------------------------------------------------- Looking for rows in a tree

  /** What to look for: one-line entries, and headers of nested values. */
  datatype Probe = Probe(field: (string, string) -> bool, header: string -> bool)

  function HeaderProbe(h: string): Probe {
    Probe((key, text) => false, key => key == h)
  }

  /** Some entry with a row of its own, not behind a dash, is looked for. */
  predicate Hits(p: Probe, entries: Entries, dashed: bool)
    decreases entries
  {
    match entries
    case NoEntries => false
    case Splice(_, rest) => Hits(p, rest, false)
    case Entry(key, value, rest) => EntryHits(p, key, value, dashed) || Hits(p, rest, false)
  }

  predicate EntryHits(p: Probe, key: string, value: Node, dashed: bool)
    decreases value
  {
    match value
    case Scalar(text) => p.field(key, text) && !dashed
    case Mapping(inner) => (p.header(key) && !dashed) || Hits(p, inner, false)
    case Sequence(items) => (p.header(key) && !dashed) || ItemsHit(p, items)
  }

  predicate ItemsHit(p: Probe, items: Items)
    decreases items
  {
    match items
    case NoItems => false
    case Item(value, rest) => ItemHits(p, value) || ItemsHit(p, rest)
  }

  predicate ItemHits(p: Probe, value: Node)
    decreases value
  {
    match value
    case Scalar(_) => false
    case Mapping(entries) => Hits(p, entries, true)
    case Sequence(inner) => ItemsHit(p, inner)
  }

  /** How many entries with a row of their own, not behind a dash, are looked for. */
  function Count(p: Probe, entries: Entries, dashed: bool): nat
    decreases entries
  {
    match entries
    case NoEntries => 0
    case Splice(_, rest) => Count(p, rest, false)
    case Entry(key, value, rest) => CountEntry(p, key, value, dashed) + Count(p, rest, false)
  }

  function CountEntry(p: Probe, key: string, value: Node, dashed: bool): nat
    decreases value
  {
    match value
    case Scalar(text) => if p.field(key, text) && !dashed then 1 else 0
    case Mapping(inner) => (if p.header(key) && !dashed then 1 else 0) + Count(p, inner, false)
    case Sequence(items) => (if p.header(key) && !dashed then 1 else 0) + CountItems(p, items)
  }

  function CountItems(p: Probe, items: Items): nat
    decreases items
  {
    match items
    case NoItems => 0
    case Item(value, rest) => CountItem(p, value) + CountItems(p, rest)
  }

  function CountItem(p: Probe, value: Node): nat
    decreases value
  {
    match value
    case Scalar(_) => 0
    case Mapping(entries) => Count(p, entries, true)
    case Sequence(inner) => CountItems(p, inner)
  }

  lemma {:induction false} CountMeaning(p: Probe, entries: Entries, dashed: bool)
    ensures Count(p, entries, dashed) == 0 <==> !Hits(p, entries, dashed)
    decreases entries
  {
    match entries
    case NoEntries =>
    case Splice(_, rest) => CountMeaning(p, rest, false);
    case Entry(key, value, rest) =>
      CountEntryMeaning(p, key, value, dashed);
      CountMeaning(p, rest, false);
  }

  lemma {:induction false} CountEntryMeaning(p: Probe, key: string, value: Node, dashed: bool)
    ensures CountEntry(p, key, value, dashed) == 0 <==> !EntryHits(p, key, value, dashed)
    decreases value
  {
    match value
    case Scalar(_) =>
    case Mapping(inner) => CountMeaning(p, inner, false);
    case Sequence(items) => CountItemsMeaning(p, items);
  }

  lemma {:induction false} CountItemsMeaning(p: Probe, items: Items)
    ensures CountItems(p, items) == 0 <==> !ItemsHit(p, items)
    decreases items
  {
    match items
    case NoItems =>
    case Item(value, rest) =>
      CountItemsMeaning(p, rest);
      match value
      case Scalar(_) =>
      case Mapping(entries) => CountMeaning(p, entries, true);
      case Sequence(inner) => CountItemsMeaning(p, inner);
  }

  /** No row but perhaps a first one, which will carry a dash, satisfies `bad`. */
  ghost predicate NoRow(bad: string -> bool, rows: seq<Row>, dashed: bool) {
    forall i | (if dashed then 1 else 0) <= i < |rows| :: !bad(rows[i].content)
  }

  /** Every row that satisfies `bad` belongs to an entry the probe finds. */
  ghost predicate Detects(p: Probe, bad: string -> bool) {
    && (forall key, text :: DetectsField(p, bad, key, text))
    && (forall key :: DetectsHeader(p, bad, key))
    && (forall content :: DetectsDash(bad, content))
  }

  ghost predicate DetectsField(p: Probe, bad: string -> bool, key: string, text: string) {
    GoodKey(key) && bad(key + ": " + text) ==> p.field(key, text)
  }

  ghost predicate DetectsHeader(p: Probe, bad: string -> bool, key: string) {
    GoodKey(key) && bad(key + ":") ==> p.header(key)
  }

  ghost predicate DetectsDash(bad: string -> bool, content: string) {
    !bad("- " + content)
  }

  lemma {:induction false} NoHitNoRow(p: Probe, bad: string -> bool, entries: Entries, indent: nat, dashed: bool)
    requires Detects(p, bad) && PrintableEntries(entries) && !Hits(p, entries, dashed)
    ensures NoRow(bad, PrintEntries(entries, indent), dashed)
    decreases entries
  {
    hide Detects, GoodKey;
    match entries
    case NoEntries =>
    case Entry(key, value, rest) =>
      NoHitInEntry(p, bad, key, value, indent, dashed);
      NoHitNoRow(p, bad, rest, indent, false);
  }

  lemma {:induction false} NoHitInEntry(p: Probe, bad: string -> bool, key: string, value: Node, indent: nat, dashed: bool)
    requires Detects(p, bad) && GoodKey(key) && Printable(value) && !EntryHits(p, key, value, dashed)
    ensures NoRow(bad, PrintEntry(key, value, indent), dashed)
    decreases value
  {
    hide GoodKey;
    assert DetectsHeader(p, bad, key);
    match value
    case Scalar(text) => assert DetectsField(p, bad, key, text);
    case Mapping(inner) => NoHitNoRow(p, bad, inner, indent + 2, false);
    case Sequence(items) => NoHitInItems(p, bad, items, indent);
  }

  lemma {:induction false} NoHitInItem(p: Probe, bad: string -> bool, value: Node, indent: nat)
    requires Detects(p, bad) && Printable(value) && !ItemHits(p, value)
    ensures NoRow(bad, PrintItem(value, indent), true)
    decreases value
  {
    hide Detects;
    match value
    case Scalar(_) =>
    case Mapping(entries) => NoHitNoRow(p, bad, entries, indent, true);
    case Sequence(inner) => NoHitInItems(p, bad, inner, indent);
  }

  lemma {:induction false} NoHitInItems(p: Probe, bad: string -> bool, items: Items, indent: nat)
    requires Detects(p, bad) && PrintableItems(items) && !ItemsHit(p, items)
    ensures NoRow(bad, PrintItems(items, indent), false)
    decreases items
  {
    match items
    case NoItems =>
    case Item(value, rest) =>
      var body := PrintItem(value, indent + 2);
      NoHitInItem(p, bad, value, indent + 2);
      if body != [] {
        assert DetectsDash(bad, body[0].content);
      }
      assert NoRow(bad, Dash(indent, body), false);
      NoHitInItems(p, bad, rest, indent);
  }

  lemma HeaderText(key: string, h: string, text: string)
    requires ':' !in key && ':' !in h
    ensures key + ":" == h + ":" <==> key == h
    ensures key + ": " + text != h + ":"
  {
    if key + ":" == h + ":" {
      assert key == (key + ":")[..|key + ":"| - 1] == h;
    }
    var s := key + ": " + text;
    assert s[|key|] == ':' && |s| > |key| + 1;
    assert forall i | 0 <= i < |h| :: (h + ":")[i] == h[i] && h[i] in h;
  }

  function IsHeader(h: string): string -> bool {
    content => content == h + ":"
  }

  lemma HeadersDetected(h: string)
    requires ':' !in h && h != "" && h[0] != '-'
    ensures Detects(HeaderProbe(h), IsHeader(h))
  {
    var p, bad := HeaderProbe(h), IsHeader(h);
    forall key, text
      ensures DetectsField(p, bad, key, text)
    {
      if GoodKey(key) {
        HeaderText(key, h, text);
      }
    }
    forall key
      ensures DetectsHeader(p, bad, key)
    {
      if GoodKey(key) {
        HeaderText(key, h, "");
      }
    }
    forall content
      ensures DetectsDash(bad, content)
    {
      assert ("- " + content)[0] == '-' && (h + ":")[0] == h[0];
    }
  }

  // ---------------------------------------------------------------- Rewriting the top level

  /** Rewrites one level of a tree: `top` its one-line entries, `deep` the nested values. */
  function TopEdit(top: (string, string) -> seq<Piece>, deep: (string, Node) -> Node, entries: Entries): Entries {
    match entries
    case NoEntries => NoEntries
    case Splice(rows, rest) => Splice(rows, TopEdit(top, deep, rest))
    case Entry(key, value, rest) =>
      var rest' := TopEdit(top, deep, rest);
      match value
      case Scalar(text) => Prepend(top(key, text), rest')
      case _ => Entry(key, deep(key, value), rest')
  }

  function EditNode(e: Editor, value: Node): Node {
    match value
    case Scalar(_) => value
    case Mapping(entries) => Mapping(EditEntries(e, entries, false))
    case Sequence(items) => Sequence(EditItems(e, items))
  }

  function EditDeep(e: Editor): (string, Node) -> Node {
    (key, value) => EditNode(e, value)
  }

  lemma {:induction false} EditIsTopEdit(e: Editor, entries: Entries)
    ensures EditEntries(e, entries, false) == TopEdit(e.field, EditDeep(e), entries)
  {
    match entries
    case NoEntries =>
    case Splice(_, rest) => EditIsTopEdit(e, rest);
    case Entry(_, _, rest) => EditIsTopEdit(e, rest);
  }

  /** The rows of one entry of a level. */
  ghost function TopRows(top: (string, string) -> seq<Piece>, deep: (string, Node) -> Node, key: string, value: Node,
                         indent: nat): seq<Row> {
    match value
    case Scalar(text) => PieceRows(top(key, text), indent)
    case _ => PrintEntry(key, deep(key, value), indent)
  }

  lemma {:induction false} TopRowsPrint(top: (string, string) -> seq<Piece>, deep: (string, Node) -> Node, key: string, value: Node,
                     rest: Entries, indent: nat)
    ensures PrintEntries(TopEdit(top, deep, Entry(key, value, rest)), indent)
            == TopRows(top, deep, key, value, indent) + PrintEntries(TopEdit(top, deep, rest), indent)
  {
    if value.Scalar? {
      PrintPrepend(top(key, value.text), TopEdit(top, deep, rest), indent);
    }
  }

  /** Every entry of a level renders. */
  ghost predicate TopRenders(
      env: Env, top: (string, string) -> seq<Piece>, deep: (string, Node) -> Node,
      top': (string, string) -> seq<Piece>, deep': (string, Node) -> Node, entries: Entries, indent: nat)
  {
    match entries
    case NoEntries => true
    case Splice(_, _) => false
    case Entry(key, value, rest) =>
      && Renders(env, TopRows(top, deep, key, value, indent), TopRows(top', deep', key, value, indent))
      && TopRenders(env, top, deep, top', deep', rest, indent)
  }

  lemma {:induction false} RenderTop(
      env: Env, top: (string, string) -> seq<Piece>, deep: (string, Node) -> Node,
      top': (string, string) -> seq<Piece>, deep': (string, Node) -> Node, entries: Entries, indent: nat)
    requires TopRenders(env, top, deep, top', deep', entries, indent)
    ensures Renders(env, PrintEntries(TopEdit(top, deep, entries), indent), PrintEntries(TopEdit(top', deep', entries), indent))
  {
    hide Renders;
    match entries
    case NoEntries => RendersNothing(env);
    case Entry(key, value, rest) =>
      RenderTop(env, top, deep, top', deep', rest, indent);
      TopRowsPrint(top, deep, key, value, rest, indent);
      TopRowsPrint(top', deep', key, value, rest, indent);
      RendersBoth(env, TopRows(top, deep, key, value, indent), TopRows(top', deep', key, value, indent),
                  PrintEntries(TopEdit(top, deep, rest), indent), PrintEntries(TopEdit(top', deep', rest), indent));
  }

  lemma NoBlocks(env: Env)
    ensures forall indent :: BlockRenders(env, KeepBlocks(), KeepBlocks(), indent)
  {
    hide Renders;
  }

  ghost predicate FieldsRender(env: Env, t: Editor, i: Editor) {
    forall key, text, indent :: FieldRenders(env, Evenly(t), Evenly(i), key, text, indent)
  }

  /** A nested value renders as the editors match. */
  lemma {:induction false} RenderDeep(env: Env, t: Editor, i: Editor, key: string, value: Node, indent: nat)
    requires FieldsRender(env, t, i)
    requires GoodKey(key) && '{' !in key && Printable(value) && PlainNode(value) && !value.Scalar?
    ensures Renders(env, PrintEntry(key, EditNode(t, value), indent), PrintEntry(key, EditNode(i, value), indent))
  {
    hide Renders, GoodKey, FieldRenders, BlockRenders;
    NoBlocks(env);
    RenderFillEntry(env, Evenly(t), Evenly(i), KeepBlocks(), KeepBlocks(), key, value, indent, false);
    KeptRows(t, key, value, indent);
    KeptRows(i, key, value, indent);
    RestRenders(env, FilledRows(Evenly(t), KeepBlocks(), key, value, indent, false),
                     FilledRows(Evenly(i), KeepBlocks(), key, value, indent, false));
  }

  lemma KeptRows(e: Editor, key: string, value: Node, indent: nat)
    requires !value.Scalar?
    ensures FilledRows(Evenly(e), KeepBlocks(), key, value, indent, false) == PrintEntry(key, EditNode(e, value), indent)
  {
    match value
    case Mapping(inner) => FillWithoutBlocks(e, inner, indent + 2, false);
    case Sequence(items) => FillItemsWithoutBlocks(e, items, indent);
  }

  // ---------------------------------------------------------------- The rows under a top level key

  /** What the pass makes of the rows under its own key, and of all other top level rows. */
  ghost function RootRows(s: RowSection, entries: Entries): seq<Row> {
    match entries
    case NoEntries => []
    case Splice(_, rest) => RootRows(s, rest)
    case Entry(key, value, rest) =>
      var rows := PrintEntry(key, value, 0);
      (if key == s.key && !value.Scalar? then [rows[0]] + EditRows(s.rewrite, rows[1..]) else rows) + RootRows(s, rest)
  }

  /** The key's header is left alone, and only the margin closes the section. */
  ghost predicate RootSection(s: RowSection) {
    && ':' !in s.key && s.key != "" && s.key[0] != '-'
    && s.rewrite(Row(0, s.key + ":")) == [Row(0, s.key + ":")]
    && (forall row :: s.closes(row) ==> row.indent == 0)
    && (forall content :: ClosesAtRoot(s, content))
  }

  ghost predicate ClosesAtRoot(s: RowSection, content: string) {
    content != "" && content[0] != '-' ==> s.closes(Row(0, content))
  }

  /** Only one top level key opens the section, and nothing under that key closes it. */
  ghost predicate OpensOnlyAtRoot(s: RowSection, entries: Entries) {
    match entries
    case NoEntries => true
    case Splice(_, _) => false
    case Entry(key, value, rest) =>
      && (if key == s.key && !value.Scalar? then NoneCloses(s, PrintEntry(key, value, 0)[1..])
          else !EntryHits(HeaderProbe(s.key), key, value, false))
      && OpensOnlyAtRoot(s, rest)
  }

  lemma RootEntryRows(s: RowSection, key: string, value: Node, inside: bool)
    requires RootSection(s) && GoodKey(key) && Printable(value)
    requires if key == s.key && !value.Scalar? then NoneCloses(s, PrintEntry(key, value, 0)[1..])
             else !EntryHits(HeaderProbe(s.key), key, value, false)
    ensures var rows := PrintEntry(key, value, 0);
            RowPass(s, rows, inside)
            == if key == s.key && !value.Scalar? then [rows[0]] + EditRows(s.rewrite, rows[1..]) else rows
  {
    hide EntryHits, Printable;
    var rows := PrintEntry(key, value, 0);
    FirstRowOfEntry(key, value);
    var first := rows[0];
    assert rows == [first] + rows[1..];
    if key == s.key && !value.Scalar? {
      InsideRewrites(s, rows[1..]);
    } else {
      assert ClosesAtRoot(s, first.content);
      HeadersDetected(s.key);
      NoHitInEntry(HeaderProbe(s.key), IsHeader(s.key), key, value, 0, false);
      assert forall row | row in rows :: !OpensAt(s, row);
      OutsideStays(s, rows[1..]);
    }
  }

  lemma FirstRowOfEntry(key: string, value: Node)
    requires GoodKey(key)
    ensures var first := PrintEntry(key, value, 0)[0];
            && first.indent == 0 && first.content != "" && first.content[0] == key[0]
            && (!value.Scalar? ==> first == Row(0, key + ":"))
  {
    if value.Scalar? {
      assert (key + ": " + value.text)[0] == key[0];
    }
  }

  lemma {:induction false} PassOnRoot(s: RowSection, entries: Entries, inside: bool)
    requires RootSection(s) && PrintableEntries(entries) && OpensOnlyAtRoot(s, entries)
    ensures RowPass(s, PrintEntries(entries, 0), inside) == RootRows(s, entries)
  {
    hide RootSection, EntryHits, Printable, GoodKey;
    match entries
    case NoEntries =>
    case Entry(key, value, rest) =>
      var rows := PrintEntry(key, value, 0);
      RootEntryRows(s, key, value, inside);
      RowPassAppend(s, rows, PrintEntries(rest, 0), inside);
      PassOnRoot(s, rest, RowInsideAfter(s, rows, inside));
  }

  // ---------------------------------------------------------------- After another edit

  ghost predicate OnlyHeaders(p: Probe) {
    forall key, text :: !p.field(key, text)
  }

  lemma {:induction false} HitsPrepend(p: Probe, pieces: seq<Piece>, rest: Entries)
    requires OnlyHeaders(p)
    ensures Hits(p, Prepend(pieces, rest), false) == Hits(p, rest, false)
  {
    if pieces != [] {
      HitsPrepend(p, pieces[1..], rest);
    }
  }

  /** Editing scalars neither adds nor removes a header. */
  lemma {:induction false} HeadersAfterEdit(p: Probe, e: Editor, entries: Entries, dashed: bool)
    requires PrintableEntries(entries) && OnlyHeaders(p)
    ensures Hits(p, EditEntries(e, entries, dashed), dashed) == Hits(p, entries, dashed)
    decreases entries
  {
    hide Clean, GoodKey;
    match entries
    case NoEntries =>
    case Entry(key, value, rest) =>
      HeadersAfterEdit(p, e, rest, false);
      match value
      case Scalar(text) => HitsPrepend(p, e.field(key, text), EditEntries(e, rest, false));
      case Mapping(inner) => HeadersAfterEdit(p, e, inner, false);
      case Sequence(items) => HeadersInItemsAfterEdit(p, e, items);
  }

  lemma {:induction false} HeadersInItemsAfterEdit(p: Probe, e: Editor, items: Items)
    requires PrintableItems(items) && OnlyHeaders(p)
    ensures ItemsHit(p, EditItems(e, items)) == ItemsHit(p, items)
    decreases items
  {
    hide Clean, GoodKey;
    match items
    case NoItems =>
    case Item(value, rest) =>
      HeadersInItemsAfterEdit(p, e, rest);
      match value
      case Scalar(_) =>
      case Mapping(entries) => HeadersAfterEdit(p, e, entries, true);
      case Sequence(inner) => HeadersInItemsAfterEdit(p, e, inner);
  }

  /** The editor turns every field into one field of the same key. */
  ghost predicate SetsTexts(e: Editor) {
    forall key, text :: SetsText(e, key, text)
  }

  ghost predicate SetsText(e: Editor, key: string, text: string) {
    |e.field(key, text)| == 1 && e.field(key, text)[0].Field? && e.field(key, text)[0].key == key
  }

  /** An edit that sets texts leaves the shape another editor looks at. */
  lemma {:induction false} FitsAfterEdit(e: Editor, e': Editor, entries: Entries, dashed: bool)
    requires SetsTexts(e) && PrintableEntries(entries)
    ensures Fits(e', EditEntries(e, entries, dashed), dashed) == Fits(e', entries, dashed)
    decreases entries
  {
    hide Clean, GoodKey;
    match entries
    case NoEntries =>
    case Entry(key, value, rest) =>
      FitsAfterEdit(e, e', rest, false);
      match value
      case Scalar(text) =>
        assert SetsText(e, key, text);
        SetTextEntry(e, key, text, EditEntries(e, rest, false));
      case Mapping(inner) => FitsAfterEdit(e, e', inner, false);
      case Sequence(items) => FitItemsAfterEdit(e, e', items);
  }

  lemma {:induction false} FitItemsAfterEdit(e: Editor, e': Editor, items: Items)
    requires SetsTexts(e) && PrintableItems(items)
    ensures FitsItems(e', EditItems(e, items)) == FitsItems(e', items)
    decreases items
  {
    hide Clean, GoodKey;
    match items
    case NoItems =>
    case Item(value, rest) =>
      FitItemsAfterEdit(e, e', rest);
      match value
      case Scalar(_) =>
      case Mapping(entries) => FitsAfterEdit(e, e', entries, true);
      case Sequence(inner) => FitItemsAfterEdit(e, e', inner);
  }

  lemma SetTextEntry(e: Editor, key: string, text: string, rest: Entries)
    requires SetsText(e, key, text)
    ensures Prepend(e.field(key, text), rest) == Entry(key, Scalar(e.field(key, text)[0].text), rest)
  {
    assert e.field(key, text)[1..] == [];
  }

  lemma {:induction false} EditPrepend(e: Editor, pieces: seq<Piece>, rest: Entries)
    ensures EditEntries(e, Prepend(pieces, rest), false) == Prepend(EditPieces(e, pieces), EditEntries(e, rest, false))
  {
    if pieces != [] {
      EditPrepend(e, pieces[1..], rest);
      match pieces[0]
      case Field(key, text) =>
        PrependAppend(e.field(key, text), EditPieces(e, pieces[1..]), EditEntries(e, rest, false));
      case Rows(rows) =>
        PrependAppend([pieces[0]], EditPieces(e, pieces[1..]), EditEntries(e, rest, false));
        assert [pieces[0]][1..] == [];
    }
  }

  lemma {:induction false} PrependAppend(a: seq<Piece>, b: seq<Piece>, rest: Entries)
    ensures Prepend(a + b, rest) == Prepend(a, Prepend(b, rest))
  {
    if a == [] {
      assert a + b == b;
    } else {
      assert (a + b)[1..] == a[1..] + b;
      PrependAppend(a[1..], b, rest);
    }
  }

  /** One edit after another is the edit with both. */
  lemma {:induction false} EditThen(e: Editor, e': Editor, entries: Entries, dashed: bool)
    requires PrintableEntries(entries)
    ensures EditEntries(e', EditEntries(e, entries, dashed), dashed) == EditEntries(Then(e, e'), entries, dashed)
    decreases entries
  {
    hide Clean, GoodKey;
    match entries
    case NoEntries =>
    case Entry(key, value, rest) =>
      EditThen(e, e', rest, false);
      match value
      case Scalar(text) => EditPrepend(e', e.field(key, text), EditEntries(e, rest, false));
      case Mapping(inner) => EditThen(e, e', inner, false);
      case Sequence(items) => EditItemsThen(e, e', items);
  }

  lemma {:induction false} EditItemsThen(e: Editor, e': Editor, items: Items)
    requires PrintableItems(items)
    ensures EditItems(e', EditItems(e, items)) == EditItems(Then(e, e'), items)
    decreases items
  {
    hide Clean, GoodKey;
    match items
    case NoItems =>
    case Item(value, rest) =>
      EditItemsThen(e, e', rest);
      match value
      case Scalar(_) =>
      case Mapping(entries) => EditThen(e, e', entries, true);
      case Sequence(inner) => EditItemsThen(e, e', inner);
  }

  // ---------------------------------------------------------------- Rows a rewriting adds

  /** The rewriting puts four rows too many where the probe hits, and agrees with the editors elsewhere. */
  ghost predicate Grows(e: Editors, p: Probe, keeps: Editor, g: Row -> seq<Row>) {
    && (forall key, text, indent :: GrowsField(e, p, g, key, text, indent))
    && (forall key, indent :: GrowsHeader(p, keeps, g, key, indent))
    && (forall content, indent :: AgreesOnDash(g, content, indent))
  }

  ghost predicate GrowsField(e: Editors, p: Probe, g: Row -> seq<Row>, key: string, text: string, indent: nat) {
    GoodKey(key) && Clean(text) && !Contains(text, "{{") ==>
      var row, rows := Row(indent, key + ": " + text), PieceRows(e(indent).field(key, text), indent);
      GoodRows(rows) && if p.field(key, text) then |g(row)| == |rows| + 4 else g(row) == rows
  }

  ghost predicate GrowsHeader(p: Probe, keeps: Editor, g: Row -> seq<Row>, key: string, indent: nat) {
    GoodKey(key) && keeps.keepsHeader(key) ==>
      var header := Row(indent, key + ":");
      if p.header(key) then |g(header)| == 1 + 4 else g(header) == [header]
  }

  /** The first has `n` times four rows more than the good rows `b`, and without any the two are equal. */
  ghost predicate LongerBy(a: seq<Row>, b: seq<Row>, n: nat) {
    GoodRows(b) && |a| == |b| + 4 * n && (n == 0 ==> a == b)
  }

  lemma {:induction false} LongerBoth(a: seq<Row>, b: seq<Row>, n: nat, c: seq<Row>, d: seq<Row>, m: nat)
    requires LongerBy(a, b, n) && LongerBy(c, d, m)
    ensures LongerBy(a + c, b + d, n + m)
  {
  }

  lemma {:induction false} GrowsEntries(
      e: Editors, p: Probe, keeps: Editor, g: Row -> seq<Row>, entries: Entries, indent: nat, dashed: bool)
    requires Grows(e, p, keeps, g) && PrintableEntries(entries) && Plain(entries) && Fits(keeps, entries, dashed)
    ensures LongerBy(EditTail(g, PrintEntries(entries, indent), dashed),
                     PrintEntries(Fill(e, KeepBlocks(), entries, indent, dashed), indent), Count(p, entries, dashed))
    decreases entries
  {
    hide Grows, GoodKey, Clean, Contains, FilledRows, LongerBy;
    match entries
    case NoEntries => NothingLonger();
    case Entry(key, value, rest) =>
      GrowsEntry(e, p, keeps, g, key, value, indent, dashed);
      GrowsEntries(e, p, keeps, g, rest, indent, false);
      EditTailAppend(g, PrintEntry(key, value, indent), PrintEntries(rest, indent), dashed);
      FilledRowsPrint(e, KeepBlocks(), key, value, rest, indent, dashed);
      LongerBoth(EditTail(g, PrintEntry(key, value, indent), dashed), FilledRows(e, KeepBlocks(), key, value, indent, dashed),
                 CountEntry(p, key, value, dashed),
                 EditRows(g, PrintEntries(rest, indent)), PrintEntries(Fill(e, KeepBlocks(), rest, indent, false), indent),
                 Count(p, rest, false));
  }

  lemma NothingLonger()
    ensures LongerBy([], [], 0)
  {
  }

  lemma {:induction false} GrowsEntry(
      e: Editors, p: Probe, keeps: Editor, g: Row -> seq<Row>, key: string, value: Node, indent: nat, dashed: bool)
    requires Grows(e, p, keeps, g) && GoodKey(key) && Printable(value) && PlainNode(value)
    requires FitsEntry(keeps, key, value, dashed)
    ensures LongerBy(EditTail(g, PrintEntry(key, value, indent), dashed),
                     FilledRows(e, KeepBlocks(), key, value, indent, dashed), CountEntry(p, key, value, dashed))
    decreases value
  {
    hide GoodKey, Clean, Contains, Shift;
    match value
    case Scalar(text) =>
      var row := Row(indent, key + ": " + text);
      assert GrowsField(e, p, g, key, text, indent);
      EntryRowGood(key, text, indent);
      EditRow(g, row);
      assert [row][1..] == [];
    case Mapping(inner) =>
      GrowsEntries(e, p, keeps, g, inner, indent + 2, false);
      GrowsUnder(p, keeps, g, key, PrintEntries(inner, indent + 2),
                 PrintEntries(Fill(e, KeepBlocks(), inner, indent + 2, false), indent + 2), Count(p, inner, false), indent, dashed);
    case Sequence(items) =>
      GrowsItems(e, p, keeps, g, items, indent);
      GrowsUnder(p, keeps, g, key, PrintItems(items, indent),
                 PrintItems(FillItems(e, KeepBlocks(), items, indent), indent), CountItems(p, items), indent, dashed);
  }

  lemma {:induction false} GrowsUnder(
      p: Probe, keeps: Editor, g: Row -> seq<Row>, key: string, rows: seq<Row>, filled: seq<Row>, n: nat, indent: nat, dashed: bool)
    requires GoodKey(key) && (dashed || keeps.keepsHeader(key)) && GrowsHeader(p, keeps, g, key, indent)
    requires LongerBy(EditRows(g, rows), filled, n)
    ensures LongerBy(EditTail(g, [Row(indent, key + ":")] + rows, dashed), [Row(indent, key + ":")] + filled,
                     (if p.header(key) && !dashed then 1 else 0) + n)
  {
    hide Clean;
    var header := Row(indent, key + ":");
    assert ([header] + rows)[1..] == rows;
    EntryRowGood(key, key, indent);
    if dashed {
      LongerBoth([header], [header], 0, EditRows(g, rows), filled, n);
    } else {
      LongerBoth(g(header), [header], if p.header(key) then 1 else 0, EditRows(g, rows), filled, n);
    }
  }

  lemma {:induction false} GrowsItem(e: Editors, p: Probe, keeps: Editor, g: Row -> seq<Row>, value: Node, indent: nat)
    requires Grows(e, p, keeps, g) && Printable(value) && PlainNode(value) && FitsItem(keeps, value)
    ensures var a, b := EditTail(g, PrintItem(value, indent), true), PrintItem(FillItem(e, KeepBlocks(), value, indent), indent);
            && LongerBy(a, b, CountItem(p, value)) && PrintItem(value, indent) != []
            && a != [] && b != [] && a[0] == b[0] == PrintItem(value, indent)[0]
    decreases value
  {
    hide Grows, GoodKey, Clean, Contains;
    ItemGood(value, indent);
    match value
    case Scalar(text) =>
      assert PrintItem(value, indent)[1..] == [];
    case Mapping(entries) =>
      GrowsEntries(e, p, keeps, g, entries, indent, true);
      FirstStays(e, entries, indent);
    case Sequence(items) =>
      GrowsItems(e, p, keeps, g, items, indent);
      GrowsItem(e, p, keeps, g, items.value, indent + 2);
      FirstDashed(g, p, keeps, e, items, indent);
  }

  lemma FirstStays(e: Editors, entries: Entries, indent: nat)
    requires entries.Entry?
    ensures var a, b := PrintEntries(entries, indent), PrintEntries(Fill(e, KeepBlocks(), entries, indent, true), indent);
            a != [] && b != [] && a[0] == b[0]
  {
  }

  lemma {:induction false} FirstDashed(g: Row -> seq<Row>, p: Probe, keeps: Editor, e: Editors, items: Items, indent: nat)
    requires Grows(e, p, keeps, g) && items != NoItems && PrintableItems(items)
    ensures EditTail(g, PrintItems(items, indent), true) == EditRows(g, PrintItems(items, indent))
  {
    var body := PrintItem(items.value, indent + 2);
    ItemGood(items.value, indent + 2);
    assert AgreesOnDash(g, body[0].content, indent);
    assert PrintItems(items, indent)[0] == Row(indent, "- " + body[0].content);
  }

  lemma LongerDash(indent: nat, a: seq<Row>, b: seq<Row>, n: nat)
    requires LongerBy(a, b, n) && a != [] && b != [] && a[0] == b[0]
    ensures LongerBy(Dash(indent, a), Dash(indent, b), n)
  {
    DashGood(indent, b);
  }

  lemma {:induction false} GrowsItems(e: Editors, p: Probe, keeps: Editor, g: Row -> seq<Row>, items: Items, indent: nat)
    requires Grows(e, p, keeps, g) && PrintableItems(items) && PlainItems(items) && FitsItems(keeps, items)
    ensures LongerBy(EditRows(g, PrintItems(items, indent)), PrintItems(FillItems(e, KeepBlocks(), items, indent), indent),
                     CountItems(p, items))
    decreases items
  {
    hide LongerBy, GoodKey, Clean, Contains;
    match items
    case NoItems => NothingLonger();
    case Item(value, rest) =>
      var body, filled := PrintItem(value, indent + 2), PrintItem(FillItem(e, KeepBlocks(), value, indent + 2), indent + 2);
      GrowsItem(e, p, keeps, g, value, indent + 2);
      assert AgreesOnDash(g, body[0].content, indent);
      EditDash(g, body, indent);
      LongerDash(indent, EditTail(g, body, true), filled, CountItem(p, value));
      GrowsItems(e, p, keeps, g, rest, indent);
      EditRowsAppend(g, Dash(indent, body), PrintItems(rest, indent));
      LongerBoth(Dash(indent, EditTail(g, body, true)), Dash(indent, filled), CountItem(p, value),
                 EditRows(g, PrintItems(rest, indent)), PrintItems(FillItems(e, KeepBlocks(), rest, indent), indent),
                 CountItems(p, rest));
  }
}
