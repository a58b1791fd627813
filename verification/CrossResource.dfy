/**
 Agreement across resources.  Three separate pipelines write the name of the service account
 and the namespace; installed together they agree, whatever the values and the release.
 */
module CrossResource {
  import opened Wrappers
  import opened GoStrings
  import opened LinePasses
  import opened Yaml
  import opened TreeEdits
  import opened HelmTemplate
  import opened EmittedRendering
  import opened ChartRendering
  import opened DeploymentChart
  import opened DeploymentRoundTrip
  import opened SectionTrees
  import opened BindingChart
  import opened AccountChart
  import opened ChartFiles
  import opened ChartDocuments
  import opened ChartMeaning
  import opened Elision
  import ChartValues

  // ---------------------------------------------------------------- Reading a tree

  /**
   The values of the one-line entries `key` in print order, except those that share their
   row with a dash and those in a resources mapping.
   */
  function ValuesOf(key: string, entries: Entries, dashed: bool): seq<string>
    decreases entries
  {
    match entries
    case NoEntries => []
    case Splice(_, rest) => ValuesOf(key, rest, false)
    case Entry(k, value, rest) =>
      (match value
       case Scalar(text) => if k == key && !dashed then [text] else []
       case Mapping(inner) => if k == "resources" && !dashed then [] else ValuesOf(key, inner, false)
       case Sequence(items) => ValuesIn(key, items))
      + ValuesOf(key, rest, false)
  }

  function ValuesIn(key: string, items: Items): seq<string>
    decreases items
  {
    match items
    case NoItems => []
    case Item(value, rest) =>
      (match value
       case Scalar(_) => []
       case Mapping(entries) => ValuesOf(key, entries, true)
       case Sequence(inner) => ValuesIn(key, inner))
      + ValuesIn(key, rest)
  }

  function PieceValues(key: string, pieces: seq<Piece>): seq<string> {
    if pieces == [] then []
    else (if pieces[0].Field? && pieces[0].key == key then [pieces[0].text] else []) + PieceValues(key, pieces[1..])
  }

  function MapAll(g: string -> string, values: seq<string>): (r: seq<string>)
    ensures |r| == |values| && forall i | 0 <= i < |values| :: r[i] == g(values[i])
  {
    seq(|values|, i requires 0 <= i < |values| => g(values[i]))
  }

  function Constantly(v: string): string -> string {
    (text: string) => v
  }

  function Same(): string -> string {
    (text: string) => text
  }

  lemma {:induction false} ValuesPrepend(key: string, pieces: seq<Piece>, rest: Entries)
    ensures ValuesOf(key, Prepend(pieces, rest), false) == PieceValues(key, pieces) + ValuesOf(key, rest, false)
  {
    if pieces != [] {
      ValuesPrepend(key, pieces[1..], rest);
    }
  }

  /** The editor turns the value of every `key` by `g`, and writes `key` for nothing else. */
  ghost predicate Writes(e: Editor, key: string, g: string -> string) {
    forall k, text :: WritesAt(e, key, g, k, text)
  }

  ghost predicate WritesAt(e: Editor, key: string, g: string -> string, k: string, text: string) {
    PieceValues(key, e.field(k, text)) == if k == key then [g(text)] else []
  }

  lemma MapAppend(g: string -> string, a: seq<string>, b: seq<string>)
    ensures MapAll(g, a) + MapAll(g, b) == MapAll(g, a + b)
  {
  }

  ghost predicate WritesEvenly(e: Editors, key: string, g: string -> string) {
    forall indent: nat :: Writes(e(indent), key, g)
  }

  /** The values of one entry. */
  function EntryValues(key: string, k: string, value: Node, dashed: bool): seq<string> {
    match value
    case Scalar(text) => if k == key && !dashed then [text] else []
    case Mapping(inner) => if k == "resources" && !dashed then [] else ValuesOf(key, inner, false)
    case Sequence(items) => ValuesIn(key, items)
  }

  lemma {:induction false} FillWrites(
      e: Editors, block: BlockEditor, key: string, g: string -> string, entries: Entries, indent: nat, dashed: bool)
    requires WritesEvenly(e, key, g) && PrintableEntries(entries)
    ensures ValuesOf(key, Fill(e, block, entries, indent, dashed), dashed) == MapAll(g, ValuesOf(key, entries, dashed))
    decreases entries
  {
    hide Clean, GoodKey, MapAll;
    match entries
    case NoEntries => MapFew(g);
    case Entry(k, value, rest) =>
      var rest' := Fill(e, block, rest, indent, false);
      FillWrites(e, block, key, g, rest, indent, false);
      MapAppend(g, EntryValues(key, k, value, dashed), ValuesOf(key, rest, false));
      assert ValuesOf(key, entries, dashed) == EntryValues(key, k, value, dashed) + ValuesOf(key, rest, false);
      match value
      case Scalar(text) =>
        MapFew(g);
        if !dashed {
          assert Writes(e(indent), key, g);
          assert WritesAt(e(indent), key, g, k, text);
          ValuesPrepend(key, e(indent).field(k, text), rest');
        }
      case Mapping(inner) =>
        MapFew(g);
        FillWrites(e, block, key, g, inner, indent + 2, false);
      case Sequence(items) => FillItemsWrite(e, block, key, g, items, indent);
  }

  lemma MapFew(g: string -> string)
    ensures MapAll(g, []) == [] && forall text :: MapAll(g, [text]) == [g(text)]
  {
  }

  lemma {:induction false} FillItemsWrite(e: Editors, block: BlockEditor, key: string, g: string -> string, items: Items, indent: nat)
    requires WritesEvenly(e, key, g) && PrintableItems(items)
    ensures ValuesIn(key, FillItems(e, block, items, indent)) == MapAll(g, ValuesIn(key, items))
    decreases items
  {
    hide Clean, GoodKey, MapAll, WritesEvenly;
    MapFew(g);
    match items
    case NoItems =>
    case Item(value, rest) =>
      FillItemsWrite(e, block, key, g, rest, indent);
      match value
      case Scalar(_) =>
      case Mapping(entries) =>
        FillWrites(e, block, key, g, entries, indent + 2, true);
        MapAppend(g, ValuesOf(key, entries, true), ValuesIn(key, rest));
      case Sequence(inner) =>
        FillItemsWrite(e, block, key, g, inner, indent + 2);
        MapAppend(g, ValuesIn(key, inner), ValuesIn(key, rest));
  }

  // ---------------------------------------------------------------- The three resources

  lemma OnePieceValue(key: string, k: string, text: string, more: seq<Row>)
    ensures PieceValues(key, [Field(k, text)]) == if k == key then [text] else []
    ensures PieceValues(key, [Field(k, text), Rows(more)]) == if k == key then [text] else []
  {
    assert [Field(k, text)][1..] == [] && [Rows(more)][1..] == [];
    assert [Field(k, text), Rows(more)][1..] == [Rows(more)];
  }

  lemma InstanceWrites(env: Env)
    ensures Writes(InstanceEditor(env), "namespace", Constantly(env.release.namespace))
    ensures Writes(InstanceEditor(env), "serviceAccountName", Constantly(AccountName(env)))
  {
    hide AccountName, ImageRef, PullSecretRows, Quoted, MapAll;
    forall k, text
      ensures WritesAt(InstanceEditor(env), "namespace", Constantly(env.release.namespace), k, text)
      ensures WritesAt(InstanceEditor(env), "serviceAccountName", Constantly(AccountName(env)), k, text)
    {
      InstancePieceValues(env, "namespace", k, text);
      InstancePieceValues(env, "serviceAccountName", k, text);
    }
  }

  lemma NoPieceValue(key: string, image: string)
    requires key != "image" && key != "imagePullPolicy"
    ensures PieceValues(key, []) == []
    ensures PieceValues(key, [Field("image", image), Field("imagePullPolicy", "Always")]) == []
  {
    var policy := Field("imagePullPolicy", "Always");
    OnePieceValue(key, "imagePullPolicy", "Always", []);
    assert [Field("image", image), policy][1..] == [policy];
  }

  lemma InstancePieceValues(env: Env, key: string, k: string, text: string)
    requires key == "namespace" || key == "serviceAccountName"
    ensures PieceValues(key, InstanceField(env, k, text))
            == if k != key then [] else if k == "namespace" then [env.release.namespace] else [AccountName(env)]
  {
    hide AccountName, ImageRef, PullSecretRows, Quoted, PieceValues;
    var secret := PullSecretRows(env.values.imagePullSecret, 0);
    OnePieceValue(key, k, env.release.namespace, []);
    OnePieceValue(key, k, env.values.replicas, []);
    OnePieceValue(key, k, AccountName(env), secret);
    OnePieceValue(key, k, text, []);
    NoPieceValue(key, Quoted(ImageRef(env)));
    assert |key| != |"image"| && |key| != |"replicas"|;
  }

  lemma InstalledWrites(env: Env)
    ensures Writes(InstalledNamespace(env), "namespace", Constantly(env.release.namespace))
    ensures Writes(InstalledSubject(env), "namespace", Constantly(env.release.namespace))
    ensures Writes(InstalledSubject(env), "name", Constantly(AccountName(env)))
  {
    hide AccountName;
    forall k, text
      ensures WritesAt(InstalledNamespace(env), "namespace", Constantly(env.release.namespace), k, text)
      ensures WritesAt(InstalledSubject(env), "namespace", Constantly(env.release.namespace), k, text)
      ensures WritesAt(InstalledSubject(env), "name", Constantly(AccountName(env)), k, text)
    {
      OnePieceValue("namespace", k, env.release.namespace, []);
      OnePieceValue("namespace", k, text, []);
      OnePieceValue("namespace", k, AccountName(env), []);
      OnePieceValue("name", k, env.release.namespace, []);
      OnePieceValue("name", k, text, []);
      OnePieceValue("name", k, AccountName(env), []);
    }
  }

  /** An edited nested value. */
  lemma {:induction false} NodeWrites(e: Editor, key: string, g: string -> string, k: string, value: Node)
    requires Writes(e, key, g) && Printable(value)
    ensures !value.Scalar? ==>
              EntryValues(key, k, EditNode(e, value), false) == MapAll(g, EntryValues(key, k, value, false))
  {
    hide Writes, MapAll;
    MapFew(g);
    match value
    case Scalar(_) =>
    case Mapping(inner) =>
      FillWithoutBlocks(e, inner, 0, false);
      FillWrites(Evenly(e), KeepBlocks(), key, g, inner, 0, false);
    case Sequence(items) =>
      FillItemsWithoutBlocks(e, items, 0);
      FillItemsWrite(Evenly(e), KeepBlocks(), key, g, items, 0);
  }

  /** The values on and below one level, when both parts of the rewriting turn them by `g`. */
  ghost predicate TopWrites(
      top: (string, string) -> seq<Piece>, deep: (string, Node) -> Node, key: string, g: string -> string, entries: Entries)
  {
    match entries
    case NoEntries => true
    case Splice(_, _) => false
    case Entry(k, value, rest) =>
      && TopWrites(top, deep, key, g, rest)
      && match value
         case Scalar(text) => PieceValues(key, top(k, text)) == if k == key then [g(text)] else []
         case _ =>
           !deep(k, value).Scalar? &&
           EntryValues(key, k, deep(k, value), false) == MapAll(g, EntryValues(key, k, value, false))
  }

  lemma {:induction false} TopEditWrites(
      top: (string, string) -> seq<Piece>, deep: (string, Node) -> Node, key: string, g: string -> string, entries: Entries)
    requires TopWrites(top, deep, key, g, entries)
    ensures ValuesOf(key, TopEdit(top, deep, entries), false) == MapAll(g, ValuesOf(key, entries, false))
  {
    hide MapAll;
    MapFew(g);
    match entries
    case NoEntries =>
    case Entry(k, value, rest) =>
      TopEditWrites(top, deep, key, g, rest);
      MapAppend(g, EntryValues(key, k, value, false), ValuesOf(key, rest, false));
      assert ValuesOf(key, entries, false) == EntryValues(key, k, value, false) + ValuesOf(key, rest, false);
      if value.Scalar? {
        ValuesPrepend(key, top(k, value.text), TopEdit(top, deep, rest));
      } else {
        assert ValuesOf(key, TopEdit(top, deep, entries), false)
            == EntryValues(key, k, deep(k, value), false) + ValuesOf(key, TopEdit(top, deep, rest), false);
      }
  }

  lemma {:induction false} BindingNamespaces(env: Env, entries: Entries)
    requires PrintableEntries(entries)
    ensures TopWrites(InstalledNamespace(env).field, Under("subjects", InstalledSubject(env), InstalledNamespace(env)),
                      "namespace", Constantly(env.release.namespace), entries)
  {
    hide Writes, MapAll, GoodKey, Clean, AccountName, InstalledNamespace, InstalledSubject;
    match entries
    case NoEntries =>
    case Entry(k, value, rest) =>
      BindingNamespaces(env, rest);
      InstalledWrites(env);
      match value
      case Scalar(text) => WritesHere(InstalledNamespace(env), "namespace", Constantly(env.release.namespace), k, text);
      case _ =>
        NodeWrites(if k == "subjects" then InstalledSubject(env) else InstalledNamespace(env),
                   "namespace", Constantly(env.release.namespace), k, value);
  }

  lemma {:induction false} WritesHere(e: Editor, key: string, g: string -> string, k: string, text: string)
    requires Writes(e, key, g)
    ensures PieceValues(key, e.field(k, text)) == if k == key then [g(text)] else []
  {
    assert WritesAt(e, key, g, k, text);
  }

  lemma MetadataPieceValues(env: Env, originalName: string, k: string, text: string)
    ensures PieceValues("namespace", InstalledField(env, originalName, k, text))
            == if k == "namespace" then [env.release.namespace] else []
  {
    hide AccountName, AnnotationRows, Contains;
    OnePieceValue("namespace", k, env.release.namespace, []);
    OnePieceValue("namespace", k, AccountName(env), AnnotationRows(env.values.annotations, 0));
    OnePieceValue("namespace", k, text, []);
  }

  lemma MetadataWrites(env: Env, originalName: string)
    ensures WritesEvenly(InstalledEditors(env, originalName), "namespace", Constantly(env.release.namespace))
  {
    hide InstalledField, PieceValues;
    forall indent: nat
      ensures Writes(InstalledEditors(env, originalName)(indent), "namespace", Constantly(env.release.namespace))
    {
      forall k, text
        ensures WritesAt(InstalledEditors(env, originalName)(indent), "namespace", Constantly(env.release.namespace), k, text)
      {
        MetadataPieceValues(env, originalName, k, text);
      }
    }
  }

  lemma NestedNamespaces(env: Env, originalName: string, k: string, value: Node)
    requires Printable(value) && !value.Scalar?
    ensures var value' := AccountDeep(InstalledMetadata(env, originalName), InstalledNamespace(env))(k, value);
            && !value'.Scalar?
            && EntryValues("namespace", k, value', false)
               == MapAll(Constantly(env.release.namespace), EntryValues("namespace", k, value, false))
  {
    hide Writes, WritesEvenly, MapAll, AccountName, InstalledNamespace, InstalledEditors, ValuesOf;
    var g := Constantly(env.release.namespace);
    if IsMetadata(k, value) {
      MetadataWrites(env, originalName);
      FillWrites(InstalledEditors(env, originalName), KeepBlocks(), "namespace", g, value.entries, 2, false);
      assert "metadata"[0] != "resources"[0];
    } else {
      InstalledWrites(env);
      NodeWrites(InstalledNamespace(env), "namespace", g, k, value);
    }
  }

  lemma {:induction false} AccountNamespaces(env: Env, originalName: string, entries: Entries)
    requires PrintableEntries(entries)
    ensures TopWrites(InstalledNamespace(env).field,
                      AccountDeep(InstalledMetadata(env, originalName), InstalledNamespace(env)),
                      "namespace", Constantly(env.release.namespace), entries)
  {
    hide Writes, MapAll, GoodKey, Clean, AccountName, InstalledNamespace, AccountDeep, EntryValues;
    match entries
    case NoEntries =>
    case Entry(k, value, rest) =>
      AccountNamespaces(env, originalName, rest);
      if value.Scalar? {
        InstalledWrites(env);
        WritesHere(InstalledNamespace(env), "namespace", Constantly(env.release.namespace), k, value.text);
      } else {
        NestedNamespaces(env, originalName, k, value);
      }
  }

  // ---------------------------------------------------------------- Names

  /** The values of `key` under one top level key, or under all others. */
  function ValuesUnder(root: string, others: bool, key: string, entries: Entries): seq<string> {
    match entries
    case NoEntries => []
    case Splice(_, rest) => ValuesUnder(root, others, key, rest)
    case Entry(k, value, rest) =>
      (if !value.Scalar? && (k == root) != others then EntryValues(key, k, value, false) else [])
      + ValuesUnder(root, others, key, rest)
  }

  lemma NamespaceEditKeepsNames(env: Env)
    ensures Writes(InstalledNamespace(env), "name", Same())
  {
    forall k, text
      ensures WritesAt(InstalledNamespace(env), "name", Same(), k, text)
    {
      OnePieceValue("name", k, env.release.namespace, []);
      OnePieceValue("name", k, text, []);
    }
  }

  lemma SubjectFieldIsOne(env: Env, k: string, text: string, rest: Entries)
    ensures Prepend(InstalledNamespace(env).field(k, text), rest)
            == Entry(k, Scalar(if k == "namespace" then env.release.namespace else text), rest)
  {
    PrependOne(k, if k == "namespace" then env.release.namespace else text, rest);
  }

  lemma MapSame(values: seq<string>)
    ensures MapAll(Same(), values) == values
  {
  }

  /** The names of an installed binding: the subjects' are those of the account, all others stay. */
  lemma {:induction false} BindingNames(env: Env, entries: Entries)
    requires PrintableEntries(entries)
    ensures ValuesUnder("subjects", false, "name", BindingInstance(env, entries))
            == MapAll(Constantly(AccountName(env)), ValuesUnder("subjects", false, "name", entries))
    ensures ValuesUnder("subjects", true, "name", BindingInstance(env, entries))
            == ValuesUnder("subjects", true, "name", entries)
  {
    hide Writes, MapAll, GoodKey, Clean, AccountName, InstalledNamespace, InstalledSubject;
    MapFew(Constantly(AccountName(env)));
    match entries
    case NoEntries =>
    case Entry(k, value, rest) =>
      BindingNames(env, rest);
      InstalledWrites(env);
      NamespaceEditKeepsNames(env);
      match value
      case Scalar(text) => SubjectFieldIsOne(env, k, text, BindingInstance(env, rest));
      case _ =>
        MapSame(EntryValues("name", k, value, false));
        if k == "subjects" {
          NodeWrites(InstalledSubject(env), "name", Constantly(AccountName(env)), k, value);
          MapAppend(Constantly(AccountName(env)), EntryValues("name", k, value, false),
                    ValuesUnder("subjects", false, "name", rest));
        } else {
          NodeWrites(InstalledNamespace(env), "name", Same(), k, value);
        }
  }

  /** The name in the metadata, as it is printed. */
  function MetadataName(entries: Entries): Option<string> {
    match ChartValues.Lookup(entries, "metadata")
    case Some(Mapping(inner)) =>
      (match ChartValues.Lookup(inner, "name")
       case Some(Scalar(text)) => Some(text)
       case _ => None)
    case _ => None
  }

  lemma {:induction false} MetadataOfInstance(env: Env, originalName: string, entries: Entries)
    requires PrintableEntries(entries) && ChartValues.Lookup(entries, "metadata").Some?
    requires ChartValues.Lookup(entries, "metadata").value.Mapping?
    ensures ChartValues.Lookup(AccountInstance(env, originalName, entries), "metadata")
            == Some(Mapping(InstalledMetadata(env, originalName)(ChartValues.Lookup(entries, "metadata").value.entries)))
  {
    hide InstalledNamespace, InstalledMetadata, GoodKey, Clean;
    match entries
    case Entry(k, value, rest) =>
      if k != "metadata" {
        MetadataOfInstance(env, originalName, rest);
        if value.Scalar? {
          SubjectFieldIsOne(env, k, value.text, AccountInstance(env, originalName, rest));
        }
      }
  }

  lemma {:induction false} MetadataPieces(env: Env, originalName: string, k: string, text: string, rest: Entries)
    ensures var out := Prepend(InstalledField(env, originalName, k, text), rest);
            && out.Entry? && out.key == k
            && (IsName(originalName, k, text) ==> out.value == Scalar(AccountName(env)))
            && (k != "name" ==> ChartValues.Lookup(out, "name") == ChartValues.Lookup(rest, "name"))
  {
    hide AccountName, AnnotationRows, Contains;
    PrependOne(k, env.release.namespace, rest);
    PrependOne(k, text, rest);
    PrependTwo(k, AccountName(env), Rows(AnnotationRows(env.values.annotations, 0)), rest);
  }

  lemma {:induction false} NameOfInstance(env: Env, originalName: string, entries: Entries, text: string, indent: nat)
    requires PrintableEntries(entries) && ChartValues.Lookup(entries, "name") == Some(Scalar(text))
    requires IsName(originalName, "name", text)
    ensures ChartValues.Lookup(Fill(InstalledEditors(env, originalName), KeepBlocks(), entries, indent, false), "name")
            == Some(Scalar(AccountName(env)))
  {
    hide InstalledField, GoodKey, Clean, AccountName, IsName;
    match entries
    case Entry(k, value, rest) =>
      if value.Scalar? {
        MetadataPieces(env, originalName, k, value.text,
                       Fill(InstalledEditors(env, originalName), KeepBlocks(), rest, indent, false));
      }
      if k != "name" {
        NameOfInstance(env, originalName, rest, text, indent);
      }
  }

  /** A service account is installed under the account name. */
  lemma AccountNamed(env: Env, typing: ChartValues.Typing, entries: Entries, text: string)
    requires PrintableEntries(entries) && MetadataName(entries) == Some(text)
    ensures MetadataName(AccountInstance(env, MetadataString(typing, entries, "name"), entries)) == Some(AccountName(env))
  {
    hide ChartValues.Lookup, AccountInstance, Fill, IsName, AccountName, MetadataString;
    var inner := ChartValues.Lookup(entries, "metadata").value.entries;
    var o := MetadataString(typing, entries, "name");
    PassedName(typing, entries, text);
    MetadataOfInstance(env, o, entries);
    ChartValues.LookupPrintable(entries, "metadata");
    NameOfInstance(env, o, inner, text, 2);
  }

  /** The name the pass is given matches the name of the account, also where the library reads no string in it. */
  lemma PassedName(typing: ChartValues.Typing, entries: Entries, text: string)
    requires MetadataName(entries) == Some(text)
    ensures IsName(MetadataString(typing, entries, "name"), "name", text)
    ensures ChartValues.IsText(typing, text) ==> MetadataString(typing, entries, "name") == Unquote(text)
  {
    hide ChartValues.Lookup, Unquote, Contains;
    OwnNameIsReplaced(text);
    ContainsNothing("name" + ": " + text);
  }

  lemma ContainsNothing(s: string)
    ensures Contains(s, "")
  {
  }

  /** What becomes of the value of a `name` in the metadata. */
  function Renamed(env: Env, originalName: string): string -> string {
    (text: string) => if IsName(originalName, "name", text) then AccountName(env) else text
  }

  lemma {:induction false} NamePieceValues(env: Env, originalName: string, k: string, text: string)
    ensures PieceValues("name", InstalledField(env, originalName, k, text))
            == if k == "name" then [Renamed(env, originalName)(text)] else []
  {
    hide AccountName, AnnotationRows, Contains;
    OnePieceValue("name", k, env.release.namespace, []);
    OnePieceValue("name", k, AccountName(env), AnnotationRows(env.values.annotations, 0));
    OnePieceValue("name", k, text, []);
  }

  lemma MetadataRenames(env: Env, originalName: string)
    ensures WritesEvenly(InstalledEditors(env, originalName), "name", Renamed(env, originalName))
  {
    hide InstalledField, PieceValues, Renamed;
    forall indent: nat
      ensures Writes(InstalledEditors(env, originalName)(indent), "name", Renamed(env, originalName))
    {
      forall k, text
        ensures WritesAt(InstalledEditors(env, originalName)(indent), "name", Renamed(env, originalName), k, text)
      {
        NamePieceValues(env, originalName, k, text);
      }
    }
  }

  lemma NestedNames(env: Env, originalName: string, k: string, value: Node)
    requires Printable(value) && !value.Scalar? && (k == "metadata" ==> value.Mapping?)
    ensures var value' := AccountDeep(InstalledMetadata(env, originalName), InstalledNamespace(env))(k, value);
            && !value'.Scalar?
            && EntryValues("name", k, value', false)
               == MapAll(if k == "metadata" then Renamed(env, originalName) else Same(), EntryValues("name", k, value, false))
  {
    hide Writes, WritesEvenly, MapAll, AccountName, InstalledNamespace, InstalledEditors, ValuesOf, Renamed;
    assert IsMetadata(k, value) <==> k == "metadata";
    if IsMetadata(k, value) {
      MetadataRenames(env, originalName);
      FillWrites(InstalledEditors(env, originalName), KeepBlocks(), "name", Renamed(env, originalName), value.entries, 2, false);
      assert "metadata"[0] != "resources"[0];
    } else {
      NamespaceEditKeepsNames(env);
      NodeWrites(InstalledNamespace(env), "name", Same(), k, value);
    }
  }

  /** The names of an installed service account: those in the metadata that mention its own become the account's, all others stay. */
  lemma {:induction false} AccountNames(env: Env, originalName: string, entries: Entries)
    requires PrintableEntries(entries) && OneMetadata(entries)
    ensures ValuesUnder("metadata", false, "name", AccountInstance(env, originalName, entries))
            == MapAll(Renamed(env, originalName), ValuesUnder("metadata", false, "name", entries))
    ensures ValuesUnder("metadata", true, "name", AccountInstance(env, originalName, entries))
            == ValuesUnder("metadata", true, "name", entries)
  {
    hide MapAll, GoodKey, Clean, AccountName, InstalledNamespace, AccountDeep, EntryValues, Renamed, EntryHits;
    MapFew(Renamed(env, originalName));
    match entries
    case NoEntries =>
    case Entry(k, value, rest) =>
      AccountNames(env, originalName, rest);
      if value.Scalar? {
        SubjectFieldIsOne(env, k, value.text, AccountInstance(env, originalName, rest));
      } else {
        NestedNames(env, originalName, k, value);
        MapSame(EntryValues("name", k, value, false));
        MapAppend(Renamed(env, originalName), EntryValues("name", k, value, false), ValuesUnder("metadata", false, "name", rest));
      }
  }

  /** Where a label repeats the name of the account, the installed label is the name of the service account. */
  lemma LabelIsRenamed(env: Env)
    ensures ValuesUnder("metadata", false, "name", LabelledAccount()) == ["sa", "sa"]
    ensures ValuesUnder("metadata", false, "name", AccountInstance(env, "sa", LabelledAccount())) == [AccountName(env), AccountName(env)]
  {
    hide AccountName, Contains, AccountInstance;
    ExampleName();
    LabelledReadable();
    var name := Entry("name", Scalar("sa"), NoEntries);
    assert ValuesOf("name", name, false) == ["sa"];
    assert "labels"[0] != "resources"[0] && "metadata"[0] != "resources"[0];
    assert ValuesOf("name", LabelledMetadata(), false) == ["sa", "sa"];
    var root := Entry("metadata", Mapping(LabelledMetadata()), NoEntries);
    assert ValuesUnder("metadata", false, "name", root) == ["sa", "sa"];
    AccountNames(env, "sa", LabelledAccount());
  }

  // ---------------------------------------------------------------- Where the names stand

  /** The service account the pod template names. */
  function PodAccount(deployment: Entries): Option<string> {
    match ChartValues.LookupPath(deployment, ["spec", "template", "spec"])
    case None => None
    case Some(pod) =>
      match ChartValues.Lookup(pod, "serviceAccountName")
      case Some(Scalar(text)) => Some(text)
      case _ => None
  }

  predicate KeptKey(key: string) {
    key != "resources" && key != "imagePullPolicy"
  }

  lemma {:induction false} MappingOfInstance(env: Env, entries: Entries, key: string, inner: Entries, indent: nat)
    requires PrintableEntries(entries) && KeptKey(key)
    requires ChartValues.Lookup(entries, key) == Some(Mapping(inner))
    ensures ChartValues.Lookup(Instance(env, entries, indent, false), key) == Some(Mapping(Instance(env, inner, indent + 2, false)))
  {
    hide AccountName, ImageRef, PullSecretRows, Quoted, Clean, GoodKey, InstanceEditor;
    match entries
    case Entry(k, value, rest) =>
      if k != key {
        MappingOfInstance(env, rest, key, inner, indent);
      }
      if value.Scalar? {
        InstanceOfScalar(env, k, value.text, rest, indent);
      }
  }

  lemma {:induction false} PathOfInstance(env: Env, entries: Entries, path: seq<string>, pod: Entries, indent: nat)
    requires PrintableEntries(entries) && forall key | key in path :: KeptKey(key)
    requires ChartValues.LookupPath(entries, path) == Some(pod) && pod != NoEntries
    ensures PrintableEntries(pod)
    ensures ChartValues.LookupPath(Instance(env, entries, indent, false), path)
            == Some(Instance(env, pod, indent + 2 * |path|, false))
    decreases path
  {
    hide ChartValues.Lookup, Instance, KeptKey;
    if path != [] {
      var inner := ChartValues.LookupMap(entries, path[0]).value;
      assert path[0] in path;
      ChartValues.MapPrintable(entries, path[0]);
      if inner == NoEntries {
        NothingUnder(path[1..]);
      }
      MappingOfInstance(env, entries, path[0], inner, indent);
      PathOfInstance(env, inner, path[1..], pod, indent + 2);
    }
  }

  /** Following a path from nothing leads to nothing. */
  lemma NothingUnder(path: seq<string>)
    ensures ChartValues.LookupPath(NoEntries, path) == if path == [] then Some(NoEntries) else None
  {
  }

  lemma {:induction false} AccountOfInstance(env: Env, entries: Entries, text: string, indent: nat)
    requires PrintableEntries(entries) && ChartValues.Lookup(entries, "serviceAccountName") == Some(Scalar(text))
    ensures ChartValues.Lookup(Instance(env, entries, indent, false), "serviceAccountName") == Some(Scalar(AccountName(env)))
  {
    hide AccountName, ImageRef, PullSecretRows, Quoted, Clean, GoodKey, InstanceEditor;
    match entries
    case Entry(k, value, rest) =>
      if k != "serviceAccountName" {
        AccountOfInstance(env, rest, text, indent);
      }
      if value.Scalar? {
        InstanceOfScalar(env, k, value.text, rest, indent);
      }
  }

  /** An installed pod template names the account. */
  lemma PodNamed(env: Env, deployment: Entries)
    requires PrintableEntries(deployment) && PodAccount(deployment).Some?
    ensures PodAccount(DeploymentInstance(env, deployment)) == Some(AccountName(env))
  {
    hide ChartValues.Lookup, ChartValues.LookupPath, Instance, AccountName;
    var path := ["spec", "template", "spec"];
    var pod := ChartValues.LookupPath(deployment, path).value;
    NothingIn("serviceAccountName");
    PathKept();
    PathOfInstance(env, deployment, path, pod, 0);
    AccountOfInstance(env, pod, PodAccount(deployment).value, 6);
    InstanceIsInstalled(env, deployment);
  }

  lemma InstanceIsInstalled(env: Env, deployment: Entries)
    ensures DeploymentInstance(env, deployment) == Instance(env, deployment, 0, false)
  {
  }

  lemma NothingIn(key: string)
    ensures ChartValues.Lookup(NoEntries, key) == None
  {
  }

  lemma PathKept()
    ensures forall key | key in ["spec", "template", "spec"] :: KeptKey(key)
  {
    assert "spec"[0] == 's' && "template"[0] == 't' && "resources"[0] == 'r' && "imagePullPolicy"[0] == 'i';
  }

  /** The subjects of a binding. */
  function Subjects(binding: Entries): seq<Node> {
    match ChartValues.Lookup(binding, "subjects")
    case Some(Sequence(items)) => ItemList(items)
    case _ => []
  }

  function SubjectName(subject: Node): Option<string> {
    if !subject.Mapping? then None
    else
      match ChartValues.Lookup(subject.entries, "name")
      case Some(Scalar(text)) => Some(text)
      case _ => None
  }

  /** The subject starts with its name, which then shares its row with the dash. */
  predicate NameFirst(subject: Node) {
    subject.Mapping? && subject.entries.Entry? && subject.entries.key == "name"
  }

  lemma SubjectFieldOf(env: Env, k: string, text: string, rest: Entries)
    ensures Prepend(InstalledSubject(env).field(k, text), rest)
            == Entry(k, Scalar(if k == "namespace" then env.release.namespace else if k == "name" then AccountName(env) else text), rest)
  {
    hide AccountName;
    PrependOne(k, if k == "namespace" then env.release.namespace else if k == "name" then AccountName(env) else text, rest);
  }

  lemma {:induction false} NameOfEdited(env: Env, entries: Entries, text: string, dashed: bool)
    requires PrintableEntries(entries) && ChartValues.Lookup(entries, "name") == Some(Scalar(text))
    ensures ChartValues.Lookup(EditEntries(InstalledSubject(env), entries, dashed), "name")
            == Some(Scalar(if dashed && entries.key == "name" then text else AccountName(env)))
  {
    hide AccountName, InstalledSubject, Clean, GoodKey;
    match entries
    case Entry(k, value, rest) =>
      if value.Scalar? {
        SubjectFieldOf(env, k, value.text, EditEntries(InstalledSubject(env), rest, false));
      }
      if k != "name" {
        NameOfEdited(env, rest, text, false);
      }
  }

  /** An installed subject carries the account name, unless it starts with its name. */
  lemma SubjectNamed(env: Env, subject: Node)
    requires Printable(subject) && SubjectName(subject).Some?
    ensures SubjectName(EditItem(InstalledSubject(env), subject))
            == if NameFirst(subject) then SubjectName(subject) else Some(AccountName(env))
  {
    hide AccountName, InstalledSubject, Clean, GoodKey;
    NameOfEdited(env, subject.entries, SubjectName(subject).value, true);
  }

  /** A subject agrees with the account under all values and releases exactly when it does not start with its name. */
  lemma SubjectAgreesAlways(subject: Node)
    requires Printable(subject) && SubjectName(subject).Some?
    ensures !NameFirst(subject)
            <==> forall env: Env :: SubjectName(EditItem(InstalledSubject(env), subject)) == Some(AccountName(env))
  {
    hide AccountName, EditItem, SubjectName, NameFirst;
    forall env: Env
      ensures SubjectName(EditItem(InstalledSubject(env), subject))
              == if NameFirst(subject) then SubjectName(subject) else Some(AccountName(env))
    {
      SubjectNamed(env, subject);
    }
    var env := OtherAccount(SubjectName(subject).value);
    assert SubjectName(EditItem(InstalledSubject(env), subject)) == Some(AccountName(env)) ==> !NameFirst(subject);
  }

  /** An installation whose account is not called `text`. */
  lemma {:induction false} OtherAccount(text: string) returns (env: Env)
    ensures AccountName(env) != text
  {
    env := Env(Release("r", "n"), Values("", "", "", "", NoEntries, text + "x", NoEntries, "", ""));
    assert |AccountName(env)| == |text| + 1;
  }

  lemma {:induction false} ItemsEdited(e: Editor, items: Items)
    ensures |ItemList(EditItems(e, items))| == |ItemList(items)|
    ensures forall k | 0 <= k < |ItemList(items)| :: ItemList(EditItems(e, items))[k] == EditItem(e, ItemList(items)[k])
  {
    match items
    case NoItems =>
    case Item(_, rest) => ItemsEdited(e, rest);
  }

  lemma {:induction false} SubjectsOfInstance(env: Env, binding: Entries, items: Items)
    requires PrintableEntries(binding) && ChartValues.Lookup(binding, "subjects") == Some(Sequence(items))
    ensures ChartValues.Lookup(BindingInstance(env, binding), "subjects") == Some(Sequence(EditItems(InstalledSubject(env), items)))
  {
    hide AccountName, InstalledSubject, InstalledNamespace, Clean, GoodKey;
    match binding
    case Entry(k, value, rest) =>
      if value.Scalar? {
        SubjectFieldIsOne(env, k, value.text, BindingInstance(env, rest));
      }
      if k != "subjects" {
        SubjectsOfInstance(env, rest, items);
      }
  }

  lemma {:induction false} ListedPrintable(items: Items, k: nat)
    requires PrintableItems(items) && k < |ItemList(items)|
    ensures Printable(ItemList(items)[k])
  {
    if k > 0 {
      ListedPrintable(items.rest, k - 1);
    }
  }

  /** Every subject carries `v`, except those that start with their name and keep it. */
  ghost predicate SubjectsAgree(v: string, before: Entries, after: Entries) {
    && |Subjects(after)| == |Subjects(before)|
    && forall k | 0 <= k < |Subjects(before)| && SubjectName(Subjects(before)[k]).Some? ::
         SubjectName(Subjects(after)[k]) == if NameFirst(Subjects(before)[k]) then SubjectName(Subjects(before)[k]) else Some(v)
  }

  lemma SubjectsNamed(env: Env, binding: Entries)
    requires PrintableEntries(binding) && Subjects(binding) != []
    ensures SubjectsAgree(AccountName(env), binding, BindingInstance(env, binding))
  {
    hide AccountName, InstalledSubject, BindingInstance, ChartValues.Lookup, EditItem, SubjectName, NameFirst, ItemList;
    var items := ChartValues.Lookup(binding, "subjects").value.items;
    SubjectsOfInstance(env, binding, items);
    ItemsEdited(InstalledSubject(env), items);
    ChartValues.LookupPrintable(binding, "subjects");
    forall k | 0 <= k < |ItemList(items)| && SubjectName(ItemList(items)[k]).Some?
      ensures SubjectName(EditItem(InstalledSubject(env), ItemList(items)[k]))
              == if NameFirst(ItemList(items)[k]) then SubjectName(ItemList(items)[k]) else Some(AccountName(env))
    {
      ListedPrintable(items, k);
      SubjectNamed(env, ItemList(items)[k]);
    }
  }

  /** A binding whose subject starts with its name. */
  function NameFirstBinding(): Entries {
    var subject := Entry("name", Scalar("x"), Entry("namespace", Scalar("y"), NoEntries));
    Entry("kind", Scalar("RoleBinding"), Entry("subjects", Sequence(Item(Mapping(subject), NoItems)), NoEntries))
  }

  /** An entry with a plain value and a plain rest. */
  lemma PlainEntry(key: string, text: string, rest: Entries)
    requires GoodKey(key) && '{' !in key && Clean(text) && '{' !in text && PrintableEntries(rest) && Plain(rest)
    ensures PrintableEntries(Entry(key, Scalar(text), rest)) && Plain(Entry(key, Scalar(text), rest))
  {
    hide Contains, GoodKey, Clean;
    NoBraceNoAction(text);
  }

  lemma PlainTexts()
    ensures GoodKey("namespace") && GoodKey("name") && GoodKey("kind") && GoodKey("subjects")
    ensures '{' !in "namespace" && '{' !in "name" && '{' !in "kind" && '{' !in "subjects"
    ensures Clean("x") && Clean("y") && Clean("RoleBinding") && '{' !in "x" && '{' !in "y" && '{' !in "RoleBinding"
  {
  }

  lemma NameFirstCompiles()
    ensures BindingCompilable(NameFirstBinding())
  {
    hide GoodKey, Clean, Contains, Action;
    var fields := Entry("namespace", Scalar("y"), NoEntries);
    var subject := Entry("name", Scalar("x"), fields);
    var items := Item(Mapping(subject), NoItems);
    var subjects := Entry("subjects", Sequence(items), NoEntries);
    PlainTexts();
    PlainEntry("namespace", "y", NoEntries);
    PlainEntry("name", "x", fields);
    assert PrintableItems(items) && PlainItems(items);
    PlainEntry("kind", "RoleBinding", subjects);
    NameFirstFits(NamespaceEditor(), fields);
    NameFirstFits(NameEditor(), fields);
    assert FitsNode(NameEditor(), Sequence(items));
    assert Fits(NamespaceEditor(), subjects, false) by { assert "subjects"[0] != "namespace"[0]; }
    assert BindingShape(subjects);
  }

  lemma NameFirstFits(e: Editor, fields: Entries)
    requires fields == Entry("namespace", Scalar("y"), NoEntries)
    ensures FitsItems(e, Item(Mapping(Entry("name", Scalar("x"), fields)), NoItems))
  {
    assert Fits(e, fields, false) && Fits(e, Entry("name", Scalar("x"), fields), true);
    assert FitsItem(e, Mapping(Entry("name", Scalar("x"), fields)));
  }

  /** Its rendered name stays what it was, so it misses every account of another name. */
  lemma NameFirstStays(env: Env)
    requires AccountName(env) != "x"
    ensures BindingCompilable(NameFirstBinding())
    ensures var installed := BindingInstance(env, NameFirstBinding());
            && Render(env, BindingText(Marshal(NameFirstBinding()))) == Some(PrintText(installed))
            && |Subjects(installed)| == 1 && SubjectName(Subjects(installed)[0]) == Some("x") != Some(AccountName(env))
  {
    hide AccountName, BindingInstance, Render, BindingText, Marshal, PrintText, BindingCompilable;
    NameFirstCompiles();
    BindingMeaning(env, NameFirstBinding());
    var subject := Entry("name", Scalar("x"), Entry("namespace", Scalar("y"), NoEntries));
    var items := Item(Mapping(subject), NoItems);
    assert ChartValues.Lookup(Entry("subjects", Sequence(items), NoEntries), "subjects") == Some(Sequence(items));
    assert ChartValues.Lookup(NameFirstBinding(), "subjects") == Some(Sequence(items));
    assert ItemList(items) == [Mapping(subject)] + ItemList(NoItems);
    BindingPrintable(NameFirstBinding());
    SubjectsNamed(env, NameFirstBinding());
  }

  lemma BindingPrintable(binding: Entries)
    requires BindingCompilable(binding)
    ensures PrintableEntries(binding)
  {
  }

  /** Every value of `key` is replaced by `v`. */
  ghost predicate AllBecome(key: string, v: string, before: Entries, after: Entries) {
    ValuesOf(key, after, false) == MapAll(Constantly(v), ValuesOf(key, before, false))
  }

  /** The names in the metadata that mention the original name are replaced, and no others. */
  ghost predicate AccountRenamed(env: Env, originalName: string, before: Entries, after: Entries) {
    && ValuesUnder("metadata", false, "name", after) == MapAll(Renamed(env, originalName), ValuesUnder("metadata", false, "name", before))
    && ValuesUnder("metadata", true, "name", after) == ValuesUnder("metadata", true, "name", before)
  }

  /** The name of every subject is replaced by `v`. */
  ghost predicate SubjectsBecome(v: string, before: Entries, after: Entries) {
    ValuesUnder("subjects", false, "name", after) == MapAll(Constantly(v), ValuesUnder("subjects", false, "name", before))
  }

  /**
   Installed from one chart, the Deployment, the service account and a binding of either kind
   name the same account and stand in the same namespace, whatever the values and the
   release: the pod template and every other service account name of the Deployment, the name
   of the service account, and the name of every subject that does not start with it are one
   and the same, and every namespace the passes look at is that of the release.
   */
  lemma {:induction false} InstalledResourcesAgree(
      env: Env, typing: ChartValues.Typing, deployment: Entries, account: Entries, text: string, binding: Entries, kind: string)
      returns (d: Entries, a: Entries, b: Entries)
    requires Compilable(deployment) && BindingCompilable(binding) && (kind == "RoleBinding" || kind == "ClusterRoleBinding")
    requires MetadataName(account) == Some(text) && AccountCompilable(MetadataString(typing, account, "name"), account)
    requires PrintableEntries(env.values.resources) && env.values.resources != NoEntries
    requires PrintableEntries(env.values.annotations)
    ensures Render(env, TemplateText(typing, GVK("apps", "v1", "Deployment"), deployment)) == Some(PrintText(d))
    ensures Render(env, TemplateText(typing, GVK("", "v1", "ServiceAccount"), account)) == Some(PrintText(a))
    ensures Render(env, TemplateText(typing, GVK("rbac.authorization.k8s.io", "v1", kind), binding)) == Some(PrintText(b))
    ensures PodAccount(deployment).Some? ==> PodAccount(d) == Some(AccountName(env))
    ensures AllBecome("serviceAccountName", AccountName(env), deployment, d)
    ensures MetadataName(a) == Some(AccountName(env))
    ensures AccountRenamed(env, MetadataString(typing, account, "name"), account, a)
    ensures Subjects(binding) != [] ==> SubjectsAgree(AccountName(env), binding, b)
    ensures SubjectsBecome(AccountName(env), binding, b)
    ensures AllBecome("namespace", env.release.namespace, deployment, d)
    ensures AllBecome("namespace", env.release.namespace, account, a)
    ensures AllBecome("namespace", env.release.namespace, binding, b)
  {
    hide Render, TemplateText, PrintText, MapAll, AccountName, MetadataName, MetadataString;
    hide ValuesOf, ValuesUnder, Plain, Fits, BindingShape, OneMetadata, NoNameHeaders, PrintableEntries, Lists, Constantly;
    hide DeploymentInstance, AccountInstance, BindingInstance, AllBecome, SubjectsBecome, SubjectsAgree, PodAccount, Renamed;
    var o := MetadataString(typing, account, "name");
    d, a, b := DeploymentInstance(env, deployment), AccountInstance(env, o, account), BindingInstance(env, binding);
    DeploymentInstalls(env, typing, deployment);
    AccountInstalls(env, typing, account);
    BindingInstalls(env, typing, kind, binding);
    if PodAccount(deployment).Some? {
      PodNamed(env, deployment);
    }
    if Subjects(binding) != [] {
      SubjectsNamed(env, binding);
    }
    DeploymentAgrees(env, deployment);
    AccountNamed(env, typing, account, text);
    AccountNames(env, o, account);
    AccountAgrees(env, o, account);
    BindingAgrees(env, binding);
  }

  lemma DeploymentAgrees(env: Env, deployment: Entries)
    requires PrintableEntries(deployment)
    ensures AllBecome("serviceAccountName", AccountName(env), deployment, DeploymentInstance(env, deployment))
    ensures AllBecome("namespace", env.release.namespace, deployment, DeploymentInstance(env, deployment))
  {
    hide Fill, Writes, MapAll, InstanceEditor, ValuesOf, AccountName, Constantly;
    var e, block := Evenly(InstanceEditor(env)), SetBlocks(env.values.resources);
    InstanceWrites(env);
    FillWrites(e, block, "namespace", Constantly(env.release.namespace), deployment, 0, false);
    FillWrites(e, block, "serviceAccountName", Constantly(AccountName(env)), deployment, 0, false);
  }

  lemma AccountAgrees(env: Env, originalName: string, account: Entries)
    requires PrintableEntries(account)
    ensures AllBecome("namespace", env.release.namespace, account, AccountInstance(env, originalName, account))
  {
    hide TopEdit, TopWrites, MapAll, InstalledNamespace, InstalledMetadata, ValuesOf, Constantly;
    AccountNamespaces(env, originalName, account);
    TopEditWrites(InstalledNamespace(env).field, AccountDeep(InstalledMetadata(env, originalName), InstalledNamespace(env)),
                  "namespace", Constantly(env.release.namespace), account);
  }

  lemma BindingAgrees(env: Env, binding: Entries)
    requires PrintableEntries(binding)
    ensures AllBecome("namespace", env.release.namespace, binding, BindingInstance(env, binding))
    ensures SubjectsBecome(AccountName(env), binding, BindingInstance(env, binding))
  {
    hide TopEdit, TopWrites, MapAll, InstalledNamespace, InstalledSubject, ValuesOf, ValuesUnder, Constantly, AccountName;
    BindingNamespaces(env, binding);
    TopEditWrites(InstalledNamespace(env).field, Under("subjects", InstalledSubject(env), InstalledNamespace(env)),
                  "namespace", Constantly(env.release.namespace), binding);
    BindingNames(env, binding);
  }
}
