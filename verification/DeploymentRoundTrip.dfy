/**
 The Deployment round trip: exactly when installing the chart gives the original Deployment
 back, a quoted scalar counting as equal to a plain one.
 */
module DeploymentRoundTrip {
  import opened Wrappers
  import opened GoStrings
  import opened PassLaws
  import opened Yaml
  import opened TreeEdits
  import opened HelmTemplate
  import opened EmittedRendering
  import opened ChartRendering
  import opened DeploymentChart

  // ---------------------------------------------------------------- Quoting

  predicate IsQuoted(text: string) {
    |text| >= 2 && text[0] == text[|text| - 1] && (text[0] == '\"' || text[0] == '\'')
  }

  /** The value of a printed scalar, without its quotes. */
  function Unquote(text: string): string {
    if IsQuoted(text) then text[1..|text| - 1] else text
  }

  /** A tree with every scalar unquoted; two trees with the same normal form are the same resource. */
  function Normal(entries: Entries): Entries {
    match entries
    case NoEntries => NoEntries
    case Splice(rows, rest) => Splice(rows, Normal(rest))
    case Entry(key, value, rest) => Entry(key, NormalNode(value), Normal(rest))
  }

  function NormalNode(node: Node): Node {
    match node
    case Scalar(text) => Scalar(Unquote(text))
    case Mapping(entries) => Mapping(Normal(entries))
    case Sequence(items) => Sequence(NormalItems(items))
  }

  function NormalItems(items: Items): Items {
    match items
    case NoItems => NoItems
    case Item(value, rest) => Item(NormalNode(value), NormalItems(rest))
  }

  lemma UnquoteQuoted(s: string)
    ensures Unquote(Quoted(s)) == s
  {
  }

  // ---------------------------------------------------------------- What a Deployment must carry

  /** The values an installation puts into a Deployment; the resources are given unquoted. */
  datatype Expected = Expected(namespace: string, image: string, replicas: string, account: string, resources: Entries)

  function ExpectedOf(env: Env): Expected {
    Expected(env.release.namespace, ImageRef(env), env.values.replicas, AccountName(env), Normal(env.values.resources))
  }

  predicate IsPolicy(entries: Entries) {
    entries.Entry? && entries.key == "imagePullPolicy" && entries.value.Scalar?
  }

  /**
   The Deployment carries the expected values in every place the passes rewrite: an image is
   followed by the pull policy `Always`, no other pull policy stands outside the first row of
   a list item, and every resources mapping is the expected one.
   */
  predicate Conforms(x: Expected, entries: Entries, dashed: bool) {
    match entries
    case NoEntries => true
    case Splice(_, rest) => false
    case Entry(key, value, rest) =>
      match value
      case Mapping(inner) =>
        && (if key == "resources" && !dashed then Normal(inner) == x.resources else Conforms(x, inner, false))
        && Conforms(x, rest, false)
      case Sequence(items) => ConformItems(x, items) && Conforms(x, rest, false)
      case Scalar(text) =>
        if dashed then Conforms(x, rest, false)
        else if key == "image" then
          && Unquote(text) == x.image
          && IsPolicy(rest) && Unquote(rest.value.text) == "Always"
          && Conforms(x, rest.rest, false)
        else if key == "imagePullPolicy" then false
        else
          && (key == "namespace" ==> Unquote(text) == Unquote(x.namespace))
          && (key == "replicas" ==> Unquote(text) == Unquote(x.replicas))
          && (key == "serviceAccountName" ==> Unquote(text) == Unquote(x.account))
          && Conforms(x, rest, false)
  }

  predicate ConformItems(x: Expected, items: Items) {
    match items
    case NoItems => true
    case Item(value, rest) => ConformsItem(x, value) && ConformItems(x, rest)
  }

  predicate ConformsItem(x: Expected, value: Node) {
    match value
    case Scalar(_) => true
    case Mapping(entries) => Conforms(x, entries, true)
    case Sequence(items) => ConformItems(x, items)
  }

  /** Whether a service account is named outside the first row of a list item. */
  predicate NamesAccount(entries: Entries, dashed: bool) {
    match entries
    case NoEntries => false
    case Splice(_, rest) => NamesAccount(rest, false)
    case Entry(key, value, rest) =>
      || NamesAccount(rest, false)
      || match value
         case Scalar(_) => key == "serviceAccountName" && !dashed
         case Mapping(inner) => !(key == "resources" && !dashed) && NamesAccount(inner, false)
         case Sequence(items) => ItemsNameAccount(items)
  }

  predicate ItemsNameAccount(items: Items) {
    match items
    case NoItems => false
    case Item(value, rest) =>
      || ItemsNameAccount(rest)
      || match value
         case Scalar(_) => false
         case Mapping(entries) => NamesAccount(entries, true)
         case Sequence(inner) => ItemsNameAccount(inner)
  }

  // ---------------------------------------------------------------- Exactly then it comes back

  function Instance(env: Env, entries: Entries, indent: nat, dashed: bool): Entries {
    Fill(Evenly(InstanceEditor(env)), SetBlocks(env.values.resources), entries, indent, dashed)
  }

  lemma PrependOne(key: string, text: string, rest: Entries)
    ensures Prepend([Field(key, text)], rest) == Entry(key, Scalar(text), rest)
  {
    assert [Field(key, text)][1..] == [];
  }

  lemma PrependTwo(key: string, text: string, piece: Piece, rest: Entries)
    ensures Prepend([Field(key, text), piece], rest) == Entry(key, Scalar(text), Prepend([piece], rest))
  {
    assert [Field(key, text), piece][1..] == [piece];
  }

  lemma PrependRows(rows: seq<Row>, rest: Entries)
    ensures Prepend([Rows(rows)], rest) == Splice(rows, rest)
  {
    assert [Rows(rows)][1..] == [];
  }

  /** What an installation makes of a one-line entry and what follows it. */
  lemma {:induction false} InstanceOfScalar(env: Env, key: string, text: string, rest: Entries, indent: nat)
    ensures var rest' := Instance(env, rest, indent, false);
            Instance(env, Entry(key, Scalar(text), rest), indent, false) ==
              if key == "namespace" then Entry(key, Scalar(env.release.namespace), rest')
              else if key == "image" then
                Entry(key, Scalar(Quoted(ImageRef(env))), Entry("imagePullPolicy", Scalar("Always"), rest'))
              else if key == "imagePullPolicy" then rest'
              else if key == "replicas" then Entry(key, Scalar(env.values.replicas), rest')
              else if key == "serviceAccountName" then
                Entry(key, Scalar(AccountName(env)),
                      if env.values.imagePullSecret == "" then rest'
                      else Splice(PullSecretRows(env.values.imagePullSecret, 0), rest'))
              else Entry(key, Scalar(text), rest')
  {
    hide ImageRef, AccountName, PullSecretRows, Quoted;
    var rest' := Instance(env, rest, indent, false);
    PrependOne(key, env.release.namespace, rest');
    PrependOne(key, env.values.replicas, rest');
    PrependOne(key, AccountName(env), rest');
    PrependOne(key, text, rest');
    PrependOne("imagePullPolicy", "Always", rest');
    PrependTwo(key, Quoted(ImageRef(env)), Field("imagePullPolicy", "Always"), rest');
    PrependTwo(key, AccountName(env), Rows(PullSecretRows(env.values.imagePullSecret, 0)), rest');
    PrependRows(PullSecretRows(env.values.imagePullSecret, 0), rest');
  }

  /** Away from list items no pull policy comes first, and no template rows do. */
  lemma {:induction false} NoPolicyFirst(env: Env, entries: Entries, indent: nat)
    requires PrintableEntries(entries) && Fits(TemplateEditor(), entries, false)
    ensures var out := Instance(env, entries, indent, false);
            out.NoEntries? || (out.Entry? && out.key != "imagePullPolicy")
    decreases entries
  {
    hide TemplateEditor, ImageRef, AccountName, PullSecretRows, Quoted;
    match entries
    case NoEntries =>
    case Entry(key, value, rest) =>
      TemplateKeepsHeader(key);
      match value
      case Scalar(text) =>
        InstanceOfScalar(env, key, text, rest, indent);
        NoPolicyFirst(env, rest, indent);
      case Mapping(_) =>
      case Sequence(_) =>
  }

  lemma {:induction false} InstanceConforms(env: Env, entries: Entries, indent: nat, dashed: bool)
    requires PrintableEntries(entries) && Fits(TemplateEditor(), entries, dashed)
    ensures Normal(Instance(env, entries, indent, dashed)) == Normal(entries)
            <==> Conforms(ExpectedOf(env), entries, dashed)
                 && (env.values.imagePullSecret == "" || !NamesAccount(entries, dashed))
    decreases entries
  {
    hide TemplateEditor, ImageRef, AccountName, PullSecretRows, Quoted, Unquote, Clean, GoodKey;
    match entries
    case NoEntries =>
    case Entry(key, value, rest) =>
      InstanceConforms(env, rest, indent, false);
      match value
      case Scalar(text) =>
        if !dashed {
          ScalarConforms(env, key, text, rest, indent);
        }
      case Mapping(inner) =>
        InstanceConforms(env, inner, indent + 2, false);
      case Sequence(items) =>
        ItemsConform(env, items, indent);
  }

  lemma {:induction false} ScalarConforms(env: Env, key: string, text: string, rest: Entries, indent: nat)
    requires PrintableEntries(rest) && Fits(TemplateEditor(), rest, false)
    requires Normal(Instance(env, rest, indent, false)) == Normal(rest)
             <==> Conforms(ExpectedOf(env), rest, false)
                  && (env.values.imagePullSecret == "" || !NamesAccount(rest, false))
    ensures var entries := Entry(key, Scalar(text), rest);
            Normal(Instance(env, entries, indent, false)) == Normal(entries)
            <==> Conforms(ExpectedOf(env), entries, false)
                 && (env.values.imagePullSecret == "" || !NamesAccount(entries, false))
    decreases rest, 0
  {
    hide TemplateEditor, ImageRef, AccountName, PullSecretRows, Quoted, Unquote, Clean, GoodKey, Instance;
    InstanceOfScalar(env, key, text, rest, indent);
    if key == "image" {
      UnquoteQuoted(ImageRef(env));
      UnquoteAlways();
      var rest' := Instance(env, rest, indent, false);
      var out := Entry("imagePullPolicy", Scalar("Always"), rest');
      assert Normal(Instance(env, Entry(key, Scalar(text), rest), indent, false))
          == Entry(key, Scalar(ImageRef(env)), Normal(out));
      assert Normal(out) == Entry("imagePullPolicy", Scalar("Always"), Normal(rest'));
      if IsPolicy(rest) {
        InstanceOfScalar(env, rest.key, rest.value.text, rest.rest, indent);
        InstanceConforms(env, rest.rest, indent, false);
        assert NamesAccount(Entry(key, Scalar(text), rest), false) == NamesAccount(rest, false) == NamesAccount(rest.rest, false);
        assert Instance(env, rest, indent, false) == Instance(env, rest.rest, indent, false);
      }
    } else if key == "imagePullPolicy" {
      NoPolicyFirst(env, rest, indent);
    }
  }

  lemma UnquoteAlways()
    ensures Unquote("Always") == "Always"
  {
  }

  lemma {:induction false} ItemsConform(env: Env, items: Items, indent: nat)
    requires PrintableItems(items) && FitsItems(TemplateEditor(), items)
    ensures NormalItems(FillItems(Evenly(InstanceEditor(env)), SetBlocks(env.values.resources), items, indent)) == NormalItems(items)
            <==> ConformItems(ExpectedOf(env), items)
                 && (env.values.imagePullSecret == "" || !ItemsNameAccount(items))
    decreases items
  {
    hide TemplateEditor, ImageRef, AccountName, PullSecretRows, Quoted, Unquote, Clean, GoodKey;
    match items
    case NoItems =>
    case Item(value, rest) =>
      ItemsConform(env, rest, indent);
      match value
      case Scalar(_) =>
      case Mapping(entries) => InstanceConforms(env, entries, indent + 2, true);
      case Sequence(inner) => ItemsConform(env, inner, indent + 2);
  }

  /**
   Installing the template compiled from a Deployment gives that Deployment back exactly
   when it carries the installed values wherever the passes write, and no pull secret is
   added behind a service account.
   */
  lemma DeploymentComesBack(env: Env, entries: Entries)
    requires Compilable(entries)
    requires PrintableEntries(env.values.resources) && env.values.resources != NoEntries
    ensures Render(env, DeploymentText(Marshal(entries))) == Some(PrintText(DeploymentInstance(env, entries)))
    ensures Normal(DeploymentInstance(env, entries)) == Normal(entries)
            <==> Conforms(ExpectedOf(env), entries, false)
                 && (env.values.imagePullSecret == "" || !NamesAccount(entries, false))
  {
    hide Render, DeploymentText, Marshal, PrintText, Conforms, NamesAccount, Normal, TemplateEditor, InstanceEditor;
    DeploymentMeaning(env, entries);
    InstanceConforms(env, entries, 0, false);
  }
}
