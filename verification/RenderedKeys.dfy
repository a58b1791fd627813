/**
 The keys of a rendered mapping.  Two passes add a key to a mapping, behind the name of an
 account and behind the name of a service account; where the source has that key already,
 the rendered mapping holds it twice.
 */
module RenderedKeys {
  import opened Wrappers
  import opened GoStrings
  import opened LinePasses
  import opened PassLaws
  import opened Yaml
  import opened TreeEdits
  import opened HelmTemplate
  import opened EmittedRendering
  import opened ChartRendering
  import opened DeploymentChart
  import opened DeploymentRoundTrip
  import opened SectionTrees
  import opened BindingChart
  import opened AccountChart
  import opened CrossResource
  import ChartValues

  // ---------------------------------------------------------------- Counting keys

  /** How many rows stand for `key` on the level of the rows. */
  function RowTimes(key: string, rows: seq<Row>): nat {
    if rows == [] then 0
    else (if rows[0].indent == 0 && HasPrefix(rows[0].content, key + ":") then 1 else 0) + RowTimes(key, rows[1..])
  }

  /** How often a level holds a key. */
  function Times(key: string, entries: Entries): nat {
    match entries
    case NoEntries => 0
    case Entry(k, _, rest) => (if k == key then 1 else 0) + Times(key, rest)
    case Splice(rows, rest) => RowTimes(key, rows) + Times(key, rest)
  }

  ghost predicate DistinctKeys(entries: Entries) {
    forall key | ':' !in key :: Times(key, entries) <= 1
  }

  lemma {:induction false} DeeperTimes(key: string, rows: seq<Row>)
    requires forall row | row in rows :: row.indent > 0
    ensures RowTimes(key, rows) == 0
  {
    if rows != [] {
      assert rows[0] in rows;
      DeeperTimes(key, rows[1..]);
    }
  }

  /** A header and what is nested under it. */
  lemma HeaderTimes(key: string, header: string, rows: seq<Row>)
    requires ':' !in key && ':' !in header && forall row | row in rows :: row.indent > 0
    ensures RowTimes(key, [Row(0, header + ":")] + rows) == if key == header then 1 else 0
  {
    assert ([Row(0, header + ":")] + rows)[1..] == rows;
    DeeperTimes(key, rows);
    FieldPrefix(header, "", key);
    assert header + ":" + "" == header + ":";
  }

  lemma AnnotationTimes(key: string, annotations: Entries)
    requires ':' !in key && PrintableEntries(annotations)
    ensures RowTimes(key, AnnotationRows(annotations, 0)) == if key == "annotations" && annotations != NoEntries then 1 else 0
  {
    hide RowTimes;
    if annotations == NoEntries {
      DeeperTimes(key, []);
    } else {
      DeeperRows(annotations, 2);
      HeaderTimes(key, "annotations", PrintEntries(annotations, 2));
      assert "annotations" + ":" == "annotations:";
    }
  }

  lemma SecretTimes(key: string, secret: string)
    requires ':' !in key && secret != ""
    ensures RowTimes(key, PullSecretRows(secret, 0)) == if key == "imagePullSecrets" then 1 else 0
  {
    hide RowTimes;
    HeaderTimes(key, "imagePullSecrets", [Row(2, "- name: " + secret)]);
    assert "imagePullSecrets" + ":" == "imagePullSecrets:";
    assert PullSecretRows(secret, 0) == [Row(0, "imagePullSecrets" + ":")] + [Row(2, "- name: " + secret)];
  }

  lemma {:induction false} LookedUpTimes(key: string, entries: Entries)
    requires PrintableEntries(entries)
    ensures Times(key, entries) == 0 <==> ChartValues.Lookup(entries, key) == None
  {
    match entries
    case NoEntries =>
    case Entry(_, _, rest) => LookedUpTimes(key, rest);
  }

  /** A level on which only `extra` can stand twice. */
  ghost predicate OnlyTwice(extra: string, entries: Entries) {
    forall key | ':' !in key && key != extra :: Times(key, entries) <= 1
  }

  lemma DistinctBut(extra: string, entries: Entries)
    requires ':' !in extra && OnlyTwice(extra, entries)
    ensures DistinctKeys(entries) <==> Times(extra, entries) <= 1
  {
    hide Times;
  }

  // ---------------------------------------------------------------- The service account

  /** How many names of a level the account pass replaces. */
  function NamesHere(originalName: string, entries: Entries): nat {
    match entries
    case NoEntries => 0
    case Splice(_, rest) => NamesHere(originalName, rest)
    case Entry(key, value, rest) =>
      (if value.Scalar? && IsName(originalName, key, value.text) then 1 else 0) + NamesHere(originalName, rest)
  }

  lemma {:induction false} InstalledPieces(env: Env, originalName: string, key: string, text: string, rest: Entries)
    ensures Prepend(InstalledField(env, originalName, key, text), rest)
            == if key == "namespace" then Entry(key, Scalar(env.release.namespace), rest)
               else if IsName(originalName, key, text) then
                 Entry(key, Scalar(AccountName(env)), Splice(AnnotationRows(env.values.annotations, 0), rest))
               else Entry(key, Scalar(text), rest)
  {
    hide AccountName, AnnotationRows, Contains;
    PrependOne(key, env.release.namespace, rest);
    PrependOne(key, text, rest);
    PrependTwo(key, AccountName(env), Rows(AnnotationRows(env.values.annotations, 0)), rest);
    PrependRows(AnnotationRows(env.values.annotations, 0), rest);
  }

  /** Any level of installed metadata: the keys of the source, and annotations behind every replaced name. */
  lemma {:induction false} InstalledTimes(env: Env, originalName: string, key: string, entries: Entries, indent: nat)
    requires ':' !in key && PrintableEntries(entries) && PrintableEntries(env.values.annotations)
    ensures Times(key, Fill(InstalledEditors(env, originalName), KeepBlocks(), entries, indent, false))
            == Times(key, entries)
               + if key == "annotations" && env.values.annotations != NoEntries then NamesHere(originalName, entries) else 0
  {
    hide AccountName, AnnotationRows, IsName, GoodKey, Clean, InstalledField, RowTimes;
    match entries
    case NoEntries =>
    case Entry(k, value, rest) =>
      InstalledTimes(env, originalName, key, rest, indent);
      if value.Scalar? {
        InstalledPieces(env, originalName, k, value.text, Fill(InstalledEditors(env, originalName), KeepBlocks(), rest, indent, false));
        AnnotationTimes(key, env.values.annotations);
        NamespaceIsNoName(originalName, value.text);
      }
  }

  lemma NamespaceIsNoName(originalName: string, text: string)
    ensures !IsName(originalName, "namespace", text)
  {
  }

  lemma {:induction false} NamesAreNames(originalName: string, entries: Entries)
    ensures NamesHere(originalName, entries) <= Times("name", entries)
  {
    hide IsName, RowTimes;
    match entries
    case NoEntries =>
    case Splice(_, rest) => NamesAreNames(originalName, rest);
    case Entry(key, value, rest) =>
      NamesAreNames(originalName, rest);
      if value.Scalar? {
        NameIsKey(originalName, key, value.text);
      }
  }

  lemma NameIsKey(originalName: string, key: string, text: string)
    ensures IsName(originalName, key, text) ==> key == "name"
  {
  }

  lemma {:induction false} FoundNameIsHere(originalName: string, entries: Entries, text: string)
    requires PrintableEntries(entries) && ChartValues.Lookup(entries, "name") == Some(Scalar(text))
    requires IsName(originalName, "name", text)
    ensures NamesHere(originalName, entries) >= 1
  {
    hide IsName, GoodKey, Clean;
    match entries
    case Entry(key, _, rest) =>
      if key != "name" {
        FoundNameIsHere(originalName, rest, text);
      }
  }

  /** The metadata of a resource. */
  function MetadataOf(entries: Entries): Entries {
    match ChartValues.Lookup(entries, "metadata")
    case Some(Mapping(inner)) => inner
    case _ => NoEntries
  }

  /** The keys of an installed account's metadata stay distinct exactly when the values or the source set no annotations. */
  lemma AnnotationsStayDistinct(env: Env, account: Entries, text: string)
    requires PrintableEntries(account) && PrintableEntries(env.values.annotations)
    requires MetadataName(account) == Some(text) && DistinctKeys(MetadataOf(account))
    ensures DistinctKeys(MetadataOf(AccountInstance(env, Unquote(text), account)))
            <==> env.values.annotations == NoEntries || ChartValues.Lookup(MetadataOf(account), "annotations") == None
  {
    hide ChartValues.Lookup, Times, NamesHere, Fill, IsName, Unquote, AccountInstance, PrintableEntries;
    var o, inner := Unquote(text), MetadataOf(account);
    MetadataOfInstance(env, o, account);
    ChartValues.LookupPrintable(account, "metadata");
    MetadataIsPrintable(account);
    LookedUpTimes("annotations", inner);
    OwnNameIsReplaced(text);
    FoundNameIsHere(o, inner, text);
    NamesAreNames(o, inner);
    var a := MetadataOf(AccountInstance(env, o, account));
    forall key | ':' !in key && key != "annotations"
      ensures Times(key, a) <= 1
    {
      InstalledTimes(env, o, key, inner, 2);
    }
    assert ':' !in "annotations" && ':' !in "name";
    InstalledTimes(env, o, "annotations", inner, 2);
    DistinctBut("annotations", a);
  }

  lemma MetadataIsPrintable(entries: Entries)
    requires PrintableEntries(entries)
    ensures PrintableEntries(MetadataOf(entries))
  {
    hide ChartValues.Lookup;
    if ChartValues.Lookup(entries, "metadata").Some? {
      ChartValues.LookupPrintable(entries, "metadata");
    }
  }

  /** A service account with annotations of its own. */
  function AnnotatedAccount(): Entries {
    var annotations := Entry("x", Scalar("y"), NoEntries);
    Entry("metadata", Mapping(Entry("annotations", Mapping(annotations), Entry("name", Scalar("sa"), NoEntries))), NoEntries)
  }

  lemma AnnotatedCompiles()
    ensures AccountCompilable("sa", AnnotatedAccount())
  {
    hide GoodKey, Clean, Contains, Action;
    ExampleKeys();
    ExampleTexts();
    NoBraceNoAction("sa");
    NoBraceNoAction("y");
    assert GoodKey("annotations") && '{' !in "annotations" by { AnnotationsKey(); }
    var annotations := Entry("x", Scalar("y"), NoEntries);
    var name := Entry("name", Scalar("sa"), NoEntries);
    var inner := Entry("annotations", Mapping(annotations), name);
    assert "annotations"[0] != "namespace"[0] && "annotations"[0] != "name"[0] && "metadata"[0] != "namespace"[0];
    assert PrintableEntries(annotations) && Plain(annotations) && Fits(NamespaceEditor(), annotations, false);
    assert PrintableEntries(name) && Plain(name) && Fits(NamespaceEditor(), name, false);
    assert PrintableEntries(inner) && Plain(inner) && Fits(NamespaceEditor(), inner, false);
    assert !Hits(NameHeaders("sa"), annotations, false) && !Hits(NameHeaders("sa"), name, false);
    assert !Hits(NameHeaders("sa"), inner, false);
    assert OneMetadata(AnnotatedAccount()) && NoNameHeaders("sa", AnnotatedAccount());
  }

  lemma AnnotationsKey()
    ensures GoodKey("annotations") && '{' !in "annotations"
  {
  }

  /** It is installed with the key twice, whatever annotations the values set. */
  lemma AnnotationsTwice(env: Env)
    requires env.values.annotations != NoEntries && PrintableEntries(env.values.annotations)
    ensures AccountCompilable("sa", AnnotatedAccount())
    ensures var a := AccountInstance(env, "sa", AnnotatedAccount());
            && Render(env, AccountText("sa", Marshal(AnnotatedAccount()))) == Some(PrintText(a))
            && Times("annotations", MetadataOf(a)) == 2
  {
    hide Render, AccountText, Marshal, PrintText, AccountCompilable, Contains, GoodKey, Clean, AccountInstance, Fill, RowTimes;
    AnnotatedCompiles();
    CompilablePrintable(AnnotatedAccount());
    AccountMeaning(env, "sa", AnnotatedAccount());
    MetadataOfInstance(env, "sa", AnnotatedAccount());
    var name := Entry("name", Scalar("sa"), NoEntries);
    var inner := MetadataOf(AnnotatedAccount());
    assert inner == Entry("annotations", Mapping(Entry("x", Scalar("y"), NoEntries)), name);
    ExampleName();
    assert NamesHere("sa", name) == 1;
    assert "annotations"[0] != "name"[0];
    assert Times("annotations", name) == 0;
    assert ':' !in "annotations";
    InstalledTimes(env, "sa", "annotations", inner, 2);
  }

  lemma CompilablePrintable(entries: Entries)
    requires AccountCompilable("sa", entries)
    ensures PrintableEntries(entries)
  {
  }

  // ---------------------------------------------------------------- The pod template

  lemma {:induction false} InstanceTimes(env: Env, key: string, entries: Entries, indent: nat)
    requires ':' !in key && PrintableEntries(entries) && Fits(TemplateEditor(), entries, false)
    ensures Times(key, Instance(env, entries, indent, false))
            == if key == "imagePullPolicy" then Times("image", entries)
               else Times(key, entries)
                    + if key == "imagePullSecrets" && env.values.imagePullSecret != "" then Times("serviceAccountName", entries) else 0
  {
    hide TemplateEditor, ImageRef, AccountName, PullSecretRows, Quoted, GoodKey, Clean, RowTimes;
    match entries
    case NoEntries =>
    case Entry(k, value, rest) =>
      InstanceTimes(env, key, rest, indent);
      TemplateKeepsHeader(k);
      FieldNamesApart();
      if value.Scalar? {
        InstanceOfScalar(env, k, value.text, rest, indent);
        if env.values.imagePullSecret != "" {
          SecretTimes(key, env.values.imagePullSecret);
        }
      }
  }

  lemma FieldNamesApart()
    ensures "image" != "imagePullPolicy" && "serviceAccountName" != "imagePullSecrets" && "imagePullPolicy" != "imagePullSecrets"
    ensures "namespace" != "imagePullPolicy" && "replicas" != "imagePullPolicy" && "serviceAccountName" != "imagePullPolicy"
    ensures "image" != "serviceAccountName" && "namespace" != "serviceAccountName" && "replicas" != "serviceAccountName"
    ensures "namespace" != "image" && "replicas" != "image"
  {
    assert "image"[0] == 'i' && "namespace"[0] == 'n' && "replicas"[0] == 'r' && "serviceAccountName"[0] == 's';
    assert "imagePullSecrets"[9] == 'S' && "imagePullPolicy"[9] == 'P' && |"image"| == 5;
  }

  const PULL_SECRETS := "imagePullSecrets"

  lemma FieldNamesPlain()
    ensures ':' !in PULL_SECRETS && ':' !in "serviceAccountName" && ':' !in "image"
  {
  }

  lemma {:induction false} SecretsOfInstance(env: Env, entries: Entries, indent: nat)
    requires PrintableEntries(entries) && Fits(TemplateEditor(), entries, false)
    ensures Times(PULL_SECRETS, Instance(env, entries, indent, false))
            == Times(PULL_SECRETS, entries) + if env.values.imagePullSecret != "" then Times("serviceAccountName", entries) else 0
  {
    hide Times, Instance, Fits;
    FieldNamesPlain();
    FieldNamesApart();
    InstanceTimes(env, PULL_SECRETS, entries, indent);
  }

  lemma {:induction false} OtherKeysOnce(env: Env, entries: Entries, indent: nat, key: string)
    requires PrintableEntries(entries) && Fits(TemplateEditor(), entries, false) && DistinctKeys(entries)
    requires ':' !in key && key != PULL_SECRETS
    ensures Times(key, Instance(env, entries, indent, false)) <= 1
  {
    hide Times, Instance, Fits;
    FieldNamesPlain();
    InstanceTimes(env, key, entries, indent);
  }

  /** The keys of an installed pod template stay distinct exactly when the values or the source set no pull secret. */
  lemma PullSecretsStayDistinct(env: Env, pod: Entries, indent: nat)
    requires PrintableEntries(pod) && Fits(TemplateEditor(), pod, false) && DistinctKeys(pod)
    requires ChartValues.Lookup(pod, "serviceAccountName").Some?
    ensures DistinctKeys(Instance(env, pod, indent, false))
            <==> env.values.imagePullSecret == "" || ChartValues.Lookup(pod, PULL_SECRETS) == None
  {
    hide ChartValues.Lookup, Times, Instance, PrintableEntries, Fits;
    var out := Instance(env, pod, indent, false);
    LookedUpTimes(PULL_SECRETS, pod);
    LookedUpTimes("serviceAccountName", pod);
    FieldNamesPlain();
    forall key | ':' !in key && key != PULL_SECRETS
      ensures Times(key, out) <= 1
    {
      OtherKeysOnce(env, pod, indent, key);
    }
    SecretsOfInstance(env, pod, indent);
    DistinctBut(PULL_SECRETS, out);
  }
}
