/**
 The part of Helm's template language the compiler emits, with the helper definitions the
 chart ships: substitution, a `with` block, and `toYaml` piped into `nindent`.  Anything
 else in a template counts as an error.
 */
module HelmTemplate {
  import opened Wrappers
  import opened GoStrings
  import opened LinePasses
  import opened Yaml
  import Decimal

  datatype Release = Release(name: string, namespace: string)

  /** `replicas` and the scalars of `resources` and `annotations` are given as they are printed. */
  datatype Values = Values(
    repository: string,
    tag: string,
    fullRef: string,
    replicas: string,
    resources: Entries,
    accountName: string,
    annotations: Entries,
    imagePullSecret: string,
    fullnameOverride: string
  )

  datatype Env = Env(release: Release, values: Values)

  // ---------------------------------------------------------------- The helper definitions

  /** sprig's `default`: an empty value gives way. */
  function Default(fallback: string, given: string): string {
    if given == "" then fallback else given
  }

  function Trunc(n: nat, s: string): string {
    if |s| <= n then s else s[..n]
  }

  function TrimDash(s: string): string {
    if s != "" && s[|s| - 1] == '-' then s[..|s| - 1] else s
  }

  /** `chart.fullname`. */
  function FullName(env: Env): string {
    TrimDash(Trunc(63, Default(env.release.name, env.values.fullnameOverride)))
  }

  /** `chart.imageRef`. */
  function ImageRef(env: Env): string {
    if env.values.fullRef != "" then env.values.fullRef else env.values.repository + ":" + env.values.tag
  }

  /** The name every rendered resource uses for the service account. */
  function AccountName(env: Env): string {
    Default(FullName(env), env.values.accountName)
  }

  /** `name` without what does not fit into 63 characters, and without one dash at its end. */
  ghost predicate Shortened(name: string, short: string) {
    var fitting := if |name| <= 63 then |name| else 63;
    && short <= name
    && if fitting > 0 && name[fitting - 1] == '-' then |short| == fitting - 1 else |short| == fitting
  }

  /** What the helper definitions choose: a given name or reference wins over the one made up. */
  lemma HelpersMeaning(env: Env)
    ensures env.values.accountName != "" ==> AccountName(env) == env.values.accountName
    ensures env.values.accountName == "" && env.values.fullnameOverride != "" ==>
              Shortened(env.values.fullnameOverride, AccountName(env))
    ensures env.values.accountName == "" && env.values.fullnameOverride == "" ==> Shortened(env.release.name, AccountName(env))
    ensures env.values.fullRef != "" ==> ImageRef(env) == env.values.fullRef
    ensures env.values.fullRef == "" ==> ImageRef(env) == env.values.repository + ":" + env.values.tag
  {
  }

  // ---------------------------------------------------------------- toYaml and nindent

  function ToYaml(entries: Entries): string {
    if entries == NoEntries then "{}" else PrintText(entries)
  }

  function PadNewlines(pad: string, s: string): string {
    if s == "" then ""
    else if s[0] == '\n' then "\n" + pad + PadNewlines(pad, s[1..])
    else [s[0]] + PadNewlines(pad, s[1..])
  }

  function Nindent(n: nat, s: string): string {
    "\n" + Spaces(n) + PadNewlines(Spaces(n), s)
  }

  // ---------------------------------------------------------------- Evaluation

  /** What `.` stands for inside a `with` block. */
  datatype Dot = NoDot | TextDot(text: string) | TreeDot(entries: Entries)

  // The expressions the model knows, as Helm reads them.

  function NamespaceReference(): string {
    ".Release.Namespace"
  }

  function ReplicasReference(): string {
    ".Values.replicas"
  }

  function AccountDefault(): string {
    "default (include \"chart.fullname\" .)" + " .Values.serviceAccount.name"
  }

  function ImageInclude(): string {
    "include \"chart.imageRef\" ."
  }

  function ToYamlResources(): string {
    "toYaml .Values.resources | nindent "
  }

  function ToYamlDot(): string {
    "toYaml . | nindent "
  }

  /** The value of an action, or None for one the model does not know. */
  function Value(env: Env, expression: string, dot: Dot): Option<string> {
    if expression == NamespaceReference() then Some(env.release.namespace)
    else if expression == ReplicasReference() then Some(env.values.replicas)
    else if expression == AccountDefault() then Some(AccountName(env))
    else if expression == ImageInclude() then Some(ImageRef(env))
    else if expression == "." && dot.TextDot? then Some(dot.text)
    else if HasPrefix(expression, ToYamlResources()) then
      match Decimal.ParseNat(expression[|ToYamlResources()|..])
      case Some(n) => Some(Nindent(n, ToYaml(env.values.resources)))
      case None => None
    else if HasPrefix(expression, ToYamlDot()) && dot.TreeDot? then
      match Decimal.ParseNat(expression[|ToYamlDot()|..])
      case Some(n) => Some(Nindent(n, ToYaml(dot.entries)))
      case None => None
    else None
  }

  /** The value a `with` binds, NoDot when it is empty; None for an action that is no `with`. */
  function With(env: Env, expression: string): Option<Dot> {
    if expression == "with .Values.imagePullSecret" then
      Some(if env.values.imagePullSecret == "" then NoDot else TextDot(env.values.imagePullSecret))
    else if expression == "with .Values.serviceAccount.annotations" then
      Some(if env.values.annotations == NoEntries then NoDot else TreeDot(env.values.annotations))
    else None
  }

  /** The position of the first `}}`. */
  function FindClose(s: string): (i: Option<nat>)
    ensures i.Some? ==> i.value + 2 <= |s|
  {
    if HasPrefix(s, "}}") then Some(0)
    else if s == "" then None
    else
      match FindClose(s[1..])
      case None => None
      case Some(i) => Some(i + 1)
  }

  /** What follows the first `{{- end }}`; the blocks the compiler emits hold no other. */
  function AfterEnd(s: string): (rest: Option<string>)
    ensures rest.Some? ==> |rest.value| <= |s|
  {
    if HasPrefix(s, EndDirective()) then Some(s[|EndDirective()|..])
    else if s == "" then None
    else AfterEnd(s[1..])
  }

  /**
   Evaluates a template.  `out` is the output so far and `space` the white space literal
   text has ended with since, which a following `{{-` removes.
   */
  function Eval(env: Env, s: string, out: string, space: string, dot: Dot): Option<string>
    decreases |s|, 0
  {
    if s == "" then Some(out + space)
    else if !HasPrefix(s, "{{") then
      if IsSpace(s[0]) then Eval(env, s[1..], out, space + [s[0]], dot)
      else Eval(env, s[1..], out + space + [s[0]], "", dot)
    else
      var trim := HasPrefix(s, "{{- ");
      var body := s[if trim then 3 else 2..];
      match FindClose(body)
      case None => None
      case Some(i) => Act(env, TrimSpace(body[..i]), body[i + 2..], if trim then out else out + space, dot)
  }

  /** Performs one action and goes on behind it. */
  function Act(env: Env, expression: string, rest: string, out: string, dot: Dot): Option<string>
    decreases |rest|, 1
  {
    if expression == "end" then
      if dot.NoDot? then None else Eval(env, rest, out, "", NoDot)
    else
      match With(env, expression)
      case Some(NoDot) =>
        (match AfterEnd(rest)
         case None => None
         case Some(after) => Eval(env, after, out, "", dot))
      case Some(bound) => if dot.NoDot? then Eval(env, rest, out, "", bound) else None
      case None =>
        match Value(env, expression, dot)
        case None => None
        case Some(v) => Eval(env, rest, out + v, "", dot)
  }

  /** Renders a template file. */
  function Render(env: Env, template: string): Option<string> {
    Eval(env, template, "", "", NoDot)
  }

  // ---------------------------------------------------------------- Literal text

  /** Literal text is copied; its trailing white space waits for what follows. */
  lemma {:induction false} EvalLiteral(env: Env, a: string, r: string, out: string, space: string, dot: Dot)
    requires !Contains(a, "{{") && (r == "" || r[0] != '{')
    requires a != "" && !IsSpace(a[|a| - 1])
    ensures Eval(env, a + r, out, space, dot) == Eval(env, r, out + space + a, "", dot)
    decreases |a|
  {
    hide TrimSpace, FindClose, IsSpace;
    var s := a + r;
    assert s[0] == a[0] && s[1..] == a[1..] + r;
    LiteralStart(a, r);
    if |a| == 1 {
      assert a[1..] + r == r;
      assert out + space + [a[0]] == out + space + a;
    } else {
      assert a[1..][|a[1..]| - 1] == a[|a| - 1];
      if IsSpace(a[0]) {
        EvalLiteral(env, a[1..], r, out, space + [a[0]], dot);
        assert out + (space + [a[0]]) + a[1..] == out + space + a;
      } else {
        EvalLiteral(env, a[1..], r, out + space + [a[0]], "", dot);
        assert out + space + [a[0]] + "" + a[1..] == out + space + a;
      }
    }
  }

  lemma LiteralStart(a: string, r: string)
    requires !Contains(a, "{{") && a != "" && (r == "" || r[0] != '{')
    ensures !HasPrefix(a + r, "{{")
    ensures !Contains(a[1..], "{{")
  {
    if |a| > 1 {
      assert (a + r)[..2] == a[..2];
    } else if r != "" {
      assert (a + r)[1] == r[0];
    }
  }

  /** White space alone is only remembered. */
  lemma {:induction false} EvalSpace(env: Env, a: string, r: string, out: string, space: string, dot: Dot)
    requires forall c | c in a :: IsSpace(c)
    ensures Eval(env, a + r, out, space, dot) == Eval(env, r, out, space + a, dot)
  {
    hide TrimSpace, FindClose;
    if a == "" {
      assert a + r == r && space + a == space;
    } else {
      assert a[0] in a;
      assert !IsSpace('{');
      assert (a + r)[1..] == a[1..] + r && (a + r)[0] == a[0];
      EvalSpace(env, a[1..], r, out, space + [a[0]], dot);
      assert space + [a[0]] + a[1..] == space + a;
    }
  }

  // ---------------------------------------------------------------- Actions

  function TrimAction(expression: string): string {
    "{{- " + expression + " }}"
  }

  lemma {:induction false} FindCloseAt(a: string, r: string)
    requires '}' !in a
    ensures FindClose(a + "}}" + r) == Some(|a|)
  {
    var s := a + "}}" + r;
    if a == "" {
      assert "}}" <= s;
    } else {
      assert s[0] == a[0] != '}';
      assert s[1..] == a[1..] + "}}" + r;
      FindCloseAt(a[1..], r);
    }
  }

  lemma TrimPadded(e: string)
    requires Clean(e)
    ensures TrimSpace(" " + e + " ") == e
  {
    var s := " " + e + " ";
    assert s[1..] == e + " ";
    assert TrimLeadingSpace(e + " ") == e + " ";
    assert (e + " ")[..|e + " "| - 1] == e;
    assert TrimTrailingSpace(e) == e;
  }

  lemma {:induction false} EvalAction(env: Env, e: string, r: string, out: string, space: string, dot: Dot)
    requires Clean(e) && '}' !in e && e[0] != '-'
    ensures Eval(env, Action(e) + r, out, space, dot) == Act(env, e, r, out + space, dot)
  {
    hide TrimSpace, Act, FindClose;
    var s := Action(e) + r;
    var body := " " + e + " " + "}}" + r;
    assert s == "{{" + body;
    assert s[2..] == body && s[2] == ' ';
    ActionBody(e, r);
  }

  lemma {:induction false} EvalTrimAction(env: Env, e: string, r: string, out: string, space: string, dot: Dot)
    requires Clean(e) && '}' !in e
    ensures Eval(env, TrimAction(e) + r, out, space, dot) == Act(env, e, r, out, dot)
  {
    hide TrimSpace, Act, FindClose;
    var s := TrimAction(e) + r;
    var body := " " + e + " " + "}}" + r;
    assert s == "{{-" + body;
    assert s[3..] == body && s[..4] == "{{- ";
    ActionBody(e, r);
  }

  lemma ActionBody(e: string, r: string)
    requires Clean(e) && '}' !in e
    ensures var body := " " + e + " " + "}}" + r;
            && FindClose(body) == Some(|e| + 2)
            && TrimSpace(body[..|e| + 2]) == e
            && body[|e| + 2 + 2..] == r
  {
    hide TrimSpace;
    var body := " " + e + " " + "}}" + r;
    FindCloseAt(" " + e + " ", r);
    assert body[..|e| + 2] == " " + e + " ";
    TrimPadded(e);
  }

  // ---------------------------------------------------------------- Rows

  /** Rows as text, each with the newline before it. */
  function Block(rows: seq<Row>): string {
    if rows == [] then "" else "\n" + RowText(rows[0]) + Block(rows[1..])
  }

  lemma {:induction false} BlockAppend(a: seq<Row>, b: seq<Row>)
    ensures Block(a + b) == Block(a) + Block(b)
  {
    hide RowText;
    if a == [] {
      assert a + b == b;
    } else {
      assert (a + b)[1..] == a[1..] + b;
      BlockAppend(a[1..], b);
    }
  }

  lemma {:induction false} BlockIsText(rows: seq<Row>)
    requires rows != []
    ensures Block(rows) == "\n" + Join(Texts(rows), "\n")
  {
    hide RowText;
    assert Texts(rows)[1..] == Texts(rows[1..]);
    if |rows| > 1 {
      BlockIsText(rows[1..]);
      assert "\n" + (RowText(rows[0]) + "\n" + Join(Texts(rows[1..]), "\n"))
          == "\n" + RowText(rows[0]) + ("\n" + Join(Texts(rows[1..]), "\n"));
    } else {
      assert "\n" + RowText(rows[0]) + "" == "\n" + RowText(rows[0]);
    }
  }

  /** The text ends here, or a new line starts. */
  predicate LineEnd(r: string) {
    r == "" || r[0] == '\n'
  }

  lemma BlockLineEnd(rows: seq<Row>, r: string)
    requires LineEnd(r)
    ensures LineEnd(Block(rows) + r)
  {
    hide RowText;
    if rows == [] {
      assert Block(rows) + r == r;
    } else {
      assert (Block(rows) + r)[0] == '\n';
    }
  }

  /** Rendering template rows outside a `with` block produces these rows, wherever they stand. */
  ghost predicate Renders(env: Env, template: seq<Row>, rows: seq<Row>) {
    forall r, out | LineEnd(r) :: RendersAt(env, template, rows, r, out)
  }

  ghost predicate RendersAt(env: Env, template: seq<Row>, rows: seq<Row>, r: string, out: string) {
    Eval(env, Block(template) + r, out, "", NoDot) == Eval(env, r, out + Block(rows), "", NoDot)
  }

  lemma RendersNothing(env: Env)
    ensures Renders(env, [], [])
  {
    forall r, out | LineEnd(r)
      ensures RendersAt(env, [], [], r, out)
    {
      hide Eval;
      assert Block([]) + r == r && out + Block([]) == out;
    }
  }

  lemma {:induction false} RendersBoth(env: Env, a: seq<Row>, a': seq<Row>, b: seq<Row>, b': seq<Row>)
    requires Renders(env, a, a') && Renders(env, b, b')
    ensures Renders(env, a + b, a' + b')
  {
    hide Eval, Block;
    forall r, out | LineEnd(r)
      ensures RendersAt(env, a + b, a' + b', r, out)
    {
      BlockLineEnd(b, r);
      BlockAppend(a, b);
      BlockAppend(a', b');
      assert Block(a + b) + r == Block(a) + (Block(b) + r);
      assert RendersAt(env, a, a', Block(b) + r, out);
      assert RendersAt(env, b, b', r, out + Block(a'));
      assert out + Block(a') + Block(b') == out + Block(a' + b');
    }
  }

  lemma OneBlock(row: Row)
    ensures Block([row]) == "\n" + Spaces(row.indent) + row.content
  {
    assert [row][1..] == [] && Block([]) == "";
    assert "\n" + RowText(row) + "" == "\n" + Spaces(row.indent) + row.content;
  }

  lemma MarginIsSpace(indent: nat)
    ensures forall c | c in "\n" + Spaces(indent) :: IsSpace(c)
    ensures '{' !in "\n" + Spaces(indent)
  {
  }

  /** A row without template actions is copied. */
  lemma RendersLiteral(env: Env, row: Row)
    requires GoodRow(row) && !Contains(row.content, "{{")
    ensures Renders(env, [row], [row])
  {
    hide Eval, Contains, IsSpace;
    forall r, out | LineEnd(r)
      ensures RendersAt(env, [row], [row], r, out)
    {
      OneBlock(row);
      var margin := "\n" + Spaces(row.indent);
      MarginIsSpace(row.indent);
      BracesAfterPlain(margin, row.content);
      EvalLiteral(env, margin + row.content, r, out, "", NoDot);
      assert out + "" + (margin + row.content) == out + Block([row]);
    }
  }

  /** The row `field: {{ e }}` renders to the field with the value of `e`. */
  lemma {:induction false} RendersField(env: Env, indent: nat, field: string, e: string, v: string)
    requires Clean(field) && '{' !in field
    requires Clean(e) && '}' !in e && e[0] != '-' && e != "end"
    requires With(env, e) == None && Value(env, e, NoDot) == Some(v)
    ensures Renders(env, [Row(indent, field + " " + Action(e))], [Row(indent, field + " " + v)])
  {
    hide Eval, Contains, IsSpace, Action, With, Value;
    forall r, out | LineEnd(r)
      ensures RendersAt(env, [Row(indent, field + " " + Action(e))], [Row(indent, field + " " + v)], r, out)
    {
      EvalField(env, indent, field, " ", e, "", r, out, NoDot, v);
      OneBlock(Row(indent, field + " " + Action(e)));
      OneBlock(Row(indent, field + " " + v));
      var margin := "\n" + Spaces(indent);
      assert margin + (field + " " + Action(e)) + r == margin + field + " " + Action(e) + "" + r;
      assert out + (margin + (field + " " + v)) == out + margin + field + " " + v + "";
    }
  }

  /** A field, literal text before and after an action; `before` is white space, or ends visibly. */
  lemma {:induction false} EvalField(
      env: Env, indent: nat, field: string, before: string, e: string, after: string, r: string, out: string,
      dot: Dot, v: string)
    requires Clean(field) && '{' !in field
    requires before == " " || before == " \""
    requires after == "" || after == "\""
    requires Clean(e) && '}' !in e && e[0] != '-' && e != "end" && LineEnd(r)
    requires With(env, e) == None && Value(env, e, dot) == Some(v)
    ensures var margin := "\n" + Spaces(indent);
            Eval(env, margin + field + before + Action(e) + after + r, out, "", dot)
            == Eval(env, r, out + margin + field + before + v + after, "", dot)
  {
    hide Eval, Contains, IsSpace, Action, With, Value;
    var margin := "\n" + Spaces(indent);
    var tail := Action(e) + (after + r);
    MarginIsSpace(indent);
    var head := margin + field;
    NoBraceNoAction(head);
    assert margin + field + before + Action(e) + after + r == head + (before + tail);
    EvalLiteral(env, head, before + tail, out, "", dot);
    assert out + "" + head == out + head;
    EvalBefore(env, before, tail, out + head, dot);
    var (o, w) := if before == " " then (out + head, " ") else (out + head + before, "");
    EvalAction(env, e, after + r, o, w, dot);
    assert o + w == out + margin + field + before;
    ActValue(env, e, after + r, o + w, dot, v);
    if after == "" {
      assert after + r == r;
      assert o + w + v == out + margin + field + before + v + after;
    } else {
      QuoteIsLiteral();
      EvalLiteral(env, after, r, o + w + v, "", dot);
      assert o + w + v + "" + after == out + margin + field + before + v + after;
    }
  }

  lemma QuoteIsLiteral()
    ensures !Contains("\"", "{{") && !IsSpace('\"')
    ensures !Contains(" \"", "{{")
  {
    NoBraceNoAction("\"");
    NoBraceNoAction(" \"");
  }

  lemma {:induction false} EvalBefore(env: Env, before: string, tail: string, out: string, dot: Dot)
    requires before == " " || before == " \""
    ensures Eval(env, before + tail, out, "", dot)
            == if before == " " then Eval(env, tail, out, " ", dot) else Eval(env, tail, out + before, "", dot)
  {
    if before == " " {
      EvalSpace(env, " ", tail, out, "", dot);
      assert "" + " " == " ";
    } else {
      var s := before + tail;
      assert s[0] == ' ' && s[1..] == "\"" + tail;
      assert !HasPrefix(s, "{{") && IsSpace(' ');
      assert Eval(env, s, out, "", dot) == Eval(env, "\"" + tail, out, "" + [' '], dot);
      var t := "\"" + tail;
      assert t[0] == '\"' && t[1..] == tail && !HasPrefix(t, "{{") && !IsSpace('\"');
      assert out + ("" + [' ']) + ['\"'] == out + before;
    }
  }

  lemma {:induction false} ActValue(env: Env, e: string, r: string, out: string, dot: Dot, v: string)
    requires e != "end" && With(env, e) == None && Value(env, e, dot) == Some(v)
    ensures Act(env, e, r, out, dot) == Eval(env, r, out + v, "", dot)
  {
    hide Eval, With, Value;
  }
}
