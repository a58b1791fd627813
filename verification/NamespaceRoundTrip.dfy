/**
 Namespaces inside structured values: webhook annotations and certificate DNS names.
 Substituting the original namespace into the template gives the original text back exactly
 when every line the passes rewrite carries that namespace, canonically spaced.
 */
module NamespaceRoundTrip {
  import opened GoStrings
  import opened LinePasses
  import opened PassLaws
  import opened SectionLaws
  import opened ChartDocuments

  // ---------------------------------------------------------------- Substitution

  /** The reference to the release namespace, as Helm reads it. */
  function Directive(): string {
    "{{ .Release.Namespace }}"
  }

  /** The passes write exactly this reference. */
  lemma DirectiveIsWritten()
    ensures Directive() == Action(ReleaseNamespace())
  {
  }

  /** Replaces every occurrence of the namespace action. */
  function Substitute(s: string, n: string): string {
    if HasPrefix(s, Directive()) && Directive() != "" then n + Substitute(s[|Directive()|..], n)
    else if s == "" then ""
    else [s[0]] + Substitute(s[1..], n)
  }

  lemma DirectiveShape()
    ensures var d := Directive(); |d| > 3 && d[0] == '{' && d[1] == '{' && d[2] == ' ' && '\n' !in d && '/' !in d && ':' !in d
    ensures !IsSpace(Directive()[0]) && !IsSpace(Directive()[|Directive()| - 1])
  {
  }

  lemma SubstituteStep(s: string, n: string)
    requires s != ""
    ensures Substitute(s, n) == if HasPrefix(s, Directive()) then n + Substitute(s[|Directive()|..], n)
                                else [s[0]] + Substitute(s[1..], n)
  {
    hide Directive;
    DirectiveShape();
  }

  lemma FreeStep(s: string)
    requires !Contains(s, "{{") && s != ""
    ensures !Contains(s[1..], "{{") && !("{{" <= s)
  {
  }

  lemma PrefixAt(d: string, s: string, i: nat)
    requires i < |d|
    ensures HasPrefix(s, d) ==> i < |s| && s[i] == d[i]
  {
  }

  lemma TwoBraces(s: string)
    ensures "{{" <= s <==> |s| >= 2 && s[0] == '{' && s[1] == '{'
  {
    if |s| >= 2 {
      assert s[..2] == [s[0], s[1]];
    }
  }

  lemma NoDirectiveFirst(s: string)
    requires !("{{" <= s)
    ensures !HasPrefix(s, Directive())
  {
    hide Directive;
    DirectiveShape();
    TwoBraces(s);
    PrefixAt(Directive(), s, 0);
    PrefixAt(Directive(), s, 1);
  }

  lemma {:induction false} NothingToSubstitute(s: string, n: string)
    requires !Contains(s, "{{")
    ensures Substitute(s, n) == s
  {
    hide Directive, Substitute, Contains;
    if s == "" {
      SubstituteNothing(n);
    } else {
      FreeStep(s);
      NoDirectiveFirst(s);
      SubstituteStep(s, n);
      NothingToSubstitute(s[1..], n);
    }
  }

  lemma SubstituteNothing(n: string)
    ensures Substitute("", n) == ""
  {
    hide Directive;
    DirectiveShape();
  }

  /** The action is not found before its place. */
  lemma NoEarlyDirective(a: string, b: string)
    requires a != "" && !("{{" <= a)
    ensures !HasPrefix(a + Directive() + b, Directive())
  {
    hide Directive;
    DirectiveShape();
    var d := Directive();
    var s := a + d + b;
    if |a| == 1 {
      assert s[2] == d[1];
      PrefixAt(d, s, 2);
    } else {
      TwoBraces(a);
      PrefixAt(d, s, 0);
      PrefixAt(d, s, 1);
      assert s[0] == a[0] && s[1] == a[1];
    }
  }

  /** Between template-free texts the action is replaced, and nothing else. */
  lemma {:induction false} SubstituteMiddle(a: string, b: string, n: string)
    requires !Contains(a, "{{") && !Contains(b, "{{")
    ensures Substitute(a + Directive() + b, n) == a + n + b
  {
    hide Directive, Substitute, Contains;
    if a == "" {
      NothingToSubstitute(b, n);
      SubstituteFirst(b, n);
    } else {
      FreeStep(a);
      NoEarlyDirective(a, b);
      SubstituteMiddle(a[1..], b, n);
      SubstituteLater(a, b, n);
    }
  }

  lemma SubstituteFirst(b: string, n: string)
    ensures Substitute("" + Directive() + b, n) == "" + n + Substitute(b, n)
  {
    hide Directive, Substitute;
    DirectiveShape();
    var d := Directive();
    var s := "" + d + b;
    assert s == d + b && s[|d|..] == b;
    SubstituteStep(s, n);
    assert "" + n + Substitute(b, n) == n + Substitute(b, n);
  }

  lemma SubstituteLater(a: string, b: string, n: string)
    requires a != "" && !HasPrefix(a + Directive() + b, Directive())
    requires Substitute(a[1..] + Directive() + b, n) == a[1..] + n + b
    ensures Substitute(a + Directive() + b, n) == a + n + b
  {
    hide Directive, Substitute;
    var s := a + Directive() + b;
    assert s[0] == a[0] && s[1..] == a[1..] + Directive() + b;
    SubstituteStep(s, n);
    assert [a[0]] + (a[1..] + n + b) == a + n + b;
  }

  /** A prefix without newline lies within the first line. */
  lemma PrefixOfLine(d: string, line: string, rest: string)
    requires '\n' !in d
    ensures d <= line + "\n" + rest <==> d <= line
  {
    var s := line + "\n" + rest;
    assert s[|line|] == '\n';
    assert d <= s ==> forall i | 0 <= i < |d| :: s[i] == d[i] && d[i] in d;
    assert s[..|line|] == line;
  }

  lemma {:induction false} SubstituteLine(line: string, rest: string, n: string)
    requires '\n' !in line
    ensures Substitute(line + "\n" + rest, n) == Substitute(line, n) + "\n" + Substitute(rest, n)
    decreases |line|
  {
    hide Directive, Substitute;
    DirectiveShape();
    SubstituteNothing(n);
    var d, s := Directive(), line + "\n" + rest;
    SubstituteStep(s, n);
    PrefixOfLine(d, line, rest);
    if line == "" {
      assert s == "\n" + rest && s[1..] == rest;
    } else {
      SubstituteStep(line, n);
      var (k, out) := if HasPrefix(line, d) then (|d|, n) else (1, [line[0]]);
      assert s[k..] == line[k..] + "\n" + rest && s[0] == line[0];
      SubstituteLine(line[k..], rest, n);
      assert Substitute(s, n) == out + Substitute(s[k..], n) && Substitute(line, n) == out + Substitute(line[k..], n);
      AppendThree(out, Substitute(line[k..], n), Substitute(rest, n));
    }
  }

  lemma AppendThree(a: string, b: string, c: string)
    ensures a + (b + "\n" + c) == a + b + "\n" + c
  {
  }

  function SubstituteAll(lines: seq<string>, n: string): (r: seq<string>)
    ensures |r| == |lines| && forall i | 0 <= i < |lines| :: r[i] == Substitute(lines[i], n)
  {
    seq(|lines|, i requires 0 <= i < |lines| => Substitute(lines[i], n))
  }

  lemma {:induction false} SubstituteText(lines: seq<string>, n: string)
    requires OneLineEach(lines)
    ensures Substitute(TextOf(lines), n) == TextOf(SubstituteAll(lines, n))
  {
    hide Directive;
    if |lines| == 0 {
      DirectiveShape();
    } else if |lines| > 1 {
      SubstituteLine(lines[0], TextOf(lines[1..]), n);
      SubstituteText(lines[1..], n);
      assert SubstituteAll(lines, n)[1..] == SubstituteAll(lines[1..], n);
    }
  }

  lemma {:induction false} SubstituteOneLine(s: string, n: string)
    requires '\n' !in s && '\n' !in n
    ensures '\n' !in Substitute(s, n)
    decreases |s|
  {
    hide Directive;
    if HasPrefix(s, Directive()) && Directive() != "" {
      SubstituteOneLine(s[|Directive()|..], n);
    } else if s != "" {
      SubstituteOneLine(s[1..], n);
    }
  }

  /** A text comes back exactly when each of its lines does. */
  lemma LinesComeBack(raw: string, out: seq<string>, n: string)
    requires OneLineEach(out) && |out| == |LinesOf(raw)| && '\n' !in n
    ensures Substitute(TextOf(out), n) == raw <==> forall i | 0 <= i < |out| :: Substitute(out[i], n) == LinesOf(raw)[i]
  {
    hide Substitute;
    TextOfLines(raw);
    var lines, back := LinesOf(raw), SubstituteAll(out, n);
    SubstituteText(out, n);
    forall i | 0 <= i < |out|
      ensures '\n' !in back[i]
    {
      SubstituteOneLine(out[i], n);
    }
    LinesOfText(back);
    assert back != [];
    if TextOf(back) == raw {
      assert back == lines;
      assert forall i | 0 <= i < |out| :: Substitute(out[i], n) == back[i];
    }
    if forall i | 0 <= i < |out| :: Substitute(out[i], n) == lines[i] {
      assert back == lines;
    }
  }

  // ---------------------------------------------------------------- Parts of template-free lines

  lemma ContainsSlice(s: string, i: nat, j: nat, sub: string)
    requires i <= j <= |s| && Contains(s[i..j], sub)
    ensures Contains(s, sub)
  {
    assert s == s[..i] + (s[i..j] + s[j..]);
    ContainsLeft(s[i..j], s[j..], sub);
    ContainsRight(s[..i], s[i..j] + s[j..], sub);
  }

  /** A trimmed string is a slice of the string. */
  lemma {:induction false} TrimIsSlice(s: string) returns (i: nat, j: nat)
    ensures i <= j <= |s| && TrimSpace(s) == s[i..j]
  {
    var t := TrimLeadingSpace(s);
    TrimLeadingSuffix(s);
    TrimTrailingPrefix(t);
    i := |s| - |t|;
    j := i + |TrimSpace(s)|;
  }

  lemma TrimTemplateFree(s: string)
    ensures !Contains(s, "{{") ==> !Contains(TrimSpace(s), "{{")
  {
    hide TrimSpace, Contains;
    var i, j := TrimIsSlice(s);
    if Contains(TrimSpace(s), "{{") {
      ContainsSlice(s, i, j, "{{");
    }
  }

  lemma SliceTemplateFree(s: string, i: nat, j: nat)
    requires i <= j <= |s|
    ensures !Contains(s, "{{") ==> !Contains(s[i..j], "{{")
  {
    hide Contains;
    if Contains(s[i..j], "{{") {
      ContainsSlice(s, i, j, "{{");
    }
  }

  /** A namespace name: DNS labels hold none of these. */
  predicate NamespaceName(n: string) {
    n != "" && (forall c | c in n :: !IsSpace(c)) && '/' !in n && '.' !in n && ':' !in n && '\n' !in n
  }

  // ---------------------------------------------------------------- Lines with a namespace field

  ghost predicate FieldCarries(line: string, n: string) {
    line == IndentOf(line) + "namespace: " + n
  }

  lemma NamespaceLineComesBack(line: string, n: string)
    requires Untemplated(line, "namespace:")
    ensures LinesFor(SetNamespace(), line) == [IndentOf(line) + "namespace: " + Directive()]
    ensures Substitute(IndentOf(line) + "namespace: " + Directive(), n) == line <==> FieldCarries(line, n)
  {
    hide TrimSpace, IndentOf, Contains, Substitute, Action, Spaces;
    DirectiveIsWritten();
    assert "namespace" + ":" == "namespace:";
    NamespaceHead(IndentOf(line));
    IndentIsSpaces(line);
    NoBraceIn(|IndentOf(line)|);
    SubstituteField(IndentOf(line) + "namespace: ", n);
  }

  lemma NamespaceHead(indent: string)
    ensures indent + "namespace" + ": " == indent + "namespace: "
  {
  }

  lemma NoBraceIn(indent: nat)
    ensures '{' !in Spaces(indent) + "namespace: "
  {
  }

  lemma SubstituteField(a: string, n: string)
    requires '{' !in a
    ensures Substitute(a + Directive(), n) == a + n
  {
    hide Contains, Substitute, Directive;
    NoBraceNoAction(a);
    NoBraceNoAction("");
    SubstituteMiddle(a, "", n);
    assert a + Directive() + "" == a + Directive() && a + n + "" == a + n;
  }

  // ---------------------------------------------------------------- Webhook annotations

  /** The annotation that names the certificate of a webhook. */
  function CAInjection(): string {
    "cert-manager.io/inject-ca-from"
  }

  lemma CAInjectionIsRewritten()
    ensures CAInjection() == InjectCAFrom()
  {
  }

  /** The annotation line has a key and a value with a slash in it. */
  predicate Annotated(line: string) {
    && Contains(line, CAInjection())
    && |SplitN(line, ':', 2)| == 2
    && |SplitN(TrimSpace(SplitN(line, ':', 2)[1]), '/', 2)| == 2
  }

  /** The namespace stands in front of the slash, and the line is spaced canonically. */
  ghost predicate AnnotationCarries(line: string, n: string)
    requires Annotated(line)
  {
    var parts := SplitN(line, ':', 2);
    && SplitN(TrimSpace(parts[1]), '/', 2)[0] == n
    && line == IndentOf(line) + TrimSpace(parts[0]) + ": " + TrimSpace(parts[1])
  }

  ghost predicate WebhookCarries(line: string, n: string) {
    if Untemplated(line, "namespace:") then FieldCarries(line, n)
    else Annotated(line) ==> AnnotationCarries(line, n)
  }

  lemma TrimVisible(s: string)
    requires s != "" && !IsSpace(s[0]) && !IsSpace(s[|s| - 1])
    ensures TrimSpace(s) == s && TrimSpace(" " + s) == s
  {
    assert (" " + s)[1..] == s;
    assert TrimLeadingSpace(s) == s && TrimTrailingSpace(s) == s;
  }

  lemma AfterSlash(value: string, i: nat)
    requires i < |value| && value[i] == '/' && value != "" && !IsSpace(value[|value| - 1])
    ensures var rest := "/" + value[i + 1..]; !IsSpace(rest[|rest| - 1])
  {
    var rest := "/" + value[i + 1..];
    assert i + 1 < |value| ==> rest[|rest| - 1] == value[|value| - 1];
  }

  lemma AnnotationKey(line: string)
    requires |SplitN(line, ':', 2)| == 2 && '\n' !in line
    ensures var key := TrimSpace(SplitN(line, ':', 2)[0]);
            && ':' !in key && '\n' !in key && (!Contains(line, "{{") ==> !Contains(key, "{{"))
            && (key != "" ==> !IsSpace(key[0]) && !IsSpace(key[|key| - 1]))
    ensures '\n' !in SplitN(line, ':', 2)[1] && (!Contains(line, "{{") ==> !Contains(SplitN(line, ':', 2)[1], "{{"))
  {
    hide TrimSpace, Contains, SplitN;
    var i := IndexOf(line, ':');
    TwoParts(line, ':');
    TrimSpaceEnds(line[..i]);
    TrimSpaceChars(line[..i], ':');
    TrimSpaceChars(line[..i], '\n');
    assert line[..i] == line[0..i] && line[i + 1..] == line[i + 1..|line|];
    SliceTemplateFree(line, 0, i);
    TrimTemplateFree(line[..i]);
    SliceTemplateFree(line, i + 1, |line|);
  }

  lemma AnnotationValue(text: string)
    requires |SplitN(TrimSpace(text), '/', 2)| == 2 && '\n' !in text
    ensures var parts := SplitN(TrimSpace(text), '/', 2);
            && TrimSpace(text) == parts[0] + "/" + parts[1]
            && '/' !in parts[0] && '\n' !in parts[1] && (!Contains(text, "{{") ==> !Contains(parts[1], "{{"))
            && !IsSpace(("/" + parts[1])[|parts[1]|])
  {
    hide TrimSpace, Contains, SplitN;
    var value := TrimSpace(text);
    TrimTemplateFree(text);
    TrimSpaceEnds(text);
    TrimSpaceChars(text, '\n');
    var j := IndexOf(value, '/');
    TwoParts(value, '/');
    CutBack(value, '/');
    assert ['/'] == "/";
    AfterSlash(value, j);
    assert value[j + 1..] == value[j + 1..|value|];
    SliceTemplateFree(value, j + 1, |value|);
  }

  /** The line in parts: indent, key, and a value cut at its first slash. */
  lemma {:induction false} AnnotationParts(line: string) returns (key: string, before: string, after: string)
    requires Annotated(line) && '\n' !in line
    ensures key == TrimSpace(SplitN(line, ':', 2)[0]) && ':' !in key && '\n' !in key
    ensures !Contains(line, "{{") ==> !Contains(key, "{{") && !Contains(after, "{{")
    ensures key != "" ==> !IsSpace(key[0]) && !IsSpace(key[|key| - 1])
    ensures TrimSpace(SplitN(line, ':', 2)[1]) == before + "/" + after
    ensures SplitN(TrimSpace(SplitN(line, ':', 2)[1]), '/', 2) == [before, after]
    ensures '/' !in before && '\n' !in after && !IsSpace(("/" + after)[|after|])
    ensures AnnotationLine(line) == IndentOf(line) + key + ": " + Directive() + "/" + after
  {
    hide TrimSpace, IndentOf, Contains, Action, SplitN, IsSpace;
    CAInjectionIsRewritten();
    DirectiveIsWritten();
    var parts := SplitN(line, ':', 2);
    AnnotationKey(line);
    AnnotationValue(parts[1]);
    var value := SplitN(TrimSpace(parts[1]), '/', 2);
    key, before, after := TrimSpace(parts[0]), value[0], value[1];
  }

  lemma AnnotationComesBack(line: string, n: string)
    requires Annotated(line) && !Contains(line, "{{") && '\n' !in line && NamespaceName(n)
    ensures Substitute(AnnotationLine(line), n) == line <==> AnnotationCarries(line, n)
  {
    hide TrimSpace, IndentOf, Contains, Substitute, Directive, SplitN, AnnotationLine, Annotated;
    var key, before, after := AnnotationParts(line);
    var indent := IndentOf(line);
    var a, b := indent + key + ": ", "/" + after;
    IndentIsSpaces(line);
    KeyTemplateFree(indent, key);
    BracesAfterPlain("/", after);
    SubstituteMiddle(a, b, n);
    assert a + Directive() + b == indent + key + ": " + Directive() + "/" + after;
    assert a + n + b == indent + key + ": " + (n + "/" + after);
    if line == indent + key + ": " + (n + "/" + after) {
      ValueOfLine(line, indent, key, n, after);
      assert before + "/" + after == n + "/" + after;
      SplitAtSlash(n, after);
    }
  }

  lemma SplitAtSlash(n: string, after: string)
    requires '/' !in n
    ensures SplitN(n + "/" + after, '/', 2) == [n, after]
  {
    var s := n + "/" + after;
    assert s[..|n|] == n && s[|n| + 1..] == after && s[|n|] == '/';
    IndexOfAt(s, '/', |n|);
    TwoParts(s, '/');
  }

  lemma KeyTemplateFree(indent: string, key: string)
    requires '{' !in indent && !Contains(key, "{{")
    ensures !Contains(indent + key + ": ", "{{")
  {
    hide Contains;
    BracesBeforePlain(key, ": ");
    BracesAfterPlain(indent, key + ": ");
    assert indent + (key + ": ") == indent + key + ": ";
  }

  lemma {:induction false} BracesBeforePlain(a: string, b: string)
    requires '{' !in b && !Contains(a, "{{")
    ensures !Contains(a + b, "{{")
  {
    if a == "" {
      assert a + b == b;
      NoBraceNoAction(b);
    } else {
      BracesBeforePlain(a[1..], b);
      assert (a + b)[1..] == a[1..] + b;
      FreeStep(a);
      if |a| == 1 {
        assert b != "" ==> (a + b)[1] == b[0] && b[0] in b;
      } else {
        assert (a + b)[..2] == a[..2];
      }
    }
  }

  /** A line cut at its first colon. */
  lemma FieldParts(line: string, head: string, value: string)
    requires line == head + ": " + value && ':' !in head
    ensures SplitN(line, ':', 2) == [head, " " + value]
  {
    hide SplitN;
    var i := |head|;
    assert line[..i] == head && line[i] == ':' && line[i + 1..] == " " + value;
    IndexOfAt(line, ':', i);
    TwoParts(line, ':');
  }

  /** The value of a canonically spaced line. */
  lemma {:induction false} ValueOfLine(line: string, indent: string, key: string, n: string, after: string)
    requires line == indent + key + ": " + (n + "/" + after) && ':' !in indent && ':' !in key
    requires n != "" && !IsSpace(n[0]) && !IsSpace(("/" + after)[|after|])
    ensures |SplitN(line, ':', 2)| == 2 && TrimSpace(SplitN(line, ':', 2)[1]) == n + "/" + after
  {
    hide TrimSpace, SplitN, IsSpace;
    var value := n + "/" + after;
    FieldParts(line, indent + key, value);
    assert value[|value| - 1] == ("/" + after)[|after|];
    TrimVisible(value);
  }

  // ---------------------------------------------------------------- Webhooks

  lemma NoJ()
    ensures 'j' !in "namespace: " && 'j' !in Directive() && 'j' in InjectCAFrom()
  {
    CAInjectionIsRewritten();
    assert InjectCAFrom()[18] == 'j';
  }

  lemma NoAnnotationInNamespace(line: string)
    ensures !Contains(IndentOf(line) + "namespace: " + Directive(), InjectCAFrom())
  {
    hide Contains, IndentOf, Directive;
    IndentIsSpaces(line);
    var out := IndentOf(line) + "namespace: " + Directive();
    NoJ();
    assert 'j' !in out;
    if Contains(out, InjectCAFrom()) {
      ContainsChars(out, InjectCAFrom(), 'j');
    }
  }

  /** The line both webhook passes leave for a line. */
  function WebhookLine(line: string): string {
    AnnotationLine(LinesFor(SetNamespace(), line)[0])
  }

  lemma WebhookLines(lines: seq<string>)
    ensures var out := AnnotationLines(Apply(SetNamespace(), lines));
            |out| == |lines| && forall i | 0 <= i < |lines| :: out[i] == WebhookLine(lines[i])
  {
    hide AnnotationLine, LinesFor, Action;
    if lines != [] {
      SetValueAt(SetNamespace(), lines, 0);
    }
    forall i | 0 <= i < |lines|
      ensures AnnotationLines(Apply(SetNamespace(), lines))[i] == WebhookLine(lines[i])
    {
      SetValueAt(SetNamespace(), lines, i);
    }
  }

  lemma WebhookLineComesBack(line: string, n: string)
    requires !Contains(line, "{{") && '\n' !in line && NamespaceName(n)
    ensures Substitute(WebhookLine(line), n) == line <==> WebhookCarries(line, n)
  {
    hide TrimSpace, IndentOf, Contains, Substitute, Directive, SplitN;
    if Untemplated(line, "namespace:") {
      NamespaceLineComesBack(line, n);
      NoAnnotationInNamespace(line);
    } else {
      assert "namespace" + ":" == "namespace:";
      assert LinesFor(SetNamespace(), line) == [line];
      if Annotated(line) {
        AnnotationComesBack(line, n);
      } else {
        assert AnnotationLine(line) == line;
        NothingToSubstitute(line, n);
      }
    }
  }

  lemma WebhookLineOneLine(line: string)
    requires '\n' !in line
    ensures '\n' !in WebhookLine(line)
  {
    hide AnnotationLine, TrimSpace, IndentOf, Contains, SplitN;
    NamespaceRule();
    LinesForOneLine(SetNamespace(), line);
    var l := LinesFor(SetNamespace(), line)[0];
    assert l in LinesFor(SetNamespace(), line);
    AnnotationOneLine(l);
  }

  lemma AnnotationOneLine(line: string)
    requires '\n' !in line
    ensures '\n' !in AnnotationLine(line)
  {
    hide TrimSpace, IndentOf, Contains, SplitN, Action;
    ActionsOneLine();
    IndentOneLine(line);
    var parts := SplitN(line, ':', 2);
    SplitNOneLine(line, ':', 2);
    if |parts| == 2 {
      assert parts[0] in parts && parts[1] in parts;
      TrimSpaceChars(parts[0], '\n');
      TrimSpaceChars(parts[1], '\n');
      var valueParts := SplitN(TrimSpace(parts[1]), '/', 2);
      SplitNOneLine(TrimSpace(parts[1]), '/', 2);
      if |valueParts| == 2 {
        assert valueParts[1] in valueParts;
      }
    }
  }

  ghost predicate TemplateFree(raw: string) {
    forall line | line in LinesOf(raw) :: !Contains(line, "{{")
  }

  /**
   For template-free text: substituting the namespace into the webhook template gives the
   text back exactly when every `namespace:` line and every annotation the passes rewrite
   carries the namespace, canonically spaced.
   */
  lemma WebhookRoundTrip(raw: string, n: string)
    requires TemplateFree(raw) && NamespaceName(n)
    ensures Substitute(WebhookText(raw), n) == raw <==> forall line | line in LinesOf(raw) :: WebhookCarries(line, n)
  {
    hide Substitute, AnnotationLine, LinesFor, WebhookLine, WebhookCarries, Action, SetsField, Contains, NamespaceName;
    NamespaceRule();
    TextOfLines(raw);
    var lines := LinesOf(raw);
    PassOnText(SetNamespace(), lines);
    var named := Apply(SetNamespace(), lines);
    LinesOfText(named);
    WebhookLines(lines);
    var out := AnnotationLines(named);
    forall i | 0 <= i < |out|
      ensures '\n' !in out[i]
      ensures Substitute(out[i], n) == lines[i] <==> WebhookCarries(lines[i], n)
    {
      assert lines[i] in lines;
      NameIsOneLine(n);
      WebhookLineOneLine(lines[i]);
      WebhookLineComesBack(lines[i], n);
    }
    NameIsOneLine(n);
    LinesComeBack(raw, out, n);
    SetValueAt(SetNamespace(), lines, 0);
    assert raw == TextOf(lines);
    assert PassText(SetNamespace(), raw) == TextOf(named);
    assert LinesOf(PassText(SetNamespace(), raw)) == named;
    WebhookUnfolds(raw);
  }

  lemma WebhookUnfolds(raw: string)
    ensures WebhookText(raw) == TextOf(AnnotationLines(LinesOf(PassText(SetNamespace(), raw))))
  {
  }

  lemma NameIsOneLine(n: string)
    requires NamespaceName(n)
    ensures '\n' !in n
  {
  }

  // ---------------------------------------------------------------- Running the webhook passes again

  /** What an annotation line is rewritten to reads like an annotation line with the action as its namespace. */
  lemma RewrittenAnnotation(line: string, key: string, after: string)
    requires ':' !in key && '\n' !in key && '\n' !in after && !IsSpace(("/" + after)[|after|])
    requires key != "" ==> !IsSpace(key[0]) && !IsSpace(key[|key| - 1])
    ensures var out := IndentOf(line) + key + ": " + Directive() + "/" + after;
            && Contains(TrimSpace(out), "{{")
            && AnnotationLine(out) == out
  {
    hide TrimSpace, IndentOf, Contains, Directive, SplitN, AnnotationLine, IsSpace;
    var out := IndentOf(line) + key + ": " + Directive() + "/" + after;
    VisiblePart(line, key, after);
    RewrittenParts(line, key, after);
    AnnotationOf(out, key, after);
  }

  lemma RewrittenParts(line: string, key: string, after: string)
    requires ':' !in key && !IsSpace(("/" + after)[|after|])
    requires key != "" ==> !IsSpace(key[0]) && !IsSpace(key[|key| - 1])
    ensures var out := IndentOf(line) + key + ": " + Directive() + "/" + after;
            && |SplitN(out, ':', 2)| == 2 && TrimSpace(SplitN(out, ':', 2)[0]) == key
            && SplitN(TrimSpace(SplitN(out, ':', 2)[1]), '/', 2) == [Directive(), after]
  {
    hide TrimSpace, IndentOf, Directive, SplitN, IsSpace, Spaces;
    var indent := IndentOf(line);
    var out := indent + key + ": " + Directive() + "/" + after;
    DirectiveShape();
    IndentIsSpaces(line);
    NoColonInSpaces(|indent|);
    ValueGroups(indent + key + ": ", Directive(), after);
    ValueOfLine(out, indent, key, Directive(), after);
    SplitAtSlash(Directive(), after);
    FieldParts(out, indent + key, Directive() + "/" + after);
    TrimKey(|indent|, key);
  }

  lemma NoColonInSpaces(n: nat)
    ensures ':' !in Spaces(n)
  {
  }

  lemma ValueGroups(head: string, directive: string, after: string)
    ensures head + directive + "/" + after == head + (directive + "/" + after)
  {
  }

  lemma AnnotationOf(line: string, key: string, after: string)
    requires |SplitN(line, ':', 2)| == 2 && TrimSpace(SplitN(line, ':', 2)[0]) == key
    requires SplitN(TrimSpace(SplitN(line, ':', 2)[1]), '/', 2) == [Directive(), after]
    requires line == IndentOf(line) + key + ": " + Directive() + "/" + after
    ensures AnnotationLine(line) == line
  {
    hide TrimSpace, IndentOf, Contains, Action, SplitN;
    DirectiveIsWritten();
  }

  lemma TrimKey(n: nat, key: string)
    requires key != "" ==> !IsSpace(key[0]) && !IsSpace(key[|key| - 1])
    ensures TrimSpace(Spaces(n) + key) == key
  {
    hide TrimSpace;
    TrimIndented(n, key);
    if key != "" {
      TrimVisible(key);
    } else {
      assert TrimSpace("") == "" by { TrimNothing(); }
    }
  }

  lemma TrimNothing()
    ensures TrimSpace("") == ""
  {
  }

  lemma VisiblePart(line: string, key: string, after: string)
    requires '\n' !in key && '\n' !in after && !IsSpace(("/" + after)[|after|])
    requires key != "" ==> !IsSpace(key[0]) && !IsSpace(key[|key| - 1])
    ensures var text := key + ": " + Directive() + "/" + after;
            var out := IndentOf(line) + key + ": " + Directive() + "/" + after;
            && TrimSpace(out) == text && IndentOf(out) == IndentOf(line) && Contains(text, "{{")
  {
    hide TrimSpace, IndentOf, Contains, Directive;
    DirectiveShape();
    var text := key + ": " + Directive() + "/" + after;
    assert text[0] == if key == "" then ':' else key[0];
    assert text[|text| - 1] == ("/" + after)[|after|];
    assert Clean(text);
    assert IndentOf(line) + text == IndentOf(line) + key + ": " + Directive() + "/" + after;
    IndentedLine(line, text);
    TwoBraces(Directive());
    ContainsStart(Directive(), "{{");
    ContainsRight(key + ": ", Directive(), "{{");
    ContainsLeft(key + ": " + Directive(), "/" + after, "{{");
    assert key + ": " + Directive() + ("/" + after) == text;
  }

  lemma ContainsStart(s: string, sub: string)
    requires sub <= s
    ensures Contains(s, sub)
  {
  }

  lemma WebhookLineSettles(line: string)
    requires '\n' !in line
    ensures WebhookLine(WebhookLine(line)) == WebhookLine(line)
  {
    hide TrimSpace, IndentOf, Contains, Directive, SplitN, Action, AnnotationLine, Annotated;
    NamespaceLineShape(line);
    var named := LinesFor(SetNamespace(), line)[0];
    NamespaceRule();
    LinesForOneLine(SetNamespace(), line);
    assert named in LinesFor(SetNamespace(), line);
    var out := AnnotationLine(named);
    assert "namespace" + ":" == "namespace:";
    if Annotated(named) {
      var key, before, after := AnnotationParts(named);
      RewrittenAnnotation(named, key, after);
      assert LinesFor(SetNamespace(), out) == [out];
    } else {
      NotAnnotated(named);
      assert LinesFor(SetNamespace(), named) == [named];
    }
  }

  lemma NotAnnotated(line: string)
    requires !Annotated(line)
    ensures AnnotationLine(line) == line
  {
    CAInjectionIsRewritten();
  }

  /** Running the webhook passes again changes nothing, on every string. */
  lemma WebhookIdempotent(raw: string)
    ensures WebhookText(WebhookText(raw)) == WebhookText(raw)
  {
    hide AnnotationLine, LinesFor, WebhookLine, Action, SetsField, WebhookText;
    TextOfLines(raw);
    var lines := LinesOf(raw);
    var out := AnnotationLines(Apply(SetNamespace(), lines));
    WebhookOnLines(lines);
    WebhookLines(lines);
    forall i | 0 <= i < |out|
      ensures '\n' !in out[i] && WebhookLine(out[i]) == out[i]
    {
      assert lines[i] in lines;
      WebhookLineOneLine(lines[i]);
      WebhookLineSettles(lines[i]);
    }
    WebhookOnLines(out);
    WebhookLines(out);
    assert AnnotationLines(Apply(SetNamespace(), out)) == out;
  }

  lemma WebhookOnLines(lines: seq<string>)
    requires lines != [] && OneLineEach(lines)
    ensures WebhookText(TextOf(lines)) == TextOf(AnnotationLines(Apply(SetNamespace(), lines)))
  {
    hide AnnotationLine, LinesFor, Action, SetsField, Apply;
    NamespaceRule();
    PassOnText(SetNamespace(), lines);
    SetValueAt(SetNamespace(), lines, 0);
    LinesOfText(Apply(SetNamespace(), lines));
  }

  // ---------------------------------------------------------------- Certificates

  /** A list item with at least three segments, in a cluster domain. */
  predicate DNSEntry(line: string) {
    && HasPrefix(TrimSpace(line), "- ") && Contains(TrimSpace(line), ".svc")
    && |SplitN(TrimSpace(line)[2..], '.', 3)| >= 3
  }

  /** The second segment is the namespace, and nothing but spaces surrounds the entry. */
  ghost predicate DNSCarries(line: string, n: string)
    requires DNSEntry(line)
  {
    SplitN(TrimSpace(line)[2..], '.', 3)[1] == n && line == IndentOf(line) + TrimSpace(line)
  }

  /** A string cut at its first separator. */
  lemma CutAtFirst(s: string, sep: char)
    requires IndexOf(s, sep) < |s|
    ensures var i := IndexOf(s, sep);
            && s == s[..i] + [sep] + s[i + 1..] && sep !in s[..i]
            && (!Contains(s, "{{") ==> !Contains(s[..i], "{{") && !Contains(s[i + 1..], "{{"))
  {
    hide Contains;
    var i := IndexOf(s, sep);
    assert s[..i] == s[0..i] && s[i + 1..] == s[i + 1..|s|];
    SliceTemplateFree(s, 0, i);
    SliceTemplateFree(s, i + 1, |s|);
  }

  lemma ThreeSegments(entry: string)
    requires |SplitN(entry, '.', 3)| >= 3
    ensures var parts := SplitN(entry, '.', 3);
            && |parts| == 3 && '.' !in parts[0] && '.' !in parts[1]
            && entry == parts[0] + "." + parts[1] + "." + parts[2]
            && (!Contains(entry, "{{") ==> !Contains(parts[0], "{{") && !Contains(parts[2], "{{"))
  {
    hide Contains, SplitN, IndexOf;
    ThreeParts(entry, '.');
    var rest := entry[IndexOf(entry, '.') + 1..];
    CutAtFirst(entry, '.');
    CutAtFirst(rest, '.');
    var parts := SplitN(entry, '.', 3);
    assert ['.'] == ".";
    assert entry == parts[0] + "." + rest && rest == parts[1] + "." + parts[2];
    Reassociate(parts[0], parts[1], parts[2]);
  }

  lemma Reassociate(a: string, b: string, c: string)
    ensures a + "." + (b + "." + c) == a + "." + b + "." + c
  {
  }

  lemma {:induction false} DNSParts(line: string) returns (a: string, b: string, c: string)
    requires DNSEntry(line)
    ensures SplitN(TrimSpace(line)[2..], '.', 3) == [a, b, c]
    ensures TrimSpace(line) == "- " + (a + "." + b + "." + c) && '.' !in a && '.' !in b
    ensures !Contains(line, "{{") ==> !Contains(a, "{{") && !Contains(c, "{{")
    ensures !IsSpace(("." + c)[|c|])
    ensures DNSNameLine(line) == IndentOf(line) + "- " + a + "." + Directive() + "." + c
  {
    hide TrimSpace, IndentOf, Contains, SplitN, Action;
    DirectiveIsWritten();
    var trimmed := TrimSpace(line);
    var entry := trimmed[2..];
    TrimTemplateFree(line);
    TrimSpaceEnds(line);
    assert entry == trimmed[2..|trimmed|] && trimmed == "- " + entry;
    SliceTemplateFree(trimmed, 2, |trimmed|);
    ThreeSegments(entry);
    var parts := SplitN(entry, '.', 3);
    a, b, c := parts[0], parts[1], parts[2];
    assert trimmed[|trimmed| - 1] == entry[|entry| - 1] == ("." + c)[|c|];
  }

  lemma DNSComesBack(line: string, n: string)
    requires DNSEntry(line) && !Contains(line, "{{") && NamespaceName(n)
    ensures Substitute(DNSNameLine(line), n) == line <==> DNSCarries(line, n)
  {
    hide TrimSpace, IndentOf, Contains, Substitute, Directive, SplitN, DNSNameLine, DNSEntry, IsSpace;
    var a, b, c := DNSParts(line);
    var indent := IndentOf(line);
    IndentIsSpaces(line);
    DNSSubstituted(indent, a, c, n);
    var text := "- " + (a + "." + n + "." + c);
    if line == indent + text {
      TextOfEntry(indent, a, n, c);
      SameMiddle("- " + a + ".", b, n, "." + c);
      Middle(a, n, c);
      Middle(a, b, c);
    }
  }

  lemma Middle(a: string, n: string, c: string)
    ensures "- " + (a + "." + n + "." + c) == "- " + a + "." + n + ("." + c)
  {
  }

  lemma DNSSubstituted(indent: string, a: string, c: string, n: string)
    requires '{' !in indent && !Contains(a, "{{") && !Contains(c, "{{")
    ensures Substitute(indent + "- " + a + "." + Directive() + "." + c, n) == indent + ("- " + (a + "." + n + "." + c))
  {
    hide Contains, Substitute, Directive;
    var before, after := indent + "- " + a + ".", "." + c;
    BracesAfterPlain(indent + "- ", a);
    BracesBeforePlain(indent + "- " + a, ".");
    BracesAfterPlain(".", c);
    SubstituteMiddle(before, after, n);
    assert before + Directive() + after == indent + "- " + a + "." + Directive() + "." + c;
    assert before + n + after == indent + ("- " + (a + "." + n + "." + c));
  }

  lemma SameMiddle(a: string, b: string, b': string, c: string)
    ensures a + b + c == a + b' + c ==> b == b'
  {
    var s, s' := a + b + c, a + b' + c;
    assert s[|a|..|s| - |c|] == b && s'[|a|..|s'| - |c|] == b';
  }

  lemma TextOfEntry(indent: string, a: string, n: string, c: string)
    requires !IsSpace(("." + c)[|c|]) && indent == Spaces(|indent|)
    ensures TrimSpace(indent + ("- " + (a + "." + n + "." + c))) == "- " + (a + "." + n + "." + c)
  {
    hide TrimSpace;
    var text := "- " + (a + "." + n + "." + c);
    assert text[0] == '-' && text[|text| - 1] == ("." + c)[|c|];
    TrimIndented(|indent|, text);
    TrimVisible(text);
  }

  /** A `dnsNames:` line at `j`, with nothing but list items and blank lines behind it up to line `k`. */
  ghost predicate DNSNamesSince(lines: seq<string>, j: nat, k: nat)
    requires k < |lines|
  {
    && j <= k && TrimSpace(lines[j]) == "dnsNames:"
    && forall m | j < m <= k :: TrimSpace(lines[m]) == "" || HasPrefix(TrimSpace(lines[m]), "-")
  }

  lemma InDNSNames(lines: seq<string>, k: nat)
    requires k < |lines|
    ensures InsideAfter(DNSNames(), lines[..k + 1], false) <==> exists j: nat :: DNSNamesSince(lines, j, k)
  {
    hide TrimSpace, InsideAfter;
    InsideMeaning(DNSNames(), lines, k);
    forall j: nat
      ensures OpenSince(DNSNames(), lines, j, k) <==> DNSNamesSince(lines, j, k)
    {
    }
  }

  ghost predicate CertificateCarries(lines: seq<string>, k: nat, n: string)
    requires k < |lines|
  {
    if Untemplated(lines[k], "namespace:") then FieldCarries(lines[k], n)
    else (exists j: nat :: DNSNamesSince(lines, j, k)) && DNSEntry(lines[k]) ==> DNSCarries(lines[k], n)
  }

  lemma {:induction false} SameBorders(s: Section, a: seq<string>, b: seq<string>, inside: bool)
    requires |a| == |b|
    requires forall i | 0 <= i < |a| :: s.opens(a[i]) == s.opens(b[i]) && s.closes(a[i]) == s.closes(b[i])
    ensures InsideAfter(s, a, inside) == InsideAfter(s, b, inside)
  {
    if a != [] {
      SameBorders(s, a[1..], b[1..], Inside(s, a[0], inside));
    }
  }

  lemma NamespaceLineBorders(line: string)
    ensures var out := LinesFor(SetNamespace(), line)[0];
            && OpensDNSNames(out) == OpensDNSNames(line) && ClosesDNSNames(out) == ClosesDNSNames(line)
            && (Untemplated(line, "namespace:") ==> !DNSEntry(out) && !OpensDNSNames(out))
  {
    hide TrimSpace, IndentOf, Contains, Action, SetsField;
    NamespaceRule();
    assert "namespace" + ":" == "namespace:";
    if Untemplated(line, "namespace:") {
      SetLineShape(SetNamespace(), line);
      assert TrimSpace(LinesFor(SetNamespace(), line)[0])[0] == 'n';
      assert "dnsNames:"[0] == 'd';
    }
  }

  lemma NotEntry(line: string)
    requires !DNSEntry(line)
    ensures DNSNameLine(line) == line
  {
  }

  /** What the certificate passes leave at a line. */
  lemma CertificateLine(lines: seq<string>, k: nat)
    requires k < |lines|
    ensures var out := SectionPass(DNSNames(), Apply(SetNamespace(), lines), false);
            && |out| == |lines|
            && out[k] == if Untemplated(lines[k], "namespace:") then IndentOf(lines[k]) + "namespace: " + Directive()
                         else if InsideAfter(DNSNames(), lines[..k + 1], false) && DNSEntry(lines[k]) then DNSNameLine(lines[k])
                         else lines[k]
  {
    hide TrimSpace, IndentOf, Contains, Action, DNSNameLine, DNSEntry, OpensDNSNames, ClosesDNSNames, SectionPass, InsideAfter;
    DirectiveIsWritten();
    var named := Apply(SetNamespace(), lines);
    SetValueAt(SetNamespace(), lines, k);
    DNSNamesAt(named, k);
    var before, after := named[..k + 1], lines[..k + 1];
    forall i | 0 <= i < k + 1
      ensures OpensDNSNames(before[i]) == OpensDNSNames(after[i]) && ClosesDNSNames(before[i]) == ClosesDNSNames(after[i])
    {
      SetValueAt(SetNamespace(), lines, i);
      NamespaceLineBorders(lines[i]);
    }
    SameBorders(DNSNames(), before, after, false);
    NamespaceLineBorders(lines[k]);
    assert "namespace" + ":" == "namespace:";
    assert IndentOf(lines[k]) + "namespace" + ": " + Directive() == IndentOf(lines[k]) + "namespace: " + Directive();
    if !DNSEntry(named[k]) {
      NotEntry(named[k]);
    }
  }

  lemma CertificateLineComesBack(lines: seq<string>, k: nat, n: string)
    requires k < |lines| && !Contains(lines[k], "{{") && '\n' !in lines[k] && NamespaceName(n)
    ensures var out := SectionPass(DNSNames(), Apply(SetNamespace(), lines), false);
            && |out| == |lines|
            && '\n' !in out[k]
            && (Substitute(out[k], n) == lines[k] <==> CertificateCarries(lines, k, n))
  {
    hide TrimSpace, IndentOf, Contains, Directive, DNSNameLine, DNSEntry, SectionPass, InsideAfter, Apply, Substitute, Plainly;
    hide NamespaceName, DNSNamesSince;
    var line := lines[k];
    InDNSNames(lines, k);
    CertificateLine(lines, k);
    DirectiveShape();
    IndentOneLine(line);
    if Untemplated(line, "namespace:") {
      NamespaceLineComesBack(line, n);
    } else if InsideAfter(DNSNames(), lines[..k + 1], false) && DNSEntry(line) {
      DNSComesBack(line, n);
      DNSLineOneLine(line);
    } else {
      NothingToSubstitute(line, n);
    }
  }

  lemma DNSLineOneLine(line: string)
    requires '\n' !in line && DNSEntry(line)
    ensures '\n' !in DNSNameLine(line)
  {
    hide TrimSpace, IndentOf, Contains, Directive, SplitN, DNSEntry, IsSpace;
    var a, b, c := DNSParts(line);
    TrimSpaceChars(line, '\n');
    IndentOneLine(line);
    DirectiveShape();
    assert '\n' !in "- " + (a + "." + b + "." + c);
  }

  /**
   For template-free text: substituting the namespace into the certificate template gives the
   text back exactly when every `namespace:` line and every DNS name the passes rewrite
   carries the namespace, canonically spaced.
   */
  lemma CertificateRoundTrip(raw: string, n: string)
    requires TemplateFree(raw) && NamespaceName(n)
    ensures Substitute(CertificateText(raw), n) == raw
            <==> forall k: nat | k < |LinesOf(raw)| :: CertificateCarries(LinesOf(raw), k, n)
  {
    hide Substitute, LinesFor, CertificateCarries, Action, SetsField, Contains, NamespaceName, SectionPass, Apply;
    NamespaceRule();
    TextOfLines(raw);
    var lines := LinesOf(raw);
    PassOnText(SetNamespace(), lines);
    var named := Apply(SetNamespace(), lines);
    SetValueAt(SetNamespace(), lines, 0);
    LinesOfText(named);
    var out := SectionPass(DNSNames(), named, false);
    forall k: nat | k < |lines|
      ensures |out| == |lines| && '\n' !in out[k]
      ensures Substitute(out[k], n) == lines[k] <==> CertificateCarries(lines, k, n)
    {
      assert lines[k] in lines;
      CertificateLineComesBack(lines, k, n);
    }
    CertificateLineComesBack(lines, 0, n);
    NameIsOneLine(n);
    LinesComeBack(raw, out, n);
    assert CertificateText(raw) == TextOf(out);
  }
}
