/**
 The passes that work inside a section: what the section state means, and what running
 such a pass again does.  All laws hold on every string.
 */
module SectionLaws {
  import opened GoStrings
  import opened LinePasses
  import opened PassLaws

  // ---------------------------------------------------------------- The section state, declaratively

  /** Line `k` lies in a section opened at line `j`: nothing from behind `j` up to `k` itself closes it. */
  ghost predicate OpenSince(s: Section, lines: seq<string>, j: nat, k: nat)
    requires k < |lines|
  {
    && j <= k && s.opens(lines[j])
    && forall m | j < m <= k :: !s.closes(lines[m])
  }

  lemma {:induction false} InsideMeaning(s: Section, lines: seq<string>, k: nat)
    requires k < |lines|
    ensures InsideAfter(s, lines[..k + 1], false) <==> exists j: nat :: OpenSince(s, lines, j, k)
    decreases k
  {
    InsideSnoc(s, lines, k);
    if s.opens(lines[k]) {
      assert OpenSince(s, lines, k, k);
    } else if k > 0 {
      InsideMeaning(s, lines, k - 1);
      if InsideAfter(s, lines[..k], false) && !s.closes(lines[k]) {
        var j: nat :| OpenSince(s, lines, j, k - 1);
        assert OpenSince(s, lines, j, k);
      }
      forall j: nat | OpenSince(s, lines, j, k)
        ensures OpenSince(s, lines, j, k - 1) && !s.closes(lines[k])
      {
      }
    }
  }

  lemma NameLineOpensNothing(line: string)
    requires Untemplated(line, "name:")
    ensures !OpensSubjects(line)
  {
    assert "name:"[0] != "subjects:"[0];
  }

  /** Indented by a space or a tab, or blank: such a line never ends a section. */
  predicate Indented(line: string) {
    HasPrefix(line, " ") || HasPrefix(line, "\t") || TrimSpace(line) == ""
  }

  /** A `subjects:` line at `j`, with nothing but indented lines and list items behind it up to line `k`. */
  ghost predicate SubjectsSince(lines: seq<string>, j: nat, k: nat)
    requires k < |lines|
  {
    && j <= k && TrimSpace(lines[j]) == "subjects:"
    && forall m | j < m <= k :: Indented(lines[m]) || HasPrefix(TrimSpace(lines[m]), "-")
  }

  lemma SubjectsOpen(lines: seq<string>, j: nat, k: nat)
    requires k < |lines|
    ensures OpenSince(SubjectsName(), lines, j, k) <==> SubjectsSince(lines, j, k)
  {
    hide TrimSpace;
  }

  /**
   `replaceSubjectsServiceAccount` on every list of lines: a line is rewritten exactly when
   it is an untemplated `name:` line and some earlier line trims to `subjects:` with no line
   at the margin in between or at the line itself, list items excepted.
   */
  lemma SubjectsNameMeaning(lines: seq<string>, k: nat)
    requires k < |lines|
    ensures |SectionPass(SubjectsName(), lines, false)| == |lines|
    ensures var rewritten := HasPrefix(TrimSpace(lines[k]), "name:") && !Contains(TrimSpace(lines[k]), "{{")
              && exists j: nat | j < k :: SubjectsSince(lines, j, k);
            SectionPass(SubjectsName(), lines, false)[k]
              == if rewritten then IndentOf(lines[k]) + "name: " + Action(AccountExpression()) else lines[k]
  {
    hide IndentOf, TrimSpace, Contains, Action, SectionPass, OpensSubjects, ClosesSubjects, SubjectsSince;
    SubjectsNameAt(lines, k);
    InsideMeaning(SubjectsName(), lines, k);
    forall j: nat { SubjectsOpen(lines, j, k); }
    if Untemplated(lines[k], "name:") {
      NameLineOpensNothing(lines[k]);
      forall j: nat | OpenSince(SubjectsName(), lines, j, k)
        ensures j < k
      {
      }
    }
  }

  // ---------------------------------------------------------------- The account pass, line by line

  /** A `metadata:` line at `j`, with nothing but indented lines behind it up to line `k`. */
  ghost predicate MetadataSince(lines: seq<string>, j: nat, k: nat)
    requires k < |lines|
  {
    j <= k && TrimSpace(lines[j]) == "metadata:" && forall m | j < m <= k :: Indented(lines[m])
  }

  ghost predicate InMetadata(lines: seq<string>, k: nat)
    requires k < |lines|
  {
    exists j: nat :: MetadataSince(lines, j, k)
  }

  lemma InMetadataMeaning(originalName: string, lines: seq<string>, k: nat)
    requires k < |lines|
    ensures InsideAfter(AccountMetadata(originalName), lines[..k + 1], false) <==> InMetadata(lines, k)
  {
    hide TrimSpace, InsideAfter;
    InsideMeaning(AccountMetadata(originalName), lines, k);
    forall j: nat
      ensures OpenSince(AccountMetadata(originalName), lines, j, k) <==> MetadataSince(lines, j, k)
    {
    }
  }

  /** What stands in the place of one line: a name that mentions the original one becomes that of the account, with annotations. */
  ghost function AccountBlock(originalName: string, lines: seq<string>, k: nat): seq<string>
    requires k < |lines|
  {
    var trimmed, indent := TrimSpace(lines[k]), IndentOf(lines[k]);
    if InMetadata(lines, k) && HasPrefix(trimmed, "name:") && Contains(trimmed, originalName) then
      [indent + "name: " + Action(AccountExpression()), indent + WithAnnotations(), indent + "annotations:",
       indent + "  " + AnnotationsDirective(|indent| + 2), indent + EndDirective()]
    else [lines[k]]
  }

  /** The blocks of the first `n` lines, one after the other. */
  ghost function AccountBlocks(originalName: string, lines: seq<string>, n: nat): seq<string>
    requires n <= |lines|
  {
    if n == 0 then [] else AccountBlocks(originalName, lines, n - 1) + AccountBlock(originalName, lines, n - 1)
  }

  lemma {:induction false} AccountUpTo(originalName: string, lines: seq<string>, n: nat)
    requires n <= |lines|
    ensures SectionPass(AccountMetadata(originalName), lines[..n], false) == AccountBlocks(originalName, lines, n)
  {
    hide TrimSpace, IndentOf, Contains, Action, AnnotationsDirective, InsideAfter, InMetadata, SectionPass;
    var s := AccountMetadata(originalName);
    if n == 0 {
      NothingPassed(s, lines);
    } else {
      AccountUpTo(originalName, lines, n - 1);
      SectionSnoc(s, lines, n - 1);
      InMetadataMeaning(originalName, lines, n - 1);
    }
  }

  lemma NothingPassed(s: Section, lines: seq<string>)
    ensures SectionPass(s, lines[..0], false) == []
  {
  }

  /** `replaceServiceAccountMetadata` on every list of lines. */
  lemma AccountPassMeaning(originalName: string, lines: seq<string>)
    ensures SectionPass(AccountMetadata(originalName), lines, false) == AccountBlocks(originalName, lines, |lines|)
  {
    hide SectionPass, AccountBlocks;
    AccountUpTo(originalName, lines, |lines|);
    assert lines[..|lines|] == lines;
  }

  // ---------------------------------------------------------------- Running a section pass again

  /** A rewriting of single lines that can be repeated and does not move section borders outwards. */
  ghost predicate Settles(s: Section, rewrite: string -> string, line: string) {
    && s.rewrite(line) == [rewrite(line)]
    && rewrite(rewrite(line)) == rewrite(line)
    && (s.opens(rewrite(line)) ==> s.opens(line))
    && (s.closes(line) ==> s.closes(rewrite(line)))
  }

  lemma {:induction false} SectionTwice(
      s: Section, rewrite: string -> string, lines: seq<string>, first: bool, second: bool)
    requires forall line :: Settles(s, rewrite, line)
    requires second ==> first
    ensures SectionPass(s, SectionPass(s, lines, first), second) == SectionPass(s, lines, first)
  {
    if lines != [] {
      var line := lines[0];
      var now := Inside(s, line, first);
      assert Settles(s, rewrite, line);
      var out := if now then rewrite(line) else line;
      assert Settles(s, rewrite, out);
      var again := Inside(s, out, second);
      assert again ==> now;
      SectionTwice(s, rewrite, lines[1..], now, again);
      assert SectionPass(s, lines, first) == [out] + SectionPass(s, lines[1..], now);
      assert ([out] + SectionPass(s, lines[1..], now))[1..] == SectionPass(s, lines[1..], now);
    }
  }

  lemma FieldLine(line: string, field: string, value: string)
    requires Clean(field) && Clean(value)
    ensures var l := IndentOf(line) + field + " " + value;
            TrimSpace(l) == field + " " + value && IndentOf(l) == IndentOf(line)
  {
    hide TrimSpace, IndentOf;
    var text := field + " " + value;
    assert IndentOf(line) + field + " " + value == IndentOf(line) + text;
    IndentedLine(line, text);
  }

  lemma AccountActionClean()
    ensures Clean(Action(AccountExpression())) && Contains(Action(AccountExpression()), "{{")
  {
    hide Contains, Action;
    AccountNameOneLine();
    ActionShape(AccountExpression());
  }

  lemma MarginHasNoIndent(line: string)
    requires AtMargin(line)
    ensures IndentOf(line) == ""
  {
  }

  lemma SubjectNameLineShape(line: string)
    requires Untemplated(line, "name:")
    ensures var out := SubjectNameLine(line);
            && TrimSpace(out) == "name: " + Action(AccountExpression())
            && Contains(TrimSpace(out), "{{")
            && (AtMargin(line) ==> AtMargin(out))
  {
    hide TrimSpace, IndentOf, Contains, Action;
    AccountActionClean();
    FieldLine(line, "name:", Action(AccountExpression()));
    assert "name: " + Action(AccountExpression()) == "name:" + " " + Action(AccountExpression());
    assert IndentOf(line) + "name: " + Action(AccountExpression()) == IndentOf(line) + "name:" + " " + Action(AccountExpression());
    ContainsRight("name: ", Action(AccountExpression()), "{{");
    if AtMargin(line) {
      MarginHasNoIndent(line);
      assert SubjectNameLine(line)[0] == 'n';
    }
  }

  lemma SubjectNameSettles(line: string)
    ensures Settles(SubjectsName(), SubjectNameLine, line)
  {
    hide TrimSpace, IndentOf, Contains, Action;
    if Untemplated(line, "name:") {
      SubjectNameLineShape(line);
      assert TrimSpace(SubjectNameLine(line))[0] == 'n';
    }
  }

  /** Rewriting the subjects' names again changes nothing, on every string. */
  lemma SubjectsNameIdempotent(raw: string)
    ensures SectionText(SubjectsName(), SectionText(SubjectsName(), raw)) == SectionText(SubjectsName(), raw)
  {
    hide TrimSpace, IndentOf, Contains, Action, Settles;
    TextOfLines(raw);
    var lines := LinesOf(raw);
    var out := SectionPass(SubjectsName(), lines, false);
    forall line {
      SubjectNameSettles(line);
    }
    SectionTwice(SubjectsName(), SubjectNameLine, lines, false, false);
    SubjectsNameOneLine(lines);
    LinesOfText(out);
  }

  lemma SubjectNameLineOneLine(line: string)
    requires '\n' !in line
    ensures '\n' !in SubjectNameLine(line)
  {
    hide TrimSpace, IndentOf, Contains, Action;
    IndentOneLine(line);
    AccountActionClean();
  }

  lemma SubjectsNameOneLine(lines: seq<string>)
    requires lines != [] && OneLineEach(lines)
    ensures var out := SectionPass(SubjectsName(), lines, false);
            out != [] && OneLineEach(out)
  {
    hide SubjectNameLine;
    var out := SectionPass(SubjectsName(), lines, false);
    SubjectsNameAt(lines, 0);
    forall k | 0 <= k < |out|
      ensures '\n' !in out[k]
    {
      SubjectsNameAt(lines, k);
      SubjectNameLineOneLine(lines[k]);
    }
  }

  // ---------------------------------------------------------------- Namespaces of subjects

  lemma NamespaceLineShape(line: string)
    ensures !Untemplated(LinesFor(SetNamespace(), line)[0], "namespace:")
    ensures LinesFor(SetNamespace(), line) == [LinesFor(SetNamespace(), line)[0]]
  {
    hide TrimSpace, IndentOf, Contains, Action, SetsField;
    NamespaceRule();
    var out := LinesFor(SetNamespace(), line)[0];
    assert "namespace" + ":" == "namespace:";
    SetLineIdempotent(SetNamespace(), line);
    if Untemplated(line, "namespace:") {
      SetLineShape(SetNamespace(), line);
      ActionShape(ReleaseNamespace());
      ContainsRight("namespace: ", Action(ReleaseNamespace()), "{{");
      assert "namespace" + ": " == "namespace: ";
    }
  }

  lemma {:induction false} SubjectsNamespaceAfterNamespace(lines: seq<string>, inside: bool)
    ensures SectionPass(SubjectsNamespace(), Apply(SetNamespace(), lines), inside) == Apply(SetNamespace(), lines)
  {
    hide TrimSpace, IndentOf, Contains, Action;
    if lines != [] {
      NamespaceLineShape(lines[0]);
      var out := LinesFor(SetNamespace(), lines[0])[0];
      var rest := Apply(SetNamespace(), lines[1..]);
      assert Apply(SetNamespace(), lines) == [out] + rest;
      assert ([out] + rest)[1..] == rest;
      SubjectsNamespaceAfterNamespace(lines[1..], Inside(SubjectsNamespace(), out, inside));
    }
  }

  /** In a binding every namespace is set before `replaceSubjectsNamespace` runs, which then changes nothing. */
  lemma SubjectsNamespaceIsIdentity(raw: string)
    ensures SectionText(SubjectsNamespace(), PassText(SetNamespace(), raw)) == PassText(SetNamespace(), raw)
  {
    hide TrimSpace, IndentOf, Contains, Action, SetsField;
    NamespaceRule();
    TextOfLines(raw);
    PassOnText(SetNamespace(), LinesOf(raw));
    SetValueAt(SetNamespace(), LinesOf(raw), 0);
    LinesOfText(Apply(SetNamespace(), LinesOf(raw)));
    SubjectsNamespaceAfterNamespace(LinesOf(raw), false);
  }
}
