/**
 The parts of Go's `strings` package the chart compiler and the version parser are
 written with.  A Go string is modelled as a sequence of characters.
 */
module GoStrings {

  /** `unicode.IsSpace`. */
  predicate IsSpace(c: char) {
    || '\t' <= c <= '\r'
    || c == ' '
    || c == '\U{0085}' || c == '\U{00A0}' || c == '\U{1680}'
    || '\U{2000}' <= c <= '\U{200A}'
    || c == '\U{2028}' || c == '\U{2029}' || c == '\U{202F}' || c == '\U{205F}' || c == '\U{3000}'
  }

  predicate HasPrefix(s: string, prefix: string) {
    prefix <= s
  }

  predicate Contains(s: string, sub: string) {
    sub <= s || (s != "" && Contains(s[1..], sub))
  }

  /** The first position of `c`, or the length of `s` when there is none. */
  function IndexOf(s: string, c: char): (i: nat)
    ensures i <= |s|
    ensures i < |s| ==> s[i] == c
    ensures c !in s[..i]
  {
    if s == "" || s[0] == c then 0
    else
      var i := 1 + IndexOf(s[1..], c);
      assert s[..i] == [s[0]] + s[1..][..i - 1];
      i
  }

  function Split(s: string, sep: char): (parts: seq<string>)
    ensures parts != []
  {
    if s == "" then [""]
    else
      var rest := Split(s[1..], sep);
      if s[0] == sep then [""] + rest else [[s[0]] + rest[0]] + rest[1..]
  }

  /** `strings.SplitN`, for a positive limit. */
  function SplitN(s: string, sep: char, n: nat): (parts: seq<string>)
    requires n > 0
    ensures 0 < |parts| <= n
    decreases n
  {
    var i := IndexOf(s, sep);
    if n == 1 || i == |s| then [s] else [s[..i]] + SplitN(s[i + 1..], sep, n - 1)
  }

  function Join(parts: seq<string>, sep: string): string {
    if |parts| == 0 then ""
    else if |parts| == 1 then parts[0]
    else parts[0] + sep + Join(parts[1..], sep)
  }

  /** `strings.TrimLeft(s, " ")`. */
  function TrimLeftSpaces(s: string): (t: string)
    ensures |t| <= |s|
  {
    if s != "" && s[0] == ' ' then TrimLeftSpaces(s[1..]) else s
  }

  function TrimLeadingSpace(s: string): string {
    if s != "" && IsSpace(s[0]) then TrimLeadingSpace(s[1..]) else s
  }

  function TrimTrailingSpace(s: string): string {
    if s != "" && IsSpace(s[|s| - 1]) then TrimTrailingSpace(s[..|s| - 1]) else s
  }

  function TrimSpace(s: string): string {
    TrimTrailingSpace(TrimLeadingSpace(s))
  }

  /** The text every line pass computes as `line[:len(line)-len(strings.TrimLeft(line, " "))]`. */
  function IndentOf(line: string): string {
    line[..|line| - |TrimLeftSpaces(line)|]
  }

  function Spaces(n: nat): (s: string)
    ensures |s| == n
  {
    seq(n, i => ' ')
  }

  /** Non-empty, on one line, and not changed by `TrimSpace`. */
  predicate Clean(s: string) {
    s != "" && !IsSpace(s[0]) && !IsSpace(s[|s| - 1]) && '\n' !in s
  }

  // ---------------------------------------------------------------- Split and Join

  lemma {:induction false} JoinSplit(s: string, c: char)
    ensures Join(Split(s, c), [c]) == s
  {
    if s != "" {
      JoinSplit(s[1..], c);
      var rest := Split(s[1..], c);
      if s[0] == c {
        assert ([""] + rest)[1..] == rest;
      } else if |rest| > 1 {
        assert ([[s[0]] + rest[0]] + rest[1..])[1..] == rest[1..];
      }
    }
  }

  lemma {:induction false} SplitPartsFree(s: string, c: char)
    ensures forall p | p in Split(s, c) :: c !in p
  {
    if s != "" {
      SplitPartsFree(s[1..], c);
    }
  }

  lemma {:induction false} SplitWhole(p: string, c: char)
    requires c !in p
    ensures Split(p, c) == [p]
  {
    if p != "" {
      SplitWhole(p[1..], c);
      assert [p[0]] + p[1..] == p;
    }
  }

  lemma {:induction false} SplitFirst(p: string, c: char, s: string)
    requires c !in p
    ensures Split(p + [c] + s, c) == [p] + Split(s, c)
  {
    var whole := p + [c] + s;
    if p == "" {
      assert whole[1..] == s;
    } else {
      assert whole[1..] == p[1..] + [c] + s;
      SplitFirst(p[1..], c, s);
      assert [p[0]] + p[1..] == p;
    }
  }

  lemma {:induction false} SplitJoin(parts: seq<string>, c: char)
    requires parts != []
    requires forall p | p in parts :: c !in p
    ensures Split(Join(parts, [c]), c) == parts
  {
    if |parts| == 1 {
      SplitWhole(parts[0], c);
    } else {
      SplitJoin(parts[1..], c);
      SplitFirst(parts[0], c, Join(parts[1..], [c]));
      assert parts == [parts[0]] + parts[1..];
    }
  }

  lemma {:induction false} JoinAppend(a: seq<string>, b: seq<string>, sep: string)
    requires a != [] && b != []
    ensures Join(a + b, sep) == Join(a, sep) + sep + Join(b, sep)
  {
    if |a| == 1 {
      assert (a + b)[1..] == b;
    } else {
      assert (a + b)[1..] == a[1..] + b;
      JoinAppend(a[1..], b, sep);
    }
  }

  lemma IndexOfAt(s: string, c: char, k: nat)
    requires k < |s| && s[k] == c && c !in s[..k]
    ensures IndexOf(s, c) == k
  {
    var i := IndexOf(s, c);
    assert forall j | 0 <= j < k :: s[..k][j] == s[j] && s[..k][j] in s[..k];
    assert forall j | 0 <= j < i :: s[..i][j] == s[j] && s[..i][j] in s[..i];
  }

  lemma IndexOfNone(s: string, c: char)
    requires c !in s
    ensures IndexOf(s, c) == |s|
  {
  }

  lemma TwoParts(s: string, sep: char)
    ensures var i := IndexOf(s, sep);
            SplitN(s, sep, 2) == if i == |s| then [s] else [s[..i], s[i + 1..]]
  {
    var i := IndexOf(s, sep);
    if i < |s| {
      assert SplitN(s[i + 1..], sep, 1) == [s[i + 1..]];
    }
  }

  lemma ThreeParts(s: string, sep: char)
    requires |SplitN(s, sep, 3)| >= 3
    ensures var i := IndexOf(s, sep);
            && i < |s|
            && var j := IndexOf(s[i + 1..], sep);
               && j < |s[i + 1..]|
               && SplitN(s, sep, 3) == [s[..i], s[i + 1..][..j], s[i + 1..][j + 1..]]
  {
    hide IndexOf;
    var i := IndexOf(s, sep);
    if i < |s| {
      TwoParts(s[i + 1..], sep);
    }
  }

  /** A string cut at its first separator. */
  lemma CutBack(s: string, sep: char)
    requires IndexOf(s, sep) < |s|
    ensures s == s[..IndexOf(s, sep)] + [sep] + s[IndexOf(s, sep) + 1..]
  {
  }

  // ---------------------------------------------------------------- Trimming

  lemma {:induction false} TrimLeftIndented(n: nat, c: string)
    requires c == "" || c[0] != ' '
    ensures TrimLeftSpaces(Spaces(n) + c) == c
    ensures IndentOf(Spaces(n) + c) == Spaces(n)
  {
    if n > 0 {
      assert (Spaces(n) + c)[1..] == Spaces(n - 1) + c;
      TrimLeftIndented(n - 1, c);
    } else {
      assert Spaces(0) + c == c;
    }
  }

  lemma TakeTail(s: string, k: nat)
    requires k < |s|
    ensures s[..|s| - k] == [s[0]] + s[1..][..|s| - 1 - k]
  {
  }

  lemma IndentStep(line: string)
    requires line != "" && line[0] == ' '
    ensures TrimLeftSpaces(line) == TrimLeftSpaces(line[1..])
    ensures IndentOf(line) == [' '] + IndentOf(line[1..])
  {
    var t := TrimLeftSpaces(line[1..]);
    assert TrimLeftSpaces(line) == t && |t| < |line|;
    TakeTail(line, |t|);
  }

  lemma SpacesStep(n: nat)
    ensures Spaces(n + 1) == [' '] + Spaces(n)
  {
  }

  lemma ConsAppend(c: char, a: string, b: string)
    ensures [c] + (a + b) == [c] + a + b
  {
  }

  lemma NoIndent(line: string)
    requires line == "" || line[0] != ' '
    ensures TrimLeftSpaces(line) == line && IndentOf(line) == "" && Spaces(0) == ""
  {
  }

  lemma {:induction false} IndentIsSpaces(line: string)
    ensures IndentOf(line) == Spaces(|IndentOf(line)|)
    ensures line == IndentOf(line) + TrimLeftSpaces(line)
  {
    hide IndentOf, TrimLeftSpaces, Spaces;
    if line != "" && line[0] == ' ' {
      IndentIsSpaces(line[1..]);
      IndentStep(line);
      SpacesStep(|IndentOf(line[1..])|);
      assert line == [' '] + line[1..];
      ConsAppend(' ', IndentOf(line[1..]), TrimLeftSpaces(line[1..]));
    } else {
      NoIndent(line);
    }
  }

  lemma {:induction false} TrimLeadingIndented(n: nat, c: string)
    ensures TrimLeadingSpace(Spaces(n) + c) == TrimLeadingSpace(c)
  {
    if n > 0 {
      assert (Spaces(n) + c)[1..] == Spaces(n - 1) + c;
      TrimLeadingIndented(n - 1, c);
    } else {
      assert Spaces(0) + c == c;
    }
  }

  lemma TrimIndented(n: nat, c: string)
    ensures TrimSpace(Spaces(n) + c) == TrimSpace(c)
  {
    TrimLeadingIndented(n, c);
  }

  lemma TrimClean(n: nat, c: string)
    requires Clean(c)
    ensures TrimSpace(Spaces(n) + c) == c
    ensures IndentOf(Spaces(n) + c) == Spaces(n)
  {
    TrimIndented(n, c);
    TrimLeftIndented(n, c);
  }

  lemma {:induction false} TrimTrailingPrefix(s: string)
    ensures TrimTrailingSpace(s) <= s
  {
    if s != "" && IsSpace(s[|s| - 1]) {
      TrimTrailingPrefix(s[..|s| - 1]);
    }
  }

  lemma {:induction false} TrimLeadingSuffix(s: string)
    ensures |TrimLeadingSpace(s)| <= |s| && TrimLeadingSpace(s) == s[|s| - |TrimLeadingSpace(s)|..]
    ensures TrimLeadingSpace(s) != "" ==> !IsSpace(TrimLeadingSpace(s)[0])
  {
    if s != "" && IsSpace(s[0]) {
      TrimLeadingSuffix(s[1..]);
    }
  }

  lemma {:induction false} TrimTrailingEnd(s: string)
    ensures TrimTrailingSpace(s) != "" ==> !IsSpace(TrimTrailingSpace(s)[|TrimTrailingSpace(s)| - 1])
  {
    if s != "" && IsSpace(s[|s| - 1]) {
      TrimTrailingEnd(s[..|s| - 1]);
    }
  }

  /** A trimmed string is empty or starts and ends with a visible character. */
  lemma TrimSpaceEnds(s: string)
    ensures var t := TrimSpace(s); t != "" ==> !IsSpace(t[0]) && !IsSpace(t[|t| - 1])
  {
    var l := TrimLeadingSpace(s);
    TrimLeadingSuffix(s);
    TrimTrailingPrefix(l);
    TrimTrailingEnd(l);
  }

  /** Trimming adds no character. */
  lemma TrimSpaceChars(s: string, c: char)
    requires c !in s
    ensures c !in TrimSpace(s)
  {
    TrimLeadingSuffix(s);
    TrimTrailingPrefix(TrimLeadingSpace(s));
  }

  // ---------------------------------------------------------------- Contains

  lemma {:induction false} ContainsLeft(a: string, b: string, sub: string)
    requires Contains(a, sub)
    ensures Contains(a + b, sub)
  {
    if !(sub <= a) {
      ContainsLeft(a[1..], b, sub);
      assert (a + b)[1..] == a[1..] + b;
    }
  }

  lemma {:induction false} ContainsRight(a: string, b: string, sub: string)
    requires Contains(b, sub)
    ensures Contains(a + b, sub)
  {
    if a == "" {
      assert a + b == b;
    } else {
      ContainsRight(a[1..], b, sub);
      assert (a + b)[1..] == a[1..] + b;
    }
  }

  lemma ContainsMiddle(a: string, sub: string, b: string)
    ensures Contains(a + sub + b, sub)
  {
    assert a + sub + b == a + (sub + b);
    ContainsRight(a, sub + b, sub);
  }

  lemma {:induction false} ContainsChars(s: string, sub: string, c: char)
    requires Contains(s, sub) && c in sub
    ensures c in s
  {
    if !(sub <= s) {
      ContainsChars(s[1..], sub, c);
    }
  }

  /** Text without an opening brace in front adds no template action. */
  lemma {:induction false} BracesAfterPlain(a: string, b: string)
    requires '{' !in a
    ensures Contains(a + b, "{{") <==> Contains(b, "{{")
  {
    if a == "" {
      assert a + b == b;
    } else {
      BracesAfterPlain(a[1..], b);
      assert (a + b)[1..] == a[1..] + b;
      assert (a + b)[0] == a[0] != '{';
    }
  }

  lemma NoBraceNoAction(a: string)
    requires '{' !in a
    ensures !Contains(a, "{{")
  {
    assert a + "" == a;
    BracesAfterPlain(a, "");
  }
}
