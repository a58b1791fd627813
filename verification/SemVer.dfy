/**
 Versions as the operator records them: the tolerant parser, the canonical printer and
 the JSON form of `SemVer`.

 The parser and printer are those of the library the source calls (blang/semver v4);
 its code is not part of the repository, so they are modelled from the library's public
 behaviour.
 */
module SemVer {
  import opened Wrappers
  import opened GoStrings
  import opened Decimal

  datatype PreId = Numeric(num: nat) | Alpha(text: string)

  datatype Version = Version(major: nat, minor: nat, patch: nat, pre: seq<PreId>, build: seq<string>)

  predicate IdentChar(c: char) {
    IsDigit(c) || 'a' <= c <= 'z' || 'A' <= c <= 'Z' || c == '-'
  }

  predicate AllIdent(s: string) {
    forall c | c in s :: IdentChar(c)
  }

  // ---------------------------------------------------------------- Printing

  function PrintPre(p: PreId): string {
    match p
    case Numeric(n) => Decimal.Print(n)
    case Alpha(t) => t
  }

  function PrintPres(ps: seq<PreId>): (texts: seq<string>)
    ensures |texts| == |ps|
  {
    if ps == [] then [] else [PrintPre(ps[0])] + PrintPres(ps[1..])
  }

  function PrintPatch(v: Version): string {
    Decimal.Print(v.patch) + if v.pre == [] then "" else "-" + Join(PrintPres(v.pre), ".")
  }

  function PrintTail(v: Version): string {
    PrintPatch(v) + if v.build == [] then "" else "+" + Join(v.build, ".")
  }

  function Print(v: Version): string {
    Decimal.Print(v.major) + "." + Decimal.Print(v.minor) + "." + PrintTail(v)
  }

  // ---------------------------------------------------------------- Parsing

  function ParseNumber(s: string): Option<nat> {
    if HasLeadingZeroes(s) then None else ParseUint(s)
  }

  function ParsePre(s: string): Option<PreId> {
    if s == "" then None
    else if AllDigits(s) then
      match ParseNumber(s)
      case None => None
      case Some(n) => Some(Numeric(n))
    else if AllIdent(s) then Some(Alpha(s))
    else None
  }

  function ParsePres(texts: seq<string>): Option<seq<PreId>> {
    if texts == [] then Some([])
    else
      match (ParsePre(texts[0]), ParsePres(texts[1..]))
      case (Some(p), Some(ps)) => Some([p] + ps)
      case _ => None
  }

  predicate ValidBuild(build: seq<string>) {
    forall b | b in build :: b != "" && AllIdent(b)
  }

  /** Splits off what follows the first `mark`, cut at dots; no identifiers without a mark. */
  function SplitAfter(s: string, mark: char): (string, seq<string>) {
    var i := IndexOf(s, mark);
    if i == |s| then (s, []) else (s[..i], Split(s[i + 1..], '.'))
  }

  /** `semver.Parse`. */
  function Parse(s: string): Option<Version> {
    var parts := SplitN(s, '.', 3);
    if |parts| != 3 then None
    else
      var (front, build) := SplitAfter(parts[2], '+');
      var (patch, pre) := SplitAfter(front, '-');
      match (ParseNumber(parts[0]), ParseNumber(parts[1]), ParseNumber(patch), ParsePres(pre))
      case (Some(major), Some(minor), Some(p), Some(ids)) =>
        if ValidBuild(build) then Some(Version(major, minor, p, ids, build)) else None
      case _ => None
  }

  function TrimLeftZeros(s: string): string {
    if s != "" && s[0] == '0' then TrimLeftZeros(s[1..]) else s
  }

  /** Drops redundant zeros in front of one dot-separated part. */
  function Unpad(part: string): string {
    if |part| <= 1 then part
    else
      var t := TrimLeftZeros(part);
      if t == "" || !IsDigit(t[0]) then "0" + t else t
  }

  function UnpadAll(parts: seq<string>): (r: seq<string>)
    ensures |r| == |parts|
  {
    if parts == [] then [] else [Unpad(parts[0])] + UnpadAll(parts[1..])
  }

  function TrimV(s: string): string {
    if HasPrefix(s, "v") then s[1..] else s
  }

  function TolerantParts(s: string): (parts: seq<string>)
    ensures 0 < |parts| <= 3
  {
    UnpadAll(SplitN(TrimV(TrimSpace(s)), '.', 3))
  }

  /** Fills a shortened version up with zeros and strings it together again. */
  function Complete(parts: seq<string>): string
    requires |parts| <= 3
  {
    Join(parts + seq(3 - |parts|, i => "0"), ".")
  }

  /** `semver.ParseTolerant`. */
  function ParseTolerant(s: string): Option<Version> {
    var parts := TolerantParts(s);
    var last := parts[|parts| - 1];
    if |parts| < 3 && ('+' in last || '-' in last) then None else Parse(Complete(parts))
  }

  /** `NewSemVer`. */
  function NewSemVer(s: string): Option<string> {
    match ParseTolerant(s)
    case None => None
    case Some(v) => Some(Print(v))
  }

  /** The strings `NewSemVer` can return. */
  predicate Canonical(s: string) {
    NewSemVer(s) == Some(s)
  }

  // ---------------------------------------------------------------- Values the parser can return

  predicate ValidPre(p: PreId) {
    match p
    case Numeric(n) => n <= MAX_UINT64
    case Alpha(t) => t != "" && AllIdent(t) && !AllDigits(t)
  }

  predicate Valid(v: Version) {
    && v.major <= MAX_UINT64 && v.minor <= MAX_UINT64 && v.patch <= MAX_UINT64
    && (forall p | p in v.pre :: ValidPre(p))
    && ValidBuild(v.build)
  }

  lemma {:induction false} ParsePresValid(texts: seq<string>)
    ensures ParsePres(texts).Some? ==> forall p | p in ParsePres(texts).value :: ValidPre(p)
  {
    if texts != [] {
      ParsePresValid(texts[1..]);
    }
  }

  lemma ParseValid(s: string)
    ensures Parse(s).Some? ==> Valid(Parse(s).value)
  {
    var parts := SplitN(s, '.', 3);
    if |parts| == 3 {
      var front := SplitAfter(parts[2], '+').0;
      ParsePresValid(SplitAfter(front, '-').1);
    }
  }

  // ---------------------------------------------------------------- Parsing inverts printing

  lemma PrintPreShape(p: PreId)
    requires ValidPre(p)
    ensures PrintPre(p) != "" && AllIdent(PrintPre(p))
    ensures ParsePre(PrintPre(p)) == Some(p)
  {
    if p.Numeric? {
      ParsePrint(p.num);
      PrintHasNoLeadingZeroes(p.num);
    }
  }

  lemma {:induction false} ParsePrintPres(ps: seq<PreId>)
    requires forall p | p in ps :: ValidPre(p)
    ensures ParsePres(PrintPres(ps)) == Some(ps)
    ensures ValidBuild(PrintPres(ps))
  {
    hide PrintPre, ParsePre, ValidPre, AllIdent;
    if ps != [] {
      PrintPreShape(ps[0]);
      ParsePrintPres(ps[1..]);
      assert PrintPres(ps)[0] == PrintPre(ps[0]) && PrintPres(ps)[1..] == PrintPres(ps[1..]);
      assert ps == [ps[0]] + ps[1..];
    }
  }

  lemma IdentFree(s: string, c: char)
    requires AllIdent(s) && !IdentChar(c)
    ensures c !in s
  {
  }

  lemma {:induction false} JoinIdentChars(parts: seq<string>)
    requires ValidBuild(parts)
    ensures forall c | c in Join(parts, ".") :: IdentChar(c) || c == '.'
    ensures parts != [] ==> Join(parts, ".") != "" && IdentChar(Join(parts, ".")[|Join(parts, ".")| - 1])
  {
    if |parts| == 1 {
      assert parts[0] in parts;
      var p := parts[0];
      assert p[|p| - 1] in p;
    } else if |parts| > 1 {
      assert parts[0] in parts;
      JoinIdentChars(parts[1..]);
    }
  }

  /** Cutting an identifier list off behind its mark gives the identifiers back. */
  lemma SplitAfterMark(front: string, mark: char, ids: seq<string>)
    requires mark !in front && mark != '.'
    requires ValidBuild(ids)
    ensures SplitAfter(front + if ids == [] then "" else [mark] + Join(ids, "."), mark) == (front, ids)
  {
    var tail := if ids == [] then "" else [mark] + Join(ids, ".");
    var s := front + tail;
    if ids == [] {
      assert s == front;
      IndexOfNone(front, mark);
    } else {
      assert s[..|front|] == front;
      IndexOfAt(s, mark, |front|);
      assert s[|front| + 1..] == Join(ids, ".");
      forall p | p in ids
        ensures '.' !in p
      {
        IdentFree(p, '.');
      }
      SplitJoin(ids, '.');
      assert ['.'] == ".";
    }
  }

  lemma PatchShape(v: Version)
    requires Valid(v)
    ensures '+' !in PrintPatch(v)
    ensures SplitAfter(PrintPatch(v), '-') == (Decimal.Print(v.patch), PrintPres(v.pre))
    ensures ParsePres(PrintPres(v.pre)) == Some(v.pre)
  {
    hide PrintPres, ParsePres, IndexOf, Decimal.Print;
    ParsePrintPres(v.pre);
    JoinIdentChars(PrintPres(v.pre));
    SplitAfterMark(Decimal.Print(v.patch), '-', PrintPres(v.pre));
    assert ['-'] == "-";
  }

  lemma SplitThree(a: string, b: string, c: string)
    requires '.' !in a && '.' !in b
    ensures SplitN(a + "." + b + "." + c, '.', 3) == [a, b, c]
  {
    var s := a + "." + b + "." + c;
    assert s[..|a|] == a;
    IndexOfAt(s, '.', |a|);
    var rest := s[|a| + 1..];
    assert rest == b + "." + c;
    assert rest[..|b|] == b;
    IndexOfAt(rest, '.', |b|);
    assert rest[|b| + 1..] == c;
    assert SplitN(c, '.', 1) == [c];
  }

  lemma StrictParsePrint(v: Version)
    requires Valid(v)
    ensures SplitN(Print(v), '.', 3) == [Decimal.Print(v.major), Decimal.Print(v.minor), PrintTail(v)]
    ensures Parse(Print(v)) == Some(v)
  {
    SplitThree(Decimal.Print(v.major), Decimal.Print(v.minor), PrintTail(v));
    PatchShape(v);
    SplitAfterMark(PrintPatch(v), '+', v.build);
    assert ['+'] == "+";
    ParsePrint(v.major);
    ParsePrint(v.minor);
    ParsePrint(v.patch);
    PrintHasNoLeadingZeroes(v.major);
    PrintHasNoLeadingZeroes(v.minor);
    PrintHasNoLeadingZeroes(v.patch);
  }

  /** A part that starts with a printed number is not touched by dropping redundant zeros. */
  lemma UnpadNumber(n: nat, tail: string)
    requires tail == "" || !IsDigit(tail[0])
    ensures Unpad(Decimal.Print(n) + tail) == Decimal.Print(n) + tail
  {
    PrintHasNoLeadingZeroes(n);
    var s := Decimal.Print(n) + tail;
    if n == 0 {
      assert Decimal.Print(0) == "0";
      if tail != "" {
        assert s[1..] == tail;
        assert TrimLeftZeros(s) == TrimLeftZeros(tail) == tail;
      }
    } else {
      assert s[0] == Decimal.Print(n)[0] != '0';
      assert TrimLeftZeros(s) == s;
      assert Decimal.Print(n)[0] in Decimal.Print(n);
    }
  }

  lemma PrintEnds(v: Version)
    requires Valid(v)
    ensures var s := Print(v); s != "" && IsDigit(s[0]) && (IdentChar(s[|s| - 1]))
  {
    var m, t := Decimal.Print(v.major), PrintTail(v);
    assert m[0] in m;
    var d := Decimal.Print(v.patch);
    assert d[|d| - 1] in d;
    ParsePrintPres(v.pre);
    JoinIdentChars(PrintPres(v.pre));
    JoinIdentChars(v.build);
    assert t != "" && IdentChar(t[|t| - 1]);
  }

  lemma NothingTrimmed(s: string)
    requires s != "" && IsDigit(s[0]) && IdentChar(s[|s| - 1])
    ensures TrimSpace(s) == s && TrimV(s) == s
  {
  }

  lemma TolerantPartsOfPrint(v: Version)
    requires Valid(v)
    ensures TolerantParts(Print(v)) == [Decimal.Print(v.major), Decimal.Print(v.minor), PrintTail(v)]
  {
    hide Valid, SplitN, Decimal.Print, TrimSpace, TrimV, Unpad;
    var s := Print(v);
    PrintEnds(v);
    NothingTrimmed(s);
    StrictParsePrint(v);
    var a, b, c := Decimal.Print(v.major), Decimal.Print(v.minor), PrintTail(v);
    var tail := c[|Decimal.Print(v.patch)|..];
    assert c == Decimal.Print(v.patch) + tail;
    UnpadNumber(v.major, "");
    UnpadNumber(v.minor, "");
    UnpadNumber(v.patch, tail);
    assert a + "" == a && b + "" == b;
    UnpadThree(a, b, c);
  }

  lemma UnpadThree(a: string, b: string, c: string)
    requires Unpad(a) == a && Unpad(b) == b && Unpad(c) == c
    ensures UnpadAll([a, b, c]) == [a, b, c]
  {
    assert [a, b, c][1..] == [b, c] && [b, c][1..] == [c] && [c][1..] == [];
    assert UnpadAll([c]) == [c];
    assert UnpadAll([b, c]) == [b, c];
  }

  lemma CompleteThree(a: string, b: string, c: string)
    ensures Complete([a, b, c]) == a + "." + b + "." + c
  {
    var parts := [a, b, c];
    assert parts + seq(0, i => "0") == parts;
    assert parts[1..] == [b, c] && parts[2..] == [c];
    assert Join([b, c], ".") == b + "." + c;
    assert a + "." + (b + "." + c) == a + "." + b + "." + c;
  }

  /** Printing a version and reading it back gives the version. */
  lemma ParsePrintVersion(v: Version)
    requires Valid(v)
    ensures ParseTolerant(Print(v)) == Some(v)
  {
    TolerantPartsOfPrint(v);
    CompleteThree(Decimal.Print(v.major), Decimal.Print(v.minor), PrintTail(v));
    StrictParsePrint(v);
  }

  lemma ParseTolerantValid(s: string)
    ensures ParseTolerant(s).Some? ==> Valid(ParseTolerant(s).value)
  {
    ParseValid(Complete(TolerantParts(s)));
  }

  /** Whatever `NewSemVer` accepts, its answer names the same version and is left alone from then on. */
  lemma CanonicalFixpoint(s: string)
    requires NewSemVer(s).Some?
    ensures var c := NewSemVer(s).value;
            ParseTolerant(c) == ParseTolerant(s) && Canonical(c)
  {
    ParseTolerantValid(s);
    ParsePrintVersion(ParseTolerant(s).value);
  }

  /** Two accepted strings get one canonical form exactly when they name one version. */
  lemma CanonicalFormDecides(s: string, t: string)
    requires NewSemVer(s).Some? && NewSemVer(t).Some?
    ensures NewSemVer(s) == NewSemVer(t) <==> ParseTolerant(s) == ParseTolerant(t)
  {
    CanonicalFixpoint(s);
    CanonicalFixpoint(t);
  }

  // ---------------------------------------------------------------- Printing inverts strict parsing

  lemma PrintNumber(s: string)
    requires ParseNumber(s).Some?
    ensures Decimal.Print(ParseNumber(s).value) == s
  {
    PrintOfValue(s);
  }

  lemma PrintParsedPre(s: string)
    requires ParsePre(s).Some?
    ensures PrintPre(ParsePre(s).value) == s
  {
    if AllDigits(s) {
      PrintNumber(s);
    }
  }

  lemma {:induction false} PrintParsedPres(texts: seq<string>)
    requires ParsePres(texts).Some?
    ensures PrintPres(ParsePres(texts).value) == texts
  {
    hide ParsePre, PrintPre;
    if texts != [] {
      PrintParsedPre(texts[0]);
      PrintParsedPres(texts[1..]);
      var ids := ParsePres(texts).value;
      assert ids[1..] == ParsePres(texts[1..]).value;
      assert texts == [texts[0]] + texts[1..];
    }
  }

  /** What was split off behind a mark, put back. */
  lemma SplitAfterBack(s: string, mark: char)
    ensures var (front, ids) := SplitAfter(s, mark); s == front + if ids == [] then "" else [mark] + Join(ids, ".")
  {
    hide Join, Split, IndexOf;
    var i := IndexOf(s, mark);
    assert "." == ['.'];
    if i < |s| {
      JoinSplit(s[i + 1..], '.');
      assert s == s[..i] + [mark] + s[i + 1..];
    } else {
      assert s + "" == s;
    }
  }

  lemma SplitThreeBack(s: string)
    requires |SplitN(s, '.', 3)| == 3
    ensures var parts := SplitN(s, '.', 3); s == parts[0] + "." + parts[1] + "." + parts[2]
  {
    hide SplitN, IndexOf;
    ThreeParts(s, '.');
    var rest := s[IndexOf(s, '.') + 1..];
    CutBack(s, '.');
    CutBack(rest, '.');
    assert ['.'] == ".";
    var parts := SplitN(s, '.', 3);
    JoinThree(parts[0], parts[1], parts[2]);
  }

  lemma JoinThree(a: string, b: string, c: string)
    ensures a + "." + (b + "." + c) == a + "." + b + "." + c
  {
  }

  /** Printing what was parsed strictly gives the text back. */
  lemma PrintParsed(s: string)
    requires Parse(s).Some?
    ensures Print(Parse(s).value) == s
  {
    hide ParseNumber, ParsePres, SplitN, SplitAfter, PrintPres;
    var parts := SplitN(s, '.', 3);
    var (front, build) := SplitAfter(parts[2], '+');
    var (patch, pre) := SplitAfter(front, '-');
    assert ['+'] == "+" && ['-'] == "-";
    SplitThreeBack(s);
    SplitAfterBack(parts[2], '+');
    SplitAfterBack(front, '-');
    PrintNumber(parts[0]);
    PrintNumber(parts[1]);
    PrintNumber(patch);
    PrintParsedPres(pre);
    EmptyPres(pre);
  }

  lemma EmptyPres(texts: seq<string>)
    requires ParsePres(texts).Some?
    ensures ParsePres(texts).value == [] <==> texts == []
  {
  }

  /**
   The canonical strings are those the strict parser accepts: three numbers without redundant
   zeros, no leading `v`, no space around.
   */
  lemma CanonicalIsStrict(s: string)
    ensures Canonical(s) <==> Parse(s).Some?
  {
    hide Parse, ParseTolerant, Print;
    if Canonical(s) {
      ParseTolerantValid(s);
      StrictParsePrint(ParseTolerant(s).value);
    }
    if Parse(s).Some? {
      ParseValid(s);
      PrintParsed(s);
      ParsePrintVersion(Parse(s).value);
    }
  }

  lemma PrintTwelve()
    ensures Print(Version(1, 2, 0, [], [])) == "1.2.0" && Valid(Version(1, 2, 0, [], []))
  {
    assert Decimal.Print(1) == "1" && Decimal.Print(2) == "2" && Decimal.Print(0) == "0";
    assert "1" + "." + "2" + "." + "0" == "1.2.0";
  }

  lemma PartsOfShort()
    ensures TolerantParts("1.2") == ["1", "2"]
  {
    hide IsSpace;
    assert !IsSpace('1') && !IsSpace('2') by { DigitsVisible(); }
    assert TrimLeadingSpace("1.2") == "1.2" && TrimTrailingSpace("1.2") == "1.2";
    var s := "1.2";
    assert s[..1] == "1" && s[2..] == "2" && s[1] == '.';
    IndexOfAt(s, '.', 1);
    assert SplitN("2", '.', 2) == ["2"] by { IndexOfNone("2", '.'); }
    assert SplitN(s, '.', 3) == ["1"] + ["2"];
    assert ["1", "2"][1..] == ["2"] && ["2"][1..] == [];
    assert UnpadAll(["2"]) == ["2"];
  }

  lemma DigitsVisible()
    ensures !IsSpace('1') && !IsSpace('2')
  {
  }

  /** A missing patch number is filled in. */
  lemma ShortVersion()
    ensures NewSemVer("1.2") == Some("1.2.0") && Parse("1.2") == None
  {
    hide Parse, TolerantParts, Print;
    PartsOfShort();
    PrintTwelve();
    StrictParsePrint(Version(1, 2, 0, [], []));
    var parts := ["1", "2"];
    assert parts + seq(1, i => "0") == ["1", "2", "0"];
    JoinThreeParts("1", "2", "0");
    assert "1" + "." + "2" + "." + "0" == "1.2.0";
    assert parts[1] == "2" && '+' !in "2" && '-' !in "2";
    CanonicalIsStrict("1.2");
    assert "1.2" != "1.2.0";
  }

  lemma JoinThreeParts(a: string, b: string, c: string)
    ensures Join([a, b, c], ".") == a + "." + b + "." + c
  {
    assert [a, b, c][1..] == [b, c] && [b, c][1..] == [c];
    assert Join([b, c], ".") == b + "." + Join([c], ".");
    JoinThree(a, b, c);
  }
}
