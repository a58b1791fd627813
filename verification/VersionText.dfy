/**
 Which texts name a version, and which version they name: `ParseTolerant` and everything the
 operator builds on it, stated without its steps.
 */
module VersionText {
  import opened Wrappers
  import opened GoStrings
  import opened Decimal
  import opened SemVer
  import opened SemVerJson
  import opened Precedence
  import opened StatusReport

  // ---------------------------------------------------------------- Texts that name a version

  /** A decimal numeral, with any number of zeros in front, that fits into 64 bits. */
  predicate Numeral(text: string, n: nat) {
    text != "" && AllDigits(text) && Value(text) == n && n <= 0xFFFF_FFFF_FFFF_FFFF
  }

  predicate Identifier(text: string) {
    && text != ""
    && forall c | c in text :: '0' <= c <= '9' || 'a' <= c <= 'z' || 'A' <= c <= 'Z' || c == '-'
  }

  /** A pre-release identifier: a numeral without redundant zeros, or an identifier that is no numeral. */
  predicate NamesId(text: string, id: PreId) {
    match id
    case Numeric(n) => Numeral(text, n) && (|text| > 1 ==> text[0] != '0')
    case Alpha(t) => text == t && Identifier(t) && exists c :: c in t && !('0' <= c <= '9')
  }

  /** What follows a mark, separated by dots; nothing when there is nothing to follow. */
  function Marked(mark: string, texts: seq<string>): string {
    if texts == [] then "" else mark + Join(texts, ".")
  }

  /** The pre-release and build identifiers of a version, behind their marks. */
  ghost predicate NamesExtras(suffix: string, pres: seq<string>, v: Version) {
    && |pres| == |v.pre| && (forall k | 0 <= k < |pres| :: NamesId(pres[k], v.pre[k]))
    && (forall b | b in v.build :: Identifier(b))
    && suffix == Marked("-", pres) + Marked("+", v.build)
  }

  predicate NoExtras(v: Version) {
    v.pre == [] && v.build == []
  }

  predicate NamesTwo(core: string, a: string, b: string, v: Version) {
    && core == a + "." + b
    && Numeral(a, v.major) && Numeral(b, v.minor) && v.patch == 0 && NoExtras(v)
  }

  /** The last number may be missing in front of a mark. */
  ghost predicate NamesThree(core: string, a: string, b: string, c: string, suffix: string, pres: seq<string>, v: Version) {
    && core == a + "." + b + "." + c + suffix
    && Numeral(a, v.major) && Numeral(b, v.minor)
    && (Numeral(c, v.patch) || (c == "" && suffix != "" && v.patch == 0))
    && NamesExtras(suffix, pres, v)
  }

  /** One, two or three numbers; missing ones are 0, and only behind three do identifiers follow. */
  ghost predicate NamesCore(core: string, v: Version) {
    || (Numeral(core, v.major) && v.minor == 0 && v.patch == 0 && NoExtras(v))
    || (exists a, b :: NamesTwo(core, a, b, v))
    || (exists a, b, c, suffix, pres :: NamesThree(core, a, b, c, suffix, pres, v))
  }

  predicate White(s: string) {
    forall c | c in s :: IsSpace(c)
  }

  /** White space around a text that has none at its ends. */
  predicate Around(s: string, left: string, text: string, right: string) {
    && s == left + text + right && White(left) && White(right)
    && (text != "" ==> !IsSpace(text[0]) && !IsSpace(text[|text| - 1]))
  }

  /** The text, or what follows the `v` it starts with. */
  predicate Behind(text: string, core: string) {
    if text != "" && text[0] == 'v' then text == "v" + core else text == core
  }

  ghost predicate Framed(s: string, left: string, text: string, right: string, core: string) {
    Around(s, left, text, right) && Behind(text, core)
  }

  /** `s` names the version `v`. */
  ghost predicate Names(s: string, v: Version) {
    exists left, text, right, core :: Framed(s, left, text, right, core) && NamesCore(core, v)
  }

  // ---------------------------------------------------------------- Space

  lemma {:induction false} SpaceInFront(left: string, s: string)
    requires White(left)
    ensures TrimLeadingSpace(left + s) == TrimLeadingSpace(s)
  {
    hide IsSpace;
    if left == "" {
      assert left + s == s;
    } else {
      assert left[0] in left;
      assert (left + s)[1..] == left[1..] + s;
      assert forall c | c in left[1..] :: c in left;
      SpaceInFront(left[1..], s);
    }
  }

  lemma {:induction false} SpaceBehind(s: string, right: string)
    requires White(right)
    ensures TrimTrailingSpace(s + right) == TrimTrailingSpace(s)
  {
    hide IsSpace;
    if right == "" {
      assert s + right == s;
    } else {
      var front := right[..|right| - 1];
      assert right[|right| - 1] in right;
      assert (s + right)[..|s + right| - 1] == s + front;
      assert forall c | c in front :: c in right;
      SpaceBehind(s, front);
    }
  }

  lemma TrimmedText(s: string, left: string, text: string, right: string)
    requires Around(s, left, text, right)
    ensures TrimSpace(s) == text
  {
    hide IsSpace;
    assert s == left + (text + right);
    SpaceInFront(left, text + right);
    if text == "" {
      SpaceInFront(right, "");
      assert text + right == right + "";
    } else {
      assert (text + right)[0] == text[0];
      SpaceBehind(text, right);
    }
  }

  lemma {:induction false} LeadingSpace(s: string) returns (left: string)
    ensures White(left) && s == left + TrimLeadingSpace(s)
  {
    hide IsSpace;
    left := "";
    if s != "" && IsSpace(s[0]) {
      var rest := LeadingSpace(s[1..]);
      left := [s[0]] + rest;
      assert s == [s[0]] + s[1..];
      assert [s[0]] + (rest + TrimLeadingSpace(s[1..])) == left + TrimLeadingSpace(s[1..]);
    }
  }

  lemma {:induction false} TrailingSpace(s: string) returns (right: string)
    ensures White(right) && s == TrimTrailingSpace(s) + right
  {
    hide IsSpace;
    right := "";
    if s != "" && IsSpace(s[|s| - 1]) {
      var front := s[..|s| - 1];
      var rest := TrailingSpace(front);
      right := rest + [s[|s| - 1]];
      assert s == front + [s[|s| - 1]];
      assert TrimTrailingSpace(front) + rest + [s[|s| - 1]] == TrimTrailingSpace(front) + right;
    }
  }

  /** Every text has its space, and dropping a leading `v` leaves the core. */
  lemma {:induction false} FramedCore(s: string) returns (left: string, text: string, right: string)
    ensures Framed(s, left, text, right, TrimV(TrimSpace(s)))
  {
    hide IsSpace;
    left := LeadingSpace(s);
    text := TrimSpace(s);
    right := TrailingSpace(TrimLeadingSpace(s));
    TrimSpaceEnds(s);
    assert s == left + (text + right);
    BehindV(text);
  }

  lemma BehindV(text: string)
    ensures Behind(text, TrimV(text))
    ensures forall core :: Behind(text, core) ==> core == TrimV(text)
  {
    if text != "" && text[0] == 'v' {
      assert text == "v" + text[1..];
      forall core | Behind(text, core)
        ensures core == text[1..]
      {
        assert ("v" + core)[1..] == core;
      }
    }
  }

  lemma NamesByCore(s: string, v: Version)
    ensures Names(s, v) <==> NamesCore(TrimV(TrimSpace(s)), v)
  {
    hide NamesCore, TrimV, TrimSpace, Around, Behind;
    var l, t, r := FramedCore(s);
    forall left, text, right, core | Framed(s, left, text, right, core)
      ensures core == TrimV(TrimSpace(s))
    {
      TrimmedText(s, left, text, right);
      BehindV(text);
    }
  }

  // ---------------------------------------------------------------- Numbers

  predicate Zeros(s: string) {
    forall i | 0 <= i < |s| :: s[i] == '0'
  }

  lemma {:induction false} ZerosTrimmed(s: string)
    ensures var t := TrimLeftZeros(s);
            && |t| <= |s| && t == s[|s| - |t|..] && (t != "" ==> t[0] != '0')
            && Zeros(s[..|s| - |t|])
  {
    if s != "" && s[0] == '0' {
      ZerosTrimmed(s[1..]);
      var t := TrimLeftZeros(s);
      assert s[..|s| - |t|] == ['0'] + s[1..][..|s| - 1 - |t|];
    }
  }

  lemma {:induction false} ZerosInFront(zeros: string, s: string)
    requires Zeros(zeros)
    ensures TrimLeftZeros(zeros + s) == TrimLeftZeros(s)
  {
    if zeros == "" {
      assert zeros + s == s;
    } else {
      assert (zeros + s)[1..] == zeros[1..] + s;
      ZerosInFront(zeros[1..], s);
    }
  }

  lemma {:induction false} ZerosAddNothing(zeros: string, s: string)
    requires Zeros(zeros) && AllDigits(s)
    ensures AllDigits(zeros + s) && Value(zeros + s) == Value(s)
  {
    var all := zeros + s;
    if s != "" {
      var front := s[..|s| - 1];
      assert forall c | c in front :: c in s;
      assert all[..|all| - 1] == zeros + front && all[|all| - 1] == s[|s| - 1];
      ZerosAddNothing(zeros, front);
    } else if zeros != "" {
      var front := zeros[..|zeros| - 1];
      assert all == zeros;
      assert front + "" == front;
      ZerosAddNothing(front, "");
    } else {
      assert all == "";
    }
  }

  /** Without its redundant zeros a part reads `n`, with `suffix` behind it, exactly when it is a numeral for `n` or nothing. */
  lemma UnpadMeaning(part: string, n: nat, suffix: string)
    requires suffix != "" ==> |suffix| > 1 && !IsDigit(suffix[0])
    requires n <= 0xFFFF_FFFF_FFFF_FFFF
    ensures Unpad(part) == Decimal.Print(n) + suffix <==> exists c :: NumberBefore(part, c, n, suffix)
  {
    if Unpad(part) == Decimal.Print(n) + suffix {
      var c := NumberFound(part, n, suffix);
    }
    forall c | NumberBefore(part, c, n, suffix)
      ensures Unpad(part) == Decimal.Print(n) + suffix
    {
      NumberUnpadded(part, c, n, suffix);
    }
  }

  predicate NumberBefore(part: string, c: string, n: nat, suffix: string) {
    part == c + suffix && (Numeral(c, n) || (c == "" && suffix != "" && n == 0))
  }

  lemma NumeralPrints(c: string)
    requires c != "" && AllDigits(c)
    ensures var t := TrimLeftZeros(c); Decimal.Print(Value(c)) == if t == "" then "0" else t
  {
    hide Decimal.Print, Value;
    ZerosTrimmed(c);
    var t := TrimLeftZeros(c);
    var zeros := c[..|c| - |t|];
    assert c == zeros + t;
    assert forall d | d in t :: d in c;
    ZerosAddNothing(zeros, t);
    if t == "" {
      NothingIsZero();
    } else {
      PrintOfValue(t);
    }
  }

  lemma NothingIsZero()
    ensures Value("") == 0 && Decimal.Print(0) == "0"
  {
  }

  lemma NumberUnpadded(part: string, c: string, n: nat, suffix: string)
    requires suffix != "" ==> |suffix| > 1 && !IsDigit(suffix[0])
    requires NumberBefore(part, c, n, suffix)
    ensures Unpad(part) == Decimal.Print(n) + suffix
  {
    hide Decimal.Print, Value;
    NothingIsZero();
    ZerosTrimmed(c);
    var t := TrimLeftZeros(c);
    var zeros := c[..|c| - |t|];
    assert part == zeros + (t + suffix);
    ZerosInFront(zeros, t + suffix);
    assert TrimLeftZeros(t + suffix) == t + suffix by {
      if t == "" {
        assert t + suffix == suffix;
      }
    }
    if c != "" {
      NumeralPrints(c);
      assert t != "" ==> t[0] in t && t[0] in c;
      if |part| <= 1 {
        OneDigit(c);
      }
    }
  }

  lemma OneDigit(c: string)
    requires |c| == 1 && AllDigits(c)
    ensures Decimal.Print(Value(c)) == c
  {
    PrintOfValue(c);
  }

  lemma ZeroInFront(digits: string, t: string, suffix: string)
    requires digits != "" && "0" + t == digits + suffix
    ensures digits[0] == '0' && (digits == "0" ==> t == suffix)
  {
    assert ("0" + t)[0] == '0' && (digits + suffix)[0] == digits[0];
    assert ("0" + t)[1..] == t && ("0" + suffix)[1..] == suffix;
  }

  lemma {:induction false} NumberFound(part: string, n: nat, suffix: string) returns (c: string)
    requires suffix != "" ==> |suffix| > 1 && !IsDigit(suffix[0])
    requires n <= 0xFFFF_FFFF_FFFF_FFFF && Unpad(part) == Decimal.Print(n) + suffix
    ensures NumberBefore(part, c, n, suffix)
  {
    hide Decimal.Print, Value;
    NothingIsZero();
    ValueOfPrint(n);
    PrintHasNoLeadingZeroes(n);
    ZerosTrimmed(part);
    var digits := Decimal.Print(n);
    var t := TrimLeftZeros(part);
    var zeros := part[..|part| - |t|];
    assert part == zeros + t;
    if |part| <= 1 {
      c := digits;
    } else if t == "" || !IsDigit(t[0]) {
      ZeroInFront(digits, t, suffix);
      assert n == 0;
      c := zeros;
      ZerosAddNothing(zeros, "");
      assert zeros + "" == zeros;
    } else {
      c := zeros + digits;
      ZerosAddNothing(zeros, digits);
      assert zeros + (digits + suffix) == c + suffix;
    }
  }

  // ---------------------------------------------------------------- Identifiers

  lemma NamesPrinted(text: string, id: PreId)
    ensures NamesId(text, id) <==> ValidPre(id) && text == PrintPre(id)
  {
    match id
    case Numeric(n) =>
      if NamesId(text, id) {
        PrintOfValue(text);
      }
      if n <= MAX_UINT64 && text == Decimal.Print(n) {
        ValueOfPrint(n);
        PrintHasNoLeadingZeroes(n);
      }
    case Alpha(t) => IdentifierMeaning(t);
  }

  lemma IdentifierMeaning(t: string)
    ensures Identifier(t) <==> t != "" && AllIdent(t)
    ensures AllDigits(t) <==> !exists c :: c in t && !('0' <= c <= '9')
  {
  }

  /** The marked identifiers of a version, as it prints them. */
  function Extras(v: Version): string {
    Marked("-", PrintPres(v.pre)) + Marked("+", v.build)
  }

  lemma PrintTailParts(v: Version)
    ensures PrintTail(v) == Decimal.Print(v.patch) + Extras(v)
  {
  }

  lemma ExtrasMeaning(v: Version, suffix: string)
    ensures (exists pres :: NamesExtras(suffix, pres, v))
            <==> suffix == Extras(v) && (forall p | p in v.pre :: ValidPre(p)) && ValidBuild(v.build)
  {
    hide ValidPre, PrintPre, NamesId, AllIdent, Identifier, Marked;
    forall b { IdentifierMeaning(b); }
    forall pres
      ensures (|pres| == |v.pre| && forall k | 0 <= k < |pres| :: NamesId(pres[k], v.pre[k]))
              <==> pres == PrintPres(v.pre) && forall p | p in v.pre :: ValidPre(p)
    {
      PresNamed(pres, v.pre);
    }
    if suffix == Extras(v) && (forall p | p in v.pre :: ValidPre(p)) && ValidBuild(v.build) {
      assert NamesExtras(suffix, PrintPres(v.pre), v);
    }
  }

  lemma {:induction false} PrintPresAt(ps: seq<PreId>, k: nat)
    requires k < |ps|
    ensures PrintPres(ps)[k] == PrintPre(ps[k])
  {
    if k > 0 {
      PrintPresAt(ps[1..], k - 1);
    }
  }

  lemma PresNamed(pres: seq<string>, ids: seq<PreId>)
    ensures (|pres| == |ids| && forall k | 0 <= k < |pres| :: NamesId(pres[k], ids[k]))
            <==> pres == PrintPres(ids) && forall p | p in ids :: ValidPre(p)
  {
    hide ValidPre, PrintPre, NamesId, PrintPres;
    forall k | 0 <= k < |ids|
      ensures PrintPres(ids)[k] == PrintPre(ids[k])
    {
      PrintPresAt(ids, k);
    }
    forall text, id { NamesPrinted(text, id); }
    if |pres| == |ids| && forall k | 0 <= k < |pres| :: NamesId(pres[k], ids[k]) {
      assert pres == PrintPres(ids);
    }
  }

  /** Identifiers start with their mark, and have something behind it. */
  lemma ExtrasStart(v: Version)
    requires (forall p | p in v.pre :: ValidPre(p)) && ValidBuild(v.build)
    ensures var e := Extras(v);
            && (e == "" <==> NoExtras(v))
            && (e != "" ==> |e| > 1 && !IsDigit(e[0]))
  {
    hide ValidPre;
    ParsePrintPres(v.pre);
    JoinIdentChars(PrintPres(v.pre));
    JoinIdentChars(v.build);
  }

  // ---------------------------------------------------------------- The parser

  /** What the strict parser makes of three parts. */
  lemma StrictThree(x: string, y: string, z: string, v: Version)
    requires '.' !in x && '.' !in y
    ensures Parse(x + "." + y + "." + z) == Some(v)
            <==> Valid(v) && x == Decimal.Print(v.major) && y == Decimal.Print(v.minor) && z == PrintTail(v)
  {
    hide Parse, Valid, SplitN, Decimal.Print, PrintTail;
    SplitThree(x, y, z);
    var s := x + "." + y + "." + z;
    if Parse(s) == Some(v) {
      ParseValid(s);
      PrintParsed(s);
      StrictParsePrint(v);
      assert [x, y, z][0] == x && [x, y, z][1] == y && [x, y, z][2] == z;
    }
    if Valid(v) && x == Decimal.Print(v.major) && y == Decimal.Print(v.minor) && z == PrintTail(v) {
      StrictParsePrint(v);
    }
  }

  lemma UnpadFree(part: string, c: char)
    requires c !in part && c != '0'
    ensures c !in Unpad(part)
  {
    ZerosTrimmed(part);
    var t := TrimLeftZeros(part);
    assert forall d | d in t :: d in part;
  }

  lemma NumeralFree(text: string, n: nat)
    requires Numeral(text, n)
    ensures '.' !in text && '+' !in text && '-' !in text
  {
  }

  /** A part on its own. */
  lemma UnpadNumeral(part: string, n: nat)
    requires n <= 0xFFFF_FFFF_FFFF_FFFF
    ensures Unpad(part) == Decimal.Print(n) <==> Numeral(part, n)
  {
    hide Unpad, Decimal.Print, Value, AllDigits;
    UnpadMeaning(part, n, "");
    assert Decimal.Print(n) + "" == Decimal.Print(n);
    forall c | NumberBefore(part, c, n, "")
      ensures c == part
    {
      assert c + "" == c;
    }
    assert Numeral(part, n) ==> NumberBefore(part, part, n, "") by { assert part + "" == part; }
  }

  /** A number by itself is a tail without identifiers. */
  lemma ZeroTail(v: Version)
    requires (forall p | p in v.pre :: ValidPre(p)) && ValidBuild(v.build)
    ensures "0" == PrintTail(v) <==> v.patch == 0 && NoExtras(v)
  {
    hide Decimal.Print, Extras, PrintTail;
    PrintTailParts(v);
    ExtrasStart(v);
    NothingIsZero();
    ValueOfPrint(v.patch);
    if "0" == PrintTail(v) {
      assert |Decimal.Print(v.patch)| >= 1;
      assert Extras(v) == "";
      assert Decimal.Print(v.patch) == Decimal.Print(v.patch) + "";
      assert Value("0") == Value(Decimal.Print(0)) by { ValueOfPrint(0); }
      ValueOfPrint(0);
    }
  }

  predicate HasMark(part: string) {
    '+' in part || '-' in part
  }

  /** The tolerant parser behind the split. */
  function ParseParts(parts: seq<string>): Option<Version>
    requires 0 < |parts| <= 3
  {
    if |parts| < 3 && HasMark(parts[|parts| - 1]) then None else Parse(Complete(parts))
  }

  lemma CompleteOne(x: string)
    ensures Complete([x]) == x + ".0.0"
  {
    assert [x] + seq(2, i => "0") == [x, "0", "0"];
    CompleteThree(x, "0", "0");
    assert [x, "0", "0"] + seq(0, i => "0") == [x, "0", "0"];
    assert x + "." + "0" + "." + "0" == x + ".0.0";
  }

  lemma CompleteTwo(x: string, y: string)
    ensures Complete([x, y]) == x + "." + y + "." + "0"
  {
    assert [x, y] + seq(1, i => "0") == [x, y, "0"];
    CompleteThree(x, y, "0");
    assert [x, y, "0"] + seq(0, i => "0") == [x, y, "0"];
  }

  ghost predicate ValidExtras(v: Version) {
    (forall p | p in v.pre :: ValidPre(p)) && ValidBuild(v.build)
  }

  lemma OneNumber(core: string, v: Version)
    requires '.' !in core
    ensures ParseParts([Unpad(core)]) == Some(v) <==> Numeral(core, v.major) && v.minor == 0 && v.patch == 0 && NoExtras(v)
  {
    hide Unpad, Decimal.Print, Value, Complete, Parse, PrintTail, AllDigits, IsDigit;
    var x := Unpad(core);
    UnpadFree(core, '.');
    CompleteOne(x);
    assert x + "." + "0" + "." + "0" == x + ".0.0";
    StrictThree(x, "0", "0", v);
    NothingIsZero();
    if v.major <= MAX_UINT64 {
      UnpadNumeral(core, v.major);
    }
    if ValidExtras(v) {
      ZeroTail(v);
    }
    PrintIsZero(v.minor);
    PrintNoMark(v.major);
  }

  lemma PrintIsZero(n: nat)
    ensures "0" == Decimal.Print(n) <==> n == 0
  {
    ValueOfPrint(n);
    ValueOfPrint(0);
  }

  lemma PrintNoMark(n: nat)
    ensures !HasMark(Decimal.Print(n))
  {
  }

  lemma TwoNumbers(core: string, x0: string, y0: string, v: Version)
    requires core == x0 + "." + y0 && '.' !in x0 && '.' !in y0
    ensures ParseParts([Unpad(x0), Unpad(y0)]) == Some(v) <==> NamesTwo(core, x0, y0, v)
  {
    hide Unpad, Decimal.Print, Value, Complete, Parse, PrintTail, AllDigits, IsDigit;
    var x, y := Unpad(x0), Unpad(y0);
    UnpadFree(x0, '.');
    UnpadFree(y0, '.');
    CompleteTwo(x, y);
    StrictThree(x, y, "0", v);
    NothingIsZero();
    if v.major <= MAX_UINT64 && v.minor <= MAX_UINT64 {
      UnpadNumeral(x0, v.major);
      UnpadNumeral(y0, v.minor);
    }
    if ValidExtras(v) {
      ZeroTail(v);
    }
    PrintNoMark(v.minor);
  }

  lemma {:induction false} ThreeNumbers(core: string, x0: string, y0: string, z0: string, v: Version)
    requires core == x0 + "." + y0 + "." + z0 && '.' !in x0 && '.' !in y0
    ensures ParseParts([Unpad(x0), Unpad(y0), Unpad(z0)]) == Some(v)
            <==> exists c, suffix, pres :: NamesThree(core, x0, y0, c, suffix, pres, v)
  {
    hide Unpad, Decimal.Print, Value, Complete, Parse, PrintTail, AllDigits, IsDigit, ValidPre, Extras, NamesExtras, ValidBuild, Numeral;
    var x, y, z := Unpad(x0), Unpad(y0), Unpad(z0);
    UnpadFree(x0, '.');
    UnpadFree(y0, '.');
    CompleteThree(x, y, z);
    StrictThree(x, y, z, v);
    ThirdNumber(core, x0, y0, z0, v);
    if v.major <= MAX_UINT64 && v.minor <= MAX_UINT64 {
      UnpadNumeral(x0, v.major);
      UnpadNumeral(y0, v.minor);
    }
    NumeralFits();
  }

  lemma NumeralFits()
    ensures forall text, n: nat :: Numeral(text, n) ==> n <= MAX_UINT64
  {
  }

  lemma {:induction false} ThirdNumber(core: string, x0: string, y0: string, z0: string, v: Version)
    requires core == x0 + "." + y0 + "." + z0
    ensures (exists c, suffix, pres :: NamesThree(core, x0, y0, c, suffix, pres, v))
            <==> Numeral(x0, v.major) && Numeral(y0, v.minor) && v.patch <= MAX_UINT64 && ValidExtras(v)
                 && Unpad(z0) == PrintTail(v)
  {
    hide Unpad, Decimal.Print, Value, PrintTail, AllDigits, IsDigit, ValidPre, Extras, NamesExtras, ValidBuild, Numeral;
    NumeralFits();
    PrintTailParts(v);
    ExtrasMeaning(v, Extras(v));
    var head := x0 + "." + y0 + ".";
    forall c, suffix, pres | NamesThree(core, x0, y0, c, suffix, pres, v)
      ensures v.patch <= MAX_UINT64 && ValidExtras(v) && Unpad(z0) == PrintTail(v)
    {
      ExtrasMeaning(v, suffix);
      ExtrasStart(v);
      assert head + z0 == head + (c + suffix);
      assert (head + z0)[|head|..] == z0 && (head + (c + suffix))[|head|..] == c + suffix;
      assert NumberBefore(z0, c, v.patch, suffix);
      UnpadMeaning(z0, v.patch, suffix);
    }
    if Numeral(x0, v.major) && Numeral(y0, v.minor) && v.patch <= MAX_UINT64 && ValidExtras(v) && Unpad(z0) == PrintTail(v) {
      ExtrasStart(v);
      UnpadMeaning(z0, v.patch, Extras(v));
      var c :| NumberBefore(z0, c, v.patch, Extras(v));
      var pres :| NamesExtras(Extras(v), pres, v);
      assert head + (c + Extras(v)) == head + c + Extras(v);
      assert NamesThree(core, x0, y0, c, Extras(v), pres, v);
    }
  }

  // ---------------------------------------------------------------- The split

  lemma NoDot(core: string)
    requires '.' !in core
    ensures SplitN(core, '.', 3) == [core]
  {
    IndexOfNone(core, '.');
  }

  lemma OneDot(a: string, b: string)
    requires '.' !in a && '.' !in b
    ensures SplitN(a + "." + b, '.', 3) == [a, b]
  {
    var s := a + "." + b;
    assert s[..|a|] == a && s[|a| + 1..] == b;
    IndexOfAt(s, '.', |a|);
    IndexOfNone(b, '.');
    assert SplitN(b, '.', 2) == [b];
  }

  lemma UnpadSome(x: string, y: string, z: string)
    ensures UnpadAll([x]) == [Unpad(x)] && UnpadAll([x, y]) == [Unpad(x), Unpad(y)]
    ensures UnpadAll([x, y, z]) == [Unpad(x), Unpad(y), Unpad(z)]
  {
    hide Unpad;
    assert [x][1..] == [] && [x, y][1..] == [y] && [y][1..] == [] && [x, y, z][1..] == [y, z] && [y, z][1..] == [z] && [z][1..] == [];
    assert UnpadAll([z]) == [Unpad(z)] && UnpadAll([y]) == [Unpad(y)];
    assert UnpadAll([y, z]) == [Unpad(y), Unpad(z)];
  }

  /** A string cut at its first separator, if it has one. */
  lemma {:induction false} CutAtDot(s: string) returns (a: string, b: string)
    requires '.' in s
    ensures '.' !in a && s == a + "." + b
  {
    var i := IndexOf(s, '.');
    assert s[..|s|] == s;
    CutBack(s, '.');
    a, b := s[..i], s[i + 1..];
    assert ['.'] == ".";
  }

  lemma {:induction false} CoreMeaning(core: string, v: Version)
    ensures ParseParts(UnpadAll(SplitN(core, '.', 3))) == Some(v) <==> NamesCore(core, v)
  {
    hide ParseParts, Unpad, UnpadAll, SplitN, NamesTwo, NamesThree, Numeral;
    if '.' !in core {
      NoDot(core);
      UnpadSome(core, "", "");
      OneNumber(core, v);
      NotDotted(core, v);
    } else {
      var a, rest := CutAtDot(core);
      DottedIsNoNumeral(core, v.major);
      if '.' !in rest {
        OneDot(a, rest);
        UnpadSome(a, rest, "");
        TwoNumbers(core, a, rest, v);
        TwoAreFound(core, a, rest, v);
      } else {
        var b, z := CutAtDot(rest);
        assert a + "." + (b + "." + z) == a + "." + b + "." + z;
        SplitThree(a, b, z);
        UnpadSome(a, b, z);
        ThreeNumbers(core, a, b, z, v);
        ThreeAreFound(core, a, b, z, v);
      }
    }
  }

  lemma DottedIsNoNumeral(core: string, n: nat)
    requires '.' in core
    ensures !Numeral(core, n)
  {
  }

  lemma NotDotted(core: string, v: Version)
    requires '.' !in core
    ensures !(exists a, b :: NamesTwo(core, a, b, v))
    ensures !(exists a, b, c, suffix, pres :: NamesThree(core, a, b, c, suffix, pres, v))
  {
    hide Numeral, NamesExtras;
    forall a, b
      ensures !NamesTwo(core, a, b, v)
    {
      assert (a + "." + b)[|a|] == '.';
    }
    forall a, b, c, suffix, pres
      ensures !NamesThree(core, a, b, c, suffix, pres, v)
    {
      assert (a + "." + b + "." + c + suffix)[|a|] == '.';
    }
  }

  lemma TwoAreFound(core: string, x: string, y: string, v: Version)
    requires core == x + "." + y && '.' !in x && '.' !in y
    ensures forall a, b :: NamesTwo(core, a, b, v) ==> a == x && b == y
    ensures !(exists a, b, c, suffix, pres :: NamesThree(core, a, b, c, suffix, pres, v))
  {
    hide SplitN, NamesExtras;
    OneDot(x, y);
    forall a, b | NamesTwo(core, a, b, v)
      ensures a == x && b == y
    {
      NumeralFree(a, v.major);
      NumeralFree(b, v.minor);
      OneDot(a, b);
      assert [a, b][0] == a && [a, b][1] == b && [x, y][0] == x && [x, y][1] == y;
    }
    forall a, b, c, suffix, pres
      ensures !NamesThree(core, a, b, c, suffix, pres, v)
    {
      if NamesThree(core, a, b, c, suffix, pres, v) {
        NumeralFree(a, v.major);
        NumeralFree(b, v.minor);
        assert core == a + "." + b + "." + (c + suffix);
        SplitThree(a, b, c + suffix);
      }
    }
  }

  lemma {:induction false} ThreeAreFound(core: string, x: string, y: string, z: string, v: Version)
    requires core == x + "." + y + "." + z && '.' !in x && '.' !in y
    ensures !(exists a, b :: NamesTwo(core, a, b, v))
    ensures forall a, b, c, suffix, pres :: NamesThree(core, a, b, c, suffix, pres, v) ==> a == x && b == y
  {
    hide SplitN, NamesExtras;
    SplitThree(x, y, z);
    forall a, b
      ensures !NamesTwo(core, a, b, v)
    {
      if NamesTwo(core, a, b, v) {
        NumeralFree(a, v.major);
        NumeralFree(b, v.minor);
        OneDot(a, b);
      }
    }
    forall a, b, c, suffix, pres | NamesThree(core, a, b, c, suffix, pres, v)
      ensures a == x && b == y
    {
      NumeralFree(a, v.major);
      NumeralFree(b, v.minor);
      assert core == a + "." + b + "." + (c + suffix);
      SplitThree(a, b, c + suffix);
      assert [a, b, c + suffix][0] == a && [a, b, c + suffix][1] == b && [x, y, z][0] == x && [x, y, z][1] == y;
    }
  }

  /** The tolerant parser accepts exactly the texts that name a version, and gives that version. */
  lemma ParseTolerantMeaning(s: string, v: Version)
    ensures ParseTolerant(s) == Some(v) <==> Names(s, v)
  {
    hide Parse, Complete, NamesCore, Names, UnpadAll, SplitN, TrimV, TrimSpace;
    NamesByCore(s, v);
    CoreMeaning(TrimV(TrimSpace(s)), v);
    assert ParseTolerant(s) == ParseParts(TolerantParts(s));
  }

  // ---------------------------------------------------------------- What is built on the parser

  /** One text names at most one version. */
  lemma NamesOne(s: string, v: Version, w: Version)
    requires Names(s, v) && Names(s, w)
    ensures v == w
  {
    hide Names, ParseTolerant;
    ParseTolerantMeaning(s, v);
    ParseTolerantMeaning(s, w);
  }

  predicate NoPadding(text: string) {
    text != "" && (|text| > 1 ==> text[0] != '0')
  }

  ghost predicate PlainThree(c: string, a: string, b: string, p: string, suffix: string, pres: seq<string>, v: Version) {
    NamesThree(c, a, b, p, suffix, pres, v) && NoPadding(a) && NoPadding(b) && NoPadding(p)
  }

  /** `c` is the one plain spelling of `v`: three numbers without redundant zeros, and the identifiers. */
  ghost predicate Spells(c: string, v: Version) {
    exists a, b, p, suffix, pres :: PlainThree(c, a, b, p, suffix, pres, v)
  }

  lemma NumeralSpelled(text: string, n: nat)
    ensures Numeral(text, n) && NoPadding(text) <==> n <= MAX_UINT64 && text == Decimal.Print(n)
  {
    hide Decimal.Print, Value;
    ValueOfPrint(n);
    PrintHasNoLeadingZeroes(n);
    if Numeral(text, n) && NoPadding(text) {
      PrintOfValue(text);
    }
  }

  lemma ValidParts(v: Version)
    ensures Valid(v) <==> v.major <= MAX_UINT64 && v.minor <= MAX_UINT64 && v.patch <= MAX_UINT64 && ValidExtras(v)
  {
    hide ValidPre, ValidBuild;
  }

  /** A version is printed in its plain spelling. */
  lemma PrintSpells(c: string, v: Version)
    ensures Spells(c, v) <==> Valid(v) && c == SemVer.Print(v)
  {
    hide Decimal.Print, Numeral, NoPadding, NamesExtras, ValidExtras, PrintTail, Extras, Valid;
    ValidParts(v);
    ExtrasMeaning(v, Extras(v));
    PrintTailParts(v);
    ValidExtrasUnfold(v);
    var x, y, z := Decimal.Print(v.major), Decimal.Print(v.minor), Decimal.Print(v.patch);
    forall a, b, p, suffix, pres | PlainThree(c, a, b, p, suffix, pres, v)
      ensures Valid(v) && c == SemVer.Print(v)
    {
      ExtrasMeaning(v, suffix);
      NumeralSpelled(a, v.major);
      NumeralSpelled(b, v.minor);
      NumeralSpelled(p, v.patch);
      assert NoPadding(p) ==> p != "" by { PaddedText(p); }
      assert x + "." + y + "." + z + suffix == x + "." + y + "." + (z + suffix);
    }
    if Valid(v) && c == SemVer.Print(v) {
      NumeralSpelled(x, v.major);
      NumeralSpelled(y, v.minor);
      NumeralSpelled(z, v.patch);
      var pres :| NamesExtras(Extras(v), pres, v);
      assert x + "." + y + "." + z + Extras(v) == x + "." + y + "." + (z + Extras(v));
      assert PlainThree(c, x, y, z, Extras(v), pres, v);
    }
  }

  lemma PaddedText(p: string)
    ensures NoPadding(p) ==> p != ""
  {
  }

  lemma ValidExtrasUnfold(v: Version)
    ensures ValidExtras(v) <==> (forall p | p in v.pre :: ValidPre(p)) && ValidBuild(v.build)
  {
  }

  ghost predicate Normalizes(s: string, v: Version, c: string) {
    Names(s, v) && Spells(c, v)
  }

  /** `NewSemVer` answers with the plain spelling of the version a text names, and only then. */
  lemma NewSemVerMeaning(s: string, c: string)
    ensures NewSemVer(s) == Some(c) <==> exists v :: Normalizes(s, v, c)
  {
    hide Names, Spells, ParseTolerant, SemVer.Print, Valid;
    if NewSemVer(s) == Some(c) {
      var v := ParseTolerant(s).value;
      ParseTolerantMeaning(s, v);
      ParseTolerantValid(s);
      PrintSpells(c, v);
      assert Normalizes(s, v, c);
    }
    if exists v :: Normalizes(s, v, c) {
      var v :| Normalizes(s, v, c);
      ParseTolerantMeaning(s, v);
      PrintSpells(c, v);
    }
  }

  /** A character JSON writes as it is. */
  predicate PlainChar(c: char) {
    c >= ' ' && c != '\"' && c != '\\' && c !in "<>&" && c != '\U{2028}' && c != '\U{2029}'
  }

  predicate PlainChars(s: string) {
    forall c | c in s :: PlainChar(c)
  }

  lemma PlainEscape(c: char)
    requires PlainChar(c)
    ensures Escape(c) == [c]
  {
  }

  lemma {:induction false} PlainEscapes(s: string)
    requires PlainChars(s)
    ensures EscapeAll(s) == s
  {
    hide Escape, PlainChar;
    if s != "" {
      PlainEscape(s[0]);
      PlainEscapes(s[1..]);
      assert s == [s[0]] + s[1..];
    }
  }

  lemma PrintedChars(v: Version)
    requires Valid(v)
    ensures PlainChars(SemVer.Print(v))
  {
    hide Valid, PrintPres;
    ValidParts(v);
    ParsePrintPres(v.pre);
    JoinIdentChars(PrintPres(v.pre));
    JoinIdentChars(v.build);
    var c := SemVer.Print(v);
    assert forall d | d in c :: IdentChar(d) || d == '.' || d == '+';
  }

  /** In JSON a version is its plain spelling in quotes, and any spelling in quotes is read. */
  lemma JsonMeaning(s: string, c: string)
    requires s != ""
    ensures NewSemVer(s) == Some(c) ==> MarshalJSON(c) == "\"" + c + "\""
    ensures PlainChars(s) ==> (Unmarshalled("\"" + s + "\"") == Some(c) <==> exists v :: Normalizes(s, v, c))
    ensures Unmarshalled("null") == Some("") && Unmarshalled("\"\"") == Some("")
  {
    hide Normalizes, NewSemVer, SemVer.Print, DecodeString;
    NewSemVerMeaning(s, c);
    if NewSemVer(s) == Some(c) {
      var v :| Normalizes(s, v, c);
      SpelledIsPlain(s, v, c);
      PlainEscapes(c);
    }
    if PlainChars(s) {
      PlainEscapes(s);
      DecodeEncode(s);
    }
    DecodeEncode("");
    assert EncodeString("") == "\"\"";
    assert DecodeString("null") == Some("") by { NullIsEmpty(); }
  }

  lemma NullIsEmpty()
    ensures DecodeString("null") == Some("")
  {
  }

  lemma SpelledIsPlain(s: string, v: Version, c: string)
    requires Normalizes(s, v, c)
    ensures PlainChars(c)
  {
    hide Names, Spells, PlainChars;
    PrintSpells(c, v);
    PrintedChars(v);
  }

  ghost predicate NewerBy(s: string, t: string, v: Version, w: Version) {
    Names(s, v) && Names(t, w) && Precedes(w, v)
  }

  /** `GT` compares the versions two texts name. */
  lemma GTOfTexts(s: string, t: string)
    ensures GT(s, t) <==> exists v, w :: NewerBy(s, t, v, w)
  {
    hide Names, ParseTolerant, GT, Precedes;
    GTMeaning(s, t);
    if GT(s, t) {
      var v, w := ParseTolerant(s).value, ParseTolerant(t).value;
      ParseTolerantMeaning(s, v);
      ParseTolerantMeaning(t, w);
      assert NewerBy(s, t, v, w);
    }
    if exists v, w :: NewerBy(s, t, v, w) {
      var v, w :| NewerBy(s, t, v, w);
      ParseTolerantMeaning(s, v);
      ParseTolerantMeaning(t, w);
    }
  }

  /** A platform version that names nothing counts as 0.0.0. */
  ghost predicate Released(platformVersion: string, release: Version) {
    Names(platformVersion, release)
    || ((forall v :: !Names(platformVersion, v)) && release == Version(0, 0, 0, [], []))
  }

  lemma ReleaseMeaning(platformVersion: string, release: Version)
    ensures ReleaseVersion(platformVersion) == release <==> Released(platformVersion, release)
  {
    hide Names, ParseTolerant;
    forall v
      ensures ParseTolerant(platformVersion) == Some(v) <==> Names(platformVersion, v)
    {
      ParseTolerantMeaning(platformVersion, v);
    }
    if platformVersion == "" {
      NothingNamesNothing();
    }
  }

  lemma NothingNamesNothing()
    ensures ParseTolerant("") == None
  {
    hide Parse;
    assert TrimSpace("") == "" && TrimV("") == "";
    NoDot("");
    UnpadSome("", "", "");
    assert Unpad("") == "";
    assert ParseTolerant("") == ParseParts([""]);
    if ParseParts([""]).Some? {
      OneNumber("", ParseParts([""]).value);
    }
  }

  /** A process starts exactly when its version names one; its identity is what it was built and configured with. */
  lemma {:induction false} NewProcessMeaning(version: string, build: Build, platformName: string, platformVersion: string, p: Process)
    ensures NewProcess(version, build, platformName, platformVersion) == Some(p)
            <==> (exists v :: Normalizes(version, v, p.version))
                 && p.build == build && p.platformName == platformName && Released(platformVersion, p.release)
  {
    hide NewSemVer, Normalizes, Released, ReleaseVersion;
    NewSemVerMeaning(version, p.version);
    ReleaseMeaning(platformVersion, p.release);
  }

  lemma LooseNumbers()
    ensures Numeral("010", 10) && Numeral("2", 2)
    ensures Decimal.Print(10) == "10" && Decimal.Print(2) == "2" && Decimal.Print(0) == "0"
  {
    var s := "010";
    assert s[..2] == "01" && "01"[..1] == "0" && "0"[..0] == "";
    assert Value("0") == 0 && Value("01") == 1;
    assert "2"[..0] == "";
    assert Decimal.Print(1) == "1";
  }

  /** Space, a leading `v`, zeros in front and a missing number are no obstacle. */
  lemma LooseVersionIsRead()
    ensures NewSemVer(" v010.2\n") == Some("10.2.0")
  {
    hide Numeral, Decimal.Print, ParseTolerant;
    var v := Version(10, 2, 0, [], []);
    LooseNumbers();
    assert "010" + "." + "2" == "010.2" && "v" + "010.2" == "v010.2" && " " + "v010.2" + "\n" == " v010.2\n";
    assert NamesTwo("010.2", "010", "2", v);
    assert Framed(" v010.2\n", " ", "v010.2", "\n", "010.2");
    assert Names(" v010.2\n", v);
    ParseTolerantMeaning(" v010.2\n", v);
    assert PrintTail(v) == "0";
    assert "10" + "." + "2" + "." + "0" == "10.2.0";
  }
}
