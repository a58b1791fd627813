/**
 `SemVer.GT`: the comparison code, the declarative order of section 11 of Semantic
 Versioning 2.0.0, and the laws of `GT` on arbitrary strings.
 */
module Precedence {
  import opened SemVer

  // ---------------------------------------------------------------- The comparison code

  function Sign(a: int, b: int): (c: int)
    ensures -1 <= c <= 1
  {
    if a < b then -1 else if a > b then 1 else 0
  }

  /** Go's order on strings. */
  function CompareText(a: string, b: string): (c: int)
    ensures -1 <= c <= 1
  {
    if a == "" || b == "" then Sign(|a|, |b|)
    else if a[0] != b[0] then Sign(a[0] as int, b[0] as int)
    else CompareText(a[1..], b[1..])
  }

  function ComparePre(p: PreId, q: PreId): (c: int)
    ensures -1 <= c <= 1
  {
    match (p, q)
    case (Numeric(m), Numeric(n)) => Sign(m, n)
    case (Numeric(_), Alpha(_)) => -1
    case (Alpha(_), Numeric(_)) => 1
    case (Alpha(a), Alpha(b)) => CompareText(a, b)
  }

  function ComparePres(ps: seq<PreId>, qs: seq<PreId>): (c: int)
    ensures -1 <= c <= 1
  {
    if ps == [] || qs == [] then Sign(|ps|, |qs|)
    else
      var c := ComparePre(ps[0], qs[0]);
      if c != 0 then c else ComparePres(ps[1..], qs[1..])
  }

  function Compare(v: Version, w: Version): (c: int)
    ensures -1 <= c <= 1
  {
    if v.major != w.major then Sign(v.major, w.major)
    else if v.minor != w.minor then Sign(v.minor, w.minor)
    else if v.patch != w.patch then Sign(v.patch, w.patch)
    else if v.pre == [] || w.pre == [] then Sign(|w.pre|, |v.pre|)
    else ComparePres(v.pre, w.pre)
  }

  /** `SemVer.GT`: false as soon as one side does not parse. */
  predicate GT(s: string, t: string) {
    match (ParseTolerant(s), ParseTolerant(t))
    case (Some(v), Some(w)) => Compare(v, w) == 1
    case _ => false
  }

  // ---------------------------------------------------------------- Section 11

  /** `a` is smaller at the first difference, or is a proper beginning of `b`. */
  ghost predicate FirstDifference<T(!new)>(less: (T, T) -> bool, a: seq<T>, b: seq<T>) {
    exists k | 0 <= k <= |a| && k < |b| :: a[..k] == b[..k] && (k == |a| || less(a[k], b[k]))
  }

  predicate CharLess(c: char, d: char) {
    c < d
  }

  /** 11.4.1 to 11.4.3: numbers numerically, texts in ASCII order, numbers below texts. */
  ghost predicate IdLess(p: PreId, q: PreId) {
    match (p, q)
    case (Numeric(m), Numeric(n)) => m < n
    case (Numeric(_), Alpha(_)) => true
    case (Alpha(_), Numeric(_)) => false
    case (Alpha(a), Alpha(b)) => FirstDifference(CharLess, a, b)
  }

  /** 11.3 and 11.4.4: a pre-release is below its release, a shorter list below a longer one. */
  ghost predicate PreLess(ps: seq<PreId>, qs: seq<PreId>) {
    if ps == [] || qs == [] then ps != [] else FirstDifference(IdLess, ps, qs)
  }

  ghost predicate Precedes(v: Version, w: Version) {
    || v.major < w.major
    || (v.major == w.major && v.minor < w.minor)
    || (v.major == w.major && v.minor == w.minor && v.patch < w.patch)
    || (v.major == w.major && v.minor == w.minor && v.patch == w.patch && PreLess(v.pre, w.pre))
  }

  /** 10: build metadata takes no part in precedence. */
  ghost predicate SamePrecedence(v: Version, w: Version) {
    v.(build := []) == w.(build := [])
  }

  lemma LaterDifference<T(!new)>(less: (T, T) -> bool, a: seq<T>, b: seq<T>)
    requires a != [] && b != [] && a[0] == b[0]
    requires FirstDifference(less, a[1..], b[1..])
    ensures FirstDifference(less, a, b)
  {
    var k :| 0 <= k <= |a[1..]| && k < |b[1..]| && a[1..][..k] == b[1..][..k]
      && (k == |a[1..]| || less(a[1..][k], b[1..][k]));
    assert a[..k + 1] == [a[0]] + a[1..][..k] == [b[0]] + b[1..][..k] == b[..k + 1];
  }

  lemma FirstDifferenceStep<T(!new)>(less: (T, T) -> bool, a: seq<T>, b: seq<T>)
    requires a != [] && b != []
    requires !less(a[0], a[0])
    ensures FirstDifference(less, a, b) <==>
            less(a[0], b[0]) || (a[0] == b[0] && FirstDifference(less, a[1..], b[1..]))
  {
    if FirstDifference(less, a, b) {
      var k :| 0 <= k <= |a| && k < |b| && a[..k] == b[..k] && (k == |a| || less(a[k], b[k]));
      if k > 0 {
        assert a[0] == a[..k][0] == b[..k][0] == b[0];
        assert a[1..][..k - 1] == a[..k][1..] == b[..k][1..] == b[1..][..k - 1];
      }
    }
    if less(a[0], b[0]) {
      assert a[..0] == b[..0];
    }
    if a[0] == b[0] && FirstDifference(less, a[1..], b[1..]) {
      LaterDifference(less, a, b);
    }
  }

  lemma FirstDifferenceEmpty<T(!new)>(less: (T, T) -> bool, a: seq<T>, b: seq<T>)
    requires a == [] || b == []
    ensures FirstDifference(less, a, b) <==> |a| < |b|
  {
    if a == [] && b != [] {
      assert a[..0] == b[..0];
    }
  }

  lemma {:induction false} CompareTextMeaning(a: string, b: string)
    ensures CompareText(a, b) == -1 <==> FirstDifference(CharLess, a, b)
    ensures CompareText(a, b) == 0 <==> a == b
    ensures CompareText(a, b) == 1 <==> FirstDifference(CharLess, b, a)
  {
    if a == "" || b == "" {
      FirstDifferenceEmpty(CharLess, a, b);
      FirstDifferenceEmpty(CharLess, b, a);
    } else {
      FirstDifferenceStep(CharLess, a, b);
      FirstDifferenceStep(CharLess, b, a);
      CompareTextMeaning(a[1..], b[1..]);
      assert a == [a[0]] + a[1..] && b == [b[0]] + b[1..];
    }
  }

  lemma ComparePreMeaning(p: PreId, q: PreId)
    ensures ComparePre(p, q) == -1 <==> IdLess(p, q)
    ensures ComparePre(p, q) == 0 <==> p == q
    ensures ComparePre(p, q) == 1 <==> IdLess(q, p)
  {
    if p.Alpha? && q.Alpha? {
      CompareTextMeaning(p.text, q.text);
    }
  }

  lemma {:induction false} ComparePresMeaning(ps: seq<PreId>, qs: seq<PreId>)
    ensures ComparePres(ps, qs) == -1 <==> FirstDifference(IdLess, ps, qs)
    ensures ComparePres(ps, qs) == 0 <==> ps == qs
    ensures ComparePres(ps, qs) == 1 <==> FirstDifference(IdLess, qs, ps)
  {
    hide FirstDifference, ComparePre, IdLess;
    if ps == [] || qs == [] {
      FirstDifferenceEmpty(IdLess, ps, qs);
      FirstDifferenceEmpty(IdLess, qs, ps);
    } else {
      ComparePreMeaning(ps[0], qs[0]);
      ComparePreMeaning(ps[0], ps[0]);
      ComparePreMeaning(qs[0], qs[0]);
      FirstDifferenceStep(IdLess, ps, qs);
      FirstDifferenceStep(IdLess, qs, ps);
      ComparePresMeaning(ps[1..], qs[1..]);
      assert ps == [ps[0]] + ps[1..] && qs == [qs[0]] + qs[1..];
    }
  }

  /** The comparison code decides section 11: exactly one of below, same and above. */
  lemma CompareMeaning(v: Version, w: Version)
    ensures Compare(v, w) == -1 <==> Precedes(v, w)
    ensures Compare(v, w) == 0 <==> SamePrecedence(v, w)
    ensures Compare(v, w) == 1 <==> Precedes(w, v)
  {
    ComparePresMeaning(v.pre, w.pre);
  }

  lemma ComparisonIsSign(v: Version, w: Version)
    ensures -1 <= Compare(v, w) <= 1
  {
  }

  /** What `GT` decides, on every pair of strings. */
  lemma GTMeaning(s: string, t: string)
    ensures GT(s, t) <==>
            && ParseTolerant(s).Some? && ParseTolerant(t).Some?
            && Precedes(ParseTolerant(t).value, ParseTolerant(s).value)
  {
    hide ParseTolerant, Compare, Precedes, SamePrecedence;
    if ParseTolerant(s).Some? && ParseTolerant(t).Some? {
      CompareMeaning(ParseTolerant(s).value, ParseTolerant(t).value);
      ComparisonIsSign(ParseTolerant(s).value, ParseTolerant(t).value);
    }
  }

  // ---------------------------------------------------------------- A total preorder

  lemma {:induction false} CompareTextTransitive(a: string, b: string, c: string)
    requires CompareText(a, b) <= 0 && CompareText(b, c) <= 0
    ensures CompareText(a, c) <= 0
  {
    if a != "" && b != "" && c != "" && a[0] == b[0] == c[0] {
      CompareTextTransitive(a[1..], b[1..], c[1..]);
    }
  }

  lemma ComparePreTransitive(p: PreId, q: PreId, r: PreId)
    requires ComparePre(p, q) <= 0 && ComparePre(q, r) <= 0
    ensures ComparePre(p, r) <= 0
  {
    if p.Alpha? && q.Alpha? && r.Alpha? {
      CompareTextTransitive(p.text, q.text, r.text);
    }
  }

  lemma {:induction false} ComparePresTransitive(ps: seq<PreId>, qs: seq<PreId>, rs: seq<PreId>)
    requires ComparePres(ps, qs) <= 0 && ComparePres(qs, rs) <= 0
    ensures ComparePres(ps, rs) <= 0
  {
    if ps != [] && qs != [] && rs != [] {
      var p, q, r := ps[0], qs[0], rs[0];
      ComparePreTransitive(p, q, r);
      ComparePreMeaning(p, q);
      ComparePreMeaning(q, r);
      ComparePreMeaning(p, r);
      if ComparePre(p, r) == 0 {
        ComparePreMeaning(q, p);
        assert p == q == r;
        ComparePresTransitive(ps[1..], qs[1..], rs[1..]);
      }
    }
  }

  lemma CompareTransitive(u: Version, v: Version, w: Version)
    requires Compare(u, v) <= 0 && Compare(v, w) <= 0
    ensures Compare(u, w) <= 0
  {
    if u.pre != [] && v.pre != [] && w.pre != []
      && (u.major, u.minor, u.patch) == (v.major, v.minor, v.patch) == (w.major, w.minor, w.patch)
    {
      ComparePresTransitive(u.pre, v.pre, w.pre);
    }
  }

  lemma CompareIsTotalPreorder(u: Version, v: Version, w: Version)
    ensures Compare(u, v) == -Compare(v, u)
    ensures Compare(u, v) <= 0 && Compare(v, w) <= 0 ==> Compare(u, w) <= 0
  {
    CompareMeaning(u, v);
    CompareMeaning(v, u);
    if Compare(u, v) <= 0 && Compare(v, w) <= 0 {
      CompareTransitive(u, v, w);
    }
  }

  lemma GTParsed(s: string, t: string)
    requires ParseTolerant(s).Some? && ParseTolerant(t).Some?
    ensures GT(s, t) <==> Compare(ParseTolerant(s).value, ParseTolerant(t).value) == 1
  {
  }

  /** On strings that parse, "not greater" is a total preorder; its ties are the versions that differ in build metadata only. */
  lemma NotGreaterIsTotalPreorder(s: string, t: string, u: string)
    requires ParseTolerant(s).Some? && ParseTolerant(t).Some? && ParseTolerant(u).Some?
    ensures !GT(s, t) || !GT(t, s)
    ensures !GT(s, t) && !GT(t, u) ==> !GT(s, u)
    ensures !GT(s, t) && !GT(t, s) <==> SamePrecedence(ParseTolerant(s).value, ParseTolerant(t).value)
  {
    hide ParseTolerant, GT, Compare, SamePrecedence;
    CompareIsTotalPreorder(ParseTolerant(s).value, ParseTolerant(t).value, ParseTolerant(u).value);
    CompareMeaning(ParseTolerant(s).value, ParseTolerant(t).value);
    GTParsed(s, t);
    GTParsed(t, s);
    GTParsed(t, u);
    GTParsed(s, u);
  }

  /** On all strings, parseable or not, `GT` is a strict order. */
  lemma GTIsStrictOrder(s: string, t: string, u: string)
    ensures !GT(s, s)
    ensures GT(s, t) ==> !GT(t, s)
    ensures GT(s, t) && GT(t, u) ==> GT(s, u)
  {
    if ParseTolerant(s).Some? {
      NotGreaterIsTotalPreorder(s, s, s);
      if ParseTolerant(t).Some? {
        NotGreaterIsTotalPreorder(s, t, s);
        if ParseTolerant(u).Some? {
          NotGreaterIsTotalPreorder(u, s, t);
          NotGreaterIsTotalPreorder(s, u, t);
          NotGreaterIsTotalPreorder(t, u, s);
        }
      }
    }
  }

  /** Comparing canonical forms instead of the strings they came from changes nothing. */
  lemma GTOfCanonicalForms(s: string, t: string)
    requires NewSemVer(s).Some? && NewSemVer(t).Some?
    ensures GT(s, t) == GT(NewSemVer(s).value, NewSemVer(t).value)
  {
    CanonicalFixpoint(s);
    CanonicalFixpoint(t);
  }
}
