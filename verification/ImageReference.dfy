/**
 Image references: the split into repository and tag, its inverse in the chart, and the
 same split in the script that resolves digests.
 */
module ImageReference {
  import opened Wrappers
  import opened GoStrings

  const DEFAULT_TAG := "latest"

  /** The colon at `i` starts a tag: it is the last colon, and no slash follows it. */
  ghost predicate TagColon(image: string, i: nat) {
    && i < |image| && image[i] == ':'
    && forall j | i < j < |image| :: image[j] != ':' && image[j] != '/'
  }

  /** A reference the compiler sees a tag in; it looks at references of at least two characters only. */
  ghost predicate Tagged(image: string) {
    |image| >= 2 && exists i: nat :: TagColon(image, i)
  }

  /** Walks back from position `n` to a colon, not beyond a slash. */
  function FindTag(image: string, n: nat): (i: Option<nat>)
    requires n <= |image|
    ensures i.Some? ==> i.value < n
  {
    if n == 0 || image[n - 1] == '/' then None
    else if image[n - 1] == ':' then Some(n - 1)
    else FindTag(image, n - 1)
  }

  function SplitTag(image: string): (string, string) {
    match if |image| < 2 then None else FindTag(image, |image|)
    case None => (image, DEFAULT_TAG)
    case Some(i) => (image[..i], image[i + 1..])
  }

  lemma {:induction false} FindTagMeaning(image: string, n: nat, i: nat)
    requires n <= |image|
    requires forall j | n <= j < |image| :: image[j] != ':' && image[j] != '/'
    ensures TagColon(image, i) <==> FindTag(image, n) == Some(i)
  {
    if n > 0 && image[n - 1] != '/' && image[n - 1] != ':' {
      FindTagMeaning(image, n - 1, i);
    }
  }

  /** `splitImageTag`: the backward scan finds the last colon behind the last slash. */
  method SplitImageTag(image: string) returns (repository: string, tag: string)
    ensures (repository, tag) == SplitTag(image)
  {
    var idx := |image| - 1;
    if idx > 0 {
      var i := idx;
      while i >= 0
        invariant -1 <= i <= idx
        invariant FindTag(image, |image|) == FindTag(image, i + 1)
      {
        if image[i] == ':' {
          return image[..i], image[i + 1..];
        }
        if image[i] == '/' {
          break;
        }
        i := i - 1;
      }
    }
    return image, DEFAULT_TAG;
  }

  /** What the split means, on every reference. */
  lemma SplitTagMeaning(image: string)
    ensures Tagged(image) ==>
              exists i: nat :: TagColon(image, i) && SplitTag(image) == (image[..i], image[i + 1..])
    ensures !Tagged(image) ==> SplitTag(image) == (image, DEFAULT_TAG)
  {
    forall i: nat
      ensures TagColon(image, i) <==> FindTag(image, |image|) == Some(i)
    {
      FindTagMeaning(image, |image|, i);
    }
  }

  /** `chart.imageRef` on the parts: the reference again, with the default tag when it has none. */
  lemma ReferenceComesBack(image: string)
    ensures var (repository, tag) := SplitTag(image);
            repository + ":" + tag == if Tagged(image) then image else image + ":latest"
  {
    SplitTagMeaning(image);
    if Tagged(image) {
      var i: nat :| TagColon(image, i) && SplitTag(image) == (image[..i], image[i + 1..]);
      assert image[..i] + ":" + image[i + 1..] == image;
    } else {
      assert image + ":" + DEFAULT_TAG == image + ":latest";
    }
  }

  // ---------------------------------------------------------------- The shell script

  /** The position behind the last `c`, or 0. */
  function AfterLast(s: string, c: char): (i: nat)
    ensures i <= |s|
    ensures i > 0 ==> s[i - 1] == c
    ensures c !in s[i..]
  {
    if s == "" then 0
    else if s[|s| - 1] == c then |s|
    else
      var i := AfterLast(s[..|s| - 1], c);
      assert s[i..] == s[..|s| - 1][i..] + [s[|s| - 1]];
      i
  }

  /** `image_name`, `last_segment` and `repo_name` of the script. */
  function ShellRepository(ref: string): string {
    var imageName := ref[..IndexOf(ref, '@')];
    var lastSegment := imageName[AfterLast(imageName, '/')..];
    if ':' in lastSegment then imageName[..AfterLast(imageName, ':') - 1] else imageName
  }

  lemma NoneAfterLast(s: string, c: char, j: nat)
    requires AfterLast(s, c) <= j < |s|
    ensures s[j] != c
  {
    var k := AfterLast(s, c);
    assert s[k..][j - k] == s[j];
  }

  lemma BeforeAfterLast(s: string, c: char, j: nat)
    requires j < |s| && s[j] == c
    ensures j < AfterLast(s, c)
  {
    assert forall k | AfterLast(s, c) <= k < |s| :: s[k] == s[AfterLast(s, c)..][k - AfterLast(s, c)];
  }

  lemma AfterLastIs(s: string, c: char, i: nat)
    requires i < |s| && s[i] == c && forall j | i < j < |s| :: s[j] != c
    ensures AfterLast(s, c) == i + 1
  {
    hide AfterLast;
    BeforeAfterLast(s, c, i);
  }

  lemma InSuffix(s: string, k: nat, j: nat)
    requires k <= j < |s|
    ensures s[j] in s[k..]
  {
    assert s[k..][j - k] == s[j];
  }

  lemma ShellColon(name: string, i: nat)
    requires TagColon(name, i)
    ensures ':' in name[AfterLast(name, '/')..] && AfterLast(name, ':') == i + 1
  {
    hide AfterLast;
    AfterLastIs(name, ':', i);
    InSuffix(name, AfterLast(name, '/'), i);
  }

  lemma ShellFindsColon(name: string)
    requires ':' in name[AfterLast(name, '/')..]
    ensures AfterLast(name, ':') > 0 && TagColon(name, AfterLast(name, ':') - 1)
  {
    hide AfterLast;
    var k, c := AfterLast(name, '/'), AfterLast(name, ':');
    var j :| 0 <= j < |name[k..]| && name[k..][j] == ':';
    BeforeAfterLast(name, ':', k + j);
    forall m | c <= m < |name|
      ensures name[m] != ':' && name[m] != '/'
    {
      NoneAfterLast(name, ':', m);
      NoneAfterLast(name, '/', m);
    }
  }

  lemma ShellNoColon(name: string)
    requires forall i: nat :: !TagColon(name, i)
    ensures ':' !in name[AfterLast(name, '/')..]
  {
    hide AfterLast, TagColon;
    if ':' in name[AfterLast(name, '/')..] {
      ShellFindsColon(name);
    }
  }

  /** The script's repository is what stands before the tag colon of the part before the first `@`. */
  lemma ShellMeaning(ref: string)
    ensures var name := ref[..IndexOf(ref, '@')];
            && (forall i: nat :: TagColon(name, i) ==> ShellRepository(ref) == name[..i])
            && ((forall i: nat :: !TagColon(name, i)) ==> ShellRepository(ref) == name)
  {
    var name := ref[..IndexOf(ref, '@')];
    forall i: nat | TagColon(name, i)
      ensures ShellRepository(ref) == name[..i]
    {
      ShellColon(name, i);
    }
    if forall i: nat :: !TagColon(name, i) {
      ShellNoColon(name);
    }
  }

  lemma ShellHasNoAt(ref: string)
    ensures '@' !in ShellRepository(ref)
  {
    var name := ref[..IndexOf(ref, '@')];
    ShellMeaning(ref);
    if exists i: nat :: TagColon(name, i) {
      var i: nat :| TagColon(name, i);
      assert forall c | c in name[..i] :: c in name;
    }
  }

  /** Some tag colon stands before the first `@`, if there is an `@`. */
  ghost predicate TagBeforeDigest(ref: string) {
    '@' in ref ==> exists i: nat :: TagColon(ref, i) && i < IndexOf(ref, '@')
  }

  /**
   The compiler and the script agree on the repository exactly when no `@` stands before the
   tag and the reference is not a lone colon; so they agree on every other reference without
   an `@`.
   */
  lemma SameRepository(ref: string)
    ensures SplitTag(ref).0 == ShellRepository(ref) <==> TagBeforeDigest(ref) && ref != ":"
    ensures '@' !in ref ==> (SplitTag(ref).0 == ShellRepository(ref) <==> ref != ":")
  {
    hide ShellRepository, SplitTag;
    var name := ref[..IndexOf(ref, '@')];
    ShellHasNoAt(ref);
    ShellMeaning(ref);
    SplitTagMeaning(ref);
    RepositoryWithoutAt(ref);
    if Tagged(ref) {
      var i: nat :| TagColon(ref, i) && SplitTag(ref) == (ref[..i], ref[i + 1..]);
      if '@' !in ref[..i] {
        TagBeforeAt(ref, i);
      }
    } else if '@' !in ref {
      assert name == ref;
      if |ref| < 2 && ref != "" && ref[0] == ':' {
        assert TagColon(ref, 0) && ref == ":";
      }
    }
  }

  lemma TagBeforeAt(ref: string, i: nat)
    requires TagColon(ref, i) && '@' !in ref[..i]
    ensures var name := ref[..IndexOf(ref, '@')]; TagColon(name, i) && name[..i] == ref[..i]
  {
    assert forall k | 0 <= k < i :: ref[..i][k] == ref[k] && ref[..i][k] in ref[..i];
  }

  lemma BeforeIndex(s: string, c: char, i: nat)
    requires i <= |s| && c in s
    ensures c !in s[..i] <==> i <= IndexOf(s, c)
  {
    var k := IndexOf(s, c);
    assert s[..|s|] == s;
    if i <= k {
      assert forall j | 0 <= j < i :: s[..i][j] == s[..k][j] && s[..k][j] in s[..k];
    } else {
      assert s[..i][k] == c;
    }
  }

  /** The compiler's repository holds no `@` exactly when the tag starts before it. */
  lemma RepositoryWithoutAt(ref: string)
    ensures '@' !in SplitTag(ref).0 <==> TagBeforeDigest(ref)
  {
    hide SplitTag, IndexOf;
    SplitTagMeaning(ref);
    if '@' in ref {
      if Tagged(ref) {
        var i: nat :| TagColon(ref, i) && SplitTag(ref) == (ref[..i], ref[i + 1..]);
        BeforeIndex(ref, '@', i);
        assert ref[i] == ':';
        assert IndexOf(ref, '@') != i;
        assert forall m: nat | TagColon(ref, m) :: m == i;
      } else {
        assert |ref| < 2 ==> ref == "@";
      }
    } else if Tagged(ref) {
      var i: nat :| TagColon(ref, i) && SplitTag(ref) == (ref[..i], ref[i + 1..]);
      assert forall c | c in ref[..i] :: c in ref;
    }
  }

  /**
   A digest is taken for a tag.  The script leaves references with `@sha256:` and references
   into the cluster alone before it gets to the split, and this is neither.
   */
  lemma DigestIsTakenForTag()
    ensures !Contains("r@sha512:0", "@sha256:") && !Contains("r@sha512:0", ".svc")
    ensures SplitTag("r@sha512:0") == ("r@sha512", "0")
    ensures ShellRepository("r@sha512:0") == "r"
  {
    hide Contains, FindTag, ShellRepository, IndexOf;
    var ref := "r@sha512:0";
    DigestReachesSplit();
    assert TagColon(ref, 8);
    FindTagMeaning(ref, |ref|, 8);
    assert ref[..8] == "r@sha512" && ref[9..] == "0";
    assert ref[..1] == "r" && ref[1] == '@';
    IndexOfAt(ref, '@', 1);
    ShellMeaning(ref);
    assert forall i: nat :: !TagColon("r", i);
  }

  lemma DigestReachesSplit()
    ensures !Contains("r@sha512:0", "@sha256:") && !Contains("r@sha512:0", ".svc")
  {
    hide Contains;
    assert "@sha256:"[6] == '6' && ".svc"[0] == '.';
    if Contains("r@sha512:0", "@sha256:") {
      ContainsChars("r@sha512:0", "@sha256:", '6');
    }
    if Contains("r@sha512:0", ".svc") {
      ContainsChars("r@sha512:0", ".svc", '.');
    }
  }
}
