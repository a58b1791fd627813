/**
 From resources to template files: grouping by kind, one file per group, and the documents
 in a file.
 */
module ChartFiles {
  import opened Yaml

  // ---------------------------------------------------------------- Grouping

  datatype GVK = GVK(group: string, version: string, kind: string)

  datatype Resource = Resource(gvk: GVK, obj: Entries)

  const NAMESPACE := GVK("", "v1", "Namespace")
  const DEPLOYMENT := GVK("apps", "v1", "Deployment")
  const SERVICE_ACCOUNT := GVK("", "v1", "ServiceAccount")
  const CONFIG_MAP := GVK("", "v1", "ConfigMap")
  const CLUSTER_ROLE_BINDING := GVK("rbac.authorization.k8s.io", "v1", "ClusterRoleBinding")
  const ROLE_BINDING := GVK("rbac.authorization.k8s.io", "v1", "RoleBinding")
  const MUTATING_WEBHOOK := GVK("admissionregistration.k8s.io", "v1", "MutatingWebhookConfiguration")
  const VALIDATING_WEBHOOK := GVK("admissionregistration.k8s.io", "v1", "ValidatingWebhookConfiguration")
  const CERTIFICATE := GVK("cert-manager.io", "v1", "Certificate")

  /** The resources of one kind, in their order. */
  function OfKind(resources: seq<Resource>, gvk: GVK): seq<Resource> {
    if resources == [] then []
    else
      var last := resources[|resources| - 1];
      OfKind(resources[..|resources| - 1], gvk) + if last.gvk == gvk then [last] else []
  }

  /** The resources a chart is made of: Helm manages the namespace itself. */
  function Charted(resources: seq<Resource>): seq<Resource> {
    if resources == [] then []
    else
      var last := resources[|resources| - 1];
      Charted(resources[..|resources| - 1]) + if last.gvk != NAMESPACE then [last] else []
  }

  ghost predicate Grouped(resources: seq<Resource>, groups: map<GVK, seq<Resource>>) {
    && (forall gvk :: gvk in groups <==> gvk != NAMESPACE && OfKind(resources, gvk) != [])
    && (forall gvk | gvk in groups :: groups[gvk] == OfKind(resources, gvk))
  }

  /** `groupByGVK`. */
  method GroupByGVK(resources: seq<Resource>) returns (groups: map<GVK, seq<Resource>>)
    ensures Grouped(resources, groups)
  {
    groups := map[];
    for i := 0 to |resources|
      invariant Grouped(resources[..i], groups)
    {
      var r := resources[i];
      assert resources[..i + 1][..|resources[..i + 1]| - 1] == resources[..i];
      if r.gvk == NAMESPACE {
        continue;
      }
      groups := groups[r.gvk := (if r.gvk in groups then groups[r.gvk] else []) + [r]];
    }
    assert resources[..|resources|] == resources;
  }

  /** All groups, one after the other, in a given order. */
  ghost function Gathered(groups: map<GVK, seq<Resource>>, order: seq<GVK>): seq<Resource>
    requires forall gvk | gvk in order :: gvk in groups
  {
    if order == [] then [] else groups[order[0]] + Gathered(groups, order[1..])
  }

  ghost predicate Enumerates<T(!new)>(order: seq<T>, all: set<T>) {
    && (forall x :: x in order <==> x in all)
    && (forall i, j | 0 <= i < j < |order| :: order[i] != order[j])
  }

  lemma {:induction false} OfKindCount(resources: seq<Resource>, gvk: GVK, r: Resource)
    ensures multiset(OfKind(resources, gvk))[r] == if r.gvk == gvk then multiset(resources)[r] else 0
  {
    if resources != [] {
      var front, last := resources[..|resources| - 1], resources[|resources| - 1];
      OfKindCount(front, gvk, r);
      assert resources == front + [last];
    }
  }

  lemma {:induction false} ChartedCount(resources: seq<Resource>, r: Resource)
    ensures multiset(Charted(resources))[r] == if r.gvk != NAMESPACE then multiset(resources)[r] else 0
  {
    if resources != [] {
      var front, last := resources[..|resources| - 1], resources[|resources| - 1];
      ChartedCount(front, r);
      assert resources == front + [last];
    }
  }

  lemma {:induction false} GatheredCount(resources: seq<Resource>, groups: map<GVK, seq<Resource>>, order: seq<GVK>, r: Resource)
    requires Grouped(resources, groups) && forall gvk | gvk in order :: gvk in groups
    requires forall i, j | 0 <= i < j < |order| :: order[i] != order[j]
    ensures multiset(Gathered(groups, order))[r] == if r.gvk in order then multiset(resources)[r] else 0
  {
    if order != [] {
      assert order == [order[0]] + order[1..];
      GatheredCount(resources, groups, order[1..], r);
      OfKindCount(resources, order[0], r);
      assert order[0] !in order[1..];
    }
  }

  /** Grouping loses and duplicates nothing: the groups together hold every charted resource once. */
  lemma GroupsArePartition(resources: seq<Resource>, groups: map<GVK, seq<Resource>>, order: seq<GVK>)
    requires Grouped(resources, groups) && Enumerates(order, groups.Keys)
    ensures multiset(Gathered(groups, order)) == multiset(Charted(resources))
  {
    forall r: Resource
      ensures multiset(Gathered(groups, order))[r] == multiset(Charted(resources))[r]
    {
      GatheredCount(resources, groups, order, r);
      ChartedCount(resources, r);
      OfKindCount(resources, r.gvk, r);
      if r.gvk !in order && r.gvk != NAMESPACE {
        assert OfKind(resources, r.gvk) == [];
      }
    }
  }

  /** Every resource but a namespace, written out as what it is. */
  lemma ChartedIsAllButNamespaces(resources: seq<Resource>, r: Resource)
    ensures multiset(Charted(resources))[r] == if r.gvk == GVK("", "v1", "Namespace") then 0 else multiset(resources)[r]
  {
    ChartedCount(resources, r);
  }

  /** The positions of the resources of one kind, in increasing order and without a gap. */
  ghost predicate KindAt(resources: seq<Resource>, gvk: GVK, at: seq<nat>) {
    && (forall i | 0 <= i < |at| :: at[i] < |resources| && resources[at[i]].gvk == gvk)
    && (forall i, j | 0 <= i < j < |at| :: at[i] < at[j])
    && (forall k: nat | k < |resources| && resources[k].gvk == gvk :: k in at)
  }

  lemma KindAtSnoc(front: seq<Resource>, last: Resource, gvk: GVK, at: seq<nat>)
    requires KindAt(front, gvk, at)
    ensures KindAt(front + [last], gvk, at + if last.gvk == gvk then [|front|] else [])
  {
    var more := at + if last.gvk == gvk then [|front|] else [];
    forall k: nat | k < |front| + 1 && (front + [last])[k].gvk == gvk
      ensures k in more
    {
      if k < |front| {
        assert front[k].gvk == gvk;
      } else {
        assert more[|at|] == k;
      }
    }
  }

  /** A group lists the resources of its kind in the order of the input. */
  lemma {:induction false} OfKindPositions(resources: seq<Resource>, gvk: GVK) returns (at: seq<nat>)
    ensures KindAt(resources, gvk, at) && |at| == |OfKind(resources, gvk)|
    ensures forall i | 0 <= i < |at| :: at[i] < |resources| && OfKind(resources, gvk)[i] == resources[at[i]]
  {
    if resources == [] {
      at := [];
    } else {
      var n := |resources| - 1;
      var front := OfKindPositions(resources[..n], gvk);
      assert resources == resources[..n] + [resources[n]];
      KindAtSnoc(resources[..n], resources[n], gvk, front);
      at := front + if resources[n].gvk == gvk then [n] else [];
      hide KindAt;
      assert OfKind(resources, gvk) == OfKind(resources[..n], gvk) + if resources[n].gvk == gvk then [resources[n]] else [];
    }
  }

  // ---------------------------------------------------------------- File names

  /** `unicode.ToLower` on the ASCII letters, which is what groups, versions and kinds are made of. */
  function LowerChar(c: char): char {
    if 'A' <= c <= 'Z' then (c as int + 32) as char else c
  }

  function ToLower(s: string): (t: string)
    ensures |t| == |s| && forall i | 0 <= i < |s| :: t[i] == LowerChar(s[i])
  {
    seq(|s|, i requires 0 <= i < |s| => LowerChar(s[i]))
  }

  function FileGroup(gvk: GVK): string {
    if ToLower(gvk.group) == "" then "core" else ToLower(gvk.group)
  }

  /** `gvkToFilename`. */
  function Filename(gvk: GVK): string {
    FileGroup(gvk) + "_" + ToLower(gvk.version) + "_" + ToLower(gvk.kind) + ".yaml"
  }

  /** `t` is `s` in lower case: every capital letter replaced by the letter of the same place in the alphabet. */
  predicate InLowerCase(s: string, t: string) {
    |t| == |s| && forall i | 0 <= i < |s| ::
      if 'A' <= s[i] <= 'Z' then t[i] as int - 'a' as int == s[i] as int - 'A' as int else t[i] == s[i]
  }

  lemma LowerMeaning(s: string, t: string)
    ensures ToLower(s) == t <==> InLowerCase(s, t)
  {
    forall i | 0 <= i < |s| && 'A' <= s[i] <= 'Z'
      ensures LowerChar(s[i]) as int - 'a' as int == s[i] as int - 'A' as int
    {
    }
    if InLowerCase(s, t) {
      assert forall i | 0 <= i < |s| :: ToLower(s)[i] == t[i];
    }
  }

  /** Group, version and kind in lower case, with `core` for the group without a name. */
  ghost predicate NamesFile(gvk: GVK, group: string, version: string, kind: string, file: string) {
    && file == group + "_" + version + "_" + kind + ".yaml"
    && (if gvk.group == "" then group == "core" else InLowerCase(gvk.group, group))
    && InLowerCase(gvk.version, version) && InLowerCase(gvk.kind, kind)
  }

  lemma FilenameMeaning(gvk: GVK, file: string)
    ensures Filename(gvk) == file <==> exists group, version, kind :: NamesFile(gvk, group, version, kind, file)
  {
    hide InLowerCase, LowerChar;
    forall s: string, t: string { LowerMeaning(s, t); }
    assert |ToLower(gvk.group)| == |gvk.group|;
    if Filename(gvk) == file {
      assert NamesFile(gvk, FileGroup(gvk), ToLower(gvk.version), ToLower(gvk.kind), file);
    }
  }

  lemma DeploymentFile()
    ensures Filename(GVK("apps", "v1", "Deployment")) == "apps_v1_deployment.yaml"
  {
    assert ToLower("apps") == "apps" && ToLower("v1") == "v1" && ToLower("Deployment") == "deployment";
    assert "apps" + "_" + "v1" + "_" + "deployment" + ".yaml" == "apps_v1_deployment.yaml";
  }

  predicate NoUnderscore(gvk: GVK) {
    '_' !in gvk.group && '_' !in gvk.version && '_' !in gvk.kind
  }

  lemma LowerKeepsUnderscores(s: string)
    requires '_' !in s
    ensures '_' !in ToLower(s)
  {
    assert forall i | 0 <= i < |s| :: s[i] in s;
  }

  lemma FirstPart(a: string, x: string, b: string, y: string)
    requires '_' !in a && '_' !in b && a + "_" + x == b + "_" + y
    ensures a == b && x == y
  {
    var s := a + "_" + x;
    assert s[|a|] == '_' && s[|b|] == '_';
    assert forall i | 0 <= i < |a| :: s[i] == a[i] && a[i] in a;
    assert forall i | 0 <= i < |b| :: s[i] == b[i] && b[i] in b;
    assert |a| == |b|;
    assert s[..|a|] == a && s[..|b|] == b;
    assert s[|a| + 1..] == x && s[|b| + 1..] == y;
  }

  /** Without underscores two kinds share a file exactly when they differ in nothing but letter case and a spelled out `core`. */
  lemma FilenamesAgree(a: GVK, b: GVK)
    requires NoUnderscore(a) && NoUnderscore(b)
    ensures Filename(a) == Filename(b)
            <==> FileGroup(a) == FileGroup(b) && ToLower(a.version) == ToLower(b.version) && ToLower(a.kind) == ToLower(b.kind)
  {
    if Filename(a) == Filename(b) {
      LowerKeepsUnderscores(a.group);
      LowerKeepsUnderscores(b.group);
      LowerKeepsUnderscores(a.version);
      LowerKeepsUnderscores(b.version);
      var x, y := ToLower(a.version) + "_" + ToLower(a.kind) + ".yaml", ToLower(b.version) + "_" + ToLower(b.kind) + ".yaml";
      assert Filename(a) == FileGroup(a) + "_" + x && Filename(b) == FileGroup(b) + "_" + y;
      FirstPart(FileGroup(a), x, FileGroup(b), y);
      var v, w := ToLower(a.kind) + ".yaml", ToLower(b.kind) + ".yaml";
      assert x == ToLower(a.version) + "_" + v && y == ToLower(b.version) + "_" + w;
      FirstPart(ToLower(a.version), v, ToLower(b.version), w);
      assert v[..|v| - 5] == ToLower(a.kind) && w[..|w| - 5] == ToLower(b.kind);
    }
  }

  /** Groups and versions in lower case, no underscore, and the group not spelled `core`. */
  predicate Conventional(gvk: GVK) {
    NoUnderscore(gvk) && ToLower(gvk.group) == gvk.group && ToLower(gvk.version) == gvk.version && gvk.group != "core"
  }

  /** Conventional kinds share a file only when their kinds differ in letter case alone. */
  lemma FilenameInjective(a: GVK, b: GVK)
    requires Conventional(a) && Conventional(b)
    ensures Filename(a) == Filename(b)
            <==> a.group == b.group && a.version == b.version && ToLower(a.kind) == ToLower(b.kind)
  {
    hide Filename;
    FilenamesAgree(a, b);
  }

  /** An underscore, or a group spelled `core`, does make two kinds share a file. */
  lemma FilenamesCollide()
    ensures Filename(GVK("a_b", "c", "d")) == Filename(GVK("a", "b_c", "d"))
    ensures Filename(GVK("", "v1", "pod")) == Filename(GVK("core", "v1", "pod"))
  {
    assert ToLower("a_b") == "a_b" && ToLower("c") == "c" && ToLower("b_c") == "b_c" && ToLower("a") == "a";
    assert ToLower("d") == "d";
    assert "a_b" + "_" + "c" == "a" + "_" + "b_c";
    assert ToLower("core") == "core" && ToLower("") == "";
  }

  // ---------------------------------------------------------------- Writing the files

  type Directory = map<string, string>

  /** The directory after writing the groups in a given order; a later file replaces an earlier one. */
  ghost function Written(content: map<GVK, string>, order: seq<GVK>, dir: Directory): Directory
    requires forall gvk | gvk in order :: gvk in content
  {
    if order == [] then dir
    else Written(content, order[1..], dir[Filename(order[0]) := content[order[0]]])
  }

  /** The write loop of `run`; Go visits a map in an order of its own choice. */
  method WriteTemplates(content: map<GVK, string>, dir: Directory) returns (after: Directory)
    ensures exists order :: Enumerates(order, content.Keys) && after == Written(content, order, dir)
  {
    after := dir;
    ghost var order: seq<GVK> := [];
    var remaining := content.Keys;
    while remaining != {}
      invariant remaining <= content.Keys
      invariant Enumerates(order, content.Keys - remaining)
      invariant after == Written(content, order, dir)
      decreases remaining
    {
      var gvk :| gvk in remaining;
      WrittenSnoc(content, order, gvk, dir);
      order := order + [gvk];
      after := after[Filename(gvk) := content[gvk]];
      remaining := remaining - {gvk};
    }
  }

  lemma {:induction false} WrittenSnoc(content: map<GVK, string>, order: seq<GVK>, gvk: GVK, dir: Directory)
    requires gvk in content && forall g | g in order :: g in content
    ensures forall g | g in order + [gvk] :: g in content
    ensures Written(content, order + [gvk], dir) == Written(content, order, dir)[Filename(gvk) := content[gvk]]
  {
    hide Filename;
    if order == [] {
      assert [gvk][1..] == [];
    } else {
      assert (order + [gvk])[1..] == order[1..] + [gvk];
      WrittenSnoc(content, order[1..], gvk, dir[Filename(order[0]) := content[order[0]]]);
    }
  }

  /** Kinds that share a file have the same content. */
  ghost predicate NoClash(content: map<GVK, string>) {
    forall a, b | a in content && b in content && Filename(a) == Filename(b) :: content[a] == content[b]
  }

  /** Without a clash, the files written are what the groups say and all others stay. */
  lemma {:induction false} WrittenMeaning(content: map<GVK, string>, order: seq<GVK>, dir: Directory, file: string)
    requires NoClash(content) && forall gvk | gvk in order :: gvk in content
    ensures var after := Written(content, order, dir);
            && (forall gvk | gvk in order && Filename(gvk) == file :: file in after && after[file] == content[gvk])
            && ((forall gvk | gvk in order :: Filename(gvk) != file) ==>
                  (file in after <==> file in dir) && (file in dir ==> after[file] == dir[file]))
  {
    hide Filename;
    if order != [] {
      var first := order[0];
      var rest, dir' := order[1..], dir[Filename(first) := content[first]];
      assert order == [first] + rest;
      WrittenMeaning(content, rest, dir', file);
      if (exists gvk | gvk in rest :: Filename(gvk) == file) && Filename(first) == file {
        var gvk :| gvk in rest && Filename(gvk) == file;
        assert content[gvk] == content[first];
      }
    }
  }

  /** The template directory does not depend on the order of the groups exactly when no two groups clash. */
  lemma DirectoryIsDetermined(content: map<GVK, string>, dir: Directory)
    ensures NoClash(content) <==>
            forall o1, o2 | Enumerates(o1, content.Keys) && Enumerates(o2, content.Keys) ::
              Written(content, o1, dir) == Written(content, o2, dir)
  {
    hide Filename;
    if NoClash(content) {
      forall o1, o2 | Enumerates(o1, content.Keys) && Enumerates(o2, content.Keys)
        ensures Written(content, o1, dir) == Written(content, o2, dir)
      {
        SameDirectory(content, o1, o2, dir);
      }
    } else {
      var a, b :| a in content && b in content && Filename(a) == Filename(b) && content[a] != content[b];
      var o1, o2 := ClashShows(content, dir, a, b);
      assert Written(content, o1, dir) != Written(content, o2, dir);
    }
  }

  /** Two kinds that clash show which of them was written last. */
  lemma {:induction false} ClashShows(content: map<GVK, string>, dir: Directory, a: GVK, b: GVK) returns (o1: seq<GVK>, o2: seq<GVK>)
    requires a in content && b in content && Filename(a) == Filename(b) && content[a] != content[b]
    ensures Enumerates(o1, content.Keys) && Enumerates(o2, content.Keys)
    ensures Written(content, o1, dir) != Written(content, o2, dir)
  {
    hide Filename, Written, Enumerates;
    o1, o2 := LastTwo(content.Keys, a, b), LastTwo(content.Keys, b, a);
    EndsWith(content, dir, a, b);
    EndsWith(content, dir, b, a);
  }

  /** An order that ends with `a` and `b`. */
  ghost function LastTwo(all: set<GVK>, a: GVK, b: GVK): (order: seq<GVK>)
    requires a in all && b in all && a != b
    ensures Enumerates(order, all)
  {
    OrderOf(all - {a, b}) + [a] + [b]
  }

  lemma EndsWith(content: map<GVK, string>, dir: Directory, a: GVK, b: GVK)
    requires a in content && b in content && a != b
    ensures var after := Written(content, LastTwo(content.Keys, a, b), dir);
            Filename(b) in after && after[Filename(b)] == content[b]
  {
    hide Filename, Written;
    var front := OrderOf(content.Keys - {a, b}) + [a];
    WrittenSnoc(content, front, b, dir);
  }

  lemma SameDirectory(content: map<GVK, string>, o1: seq<GVK>, o2: seq<GVK>, dir: Directory)
    requires NoClash(content) && Enumerates(o1, content.Keys) && Enumerates(o2, content.Keys)
    ensures Written(content, o1, dir) == Written(content, o2, dir)
  {
    hide Filename, Written;
    var x, y := Written(content, o1, dir), Written(content, o2, dir);
    forall file
      ensures (file in x <==> file in y) && (file in x ==> x[file] == y[file])
    {
      WrittenMeaning(content, o1, dir, file);
      WrittenMeaning(content, o2, dir, file);
      if exists gvk :: gvk in o1 && Filename(gvk) == file {
        var gvk :| gvk in o1 && Filename(gvk) == file;
        assert gvk in o2;
      } else {
        assert forall gvk | gvk in o2 :: gvk in o1 && Filename(gvk) != file;
      }
    }
  }

  ghost function OrderOf<T(!new)>(all: set<T>): (order: seq<T>)
    ensures Enumerates(order, all)
  {
    if all == {} then []
    else
      var x :| x in all;
      OrderOf(all - {x}) + [x]
  }

  /** Conventional kinds that differ beyond letter case never clash. */
  lemma ConventionalKindsDoNotClash(content: map<GVK, string>)
    requires forall gvk | gvk in content :: Conventional(gvk)
    requires forall a, b | a in content && b in content && a != b :: ToLower(a.kind) != ToLower(b.kind)
                || a.group != b.group || a.version != b.version
    ensures NoClash(content)
  {
    hide Filename, Conventional;
    forall a, b | a in content && b in content && Filename(a) == Filename(b)
      ensures content[a] == content[b]
    {
      FilenameInjective(a, b);
    }
  }
}
