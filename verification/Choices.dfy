/** Choice conflicts among the children of an edit node (section 7.9 of RFC 6020). */
module Choices {

  /** What a case holds: a data node or a nested choice. */
  datatype Item = Node(name: string) | Choice(branches: seq<Branch>)

  /** A branch of a choice: a case, or a data node standing for a case of its own. */
  datatype Branch = Case(items: seq<Item>) | Short(name: string)

  /** The data nodes below, at any depth; choices and cases themselves are transparent. */
  function ItemNames(items: seq<Item>): set<string> {
    if items == [] then {}
    else
      (match items[0]
       case Node(n) => {n}
       case Choice(bs) => BranchNames(bs))
      + ItemNames(items[1..])
  }

  function BranchNames(bs: seq<Branch>): set<string> {
    if bs == [] then {} else Names(bs[0]) + BranchNames(bs[1..])
  }

  function Names(b: Branch): set<string> {
    match b
    case Case(items) => ItemNames(items)
    case Short(n) => {n}
  }

  /** The nodes that may not accompany `name`, as the two mutually recursive functions of
      the source collect them. */
  function Excludes(items: seq<Item>, name: string): set<string> {
    if items == [] then {}
    else
      (match items[0]
       case Node(_) => {}
       case Choice(bs) => if name in BranchNames(bs) then BranchExcludes(bs, name) else {})
      + Excludes(items[1..], name)
  }

  function BranchExcludes(bs: seq<Branch>, name: string): set<string> {
    if bs == [] then {}
    else
      (match bs[0]
       case Case(items) => if name in ItemNames(items) then Excludes(items, name) else ItemNames(items)
       case Short(n) => if n != name then {n} else {})
      + BranchExcludes(bs[1..], name)
  }

  method ChoiceNodesToRemove(items: seq<Item>, name: string, start: set<string>) returns (rslt: set<string>)
    ensures rslt == start + Excludes(items, name)
  {
    rslt := start;
    for i := 0 to |items|
      invariant rslt + Excludes(items[i..], name) == start + Excludes(items, name)
    {
      match items[i]
      case Choice(bs) =>
        if name in BranchNames(bs) {
          rslt := CaseNodesToRemove(bs, name, rslt);
        }
      case _ =>
    }
  }

  method CaseNodesToRemove(bs: seq<Branch>, name: string, start: set<string>) returns (rslt: set<string>)
    ensures rslt == start + BranchExcludes(bs, name)
  {
    rslt := start;
    for i := 0 to |bs|
      invariant rslt + BranchExcludes(bs[i..], name) == start + BranchExcludes(bs, name)
    {
      match bs[i]
      case Case(items) =>
        if name in ItemNames(items) {
          rslt := ChoiceNodesToRemove(items, name, rslt);
        } else {
          rslt := rslt + ItemNames(items);
        }
      case Short(n) =>
        if n != name {
          rslt := rslt + {n};
        }
    }
  }

  /** No data node name is used twice (section 7.9.2 of RFC 6020). */
  ghost predicate Unique(items: seq<Item>) {
    items != [] ==>
      && (items[0].Choice? ==> UniqueBranches(items[0].branches))
      && ItemNames([items[0]]) !! ItemNames(items[1..])
      && Unique(items[1..])
  }

  ghost predicate UniqueBranches(bs: seq<Branch>) {
    bs != [] ==>
      && (bs[0].Case? ==> Unique(bs[0].items))
      && Names(bs[0]) !! BranchNames(bs[1..])
      && UniqueBranches(bs[1..])
  }

  /** bs are the branches of a choice found at any depth below items. */
  ghost predicate Within(bs: seq<Branch>, items: seq<Item>) {
    exists i :: 0 <= i < |items| && items[i].Choice? && WithinChoice(bs, items[i].branches)
  }

  ghost predicate WithinChoice(bs: seq<Branch>, outer: seq<Branch>) {
    bs == outer || exists j :: 0 <= j < |outer| && outer[j].Case? && Within(bs, outer[j].items)
  }

  ghost predicate InDifferentBranches(bs: seq<Branch>, m: string, n: string) {
    exists i, j :: 0 <= i < |bs| && 0 <= j < |bs| && i != j && m in Names(bs[i]) && n in Names(bs[j])
  }

  /** Some choice, at any nesting depth, has m and n in different branches. */
  ghost predicate Separated(items: seq<Item>, m: string, n: string) {
    exists bs :: Within(bs, items) && InDifferentBranches(bs, m, n)
  }

  lemma {:induction false} BranchNamesIndex(bs: seq<Branch>, n: string)
    ensures n in BranchNames(bs) <==> exists i :: 0 <= i < |bs| && n in Names(bs[i])
  {
    if bs != [] {
      BranchNamesIndex(bs[1..], n);
      if n in BranchNames(bs[1..]) {
        var i :| 0 <= i < |bs[1..]| && n in Names(bs[1..][i]);
        assert n in Names(bs[i + 1]);
      }
      if i :| 0 < i < |bs| && n in Names(bs[i]) {
        assert n in Names(bs[1..][i - 1]);
      }
    }
  }

  lemma {:induction false} ItemNamesIndex(items: seq<Item>, i: nat)
    requires i < |items|
    ensures ItemNames([items[i]]) <= ItemNames(items)
  {
    if i > 0 {
      ItemNamesIndex(items[1..], i - 1);
    }
  }

  lemma {:induction false} UniqueIndex(items: seq<Item>, i: nat, j: nat)
    requires Unique(items) && i < j < |items|
    ensures ItemNames([items[i]]) !! ItemNames([items[j]])
  {
    if i == 0 {
      ItemNamesIndex(items[1..], j - 1);
    } else {
      UniqueIndex(items[1..], i - 1, j - 1);
    }
  }

  lemma {:induction false} UniqueBranchesIndex(bs: seq<Branch>, i: nat, j: nat, n: string)
    requires UniqueBranches(bs) && i < j < |bs|
    ensures !(n in Names(bs[i]) && n in Names(bs[j]))
  {
    if i == 0 {
      BranchNamesIndex(bs[1..], n);
      assert bs[j] == bs[1..][j - 1];
    } else {
      UniqueBranchesIndex(bs[1..], i - 1, j - 1, n);
    }
  }

  /** Everything a choice at any depth names is named by the forest. */
  lemma {:induction false} WithinNames(bs: seq<Branch>, items: seq<Item>, n: string)
    requires Within(bs, items) && n in BranchNames(bs)
    ensures n in ItemNames(items)
    decreases items
  {
    var i :| 0 <= i < |items| && items[i].Choice? && WithinChoice(bs, items[i].branches);
    var outer := items[i].branches;
    if bs != outer {
      var j :| 0 <= j < |outer| && outer[j].Case? && Within(bs, outer[j].items);
      WithinNames(bs, outer[j].items, n);
      assert n in Names(outer[j]);
      BranchNamesIndex(outer, n);
    }
    assert n in ItemNames([items[i]]);
    ItemNamesIndex(items, i);
  }

  /** The same for one choice instead of a forest. */
  ghost predicate SeparatedChoice(outer: seq<Branch>, m: string, n: string) {
    exists bs :: WithinChoice(bs, outer) && InDifferentBranches(bs, m, n)
  }

  predicate BranchExcludesName(b: Branch, m: string, n: string) {
    if n in Names(b) then b.Case? && m in Excludes(b.items, n) else m in Names(b)
  }

  lemma SeparatedHead(items: seq<Item>, m: string, n: string)
    requires items != []
    ensures Separated(items, m, n)
       <==> (items[0].Choice? && SeparatedChoice(items[0].branches, m, n)) || Separated(items[1..], m, n)
  {
    if bs :| Within(bs, items) && InDifferentBranches(bs, m, n) {
      var i :| 0 <= i < |items| && items[i].Choice? && WithinChoice(bs, items[i].branches);
      if i > 0 {
        assert items[1..][i - 1] == items[i];
        assert Within(bs, items[1..]);
      }
    }
    if bs :| Within(bs, items[1..]) && InDifferentBranches(bs, m, n) {
      var i :| 0 <= i < |items[1..]| && items[1..][i].Choice? && WithinChoice(bs, items[1..][i].branches);
      assert items[i + 1] == items[1..][i];
      assert Within(bs, items);
    }
    if items[0].Choice? && SeparatedChoice(items[0].branches, m, n) {
      var bs :| WithinChoice(bs, items[0].branches) && InDifferentBranches(bs, m, n);
      assert Within(bs, items);
    }
  }

  lemma {:induction false} BranchExcludesIndex(bs: seq<Branch>, m: string, n: string)
    ensures m in BranchExcludes(bs, n) <==> exists j :: 0 <= j < |bs| && BranchExcludesName(bs[j], m, n)
  {
    if bs != [] {
      BranchExcludesIndex(bs[1..], m, n);
      if m in BranchExcludes(bs[1..], n) {
        var j :| 0 <= j < |bs[1..]| && BranchExcludesName(bs[1..][j], m, n);
        assert bs[j + 1] == bs[1..][j];
      }
      if j :| 0 < j < |bs| && BranchExcludesName(bs[j], m, n) {
        assert bs[j] == bs[1..][j - 1];
      }
      assert m in BranchExcludes(bs, n) <==> BranchExcludesName(bs[0], m, n) || m in BranchExcludes(bs[1..], n);
    }
  }

  lemma {:induction false} UniqueBranchItems(bs: seq<Branch>, j: nat)
    requires UniqueBranches(bs) && j < |bs| && bs[j].Case?
    ensures Unique(bs[j].items)
  {
    if j > 0 {
      UniqueBranchItems(bs[1..], j - 1);
    }
  }

  lemma SeparatedNames(items: seq<Item>, m: string, n: string)
    requires Separated(items, m, n)
    ensures m in ItemNames(items) && n in ItemNames(items)
  {
    var bs :| Within(bs, items) && InDifferentBranches(bs, m, n);
    BranchNamesIndex(bs, m);
    BranchNamesIndex(bs, n);
    WithinNames(bs, items, m);
    WithinNames(bs, items, n);
  }

  /** Separation is symmetric: no order of the children matters to it. */
  lemma SeparatedSymmetric(items: seq<Item>, m: string, n: string)
    ensures Separated(items, m, n) <==> Separated(items, n, m)
  {
    forall a, b | Separated(items, a, b) ensures Separated(items, b, a) {
      var bs :| Within(bs, items) && InDifferentBranches(bs, a, b);
      assert InDifferentBranches(bs, b, a);
    }
  }

  /** The collected exclusions are exact: m is excluded by n if and only if some choice at
      some depth has them in different branches. */
  lemma {:induction false} ExcludesIsExact(items: seq<Item>, m: string, n: string)
    requires Unique(items)
    ensures m in Excludes(items, n) <==> Separated(items, m, n)
    decreases items
  {
    if items == [] {
    } else {
      ExcludesIsExact(items[1..], m, n);
      SeparatedHead(items, m, n);
      if items[0].Choice? {
        ChoiceExcludesIsExact(items[0].branches, m, n);
      }
    }
  }

  lemma {:induction false} ChoiceExcludesIsExact(bs: seq<Branch>, m: string, n: string)
    requires UniqueBranches(bs)
    ensures n in BranchNames(bs) && m in BranchExcludes(bs, n) <==> SeparatedChoice(bs, m, n)
    decreases bs
  {
    BranchNamesIndex(bs, n);
    BranchExcludesIndex(bs, m, n);
    forall j | 0 <= j < |bs| && bs[j].Case?
      ensures m in Excludes(bs[j].items, n) <==> Separated(bs[j].items, m, n)
    {
      UniqueBranchItems(bs, j);
      ExcludesIsExact(bs[j].items, m, n);
    }
    if n in BranchNames(bs) && m in BranchExcludes(bs, n) {
      var i :| 0 <= i < |bs| && n in Names(bs[i]);
      var j :| 0 <= j < |bs| && BranchExcludesName(bs[j], m, n);
      if n in Names(bs[j]) {
        var inner :| Within(inner, bs[j].items) && InDifferentBranches(inner, m, n);
        assert WithinChoice(inner, bs);
      } else {
        assert InDifferentBranches(bs, m, n);
        assert WithinChoice(bs, bs);
      }
    }
    if SeparatedChoice(bs, m, n) {
      var inner :| WithinChoice(inner, bs) && InDifferentBranches(inner, m, n);
      if inner == bs {
        var a, b :| 0 <= a < |bs| && 0 <= b < |bs| && a != b && m in Names(bs[a]) && n in Names(bs[b]);
        if a < b { UniqueBranchesIndex(bs, a, b, n); } else { UniqueBranchesIndex(bs, b, a, n); }
        assert BranchExcludesName(bs[a], m, n);
      } else {
        var j :| 0 <= j < |bs| && bs[j].Case? && Within(inner, bs[j].items);
        assert Separated(bs[j].items, m, n);
        SeparatedNames(bs[j].items, m, n);
        assert BranchExcludesName(bs[j], m, n);
      }
    }
  }

  lemma {:induction false} NeverSeparatedFromItself(items: seq<Item>, n: string)
    requires Unique(items)
    ensures !Separated(items, n, n)
    decreases items
  {
    if items != [] {
      NeverSeparatedFromItself(items[1..], n);
      SeparatedHead(items, n, n);
      if items[0].Choice? {
        NeverSeparatedInChoice(items[0].branches, n);
      }
    }
  }

  lemma {:induction false} NeverSeparatedInChoice(bs: seq<Branch>, n: string)
    requires UniqueBranches(bs)
    ensures !SeparatedChoice(bs, n, n)
    decreases bs
  {
    if inner :| WithinChoice(inner, bs) && InDifferentBranches(inner, n, n) {
      if inner == bs {
        var a, b :| 0 <= a < |bs| && 0 <= b < |bs| && a != b && n in Names(bs[a]) && n in Names(bs[b]);
        if a < b { UniqueBranchesIndex(bs, a, b, n); } else { UniqueBranchesIndex(bs, b, a, n); }
      } else {
        var j :| 0 <= j < |bs| && bs[j].Case? && Within(inner, bs[j].items);
        UniqueBranchItems(bs, j);
        NeverSeparatedFromItself(bs[j].items, n);
      }
    }
  }

  /** One child of an edit node as the check sees it: its name, and whether its operation is
      delete or remove, which exempts it. */
  datatype Child = Child(name: string, exempt: bool)

  /** The first child found in the exclusions of those before it, if any. */
  datatype Verdict = Accepted | Conflict(name: string)

  function CheckChildren(items: seq<Item>, children: seq<Child>, exclude: set<string>): Verdict {
    if children == [] then Accepted
    else if children[0].exempt then CheckChildren(items, children[1..], exclude)
    else if children[0].name in exclude then Conflict(children[0].name)
    else CheckChildren(items, children[1..], exclude + Excludes(items, children[0].name))
  }

  ghost predicate Compatible(items: seq<Item>, a: Child, b: Child) {
    a.exempt || b.exempt || !Separated(items, a.name, b.name)
  }

  ghost predicate PairwiseCompatible(items: seq<Item>, children: seq<Child>) {
    forall a, b :: a in children && b in children ==> Compatible(items, a, b)
  }

  /** The fold with its growing exclusion set accepts the children exactly when they are
      pairwise compatible and none is already excluded. */
  lemma {:induction false} CheckIsPairwise(items: seq<Item>, children: seq<Child>, exclude: set<string>)
    requires Unique(items)
    ensures CheckChildren(items, children, exclude).Accepted?
       <==> PairwiseCompatible(items, children)
            && forall a :: a in children && !a.exempt ==> a.name !in exclude
  {
    if children != [] {
      var x, rest := children[0], children[1..];
      assert children == [x] + rest;
      NeverSeparatedFromItself(items, x.name);
      forall a | a in rest
        ensures Compatible(items, a, x) <==> Compatible(items, x, a)
        ensures a.name in Excludes(items, x.name) <==> Separated(items, a.name, x.name)
      {
        SeparatedSymmetric(items, a.name, x.name);
        ExcludesIsExact(items, a.name, x.name);
      }
      assert Compatible(items, x, x);
      assert PairwiseCompatible(items, children)
        <==> PairwiseCompatible(items, rest) && forall a :: a in rest ==> Compatible(items, a, x);
      CheckIsPairwise(items, rest,
        if x.exempt then exclude else exclude + Excludes(items, x.name));
    }
  }

  /** A conflict names the first child that is not accepted after those before it. */
  lemma {:induction false} ConflictIsFirst(items: seq<Item>, children: seq<Child>, exclude: set<string>)
    returns (j: nat)
    requires CheckChildren(items, children, exclude).Conflict?
    ensures j < |children| && CheckChildren(items, children, exclude) == Conflict(children[j].name)
    ensures CheckChildren(items, children[..j], exclude).Accepted?
    ensures CheckChildren(items, children[..j + 1], exclude).Conflict?
    decreases |children|
  {
    var x := children[0];
    if !x.exempt && x.name in exclude {
      j := 0;
    } else {
      var grown := if x.exempt then exclude else exclude + Excludes(items, x.name);
      var i := ConflictIsFirst(items, children[1..], grown);
      j := i + 1;
      assert children[..j][1..] == children[1..][..i] && children[..j + 1][1..] == children[1..][..i + 1];
    }
  }

  /** Whether an edit node is accepted does not depend on the order of its children. */
  lemma AcceptanceIgnoresOrder(items: seq<Item>, children: seq<Child>, other: seq<Child>)
    requires Unique(items) && (forall a :: a in children <==> a in other)
    ensures CheckChildren(items, children, {}).Accepted? == CheckChildren(items, other, {}).Accepted?
  {
    CheckIsPairwise(items, children, {});
    CheckIsPairwise(items, other, {});
  }
}
