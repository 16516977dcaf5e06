/** What the commit machinery does to the effective session, one node at a time, and what it
    takes for it to lead from one tree to another. */
module Effects {
  import opened Config

  datatype Effect = Put(path: Path) | Drop(path: Path)

  function ApplyEffect(e: Effect, t: Tree): Tree {
    match e
    case Put(p) => t + Prefixes(p)
    case Drop(p) => if p in t then set q | q in t && !Covers(p, q) else t
  }

  function Replay(effects: seq<Effect>, base: Tree): Tree {
    if effects == [] then base
    else ApplyEffect(effects[|effects| - 1], Replay(effects[..|effects| - 1], base))
  }

  /** A tree of real nodes: the root is not one of them. */
  ghost predicate Proper(t: Tree) {
    PrefixClosed(t) && [] !in t
  }

  lemma EffectKeepsProper(e: Effect, t: Tree)
    requires Proper(t)
    ensures Proper(ApplyEffect(e, t))
  {
  }

  lemma {:induction false} ReplayKeepsProper(effects: seq<Effect>, base: Tree)
    requires Proper(base)
    ensures Proper(Replay(effects, base))
  {
    if effects != [] {
      var n := |effects| - 1;
      ReplayKeepsProper(effects[..n], base);
      EffectKeepsProper(effects[n], Replay(effects[..n], base));
    }
  }

  /** An effect on a node that differs between two trees. */
  predicate Differs(e: Effect, base: Tree, target: Tree) {
    match e
    case Put(p) => p in target && p !in base
    case Drop(p) => p in base && p !in target
  }

  /** Effects on nodes that differ, in any order. */
  ghost predicate OfDiff(effects: seq<Effect>, base: Tree, target: Tree) {
    forall e :: e in effects ==> Differs(e, base, target)
  }

  ghost predicate Dropped(effects: seq<Effect>, q: Path) {
    exists p :: Drop(p) in effects && Covers(p, q)
  }

  ghost predicate IsPut(effects: seq<Effect>, q: Path) {
    exists p :: Put(p) in effects && Covers(q, p)
  }

  /** No node that differs has been skipped: it, or one above it, is dropped; it, or one below
      it, is put. */
  ghost predicate Thorough(effects: seq<Effect>, base: Tree, target: Tree) {
    && (forall q :: q in base && q !in target ==> Dropped(effects, q))
    && (forall q :: q in target && q !in base ==> IsPut(effects, q))
  }

  lemma DroppedNext(effects: seq<Effect>, e: Effect, q: Path)
    ensures Dropped(effects + [e], q) <==> Dropped(effects, q) || (e.Drop? && Covers(e.path, q))
    ensures IsPut(effects + [e], q) <==> IsPut(effects, q) || (e.Put? && Covers(q, e.path))
  {
    var all := effects + [e];
    assert forall x :: x in all <==> x in effects || x == e;
    if Dropped(effects, q) {
      var p :| Drop(p) in effects && Covers(p, q);
      assert Drop(p) in all;
    }
    if IsPut(effects, q) {
      var p :| Put(p) in effects && Covers(q, p);
      assert Put(p) in all;
    }
  }

  /** What one more effect on a node that differs does to the existence of a node. */
  lemma EffectShows(e: Effect, t: Tree, base: Tree, target: Tree, q: Path)
    requires Proper(t) && Differs(e, base, target) && q != [] && e.path != []
    ensures q in ApplyEffect(e, t)
       <==> (q in t && !(e.Drop? && Covers(e.path, q))) || (e.Put? && Covers(q, e.path))
  {
    if e.Drop? && q in t && Covers(e.path, q) {
      assert e.path in t;
    }
  }

  /** Effects on nodes that differ between two trees, replayed from any tree in any order: a node
      is there in the end exactly when it was put, or was there and was not dropped. */
  lemma {:induction false} ReplayShows(effects: seq<Effect>, from: Tree, base: Tree, target: Tree, q: Path)
    requires Proper(from) && Proper(base) && Proper(target) && OfDiff(effects, base, target) && q != []
    ensures q in Replay(effects, from) <==> IsPut(effects, q) || (q in from && !Dropped(effects, q))
    ensures IsPut(effects, q) ==> q in target
    ensures Dropped(effects, q) ==> q !in target
  {
    if effects != [] {
      var n := |effects| - 1;
      var before, e := effects[..n], effects[n];
      assert effects == before + [e];
      assert e in effects;
      ReplayShows(before, from, base, target, q);
      ReplayKeepsProper(before, from);
      DroppedNext(before, e, q);
      assert e.path != [];
      EffectShows(e, Replay(before, from), base, target, q);
    }
  }

  /** Effects on nodes that differ lead from one tree to the other if and only if none of those
      nodes has been skipped. */
  lemma ReplayReaches(effects: seq<Effect>, base: Tree, target: Tree)
    requires Proper(base) && Proper(target) && OfDiff(effects, base, target)
    ensures Replay(effects, base) == target <==> Thorough(effects, base, target)
  {
    ReplayKeepsProper(effects, base);
    forall q | q != []
      ensures q in Replay(effects, base) <==> IsPut(effects, q) || (q in base && !Dropped(effects, q))
      ensures IsPut(effects, q) ==> q in target
      ensures Dropped(effects, q) ==> q !in target
    {
      ReplayShows(effects, base, base, target, q);
    }
    if Thorough(effects, base, target) {
      assert forall q :: q in Replay(effects, base) <==> q in target;
    }
  }

  /** Every node of a tree has been put. */
  ghost predicate AllPut(effects: seq<Effect>, t: Tree) {
    forall q :: q in t ==> IsPut(effects, q)
  }

  /** Replayed from nothing they lead to the target if and only if they put all of it. */
  lemma ReplayFromNothing(effects: seq<Effect>, base: Tree, target: Tree)
    requires Proper(base) && Proper(target) && OfDiff(effects, base, target)
    ensures Replay(effects, {}) == target <==> AllPut(effects, target)
    ensures forall q :: q in Replay(effects, {}) <==> q != [] && IsPut(effects, q)
  {
    ReplayKeepsProper(effects, {});
    forall q | q != []
      ensures q in Replay(effects, {}) <==> IsPut(effects, q)
      ensures IsPut(effects, q) ==> q in target
    {
      ReplayShows(effects, {}, base, target, q);
    }
  }

  /** The last effects, replayed from nothing, lead where all of them lead from base if and only
      if they put every node that is there. */
  lemma LastFromNothing(effects: seq<Effect>, last: seq<Effect>, base: Tree, target: Tree)
    requires Proper(base) && Proper(target) && OfDiff(effects, base, target)
    requires |last| <= |effects| && last == effects[|effects| - |last|..]
    ensures Replay(last, {}) == Replay(effects, base) <==> AllPut(last, Replay(effects, base))
  {
    ReplayKeepsProper(effects, base);
    assert OfDiff(last, base, target);
    ReplayFromNothing(last, base, target);
    forall q | q != [] && IsPut(last, q) ensures q in Replay(effects, base) {
      var p :| Put(p) in last && Covers(q, p);
      assert Put(p) in effects;
      ReplayShows(effects, base, base, target, q);
    }
  }

  /** There always are such effects. */
  lemma EffectsExist(base: Tree, target: Tree) returns (effects: seq<Effect>)
    ensures OfDiff(effects, base, target) && Thorough(effects, base, target)
  {
    var drops := DropsOf(base - target, base, target);
    var puts := PutsOf(target - base, base, target);
    effects := drops + puts;
    forall q | q in base && q !in target ensures Dropped(effects, q) {
      assert Drop(q) in drops && Covers(q, q);
    }
    forall q | q in target && q !in base ensures IsPut(effects, q) {
      assert Put(q) in puts && Covers(q, q);
    }
  }

  lemma {:induction false} DropsOf(some: set<Path>, base: Tree, target: Tree) returns (effects: seq<Effect>)
    requires some <= base - target
    ensures OfDiff(effects, base, target) && forall q :: q in some ==> Drop(q) in effects
    decreases some
  {
    if some == {} {
      effects := [];
    } else {
      var p :| p in some;
      var rest := DropsOf(some - {p}, base, target);
      effects := [Drop(p)] + rest;
      assert forall q :: q in some ==> q == p || q in some - {p};
    }
  }

  lemma {:induction false} PutsOf(some: set<Path>, base: Tree, target: Tree) returns (effects: seq<Effect>)
    requires some <= target - base
    ensures OfDiff(effects, base, target) && forall q :: q in some ==> Put(q) in effects
    decreases some
  {
    if some == {} {
      effects := [];
    } else {
      var p :| p in some;
      var rest := PutsOf(some - {p}, base, target);
      effects := [Put(p)] + rest;
      assert forall q :: q in some ==> q == p || q in some - {p};
    }
  }
}
