/** Configuration trees as sets of explicit paths, and a candidate as an overlay of
    additions and deletions on the running tree. The tree libraries themselves are not
    part of this model: Exists, SetPath, DeletePath and View are their assumed contracts. */
module Config {

  type Path = seq<string>

  type Tree = set<Path>

  datatype Option<+T> = None | Some(value: T)

  /** p is q or one of its ancestors. */
  predicate Covers(p: Path, q: Path) {
    p <= q
  }

  predicate Comparable(p: Path, q: Path) {
    Covers(p, q) || Covers(q, p)
  }

  /** All non-empty prefixes of p, p included: setting a node creates its ancestors. */
  function Prefixes(p: Path): (t: Tree)
    ensures forall q :: q in t <==> Covers(q, p) && q != []
  {
    var t := set k | 0 < k <= |p| :: p[..k];
    assert forall q | Covers(q, p) && q != [] :: q == p[..|q|];
    t
  }

  ghost predicate PrefixClosed(t: Tree) {
    forall p, q :: p in t && Covers(q, p) && q != [] ==> q in t
  }

  /** A candidate: paths added to, and subtrees deleted from, the running tree. */
  datatype Overlay = Overlay(adds: Tree, dels: set<Path>)

  const EMPTY := Overlay({}, {})

  /** What deleting the root leaves of any candidate. */
  const WIPED := Overlay({}, {[]})

  predicate Masked(p: Path, dels: set<Path>) {
    exists d :: d in dels && Covers(d, p)
  }

  /** The explicit nodes of the union of a candidate and a running tree. */
  function View(c: Overlay, running: Tree): (t: Tree)
    ensures forall p :: p in t <==> p in c.adds || (p in running && !Masked(p, c.dels))
  {
    c.adds + set p | p in running && !Masked(p, c.dels)
  }

  predicate Exists(c: Overlay, running: Tree, p: Path) {
    p in View(c, running)
  }

  function SetPath(c: Overlay, p: Path): Overlay {
    c.(adds := c.adds + Prefixes(p))
  }

  function DeletePath(c: Overlay, p: Path): Overlay {
    Overlay(set q | q in c.adds && !Covers(p, q), (set d | d in c.dels && !Covers(p, d)) + {p})
  }

  ghost predicate Closed(c: Overlay) {
    PrefixClosed(c.adds)
  }

  lemma ViewOfEmpty(running: Tree)
    ensures View(EMPTY, running) == running
  {
  }

  lemma ViewOfSet(c: Overlay, running: Tree, p: Path)
    ensures View(SetPath(c, p), running) == View(c, running) + Prefixes(p)
  {
  }

  lemma ViewOfDelete(c: Overlay, running: Tree, p: Path)
    ensures View(DeletePath(c, p), running) == set q | q in View(c, running) && !Covers(p, q)
  {
    var d' := DeletePath(c, p).dels;
    forall q ensures Masked(q, d') <==> Masked(q, c.dels) || Covers(p, q) {
      if Masked(q, c.dels) {
        var d :| d in c.dels && Covers(d, q);
        if !Covers(p, d) { assert d in d'; } else { assert p in d' && Covers(p, q); }
      }
      if Covers(p, q) { assert p in d'; }
    }
  }

  lemma ViewIsClosed(c: Overlay, running: Tree)
    requires Closed(c) && PrefixClosed(running)
    ensures PrefixClosed(View(c, running))
  {
    forall p, q | p in View(c, running) && Covers(q, p) && q != []
      ensures q in View(c, running)
    {
      if p !in c.adds && Masked(q, c.dels) {
        var d :| d in c.dels && Covers(d, q);
        assert Covers(d, p);
      }
    }
  }

  lemma EditsKeepClosed(c: Overlay, p: Path)
    requires Closed(c)
    ensures Closed(SetPath(c, p)) && Closed(DeletePath(c, p))
  {
  }

  lemma DeleteRoot(c: Overlay)
    ensures DeletePath(c, []) == WIPED
  {
  }

  lemma WipedIsEmpty(running: Tree)
    ensures View(WIPED, running) == {}
  {
    forall p | p in running ensures Masked(p, WIPED.dels) {
      assert [] in WIPED.dels && Covers([], p);
    }
  }
}
