/** Loading a configuration tree: merging it into the candidate, and replacing the candidate
    with it. */
module Load {
  import opened Config
  import opened Lock

  /** A node of a loaded tree. A node without a schema is not part of any valid path, and a
      default node has only default nodes below it. */
  datatype Node = Node(name: string, known: bool, isDefault: bool, presence: bool, kids: seq<Node>)

  // --- Which paths a loaded tree asks for ---

  /** The path leads through nodes that are not default to one that has presence. */
  ghost predicate Leads(nodes: seq<Node>, path: Path)
    decreases path
  {
    path != [] && exists n :: n in nodes && LeadsFrom(n, path)
  }

  ghost predicate LeadsFrom(n: Node, path: Path)
    requires path != []
    decreases path, 0
  {
    && n.known && !n.isDefault && n.name == path[0]
    && if |path| == 1 then n.presence else Leads(n.kids, path[1..])
  }

  /** The paths set for a node, in the order of the walk. */
  function Walk(n: Node, cur: Path): seq<Path>
    decreases n, 1
  {
    if !n.known || n.isDefault then []
    else (if n.presence then [cur + [n.name]] else []) + WalkAll(n.kids, cur + [n.name])
  }

  function WalkAll(nodes: seq<Node>, cur: Path): seq<Path>
    decreases nodes, 0
  {
    if nodes == [] then [] else Walk(nodes[0], cur) + WalkAll(nodes[1..], cur)
  }

  lemma {:induction false} WalkLeads(n: Node, cur: Path, p: Path)
    ensures p in Walk(n, cur) <==> |cur| < |p| && cur <= p && LeadsFrom(n, p[|cur|..])
    decreases n, 1
  {
    var below := cur + [n.name];
    WalkAllLeads(n.kids, below, p);
    if |cur| < |p| && cur <= p && p[|cur|] == n.name {
      assert below <= p;
      assert p[|below|..] == p[|cur|..][1..];
      if |p| == |below| { assert p == below; }
    }
  }

  lemma {:induction false} WalkAllLeads(nodes: seq<Node>, cur: Path, p: Path)
    ensures p in WalkAll(nodes, cur) <==> cur <= p && Leads(nodes, p[|cur|..])
    decreases nodes, 0
  {
    if nodes != [] {
      WalkLeads(nodes[0], cur, p);
      WalkAllLeads(nodes[1..], cur, p);
      assert nodes == [nodes[0]] + nodes[1..];
    }
  }

  // --- Merging ---

  datatype Merged = Merged(candidate: Overlay, errors: seq<Path>)

  /** What a merge runs under. Whether it looks up what exists in the candidate as it was or as
      it has become is left open; a path is settable when its validation succeeds. */
  datatype Setting = Setting(was: Overlay, live: bool, running: Tree, may: bool, settable: Path -> bool) {
    predicate Sets(p: Path) {
      may && settable(p)
    }

    function Looks(c: Overlay): Overlay {
      if live then c else was
    }
  }

  function MergeOne(m: Merged, s: Setting, p: Path): Merged {
    if Exists(s.Looks(m.candidate), s.running, p) then m
    else if s.Sets(p) then m.(candidate := SetPath(m.candidate, p))
    else m.(errors := m.errors + [p])
  }

  /** The paths are set one after the other, unless they exist already. */
  function Merge(m: Merged, s: Setting, paths: seq<Path>): Merged
    decreases |paths|
  {
    if paths == [] then m else Merge(MergeOne(m, s, paths[0]), s, paths[1..])
  }

  lemma {:induction false} MergeConcat(m: Merged, s: Setting, a: seq<Path>, b: seq<Path>)
    ensures Merge(m, s, a + b) == Merge(Merge(m, s, a), s, b)
    decreases |a|
  {
    if a == [] {
      assert a + b == b;
    } else {
      assert (a + b)[1..] == a[1..] + b;
      MergeConcat(MergeOne(m, s, a[0]), s, a[1..], b);
    }
  }

  /** What the accepted paths bring: themselves and their ancestors. */
  ghost predicate Brought(s: Setting, paths: seq<Path>, q: Path) {
    q != [] && exists p :: p in paths && s.Sets(p) && Covers(q, p)
  }

  /** The lookup never sees more than the candidate has. */
  ghost predicate Sound(m: Merged, s: Setting) {
    && Closed(m.candidate) && PrefixClosed(s.running)
    && View(s.Looks(m.candidate), s.running) <= View(m.candidate, s.running)
  }

  lemma MergeOneAdds(m: Merged, s: Setting, p: Path)
    requires Sound(m, s)
    ensures Sound(MergeOne(m, s, p), s)
    ensures forall q :: q in View(MergeOne(m, s, p).candidate, s.running) <==>
                          q in View(m.candidate, s.running) || Brought(s, [p], q)
  {
    ViewOfSet(m.candidate, s.running, p);
    EditsKeepClosed(m.candidate, p);
    ViewIsClosed(m.candidate, s.running);
    assert p in [p];
    if Exists(s.Looks(m.candidate), s.running, p) {
      forall q | Brought(s, [p], q) ensures q in View(m.candidate, s.running) {
      }
    }
  }

  lemma BroughtFirst(s: Setting, paths: seq<Path>, q: Path)
    requires paths != []
    ensures Brought(s, paths, q) <==> Brought(s, [paths[0]], q) || Brought(s, paths[1..], q)
  {
    if Brought(s, paths, q) {
      var p :| p in paths && s.Sets(p) && Covers(q, p);
      assert p == paths[0] || p in paths[1..];
      assert p in [p];
    }
  }

  /** After a merge the candidate shows what it showed before and what the accepted paths bring. */
  lemma {:induction false} MergeAdds(m: Merged, s: Setting, paths: seq<Path>)
    requires Sound(m, s)
    ensures Sound(Merge(m, s, paths), s)
    ensures forall q :: q in View(Merge(m, s, paths).candidate, s.running) <==>
                          q in View(m.candidate, s.running) || Brought(s, paths, q)
    decreases |paths|
  {
    if paths != [] {
      MergeOneAdds(m, s, paths[0]);
      MergeAdds(MergeOne(m, s, paths[0]), s, paths[1..]);
      forall q {
        BroughtFirst(s, paths, q);
      }
    }
  }

  /** Only a path that cannot be set and did not exist is reported, and every path that is
      still missing afterwards is reported. */
  lemma {:induction false} MergeReports(m: Merged, s: Setting, paths: seq<Path>)
    requires Sound(m, s)
    ensures forall p :: p in Merge(m, s, paths).errors ==>
                          p in m.errors || (p in paths && !s.Sets(p) && p !in View(s.Looks(m.candidate), s.running))
    ensures forall p ::
              p in m.errors || (p in paths && p !in View(Merge(m, s, paths).candidate, s.running) && p != []) ==>
                p in Merge(m, s, paths).errors
    ensures !s.live ==> forall p ::
              p in Merge(m, s, paths).errors <==>
                p in m.errors || (p in paths && !s.Sets(p) && p !in View(s.was, s.running))
    decreases |paths|
  {
    if paths != [] {
      var m' := MergeOne(m, s, paths[0]);
      MergeOneAdds(m, s, paths[0]);
      MergeReports(m', s, paths[1..]);
      MergeAdds(m', s, paths[1..]);
      assert paths == [paths[0]] + paths[1..];
    }
  }

  class Session {
    var lpid: Pid
    var candidate: Overlay
    var errors: seq<Path>
    const running: Tree
    const settable: Path -> bool

    constructor (running: Tree, settable: Path -> bool)
      ensures lpid == FREE && candidate == EMPTY && errors == []
      ensures this.running == running && this.settable == settable
    {
      lpid, candidate, errors := FREE, EMPTY, [];
      this.running, this.settable := running, settable;
    }

    function Progress(): Merged
      reads this
    {
      Merged(candidate, errors)
    }

    function Under(pid: Pid, was: Overlay, live: bool): Setting
      reads this
    {
      Setting(was, live, running, MayUse(lpid, pid), settable)
    }

    method Set(pid: Pid, path: Path) returns (ok: bool)
      modifies `candidate
      ensures ok <==> MayUse(lpid, pid) && settable(path)
      ensures candidate == if ok then SetPath(old(candidate), path) else old(candidate)
    {
      ok := MayUse(lpid, pid);
      if !ok {
        return;
      }
      ok := settable(path);
      if ok {
        candidate := SetPath(candidate, path);
      }
    }

    method SetIfMissing(pid: Pid, n: Node, path: Path, was: Overlay, live: bool)
      modifies `candidate, `errors
      ensures Progress() == if n.presence then MergeOne(old(Progress()), Under(pid, was, live), path)
                            else old(Progress())
    {
      if !n.presence {
        return;
      }
      if Exists(if live then candidate else was, running, path) {
        return;
      }
      var ok := Set(pid, path);
      if !ok {
        errors := errors + [path];
      }
    }

    method PreOrder(pid: Pid, n: Node, cur: Path, was: Overlay, live: bool)
      modifies `candidate, `errors
      ensures Progress() == Merge(old(Progress()), Under(pid, was, live), Walk(n, cur))
      decreases n, 1
    {
      if !n.known {
        return;
      }
      if n.isDefault {
        return;
      }
      var here := cur + [n.name];
      ghost var s := Under(pid, was, live);
      ghost var first := if n.presence then [here] else [];
      MergeConcat(Progress(), s, first, WalkAll(n.kids, here));
      SetIfMissing(pid, n, here, was, live);
      PreOrderAll(pid, n.kids, here, was, live);
    }

    method PreOrderAll(pid: Pid, nodes: seq<Node>, cur: Path, was: Overlay, live: bool)
      modifies `candidate, `errors
      ensures Progress() == Merge(old(Progress()), Under(pid, was, live), WalkAll(nodes, cur))
      decreases nodes, 0
    {
      ghost var s := Under(pid, was, live);
      ghost var all := Merge(Progress(), s, WalkAll(nodes, cur));
      var i := 0;
      while i < |nodes|
        invariant 0 <= i <= |nodes|
        invariant all == Merge(Progress(), s, WalkAll(nodes[i..], cur))
      {
        MergeConcat(Progress(), s, Walk(nodes[i], cur), WalkAll(nodes[i + 1..], cur));
        assert nodes[i..][1..] == nodes[i + 1..];
        PreOrder(pid, nodes[i], cur, was, live);
        i := i + 1;
      }
    }

    /** Merging a loaded tree; the answer is the list of paths that could not be set. */
    method MergeTree(pid: Pid, nodes: seq<Node>, live: bool)
      modifies `candidate, `errors
      ensures Progress() == Merge(Merged(old(candidate), []), Under(pid, old(candidate), live), WalkAll(nodes, []))
    {
      var was := candidate;
      errors := [];
      PreOrderAll(pid, nodes, [], was, live);
    }

    /** Loading a tree: the candidate is cleared first, whoever holds the lock. */
    method DeleteThenMerge(pid: Pid, nodes: seq<Node>, live: bool)
      modifies `candidate, `errors
      ensures Progress() == Merge(Merged(WIPED, []), Under(pid, WIPED, live), WalkAll(nodes, []))
    {
      DeleteRoot(candidate);
      candidate := DeletePath(candidate, []);
      MergeTree(pid, nodes, live);
    }
  }

  // --- What loading and merging leave ---

  function Start(c: Overlay): Merged {
    Merged(c, [])
  }

  /** The nodes a loaded tree asks for and that can be set, with their ancestors. */
  ghost predicate Asked(nodes: seq<Node>, settable: Path -> bool, q: Path) {
    q != [] && exists p :: Leads(nodes, p) && settable(p) && Covers(q, p)
  }

  lemma AskedIsBrought(nodes: seq<Node>, s: Setting, q: Path)
    requires s.may
    ensures Brought(s, WalkAll(nodes, []), q) <==> Asked(nodes, s.settable, q)
  {
    var paths := WalkAll(nodes, []);
    if p :| p in paths && s.Sets(p) && Covers(q, p) {
      WalkAllLeads(nodes, [], p);
      assert p[0..] == p;
    }
    if p :| Leads(nodes, p) && s.settable(p) && Covers(q, p) {
      WalkAllLeads(nodes, [], p);
      assert p[0..] == p;
    }
  }

  /** A merge by a client that may write adds exactly what the loaded tree asks for; so it never
      takes anything away and does not depend on the order of the nodes. */
  lemma MergeTreeAdds(c: Overlay, nodes: seq<Node>, s: Setting)
    requires Closed(c) && PrefixClosed(s.running) && s.was == c && s.may
    ensures Closed(Merge(Start(c), s, WalkAll(nodes, [])).candidate)
    ensures forall q :: q in View(Merge(Start(c), s, WalkAll(nodes, [])).candidate, s.running) <==>
                          q in View(c, s.running) || Asked(nodes, s.settable, q)
  {
    MergeAdds(Start(c), s, WalkAll(nodes, []));
    forall q {
      AskedIsBrought(nodes, s, q);
    }
  }

  function MergedInto(c: Overlay, nodes: seq<Node>, s: Setting): Overlay {
    Merge(Start(c), s.(was := c), WalkAll(nodes, [])).candidate
  }

  /** Merging the same tree again changes nothing that shows, and two trees may be merged in
      either order. */
  lemma MergesAccumulate(c: Overlay, a: seq<Node>, b: seq<Node>, s: Setting)
    requires Closed(c) && PrefixClosed(s.running) && s.may
    ensures View(MergedInto(MergedInto(c, a, s), a, s), s.running) == View(MergedInto(c, a, s), s.running)
    ensures View(MergedInto(MergedInto(c, a, s), b, s), s.running)
         == View(MergedInto(MergedInto(c, b, s), a, s), s.running)
  {
    var x, y := MergedInto(c, a, s), MergedInto(c, b, s);
    MergeTreeAdds(c, a, s.(was := c));
    MergeTreeAdds(c, b, s.(was := c));
    MergeTreeAdds(x, a, s.(was := x));
    MergeTreeAdds(x, b, s.(was := x));
    MergeTreeAdds(y, a, s.(was := y));
  }

  /** A load forgets the candidate it replaces. To a client that may write it leaves exactly what
      the tree asks for; to any other client it refuses every path, having deleted everything. */
  lemma LoadForgets(nodes: seq<Node>, s: Setting)
    requires PrefixClosed(s.running) && s.was == WIPED
    ensures forall q :: q in View(Merge(Start(WIPED), s, WalkAll(nodes, [])).candidate, s.running) <==>
                          s.may && Asked(nodes, s.settable, q)
  {
    WipedIsEmpty(s.running);
    if s.may {
      MergeTreeAdds(WIPED, nodes, s);
    } else {
      MergeAdds(Start(WIPED), s, WalkAll(nodes, []));
    }
  }

  /** A load reports only paths that cannot be set, and all of those that are missing when it is
      done; with the lookup in the candidate as it was, all that cannot be set. */
  lemma LoadReports(nodes: seq<Node>, s: Setting)
    requires PrefixClosed(s.running) && s.was == WIPED
    ensures var errors := Merge(Start(WIPED), s, WalkAll(nodes, [])).errors;
            && (forall p :: p in errors ==> Leads(nodes, p) && !s.Sets(p))
            && (forall p :: Leads(nodes, p) && !(s.may && Asked(nodes, s.settable, p)) ==> p in errors)
            && (!s.live ==> forall p :: Leads(nodes, p) && !s.Sets(p) ==> p in errors)
  {
    LoadForgets(nodes, s);
    WipedIsEmpty(s.running);
    MergeReports(Start(WIPED), s, WalkAll(nodes, []));
    forall p ensures p in WalkAll(nodes, []) <==> Leads(nodes, p) {
      WalkAllLeads(nodes, [], p);
      assert p[0..] == p;
    }
  }
}
