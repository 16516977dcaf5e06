/** Flattening an edit tree to a list of operations (section 7.2 of RFC 6241): which nodes
    are recorded, under which operation, on which path and in which order. */
module EditTree {
  import opened Config
  import opened EditOps
  import opened Choices

  datatype EditNode = EditNode(name: string, space: string, op: Operation, value: string, children: seq<EditNode>)

  datatype Kind = Unknown | ListNode(key: string) | LeafNode(empty: bool) | Container(presence: bool)

  /** What the compiler asks of the schema about the node at a path. */
  datatype Schema = Schema(kind: Path -> Kind, space: Path -> string, choices: Path -> seq<Item>)

  datatype EditError = UnknownElement(at: Path) | UnknownNamespace(at: Path) | BadElement(at: Path, name: string)

  /** The nearest operation: a node's own attribute, or else the one inherited. */
  function Own(en: EditNode, inherited: Operation): Operation {
    if en.op.NotSet? then inherited else en.op
  }

  function Kids(children: seq<EditNode>, op: Operation): (kids: seq<Child>)
    ensures |kids| == |children|
    ensures forall i :: 0 <= i < |kids| ==> kids[i] == Child(children[i].name, Removes(Own(children[i], op)))
  {
    if children == [] then []
    else [Child(children[0].name, Removes(Own(children[0], op)))] + Kids(children[1..], op)
  }

  function CheckNodes(items: seq<Item>, children: seq<EditNode>, op: Operation): Verdict {
    CheckChildren(items, Kids(children, op), {})
  }

  /** How an edit node is treated: not at all, not recorded itself but passed through (a
      container without presence), recorded alone, or recorded with its children. */
  datatype Shape =
    | Bail
    | Fault(error: EditError)
    | Leaf(path: Path)
    | Through(path: Path, kids: seq<EditNode>)
    | Inner(path: Path, kids: seq<EditNode>)

  function ShapeOf(sch: Schema, en: EditNode, inherited: Operation, cur: Path): (s: Shape)
    ensures s.Through? || s.Inner? ==>
              s.kids == en.children || (en.children != [] && s.kids == en.children[1..])
    ensures s.Leaf? || s.Through? || s.Inner? ==> cur + [en.name] <= s.path
  {
    var path := cur + [en.name];
    var op := Own(en, inherited);
    match sch.kind(path)
    case Unknown => Bail
    case ListNode(key) => ShapeOfList(sch, en, op, path, key)
    case LeafNode(empty) =>
      if sch.space(path) != en.space then Fault(UnknownNamespace(path))
      else if !empty && en.value != "" then Leaf(path + [en.value])
      else Leaf(path)
    case Container(presence) =>
      if sch.space(path) != en.space then Fault(UnknownNamespace(path))
      else
        match CheckNodes(sch.choices(path), en.children, op)
        case Conflict(name) => Fault(BadElement(path, name))
        case Accepted =>
          if !presence && en.children != [] && !Removes(op) then Through(path, en.children)
          else Inner(path, en.children)
  }

  /** A list entry is named by its key, which must be the first child; without a key only a
      deletion of the whole list is recorded. */
  function ShapeOfList(sch: Schema, en: EditNode, op: Operation, path: Path, key: string): (s: Shape)
    ensures s.Inner? ==>
              s.kids == en.children || (en.children != [] && s.kids == en.children[1..])
    ensures !s.Leaf? && !s.Through?
    ensures s.Inner? ==> path <= s.path
  {
    if sch.space(path) != en.space then Fault(UnknownNamespace(path))
    else
      match CheckNodes(sch.choices(path), en.children, op)
      case Conflict(name) => Fault(BadElement(path, name))
      case Accepted =>
        if en.children != [] && en.children[0].name == key then
          var entry := path + [en.children[0].value];
          if sch.kind(entry).Unknown? then Fault(UnknownElement(path))
          else if sch.space(entry) != en.space then Fault(UnknownNamespace(path))
          else Inner(entry, en.children[1..])
        else if exists c :: c in en.children && c.name == key then Bail
        else if Removes(op) then Inner(path, en.children)
        else Bail
  }

  datatype Flat = Flat(ops: seq<EditOp>) | Panic(error: EditError)

  function Flatten(sch: Schema, en: EditNode, inherited: Operation, cur: Path): Flat
    decreases en
  {
    var op := Own(en, inherited);
    match ShapeOf(sch, en, inherited, cur)
    case Bail => Flat([])
    case Fault(e) => Panic(e)
    case Leaf(path) => Flat([EditOp(op, path)])
    case Through(path, kids) => FlattenAll(sch, kids, op, path)
    case Inner(path, kids) => WithSelf(EditOp(op, path), FlattenAll(sch, kids, op, path))
  }

  function FlattenAll(sch: Schema, kids: seq<EditNode>, op: Operation, cur: Path): Flat
    decreases kids
  {
    if kids == [] then Flat([])
    else
      match Flatten(sch, kids[0], op, cur)
      case Panic(e) => Panic(e)
      case Flat(first) =>
        match FlattenAll(sch, kids[1..], op, cur)
        case Panic(e) => Panic(e)
        case Flat(rest) => Flat(first + rest)
  }

  /** Deletions are recorded after their subtree, everything else before it. */
  function WithSelf(self: EditOp, below: Flat): Flat {
    match below
    case Panic(e) => Panic(e)
    case Flat(ops) => if Removes(self.op) then Flat(ops + [self]) else Flat([self] + ops)
  }

  /** One list after another; the first panic is the one that counts. */
  function Then(a: Flat, b: Flat): Flat {
    if a.Panic? then a else if b.Panic? then b else Flat(a.ops + b.ops)
  }

  lemma ThenAssociates(a: Flat, b: Flat, c: Flat)
    ensures Then(Then(a, b), c) == Then(a, Then(b, c))
  {
    if a.Flat? && b.Flat? && c.Flat? {
      assert a.ops + b.ops + c.ops == a.ops + (b.ops + c.ops);
    }
  }

  /** Siblings are recorded in the order of the request, and the first at fault is the one reported. */
  lemma {:induction false} SiblingsInOrder(sch: Schema, a: seq<EditNode>, b: seq<EditNode>, op: Operation, cur: Path)
    ensures FlattenAll(sch, a + b, op, cur) == Then(FlattenAll(sch, a, op, cur), FlattenAll(sch, b, op, cur))
  {
    if a == [] {
      assert a + b == b;
    } else {
      SiblingsInOrder(sch, a[1..], b, op, cur);
      assert (a + b)[0] == a[0] && (a + b)[1..] == a[1..] + b;
      ThenAssociates(Flatten(sch, a[0], op, cur), FlattenAll(sch, a[1..], op, cur), FlattenAll(sch, b, op, cur));
    }
  }

  /** A whole request: the top-level choice check, then every child. */
  function Compile(sch: Schema, children: seq<EditNode>, op: Operation): Flat {
    match CheckNodes(sch.choices([]), children, op)
    case Conflict(name) => Panic(BadElement([], name))
    case Accepted => FlattenAll(sch, children, op, [])
  }

  // --- When the children of a node are accepted ---

  /** Neither is deleted, and some choice has them in different cases. */
  ghost predicate Exclude(items: seq<Item>, a: EditNode, b: EditNode, op: Operation) {
    !Removes(Own(a, op)) && !Removes(Own(b, op)) && Separated(items, a.name, b.name)
  }

  /** Child j is excluded by one before it. */
  ghost predicate Excluded(items: seq<Item>, children: seq<EditNode>, op: Operation, j: nat)
    requires j < |children|
  {
    exists i :: 0 <= i < j && Exclude(items, children[i], children[j], op)
  }

  /** The children of a node are accepted exactly when none is excluded by one before it. */
  lemma AcceptedChildren(items: seq<Item>, children: seq<EditNode>, op: Operation)
    requires Unique(items)
    ensures CheckNodes(items, children, op).Accepted?
       <==> forall j :: 0 <= j < |children| ==> !Excluded(items, children, op, j)
  {
    var kids := Kids(children, op);
    CheckIsPairwise(items, kids, {});
    if PairwiseCompatible(items, kids) {
      forall i, j | 0 <= i < j < |children| ensures !Exclude(items, children[i], children[j], op) {
        assert kids[i] in kids && kids[j] in kids;
        assert Compatible(items, kids[i], kids[j]);
      }
    } else {
      var a, b :| a in kids && b in kids && !Compatible(items, a, b);
      var i, j := IndexOf(kids, a), IndexOf(kids, b);
      SeparatedSymmetric(items, a.name, b.name);
      NeverSeparatedFromItself(items, a.name);
      assert i != j;
      assert Exclude(items, children[i], children[j], op) && Exclude(items, children[j], children[i], op);
      assert Excluded(items, children, op, if i < j then j else i);
    }
  }

  lemma ExcludedInPrefix(items: seq<Item>, children: seq<EditNode>, op: Operation, n: nat, j: nat)
    requires j < n <= |children|
    ensures Excluded(items, children[..n], op, j) <==> Excluded(items, children, op, j)
  {
    var p := children[..n];
    assert forall i :: 0 <= i < n ==> p[i] == children[i];
  }

  lemma KidsPrefix(children: seq<EditNode>, op: Operation, j: nat)
    requires j <= |children|
    ensures Kids(children[..j], op) == Kids(children, op)[..j]
  {
  }

  /** Otherwise the first that is excluded is named. */
  lemma FirstExcludedIsNamed(items: seq<Item>, children: seq<EditNode>, op: Operation) returns (j: nat)
    requires Unique(items) && CheckNodes(items, children, op).Conflict?
    ensures j < |children| && CheckNodes(items, children, op).name == children[j].name
    ensures Excluded(items, children, op, j) && forall k :: 0 <= k < j ==> !Excluded(items, children, op, k)
  {
    j := ConflictIsFirst(items, Kids(children, op), {});
    KidsPrefix(children, op, j);
    KidsPrefix(children, op, j + 1);
    AcceptedChildren(items, children[..j], op);
    AcceptedChildren(items, children[..j + 1], op);
    forall k | 0 <= k < j ensures !Excluded(items, children, op, k) {
      ExcludedInPrefix(items, children, op, j, k);
    }
    var k :| 0 <= k < |children[..j + 1]| && Excluded(items, children[..j + 1], op, k);
    ExcludedInPrefix(items, children, op, j + 1, k);
  }

  ghost function IndexOf(kids: seq<Child>, a: Child): (i: nat)
    requires a in kids
    ensures i < |kids| && kids[i] == a
  {
    var i :| 0 <= i < |kids| && kids[i] == a;
    i
  }

  // --- Which nodes are recorded, and how: read off the schema and the tree alone ---

  predicate Keyed(sch: Schema, en: EditNode, at: Path) {
    sch.kind(at).ListNode? && exists c :: c in en.children && c.name == sch.kind(at).key
  }

  /** What a node at a path adds to it: a list entry its key's value, a leaf that is not of type
      empty its own value if it has one, any other node nothing. */
  ghost predicate Adds(sch: Schema, en: EditNode, at: Path, suffix: Path) {
    && (Keyed(sch, en, at) ==> en.children[0].name == sch.kind(at).key && suffix == [en.children[0].value])
    && (sch.kind(at) == LeafNode(false) && en.value != "" ==> suffix == [en.value])
    && (suffix == [] || Keyed(sch, en, at) || (sch.kind(at) == LeafNode(false) && en.value != ""))
  }

  /** A node whose children are looked at: a container, a list entry whose key comes first, or a
      list without a key that is deleted. */
  ghost predicate Entered(sch: Schema, en: EditNode, op: Operation, at: Path) {
    || sch.kind(at).Container?
    || (sch.kind(at).ListNode? && if Keyed(sch, en, at) then en.children[0].name == sch.kind(at).key else Removes(op))
  }

  /** The children that are looked at; the key of a list entry is not one of them. */
  function Below(sch: Schema, en: EditNode, at: Path): seq<EditNode> {
    if Keyed(sch, en, at) then en.children[1..] else en.children
  }

  /** A container without presence is passed through, unless it is empty or deleted. */
  ghost predicate PassedThrough(sch: Schema, en: EditNode, op: Operation, at: Path) {
    sch.kind(at) == Container(false) && en.children != [] && !Removes(op)
  }

  ghost predicate Recorded(sch: Schema, en: EditNode, op: Operation, at: Path) {
    sch.kind(at).LeafNode? || (Entered(sch, en, op, at) && !PassedThrough(sch, en, op, at))
  }

  /** What is wrong with a node: it is in another namespace than the schema's, children of it are
      in different cases of a choice, or the entry it names does not exist or is in another
      namespace. */
  ghost predicate Faults(sch: Schema, en: EditNode, op: Operation, at: Path, e: EditError) {
    && !sch.kind(at).Unknown?
    && if sch.space(at) != en.space then e == UnknownNamespace(at)
       else
         && !sch.kind(at).LeafNode?
         && var verdict := CheckNodes(sch.choices(at), en.children, op);
            if verdict.Conflict? then e == BadElement(at, verdict.name)
            else
              && Keyed(sch, en, at) && en.children[0].name == sch.kind(at).key
              && var entry := at + [en.children[0].value];
                 if sch.kind(entry).Unknown? then e == UnknownElement(at)
                 else sch.space(entry) != en.space && e == UnknownNamespace(at)
  }

  /** A chain of edit nodes from the top of the request down to one that is recorded or, if an
      error is given, to one at fault; path is what the chain spells. */
  ghost predicate IsChain(sch: Schema, kids: seq<EditNode>, op: Operation, cur: Path, chain: seq<EditNode>, path: Path,
                          fault: Option<EditError>)
    decreases |chain|
  {
    && chain != []
    && chain[0] in kids
    && var en, at := chain[0], cur + [chain[0].name];
       if |chain| == 1 then
         match fault
         case None =>
           Recorded(sch, en, Own(en, op), at) && exists suffix :: Adds(sch, en, at, suffix) && path == at + suffix
         case Some(e) => Faults(sch, en, Own(en, op), at, e) && path == at
       else
         && Entered(sch, en, Own(en, op), at)
         && exists suffix :: Adds(sch, en, at, suffix)
              && IsChain(sch, Below(sch, en, at), Own(en, op), at + suffix, chain[1..], path, fault)
  }

  /** The operation of the last node of the chain that carries one, else the default. */
  function Nearest(chain: seq<EditNode>, default: Operation): Operation {
    if chain == [] then default
    else
      var n := |chain| - 1;
      if !chain[n].op.NotSet? then chain[n].op else Nearest(chain[..n], default)
  }

  lemma {:induction false} NearestHead(chain: seq<EditNode>, default: Operation)
    requires chain != []
    ensures Nearest(chain, default) == Nearest(chain[1..], Own(chain[0], default))
  {
    var n := |chain| - 1;
    if n > 0 {
      NearestHead(chain[..n], default);
      assert chain[..n][1..] == chain[1..][..n - 1];
    }
  }

  lemma NearestOfOne(en: EditNode, op: Operation)
    ensures Nearest([en], op) == Own(en, op)
  {
    assert [en][..0] == [];
    assert Nearest([en][..0], op) == op;
  }

  /** How a node is treated says the same. */
  lemma ShapeSays(sch: Schema, en: EditNode, op: Operation, cur: Path)
    ensures var at := cur + [en.name]; var own := Own(en, op); var s := ShapeOf(sch, en, op, cur);
            && (forall e :: s == Fault(e) <==> Faults(sch, en, own, at, e))
            && (!s.Fault? ==>
                  && (s.Leaf? || s.Inner? <==> Recorded(sch, en, own, at))
                  && (s.Through? || s.Inner? <==> Entered(sch, en, own, at))
                  && (!s.Bail? ==> Adds(sch, en, at, s.path[|at|..]) && s.path == at + s.path[|at|..])
                  && (s.Through? || s.Inner? ==> s.kids == Below(sch, en, at)))
  {
    var at := cur + [en.name];
    var s := ShapeOf(sch, en, op, cur);
    if en.children != [] { assert en.children[0] in en.children; }
    if s.Leaf? || s.Inner? || s.Through? {
      assert at <= s.path;
      assert s.path == at + s.path[|at|..];
    }
  }

  lemma AddsOnce(sch: Schema, en: EditNode, at: Path, a: Path, b: Path)
    requires Adds(sch, en, at, a) && Adds(sch, en, at, b)
    ensures a == b
  {
  }

  /** Every recorded operation is that of a chain of nodes: the path is what the chain spells, the
      operation that of the nearest ancestor-or-self carrying one, else the default. */
  lemma {:induction false} RecordHasOrigin(sch: Schema, kids: seq<EditNode>, op: Operation, cur: Path, r: EditOp)
    returns (chain: seq<EditNode>)
    requires FlattenAll(sch, kids, op, cur).Flat? && r in FlattenAll(sch, kids, op, cur).ops
    ensures IsChain(sch, kids, op, cur, chain, r.path, None) && r.op == Nearest(chain, op)
    decreases kids
  {
    var en := kids[0];
    if r in FlattenAll(sch, kids[1..], op, cur).ops {
      chain := RecordHasOrigin(sch, kids[1..], op, cur, r);
      assert chain[0] in kids;
    } else {
      var own := Own(en, op);
      var s := ShapeOf(sch, en, op, cur);
      var at := cur + [en.name];
      ShapeSays(sch, en, op, cur);
      if s.Leaf? || (s.Inner? && r == EditOp(own, s.path)) {
        chain := [en];
        NearestOfOne(en, op);
        assert Adds(sch, en, at, s.path[|at|..]) && r.path == at + s.path[|at|..];
      } else {
        var below := RecordHasOrigin(sch, s.kids, own, s.path, r);
        chain := LongerChain(sch, kids, op, cur, en, below, s, r.path, None);
        NearestHead(chain, op);
      }
    }
  }

  lemma LongerChain(sch: Schema, kids: seq<EditNode>, op: Operation, cur: Path, en: EditNode, below: seq<EditNode>,
                    s: Shape, path: Path, fault: Option<EditError>) returns (chain: seq<EditNode>)
    requires en in kids && s == ShapeOf(sch, en, op, cur) && (s.Through? || s.Inner?)
    requires IsChain(sch, s.kids, Own(en, op), s.path, below, path, fault)
    ensures chain == [en] + below && chain[1..] == below && IsChain(sch, kids, op, cur, chain, path, fault)
  {
    var at := cur + [en.name];
    ShapeSays(sch, en, op, cur);
    chain := [en] + below;
    assert chain[1..] == below;
    var suffix := s.path[|at|..];
    assert Adds(sch, en, at, suffix);
    assert IsChain(sch, Below(sch, en, at), Own(en, op), at + suffix, chain[1..], path, fault);
  }

  /** The first node of a longer chain, when it is not at fault itself: what is below it. */
  lemma ShorterChain(sch: Schema, kids: seq<EditNode>, op: Operation, cur: Path, chain: seq<EditNode>, path: Path,
                     fault: Option<EditError>)
    requires IsChain(sch, kids, op, cur, chain, path, fault) && |chain| > 1
    requires !ShapeOf(sch, chain[0], op, cur).Fault?
    ensures var s := ShapeOf(sch, chain[0], op, cur);
            && (s.Through? || s.Inner?)
            && IsChain(sch, s.kids, Own(chain[0], op), s.path, chain[1..], path, fault)
  {
    var en, at := chain[0], cur + [chain[0].name];
    ShapeSays(sch, en, op, cur);
    var s := ShapeOf(sch, en, op, cur);
    var suffix :| Adds(sch, en, at, suffix)
                  && IsChain(sch, Below(sch, en, at), Own(en, op), at + suffix, chain[1..], path, fault);
    AddsOnce(sch, en, at, suffix, s.path[|at|..]);
  }

  lemma LastOfChain(sch: Schema, kids: seq<EditNode>, op: Operation, cur: Path, chain: seq<EditNode>, path: Path)
    requires IsChain(sch, kids, op, cur, chain, path, None) && |chain| == 1
    requires !ShapeOf(sch, chain[0], op, cur).Fault?
    ensures var s := ShapeOf(sch, chain[0], op, cur); (s.Leaf? || s.Inner?) && s.path == path
  {
    var en, at := chain[0], cur + [chain[0].name];
    ShapeSays(sch, en, op, cur);
    var suffix :| Adds(sch, en, at, suffix) && path == at + suffix;
    AddsOnce(sch, en, at, suffix, ShapeOf(sch, en, op, cur).path[|at|..]);
  }

  /** Conversely every such chain is recorded: no node of the tree is skipped. */
  lemma {:induction false} ChainIsRecorded(sch: Schema, kids: seq<EditNode>, op: Operation, cur: Path,
                                           chain: seq<EditNode>, path: Path)
    requires FlattenAll(sch, kids, op, cur).Flat? && IsChain(sch, kids, op, cur, chain, path, None)
    ensures EditOp(Nearest(chain, op), path) in FlattenAll(sch, kids, op, cur).ops
    decreases kids
  {
    if chain[0] != kids[0] {
      ChainIsRecorded(sch, kids[1..], op, cur, chain, path);
    } else {
      if |chain| == 1 {
        LastOfChain(sch, kids, op, cur, chain, path);
        NearestOfOne(chain[0], op);
        assert chain == [chain[0]];
      } else {
        NearestHead(chain, op);
        ShorterChain(sch, kids, op, cur, chain, path, None);
        var s := ShapeOf(sch, chain[0], op, cur);
        ChainIsRecorded(sch, s.kids, Own(chain[0], op), s.path, chain[1..], path);
      }
    }
  }

  /** A request is refused only for a node at fault that a chain leads to. */
  lemma {:induction false} PanicHasOrigin(sch: Schema, kids: seq<EditNode>, op: Operation, cur: Path)
    returns (chain: seq<EditNode>, path: Path)
    requires FlattenAll(sch, kids, op, cur).Panic?
    ensures IsChain(sch, kids, op, cur, chain, path, Some(FlattenAll(sch, kids, op, cur).error))
    decreases kids
  {
    var en := kids[0];
    var s := ShapeOf(sch, en, op, cur);
    if Flatten(sch, en, op, cur).Flat? {
      chain, path := PanicHasOrigin(sch, kids[1..], op, cur);
      assert chain[0] in kids;
    } else if s.Fault? {
      ShapeSays(sch, en, op, cur);
      chain, path := [en], cur + [en.name];
    } else {
      var below;
      below, path := PanicHasOrigin(sch, s.kids, Own(en, op), s.path);
      chain := LongerChain(sch, kids, op, cur, en, below, s, path, Some(FlattenAll(sch, kids, op, cur).error));
    }
  }

  /** And it is refused for every one. */
  lemma {:induction false} FaultPanics(sch: Schema, kids: seq<EditNode>, op: Operation, cur: Path,
                                       chain: seq<EditNode>, path: Path, e: EditError)
    requires IsChain(sch, kids, op, cur, chain, path, Some(e))
    ensures FlattenAll(sch, kids, op, cur).Panic?
    decreases kids
  {
    if chain[0] != kids[0] {
      FaultPanics(sch, kids[1..], op, cur, chain, path, e);
    } else {
      ShapeSays(sch, chain[0], op, cur);
      var s := ShapeOf(sch, chain[0], op, cur);
      if |chain| > 1 && !s.Fault? {
        ShorterChain(sch, kids, op, cur, chain, path, Some(e));
        FaultPanics(sch, s.kids, Own(chain[0], op), s.path, chain[1..], path, e);
      }
    }
  }

  /** An unset operation is recorded only when the request's default is unset. */
  lemma {:induction false} UnsetOnlyByDefault(chain: seq<EditNode>, default: Operation)
    ensures Nearest(chain, default).NotSet? ==> default.NotSet?
  {
    if chain != [] {
      UnsetOnlyByDefault(chain[..|chain| - 1], default);
    }
  }

  // --- In which order ---

  predicate StrictlyBelow(q: Path, p: Path) {
    Covers(p, q) && p != q
  }

  /** No path twice; a deletion after all records of its subtree; any other record before. */
  ghost predicate Ordered(ops: seq<EditOp>) {
    forall i, j :: 0 <= i < |ops| && 0 <= j < |ops| && i != j ==>
      && ops[i].path != ops[j].path
      && (StrictlyBelow(ops[j].path, ops[i].path) ==> if Removes(ops[i].op) then j < i else i < j)
  }

  ghost predicate Apart(a: seq<EditOp>, b: seq<EditOp>) {
    forall i, j :: 0 <= i < |a| && 0 <= j < |b| ==> !Comparable(a[i].path, b[j].path)
  }

  /** The request names each data node once: siblings have incomparable data paths. */
  ghost predicate NamesOnce(sch: Schema, kids: seq<EditNode>, op: Operation, cur: Path)
    decreases kids
  {
    kids != [] ==>
      && (forall k :: k in kids[1..] ==> ShapesApart(ShapeOf(sch, kids[0], op, cur), ShapeOf(sch, k, op, cur)))
      && NamesOnce(sch, kids[1..], op, cur)
      && (var s := ShapeOf(sch, kids[0], op, cur);
          s.Through? || s.Inner? ==> NamesOnce(sch, s.kids, Own(kids[0], op), s.path))
  }

  predicate ShapesApart(s: Shape, t: Shape) {
    (s.Leaf? || s.Through? || s.Inner?) && (t.Leaf? || t.Through? || t.Inner?) ==> !Comparable(s.path, t.path)
  }

  /** Subtree paths extend the path of the node. */
  lemma {:induction false} RecordsExtend(sch: Schema, kids: seq<EditNode>, op: Operation, cur: Path, r: EditOp)
    requires FlattenAll(sch, kids, op, cur).Flat? && r in FlattenAll(sch, kids, op, cur).ops
    ensures StrictlyBelow(r.path, cur)
    ensures exists k :: k in kids && var s := ShapeOf(sch, k, op, cur);
              (s.Leaf? || s.Through? || s.Inner?) && Covers(s.path, r.path)
    decreases kids
  {
    if r in FlattenAll(sch, kids[1..], op, cur).ops {
      RecordsExtend(sch, kids[1..], op, cur, r);
    } else {
      var s := ShapeOf(sch, kids[0], op, cur);
      assert kids[0] in kids;
      if (s.Inner? || s.Through?) && r in FlattenAll(sch, s.kids, Own(kids[0], op), s.path).ops {
        RecordsExtend(sch, s.kids, Own(kids[0], op), s.path, r);
      }
    }
  }

  lemma OrderedConcat(a: seq<EditOp>, b: seq<EditOp>)
    requires Ordered(a) && Ordered(b) && Apart(a, b)
    ensures Ordered(a + b)
  {
    var ops := a + b;
    forall i, j | 0 <= i < |ops| && 0 <= j < |ops| && i != j
      ensures ops[i].path != ops[j].path
      ensures StrictlyBelow(ops[j].path, ops[i].path) ==> if Removes(ops[i].op) then j < i else i < j
    {
      if i < |a| && |a| <= j {
        assert !Comparable(a[i].path, b[j - |a|].path);
      } else if j < |a| && |a| <= i {
        assert !Comparable(a[j].path, b[i - |a|].path);
      } else if |a| <= i && |a| <= j {
        assert ops[i] == b[i - |a|] && ops[j] == b[j - |a|];
      }
    }
  }

  lemma OrderedWithSelf(self: EditOp, ops: seq<EditOp>)
    requires Ordered(ops) && forall i :: 0 <= i < |ops| ==> StrictlyBelow(ops[i].path, self.path)
    ensures Ordered(WithSelf(self, Flat(ops)).ops)
  {
    var all := WithSelf(self, Flat(ops)).ops;
    var d := if Removes(self.op) then 0 else 1;
    var own := if Removes(self.op) then |ops| else 0;
    assert forall i :: 0 <= i < |all| && i != own ==> all[i] == ops[i - d];
    assert all[own] == self;
    forall i, j | 0 <= i < |all| && 0 <= j < |all| && i != j
      ensures all[i].path != all[j].path
      ensures StrictlyBelow(all[j].path, all[i].path) ==> if Removes(all[i].op) then j < i else i < j
    {
      if i != own && j != own {
        assert all[i] == ops[i - d] && all[j] == ops[j - d];
      }
    }
  }

  ghost predicate AllBelow(ops: seq<EditOp>, p: Path) {
    forall i :: 0 <= i < |ops| ==> Covers(p, ops[i].path)
  }

  /** The records of siblings are apart. */
  lemma SiblingsApart(sch: Schema, kids: seq<EditNode>, op: Operation, cur: Path, s: Shape, first: seq<EditOp>)
    requires FlattenAll(sch, kids, op, cur).Flat?
    requires s.Leaf? || s.Through? || s.Inner?
    requires forall k :: k in kids ==> ShapesApart(s, ShapeOf(sch, k, op, cur))
    requires AllBelow(first, s.path)
    ensures Apart(first, FlattenAll(sch, kids, op, cur).ops)
  {
    var rest := FlattenAll(sch, kids, op, cur).ops;
    forall i, j | 0 <= i < |first| && 0 <= j < |rest| ensures !Comparable(first[i].path, rest[j].path) {
      RecordsExtend(sch, kids, op, cur, rest[j]);
      var k :| k in kids && var t := ShapeOf(sch, k, op, cur);
        (t.Leaf? || t.Through? || t.Inner?) && Covers(t.path, rest[j].path);
      assert Covers(s.path, first[i].path);
    }
  }

  /** The recorded order: a delete or remove follows all records of its subtree, any other
      record precedes them, and no path is recorded twice. */
  lemma {:induction false} FlatteningIsOrdered(sch: Schema, kids: seq<EditNode>, op: Operation, cur: Path)
    requires FlattenAll(sch, kids, op, cur).Flat? && NamesOnce(sch, kids, op, cur)
    ensures Ordered(FlattenAll(sch, kids, op, cur).ops)
    decreases kids
  {
    if kids != [] {
      var s := ShapeOf(sch, kids[0], op, cur);
      var own := Own(kids[0], op);
      var first := Flatten(sch, kids[0], op, cur).ops;
      var rest := FlattenAll(sch, kids[1..], op, cur).ops;
      FlatteningIsOrdered(sch, kids[1..], op, cur);
      if s.Through? || s.Inner? {
        FlatteningIsOrdered(sch, s.kids, own, s.path);
        var below := FlattenAll(sch, s.kids, own, s.path).ops;
        forall i | 0 <= i < |below| ensures StrictlyBelow(below[i].path, s.path) {
          RecordsExtend(sch, s.kids, own, s.path, below[i]);
        }
        if s.Inner? {
          OrderedWithSelf(EditOp(own, s.path), below);
        }
      }
      if s.Bail? {
        assert first + rest == rest;
      } else {
        SiblingsApart(sch, kids[1..], op, cur, s, first);
        OrderedConcat(first, rest);
      }
    }
  }
}
