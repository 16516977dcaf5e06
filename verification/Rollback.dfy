/** How far "we can't rollback, but we can prevalidate which is the same result" is true of
    the operations an edit tree is flattened to, as long as nothing interrupts the request. What
    other requests can do to it while it waits is in Interrupted. */
module Rollback {
  import opened Config
  import opened EditOps
  import opened EditTree
  import opened Choices

  predicate Sets(op: Operation) {
    op.Merge? || op.Create? || op.Replace?
  }

  lemma {:induction false} LastTouchIsTrue(before: bool, ops: seq<EditOp>, p: Path, k: nat)
    requires k < |ops| && Touch(ops[k], p) == Some(true)
    requires forall j | k < j < |ops| :: Touch(ops[j], p) != Some(false)
    ensures LastTouch(before, ops, p)
  {
    var n := |ops| - 1;
    if k < n {
      LastTouchIsTrue(before, ops[..n], p, k);
    }
  }

  lemma {:induction false} LastTouchNeverTrue(before: bool, ops: seq<EditOp>, p: Path)
    requires forall j | 0 <= j < |ops| :: Touch(ops[j], p) != Some(true)
    ensures LastTouch(before, ops, p)
       <==> before && forall j | 0 <= j < |ops| :: Touch(ops[j], p) != Some(false)
  {
    if ops != [] {
      var n := |ops| - 1;
      LastTouchNeverTrue(before, ops[..n], p);
      assert forall j | 0 <= j < n :: ops[..n][j] == ops[j];
    }
  }

  ghost predicate ReplacedAbove(ops: seq<EditOp>, p: Path) {
    exists k :: 0 <= k < |ops| && ops[k].op.Replace? && StrictlyBelow(p, ops[k].path)
  }

  ghost predicate SetBelow(ops: seq<EditOp>, p: Path) {
    exists k :: 0 <= k < |ops| && Sets(ops[k].op) && StrictlyBelow(ops[k].path, p)
  }

  /** In an ordered list what touches the path of operation i before it is run is a replace
      above it and, for a deletion, the settings below it. */
  lemma TouchBefore(ops: seq<EditOp>, i: nat, k: nat)
    requires Ordered(ops) && i < |ops| && k < i
    ensures Touch(ops[k], ops[i].path) == Some(false)
       <==> ops[k].op.Replace? && StrictlyBelow(ops[i].path, ops[k].path)
    ensures Touch(ops[k], ops[i].path) == Some(true)
       <==> Sets(ops[k].op) && StrictlyBelow(ops[k].path, ops[i].path)
  {
  }

  /** A delete meets its node unless a replace above has swept it away and nothing set below
      has brought it back. */
  lemma DeleteIsHarmless(env: Env, c: Overlay, ops: seq<EditOp>, i: nat)
    requires Ordered(ops) && i < |ops| && ops[i].op.Delete?
    ensures Harmless(env, c, ops, i)
       <==> !ReplacedAbove(ops, ops[i].path) || SetBelow(ops, ops[i].path)
  {
    var p := ops[i].path;
    forall k | 0 <= k < i
      ensures Touch(ops[..i][k], p) == Some(false) <==> ops[k].op.Replace? && StrictlyBelow(p, ops[k].path)
      ensures Touch(ops[..i][k], p) == Some(true) <==> Sets(ops[k].op) && StrictlyBelow(ops[k].path, p)
    {
      TouchBefore(ops, i, k);
    }
    if SetBelow(ops, p) {
      var k :| 0 <= k < |ops| && Sets(ops[k].op) && StrictlyBelow(ops[k].path, p);
      assert k < i;
      forall j | k < j < i ensures Touch(ops[..i][j], p) != Some(false) {
        assert StrictlyBelow(p, ops[j].path) ==> StrictlyBelow(ops[k].path, ops[j].path);
      }
      LastTouchIsTrue(true, ops[..i], p, k);
    } else {
      LastTouchNeverTrue(true, ops[..i], p);
      if ReplacedAbove(ops, p) {
        var k :| 0 <= k < |ops| && ops[k].op.Replace? && StrictlyBelow(p, ops[k].path);
        assert Touch(ops[..i][k], p) == Some(false);
      }
    }
  }

  lemma CreateIsHarmless(env: Env, c: Overlay, ops: seq<EditOp>, i: nat)
    requires Ordered(ops) && i < |ops| && ops[i].op.Create? && env.settable(ops[i].path)
    ensures Harmless(env, c, ops, i)
  {
    var p := ops[i].path;
    forall k | 0 <= k < i ensures Touch(ops[..i][k], p) != Some(true) {
      TouchBefore(ops, i, k);
    }
    LastTouchNeverTrue(false, ops[..i], p);
  }

  /** Some recorded delete lies under a replaced node and nothing is set below it. */
  ghost predicate HiddenDelete(ops: seq<EditOp>) {
    exists i :: 0 <= i < |ops| && ops[i].op.Delete?
                && ReplacedAbove(ops, ops[i].path) && !SetBelow(ops, ops[i].path)
  }

  /** What a request asks of the schema: the path check of Test accepts what a set accepts. */
  ghost predicate SameValidity(env: Env) {
    forall p :: env.known(p) ==> env.settable(p)
  }

  lemma {:induction false} UnsetNeedsDefault(sch: Schema, kids: seq<EditNode>, op: Operation, cur: Path, r: EditOp)
    requires FlattenAll(sch, kids, op, cur).Flat? && r in FlattenAll(sch, kids, op, cur).ops
    ensures r.op.NotSet? ==> op.NotSet?
  {
    var chain := RecordHasOrigin(sch, kids, op, cur, r);
    UnsetOnlyByDefault(chain, op);
  }

  /** Rollback by prevalidation, exactly: for a request that names each data node once, if
      every operation passes Test on the initial candidate, then every operation succeeds
      when run in recorded order if and only if no delete is hidden by a replace. */
  lemma PrevalidationOfTree(env: Env, sch: Schema, kids: seq<EditNode>, op: Operation, c: Overlay)
    requires Closed(c) && PrefixClosed(env.running) && SameValidity(env)
    requires !env.test.TestOnly? && (op.NotSet? ==> env.defaultNone)
    requires FlattenAll(sch, kids, op, []).Flat? && NamesOnce(sch, kids, op, [])
    requires Prevalidated(env, c, FlattenAll(sch, kids, op, []).ops)
    ensures var ops := FlattenAll(sch, kids, op, []).ops;
            AllSucceed(env, c, ops) <==> !HiddenDelete(ops)
  {
    var ops := FlattenAll(sch, kids, op, []).ops;
    FlatteningIsOrdered(sch, kids, op, []);
    forall i | 0 <= i < |ops|
      ensures ops[i].path != []
      ensures Harmless(env, c, ops, i)
         <==> !(ops[i].op.Delete? && ReplacedAbove(ops, ops[i].path) && !SetBelow(ops, ops[i].path))
    {
      RecordsExtend(sch, kids, op, [], ops[i]);
      UnsetNeedsDefault(sch, kids, op, [], ops[i]);
      assert Test(env, c, ops[i]);
      if ops[i].op.Delete? {
        DeleteIsHarmless(env, c, ops, i);
      } else if ops[i].op.Create? {
        CreateIsHarmless(env, c, ops, i);
      }
    }
    PrevalidationIsExact(env, c, ops);
  }

  /** No node of the request carries a replace. */
  predicate FreeOfReplace(kids: seq<EditNode>) {
    kids != [] ==>
      !kids[0].op.Replace? && FreeOfReplace(kids[0].children) && FreeOfReplace(kids[1..])
  }

  lemma {:induction false} NoReplaceRecorded(sch: Schema, kids: seq<EditNode>, op: Operation, cur: Path, r: EditOp)
    requires FreeOfReplace(kids) && !op.Replace?
    requires FlattenAll(sch, kids, op, cur).Flat? && r in FlattenAll(sch, kids, op, cur).ops
    ensures !r.op.Replace?
    decreases kids
  {
    if r in FlattenAll(sch, kids[1..], op, cur).ops {
      NoReplaceRecorded(sch, kids[1..], op, cur, r);
    } else {
      var s := ShapeOf(sch, kids[0], op, cur);
      if (s.Through? || s.Inner?) && r in FlattenAll(sch, s.kids, Own(kids[0], op), s.path).ops {
        NoReplaceRecorded(sch, s.kids, Own(kids[0], op), s.path, r);
      }
    }
  }

  /** The claim of the source, where it holds without looking at the recorded list: an
      uninterrupted request without replace that names each data node once. */
  lemma PrevalidationWithoutReplace(env: Env, sch: Schema, kids: seq<EditNode>, op: Operation, c: Overlay)
    requires Closed(c) && PrefixClosed(env.running) && SameValidity(env)
    requires !env.test.TestOnly? && (op.NotSet? ==> env.defaultNone)
    requires FlattenAll(sch, kids, op, []).Flat? && NamesOnce(sch, kids, op, [])
    requires FreeOfReplace(kids) && !op.Replace?
    requires Prevalidated(env, c, FlattenAll(sch, kids, op, []).ops)
    ensures AllSucceed(env, c, FlattenAll(sch, kids, op, []).ops)
  {
    var ops := FlattenAll(sch, kids, op, []).ops;
    forall k | 0 <= k < |ops| ensures !ops[k].op.Replace? {
      NoReplaceRecorded(sch, kids, op, [], ops[k]);
    }
    PrevalidationOfTree(env, sch, kids, op, c);
  }

  // --- The whole request ---

  /** A request is refused before it changes anything, or runs and reports failures. */
  datatype Reply = Refused | Ran(reported: seq<EditOp>)

  function Edit(env: Env, sch: Schema, children: seq<EditNode>, op: Operation, c: Overlay): (Overlay, Reply) {
    match Compile(sch, children, op)
    case Panic(_) => (c, Refused)
    case Flat(ops) =>
      if env.error.RollbackOnError? && exists o :: o in ops && !Test(env, c, o) then (c, Refused)
      else
        var r := PerformAll(env, c, ops);
        (r.candidate, Ran(r.reported))
  }

  // --- When a request is refused ---

  ghost predicate AtFault(sch: Schema, kids: seq<EditNode>, op: Operation) {
    exists chain, path, e :: IsChain(sch, kids, op, [], chain, path, Some(e))
  }

  ghost predicate FailsATest(env: Env, sch: Schema, kids: seq<EditNode>, op: Operation, c: Overlay) {
    exists chain, path ::
      IsChain(sch, kids, op, [], chain, path, None) && !Test(env, c, EditOp(Nearest(chain, op), path))
  }

  ghost predicate TopConflict(sch: Schema, kids: seq<EditNode>, op: Operation) {
    exists j :: 0 <= j < |kids| && Excluded(sch.choices([]), kids, op, j)
  }

  lemma AtFaultPanics(sch: Schema, kids: seq<EditNode>, op: Operation)
    ensures AtFault(sch, kids, op) <==> FlattenAll(sch, kids, op, []).Panic?
  {
    if chain, path, e :| IsChain(sch, kids, op, [], chain, path, Some(e)) {
      FaultPanics(sch, kids, op, [], chain, path, e);
    }
    if FlattenAll(sch, kids, op, []).Panic? {
      var chain, path := PanicHasOrigin(sch, kids, op, []);
    }
  }

  lemma FailsATestIffRecorded(env: Env, sch: Schema, kids: seq<EditNode>, op: Operation, c: Overlay)
    requires FlattenAll(sch, kids, op, []).Flat?
    ensures FailsATest(env, sch, kids, op, c)
       <==> exists o :: o in FlattenAll(sch, kids, op, []).ops && !Test(env, c, o)
  {
    if chain, path :|
      IsChain(sch, kids, op, [], chain, path, None) && !Test(env, c, EditOp(Nearest(chain, op), path))
    {
      ChainIsRecorded(sch, kids, op, [], chain, path);
    }
    if o :| o in FlattenAll(sch, kids, op, []).ops && !Test(env, c, o) {
      var chain := RecordHasOrigin(sch, kids, op, [], o);
      assert o == EditOp(Nearest(chain, op), o.path);
    }
  }

  /** A request is refused exactly when two of its top nodes exclude each other, a node of it is at
      fault or, under rollback-on-error, an operation it asks for fails its test; then nothing
      changes. Otherwise every recorded operation is performed under the error-option. */
  lemma RefusedExactly(env: Env, sch: Schema, kids: seq<EditNode>, op: Operation, c: Overlay)
    requires Unique(sch.choices([]))
    ensures var (c', reply) := Edit(env, sch, kids, op, c);
            && (reply == Refused <==>
                  || TopConflict(sch, kids, op) || AtFault(sch, kids, op)
                  || (env.error.RollbackOnError? && FailsATest(env, sch, kids, op, c)))
            && (reply == Refused ==> c' == c)
            && (reply != Refused ==>
                  && FlattenAll(sch, kids, op, []).Flat?
                  && var r := PerformAll(env, c, FlattenAll(sch, kids, op, []).ops);
                     c' == r.candidate && reply == Ran(r.reported))
  {
    AcceptedChildren(sch.choices([]), kids, op);
    AtFaultPanics(sch, kids, op);
    if FlattenAll(sch, kids, op, []).Flat? {
      FailsATestIffRecorded(env, sch, kids, op, c);
    }
  }

  /** A rollback-on-error request either is refused and changes nothing or answers without
      a failure; that answer covers a failed operation exactly when a delete is hidden. */
  lemma RollbackAnswers(env: Env, sch: Schema, children: seq<EditNode>, op: Operation, c: Overlay)
    requires Closed(c) && PrefixClosed(env.running) && SameValidity(env)
    requires env.error.RollbackOnError? && !env.test.TestOnly? && (op.NotSet? ==> env.defaultNone)
    requires NamesOnce(sch, children, op, [])
    ensures var (c', reply) := Edit(env, sch, children, op, c);
            && (reply == Refused ==> c' == c)
            && (reply != Refused ==>
                  var ops := Compile(sch, children, op).ops;
                  && reply == Ran([]) && c' == After(env, c, ops)
                  && (AllSucceed(env, c, ops) <==> !HiddenDelete(ops)))
  {
    if Edit(env, sch, children, op, c).1 != Refused {
      var ops := Compile(sch, children, op).ops;
      NeverStopping(env, c, ops);
      forall i | 0 <= i < |ops| ensures Test(env, c, ops[i]) {
        assert ops[i] in ops;
      }
      PrevalidationOfTree(env, sch, children, op, c);
    }
  }

  // --- A request that is answered without a failure although one operation failed ---

  const BOX: Path := ["box"]
  const ITEM: Path := ["box", "item"]

  function BoxSchema(): Schema {
    Schema(
      p => if p == BOX then Container(true) else if p == ITEM then LeafNode(true) else Unknown,
      p => "ns", p => [])
  }

  function BoxEnv(): Env {
    Env({BOX, ITEM}, p => p == BOX || p == ITEM, p => p == BOX || p == ITEM, false, SetOnly, RollbackOnError)
  }

  const DELETED_ITEM := EditNode("item", "ns", Delete, "", [])
  const REPLACED_BOX := EditNode("box", "ns", Replace, "", [DELETED_ITEM])

  lemma BoxShapes()
    ensures ShapeOf(BoxSchema(), DELETED_ITEM, Replace, BOX) == Leaf(ITEM)
    ensures ShapeOf(BoxSchema(), REPLACED_BOX, Merge, []) == Inner(BOX, [DELETED_ITEM])
    ensures CheckNodes([], [REPLACED_BOX], Merge).Accepted?
  {
    assert BOX + ["item"] == ITEM && [] + ["box"] == BOX;
    assert Kids([DELETED_ITEM], Replace) == [Choices.Child("item", true)];
    assert CheckChildren([], [], {}).Accepted?;
    assert CheckNodes([], [DELETED_ITEM], Replace).Accepted?;
    assert Kids([REPLACED_BOX], Merge) == [Choices.Child("box", false)];
    assert CheckChildren([], Kids([REPLACED_BOX], Merge)[1..], {} + Excludes([], "box")).Accepted?;
  }

  lemma BoxCompiles()
    ensures NamesOnce(BoxSchema(), [REPLACED_BOX], Merge, [])
    ensures Compile(BoxSchema(), [REPLACED_BOX], Merge) == Flat([EditOp(Replace, BOX), EditOp(Delete, ITEM)])
  {
    var sch := BoxSchema();
    BoxShapes();
    assert FlattenAll(sch, [], Replace, BOX) == Flat([]);
    assert Flatten(sch, DELETED_ITEM, Replace, BOX) == Flat([EditOp(Delete, ITEM)]);
    assert FlattenAll(sch, [DELETED_ITEM], Replace, BOX) == Flat([EditOp(Delete, ITEM)]);
    assert Flatten(sch, REPLACED_BOX, Merge, []) == Flat([EditOp(Replace, BOX), EditOp(Delete, ITEM)]);
    assert FlattenAll(sch, [], Merge, []) == Flat([]);
    assert NamesOnce(sch, [DELETED_ITEM], Replace, BOX);
  }

  lemma BoxIsPrevalidated()
    ensures PrefixClosed(BoxEnv().running)
    ensures Test(BoxEnv(), EMPTY, EditOp(Replace, BOX)) && Test(BoxEnv(), EMPTY, EditOp(Delete, ITEM))
  {
    ViewOfEmpty(BoxEnv().running);
    forall p, q | p in BoxEnv().running && Covers(q, p) && q != [] ensures q in BoxEnv().running {
      assert q == p[..|q|];
      assert |q| == 1 ==> q == ["box"];
      assert |q| == 2 ==> q == p;
    }
  }

  /** Replacing a container and deleting a leaf it had: prevalidation passes, the replace
      empties the container, the delete then fails, and the answer reports nothing. */
  lemma RollbackHidesFailure()
    ensures BoxEnv().error.RollbackOnError?
    ensures Edit(BoxEnv(), BoxSchema(), [REPLACED_BOX], Merge, EMPTY).1 == Ran([])
    ensures !AllSucceed(BoxEnv(), EMPTY, Compile(BoxSchema(), [REPLACED_BOX], Merge).ops)
  {
    var ops := [EditOp(Replace, BOX), EditOp(Delete, ITEM)];
    BoxCompiles();
    BoxIsPrevalidated();
    RollbackAnswers(BoxEnv(), BoxSchema(), [REPLACED_BOX], Merge, EMPTY);
    assert ops[0].op.Replace? && StrictlyBelow(ITEM, ops[0].path);
    assert ReplacedAbove(ops, ITEM);
    assert ops[1].op.Delete? && HiddenDelete(ops);
  }
}
