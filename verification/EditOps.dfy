/** The operations an edit-config request is flattened to, what each does to the candidate,
    and how a list of them runs under a test-option and an error-option (section 7.2 of
    RFC 6241). Every access is allowed. */
module EditOps {
  import opened Config

  datatype Operation = NotSet | Merge | Replace | Create | Delete | Remove

  datatype TestOption = TestNotSet | TestThenSet | SetOnly | TestOnly

  datatype ErrorOption = ErrorNotSet | StopOnError | ContinueOnError | RollbackOnError

  datatype EditOp = EditOp(op: Operation, path: Path)

  /** What an operation is run against: the running tree, the paths the schema knows (all
      that Test looks at), the paths full validation accepts (what a set demands), and the
      request's options. */
  datatype Env = Env(
    running: Tree,
    known: Path -> bool,
    settable: Path -> bool,
    defaultNone: bool,
    test: TestOption,
    error: ErrorOption)
  {
    predicate Has(c: Overlay, p: Path) {
      Exists(c, running, p)
    }
  }

  /** The candidate an operation leaves, and whether it reported success. */
  datatype Done = Done(candidate: Overlay, ok: bool)

  predicate Removes(op: Operation) {
    op.Delete? || op.Remove?
  }

  predicate Test(env: Env, c: Overlay, o: EditOp) {
    && (o.op.Create? ==> !env.Has(c, o.path))
    && (o.op.Delete? ==> env.Has(c, o.path))
    && env.known(o.path)
  }

  function MergePath(env: Env, c: Overlay, p: Path): Done {
    if env.Has(c, p) then Done(c, true)
    else if env.settable(p) then Done(SetPath(c, p), true)
    else Done(c, false)
  }

  function RemovePath(env: Env, c: Overlay, p: Path): Overlay {
    if env.Has(c, p) then DeletePath(c, p) else c
  }

  function Set(env: Env, c: Overlay, o: EditOp): Done {
    match o.op
    case Merge => MergePath(env, c, o.path)
    case Replace => MergePath(env, RemovePath(env, c, o.path), o.path)
    case Create => if env.Has(c, o.path) then Done(c, false) else MergePath(env, c, o.path)
    case Delete => if env.Has(c, o.path) then Done(DeletePath(c, o.path), true) else Done(c, false)
    case Remove => Done(RemovePath(env, c, o.path), true)
    case NotSet => Done(c, env.defaultNone)
  }

  function Perform(env: Env, c: Overlay, o: EditOp): Done {
    match env.test
    case SetOnly => Set(env, c, o)
    case TestOnly => Done(c, Test(env, c, o))
    case _ => if Test(env, c, o) then Set(env, c, o) else Done(c, false)
  }

  /** The candidate after a whole list, and the failures the request reports. */
  datatype Outcome = Outcome(candidate: Overlay, reported: seq<EditOp>)

  /** The loop over the recorded operations; a rollback-on-error run has no case for a
      failure, so it goes on and reports none. */
  function PerformAll(env: Env, c: Overlay, ops: seq<EditOp>): Outcome
    decreases |ops|
  {
    if ops == [] then Outcome(c, [])
    else
      var d := Perform(env, c, ops[0]);
      if d.ok then PerformAll(env, d.candidate, ops[1..])
      else
        match env.error
        case ContinueOnError =>
          var rest := PerformAll(env, d.candidate, ops[1..]);
          Outcome(rest.candidate, [ops[0]] + rest.reported)
        case RollbackOnError => PerformAll(env, d.candidate, ops[1..])
        case _ => Outcome(d.candidate, [ops[0]])
  }

  /** The candidate when every operation of the list has been attempted, in order. */
  function After(env: Env, c: Overlay, ops: seq<EditOp>): Overlay {
    if ops == [] then c
    else Perform(env, After(env, c, ops[..|ops| - 1]), ops[|ops| - 1]).candidate
  }

  /** Whether operation i succeeds when every earlier one has been attempted. */
  predicate Succeeds(env: Env, c: Overlay, ops: seq<EditOp>, i: nat)
    requires i < |ops|
  {
    Perform(env, After(env, c, ops[..i]), ops[i]).ok
  }

  ghost predicate AllSucceed(env: Env, c: Overlay, ops: seq<EditOp>) {
    forall i | 0 <= i < |ops| :: Succeeds(env, c, ops, i)
  }

  /** The operation alone if it fails. */
  function Failure(env: Env, c: Overlay, ops: seq<EditOp>, i: nat): seq<EditOp>
    requires i < |ops|
  {
    if Succeeds(env, c, ops, i) then [] else [ops[i]]
  }

  /** The operations that fail when every one is attempted, in order. */
  function Failures(env: Env, c: Overlay, ops: seq<EditOp>): seq<EditOp> {
    if ops == [] then []
    else
      var n := |ops| - 1;
      Failures(env, c, ops[..n]) + Failure(env, c, ops, n)
  }

  lemma {:induction false} AfterHead(env: Env, c: Overlay, ops: seq<EditOp>)
    requires ops != []
    ensures After(env, c, ops) == After(env, Perform(env, c, ops[0]).candidate, ops[1..])
  {
    var n := |ops| - 1;
    if n == 0 {
      assert ops[..n] == [] && ops[1..] == [];
      assert After(env, c, ops[..n]) == c;
    } else {
      AfterHead(env, c, ops[..n]);
      assert ops[..n][1..] == ops[1..][..n - 1];
      assert ops[..n][0] == ops[0];
    }
  }

  lemma SucceedsTail(env: Env, c: Overlay, ops: seq<EditOp>, i: nat)
    requires 0 < i < |ops|
    ensures Succeeds(env, c, ops, i) == Succeeds(env, Perform(env, c, ops[0]).candidate, ops[1..], i - 1)
  {
    AfterHead(env, c, ops[..i]);
    assert ops[..i][1..] == ops[1..][..i - 1];
  }

  lemma SucceedsPrefix(env: Env, c: Overlay, ops: seq<EditOp>, k: nat, i: nat)
    requires i < k <= |ops|
    ensures Succeeds(env, c, ops[..k], i) == Succeeds(env, c, ops, i)
  {
    assert ops[..k][..i] == ops[..i];
  }

  lemma {:induction false} FailuresHead(env: Env, c: Overlay, ops: seq<EditOp>)
    requires ops != []
    ensures Failures(env, c, ops)
         == Failure(env, c, ops, 0) + Failures(env, Perform(env, c, ops[0]).candidate, ops[1..])
  {
    var n := |ops| - 1;
    var c' := Perform(env, c, ops[0]).candidate;
    if n == 0 {
      assert ops[..n] == [] && ops[1..] == [];
    } else {
      var rest := ops[1..];
      FailuresHead(env, c, ops[..n]);
      SucceedsPrefix(env, c, ops, n, 0);
      SucceedsTail(env, c, ops, n);
      assert ops[..n][1..] == rest[..n - 1] && ops[..n][0] == ops[0];
      var first, middle, last := Failure(env, c, ops, 0), Failures(env, c', rest[..n - 1]), Failure(env, c, ops, n);
      assert Failures(env, c, ops) == first + middle + last;
      assert Failures(env, c', rest) == middle + last;
      assert first + middle + last == first + (middle + last);
    }
  }

  /** continue-on-error attempts every operation and reports exactly the failures, in order;
      rollback-on-error attempts every operation and reports none. */
  lemma {:induction false} NeverStopping(env: Env, c: Overlay, ops: seq<EditOp>)
    requires env.error.ContinueOnError? || env.error.RollbackOnError?
    ensures PerformAll(env, c, ops)
         == Outcome(After(env, c, ops),
                    if env.error.ContinueOnError? then Failures(env, c, ops) else [])
    decreases |ops|
  {
    if ops != [] {
      AfterHead(env, c, ops);
      FailuresHead(env, c, ops);
      NeverStopping(env, Perform(env, c, ops[0]).candidate, ops[1..]);
    }
  }

  /** stop-on-error: the longest successful prefix runs, then at most one failing operation,
      which is the one reported. */
  lemma {:induction false} StopsAtFirstFailure(env: Env, c: Overlay, ops: seq<EditOp>) returns (k: nat)
    requires env.error.StopOnError? || env.error.ErrorNotSet?
    ensures k <= |ops|
    ensures AllSucceed(env, c, ops[..k])
    ensures k == |ops| ==> PerformAll(env, c, ops) == Outcome(After(env, c, ops), [])
    ensures k < |ops| ==>
              && !Succeeds(env, c, ops, k)
              && PerformAll(env, c, ops)
                 == Outcome(Perform(env, After(env, c, ops[..k]), ops[k]).candidate, [ops[k]])
    decreases |ops|
  {
    if ops == [] {
      k := 0;
    } else if !Perform(env, c, ops[0]).ok {
      k := 0;
      assert ops[..0] == [];
    } else {
      var c' := Perform(env, c, ops[0]).candidate;
      var k' := StopsAtFirstFailure(env, c', ops[1..]);
      k := k' + 1;
      forall i | 0 <= i < k ensures Succeeds(env, c, ops[..k], i) {
        SucceedsPrefix(env, c, ops, k, i);
        if i == 0 {
          assert ops[..0] == [];
        } else {
          SucceedsTail(env, c, ops, i);
          SucceedsPrefix(env, c', ops[1..], k', i - 1);
        }
      }
      AfterHead(env, c, ops);
      if k < |ops| {
        AfterHead(env, c, ops[..k]);
        assert ops[..k][1..] == ops[1..][..k'];
        SucceedsTail(env, c, ops, k);
      }
    }
  }

  /** A failing operation leaves the candidate as it was, with one exception: a replace
      deletes the old node before its merge is refused. */
  lemma FailureKeepsCandidate(env: Env, c: Overlay, o: EditOp)
    requires !Perform(env, c, o).ok
    ensures Perform(env, c, o).candidate == c
       <==> !(o.op.Replace? && env.Has(c, o.path) && !env.test.TestOnly?
              && (env.test.SetOnly? || env.known(o.path)))
  {
    if o.op.Replace? && env.Has(c, o.path) {
      ViewOfDelete(c, env.running, o.path);
      assert Covers(o.path, o.path);
    }
  }

  /** What an operation needs of the candidate to pass its test. */
  ghost predicate Testable(env: Env, c: Overlay, o: EditOp) {
    && env.known(o.path)
    && (o.op.Create? ==> o.path !in View(c, env.running)) && (o.op.Delete? ==> o.path in View(c, env.running))
  }

  /** And to be carried out. */
  ghost predicate Feasible(env: Env, c: Overlay, o: EditOp) {
    && (o.op.Create? ==> o.path !in View(c, env.running)) && (o.op.Delete? ==> o.path in View(c, env.running))
    && (o.op.Create? || o.op.Replace? || (o.op.Merge? && o.path !in View(c, env.running)) ==> env.settable(o.path))
    && (o.op.NotSet? ==> env.defaultNone)
  }

  /** Exactly when an operation succeeds: it is tested first unless the test-option is set-only, and
      carried out unless it is test-only. */
  lemma OperationSucceeds(env: Env, c: Overlay, o: EditOp)
    ensures Perform(env, c, o).ok
       <==> (env.test.SetOnly? || Testable(env, c, o)) && (env.test.TestOnly? || Feasible(env, c, o))
  {
    ViewOfDelete(c, env.running, o.path);
    assert Covers(o.path, o.path);
  }

  /** test-only changes nothing, whatever the list. */
  lemma {:induction false} TestOnlyKeepsCandidate(env: Env, c: Overlay, ops: seq<EditOp>)
    requires env.test.TestOnly?
    ensures PerformAll(env, c, ops).candidate == c
  {
    if ops != [] {
      TestOnlyKeepsCandidate(env, c, ops[1..]);
    }
  }

  lemma {:induction false} AfterKeepsClosed(env: Env, c: Overlay, ops: seq<EditOp>)
    requires Closed(c)
    ensures Closed(After(env, c, ops))
  {
    if ops != [] {
      var n := |ops| - 1;
      AfterKeepsClosed(env, c, ops[..n]);
      var d := After(env, c, ops[..n]);
      EditsKeepClosed(d, ops[n].path);
      EditsKeepClosed(RemovePath(env, d, ops[n].path), ops[n].path);
    }
  }

  /** What a successful operation says about the existence of p: it is there, it is gone,
      or it is as before. */
  function Touch(o: EditOp, p: Path): Option<bool> {
    match o.op
    case Delete => if Covers(o.path, p) then Some(false) else None
    case Remove => if Covers(o.path, p) then Some(false) else None
    case NotSet => None
    case Replace =>
      if Covers(p, o.path) then Some(true) else if Covers(o.path, p) then Some(false) else None
    case _ => if Covers(p, o.path) then Some(true) else None
  }

  /** The existence of p after a list, read off the list alone: the last operation that
      touches p decides. */
  function LastTouch(before: bool, ops: seq<EditOp>, p: Path): bool {
    if ops == [] then before
    else
      var n := |ops| - 1;
      match Touch(ops[n], p)
      case Some(there) => there
      case None => LastTouch(before, ops[..n], p)
  }

  lemma ReplaceTouches(env: Env, c: Overlay, o: Path, p: Path)
    requires Closed(c) && PrefixClosed(env.running) && p != [] && o != []
    requires MergePath(env, RemovePath(env, c, o), o).ok
    ensures env.Has(MergePath(env, RemovePath(env, c, o), o).candidate, p)
         == (if Covers(p, o) then true else if Covers(o, p) then false else env.Has(c, p))
  {
    ViewIsClosed(c, env.running);
    ViewOfDelete(c, env.running, o);
    ViewOfSet(c, env.running, o);
    ViewOfSet(DeletePath(c, o), env.running, o);
    assert Covers(o, o);
    assert !env.Has(c, o) && Covers(o, p) ==> !env.Has(c, p);
  }

  lemma SetTouches(env: Env, c: Overlay, o: EditOp, p: Path)
    requires Closed(c) && PrefixClosed(env.running) && p != [] && o.path != []
    requires Set(env, c, o).ok
    ensures env.Has(Set(env, c, o).candidate, p)
         == (match Touch(o, p) case Some(there) => there case None => env.Has(c, p))
  {
    if o.op.Replace? {
      ReplaceTouches(env, c, o.path, p);
    } else {
      ViewIsClosed(c, env.running);
      ViewOfDelete(c, env.running, o.path);
      ViewOfSet(c, env.running, o.path);
      assert !env.Has(c, o.path) && Covers(o.path, p) ==> !env.Has(c, p);
    }
  }

  /** Running a list of operations that all succeed agrees with reading the list. */
  lemma {:induction false} RunningAgreesWithReading(env: Env, c: Overlay, ops: seq<EditOp>, p: Path)
    requires Closed(c) && PrefixClosed(env.running) && p != []
    requires !env.test.TestOnly? && NonRoot(ops) && AllSucceed(env, c, ops)
    ensures env.Has(After(env, c, ops), p) == LastTouch(env.Has(c, p), ops, p)
  {
    if ops != [] {
      var n := |ops| - 1;
      assert AllSucceed(env, c, ops[..n]) by {
        forall i | 0 <= i < n ensures Succeeds(env, c, ops[..n], i) {
          SucceedsPrefix(env, c, ops, n, i);
        }
      }
      RunningAgreesWithReading(env, c, ops[..n], p);
      AfterKeepsClosed(env, c, ops[..n]);
      assert Succeeds(env, c, ops, n);
      SetTouches(env, After(env, c, ops[..n]), ops[n], p);
    }
  }

  ghost predicate Prevalidated(env: Env, c: Overlay, ops: seq<EditOp>) {
    forall i | 0 <= i < |ops| :: Test(env, c, ops[i])
  }

  /** Operation i cannot fail once the list has been prevalidated: nothing before it removed
      what it deletes or made what it creates, and a path it has to set is settable. Only
      the last clause of a merge looks at the candidate. */
  predicate Harmless(env: Env, c: Overlay, ops: seq<EditOp>, i: nat)
    requires i < |ops|
  {
    var p := ops[i].path;
    match ops[i].op
    case Merge => env.settable(p) || LastTouch(env.Has(c, p), ops[..i], p)
    case Replace => env.settable(p)
    case Create => !LastTouch(false, ops[..i], p) && env.settable(p)
    case Delete => LastTouch(true, ops[..i], p)
    case Remove => true
    case NotSet => env.defaultNone
  }

  ghost predicate AllHarmless(env: Env, c: Overlay, ops: seq<EditOp>) {
    forall i | 0 <= i < |ops| :: Harmless(env, c, ops, i)
  }

  ghost predicate NonRoot(ops: seq<EditOp>) {
    forall i | 0 <= i < |ops| :: ops[i].path != []
  }

  lemma SucceedsIffHarmless(env: Env, c: Overlay, ops: seq<EditOp>, i: nat)
    requires Closed(c) && PrefixClosed(env.running) && NonRoot(ops)
    requires !env.test.TestOnly? && Prevalidated(env, c, ops)
    requires i < |ops| && AllSucceed(env, c, ops[..i])
    ensures Succeeds(env, c, ops, i) == Harmless(env, c, ops, i)
  {
    var p := ops[i].path;
    var d := After(env, c, ops[..i]);
    RunningAgreesWithReading(env, c, ops[..i], p);
    assert Test(env, c, ops[i]);
    ViewOfDelete(d, env.running, p);
    assert Covers(p, p);
  }

  /** The exact reach of "prevalidating is the same result as rolling back": after
      prevalidation, every operation succeeds in order if and only if every one is harmless. */
  lemma {:induction false} PrevalidationIsExact(env: Env, c: Overlay, ops: seq<EditOp>)
    requires Closed(c) && PrefixClosed(env.running) && NonRoot(ops)
    requires !env.test.TestOnly? && Prevalidated(env, c, ops)
    ensures AllSucceed(env, c, ops) <==> AllHarmless(env, c, ops)
  {
    if AllSucceed(env, c, ops) {
      forall i | 0 <= i < |ops| ensures Harmless(env, c, ops, i) {
        assert AllSucceed(env, c, ops[..i]) by {
          forall j | 0 <= j < i ensures Succeeds(env, c, ops[..i], j) {
            SucceedsPrefix(env, c, ops, i, j);
          }
        }
        SucceedsIffHarmless(env, c, ops, i);
        assert Succeeds(env, c, ops, i);
      }
    }
    if AllHarmless(env, c, ops) {
      HarmlessSucceeds(env, c, ops, |ops|);
      assert ops[..|ops|] == ops;
    }
  }

  lemma {:induction false} HarmlessSucceeds(env: Env, c: Overlay, ops: seq<EditOp>, k: nat)
    requires Closed(c) && PrefixClosed(env.running) && NonRoot(ops)
    requires !env.test.TestOnly? && Prevalidated(env, c, ops)
    requires k <= |ops| && AllHarmless(env, c, ops)
    ensures AllSucceed(env, c, ops[..k])
  {
    if k > 0 {
      HarmlessSucceeds(env, c, ops, k - 1);
      assert Harmless(env, c, ops, k - 1);
      SucceedsIffHarmless(env, c, ops, k - 1);
      forall i | 0 <= i < k ensures Succeeds(env, c, ops[..k], i) {
        SucceedsPrefix(env, c, ops, k, i);
        if i < k - 1 {
          SucceedsPrefix(env, c, ops, k - 1, i);
        }
      }
    }
  }
}
