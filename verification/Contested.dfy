/** The same for a client that holds no lock, when other clients write its session's candidate and
    commits move the running tree while its request waits. */
module Contested {
  import opened Config
  import opened EditOps
  import opened EditTree
  import opened Interrupted
  import opened Lock
  import opened Moving
  import opened Nested
  import opened Session
  import opened Shape
  import opened Unfailing

  // --- The condition ---

  /** After a set at z: no create follows, and each delete is above z and above every merge since,
      any of which may or may not have set its path. */
  predicate SafeMoving(z: Path, rest: seq<EditOp>)
    decreases |rest|
  {
    rest == [] ||
      match rest[0].op
      case Create => false
      case Delete => StrictlyBelow(z, rest[0].path) && SafeMoving(z, rest[1..])
      case Merge => SafeMoving(z, rest[1..]) && SafeMoving(rest[0].path, rest[1..])
      case Replace => SafeMoving(rest[0].path, rest[1..])
      case _ => SafeMoving(z, rest[1..])
  }

  /** That, from the first operation on that may wait. */
  predicate Secure(c: Overlay, ops: seq<EditOp>)
    decreases |ops|
  {
    ops == [] ||
      if MayWait(c, ops[0]) then SafeMoving(ops[0].path, ops[1..]) else Secure(Least(c, ops[0]), ops[1..])
  }

  lemma {:induction false} SafeIsSecure(z: Path, c: Overlay, ops: seq<EditOp>)
    requires SafeMoving(z, ops)
    ensures Secure(c, ops)
    decreases |ops|
  {
    if ops != [] && !MayWait(c, ops[0]) {
      SafeIsSecure(z, Least(c, ops[0]), ops[1..]);
    }
  }

  // --- The condition is enough ---

  /** What is still to be deleted above z is the candidate's own. */
  ghost predicate Owned(c: Overlay, z: Path, rest: seq<EditOp>) {
    forall o :: o in rest && StrictlyBelow(z, o.path) ==> o.path in c.adds
  }

  /** Until the first wait the rest is robust on no more than the candidate has; afterwards what
      is to be deleted is the candidate's own. */
  ghost predicate Steering(c': Overlay, todo: seq<EditOp>) {
    || (CreatesAbsent(c', todo) && exists c :: AtLeast(c, c') && Robust(c, todo, false) && Secure(c, todo))
    || exists z :: SafeMoving(z, todo) && Owned(c', z, todo)
  }

  /** What comes of the next operation: it ends well, or it waits. */
  ghost predicate SteersOn(env: Env, c: Overlay, ops: seq<EditOp>)
    requires ops != []
  {
    && Goes(env, c, ops[0])
    && match Begin(ops[0], c, env.running, env.defaultNone)
       case Finished(c', ok) => ok && Steering(c', ops[1..])
       case Validating(_, p) => p == ops[0].path && SafeMoving(p, ops[1..])
  }

  lemma FirstSteersOn(env: Env, c: Overlay, c': Overlay, ops: seq<EditOp>)
    requires ops != [] && ListOk(env, ops) && !env.test.TestOnly? && CreatesAbsent(c', ops)
    requires AtLeast(c, c') && Robust(c, ops, false) && Secure(c, ops)
    ensures SteersOn(env, c', ops)
  {
    LeastFollows(env, c, c', ops);
    StillAbsent(env, c', ops);
    assert Robust(Least(c, ops[0]), ops[1..], false);
    if MayWait(c, ops[0]) {
      SafeIsSecure(ops[0].path, Least(c, ops[0]), ops[1..]);
    }
    assert Secure(Least(c, ops[0]), ops[1..]);
  }

  lemma LaterSteersOn(env: Env, c: Overlay, ops: seq<EditOp>, z: Path)
    requires ops != [] && ListOk(env, ops) && !env.test.TestOnly?
    requires SafeMoving(z, ops) && Owned(c, z, ops)
    ensures SteersOn(env, c, ops)
  {
    var o := ops[0];
    var c1 := DeletePath(c, o.path);
    TailOk(env, ops);
    assert Covers(o.path, o.path);
    ViewOfDelete(c, env.running, o.path);
    if !o.op.Replace? && !o.op.Create? {
      assert SafeMoving(z, ops[1..]) && Owned(c, z, ops[1..]);
      if Removes(o.op) {
        assert Owned(c1, z, ops[1..]);
      }
    }
  }

  lemma NextSteersOn(env: Env, c: Overlay, ops: seq<EditOp>)
    requires ops != [] && ListOk(env, ops) && !env.test.TestOnly? && Steering(c, ops)
    ensures SteersOn(env, c, ops)
  {
    if z :| SafeMoving(z, ops) && Owned(c, z, ops) {
      LaterSteersOn(env, c, ops, z);
    } else {
      var c0 :| AtLeast(c0, c) && Robust(c0, ops, false) && Secure(c0, ops);
      FirstSteersOn(env, c0, c, ops);
    }
  }

  ghost predicate SteeringState(env: Env, s: Sess, d: nat) {
    && UnderWay(env, s, d)
    && var f := EditFrame(s, d);
       if f.progress.Ready? then Steering(s.candidate, f.todo) else SafeMoving(f.todo[0].path, f.todo[1..])
  }

  lemma SteeringStep(env: Env, pid: Pid, s: Sess, running: Tree, go: bool, d: nat)
    requires !Stops(env) && !env.test.TestOnly?
    requires SteeringState(env, s, d) && |s.frames| == d + 1 && CanDo(s, Stepped(running, go))
    requires Fair(env, pid, s, Stepped(running, go), d)
    ensures var s' := Do(s, Stepped(running, go));
            && |s'.frames| >= d && (|s'.frames| > d ==> SteeringState(env, s', d))
            && AllOk(Attempt(s, Stepped(running, go), d))
  {
    var f := s.frames[0];
    var s' := Do(s, Stepped(running, go));
    assert EditFrame(s, d) == f;
    OwnActKeepsUnderWay(env, s, Stepped(running, go), d);
    if f.todo != [] {
      var env' := env.(running := running);
      assert ListOk(env', f.todo);
      NextSteersOn(env', s.candidate, f.todo);
    }
  }

  lemma SteeringResume(env: Env, pid: Pid, s: Sess, ok: bool, subst: bool, d: nat)
    requires !Stops(env) && !env.test.TestOnly?
    requires SteeringState(env, s, d) && |s.frames| == d + 1 && CanDo(s, Resumed(ok, subst))
    requires Fair(env, pid, s, Resumed(ok, subst), d)
    ensures var s' := Do(s, Resumed(ok, subst));
            && |s'.frames| >= d && (|s'.frames| > d ==> SteeringState(env, s', d))
            && AllOk(Attempt(s, Resumed(ok, subst), d))
  {
    var f := s.frames[0];
    var s' := Do(s, Resumed(ok, subst));
    assert EditFrame(s, d) == f;
    OwnActKeepsUnderWay(env, s, Resumed(ok, subst), d);
    TailOk(env, f.todo);
    assert f.todo[0] in f.todo;
    assert s'.candidate == SetPath(s.candidate, f.progress.path);
    assert Owned(s'.candidate, f.progress.path, f.todo[1..]);
  }

  lemma {:induction false} SteeringRun(env: Env, pid: Pid, s: Sess, acts: seq<Act>, d: nat)
    requires !Stops(env) && !env.test.TestOnly?
    requires SteeringState(env, s, d) && Completes(env, pid, s, acts, d)
    ensures AllOk(Result(env, pid, s, acts, d).tried)
    decreases |acts|
  {
    var a := acts[0];
    var s' := Do(s, a);
    if a.Served? || |s.frames| > d + 1 {
      ActAbove(env, s, a, d);
    } else {
      assert EditFrame(s, d) == s.frames[0];
      match a
      case Stepped(running, go) => SteeringStep(env, pid, s, running, go, d);
      case Resumed(ok, subst) => SteeringResume(env, pid, s, ok, subst, d);
    }
    if |s'.frames| > d {
      SteeringRun(env, pid, s', acts[1..], d);
    } else {
      assert acts[1..] == [];
    }
    AllOkConcat(Attempt(s, a, d), Result(env, pid, s', acts[1..], d).tried);
  }

  // --- The condition is needed ---

  /** The candidate hides nothing that the list is about, and has of it only what is above z. */
  ghost predicate Bare(c: Overlay, z: Path, todo: seq<EditOp>) {
    forall o :: o in todo ==>
      && !Masked(o.path, c.dels) && (o.path in c.adds ==> StrictlyBelow(z, o.path))
      && (StrictlyBelow(z, o.path) ==> Removes(o.op))
  }

  /** The request is at work on its own, in a session nobody has locked. */
  ghost predicate Open(env: Env, s: Sess, d: nat) {
    AtWork(env, s, d) && s.lpid == FREE && Sound(s.candidate) && ListOk(env, s.frames[0].todo)
  }

  /** What the request does with a running tree of our choice. */
  function ActWith(env: Env, s: Sess, d: nat, t: Tree): Act
    requires AtWork(env, s, d)
  {
    OwnAct(env.(running := t), s, d)
  }

  lemma ActWithFollows(env: Env, pid: Pid, s: Sess, d: nat, t: Tree)
    requires AtWork(env, s, d) && s.frames[0].progress.Ready?
    ensures var a := ActWith(env, s, d, t);
            && CanDo(s, a) && Fair(env, pid, s, a, d) && a == Stepped(t, a.go)
            && Do(s, a).lpid == s.lpid && (|Do(s, a).frames| == d || AtWork(env, Do(s, a), d))
  {
    OwnActFollows(env.(running := t), pid, s, d);
  }

  /** A running tree with which the operation at the head fails, or leaves the rest to fail. */
  function Worst(z: Path, todo: seq<EditOp>): Tree
    requires todo != []
  {
    var o := todo[0];
    if o.op.Create? || (o.op.Delete? && StrictlyBelow(z, o.path)) || (o.op.Merge? && !SafeMoving(z, todo[1..]))
    then Prefixes(o.path) else {}
  }

  /** A failure; or a candidate as bare as before, with the rest not safe; or a wait to set a path
      after which the rest is not safe. */
  ghost predicate TurnsOutBadly(env: Env, c: Overlay, z: Path, todo: seq<EditOp>)
    requires todo != []
  {
    Goes(env, c, todo[0]) ==>
      match Begin(todo[0], c, env.running, env.defaultNone)
      case Finished(c', ok) => ok ==> Bare(c', z, todo[1..]) && !SafeMoving(z, todo[1..]) && Sound(c')
      case Validating(_, p) => p == todo[0].path && !Removes(todo[0].op) && !SafeMoving(p, todo[1..])
  }

  lemma WorstComes(env: Env, c: Overlay, z: Path, todo: seq<EditOp>)
    requires ListOk(env, todo) && todo != [] && !SafeMoving(z, todo) && Bare(c, z, todo)
    requires env.running == Worst(z, todo) && Sound(c)
    ensures TurnsOutBadly(env, c, z, todo)
  {
    var o := todo[0];
    TailOk(env, todo);
    EditsKeepSound(c, o.path);
    assert Covers(o.path, o.path);
    if Removes(o.op) {
      var c1 := DeletePath(c, o.path);
      forall q | q in todo[1..] ensures !Masked(q.path, c1.dels) {
        MaskedAfterDelete(c, o.path, q.path);
      }
      assert Bare(c1, z, todo[1..]);
    }
    assert Bare(c, z, todo[1..]);
  }

  /** While the request waits to set its path another client discards the candidate. */
  lemma FailsSetting(env: Env, pid: Pid, s: Sess, d: nat, other: Pid) returns (acts: seq<Act>)
    requires TriesAll(env) && Open(env, s, d) && Client(other) && other != pid
    requires var f := s.frames[0];
             && f.progress.Setting? && f.progress.path == f.todo[0].path && !Removes(f.todo[0].op)
             && !SafeMoving(f.todo[0].path, f.todo[1..])
    ensures Completes(env, pid, s, acts, d) && AllClosed(acts, true) && !AllOk(Result(env, pid, s, acts, d).tried)
    decreases |s.frames[0].todo|, 0
  {
    var f := s.frames[0];
    var z := f.todo[0].path;
    TailOk(env, f.todo);
    assert f.todo[0] in f.todo;
    var a, b := Served(DiscardReq(other), {}, 0), Resumed(true, false);
    var s1 := Do(s, a);
    assert s1 == s.(candidate := EMPTY);
    var s2 := Do(s1, b);
    EditsKeepSound(EMPTY, z);
    BareAfterDiscard(env, f.todo);
    var more := FailsBare(env, pid, s2, d, other, z);
    FailsAfter(env, pid, s1, b, more, d, true);
    FailsAfter(env, pid, s, a, [b] + more, d, true);
    acts := [a] + ([b] + more);
  }

  lemma BareAfterDiscard(env: Env, todo: seq<EditOp>)
    requires ListOk(env, todo) && todo != [] && !Removes(todo[0].op)
    ensures Bare(SetPath(EMPTY, todo[0].path), todo[0].path, todo[1..])
  {
    TailOk(env, todo);
    forall o | o in todo[1..]
      ensures o.path in SetPath(EMPTY, todo[0].path).adds ==> StrictlyBelow(todo[0].path, o.path)
    {
      assert o.path != todo[0].path;
    }
  }

  lemma FailsBare(env: Env, pid: Pid, s: Sess, d: nat, other: Pid, z: Path) returns (acts: seq<Act>)
    requires TriesAll(env) && Open(env, s, d) && Client(other) && other != pid && s.frames[0].progress.Ready?
    requires !SafeMoving(z, s.frames[0].todo) && Bare(s.candidate, z, s.frames[0].todo)
    ensures Completes(env, pid, s, acts, d) && AllClosed(acts, true) && !AllOk(Result(env, pid, s, acts, d).tried)
    decreases |s.frames[0].todo|, 1
  {
    var todo := s.frames[0].todo;
    var t := Worst(z, todo);
    var env' := env.(running := t);
    var a := ActWith(env, s, d, t);
    var s' := Do(s, a);
    ActWithFollows(env, pid, s, d, t);
    assert ListOk(env', todo);
    WorstComes(env', s.candidate, z, todo);
    TailOk(env, todo);
    DoKeepsSound(s, a);
    var more: seq<Act>;
    if !AllOk(Attempt(s, a, d)) {
      more := Finishes(env, pid, s', d);
    } else {
      assert Attempt(s, a, d) != [] ==> Attempt(s, a, d)[0].ok;
      if Begin(todo[0], s.candidate, t, env.defaultNone).Finished? {
        more := FailsBare(env, pid, s', d, other, z);
      } else {
        more := FailsSetting(env, pid, s', d, other);
      }
    }
    FailsAfter(env, pid, s, a, more, d, true);
    acts := [a] + more;
  }

  /** From the start, until the first operation that may wait. */
  lemma {:induction false} InsecureFails(env: Env, pid: Pid, s: Sess, d: nat, other: Pid) returns (acts: seq<Act>)
    requires TriesAll(env) && Poised(env, s, d) && s.lpid == FREE && Client(other) && other != pid
    requires !Secure(s.candidate, s.frames[0].todo)
    ensures Completes(env, pid, s, acts, d) && AllClosed(acts, true) && !AllOk(Result(env, pid, s, acts, d).tried)
    decreases |s.frames[0].todo|
  {
    var todo := s.frames[0].todo;
    TailOk(env, todo);
    if !RobustOp(s.candidate, todo[0]) {
      acts := FailsHere(env, pid, s, d, true);
    } else if MayWait(s.candidate, todo[0]) {
      acts := WaitsAndFails(env, pid, s, d, other);
    } else {
      var first, s' := LeastStep(env, pid, s, d, true);
      LeastKeepsSound(env, s.candidate, todo);
      var rest := InsecureFails(env, pid, s', d, other);
      acts := first + rest;
    }
  }

  lemma WaitsAndFails(env: Env, pid: Pid, s: Sess, d: nat, other: Pid) returns (acts: seq<Act>)
    requires TriesAll(env) && Poised(env, s, d) && s.lpid == FREE && Client(other) && other != pid
    requires var todo := s.frames[0].todo;
             && todo != [] && MayWait(s.candidate, todo[0]) && RobustOp(s.candidate, todo[0])
             && !SafeMoving(todo[0].path, todo[1..])
    ensures Completes(env, pid, s, acts, d) && AllClosed(acts, true) && !AllOk(Result(env, pid, s, acts, d).tried)
  {
    var a, s1 := ComesToWait(env, pid, s, d);
    DoKeepsSound(s, a);
    var more := FailsSetting(env, pid, s1, d, other);
    FailsAfter(env, pid, s, a, more, d, true);
    acts := [a] + more;
  }

  // --- Exactly ---

  /** In a session that nobody has locked no operation of a prevalidated request fails, over every
      run and wherever the running tree moves, if and only if the request is robust and, from
      the first operation on that may wait, no create follows and each delete is above whatever
      may have been set last. */
  lemma FreeNeverFailsMoving(env: Env, pid: Pid, s: Sess, ops: seq<EditOp>)
    requires TriesAll(env) && Client(pid) && Valid(s) && Receptive(s) && s.lpid == FREE && Sound(s.candidate)
    requires ListOk(env, ops) && Prevalidated(env, s.candidate, ops)
    ensures NeverFailsMoving(env, pid, s, ops, true) <==> Robust(s.candidate, ops, false) && Secure(s.candidate, ops)
  {
    var s1 := Started(env, s, ops);
    var d := |s.frames|;
    TestsMeanAbsent(env, s.candidate, ops);
    if !Robust(s.candidate, ops, false) {
      var acts := LeaningFails(env, pid, s1, d, false, if pid == 1 then 2 else 1);
    } else if !Secure(s.candidate, ops) {
      var acts := InsecureFails(env, pid, s1, d, if pid == 1 then 2 else 1);
    } else {
      StartIsUnderWay(env, s, ops);
      assert AtLeast(s.candidate, s.candidate);
      assert Steering(s.candidate, ops);
      forall acts | Completes(env, pid, s1, acts, d) && AllClosed(acts, true)
        ensures AllOk(Result(env, pid, s1, acts, d).tried)
      {
        SteeringRun(env, pid, s1, acts, d);
      }
    }
  }
}
