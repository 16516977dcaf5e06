/** An edit-config whose waits let other requests in: when its list of operations runs as it
    would alone. */
module Interrupted {
  import opened Config
  import opened EditOps
  import opened Lock
  import opened Nested
  import opened Session
  import EditTree
  import Rollback

  // --- A list of operations that nothing interrupts ---

  /** An operation that was attempted, and whether it succeeded. */
  datatype Tried = Tried(o: EditOp, ok: bool)

  /** What a list leaves, and what was attempted on the way. */
  datatype Lone = Lone(candidate: Overlay, tried: seq<Tried>)

  predicate Stops(env: Env) {
    env.error.StopOnError? || env.error.ErrorNotSet?
  }

  function OptionsOf(env: Env): Options {
    Options(Stops(env), env.defaultNone, env.test.TestOnly?)
  }

  function Before(t: Tried, r: Lone): Lone {
    Lone(r.candidate, [t] + r.tried)
  }

  function Alone(env: Env, c: Overlay, ops: seq<EditOp>): Lone
    decreases |ops|, 0
  {
    if ops == [] then Lone(c, []) else GoOn(env, Perform(env, c, ops[0]), ops)
  }

  /** The rest of a list whose first operation has come to d. */
  function GoOn(env: Env, d: Done, ops: seq<EditOp>): Lone
    requires ops != []
    decreases |ops| - 1, 1
  {
    Before(Tried(ops[0], d.ok),
           if d.ok || !Stops(env) then Alone(env, d.candidate, ops[1..]) else Lone(d.candidate, []))
  }

  lemma AloneUnfolds(env: Env, c: Overlay, ops: seq<EditOp>)
    requires ops != []
    ensures var d := Perform(env, c, ops[0]);
            var rest := if d.ok || !Stops(env) then Alone(env, d.candidate, ops[1..]) else Lone(d.candidate, []);
            Alone(env, c, ops) == Lone(rest.candidate, [Tried(ops[0], d.ok)] + rest.tried)
  {
    assert Alone(env, c, ops) == GoOn(env, Perform(env, c, ops[0]), ops);
  }

  function Failed(tried: seq<Tried>): seq<EditOp> {
    if tried == [] then []
    else (if tried[0].ok then [] else [tried[0].o]) + Failed(tried[1..])
  }

  /** That is the loop of the source: the same candidate, and the failures it reports. */
  lemma {:induction false} AloneIsPerformAll(env: Env, c: Overlay, ops: seq<EditOp>)
    ensures var r := Alone(env, c, ops);
            PerformAll(env, c, ops) == Outcome(r.candidate, if env.error.RollbackOnError? then [] else Failed(r.tried))
    decreases |ops|
  {
    if ops != [] {
      var d := Perform(env, c, ops[0]);
      AloneIsPerformAll(env, d.candidate, ops[1..]);
      AloneUnfolds(env, c, ops);
      var r := Alone(env, c, ops);
      assert r.tried[0] == Tried(ops[0], d.ok);
      assert r.tried[1..] == if d.ok || !Stops(env) then Alone(env, d.candidate, ops[1..]).tried else [];
    }
  }

  /** Without stopping, every operation is attempted, and succeeds when Succeeds says so. */
  lemma {:induction false} AloneTriesAll(env: Env, c: Overlay, ops: seq<EditOp>)
    requires !Stops(env)
    ensures var tried := Alone(env, c, ops).tried;
            |tried| == |ops| && forall i :: 0 <= i < |ops| ==> tried[i] == Tried(ops[i], Succeeds(env, c, ops, i))
    decreases |ops|
  {
    if ops != [] {
      var c' := Perform(env, c, ops[0]).candidate;
      AloneTriesAll(env, c', ops[1..]);
      AloneUnfolds(env, c, ops);
      forall i | 0 <= i < |ops|
        ensures Alone(env, c, ops).tried[i] == Tried(ops[i], Succeeds(env, c, ops, i))
      {
        if i == 0 {
          assert ops[..0] == [];
        } else {
          SucceedsTail(env, c, ops, i);
          assert Alone(env, c, ops).tried[i] == Alone(env, c', ops[1..]).tried[i - 1];
        }
      }
    }
  }

  /** Whether the test of an operation lets it go on. */
  predicate Goes(env: Env, c: Overlay, o: EditOp) {
    env.test.SetOnly? || Test(env, c, o)
  }

  /** Whether an operation waits for a path to be validated. */
  predicate NeedsWait(env: Env, c: Overlay, o: EditOp) {
    Goes(env, c, o) && !env.test.TestOnly? && Begin(o, c, env.running, env.defaultNone).Validating?
  }

  /** Whether a list comes to wait at all. */
  predicate Waits(env: Env, c: Overlay, ops: seq<EditOp>)
    decreases |ops|
  {
    ops != [] &&
      var d := Perform(env, c, ops[0]);
      NeedsWait(env, c, ops[0]) || ((d.ok || !Stops(env)) && Waits(env, d.candidate, ops[1..]))
  }

  // --- The same list as a suspended request ---

  predicate InEdit(s: Sess, d: nat) {
    |s.frames| == d + 1 && s.frames[0].Edit?
  }

  /** What the request finds is true: tests see the candidate and the running tree of the moment,
      validations answer what the environment says, and nothing is substituted. What is served
      inside it comes from other clients, or only reads. */
  predicate Fair(env: Env, pid: Pid, s: Sess, a: Act, d: nat)
    requires CanDo(s, a)
  {
    match a
    case Served(req, _, _) => req.ReadReq? || req.pid != pid
    case Stepped(running, go) =>
      InEdit(s, d) && s.frames[0].todo != [] ==>
        go == Goes(env.(running := running), s.candidate, s.frames[0].todo[0])
    case Resumed(ok, subst) =>
      && (InEdit(s, d) && s.frames[0].progress.Setting? ==> !subst && ok == env.settable(s.frames[0].progress.path))
      && (s.frames[0].SetWait? ==> ok == env.settable(s.frames[0].path))
    case Delivered(_) => true
  }

  /** The running tree is the one of the environment. */
  predicate Steady(env: Env, a: Act) {
    a.Served? || a.Stepped? ==> a.running == env.running
  }

  /** Not a load or copy-config, which deletes the candidate whoever holds the lock. */
  predicate Gentle(a: Act) {
    a.Served? && a.req.LoadReq? ==> !a.req.clears
  }

  predicate AllSteady(env: Env, acts: seq<Act>, loads: bool) {
    forall a :: a in acts ==> Steady(env, a) && (loads || Gentle(a))
  }

  /** The run takes the request, which stands on d frames, to its end. */
  predicate Completes(env: Env, pid: Pid, s: Sess, acts: seq<Act>, d: nat)
    decreases |acts|
  {
    if acts == [] then |s.frames| == d
    else
      && |s.frames| > d && CanDo(s, acts[0]) && Fair(env, pid, s, acts[0], d)
      && Completes(env, pid, Do(s, acts[0]), acts[1..], d)
  }

  /** What one act attempts for the request, if it brings an operation to its end. */
  function Attempt(s: Sess, a: Act, d: nat): seq<Tried>
    requires CanDo(s, a)
  {
    if !InEdit(s, d) || s.frames[0].todo == [] then []
    else
      var f := s.frames[0];
      match a
      case Stepped(running, go) =>
        if !go || f.options.testOnly then [Tried(f.todo[0], go)]
        else
          (match Begin(f.todo[0], s.candidate, running, f.options.defaultNone)
           case Finished(_, ok) => [Tried(f.todo[0], ok)]
           case Validating(_, _) => [])
      case Resumed(ok, subst) => if f.progress.Setting? && ok && subst then [] else [Tried(f.todo[0], ok)]
      case _ => []
  }

  /** What the request leaves, and what it has attempted. */
  function Result(env: Env, pid: Pid, s: Sess, acts: seq<Act>, d: nat): Lone
    requires Completes(env, pid, s, acts, d)
    decreases |acts|
  {
    if acts == [] then Lone(s.candidate, [])
    else
      var r := Result(env, pid, Do(s, acts[0]), acts[1..], d);
      Lone(r.candidate, Attempt(s, acts[0], d) + r.tried)
  }

  // --- One act of the request itself ---

  /** The request is on top, at one of its operations. */
  predicate AtWork(env: Env, s: Sess, d: nat) {
    && InEdit(s, d) && s.frames[0].options == OptionsOf(env) && !s.frames[0].progress.Substituting?
    && (s.frames[0].progress.Setting? ==> s.frames[0].todo != [])
  }

  /** What is left to be done from here on, if nothing interrupts. */
  function Rest(env: Env, c: Overlay, f: Frame): Lone
    requires f.Edit? && (f.progress.Setting? ==> f.todo != [])
  {
    match f.progress
    case Setting(p) =>
      GoOn(env, if env.settable(p) then Done(SetPath(c, p), true) else Done(c, false), f.todo)
    case _ => Alone(env, c, f.todo)
  }

  /** After an act of the request: it has ended, or it is at work with the rest left. */
  ghost predicate Follows(env: Env, s: Sess, a: Act, d: nat)
    requires CanDo(s, a) && AtWork(env, s, d)
  {
    var s' := Do(s, a);
    var all := Rest(env, s.candidate, s.frames[0]);
    && s'.lpid == s.lpid
    && (|s'.frames| == d || AtWork(env, s', d))
    && (|s'.frames| == d ==> all == Lone(s'.candidate, Attempt(s, a, d)))
    && (|s'.frames| != d ==>
          var r := Rest(env, s'.candidate, s'.frames[0]);
          all == Lone(r.candidate, Attempt(s, a, d) + r.tried))
  }

  lemma EndsOperation(env: Env, s: Sess, d: nat, done: Done)
    requires AtWork(env, s, d) && s.frames[0].todo != []
    ensures var f := s.frames[0];
            var s' := NextEdit(s.(candidate := done.candidate), f, done.ok);
            var t := [Tried(f.todo[0], done.ok)];
            && (|s'.frames| == d || (AtWork(env, s', d) && s'.frames[0].progress.Ready?))
            && (|s'.frames| == d ==> GoOn(env, done, f.todo) == Lone(s'.candidate, t))
            && (|s'.frames| != d ==>
                  var r := Rest(env, s'.candidate, s'.frames[0]);
                  GoOn(env, done, f.todo) == Lone(r.candidate, t + r.tried))
  {
    assert [Tried(s.frames[0].todo[0], done.ok)] + [] == [Tried(s.frames[0].todo[0], done.ok)];
  }

  lemma StepFollows(env: Env, s: Sess, d: nat)
    requires AtWork(env, s, d) && s.frames[0].progress.Ready?
    ensures var f := s.frames[0];
            var go := if f.todo == [] then true else Goes(env, s.candidate, f.todo[0]);
            Follows(env, s, Stepped(env.running, go), d)
  {
    var f := s.frames[0];
    if f.todo != [] {
      var o := f.todo[0];
      var go := Goes(env, s.candidate, o);
      BeginRefinesSet(env, s.candidate, o);
      if go && !env.test.TestOnly? && Begin(o, s.candidate, env.running, env.defaultNone).Validating? {
        var r := Rest(env, s.candidate, f);
        assert [] + r.tried == r.tried;
      } else {
        EndsOperation(env, s, d, Perform(env, s.candidate, o));
      }
    }
  }

  lemma ResumeFollows(env: Env, s: Sess, d: nat)
    requires AtWork(env, s, d) && s.frames[0].progress.Setting?
    ensures Follows(env, s, Resumed(env.settable(s.frames[0].progress.path), false), d)
  {
    var f := s.frames[0];
    var p := f.progress.path;
    EndsOperation(env, s, d, if env.settable(p) then Done(SetPath(s.candidate, p), true) else Done(s.candidate, false));
  }

  // --- Nothing gets in the way ---

  function EditFrame(s: Sess, d: nat): Frame
    requires |s.frames| > d
  {
    s.frames[|s.frames| - d - 1]
  }

  /** A frame of another client that will not write: it reads, or it is a load that is refused. */
  predicate Idle(f: Frame, pid: Pid) {
    f.ReadWait? || (f.Load? && f.pid != pid && f.progress.Ready?)
  }

  /** The request is at work, or waits below frames that will not write; and either its client
      holds the lock, or it never waits. */
  ghost predicate Unhindered(env: Env, pid: Pid, s: Sess, d: nat) {
    && |s.frames| > d && EditFrame(s, d).Edit? && EditFrame(s, d).options == OptionsOf(env)
    && !EditFrame(s, d).progress.Substituting?
    && (EditFrame(s, d).progress.Setting? ==> EditFrame(s, d).todo != [])
    && (forall i :: 0 <= i < |s.frames| - d - 1 ==> Idle(s.frames[i], pid))
    && (|s.frames| > d + 1 ==> EditFrame(s, d).progress.Setting?)
    && (s.lpid == pid || (EditFrame(s, d).progress.Ready? && !Waits(env, s.candidate, EditFrame(s, d).todo)))
  }

  function Left(env: Env, s: Sess, d: nat): Lone
    requires |s.frames| > d && EditFrame(s, d).Edit?
    requires EditFrame(s, d).progress.Setting? ==> EditFrame(s, d).todo != []
  {
    Rest(env, s.candidate, EditFrame(s, d))
  }

  /** An act above the request: it changes nothing that the request sees. */
  lemma IdleAct(env: Env, pid: Pid, s: Sess, a: Act, d: nat)
    requires Client(pid) && Unhindered(env, pid, s, d) && CanDo(s, a) && Fair(env, pid, s, a, d) && Gentle(a)
    requires a.Served? || |s.frames| > d + 1
    ensures var s' := Do(s, a);
            && Unhindered(env, pid, s', d) && s'.candidate == s.candidate && EditFrame(s', d) == EditFrame(s, d)
            && Attempt(s, a, d) == []
  {
    if a.Served? {
      IdleServe(env, pid, s, a, d);
    } else {
      assert Idle(s.frames[0], pid);
      var s' := Do(s, a);
      assert s'.frames == s.frames[1..] || (|s'.frames| == |s.frames| && s'.frames[1..] == s.frames[1..]);
      forall i | 0 <= i < |s'.frames| - d - 1 ensures Idle(s'.frames[i], pid) {
        if s'.frames == s.frames[1..] {
          assert s'.frames[i] == s.frames[i + 1];
        } else if i > 0 {
          assert s'.frames[i] == s'.frames[1..][i - 1] == s.frames[1..][i - 1];
        }
      }
    }
  }

  lemma IdleServe(env: Env, pid: Pid, s: Sess, a: Act, d: nat)
    requires Client(pid) && Unhindered(env, pid, s, d) && CanDo(s, a) && Fair(env, pid, s, a, d)
    requires a.Served? && Gentle(a)
    ensures var s' := Do(s, a);
            && Unhindered(env, pid, s', d) && s'.candidate == s.candidate && EditFrame(s', d) == EditFrame(s, d)
            && Attempt(s, a, d) == []
  {
    var s' := Do(s, a);
    assert s.lpid == pid;
    if |s'.frames| > |s.frames| {
      assert s'.frames[1..] == s.frames;
      assert forall i :: 0 < i < |s'.frames| ==> s'.frames[i] == s.frames[i - 1];
    } else {
      assert s'.frames == s.frames;
    }
  }

  /** A step of a list that does not wait leaves a list that does not wait. */
  lemma StepStaysUnhindered(env: Env, pid: Pid, s: Sess, d: nat, go: bool)
    requires Unhindered(env, pid, s, d) && AtWork(env, s, d) && s.frames[0].progress.Ready? && s.frames[0].todo != []
    requires go == Goes(env, s.candidate, s.frames[0].todo[0])
    ensures var s' := Do(s, Stepped(env.running, go)); |s'.frames| > d ==> Unhindered(env, pid, s', d)
  {
    var f := s.frames[0];
    BeginRefinesSet(env, s.candidate, f.todo[0]);
  }

  lemma OwnStep(env: Env, pid: Pid, s: Sess, running: Tree, go: bool, d: nat)
    requires Unhindered(env, pid, s, d) && |s.frames| == d + 1 && CanDo(s, Stepped(running, go))
    requires Fair(env, pid, s, Stepped(running, go), d) && running == env.running
    ensures AtWork(env, s, d) && Follows(env, s, Stepped(running, go), d)
    ensures var s' := Do(s, Stepped(running, go)); |s'.frames| > d ==> Unhindered(env, pid, s', d)
  {
    StepFollows(env, s, d);
    if s.frames[0].todo != [] {
      StepStaysUnhindered(env, pid, s, d, go);
    }
  }

  lemma OwnResume(env: Env, pid: Pid, s: Sess, ok: bool, subst: bool, d: nat)
    requires Unhindered(env, pid, s, d) && |s.frames| == d + 1 && CanDo(s, Resumed(ok, subst))
    requires Fair(env, pid, s, Resumed(ok, subst), d)
    ensures AtWork(env, s, d) && Follows(env, s, Resumed(ok, subst), d)
    ensures var s' := Do(s, Resumed(ok, subst)); |s'.frames| > d ==> Unhindered(env, pid, s', d)
  {
    ResumeFollows(env, s, d);
  }

  /** One act of such a request, or above it. */
  lemma UnhinderedAct(env: Env, pid: Pid, s: Sess, a: Act, d: nat)
    requires Client(pid) && Unhindered(env, pid, s, d) && CanDo(s, a) && Fair(env, pid, s, a, d)
    requires Steady(env, a) && Gentle(a)
    ensures var s' := Do(s, a);
            && |s'.frames| >= d
            && (|s'.frames| == d ==> Left(env, s, d) == Lone(s'.candidate, Attempt(s, a, d)))
            && (|s'.frames| > d ==>
                  && Unhindered(env, pid, s', d)
                  && var r := Left(env, s', d);
                     Left(env, s, d) == Lone(r.candidate, Attempt(s, a, d) + r.tried))
  {
    if a.Served? || |s.frames| > d + 1 {
      IdleAct(env, pid, s, a, d);
      var r := Left(env, s, d);
      assert [] + r.tried == r.tried;
    } else {
      assert EditFrame(s, d) == s.frames[0];
      match a
      case Stepped(running, go) => OwnStep(env, pid, s, running, go, d);
      case Resumed(ok, subst) => OwnResume(env, pid, s, ok, subst, d);
    }
  }

  /** So a whole run leaves, and attempts, what was left to be done. */
  lemma {:induction false} UnhinderedRun(env: Env, pid: Pid, s: Sess, acts: seq<Act>, d: nat)
    requires Client(pid) && Unhindered(env, pid, s, d) && Completes(env, pid, s, acts, d) && AllSteady(env, acts, false)
    ensures Result(env, pid, s, acts, d) == Left(env, s, d)
    decreases |acts|
  {
    var s' := Do(s, acts[0]);
    UnhinderedAct(env, pid, s, acts[0], d);
    if |s'.frames| == d {
      assert acts[1..] == [];
      assert Attempt(s, acts[0], d) + [] == Attempt(s, acts[0], d);
    } else {
      UnhinderedRun(env, pid, s', acts[1..], d);
    }
  }

  // --- Something can get in the way ---

  /** A path that the request does not touch. */
  predicate Elsewhere(ops: seq<EditOp>, q: Path) {
    q != [] && forall o :: o in ops ==> !Comparable(o.path, q)
  }

  lemma PerformLeaves(env: Env, c: Overlay, o: EditOp, q: Path)
    requires q != [] && !Comparable(o.path, q)
    ensures q in Perform(env, c, o).candidate.adds <==> q in c.adds
  {
  }

  lemma {:induction false} AloneLeaves(env: Env, c: Overlay, ops: seq<EditOp>, q: Path)
    requires Elsewhere(ops, q)
    ensures q in Alone(env, c, ops).candidate.adds <==> q in c.adds
    decreases |ops|
  {
    if ops != [] {
      AloneUnfolds(env, c, ops);
      PerformLeaves(env, c, ops[0], q);
      AloneLeaves(env, Perform(env, c, ops[0]).candidate, ops[1..], q);
    }
  }

  /** What the request does next, left alone. */
  function OwnAct(env: Env, s: Sess, d: nat): Act
    requires AtWork(env, s, d)
  {
    var f := s.frames[0];
    if f.progress.Setting? then Resumed(env.settable(f.progress.path), false)
    else Stepped(env.running, f.todo == [] || Goes(env, s.candidate, f.todo[0]))
  }

  lemma OwnActFollows(env: Env, pid: Pid, s: Sess, d: nat)
    requires AtWork(env, s, d)
    ensures var a := OwnAct(env, s, d);
            CanDo(s, a) && Fair(env, pid, s, a, d) && Steady(env, a) && Follows(env, s, a, d)
  {
    if s.frames[0].progress.Setting? {
      ResumeFollows(env, s, d);
    } else {
      StepFollows(env, s, d);
    }
  }

  /** How much is left to do. */
  function ToDo(f: Frame): nat
    requires f.Edit?
  {
    2 * |f.todo| + if f.progress.Ready? then 1 else 0
  }

  lemma OwnActProgresses(env: Env, s: Sess, d: nat)
    requires AtWork(env, s, d)
    ensures var s' := Do(s, OwnAct(env, s, d));
            |s'.frames| != d && AtWork(env, s', d) ==> ToDo(s'.frames[0]) < ToDo(s.frames[0])
  {
  }

  /** Left alone, the request comes to its end, and to what was left to be done. */
  lemma {:induction false} Finishes(env: Env, pid: Pid, s: Sess, d: nat) returns (acts: seq<Act>)
    requires AtWork(env, s, d)
    ensures Completes(env, pid, s, acts, d) && AllSteady(env, acts, false)
    ensures Result(env, pid, s, acts, d).candidate == Rest(env, s.candidate, s.frames[0]).candidate
    decreases ToDo(s.frames[0])
  {
    var a := OwnAct(env, s, d);
    var s' := Do(s, a);
    OwnActFollows(env, pid, s, d);
    if |s'.frames| == d {
      acts := [a];
      assert acts[1..] == [];
      assert Completes(env, pid, s', [], d);
    } else {
      OwnActProgresses(env, s, d);
      var rest := Finishes(env, pid, s', d);
      acts := [a] + rest;
      assert acts[1..] == rest;
    }
  }

  /** Another client sets a path while the request waits for its own to be validated. */
  lemma SlipsIn(env: Env, pid: Pid, s: Sess, d: nat, other: Pid, q: Path) returns (acts: seq<Act>)
    requires AtWork(env, s, d) && s.frames[0].progress.Setting? && s.lpid == FREE
    requires Client(other) && other != pid && env.settable(q) && Elsewhere(s.frames[0].todo, q)
    ensures Completes(env, pid, s, acts, d) && AllSteady(env, acts, false)
    ensures q in Result(env, pid, s, acts, d).candidate.adds
  {
    var a1, a2 := Served(SetReq(other, q), env.running, 0), Resumed(true, false);
    var s1 := Do(s, a1);
    assert s1.frames[0] == SetWait(other, q) && s1.frames[1..] == s.frames;
    var s2 := Do(s1, a2);
    assert s2 == s.(candidate := SetPath(s.candidate, q));
    var rest := Finishes(env, pid, s2, d);
    acts := [a1, a2] + rest;
    assert acts[1..] == [a2] + rest && acts[1..][1..] == rest;
    RestKeeps(env, s2.candidate, s2.frames[0], q);
  }

  lemma RestKeeps(env: Env, c: Overlay, f: Frame, q: Path)
    requires f.Edit? && f.progress.Setting? && f.todo != [] && Elsewhere(f.todo, q) && q in c.adds
    ensures q in Rest(env, c, f).candidate.adds
  {
    var p := f.progress.path;
    var d := if env.settable(p) then Done(SetPath(c, p), true) else Done(c, false);
    AloneLeaves(env, d.candidate, f.todo[1..], q);
  }

  lemma {:induction false} CanBeDisturbed(env: Env, pid: Pid, s: Sess, d: nat, other: Pid, q: Path)
    returns (acts: seq<Act>)
    requires AtWork(env, s, d) && s.frames[0].progress.Ready? && s.lpid == FREE
    requires Waits(env, s.candidate, s.frames[0].todo)
    requires Client(other) && other != pid && env.settable(q) && Elsewhere(s.frames[0].todo, q)
    ensures Completes(env, pid, s, acts, d) && AllSteady(env, acts, false)
    ensures q in Result(env, pid, s, acts, d).candidate.adds
    decreases |s.frames[0].todo|
  {
    var o := s.frames[0].todo[0];
    var a := OwnAct(env, s, d);
    var s' := Do(s, a);
    OwnActFollows(env, pid, s, d);
    BeginRefinesSet(env, s.candidate, o);
    var rest: seq<Act>;
    if NeedsWait(env, s.candidate, o) {
      rest := SlipsIn(env, pid, s', d, other, q);
    } else {
      rest := CanBeDisturbed(env, pid, s', d, other, q);
    }
    acts := [a] + rest;
    assert acts[1..] == rest;
  }

  // --- Exactly when the list runs as it would alone ---

  function Started(env: Env, s: Sess, ops: seq<EditOp>): Sess {
    Push(s, Edit(ops, OptionsOf(env), Ready))
  }

  /** Whatever other clients send meanwhile, short of deleting the candidate. */
  ghost predicate AlwaysAlone(env: Env, pid: Pid, s: Sess, ops: seq<EditOp>) {
    forall acts :: Completes(env, pid, Started(env, s, ops), acts, |s.frames|) && AllSteady(env, acts, false) ==>
                     Result(env, pid, Started(env, s, ops), acts, |s.frames|) == Alone(env, s.candidate, ops)
  }

  /** The client holds the lock when it sends the request, or the list does not come to wait. */
  predicate Guarded(env: Env, pid: Pid, s: Sess, ops: seq<EditOp>) {
    s.lpid == pid || !Waits(env, s.candidate, ops)
  }

  lemma GuardedRun(env: Env, pid: Pid, s: Sess, ops: seq<EditOp>, acts: seq<Act>)
    requires Client(pid) && Guarded(env, pid, s, ops)
    requires Completes(env, pid, Started(env, s, ops), acts, |s.frames|) && AllSteady(env, acts, false)
    ensures Result(env, pid, Started(env, s, ops), acts, |s.frames|) == Alone(env, s.candidate, ops)
  {
    var s1 := Started(env, s, ops);
    assert EditFrame(s1, |s.frames|) == s1.frames[0];
    UnhinderedRun(env, pid, s1, acts, |s.frames|);
  }

  /** The list runs as it would alone, over every run, if and only if its client holds the lock or
      the list does not come to wait; provided there is some path that a client could set, that
      the request does not touch and the candidate does not have. */
  lemma RunsAloneExactly(env: Env, pid: Pid, s: Sess, ops: seq<EditOp>, q: Path)
    requires Client(pid) && MayUse(s.lpid, pid) && Receptive(s)
    requires Elsewhere(ops, q) && env.settable(q) && q !in s.candidate.adds
    ensures Started(env, s, ops) == Serve(s, EditReq(pid, ops, OptionsOf(env)), env.running, 0)
    ensures AlwaysAlone(env, pid, s, ops) <==> Guarded(env, pid, s, ops)
  {
    var s1 := Started(env, s, ops);
    if Guarded(env, pid, s, ops) {
      forall acts | Completes(env, pid, s1, acts, |s.frames|) && AllSteady(env, acts, false)
        ensures Result(env, pid, s1, acts, |s.frames|) == Alone(env, s.candidate, ops)
      {
        GuardedRun(env, pid, s, ops, acts);
      }
    } else {
      var acts := CanBeDisturbed(env, pid, s1, |s.frames|, if pid == 1 then 2 else 1, q);
      AloneLeaves(env, s.candidate, ops, q);
    }
  }

  // --- Rollback by prevalidation, with everything that may interrupt it ---

  predicate AllOk(tried: seq<Tried>) {
    forall i :: 0 <= i < |tried| ==> tried[i].ok
  }

  lemma AllOkMeansAllSucceed(env: Env, c: Overlay, ops: seq<EditOp>)
    requires !Stops(env)
    ensures AllOk(Alone(env, c, ops).tried) <==> AllSucceed(env, c, ops)
  {
    AloneTriesAll(env, c, ops);
    var tried := Alone(env, c, ops).tried;
    forall i | 0 <= i < |ops| ensures tried[i].ok == Succeeds(env, c, ops, i) {
      assert tried[i] == Tried(ops[i], Succeeds(env, c, ops, i));
    }
    if AllOk(tried) {
      forall i | 0 <= i < |ops| ensures Succeeds(env, c, ops, i) {
        assert tried[i].ok;
      }
    }
  }

  /** A prevalidated request that names each data node once, sent by a client that holds the lock:
      over every run every operation is attempted, and all succeed if and only if no delete is
      hidden by a replace. */
  lemma RollbackOverRuns(env: Env, sch: EditTree.Schema, kids: seq<EditTree.EditNode>, op: Operation, pid: Pid,
                         s: Sess, acts: seq<Act>)
    requires Client(pid) && Closed(s.candidate) && PrefixClosed(env.running) && Rollback.SameValidity(env)
    requires env.error.RollbackOnError? && !env.test.TestOnly? && (op.NotSet? ==> env.defaultNone)
    requires EditTree.FlattenAll(sch, kids, op, []).Flat? && EditTree.NamesOnce(sch, kids, op, [])
    requires Prevalidated(env, s.candidate, EditTree.FlattenAll(sch, kids, op, []).ops)
    requires Guarded(env, pid, s, EditTree.FlattenAll(sch, kids, op, []).ops)
    requires Completes(env, pid, Started(env, s, EditTree.FlattenAll(sch, kids, op, []).ops), acts, |s.frames|)
    requires AllSteady(env, acts, false)
    ensures var ops := EditTree.FlattenAll(sch, kids, op, []).ops;
            var r := Result(env, pid, Started(env, s, ops), acts, |s.frames|);
            && |r.tried| == |ops|
            && r.candidate == PerformAll(env, s.candidate, ops).candidate
            && (AllOk(r.tried) <==> !Rollback.HiddenDelete(ops))
  {
    var ops := EditTree.FlattenAll(sch, kids, op, []).ops;
    GuardedRun(env, pid, s, ops, acts);
    AloneIsPerformAll(env, s.candidate, ops);
    AloneTriesAll(env, s.candidate, ops);
    AllOkMeansAllSucceed(env, s.candidate, ops);
    Rollback.PrevalidationOfTree(env, sch, kids, op, s.candidate);
  }

  // --- Inputs for which it does not ---

  const A: Path := ["a"]
  const B: Path := ["b"]
  const LIST := [EditOp(Merge, A), EditOp(Delete, B)]

  function Running(): Tree {
    {B}
  }

  function PairEnv(): Env {
    Env(Running(), p => p == A || p == B, p => p == A || p == B, false, SetOnly, RollbackOnError)
  }

  lemma PairIsPrevalidated()
    ensures Prevalidated(PairEnv(), EMPTY, LIST) && !Rollback.HiddenDelete(LIST)
    ensures Exists(EMPTY, Running(), B) && !Exists(EMPTY, Running(), A)
  {
    ViewOfEmpty(Running());
    assert A != B by { assert A[0] != B[0]; }
    assert forall o :: o in LIST ==> !o.op.Replace?;
  }

  function EditOf(todo: seq<EditOp>, progress: Progress): Frame {
    Edit(todo, OptionsOf(PairEnv()), progress)
  }

  /** The session while client 1's list runs. */
  function At(lpid: Pid, c: Overlay, todo: seq<EditOp>, progress: Progress): Sess {
    Sess(lpid, c, false, [EditOf(todo, progress)])
  }

  lemma PairSteps(lpid: Pid, c: Overlay)
    ensures !Exists(c, Running(), A) ==>
              Step(At(lpid, c, LIST, Ready), Running(), true) == At(lpid, c, LIST, Setting(A))
    ensures Resume(At(lpid, c, LIST, Setting(A)), true, false) == At(lpid, SetPath(c, A), LIST[1..], Ready)
  {
  }

  /** The delete finds its node gone, fails, and does not end the list. */
  lemma DeleteFails(lpid: Pid, c: Overlay, running: Tree)
    requires !Exists(c, running, B)
    ensures var s := At(lpid, c, LIST[1..], Ready);
            && Step(s, running, true) == At(lpid, c, [], Ready)
            && Attempt(s, Stepped(running, true), 0) == [Tried(LIST[1], false)]
            && Step(At(lpid, c, [], Ready), running, true) == Sess(lpid, c, false, [])
  {
    assert LIST[1..][0] == LIST[1] && LIST[1..][1..] == [];
  }

  function Meanwhile(): seq<Act> {
    [Stepped(Running(), true), Served(DelReq(2, B), Running(), 0), Resumed(true, false),
     Stepped(Running(), true), Stepped(Running(), true)]
  }

  lemma BIsGone(c: Overlay)
    requires c == SetPath(DeletePath(EMPTY, B), A)
    ensures !Exists(c, Running(), B)
  {
    assert Covers(B, B);
    assert B in c.dels;
    assert A != B by { assert A[0] != B[0]; }
    assert !Covers(B, A) by { assert A[0] != B[0]; }
    assert Masked(B, c.dels);
  }

  lemma OneMore(env: Env, pid: Pid, s: Sess, a: Act, rest: seq<Act>, d: nat, t: Tried)
    requires |s.frames| > d && CanDo(s, a) && Fair(env, pid, s, a, d)
    requires Completes(env, pid, Do(s, a), rest, d) && t in Result(env, pid, Do(s, a), rest, d).tried
    ensures Completes(env, pid, s, [a] + rest, d)
    ensures t in Result(env, pid, s, [a] + rest, d).tried
  {
    assert ([a] + rest)[1..] == rest;
  }

  /** From the request on, until the delete of the other client has been served and the merge has
      been done. */
  lemma FirstActs(rest: seq<Act>)
    requires var s3 := At(FREE, SetPath(DeletePath(EMPTY, B), A), LIST[1..], Ready);
             Completes(PairEnv(), 1, s3, rest, 0) && Tried(LIST[1], false) in Result(PairEnv(), 1, s3, rest, 0).tried
    ensures var acts := [Stepped(Running(), true)]
                        + ([Served(DelReq(2, B), Running(), 0)] + ([Resumed(true, false)] + rest));
            var s0 := At(FREE, EMPTY, LIST, Ready);
            Completes(PairEnv(), 1, s0, acts, 0) && Tried(LIST[1], false) in Result(PairEnv(), 1, s0, acts, 0).tried
  {
    var env, t := PairEnv(), Tried(LIST[1], false);
    var c := DeletePath(EMPTY, B);
    var s0, s1, s2 := At(FREE, EMPTY, LIST, Ready), At(FREE, EMPTY, LIST, Setting(A)), At(FREE, c, LIST, Setting(A));
    PairIsPrevalidated();
    PairSteps(FREE, EMPTY);
    PairSteps(FREE, c);
    assert Serve(s1, DelReq(2, B), Running(), 0) == s2;
    OneMore(env, 1, s2, Resumed(true, false), rest, 0, t);
    OneMore(env, 1, s1, Served(DelReq(2, B), Running(), 0), [Resumed(true, false)] + rest, 0, t);
    OneMore(env, 1, s0, Stepped(Running(), true),
            [Served(DelReq(2, B), Running(), 0)] + ([Resumed(true, false)] + rest), 0, t);
  }

  lemma LastActs(s: Sess, acts: seq<Act>)
    requires s.frames == [EditOf(LIST[1..], Ready)] && !Exists(s.candidate, Running(), B)
    requires acts == [Stepped(Running(), true), Stepped(Running(), true)] && !s.saved
    ensures Completes(PairEnv(), 1, s, acts, 0)
    ensures Tried(LIST[1], false) in Result(PairEnv(), 1, s, acts, 0).tried
  {
    DeleteFails(s.lpid, s.candidate, Running());
    var s1 := At(s.lpid, s.candidate, [], Ready);
    assert s == At(s.lpid, s.candidate, LIST[1..], Ready);
    assert acts[1..] == [Stepped(Running(), true)] && acts[1..][1..] == [];
    assert Completes(PairEnv(), 1, s1, acts[1..], 0);
  }

  /** A free session, a request without replace that is prevalidated, and another client that
      deletes a node while the request waits: an operation fails, and nothing is reported. */
  lemma DeleteMeanwhileHidesFailure()
    ensures Prevalidated(PairEnv(), EMPTY, LIST) && !Rollback.HiddenDelete(LIST)
    ensures Completes(PairEnv(), 1, Started(PairEnv(), NEW_SESSION, LIST), Meanwhile(), 0)
    ensures AllSteady(PairEnv(), Meanwhile(), false)
    ensures Tried(LIST[1], false) in Result(PairEnv(), 1, Started(PairEnv(), NEW_SESSION, LIST), Meanwhile(), 0).tried
    ensures PerformAll(PairEnv(), EMPTY, LIST).reported == []
  {
    PairIsPrevalidated();
    NeverStopping(PairEnv(), EMPTY, LIST);
    MeanwhileFails();
  }

  lemma MeanwhileFails()
    ensures Completes(PairEnv(), 1, Started(PairEnv(), NEW_SESSION, LIST), Meanwhile(), 0)
    ensures Tried(LIST[1], false) in Result(PairEnv(), 1, Started(PairEnv(), NEW_SESSION, LIST), Meanwhile(), 0).tried
  {
    var c := SetPath(DeletePath(EMPTY, B), A);
    var rest := [Stepped(Running(), true), Stepped(Running(), true)];
    BIsGone(c);
    LastActs(At(FREE, c, LIST[1..], Ready), rest);
    FirstActs(rest);
    assert Started(PairEnv(), NEW_SESSION, LIST) == At(FREE, EMPTY, LIST, Ready);
    assert Meanwhile()
        == [Stepped(Running(), true)] + ([Served(DelReq(2, B), Running(), 0)] + ([Resumed(true, false)] + rest));
  }

  /** Nor does the lock help against the commit of another session that is stored meanwhile: the
      delete finds its node gone from the running tree. */
  lemma CommitMeanwhileHidesFailure()
    ensures var s0 := Started(PairEnv(), NEW_SESSION.(lpid := 1), LIST);
            var s1 := Do(s0, Stepped(Running(), true));
            var s2 := Do(s1, Resumed(true, false));
            && s2.lpid == 1 && s2.frames == [EditOf(LIST[1..], Ready)]
            && Attempt(s2, Stepped({}, true), 0) == [Tried(LIST[1], false)]
            && Attempt(s2, Stepped(Running(), true), 0) == [Tried(LIST[1], true)]
  {
    PairIsPrevalidated();
    PairSteps(1, EMPTY);
    var c := SetPath(EMPTY, A);
    assert !Covers(B, A) by { assert A[0] != B[0]; }
    ViewOfSet(EMPTY, Running(), A);
    assert B !in Prefixes(A) by { assert A[0] != B[0]; }
    DeleteFails(1, c, {});
    assert LIST[1..][0] == LIST[1];
  }
}
