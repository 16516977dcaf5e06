/** The same for a client that holds the lock, when commits of other sessions move the running
    tree while its request waits, and other clients may or may not send loads, which delete the
    candidate whoever holds the lock. */
module Moving {
  import opened Config
  import opened EditOps
  import opened Interrupted
  import opened Lock
  import opened Nested
  import opened Session
  import opened Shape
  import opened Unfailing

  // --- The condition: a candidate that leans on nothing in the running tree ---

  /** Its node is the candidate's own, or is hidden from the running tree, as it should be. */
  predicate RobustOp(c: Overlay, o: EditOp) {
    match o.op
    case Delete => o.path in c.adds
    case Create => Masked(o.path, c.dels)
    case _ => true
  }

  /** The least that an operation can do to a candidate, whatever the running tree is: it merges
      nothing that running may have, and removes nothing that running may not have. */
  function Least(c: Overlay, o: EditOp): Overlay {
    match o.op
    case Merge => if o.path in c.adds || !Masked(o.path, c.dels) then c else SetPath(c, o.path)
    case Replace => SetPath(if o.path in c.adds then DeletePath(c, o.path) else c, o.path)
    case Create => SetPath(c, o.path)
    case Delete => DeletePath(c, o.path)
    case Remove => if o.path in c.adds then DeletePath(c, o.path) else c
    case NotSet => c
  }

  /** Whether some running tree makes the operation wait. */
  predicate MayWait(c: Overlay, o: EditOp) {
    match o.op
    case Merge => o.path !in c.adds
    case Replace => true
    case Create => true
    case _ => false
  }

  /** Each operation of the list, on the least that those before it leave; and, where a load may
      come, on what is set after a wipe. */
  predicate Robust(c: Overlay, ops: seq<EditOp>, loads: bool)
    decreases |ops|
  {
    ops == [] ||
      (&& RobustOp(c, ops[0]) && Robust(Least(c, ops[0]), ops[1..], loads)
       && (loads && MayWait(c, ops[0]) ==> Robust(SetPath(WIPED, ops[0].path), ops[1..], loads)))
  }

  /** Every running tree that the run finds is closed, and loads come only if they may. */
  ghost predicate AllClosed(acts: seq<Act>, loads: bool) {
    forall a :: a in acts ==> (a.Stepped? ==> PrefixClosed(a.running)) && (loads || Gentle(a))
  }

  /** No run of the request has an operation fail, wherever the running tree moves. */
  ghost predicate NeverFailsMoving(env: Env, pid: Pid, s: Sess, ops: seq<EditOp>, loads: bool) {
    forall acts :: Completes(env, pid, Started(env, s, ops), acts, |s.frames|) && AllClosed(acts, loads) ==>
                     AllOk(Result(env, pid, Started(env, s, ops), acts, |s.frames|).tried)
  }

  // --- The condition is enough ---

  predicate Covered(p: Path, c: Overlay, c': Overlay) {
    Masked(p, c.dels) ==> Masked(p, c'.dels)
  }

  /** The second candidate has at least the additions and hides at least the nodes of the first. */
  ghost predicate AtLeast(c: Overlay, c': Overlay) {
    Closed(c) && Closed(c') && c.adds <= c'.adds && forall p :: Covered(p, c, c')
  }

  lemma MaskedAfterDelete(c: Overlay, p: Path, q: Path)
    ensures Masked(q, DeletePath(c, p).dels) <==> Masked(q, c.dels) || Covers(p, q)
  {
    var d' := DeletePath(c, p).dels;
    if Masked(q, c.dels) {
      var d :| d in c.dels && Covers(d, q);
      if !Covers(p, d) { assert d in d'; } else { assert p in d' && Covers(p, q); }
    }
    if Covers(p, q) { assert p in d'; }
  }

  lemma SetBoth(c: Overlay, c': Overlay, p: Path)
    requires AtLeast(c, c')
    ensures AtLeast(SetPath(c, p), SetPath(c', p)) && AtLeast(c, SetPath(c', p))
    ensures p in c'.adds && p != [] ==> AtLeast(SetPath(c, p), c')
  {
    EditsKeepClosed(c, p);
    EditsKeepClosed(c', p);
    forall q
      ensures Covered(q, SetPath(c, p), SetPath(c', p)) && Covered(q, c, SetPath(c', p))
      ensures Covered(q, SetPath(c, p), c')
    {
      assert Covered(q, c, c');
    }
  }

  lemma DeleteBoth(c: Overlay, c': Overlay, p: Path)
    requires AtLeast(c, c')
    ensures AtLeast(DeletePath(c, p), DeletePath(c', p))
    ensures p !in c.adds && p != [] ==> AtLeast(c, DeletePath(c', p))
  {
    EditsKeepClosed(c, p);
    EditsKeepClosed(c', p);
    forall q
      ensures Covered(q, DeletePath(c, p), DeletePath(c', p)) && Covered(q, c, DeletePath(c', p))
    {
      assert Covered(q, c, c');
      MaskedAfterDelete(c, p, q);
      MaskedAfterDelete(c', p, q);
    }
  }

  /** Nothing still to be created has been added. */
  ghost predicate CreatesAbsent(c: Overlay, ops: seq<EditOp>) {
    forall o :: o in ops && o.op.Create? ==> o.path !in c.adds
  }

  /** The rest of the list is robust on no more than the candidate has. */
  ghost predicate OnCourse(c': Overlay, ops: seq<EditOp>, loads: bool) {
    CreatesAbsent(c', ops) && exists c :: AtLeast(c, c') && Robust(c, ops, loads)
  }

  /** However the path is set, all is well then. */
  ghost predicate SetsWell(c: Overlay, p: Path, rest: seq<EditOp>, loads: bool) {
    OnCourse(SetPath(c, p), rest, loads) && (loads ==> OnCourse(SetPath(WIPED, p), rest, loads))
  }

  lemma StillAbsent(env: Env, c: Overlay, ops: seq<EditOp>)
    requires ListOk(env, ops) && ops != [] && CreatesAbsent(c, ops)
    ensures CreatesAbsent(c, ops[1..]) && CreatesAbsent(DeletePath(c, ops[0].path), ops[1..])
    ensures !Removes(ops[0].op) ==>
              && CreatesAbsent(SetPath(c, ops[0].path), ops[1..])
              && CreatesAbsent(SetPath(DeletePath(c, ops[0].path), ops[0].path), ops[1..])
  {
    TailOk(env, ops);
  }

  /** What comes of the next operation, whatever the running tree is: it ends well, or it waits to
      set its path and then all is well. */
  ghost predicate StaysOnCourse(env: Env, c: Overlay, ops: seq<EditOp>, loads: bool)
    requires ops != []
  {
    && Goes(env, c, ops[0])
    && match Begin(ops[0], c, env.running, env.defaultNone)
       case Finished(c', ok) => ok && OnCourse(c', ops[1..], loads)
       case Validating(c', p) => p == ops[0].path && SetsWell(c', p, ops[1..], loads)
  }

  lemma LeastFollows(env: Env, c: Overlay, c': Overlay, ops: seq<EditOp>)
    requires ops != [] && AtLeast(c, c') && RobustOp(c, ops[0]) && ListOk(env, ops) && CreatesAbsent(c', ops)
    requires !env.test.TestOnly?
    ensures Goes(env, c', ops[0])
    ensures match Begin(ops[0], c', env.running, env.defaultNone)
            case Finished(c1, ok) => ok && AtLeast(Least(c, ops[0]), c1)
            case Validating(c1, p) => p == ops[0].path && AtLeast(Least(c, ops[0]), SetPath(c1, p))
  {
    var o := ops[0];
    var p := o.path;
    TailOk(env, ops);
    assert o in ops;
    assert Covered(p, c, c');
    SetBoth(c, c', p);
    DeleteBoth(c, c', p);
    match o.op
    case Replace =>
      if p in c.adds {
        SetBoth(DeletePath(c, p), DeletePath(c', p), p);
      } else if env.Has(c', p) {
        SetBoth(c, DeletePath(c', p), p);
      }
      ViewOfDelete(c', env.running, p);
      assert Covers(p, p);
    case _ =>
  }

  lemma NextStaysOnCourse(env: Env, c': Overlay, ops: seq<EditOp>, loads: bool)
    requires ops != [] && OnCourse(c', ops, loads) && ListOk(env, ops) && !env.test.TestOnly?
    ensures StaysOnCourse(env, c', ops, loads)
  {
    var c :| AtLeast(c, c') && Robust(c, ops, loads);
    LeastFollows(env, c, c', ops);
    StillAbsent(env, c', ops);
    assert Robust(Least(c, ops[0]), ops[1..], loads);
    if loads && MayWait(c, ops[0]) {
      WipedIsOnCourse(env, ops);
    }
  }

  lemma WipedIsOnCourse(env: Env, ops: seq<EditOp>)
    requires ops != [] && ListOk(env, ops) && !Removes(ops[0].op)
    ensures CreatesAbsent(SetPath(WIPED, ops[0].path), ops[1..])
    ensures Robust(SetPath(WIPED, ops[0].path), ops[1..], true) ==>
              OnCourse(SetPath(WIPED, ops[0].path), ops[1..], true)
  {
    var c := SetPath(WIPED, ops[0].path);
    TailOk(env, ops);
    EditsKeepClosed(WIPED, ops[0].path);
    assert AtLeast(c, c);
    assert CreatesAbsent(c, ops[1..]);
  }

  ghost predicate MovingState(env: Env, pid: Pid, s: Sess, d: nat, loads: bool) {
    && s.lpid == pid && Unhindered(env, pid, s, d) && ListOk(env, EditFrame(s, d).todo)
    && match EditFrame(s, d).progress
       case Ready => OnCourse(s.candidate, EditFrame(s, d).todo, loads)
       case Setting(p) =>
         p == EditFrame(s, d).todo[0].path && SetsWell(s.candidate, p, EditFrame(s, d).todo[1..], loads)
       case Substituting => false
  }

  lemma MovingAbove(env: Env, pid: Pid, s: Sess, a: Act, d: nat, loads: bool)
    requires Client(pid) && MovingState(env, pid, s, d, loads) && CanDo(s, a) && Fair(env, pid, s, a, d)
    requires (a.Served? || |s.frames| > d + 1) && (loads || Gentle(a))
    ensures MovingState(env, pid, Do(s, a), d, loads) && Attempt(s, a, d) == []
  {
    if Gentle(a) {
      IdleAct(env, pid, s, a, d);
    } else {
      LoadAbove(env, pid, s, a, d);
    }
    if |s.frames| == d + 1 {
      assert EditFrame(s, d) == s.frames[0];
    }
  }

  /** A load deletes the candidate, and will be refused anything else. */
  lemma LoadAbove(env: Env, pid: Pid, s: Sess, a: Act, d: nat)
    requires Client(pid) && s.lpid == pid && Unhindered(env, pid, s, d) && CanDo(s, a) && Fair(env, pid, s, a, d)
    requires !Gentle(a)
    ensures var s' := Do(s, a);
            && Unhindered(env, pid, s', d) && s'.lpid == pid && s'.candidate == WIPED
            && EditFrame(s', d) == EditFrame(s, d) && Attempt(s, a, d) == []
  {
    var s' := Do(s, a);
    DeleteRoot(s.candidate);
    forall i | 0 < i < |s'.frames| - d ensures s'.frames[i] == s.frames[i - 1] {
      MarkWipedAt(s.frames, i - 1);
      assert s'.frames[1..] == MarkWiped(s.frames);
      assert i - 1 == |s.frames| - d - 1 ==> s.frames[i - 1] == EditFrame(s, d);
    }
  }

  lemma MovingStep(env: Env, pid: Pid, s: Sess, running: Tree, go: bool, d: nat, loads: bool)
    requires !Stops(env) && !env.test.TestOnly?
    requires MovingState(env, pid, s, d, loads) && |s.frames| == d + 1 && CanDo(s, Stepped(running, go))
    requires Fair(env, pid, s, Stepped(running, go), d)
    ensures var s' := Do(s, Stepped(running, go));
            && |s'.frames| >= d && (|s'.frames| > d ==> MovingState(env, pid, s', d, loads))
            && AllOk(Attempt(s, Stepped(running, go), d))
  {
    var f := s.frames[0];
    var s' := Do(s, Stepped(running, go));
    assert EditFrame(s, d) == f;
    if f.todo != [] {
      var env' := env.(running := running);
      TailOk(env, f.todo);
      assert ListOk(env', f.todo);
      NextStaysOnCourse(env', s.candidate, f.todo, loads);
      assert EditFrame(s', d) == s'.frames[0];
    }
  }

  lemma MovingResume(env: Env, pid: Pid, s: Sess, ok: bool, subst: bool, d: nat, loads: bool)
    requires !Stops(env) && !env.test.TestOnly?
    requires MovingState(env, pid, s, d, loads) && |s.frames| == d + 1 && CanDo(s, Resumed(ok, subst))
    requires Fair(env, pid, s, Resumed(ok, subst), d)
    ensures var s' := Do(s, Resumed(ok, subst));
            && |s'.frames| >= d && (|s'.frames| > d ==> MovingState(env, pid, s', d, loads))
            && AllOk(Attempt(s, Resumed(ok, subst), d))
  {
    var f := s.frames[0];
    var s' := Do(s, Resumed(ok, subst));
    assert EditFrame(s, d) == f;
    TailOk(env, f.todo);
    assert f.todo[0] in f.todo;
    assert EditFrame(s', d) == s'.frames[0];
  }

  lemma {:induction false} MovingRun(env: Env, pid: Pid, s: Sess, acts: seq<Act>, d: nat, loads: bool)
    requires Client(pid) && !Stops(env) && !env.test.TestOnly?
    requires MovingState(env, pid, s, d, loads) && Completes(env, pid, s, acts, d)
    requires AllClosed(acts, loads)
    ensures AllOk(Result(env, pid, s, acts, d).tried)
    decreases |acts|
  {
    var a := acts[0];
    var s' := Do(s, a);
    assert a in acts && forall b :: b in acts[1..] ==> b in acts;
    if a.Served? || |s.frames| > d + 1 {
      MovingAbove(env, pid, s, a, d, loads);
    } else {
      assert EditFrame(s, d) == s.frames[0];
      match a
      case Stepped(running, go) => MovingStep(env, pid, s, running, go, d, loads);
      case Resumed(ok, subst) => MovingResume(env, pid, s, ok, subst, d, loads);
    }
    if |s'.frames| > d {
      MovingRun(env, pid, s', acts[1..], d, loads);
    } else {
      assert acts[1..] == [];
    }
    AllOkConcat(Attempt(s, a, d), Result(env, pid, s', acts[1..], d).tried);
  }

  // --- The condition is needed ---

  /** A running tree that has the node where that changes least, or makes a create fail. */
  function Chosen(c: Overlay, o: EditOp): Tree {
    if (o.op.Merge? || o.op.Create?) && o.path !in c.adds && !Masked(o.path, c.dels) then Prefixes(o.path) else {}
  }

  lemma ChosenIsClosed(c: Overlay, o: EditOp)
    ensures PrefixClosed(Chosen(c, o))
  {
  }

  /** With that running tree the operation fails, or does the least it can. */
  lemma ChosenDoesLeast(env: Env, c: Overlay, o: EditOp)
    requires env.running == Chosen(c, o) && Acceptable(env, o) && Closed(c) && !env.test.TestOnly?
    requires o.op.Create? ==> o.path !in c.adds
    ensures RobustOp(c, o) <==> Goes(env, c, o) && !(Begin(o, c, env.running, env.defaultNone) == Finished(c, false))
    ensures RobustOp(c, o) ==>
              match Begin(o, c, env.running, env.defaultNone)
              case Finished(c', ok) => ok && c' == Least(c, o)
              case Validating(c', p) => p == o.path && SetPath(c', p) == Least(c, o)
  {
    assert Covers(o.path, o.path);
  }

  ghost predicate Poised(env: Env, s: Sess, d: nat) {
    && AtWork(env, s, d) && s.frames[0].progress.Ready? && Sound(s.candidate)
    && ListOk(env, s.frames[0].todo) && CreatesAbsent(s.candidate, s.frames[0].todo)
  }

  lemma FailsAfter(env: Env, pid: Pid, s: Sess, a: Act, rest: seq<Act>, d: nat, loads: bool)
    requires |s.frames| > d && CanDo(s, a) && Fair(env, pid, s, a, d)
    requires (a.Stepped? ==> PrefixClosed(a.running)) && (loads || Gentle(a))
    requires Completes(env, pid, Do(s, a), rest, d) && AllClosed(rest, loads)
    ensures Completes(env, pid, s, [a] + rest, d) && AllClosed([a] + rest, loads)
    ensures !AllOk(Attempt(s, a, d)) || !AllOk(Result(env, pid, Do(s, a), rest, d).tried) ==>
              !AllOk(Result(env, pid, s, [a] + rest, d).tried)
  {
    assert ([a] + rest)[1..] == rest;
    AllOkConcat(Attempt(s, a, d), Result(env, pid, Do(s, a), rest, d).tried);
  }

  /** What the request does with the chosen running tree. */
  function ChosenAct(env: Env, s: Sess, d: nat): Act
    requires AtWork(env, s, d) && s.frames[0].todo != []
  {
    OwnAct(env.(running := Chosen(s.candidate, s.frames[0].todo[0])), s, d)
  }

  lemma ChosenActFollows(env: Env, pid: Pid, s: Sess, d: nat)
    requires AtWork(env, s, d) && s.frames[0].todo != [] && s.frames[0].progress.Ready?
    ensures var a := ChosenAct(env, s, d);
            && CanDo(s, a) && Fair(env, pid, s, a, d) && a.Stepped? && PrefixClosed(a.running)
            && (|Do(s, a).frames| == d || AtWork(env, Do(s, a), d))
  {
    var env' := env.(running := Chosen(s.candidate, s.frames[0].todo[0]));
    OwnActFollows(env', pid, s, d);
    ChosenIsClosed(s.candidate, s.frames[0].todo[0]);
    assert AtWork(env', s, d);
  }

  /** The operation at the head fails. */
  lemma FailsHere(env: Env, pid: Pid, s: Sess, d: nat, loads: bool) returns (acts: seq<Act>)
    requires TriesAll(env) && Poised(env, s, d) && s.frames[0].todo != [] && !RobustOp(s.candidate, s.frames[0].todo[0])
    ensures Completes(env, pid, s, acts, d) && AllClosed(acts, loads) && !AllOk(Result(env, pid, s, acts, d).tried)
  {
    var f := s.frames[0];
    var o := f.todo[0];
    var a := ChosenAct(env, s, d);
    var env' := env.(running := Chosen(s.candidate, o));
    TailOk(env, f.todo);
    ChosenActFollows(env, pid, s, d);
    ChosenDoesLeast(env', s.candidate, o);
    var t := Attempt(s, a, d);
    assert t == [Tried(o, false)];
    assert !t[0].ok;
    var more := Finishes(env, pid, Do(s, a), d);
    FailsAfter(env, pid, s, a, more, d, loads);
    acts := [a] + more;
  }

  /** The operation at the head does the least it can, and what is left is not robust. */
  lemma LeastStep(env: Env, pid: Pid, s: Sess, d: nat, loads: bool) returns (first: seq<Act>, s': Sess)
    requires TriesAll(env) && Poised(env, s, d) && s.frames[0].todo != [] && RobustOp(s.candidate, s.frames[0].todo[0])
    ensures s' == s.(candidate := Least(s.candidate, s.frames[0].todo[0]),
                     frames := [s.frames[0].(todo := s.frames[0].todo[1..], progress := Ready)] + s.frames[1..])
    ensures forall rest :: Completes(env, pid, s', rest, d) && AllClosed(rest, loads) ==>
              && Completes(env, pid, s, first + rest, d) && AllClosed(first + rest, loads)
              && (!AllOk(Result(env, pid, s', rest, d).tried) ==> !AllOk(Result(env, pid, s, first + rest, d).tried))
  {
    var f := s.frames[0];
    var o := f.todo[0];
    var a := ChosenAct(env, s, d);
    var env' := env.(running := Chosen(s.candidate, o));
    TailOk(env, f.todo);
    ChosenActFollows(env, pid, s, d);
    ChosenDoesLeast(env', s.candidate, o);
    var s1 := Do(s, a);
    if Begin(o, s.candidate, env'.running, env.defaultNone).Finished? {
      first, s' := [a], s1;
      forall rest | Completes(env, pid, s', rest, d) && AllClosed(rest, loads)
        ensures Completes(env, pid, s, first + rest, d) && AllClosed(first + rest, loads)
        ensures !AllOk(Result(env, pid, s', rest, d).tried) ==> !AllOk(Result(env, pid, s, first + rest, d).tried)
      {
        FailsAfter(env, pid, s, a, rest, d, loads);
      }
    } else {
      var b := Resumed(env.settable(o.path), false);
      OwnActFollows(env, pid, s1, d);
      first, s' := [a, b], Do(s1, b);
      forall rest | Completes(env, pid, s', rest, d) && AllClosed(rest, loads)
        ensures Completes(env, pid, s, first + rest, d) && AllClosed(first + rest, loads)
        ensures !AllOk(Result(env, pid, s', rest, d).tried) ==> !AllOk(Result(env, pid, s, first + rest, d).tried)
      {
        FailsAfter(env, pid, s1, b, rest, d, loads);
        FailsAfter(env, pid, s, a, [b] + rest, d, loads);
        assert [a] + ([b] + rest) == first + rest;
      }
    }
  }

  lemma LeastKeepsSound(env: Env, c: Overlay, ops: seq<EditOp>)
    requires Sound(c) && ListOk(env, ops) && ops != [] && CreatesAbsent(c, ops)
    ensures Sound(Least(c, ops[0])) && CreatesAbsent(Least(c, ops[0]), ops[1..])
  {
    EditsKeepSound(c, ops[0].path);
    EditsKeepSound(DeletePath(c, ops[0].path), ops[0].path);
    StillAbsent(env, c, ops);
  }

  /** With an empty running tree an operation that may wait and is robust does. */
  lemma WaitsOnNothing(env: Env, c: Overlay, o: EditOp)
    requires env.running == {} && MayWait(c, o) && RobustOp(c, o) && (o.op.Create? ==> o.path !in c.adds)
    requires Acceptable(env, o)
    ensures Goes(env, c, o) && Begin(o, c, {}, env.defaultNone).Validating?
    ensures Begin(o, c, {}, env.defaultNone).path == o.path
  {
    assert Covers(o.path, o.path);
  }

  /** The request comes to wait to set its first path. */
  function Awaiting(s: Sess): Sess
    requires s.frames != [] && s.frames[0].Edit? && s.frames[0].todo != []
  {
    var f := s.frames[0];
    s.(frames := [f.(todo := f.todo, progress := Setting(f.todo[0].path))] + s.frames[1..])
  }

  lemma ComesToWait(env: Env, pid: Pid, s: Sess, d: nat) returns (a: Act, s1: Sess)
    requires TriesAll(env) && Poised(env, s, d) && s.frames[0].todo != []
    requires MayWait(s.candidate, s.frames[0].todo[0]) && RobustOp(s.candidate, s.frames[0].todo[0])
    ensures CanDo(s, a) && Fair(env, pid, s, a, d) && a.Stepped? && PrefixClosed(a.running) && Do(s, a) == s1
    ensures AtWork(env, s1, d) && s1 == Awaiting(s).(candidate := s1.candidate)
  {
    var env' := env.(running := {});
    var todo := s.frames[0].todo;
    TailOk(env, todo);
    WaitsOnNothing(env', s.candidate, todo[0]);
    assert AtWork(env', s, d);
    OwnActFollows(env', pid, s, d);
    a := OwnAct(env', s, d);
    s1 := Do(s, a);
  }

  /** While it waits, another client's load deletes the candidate. */
  lemma Wiped(env: Env, pid: Pid, s: Sess, d: nat, other: Pid) returns (first: seq<Act>, s': Sess)
    requires TriesAll(env) && AtWork(env, s, d) && s.frames[0].progress.Setting? && ListOk(env, s.frames[0].todo)
    requires s.frames[0].progress.path == s.frames[0].todo[0].path && Client(other) && other != pid
    ensures AtWork(env, s', d) && s'.frames[0] == s.frames[0].(todo := s.frames[0].todo[1..], progress := Ready)
    ensures s'.candidate == SetPath(WIPED, s.frames[0].todo[0].path)
    ensures forall rest :: Completes(env, pid, s', rest, d) && AllClosed(rest, true) ==>
              && Completes(env, pid, s, first + rest, d) && AllClosed(first + rest, true)
              && (!AllOk(Result(env, pid, s', rest, d).tried) ==> !AllOk(Result(env, pid, s, first + rest, d).tried))
  {
    var z := s.frames[0].todo[0].path;
    var a, b, e := Served(LoadReq(other, true, []), {}, 0), Stepped({}, false), Resumed(true, false);
    TailOk(env, s.frames[0].todo);
    DeleteRoot(s.candidate);
    MarkWipedAt(s.frames, 0);
    var s1 := Do(s, a);
    assert s1.frames[1..] == MarkWiped(s.frames);
    var s2 := Do(s1, b);
    assert s2.frames == MarkWiped(s.frames) && s2.candidate == WIPED && s2.frames[0] == s.frames[0];
    s' := Do(s2, e);
    first := [a, b, e];
    forall rest | Completes(env, pid, s', rest, d) && AllClosed(rest, true)
      ensures Completes(env, pid, s, first + rest, d) && AllClosed(first + rest, true)
      ensures !AllOk(Result(env, pid, s', rest, d).tried) ==> !AllOk(Result(env, pid, s, first + rest, d).tried)
    {
      FailsAfter(env, pid, s2, e, rest, d, true);
      FailsAfter(env, pid, s1, b, [e] + rest, d, true);
      FailsAfter(env, pid, s, a, [b] + ([e] + rest), d, true);
      assert [a] + ([b] + ([e] + rest)) == first + rest;
    }
  }

  lemma PoisedAfterWipe(env: Env, s: Sess, s': Sess, d: nat)
    requires Poised(env, s, d) && s.frames[0].todo != [] && !Removes(s.frames[0].todo[0].op) && AtWork(env, s', d)
    requires s'.frames[0] == s.frames[0].(todo := s.frames[0].todo[1..], progress := Ready)
    requires s'.candidate == SetPath(WIPED, s.frames[0].todo[0].path)
    ensures Poised(env, s', d)
  {
    TailOk(env, s.frames[0].todo);
    WipedIsOnCourse(env, s.frames[0].todo);
    EditsKeepSound(WIPED, s.frames[0].todo[0].path);
  }

  /** A list that is not robust has a run in which an operation fails. */
  lemma {:induction false} LeaningFails(env: Env, pid: Pid, s: Sess, d: nat, loads: bool, other: Pid)
    returns (acts: seq<Act>)
    requires TriesAll(env) && Poised(env, s, d) && !Robust(s.candidate, s.frames[0].todo, loads)
    requires Client(other) && other != pid
    ensures Completes(env, pid, s, acts, d) && AllClosed(acts, loads) && !AllOk(Result(env, pid, s, acts, d).tried)
    decreases |s.frames[0].todo|
  {
    var todo := s.frames[0].todo;
    TailOk(env, todo);
    if !RobustOp(s.candidate, todo[0]) {
      acts := FailsHere(env, pid, s, d, loads);
    } else if !Robust(Least(s.candidate, todo[0]), todo[1..], loads) {
      var first, s' := LeastStep(env, pid, s, d, loads);
      LeastKeepsSound(env, s.candidate, todo);
      var rest := LeaningFails(env, pid, s', d, loads, other);
      acts := first + rest;
    } else {
      var a, s1 := ComesToWait(env, pid, s, d);
      var first, s' := Wiped(env, pid, s1, d, other);
      PoisedAfterWipe(env, s, s', d);
      var rest := LeaningFails(env, pid, s', d, loads, other);
      FailsAfter(env, pid, s, a, first + rest, d, loads);
      acts := [a] + (first + rest);
    }
  }

  // --- Exactly ---

  lemma TestsMeanAbsent(env: Env, c: Overlay, ops: seq<EditOp>)
    requires Prevalidated(env, c, ops)
    ensures CreatesAbsent(c, ops)
  {
    forall o | o in ops && o.op.Create? ensures o.path !in c.adds {
      var i :| 0 <= i < |ops| && ops[i] == o;
      assert Test(env, c, ops[i]);
    }
  }

  /** A client that holds the lock: no operation of its prevalidated request fails, over every run and
      wherever commits of other sessions move the running tree, if and only if each node to be
      deleted is the candidate's own by then, and each node to be created is hidden from running
      by a deletion; and, if loads may come, that is so whenever one has wiped the candidate in
      a wait. */
  lemma HolderNeverFailsMoving(env: Env, pid: Pid, s: Sess, ops: seq<EditOp>, loads: bool)
    requires TriesAll(env) && Client(pid) && s.lpid == pid && Sound(s.candidate)
    requires ListOk(env, ops) && Prevalidated(env, s.candidate, ops)
    ensures NeverFailsMoving(env, pid, s, ops, loads) <==> Robust(s.candidate, ops, loads)
  {
    var s1 := Started(env, s, ops);
    var d := |s.frames|;
    assert EditFrame(s1, d) == s1.frames[0];
    TestsMeanAbsent(env, s.candidate, ops);
    if Robust(s.candidate, ops, loads) {
      assert AtLeast(s.candidate, s.candidate);
      assert MovingState(env, pid, s1, d, loads);
      forall acts | Completes(env, pid, s1, acts, d) && AllClosed(acts, loads)
        ensures AllOk(Result(env, pid, s1, acts, d).tried)
      {
        MovingRun(env, pid, s1, acts, d, loads);
      }
    } else {
      var acts := LeaningFails(env, pid, s1, d, loads, if pid == 1 then 2 else 1);
    }
  }
}
