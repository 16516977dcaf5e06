/** Exactly when no operation of a prevalidated edit-config can fail, whatever other clients send
    while it waits. */
module Unfailing {
  import opened Config
  import opened EditOps
  import opened EditTree
  import opened Interrupted
  import opened Lock
  import opened Nested
  import opened Rollback
  import opened Session
  import opened Shape

  // --- What is asked of a request ---

  /** The options under which every operation is attempted. */
  ghost predicate TriesAll(env: Env) {
    !Stops(env) && !env.test.TestOnly? && PrefixClosed(env.running)
  }

  /** An operation that only its node's existence can make fail. */
  predicate Acceptable(env: Env, o: EditOp) {
    o.path != [] && env.known(o.path) && env.settable(o.path) && (o.op.NotSet? ==> env.defaultNone)
  }

  /** A recorded list: in order, and every path accepted by the schema. */
  ghost predicate ListOk(env: Env, ops: seq<EditOp>) {
    Ordered(ops) && forall o :: o in ops ==> Acceptable(env, o)
  }

  lemma TailOk(env: Env, ops: seq<EditOp>)
    requires ListOk(env, ops) && ops != []
    ensures ListOk(env, ops[1..]) && Acceptable(env, ops[0])
    ensures forall o :: o in ops[1..] ==> ops[0].path != o.path
    ensures Removes(ops[0].op) ==> forall o :: o in ops[1..] ==> !Covers(ops[0].path, o.path)
    ensures !Removes(ops[0].op) ==> forall o :: o in ops[1..] ==> !StrictlyBelow(ops[0].path, o.path) || Removes(o.op)
  {
    var rest := ops[1..];
    forall i, j | 0 <= i < |rest| && 0 <= j < |rest| && i != j
      ensures rest[i].path != rest[j].path
      ensures StrictlyBelow(rest[j].path, rest[i].path) ==> if Removes(rest[i].op) then j < i else i < j
    {
      assert rest[i] == ops[i + 1] && rest[j] == ops[j + 1];
    }
    forall o | o in rest
      ensures ops[0].path != o.path
      ensures Removes(ops[0].op) ==> !Covers(ops[0].path, o.path)
      ensures !StrictlyBelow(ops[0].path, o.path) || Removes(o.op)
    {
      var j :| 0 <= j < |rest| && rest[j] == o;
      assert o == ops[j + 1];
    }
  }

  // --- The condition ---

  /** After a set at z, during whose wait anything may have happened: no create follows, and the
      last set before each delete is below what is deleted. */
  predicate SafeAfter(z: Path, rest: seq<EditOp>)
    decreases |rest|
  {
    rest == [] ||
      match rest[0].op
      case Create => false
      case Delete => StrictlyBelow(z, rest[0].path) && SafeAfter(z, rest[1..])
      case Merge => SafeAfter(rest[0].path, rest[1..])
      case Replace => SafeAfter(rest[0].path, rest[1..])
      case _ => SafeAfter(z, rest[1..])
  }

  /** That, from the first operation on that waits. */
  predicate SafeList(env: Env, c: Overlay, ops: seq<EditOp>)
    decreases |ops|
  {
    ops == [] ||
      if NeedsWait(env, c, ops[0]) then SafeAfter(ops[0].path, ops[1..])
      else SafeList(env, Perform(env, c, ops[0]).candidate, ops[1..])
  }

  /** No run of the request has an operation fail; other clients may or may not send loads. */
  ghost predicate NeverFails(env: Env, pid: Pid, s: Sess, ops: seq<EditOp>, loads: bool) {
    forall acts :: Completes(env, pid, Started(env, s, ops), acts, |s.frames|) && AllSteady(env, acts, loads) ==>
                     AllOk(Result(env, pid, Started(env, s, ops), acts, |s.frames|).tried)
  }

  // --- The condition is enough ---

  /** What is still to be deleted above z is there. */
  ghost predicate Standing(env: Env, c: Overlay, z: Path, rest: seq<EditOp>) {
    forall o :: o in rest && o.op.Delete? && StrictlyBelow(z, o.path) ==> env.Has(c, o.path)
  }

  /** Before the first wait every test still passes; afterwards what the list deletes stands. */
  ghost predicate Going(env: Env, c: Overlay, todo: seq<EditOp>) {
    || (Prevalidated(env, c, todo) && SafeList(env, c, todo))
    || exists z :: SafeAfter(z, todo) && Standing(env, c, z, todo)
  }

  /** The request is under way, on top or waiting to set the path of its first operation. */
  ghost predicate UnderWay(env: Env, s: Sess, d: nat) {
    && |s.frames| > d && Sound(s.candidate)
    && EditFrame(s, d).Edit? && EditFrame(s, d).options == OptionsOf(env)
    && LockFrames(Bottom(s, d + 1)) == 0 && ListOk(env, EditFrame(s, d).todo)
    && match EditFrame(s, d).progress
       case Ready => |s.frames| == d + 1
       case Setting(p) => EditFrame(s, d).todo != [] && p == EditFrame(s, d).todo[0].path
       case Substituting => false
  }

  ghost predicate SafeState(env: Env, s: Sess, d: nat) {
    && UnderWay(env, s, d)
    && var f := EditFrame(s, d);
       if f.progress.Ready? then Going(env, s.candidate, f.todo) else SafeAfter(f.todo[0].path, f.todo[1..])
  }

  lemma DoKeepsSound(s: Sess, a: Act)
    requires CanDo(s, a) && Sound(s.candidate)
    ensures Sound(Do(s, a).candidate)
  {
    match a
    case Served(req, running, ticket) => ServeKeepsSound(s, req, running, ticket);
    case Stepped(running, go) => StepKeepsSound(s, running, go);
    case Resumed(ok, subst) => ResumeKeepsSound(s, ok, subst);
    case Delivered(_) =>
  }

  /** Whatever is done above the request, it stays where it is. */
  lemma ActAbove(env: Env, s: Sess, a: Act, d: nat)
    requires UnderWay(env, s, d) && CanDo(s, a) && (a.Served? || |s.frames| > d + 1)
    ensures UnderWay(env, Do(s, a), d) && EditFrame(Do(s, a), d) == EditFrame(s, d)
    ensures EditFrame(s, d).progress.Setting? && Attempt(s, a, d) == []
  {
    DoKeepsSound(s, a);
    DoKeepsBottom(s, a, d + 1);
    assert EditFrame(s, d) == Bottom(s, d + 1)[0];
    assert EditFrame(Do(s, a), d) == Bottom(Do(s, a), d + 1)[0];
  }

  /** Removing a node leaves the nodes of the rest of the list. */
  lemma RemovalSpares(env: Env, c: Overlay, ops: seq<EditOp>, o: EditOp)
    requires ListOk(env, ops) && ops != [] && Removes(ops[0].op) && o in ops[1..]
    ensures env.Has(DeletePath(c, ops[0].path), o.path) == env.Has(c, o.path)
  {
    TailOk(env, ops);
    ViewOfDelete(c, env.running, ops[0].path);
  }

  lemma RemovalKeepsTests(env: Env, c: Overlay, ops: seq<EditOp>)
    requires ListOk(env, ops) && ops != [] && Removes(ops[0].op)
    ensures Prevalidated(env, c, ops) ==> Prevalidated(env, DeletePath(c, ops[0].path), ops[1..])
    ensures forall z :: Standing(env, c, z, ops) ==> Standing(env, DeletePath(c, ops[0].path), z, ops[1..])
  {
    var c' := DeletePath(c, ops[0].path);
    forall o | o in ops[1..] ensures env.Has(c', o.path) == env.Has(c, o.path) {
      RemovalSpares(env, c, ops, o);
    }
    if Prevalidated(env, c, ops) {
      forall i | 0 <= i < |ops[1..]| ensures Test(env, c', ops[1..][i]) {
        assert Test(env, c, ops[i + 1]);
        assert ops[1..][i] in ops[1..];
      }
    }
  }

  lemma SetStands(env: Env, c: Overlay, z: Path, rest: seq<EditOp>)
    requires Closed(c) && PrefixClosed(env.running) && z != [] && env.Has(c, z)
    requires forall o :: o in rest ==> o.path != []
    ensures Standing(env, c, z, rest)
  {
    ViewIsClosed(c, env.running);
  }

  /** What comes of the next operation: it ends well, or it waits. */
  ghost predicate GoesWell(env: Env, c: Overlay, ops: seq<EditOp>)
    requires ops != []
  {
    && Goes(env, c, ops[0])
    && match Begin(ops[0], c, env.running, env.defaultNone)
       case Finished(c', ok) => ok && Going(env, c', ops[1..])
       case Validating(_, p) => p == ops[0].path && SafeAfter(p, ops[1..])
  }

  lemma StartGoesWell(env: Env, c: Overlay, ops: seq<EditOp>)
    requires TriesAll(env) && Sound(c) && ListOk(env, ops) && ops != []
    requires Prevalidated(env, c, ops) && SafeList(env, c, ops)
    ensures GoesWell(env, c, ops)
  {
    var o := ops[0];
    assert Test(env, c, ops[0]);
    TailOk(env, ops);
    BeginRefinesSet(env, c, o);
    forall i | 0 <= i < |ops[1..]| ensures Test(env, c, ops[1..][i]) {
      assert Test(env, c, ops[i + 1]);
    }
    if Removes(o.op) {
      RemovalKeepsTests(env, c, ops);
    }
  }

  lemma ThenGoesWell(env: Env, c: Overlay, ops: seq<EditOp>, z: Path)
    requires TriesAll(env) && Sound(c) && ListOk(env, ops) && ops != []
    requires SafeAfter(z, ops) && Standing(env, c, z, ops)
    ensures GoesWell(env, c, ops)
  {
    var o := ops[0];
    TailOk(env, ops);
    if Removes(o.op) {
      RemovalKeepsTests(env, c, ops);
      assert SafeAfter(z, ops[1..]);
      assert Standing(env, c, z, ops[1..]);
      assert Standing(env, DeletePath(c, o.path), z, ops[1..]);
    } else if o.op.Merge? && env.Has(c, o.path) {
      SetStands(env, c, o.path, ops[1..]);
    } else if o.op.NotSet? {
      assert Standing(env, c, z, ops[1..]);
    }
    if o.op.Replace? {
      ViewOfDelete(c, env.running, o.path);
    }
  }

  lemma NextGoesWell(env: Env, c: Overlay, ops: seq<EditOp>)
    requires TriesAll(env) && Sound(c) && ListOk(env, ops) && ops != [] && Going(env, c, ops)
    ensures GoesWell(env, c, ops)
  {
    if Prevalidated(env, c, ops) && SafeList(env, c, ops) {
      StartGoesWell(env, c, ops);
    } else {
      var z :| SafeAfter(z, ops) && Standing(env, c, z, ops);
      ThenGoesWell(env, c, ops, z);
    }
  }

  /** An act of the request itself leaves it under way, or ends it. */
  lemma OwnActKeepsUnderWay(env: Env, s: Sess, a: Act, d: nat)
    requires UnderWay(env, s, d) && |s.frames| == d + 1 && CanDo(s, a) && (a.Stepped? || a.Resumed?)
    requires a.Resumed? ==> !(a.ok && a.subst)
    ensures var s' := Do(s, a);
            && d <= |s'.frames| <= d + 1
            && (|s'.frames| > d ==> UnderWay(env, s', d) && EditFrame(s', d) == s'.frames[0])
  {
    var s' := Do(s, a);
    assert EditFrame(s, d) == s.frames[0];
    DoKeepsSound(s, a);
    if |s'.frames| > d {
      TailOk(env, s.frames[0].todo);
      assert s'.frames[1..] == s.frames[1..];
      assert Bottom(s', d + 1) == s'.frames && Bottom(s, d + 1) == s.frames;
      assert EditFrame(s', d) == s'.frames[0];
    }
  }

  lemma StepGoesWell(env: Env, pid: Pid, s: Sess, running: Tree, go: bool, d: nat)
    requires TriesAll(env) && SafeState(env, s, d) && |s.frames| == d + 1 && CanDo(s, Stepped(running, go))
    requires Fair(env, pid, s, Stepped(running, go), d) && running == env.running
    ensures var s' := Do(s, Stepped(running, go));
            && |s'.frames| >= d && (|s'.frames| > d ==> SafeState(env, s', d))
            && AllOk(Attempt(s, Stepped(running, go), d))
  {
    var f := s.frames[0];
    var s' := Do(s, Stepped(running, go));
    assert EditFrame(s, d) == f;
    OwnActKeepsUnderWay(env, s, Stepped(running, go), d);
    if f.todo != [] {
      NextGoesWell(env, s.candidate, f.todo);
    }
  }

  lemma ResumeGoesWell(env: Env, pid: Pid, s: Sess, ok: bool, subst: bool, d: nat)
    requires TriesAll(env) && SafeState(env, s, d) && |s.frames| == d + 1 && CanDo(s, Resumed(ok, subst))
    requires Fair(env, pid, s, Resumed(ok, subst), d)
    ensures var s' := Do(s, Resumed(ok, subst));
            && |s'.frames| >= d && (|s'.frames| > d ==> SafeState(env, s', d))
            && AllOk(Attempt(s, Resumed(ok, subst), d))
  {
    var f := s.frames[0];
    var s' := Do(s, Resumed(ok, subst));
    assert EditFrame(s, d) == f;
    OwnActKeepsUnderWay(env, s, Resumed(ok, subst), d);
    DoKeepsSound(s, Resumed(ok, subst));
    TailOk(env, f.todo);
    assert f.todo[0] in f.todo;
    var p := f.progress.path;
    assert s'.candidate == SetPath(s.candidate, p);
    assert Covers(p, p) && env.Has(s'.candidate, p);
    SetStands(env, s'.candidate, p, f.todo[1..]);
    assert Going(env, s'.candidate, f.todo[1..]);
  }

  lemma ActGoesWell(env: Env, pid: Pid, s: Sess, a: Act, d: nat)
    requires TriesAll(env) && SafeState(env, s, d) && CanDo(s, a) && Fair(env, pid, s, a, d) && Steady(env, a)
    ensures var s' := Do(s, a);
            |s'.frames| >= d && (|s'.frames| > d ==> SafeState(env, s', d)) && AllOk(Attempt(s, a, d))
  {
    if a.Served? || |s.frames| > d + 1 {
      ActAbove(env, s, a, d);
    } else {
      assert EditFrame(s, d) == s.frames[0];
      match a
      case Stepped(running, go) => StepGoesWell(env, pid, s, running, go, d);
      case Resumed(ok, subst) => ResumeGoesWell(env, pid, s, ok, subst, d);
    }
  }

  lemma AllOkConcat(a: seq<Tried>, b: seq<Tried>)
    ensures AllOk(a + b) <==> AllOk(a) && AllOk(b)
  {
    if AllOk(a + b) {
      forall i | 0 <= i < |a| ensures a[i].ok { assert (a + b)[i].ok; }
      forall i | 0 <= i < |b| ensures b[i].ok { assert (a + b)[|a| + i].ok; }
    }
  }

  lemma {:induction false} RunGoesWell(env: Env, pid: Pid, s: Sess, acts: seq<Act>, d: nat)
    requires TriesAll(env) && SafeState(env, s, d) && Completes(env, pid, s, acts, d) && AllSteady(env, acts, true)
    ensures AllOk(Result(env, pid, s, acts, d).tried)
    decreases |acts|
  {
    var s' := Do(s, acts[0]);
    assert acts[0] in acts && forall a :: a in acts[1..] ==> a in acts;
    ActGoesWell(env, pid, s, acts[0], d);
    if |s'.frames| > d {
      RunGoesWell(env, pid, s', acts[1..], d);
    } else {
      assert acts[1..] == [];
    }
    AllOkConcat(Attempt(s, acts[0], d), Result(env, pid, s', acts[1..], d).tried);
  }

  // --- The condition is needed ---

  /** How many operations come before the next set, or before a delete that z does not help. */
  function Ahead(z: Path, rest: seq<EditOp>): (n: nat)
    ensures n <= |rest|
    decreases |rest|
  {
    if rest == [] then 0
    else
      match rest[0].op
      case Delete => if StrictlyBelow(z, rest[0].path) then 1 + Ahead(z, rest[1..]) else 0
      case Remove => 1 + Ahead(z, rest[1..])
      case NotSet => 1 + Ahead(z, rest[1..])
      case _ => 0
  }

  /** The operation there. */
  function Next(z: Path, rest: seq<EditOp>): EditOp
    requires Ahead(z, rest) < |rest|
  {
    rest[Ahead(z, rest)]
  }

  lemma {:induction false} UnsafeHasNext(z: Path, rest: seq<EditOp>)
    requires !SafeAfter(z, rest)
    ensures Ahead(z, rest) < |rest|
    decreases |rest|
  {
    if Ahead(z, rest) > 0 {
      UnsafeHasNext(z, rest[1..]);
    }
  }

  /** What another client has prepared: a node to be created is there, any other is not. */
  ghost predicate Prepared(env: Env, c: Overlay, z: Path, rest: seq<EditOp>)
    requires Ahead(z, rest) < |rest|
  {
    env.Has(c, Next(z, rest).path) == Next(z, rest).op.Create?
  }

  /** The request is at work on its own, in a session nobody has locked. */
  ghost predicate Exposed(env: Env, s: Sess, d: nat) {
    AtWork(env, s, d) && s.lpid == FREE && Sound(s.candidate) && ListOk(env, s.frames[0].todo)
  }

  /** A run that fails an operation goes on failing. */
  lemma FailsLater(env: Env, pid: Pid, s: Sess, a: Act, rest: seq<Act>, d: nat)
    requires |s.frames| > d && CanDo(s, a) && Fair(env, pid, s, a, d) && Steady(env, a)
    requires Completes(env, pid, Do(s, a), rest, d) && AllSteady(env, rest, true)
    ensures Completes(env, pid, s, [a] + rest, d) && AllSteady(env, [a] + rest, true)
    ensures !AllOk(Attempt(s, a, d)) || !AllOk(Result(env, pid, Do(s, a), rest, d).tried) ==>
              !AllOk(Result(env, pid, s, [a] + rest, d).tried)
  {
    assert ([a] + rest)[1..] == rest;
    AllOkConcat(Attempt(s, a, d), Result(env, pid, Do(s, a), rest, d).tried);
  }

  /** Whatever completes the request from s' on, and fails an operation, does so after these acts. */
  ghost predicate LeadsTo(env: Env, pid: Pid, s: Sess, acts: seq<Act>, s': Sess, d: nat) {
    forall rest :: Completes(env, pid, s', rest, d) && AllSteady(env, rest, true) ==>
      && Completes(env, pid, s, acts + rest, d) && AllSteady(env, acts + rest, true)
      && (!AllOk(Result(env, pid, s', rest, d).tried) ==> !AllOk(Result(env, pid, s, acts + rest, d).tried))
  }

  lemma LeadsBy(env: Env, pid: Pid, s: Sess, a: Act, acts: seq<Act>, s': Sess, d: nat)
    requires |s.frames| > d && CanDo(s, a) && Fair(env, pid, s, a, d) && Steady(env, a)
    requires LeadsTo(env, pid, Do(s, a), acts, s', d)
    ensures LeadsTo(env, pid, s, [a] + acts, s', d)
  {
    forall rest | Completes(env, pid, s', rest, d) && AllSteady(env, rest, true)
      ensures Completes(env, pid, s, [a] + acts + rest, d) && AllSteady(env, [a] + acts + rest, true)
      ensures !AllOk(Result(env, pid, s', rest, d).tried) ==> !AllOk(Result(env, pid, s, [a] + acts + rest, d).tried)
    {
      FailsLater(env, pid, s, a, acts + rest, d);
      assert [a] + (acts + rest) == [a] + acts + rest;
    }
  }

  lemma LeadsNowhere(env: Env, pid: Pid, s: Sess, d: nat)
    ensures LeadsTo(env, pid, s, [], s, d)
  {
    forall rest: seq<Act> ensures [] + rest == rest {
    }
  }

  /** Another client makes a node be there, or not, while the request waits. */
  lemma Prepare(env: Env, pid: Pid, s: Sess, d: nat, other: Pid, q: Path, there: bool)
    returns (acts: seq<Act>, c: Overlay)
    requires Exposed(env, s, d) && s.frames[0].progress.Setting?
    requires Client(other) && other != pid && q != [] && (there ==> env.settable(q))
    ensures Sound(c) && env.Has(c, q) == there && LeadsTo(env, pid, s, acts, s.(candidate := c), d)
  {
    EditsKeepSound(s.candidate, q);
    assert Covers(q, q);
    if env.Has(s.candidate, q) == there {
      acts, c := [], s.candidate;
      LeadsNowhere(env, pid, s, d);
      assert s.(candidate := c) == s;
    } else if there {
      c := SetPath(s.candidate, q);
      acts := SetSlipsIn(env, pid, s, d, other, q);
    } else {
      c := DeletePath(s.candidate, q);
      acts := DeleteSlipsIn(env, pid, s, d, other, q);
      ViewOfDelete(s.candidate, env.running, q);
    }
  }

  lemma SetSlipsIn(env: Env, pid: Pid, s: Sess, d: nat, other: Pid, q: Path) returns (acts: seq<Act>)
    requires Exposed(env, s, d) && s.frames[0].progress.Setting? && Client(other) && other != pid && env.settable(q)
    ensures LeadsTo(env, pid, s, acts, s.(candidate := SetPath(s.candidate, q)), d)
  {
    var s' := s.(candidate := SetPath(s.candidate, q));
    var a, b := Served(SetReq(other, q), env.running, 0), Resumed(true, false);
    var s1 := Do(s, a);
    assert s1.frames[0] == SetWait(other, q) && s1.frames[1..] == s.frames;
    assert Do(s1, b) == s';
    LeadsNowhere(env, pid, s', d);
    LeadsBy(env, pid, s1, b, [], s', d);
    LeadsBy(env, pid, s, a, [b] + [], s', d);
    acts := [a] + ([b] + []);
  }

  lemma DeleteSlipsIn(env: Env, pid: Pid, s: Sess, d: nat, other: Pid, q: Path) returns (acts: seq<Act>)
    requires Exposed(env, s, d) && s.frames[0].progress.Setting? && Client(other) && other != pid
    requires env.Has(s.candidate, q)
    ensures LeadsTo(env, pid, s, acts, s.(candidate := DeletePath(s.candidate, q)), d)
  {
    var s' := s.(candidate := DeletePath(s.candidate, q));
    var a := Served(DelReq(other, q), env.running, 0);
    assert Do(s, a) == s';
    LeadsNowhere(env, pid, s', d);
    LeadsBy(env, pid, s, a, [], s', d);
    acts := [a] + [];
  }

  /** While the request waits to set z, another client prepares for what comes next. */
  lemma FailsWaiting(env: Env, pid: Pid, s: Sess, d: nat, other: Pid) returns (acts: seq<Act>)
    requires TriesAll(env) && Exposed(env, s, d) && s.frames[0].progress.Setting? && Client(other) && other != pid
    requires var f := s.frames[0];
             && f.progress.path == f.todo[0].path && !Removes(f.todo[0].op)
             && !SafeAfter(f.todo[0].path, f.todo[1..])
    ensures Completes(env, pid, s, acts, d) && AllSteady(env, acts, true)
    ensures !AllOk(Result(env, pid, s, acts, d).tried)
    decreases |s.frames[0].todo|, 0
  {
    var f := s.frames[0];
    var z, rest := f.todo[0].path, f.todo[1..];
    UnsafeHasNext(z, rest);
    TailOk(env, f.todo);
    var next := Next(z, rest);
    assert next in rest;
    var first, c := Prepare(env, pid, s, d, other, next.path, next.op.Create?);
    var s1 := s.(candidate := c);
    var a := Resumed(env.settable(z), false);
    OwnActFollows(env, pid, s1, d);
    assert f.todo[0] in f.todo;
    var s2 := Do(s1, a);
    StaysPrepared(env, c, f.todo);
    EditsKeepSound(c, z);
    var more := FailsAhead(env, pid, s2, d, other, z);
    FailsLater(env, pid, s1, a, more, d);
    acts := first + ([a] + more);
  }

  /** Setting z leaves what has been prepared: it creates nothing that the next operation wants to
      be gone. */
  lemma StaysPrepared(env: Env, c: Overlay, todo: seq<EditOp>)
    requires ListOk(env, todo) && todo != [] && !Removes(todo[0].op)
    requires Ahead(todo[0].path, todo[1..]) < |todo[1..]| && Prepared(env, c, todo[0].path, todo[1..])
    ensures Prepared(env, SetPath(c, todo[0].path), todo[0].path, todo[1..])
  {
    var z, rest := todo[0].path, todo[1..];
    TailOk(env, todo);
    NextIsNotAbove(z, rest);
    ViewOfSet(c, env.running, z);
    assert Next(z, rest) in rest;
  }

  lemma {:induction false} NextIsNotAbove(z: Path, rest: seq<EditOp>)
    requires Ahead(z, rest) < |rest|
    ensures Next(z, rest).op.Delete? ==> !StrictlyBelow(z, Next(z, rest).path)
    ensures !Next(z, rest).op.Remove? && !Next(z, rest).op.NotSet?
    decreases |rest|
  {
    if Ahead(z, rest) > 0 {
      NextIsNotAbove(z, rest[1..]);
    }
  }

  /** The operations ahead of the prepared one only remove; then it comes, and fails or waits. */
  lemma FailsAhead(env: Env, pid: Pid, s: Sess, d: nat, other: Pid, z: Path) returns (acts: seq<Act>)
    requires TriesAll(env) && Exposed(env, s, d) && s.frames[0].progress.Ready? && Client(other) && other != pid
    requires !SafeAfter(z, s.frames[0].todo) && Ahead(z, s.frames[0].todo) < |s.frames[0].todo|
    requires Prepared(env, s.candidate, z, s.frames[0].todo)
    ensures Completes(env, pid, s, acts, d) && AllSteady(env, acts, true)
    ensures !AllOk(Result(env, pid, s, acts, d).tried)
    decreases |s.frames[0].todo|, 1
  {
    var f := s.frames[0];
    var o, rest := f.todo[0], f.todo[1..];
    var a := OwnAct(env, s, d);
    var s' := Do(s, a);
    OwnActFollows(env, pid, s, d);
    DoKeepsSound(s, a);
    TailOk(env, f.todo);
    if Ahead(z, f.todo) > 0 {
      OneLessAhead(env, pid, s, d, z);
      var more := FailsAhead(env, pid, s', d, other, z);
      FailsLater(env, pid, s, a, more, d);
      acts := [a] + more;
    } else if o.op.Create? || o.op.Delete? {
      acts := FailsNow(env, pid, s, d);
    } else {
      NextIsNotAbove(z, f.todo);
      var more := FailsWaiting(env, pid, s', d, other);
      FailsLater(env, pid, s, a, more, d);
      acts := [a] + more;
    }
  }

  /** A create whose node is there, or a delete whose node is not. */
  lemma FailsNow(env: Env, pid: Pid, s: Sess, d: nat) returns (acts: seq<Act>)
    requires TriesAll(env) && AtWork(env, s, d) && s.frames[0].progress.Ready? && s.frames[0].todo != []
    requires var o := s.frames[0].todo[0];
             (o.op.Create? && env.Has(s.candidate, o.path)) || (o.op.Delete? && !env.Has(s.candidate, o.path))
    ensures Completes(env, pid, s, acts, d) && AllSteady(env, acts, true)
    ensures !AllOk(Result(env, pid, s, acts, d).tried)
  {
    var o := s.frames[0].todo[0];
    var a := OwnAct(env, s, d);
    OwnActFollows(env, pid, s, d);
    var t := Attempt(s, a, d);
    assert t == [Tried(o, false)];
    assert !t[0].ok;
    var more := Finishes(env, pid, Do(s, a), d);
    FailsLater(env, pid, s, a, more, d);
    acts := [a] + more;
  }

  /** An operation ahead is done. */
  lemma OneLessAhead(env: Env, pid: Pid, s: Sess, d: nat, z: Path)
    requires TriesAll(env) && AtWork(env, s, d) && s.frames[0].progress.Ready? && ListOk(env, s.frames[0].todo)
    requires 0 < Ahead(z, s.frames[0].todo) < |s.frames[0].todo|
    requires Prepared(env, s.candidate, z, s.frames[0].todo)
    ensures var a := OwnAct(env, s, d); var todo := s.frames[0].todo;
            && CanDo(s, a) && AtWork(env, Do(s, a), d) && Do(s, a).frames[0].progress.Ready?
            && Do(s, a).frames[0].todo == todo[1..]
            && Ahead(z, todo[1..]) == Ahead(z, todo) - 1 && Prepared(env, Do(s, a).candidate, z, todo[1..])
  {
    OwnActFollows(env, pid, s, d);
    AheadStaysPrepared(env, s.candidate, z, s.frames[0].todo);
  }

  lemma AheadStaysPrepared(env: Env, c: Overlay, z: Path, todo: seq<EditOp>)
    requires ListOk(env, todo) && todo != [] && 0 < Ahead(z, todo) < |todo| && Prepared(env, c, z, todo)
    ensures Ahead(z, todo[1..]) == Ahead(z, todo) - 1 && Next(z, todo[1..]) == Next(z, todo)
    ensures Prepared(env, c, z, todo[1..])
    ensures Removes(todo[0].op) ==> Prepared(env, DeletePath(c, todo[0].path), z, todo[1..])
  {
    assert Next(z, todo) in todo[1..];
    if Removes(todo[0].op) {
      RemovalSpares(env, c, todo, Next(z, todo));
    }
  }

  /** From the start, until the first operation waits. */
  lemma FailsFromStart(env: Env, pid: Pid, s: Sess, d: nat, other: Pid) returns (acts: seq<Act>)
    requires TriesAll(env) && Exposed(env, s, d) && s.frames[0].progress.Ready? && Client(other) && other != pid
    requires Prevalidated(env, s.candidate, s.frames[0].todo) && !SafeList(env, s.candidate, s.frames[0].todo)
    ensures Completes(env, pid, s, acts, d) && AllSteady(env, acts, true)
    ensures !AllOk(Result(env, pid, s, acts, d).tried)
    decreases |s.frames[0].todo|
  {
    var f := s.frames[0];
    var a := OwnAct(env, s, d);
    var s' := Do(s, a);
    OwnActFollows(env, pid, s, d);
    DoKeepsSound(s, a);
    TailOk(env, f.todo);
    assert Test(env, s.candidate, f.todo[0]);
    BeginRefinesSet(env, s.candidate, f.todo[0]);
    var more: seq<Act>;
    if NeedsWait(env, s.candidate, f.todo[0]) {
      more := FailsWaiting(env, pid, s', d, other);
    } else {
      NonWaitingKeepsTests(env, s.candidate, f.todo);
      more := FailsFromStart(env, pid, s', d, other);
    }
    FailsLater(env, pid, s, a, more, d);
    acts := [a] + more;
  }

  lemma NonWaitingKeepsTests(env: Env, c: Overlay, todo: seq<EditOp>)
    requires TriesAll(env) && ListOk(env, todo) && todo != [] && Prevalidated(env, c, todo)
    requires !NeedsWait(env, c, todo[0])
    ensures Prevalidated(env, Perform(env, c, todo[0]).candidate, todo[1..])
  {
    assert Test(env, c, todo[0]);
    BeginRefinesSet(env, c, todo[0]);
    forall i | 0 <= i < |todo[1..]| ensures Test(env, c, todo[1..][i]) {
      assert Test(env, c, todo[i + 1]);
    }
    if Removes(todo[0].op) {
      RemovalKeepsTests(env, c, todo);
    }
  }

  // --- Exactly ---

  lemma StartIsUnderWay(env: Env, s: Sess, ops: seq<EditOp>)
    requires Valid(s) && s.lpid == FREE && Sound(s.candidate) && ListOk(env, ops)
    ensures var s1 := Started(env, s, ops); UnderWay(env, s1, |s.frames|) && EditFrame(s1, |s.frames|) == s1.frames[0]
  {
    var s1 := Started(env, s, ops);
    var d := |s.frames|;
    assert EditFrame(s1, d) == s1.frames[0];
    assert Bottom(s1, d + 1) == s1.frames && s1.frames[1..] == s.frames;
  }

  lemma SafeNeverFails(env: Env, pid: Pid, s: Sess, ops: seq<EditOp>)
    requires TriesAll(env) && SafeState(env, Started(env, s, ops), |s.frames|)
    ensures NeverFails(env, pid, s, ops, true)
  {
    var s1 := Started(env, s, ops);
    forall acts | Completes(env, pid, s1, acts, |s.frames|) && AllSteady(env, acts, true)
      ensures AllOk(Result(env, pid, s1, acts, |s.frames|).tried)
    {
      RunGoesWell(env, pid, s1, acts, |s.frames|);
    }
  }

  /** In a session that nobody has locked no operation of a prevalidated request fails, over every
      run, if and only if from the first operation on that waits no create follows, and each
      delete follows a set below it as the last set. */
  lemma FreeNeverFails(env: Env, pid: Pid, s: Sess, ops: seq<EditOp>)
    requires TriesAll(env) && Client(pid) && Valid(s) && Receptive(s) && s.lpid == FREE && Sound(s.candidate)
    requires ListOk(env, ops) && Prevalidated(env, s.candidate, ops)
    ensures NeverFails(env, pid, s, ops, true) <==> SafeList(env, s.candidate, ops)
  {
    if SafeList(env, s.candidate, ops) {
      StartIsUnderWay(env, s, ops);
      assert Going(env, s.candidate, ops);
      SafeNeverFails(env, pid, s, ops);
    } else {
      var acts := FailsFromStart(env, pid, Started(env, s, ops), |s.frames|, if pid == 1 then 2 else 1);
    }
  }

  /** A prevalidated list, uninterrupted. */
  lemma PrevalidationOfList(env: Env, c: Overlay, ops: seq<EditOp>)
    requires TriesAll(env) && Closed(c) && ListOk(env, ops) && Prevalidated(env, c, ops)
    ensures AllSucceed(env, c, ops) <==> !HiddenDelete(ops)
  {
    forall i | 0 <= i < |ops|
      ensures ops[i].path != []
      ensures Harmless(env, c, ops, i)
         <==> !(ops[i].op.Delete? && ReplacedAbove(ops, ops[i].path) && !SetBelow(ops, ops[i].path))
    {
      assert ops[i] in ops;
      if ops[i].op.Delete? {
        DeleteIsHarmless(env, c, ops, i);
      } else if ops[i].op.Create? {
        CreateIsHarmless(env, c, ops, i);
      }
    }
    PrevalidationIsExact(env, c, ops);
  }

  /** A client that holds the lock, unless a load deletes the candidate under it: if and only if no
      delete is hidden by a replace. */
  lemma HolderNeverFails(env: Env, pid: Pid, s: Sess, ops: seq<EditOp>)
    requires TriesAll(env) && Client(pid) && s.lpid == pid && Sound(s.candidate)
    requires ListOk(env, ops) && Prevalidated(env, s.candidate, ops)
    ensures NeverFails(env, pid, s, ops, false) <==> !HiddenDelete(ops)
  {
    var s1 := Started(env, s, ops);
    var d := |s.frames|;
    PrevalidationOfList(env, s.candidate, ops);
    AllOkMeansAllSucceed(env, s.candidate, ops);
    forall acts | Completes(env, pid, s1, acts, d) && AllSteady(env, acts, false)
      ensures Result(env, pid, s1, acts, d) == Alone(env, s.candidate, ops)
    {
      GuardedRun(env, pid, s, ops, acts);
    }
    var acts := Finishes(env, pid, s1, d);
    assert Completes(env, pid, s1, acts, d);
  }

  /** What an edit tree that names each data node once is flattened to is such a list. */
  lemma RecordedListIsOk(env: Env, sch: EditTree.Schema, kids: seq<EditNode>, op: Operation, c: Overlay)
    requires SameValidity(env) && (op.NotSet? ==> env.defaultNone)
    requires FlattenAll(sch, kids, op, []).Flat? && NamesOnce(sch, kids, op, [])
    requires Prevalidated(env, c, FlattenAll(sch, kids, op, []).ops)
    ensures ListOk(env, FlattenAll(sch, kids, op, []).ops)
  {
    var ops := FlattenAll(sch, kids, op, []).ops;
    FlatteningIsOrdered(sch, kids, op, []);
    forall o | o in ops ensures Acceptable(env, o) {
      var i :| 0 <= i < |ops| && ops[i] == o;
      assert Test(env, c, ops[i]);
      RecordsExtend(sch, kids, op, [], o);
      UnsetNeedsDefault(sch, kids, op, [], o);
    }
  }
}
