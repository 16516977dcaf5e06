/** Runs of the whole system that show what can go wrong. */
module Scenarios {
  import opened Config
  import opened Effects
  import opened Lock
  import opened Session
  import opened World
  import Interrupted
  import Nested

  // --- A commit from its request to its store ---

  lemma {:induction false} RunConcat(w: World, a: seq<Event>, b: seq<Event>)
    requires IsRun(w, a) && IsRun(RunOf(w, a), b)
    ensures IsRun(w, a + b) && RunOf(w, a + b) == RunOf(RunOf(w, a), b)
    decreases |a|
  {
    if a == [] {
      assert a + b == b;
    } else {
      assert (a + b)[0] == a[0] && (a + b)[1..] == a[1..] + b;
      RunConcat(Next(w, a[0]), a[1..], b);
    }
  }

  lemma RunOne(w: World, e: Event)
    requires Can(w, e)
    ensures IsRun(w, [e]) && RunOf(w, [e]) == Next(w, e)
  {
    assert [e][1..] == [];
    assert IsRun(Next(w, e), []) && RunOf(Next(w, e), []) == Next(w, e);
  }

  lemma RunMore(w: World, a: seq<Event>, e: Event)
    requires IsRun(w, a) && Can(RunOf(w, a), e)
    ensures IsRun(w, a + [e]) && RunOf(w, a + [e]) == Next(RunOf(w, a), e)
  {
    RunOne(RunOf(w, a), e);
    RunConcat(w, a, [e]);
  }

  /** Every session is as it was, but for EFFECTIVE and one more. */
  ghost predicate OthersKept(w: World, w': World, sid: string) {
    && sid in w'.sessions && EFFECTIVE in w'.sessions
    && forall k :: k in w.sessions && k != sid && k != EFFECTIVE ==> k in w'.sessions && w'.sessions[k] == w.sessions[k]
  }

  /** The session can commit, and the effective session answers. */
  ghost predicate CommitIsReady(w: World, sid: string) {
    && sid in w.sessions && sid != EFFECTIVE && w.job.None? && w.next !in w.tickets
    && w.sessions[sid].lpid == FREE && w.sessions[sid].frames == []
    && View(w.sessions[sid].candidate, w.running) != w.running
    && EFFECTIVE in w.sessions && Effective(w).lpid == SYSTEM && Effective(w).frames == []
  }

  /** The commit of the session is under way, has read its candidate and done some effects. */
  ghost predicate CommitWorks(w: World, w': World, sid: string, done: seq<Effect>) {
    && sid in w.sessions && EFFECTIVE in w.sessions && OthersKept(w, w', sid) && w'.running == w.running
    && w'.log == w.log
    && w'.job == Some(Job(w.next, Working(w.running, w.sessions[sid].candidate, done)))
    && EFFECTIVE in w'.sessions && Effective(w').lpid == SYSTEM && Effective(w').frames == []
    && View(Effective(w').candidate, w.running) == Replay(done, View(Effective(w).candidate, w.running))
  }

  lemma StartCommit(w: World, sid: string, pid: Pid) returns (events: seq<Event>)
    requires CommitIsReady(w, sid) && Client(pid)
    ensures IsRun(w, events) && CommitWorks(w, RunOf(w, events), sid, [])
  {
    var req := CommitReq(pid, false);
    var w1 := ArriveAt(w, sid, req);
    assert LetsCommit(w, sid, req);
    assert w1.sessions[sid].candidate == w.sessions[sid].candidate;
    var w2 := TakeTicket(w1, w.next);
    events := [];
    RunMore(w, events, Arrive(sid, req));
    RunMore(w, events + [Arrive(sid, req)], Take(w.next));
    RunMore(w, events + [Arrive(sid, req)] + [Take(w.next)], JobBegin);
    events := events + [Arrive(sid, req)] + [Take(w.next)] + [JobBegin];
  }

  lemma {:induction false} WorkOn(w: World, w1: World, sid: string, done: seq<Effect>, effects: seq<Effect>)
    returns (events: seq<Event>)
    requires CommitWorks(w, w1, sid, done)
    ensures IsRun(w1, events) && CommitWorks(w, RunOf(w1, events), sid, done + effects)
    decreases |effects|
  {
    if effects == [] {
      events := [];
      assert done + effects == done;
    } else {
      var n := |effects| - 1;
      events := WorkOn(w, w1, sid, done, effects[..n]);
      var w2 := RunOf(w1, events);
      OneEffect(w, w2, sid, done + effects[..n], effects[n]);
      RunMore(w1, events, JobApply(effects[n]));
      events := events + [JobApply(effects[n])];
      assert done + effects[..n] + [effects[n]] == done + effects;
    }
  }

  lemma OneEffect(w: World, w1: World, sid: string, done: seq<Effect>, e: Effect)
    requires CommitWorks(w, w1, sid, done)
    ensures Can(w1, JobApply(e)) && CommitWorks(w, ApplyJob(w1, e), sid, done + [e])
  {
    EffectOnView(e, Effective(w1).candidate, w.running);
    assert (done + [e])[..|done|] == done;
  }

  lemma EndCommit(w: World, w1: World, sid: string, done: seq<Effect>) returns (events: seq<Event>)
    requires CommitWorks(w, w1, sid, done)
    ensures IsRun(w1, events)
    ensures var w' := RunOf(w1, events);
            && OthersKept(w, w', sid) && w'.running == Replay(done, View(Effective(w).candidate, w.running))
            && |w'.log| == |w.log| + 1
            && var e := w'.log[|w.log|];
               && e.base == w.running && e.read == w.sessions[sid].candidate && e.done == done
               && e.result == w'.running
  {
    RunMore(w1, [], JobMerge);
    var w2 := RunOf(w1, [] + [JobMerge]);
    RunMore(w1, [] + [JobMerge], JobDiscard);
    var w3 := DiscardJob(w2);
    assert w3.sessions.Keys == w1.sessions.Keys;
    RunMore(w1, [] + [JobMerge] + [JobDiscard], JobStore);
    events := [] + [JobMerge] + [JobDiscard] + [JobStore];
  }

  /** A commit that nothing interrupts makes running what its effects make of what the effective
      session shows. */
  lemma CommitThrough(w: World, sid: string, pid: Pid, effects: seq<Effect>) returns (events: seq<Event>)
    requires CommitIsReady(w, sid) && Client(pid)
    ensures IsRun(w, events)
    ensures var w' := RunOf(w, events);
            && OthersKept(w, w', sid) && w'.running == Replay(effects, View(Effective(w).candidate, w.running))
            && |w'.log| == |w.log| + 1
            && var e := w'.log[|w.log|];
               && e.base == w.running && e.read == w.sessions[sid].candidate && e.done == effects
               && e.result == w'.running
  {
    var a := StartCommit(w, sid, pid);
    var b := WorkOn(w, RunOf(w, a), sid, [], effects);
    assert [] + effects == effects;
    RunConcat(w, a, b);
    var c := EndCommit(w, RunOf(w, a + b), sid, effects);
    RunConcat(w, a + b, c);
    events := a + b + c;
  }

  // --- Steps that set the scene ---

  /** A session with one path set and nothing under way. */
  function Edited(p: Path): Sess {
    Sess(FREE, SetPath(EMPTY, p), false, [])
  }

  /** A client opens a session and sets a path in it. */
  lemma OpenAndSet(w: World, sid: string, pid: Pid, p: Path) returns (events: seq<Event>)
    requires sid !in w.sessions && Client(pid)
    ensures IsRun(w, events) && RunOf(w, events) == WithSession(w, sid, Edited(p))
  {
    var w1 := WithSession(w, sid, NEW_SESSION);
    var w2 := WithSession(w, sid, Sess(FREE, EMPTY, false, [SetWait(pid, p)]));
    assert Serve(NEW_SESSION, SetReq(pid, p), w.running, w.next) == Sess(FREE, EMPTY, false, [SetWait(pid, p)]);
    assert w1.sessions[sid := Sess(FREE, EMPTY, false, [SetWait(pid, p)])] == w2.sessions;
    assert ArriveAt(w1, sid, SetReq(pid, p)) == w2;
    var w3 := WithSession(w2, sid, Resume(w2.sessions[sid], true, false));
    assert w3.sessions == w.sessions[sid := Edited(p)];
    RunMore(w, [], Create(sid));
    RunMore(w, [] + [Create(sid)], Arrive(sid, SetReq(pid, p)));
    RunMore(w, [] + [Create(sid)] + [Arrive(sid, SetReq(pid, p))], Wake(sid, true, false));
    events := [] + [Create(sid)] + [Arrive(sid, SetReq(pid, p))] + [Wake(sid, true, false)];
  }

  /** A client without the lock sends a load to EFFECTIVE. */
  lemma WipeEffective(w: World, pid: Pid) returns (events: seq<Event>)
    requires EFFECTIVE in w.sessions && Effective(w).lpid == SYSTEM && Effective(w).frames == [] && Client(pid)
    ensures IsRun(w, events)
    ensures RunOf(w, events) == WithSession(w, EFFECTIVE, Effective(w).(candidate := WIPED)).(origin := LOST)
  {
    var s := Effective(w);
    var load := LoadReq(pid, true, []);
    DeleteRoot(s.candidate);
    var s1 := Sess(s.lpid, WIPED, s.saved, [Load(pid, [], Ready)]);
    assert Serve(s, load, w.running, w.next) == s1;
    var w1 := ArriveAt(w, EFFECTIVE, load);
    assert w1.sessions[EFFECTIVE] == s1;
    var w2 := Next(w1, Advance(EFFECTIVE, false));
    assert w2.sessions == w.sessions[EFFECTIVE := s.(candidate := WIPED)];
    RunMore(w, [], Arrive(EFFECTIVE, load));
    RunMore(w, [] + [Arrive(EFFECTIVE, load)], Advance(EFFECTIVE, false));
    events := [] + [Arrive(EFFECTIVE, load)] + [Advance(EFFECTIVE, false)];
  }

  // --- One load makes the next commit drop the rest of the configuration ---

  const A := Interrupted.A
  const B := Interrupted.B

  lemma Distinct()
    ensures A != B && Prefixes(A) == {A} && Prefixes(B) == {B} && !Covers(A, B) && !Covers(B, A)
  {
    assert A[0] != B[0];
    forall q ensures q in Prefixes(A) <==> q == A {
      if Covers(q, A) && q != [] { assert q == A[..1]; }
    }
    forall q ensures q in Prefixes(B) <==> q == B {
      if Covers(q, B) && q != [] { assert q == B[..1]; }
    }
  }

  lemma AddingA()
    ensures View(SetPath(EMPTY, A), {B}) == {A, B} && Proper({B})
    ensures OfDiff([Put(A)], {B}, {A, B}) && Thorough([Put(A)], {B}, {A, B})
    ensures Replay([Put(A)], {}) == {A} && Replay([Put(A)], {B}) == {A, B}
  {
    Distinct();
    ViewOfEmpty({B});
    ViewOfSet(EMPTY, {B}, A);
    assert Put(A) in [Put(A)] && Covers(A, A);
    assert IsPut([Put(A)], A);
    assert [Put(A)][..0] == [];
    forall t: Tree ensures Replay([Put(A)][..0], t) == t { }
    assert forall p, q :: p in {B} && Covers(q, p) && q != [] ==> q in Prefixes(B);
  }

  /** Running has one node; a client without the lock wipes the effective session; another one
      adds a node and commits, and the commit library puts just that node, skipping none. The
      commit is accepted, and running has lost the first node. */
  lemma LoadLosesTheRest() returns (events: seq<Event>)
    ensures IsRun(Initial({B}), events)
    ensures var w := RunOf(Initial({B}), events);
            && |w.log| == 1
            && var e := w.log[0];
               && OfDiff(e.done, e.base, View(e.read, e.base)) && Thorough(e.done, e.base, View(e.read, e.base))
               && e.base == {B} && View(e.read, e.base) == {A, B} && w.running == {A}
  {
    var w0 := Initial({B});
    var sid := "session";
    assert sid != EFFECTIVE && sid != RUNNING by { assert sid[0] != EFFECTIVE[0] && sid[0] != RUNNING[0]; }
    var a := WipeEffective(w0, 1);
    var w1 := RunOf(w0, a);
    var b := OpenAndSet(w1, sid, 2, A);
    RunConcat(w0, a, b);
    var w2 := RunOf(w1, b);
    AddingA();
    Distinct();
    assert A in View(SetPath(EMPTY, A), {B}) && A !in {B};
    assert CommitIsReady(w2, sid);
    WipedIsEmpty({B});
    var c := CommitThrough(w2, sid, 2, [Put(A)]);
    RunConcat(w0, a + b, c);
    events := a + b + c;
  }

  // --- A commit elsewhere makes an operation under its own lock fail ---

  /** A client opens a session, locks it and sends its list, which comes to wait to set its first
      path. */
  lemma SendList(w: World, sid: string) returns (events: seq<Event>)
    requires sid !in w.sessions && w.running == {B}
    ensures IsRun(w, events)
    ensures RunOf(w, events) == WithSession(w, sid, Interrupted.At(1, EMPTY, Interrupted.LIST, Setting(A)))
  {
    var locked := Sess(1, EMPTY, false, []);
    var w1 := WithSession(w, sid, NEW_SESSION);
    var w2 := WithSession(w, sid, locked);
    assert Serve(NEW_SESSION, LockReq(1), w.running, w.next) == locked;
    assert w1.sessions[sid := locked] == w2.sessions;
    assert ArriveAt(w1, sid, LockReq(1)) == w2;
    RunMore(w, [], Create(sid));
    RunMore(w, [] + [Create(sid)], Arrive(sid, LockReq(1)));
    var first := [] + [Create(sid)] + [Arrive(sid, LockReq(1))];
    var more := SendToLocked(w2, sid);
    RunConcat(w, first, more);
    assert w2.sessions[sid := Interrupted.At(1, EMPTY, Interrupted.LIST, Setting(A))]
        == w.sessions[sid := Interrupted.At(1, EMPTY, Interrupted.LIST, Setting(A))];
    events := first + more;
  }

  lemma SendToLocked(w: World, sid: string) returns (events: seq<Event>)
    requires sid in w.sessions && w.sessions[sid] == Sess(1, EMPTY, false, []) && w.running == {B}
    ensures IsRun(w, events)
    ensures RunOf(w, events) == WithSession(w, sid, Interrupted.At(1, EMPTY, Interrupted.LIST, Setting(A)))
  {
    var edit := EditReq(1, Interrupted.LIST, Interrupted.OptionsOf(Interrupted.PairEnv()));
    var ready := Interrupted.At(1, EMPTY, Interrupted.LIST, Ready);
    Interrupted.PairIsPrevalidated();
    Interrupted.PairSteps(1, EMPTY);
    var w1 := WithSession(w, sid, ready);
    assert Serve(w.sessions[sid], edit, w.running, w.next) == ready;
    assert ArriveAt(w, sid, edit) == w1;
    assert w1.sessions[sid := Step(ready, w.running, true)] == w.sessions[sid := Step(ready, w.running, true)];
    RunMore(w, [], Arrive(sid, edit));
    RunMore(w, [] + [Arrive(sid, edit)], Advance(sid, true));
    events := [] + [Arrive(sid, edit)] + [Advance(sid, true)];
  }

  lemma OpenAndDelete(w: World, sid: string, pid: Pid, p: Path) returns (events: seq<Event>)
    requires sid !in w.sessions && Client(pid) && p in w.running
    ensures IsRun(w, events) && RunOf(w, events) == WithSession(w, sid, Sess(FREE, DeletePath(EMPTY, p), false, []))
  {
    var w1 := WithSession(w, sid, NEW_SESSION);
    ViewOfEmpty(w.running);
    assert Serve(NEW_SESSION, DelReq(pid, p), w.running, w.next) == Sess(FREE, DeletePath(EMPTY, p), false, []);
    assert w1.sessions[sid := Sess(FREE, DeletePath(EMPTY, p), false, [])]
        == w.sessions[sid := Sess(FREE, DeletePath(EMPTY, p), false, [])];
    RunMore(w, [], Create(sid));
    RunMore(w, [] + [Create(sid)], Arrive(sid, DelReq(pid, p)));
    events := [] + [Create(sid)] + [Arrive(sid, DelReq(pid, p))];
  }

  lemma DeletingB()
    ensures View(DeletePath(EMPTY, B), {B}) == {} && Replay([Drop(B)], {B}) == {}
    ensures !Exists(SetPath(EMPTY, A), {}, B)
  {
    Distinct();
    ViewOfEmpty({B});
    ViewOfDelete(EMPTY, {B}, B);
    assert Covers(B, B);
    assert [Drop(B)][..0] == [];
    ViewOfSet(EMPTY, {}, A);
  }

  /** The commit of another session is stored while a client that holds its lock waits; the delete
      that comes next then finds its node gone from running, and fails. */
  lemma CommitMeanwhileHidesFailure() returns (events: seq<Event>)
    ensures IsRun(Initial({B}), events)
    ensures var w := RunOf(Initial({B}), events);
            && "edit" in w.sessions && w.running == {} && |w.log| == 1
            && w.sessions["edit"] == Interrupted.At(1, SetPath(EMPTY, A), Interrupted.LIST[1..], Ready)
            && Can(w, Advance("edit", true))
            && Nested.Do(w.sessions["edit"], Nested.Stepped(w.running, true))
               == Next(w, Advance("edit", true)).sessions["edit"]
            && Interrupted.Attempt(w.sessions["edit"], Nested.Stepped(w.running, true), 0)
               == [Interrupted.Tried(Interrupted.LIST[1], false)]
  {
    var w0 := Initial({B});
    NamesDiffer();
    var a := SendList(w0, "edit");
    var w1 := RunOf(w0, a);
    var b := DeleteAndCommit(w1);
    RunConcat(w0, a, b);
    var w2 := RunOf(w1, b);
    DeletingB();
    Interrupted.PairSteps(1, EMPTY);
    RunMore(w0, a + b, Wake("edit", true, false));
    Interrupted.DeleteFails(1, SetPath(EMPTY, A), {});
    events := a + b + [Wake("edit", true, false)];
  }

  lemma NamesDiffer()
    ensures "edit" != "other" && "edit" != EFFECTIVE && "edit" != RUNNING && "other" != EFFECTIVE && "other" != RUNNING
  {
    assert "edit"[0] != "other"[0] && "edit"[0] != EFFECTIVE[0] && "edit"[0] != RUNNING[0];
    assert "other"[0] != EFFECTIVE[0] && "other"[0] != RUNNING[0];
  }

  /** Another session deletes the node and commits. */
  lemma DeleteAndCommit(w: World) returns (events: seq<Event>)
    requires "edit" in w.sessions && "other" !in w.sessions && EFFECTIVE in w.sessions
    requires w.running == {B} && w.job.None? && w.next !in w.tickets && w.log == []
    requires Effective(w) == Sess(SYSTEM, EMPTY, false, [])
    ensures IsRun(w, events)
    ensures var w' := RunOf(w, events);
            && "edit" in w'.sessions && w'.sessions["edit"] == w.sessions["edit"]
            && w'.running == {} && |w'.log| == 1
  {
    NamesDiffer();
    var a := OpenAndDelete(w, "other", 2, B);
    var w1 := RunOf(w, a);
    DeletingB();
    ViewOfEmpty({B});
    assert CommitIsReady(w1, "other");
    events := CommitThrough(w1, "other", 2, [Drop(B)]);
    RunConcat(w, a, events);
    events := a + events;
  }
}
