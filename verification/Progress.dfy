/** The protocol never wedges: from every reachable state every commit request that was let
    through can still be answered, without any further request arriving. */
module Progress {
  import opened Config
  import opened Session
  import opened World

  /** Events that need no new request. */
  predicate Internal(e: Event) {
    !e.Arrive? && !e.Create? && !e.Destroy?
  }

  ghost predicate InternalRun(w: World, events: seq<Event>) {
    IsRun(w, events) && forall e :: e in events ==> Internal(e)
  }

  lemma {:induction false} RunConcat(w: World, a: seq<Event>, b: seq<Event>)
    requires InternalRun(w, a) && InternalRun(RunOf(w, a), b)
    ensures InternalRun(w, a + b) && RunOf(w, a + b) == RunOf(RunOf(w, a), b)
    decreases |a|
  {
    if a == [] {
      assert a + b == b;
    } else {
      assert (a + b)[0] == a[0] && (a + b)[1..] == a[1..] + b;
      forall e | e in a[1..] ensures Internal(e) { assert e in a; }
      RunConcat(Next(w, a[0]), a[1..], b);
      forall e | e in a + b ensures Internal(e) { }
    }
  }

  lemma RunOne(w: World, e: Event)
    requires Can(w, e) && Internal(e)
    ensures InternalRun(w, [e]) && RunOf(w, [e]) == Next(w, e)
  {
    assert [e][1..] == [];
    assert RunOf(Next(w, e), []) == Next(w, e);
  }

  lemma KeepGoing(w: World, e: Event, rest: seq<Event>) returns (events: seq<Event>)
    requires Can(w, e) && Internal(e) && InternalRun(Next(w, e), rest)
    ensures InternalRun(w, events) && RunOf(w, events) == RunOf(Next(w, e), rest)
  {
    RunOne(w, e);
    RunConcat(w, [e], rest);
    events := [e] + rest;
  }

  /** How much the requests suspended above the first commit still have to do. */
  function Work(frames: seq<Frame>): nat {
    if frames == [] || frames[0].CommitWait? then 0
    else 1 + (if frames[0].Load? then |frames[0].paths| else 0) + Work(frames[1..])
  }

  /** Only one session has moved. */
  ghost predicate OnlySession(w: World, w': World, sid: string) {
    sid in w.sessions && sid in w'.sessions && w' == WithSession(w, sid, w'.sessions[sid])
  }

  /** Reads and refused loads above a commit, or in a session of SYSTEM. */
  ghost predicate Drainable(s: Sess) {
    Valid(s) && ((SystemOwned(s) && Pending(s.frames).None?) || Pending(s.frames).Some?)
  }

  lemma DrainStep(s: Sess) returns (step: bool)
    requires Drainable(s) && s.frames != [] && !s.frames[0].CommitWait?
    ensures step ==> CanStep(s) && var s' := Step(s, {}, false);
              Drainable(s') && Work(s'.frames) < Work(s.frames) && Pending(s'.frames) == Pending(s.frames)
    ensures !step ==> CanResume(s) && var s' := Resume(s, false, false);
              Drainable(s') && Work(s'.frames) < Work(s.frames) && Pending(s'.frames) == Pending(s.frames)
  {
    AtMostOneLockFrame(s.frames);
    assert s.frames[0] in s.frames;
    step := CanStep(s);
    if step {
      StepKeepsValid(s, {}, false);
      StepKeepsCommit(s, {}, false);
      if SystemOwned(s) { StepSystemOwned(s, {}, false); }
      var s' := Step(s, {}, false);
      if |s'.frames| == |s.frames| { assert s'.frames[1..] == s.frames[1..]; }
    } else {
      ResumeKeepsValid(s, false, false);
      ResumeKeepsCommit(s, false, false);
      if SystemOwned(s) { ResumeSystemOwned(s, false, false); }
    }
  }

  lemma DrainEvent(w: World, sid: string) returns (e: Event)
    requires sid in w.sessions && Drainable(w.sessions[sid])
    requires w.sessions[sid].frames != [] && !w.sessions[sid].frames[0].CommitWait?
    ensures Can(w, e) && Internal(e)
    ensures OnlySession(w, Next(w, e), sid)
    ensures var s, s' := w.sessions[sid], Next(w, e).sessions[sid];
            Drainable(s') && Work(s'.frames) < Work(s.frames) && Pending(s'.frames) == Pending(s.frames)
  {
    var s := w.sessions[sid];
    var step := DrainStep(s);
    StepIgnoresRunning(s, w.running);
    e := if step then Advance(sid, false) else Wake(sid, false, false);
  }

  /** Only the session has moved, to where its commit collects or its stack is empty. */
  ghost predicate Drained(w: World, w': World, sid: string) {
    && OnlySession(w, w', sid) && Pending(w'.sessions[sid].frames) == Pending(w.sessions[sid].frames)
    && (w'.sessions[sid].frames == [] || w'.sessions[sid].frames[0].CommitWait?)
  }

  lemma DrainedAlready(w: World, sid: string)
    requires sid in w.sessions && (w.sessions[sid].frames == [] || w.sessions[sid].frames[0].CommitWait?)
    ensures Drained(w, w, sid)
  {
    assert w.sessions[sid := w.sessions[sid]] == w.sessions;
  }

  lemma DrainedLater(w: World, w1: World, w': World, sid: string)
    requires OnlySession(w, w1, sid) && Pending(w1.sessions[sid].frames) == Pending(w.sessions[sid].frames)
    requires Drained(w1, w', sid)
    ensures Drained(w, w', sid)
  {
    assert w.sessions[sid := w1.sessions[sid]][sid := w'.sessions[sid]] == w.sessions[sid := w'.sessions[sid]];
  }

  /** A session can be brought to where its commit collects, or its stack is empty. */
  lemma {:induction false} Drain(w: World, sid: string) returns (events: seq<Event>)
    requires sid in w.sessions && Drainable(w.sessions[sid])
    ensures InternalRun(w, events) && Drained(w, RunOf(w, events), sid)
    decreases Work(w.sessions[sid].frames)
  {
    var s := w.sessions[sid];
    if s.frames == [] || s.frames[0].CommitWait? {
      events := [];
      DrainedAlready(w, sid);
    } else {
      var e := DrainEvent(w, sid);
      var rest := Drain(Next(w, e), sid);
      events := KeepGoing(w, e, rest);
      DrainedLater(w, Next(w, e), RunOf(w, events), sid);
    }
  }

  /** A refused or skipped step does not look at the running tree. */
  lemma StepIgnoresRunning(s: Sess, running: Tree)
    ensures CanStep(s) ==> Step(s, running, false) == Step(s, {}, false)
  {
  }

  ghost predicate SameTickets(w: World, w': World) {
    && w'.tickets.Keys == w.tickets.Keys
    && w'.delivered == w.delivered
    && forall t :: t in w.tickets && !w.tickets[t].InCommit? ==> w'.tickets[t] == w.tickets[t]
  }

  lemma {:induction false} InternalRunKeepsInv(w: World, events: seq<Event>)
    requires Inv(w) && InternalRun(w, events)
    ensures Inv(RunOf(w, events))
  {
    RunKeepsInv(w, events);
  }

  lemma DrainEffective(w: World) returns (events: seq<Event>)
    requires Inv(w)
    ensures InternalRun(w, events)
    ensures var w' := RunOf(w, events);
            Inv(w') && w'.job == w.job && SameTickets(w, w') && EffectiveAnswers(w')
  {
    var s := Effective(w);
    QuietHasNoLock(s.frames);
    events := Drain(w, EFFECTIVE);
    InternalRunKeepsInv(w, events);
  }

  function Rank(p: Phase): nat {
    match p
    case Taken => 4
    case Working(_, _, _) => 3
    case Merged(_, _, _, _, _) => 2
    case Discarded(_, _, _, _, _) => 1
    case Ended(_) => 0
  }

  /** The job has moved on, and no ticket but its own. */
  ghost predicate JobMoved(w: World, w': World) {
    && SameTickets(w, w') && w.job.Some? && w'.job.Some? && w'.job.value.ticket == w.job.value.ticket
    && Rank(w'.job.value.phase) < Rank(w.job.value.phase)
  }

  /** The next step of the commit under way, once the effective session answers. */
  lemma JobEvent(w: World) returns (e: Event)
    requires TicketsOk(w) && w.job.Some? && !w.job.value.phase.Ended?
    requires w.job.value.phase.Working? || w.job.value.phase.Merged? ==> EffectiveAnswers(w)
    ensures Can(w, e) && Internal(e) && JobMoved(w, Next(w, e))
  {
    assert TicketWaits(w, w.job.value.ticket);
    e := match w.job.value.phase case Taken => JobBegin case Working(_, _, _) => JobMerge
                                 case Merged(_, _, _, _, _) => JobDiscard case _ => JobStore;
  }

  /** The commit under way can take its next step. */
  lemma JobStep(w: World) returns (events: seq<Event>)
    requires Inv(w) && w.job.Some? && !w.job.value.phase.Ended?
    ensures InternalRun(w, events)
    ensures Inv(RunOf(w, events)) && JobMoved(w, RunOf(w, events))
  {
    var p := w.job.value.phase;
    var w1 := w;
    events := [];
    if p.Working? || p.Merged? {
      events := DrainEffective(w);
      w1 := RunOf(w, events);
    }
    var e := JobEvent(w1);
    NextKeepsInv(w1, e);
    RunOne(w1, e);
    RunConcat(w, events, [e]);
    events := events + [e];
  }

  lemma EndKeepsTickets(w: World)
    requires w.job.Some? && w.job.value.phase.Ended? && w.job.value.ticket in w.tickets
    requires w.tickets[w.job.value.ticket].InCommit?
    ensures SameTickets(w, EndJob(w)) && EndJob(w).tickets[w.job.value.ticket].Answered?
  {
  }

  /** A commit that has ended is answered next. */
  lemma AnswerEnded(w: World)
    requires Inv(w) && w.job.Some? && w.job.value.phase.Ended?
    ensures InternalRun(w, [JobDone])
    ensures var w' := RunOf(w, [JobDone]);
            Inv(w') && SameTickets(w, w')
            && w.job.value.ticket in w'.tickets && w'.tickets[w.job.value.ticket].Answered?
  {
    NextKeepsInv(w, JobDone);
    RunOne(w, JobDone);
    EndKeepsTickets(w);
  }

  /** The commit under way can be finished. */
  lemma {:induction false} FinishJob(w: World) returns (events: seq<Event>)
    requires Inv(w) && w.job.Some?
    ensures InternalRun(w, events)
    ensures var w' := RunOf(w, events);
            Inv(w') && SameTickets(w, w')
            && w.job.value.ticket in w'.tickets && w'.tickets[w.job.value.ticket].Answered?
    decreases Rank(w.job.value.phase)
  {
    if w.job.value.phase.Ended? {
      AnswerEnded(w);
      events := [JobDone];
    } else {
      var first := JobStep(w);
      var rest := FinishJob(RunOf(w, first));
      RunConcat(w, first, rest);
      events := first + rest;
    }
  }

  /** An answered request can be collected by its session. */
  lemma CollectAnswered(w: World, t: nat) returns (events: seq<Event>)
    requires Inv(w) && t in w.tickets && w.tickets[t].Answered?
    ensures InternalRun(w, events) && t in RunOf(w, events).delivered
  {
    var sid := w.tickets[t].sid;
    assert TicketWaits(w, t);
    var first := Drain(w, sid);
    var w1 := RunOf(w, first);
    RunOne(w1, Collect(sid));
    RunConcat(w, first, [Collect(sid)]);
    events := first + [Collect(sid)];
  }

  lemma AnswerTaken(w: World, t: nat) returns (events: seq<Event>)
    requires Inv(w) && t in w.tickets && w.tickets[t].InCommit?
    ensures InternalRun(w, events) && t in RunOf(w, events).delivered
  {
    var first := FinishJob(w);
    var rest := CollectAnswered(RunOf(w, first), t);
    RunConcat(w, first, rest);
    events := first + rest;
  }

  lemma AnswerQueued(w: World, t: nat) returns (events: seq<Event>)
    requires Inv(w) && t in w.tickets && w.tickets[t].Queued?
    ensures InternalRun(w, events) && t in RunOf(w, events).delivered
  {
    NextKeepsInv(w, Take(t));
    var w1 := Next(w, Take(t));
    var rest: seq<Event>;
    if w.job.Some? {
      rest := CollectAnswered(w1, t);
    } else {
      rest := AnswerTaken(w1, t);
    }
    events := KeepGoing(w, Take(t), rest);
  }

  /** From every reachable state every commit request still waiting can be answered. */
  lemma EveryCommitCanBeAnswered(running: Tree, events: seq<Event>, t: nat) returns (more: seq<Event>)
    requires IsRun(Initial(running), events) && t < RunOf(Initial(running), events).next
    ensures var w := RunOf(Initial(running), events);
            InternalRun(w, more) && t in RunOf(w, more).delivered
  {
    var w := RunOf(Initial(running), events);
    InitialInv(running);
    RunKeepsInv(Initial(running), events);
    if t in w.delivered {
      more := [];
    } else if w.tickets[t].Queued? {
      more := AnswerQueued(w, t);
    } else if w.tickets[t].InCommit? {
      more := AnswerTaken(w, t);
    } else {
      more := CollectAnswered(w, t);
    }
  }
}
