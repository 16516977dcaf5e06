/** What the commit protocol guarantees over every run. */
module Guarantees {
  import opened Config
  import opened Effects
  import opened Lock
  import opened Requests
  import opened Session
  import opened Shape
  import opened World

  /** In every session, at every moment: the lock is COMMIT exactly when one commit or
      validation is suspended, and there is never more than one. RUNNING and EFFECTIVE exist
      and belong to SYSTEM for good. */
  lemma LocksOverRuns(running: Tree, events: seq<Event>)
    requires IsRun(Initial(running), events)
    ensures var w := RunOf(Initial(running), events);
            && (forall sid :: sid in w.sessions ==>
                  && (w.sessions[sid].lpid == COMMIT <==> LockFrames(w.sessions[sid].frames) == 1)
                  && LockFrames(w.sessions[sid].frames) <= 1)
            && RUNNING in w.sessions && w.sessions[RUNNING].lpid == SYSTEM
            && EFFECTIVE in w.sessions && w.sessions[EFFECTIVE].lpid == SYSTEM
  {
    InitialInv(running);
    RunKeepsInv(Initial(running), events);
    var w := RunOf(Initial(running), events);
    forall sid | sid in w.sessions ensures LockFrames(w.sessions[sid].frames) <= 1 {
      AtMostOneLockFrame(w.sessions[sid].frames);
    }
  }

  // --- The commit that waits in a session, over a run ---

  /** A load or copy-config at the session, which deletes its candidate first. */
  predicate ClearsAt(e: Event, sid: string) {
    e.Arrive? && e.sid == sid && e.req.LoadReq? && e.req.clears
  }

  predicate ClearedAt(events: seq<Event>, sid: string) {
    exists i :: 0 <= i < |events| && ClearsAt(events[i], sid)
  }

  function MaybeWiped(f: Frame, wiped: bool): Frame
    requires f.CommitWait?
  {
    f.(wiped := f.wiped || wiped)
  }

  ghost predicate WaitsFor(w: World, sid: string, f: Frame) {
    f.CommitWait? && sid in w.sessions && Pending(w.sessions[sid].frames) == Some(f)
  }

  /** Exactly a request that clears the candidate marks the commit that waits. */
  lemma ServeMarks(s: Sess, req: Request, running: Tree, ticket: nat)
    requires Valid(s) && Receptive(s) && Caller(req.pid) && Pending(s.frames).Some?
    ensures Pending(Serve(s, req, running, ticket).frames)
         == Some(MaybeWiped(Pending(s.frames).value, req.LoadReq? && req.clears))
  {
    ServeKeepsCommit(s, req, running, ticket);
    MarkWipedKeeps(s.frames);
    var s' := Serve(s, req, running, ticket);
    if |s'.frames| > |s.frames| {
      assert s'.frames[1..] == if req.LoadReq? && req.clears then MarkWiped(s.frames) else s.frames;
    }
  }

  lemma ArriveMarks(w: World, sid: string, f: Frame, at: string, req: Request)
    requires SessionsOk(w) && WaitsFor(w, sid, f) && Can(w, Arrive(at, req))
    ensures WaitsFor(ArriveAt(w, at, req), sid, MaybeWiped(f, ClearsAt(Arrive(at, req), sid)))
  {
    if at == sid {
      ServeMarks(w.sessions[sid], req, w.running, w.next);
    }
  }

  lemma EventMarks(w: World, sid: string, f: Frame, e: Event)
    requires SessionsOk(w) && WaitsFor(w, sid, f) && Can(w, e) && f.ticket !in Next(w, e).delivered
    ensures WaitsFor(Next(w, e), sid, MaybeWiped(f, ClearsAt(e, sid)))
  {
    match e
    case Arrive(at, req) => ArriveMarks(w, sid, f, at, req);
    case Advance(at, go) => StepKeepsCommit(w.sessions[at], w.running, go);
    case Wake(at, ok, subst) => ResumeKeepsCommit(w.sessions[at], ok, subst);
    case _ =>
  }

  lemma {:induction false} DeliveredForGood(w: World, events: seq<Event>, t: nat)
    requires IsRun(w, events) && t in w.delivered
    ensures t in RunOf(w, events).delivered
    decreases |events|
  {
    if events != [] {
      DeliveredForGood(Next(w, events[0]), events[1..], t);
    }
  }

  lemma ClearedHead(events: seq<Event>, sid: string)
    requires events != []
    ensures ClearedAt(events, sid) <==> ClearsAt(events[0], sid) || ClearedAt(events[1..], sid)
  {
    if i :| 0 <= i < |events| && ClearsAt(events[i], sid) {
      if i > 0 { assert ClearsAt(events[1..][i - 1], sid); }
    }
    if i :| 0 <= i < |events[1..]| && ClearsAt(events[1..][i], sid) {
      assert ClearsAt(events[i + 1], sid);
    }
  }

  /** Over any run during which it waits, a commit is marked exactly by a load at its own session. */
  lemma {:induction false} RunMarks(w: World, sid: string, f: Frame, events: seq<Event>)
    requires Inv(w) && WaitsFor(w, sid, f) && IsRun(w, events)
    requires f.ticket !in RunOf(w, events).delivered
    ensures WaitsFor(RunOf(w, events), sid, MaybeWiped(f, ClearedAt(events, sid)))
    decreases |events|
  {
    if events == [] {
      assert MaybeWiped(f, false) == f;
    } else {
      var w1 := Next(w, events[0]);
      if f.ticket in w1.delivered {
        DeliveredForGood(w1, events[1..], f.ticket);
      }
      EventMarks(w, sid, f, events[0]);
      NextKeepsInv(w, events[0]);
      RunMarks(w1, sid, MaybeWiped(f, ClearsAt(events[0], sid)), events[1..]);
      ClearedHead(events, sid);
    }
  }

  // --- When a ticket is issued ---

  /** The event is a commit request of a client who may use its session, the candidate handed over
      differs from running at some node, and the disk is writable or running has no node. */
  ghost predicate IssuesTicket(w: World, e: Event) {
    && e.Arrive? && e.req.CommitReq? && e.sid in w.sessions
    && (w.sessions[e.sid].lpid == FREE || w.sessions[e.sid].lpid == e.req.pid)
    && Uncommitted(w.sessions[e.sid].candidate, w.running)
    && !(e.req.readOnlyDisk && exists q: Path :: q in w.running)
  }

  /** Exactly such an event issues a ticket. */
  lemma TicketNeedsChange(w: World, e: Event)
    requires Can(w, e)
    ensures Next(w, e).next == if IssuesTicket(w, e) then w.next + 1 else w.next
    ensures IssuesTicket(w, e) ==> w.next in Next(w, e).tickets && Next(w, e).tickets[w.next] == Queued(e.sid)
  {
    if e.Arrive? && e.req.CommitReq? {
      UncommittedOrShows(w.sessions[e.sid].candidate, w.running);
      assert w.running != {} <==> exists q: Path :: q in w.running;
    }
  }

  /** Over every run each ticket was issued by such an event. */
  lemma {:induction false} TicketHasOrigin(w: World, events: seq<Event>, t: nat) returns (i: nat)
    requires IsRun(w, events) && w.next <= t < RunOf(w, events).next
    ensures i < |events| && IsRun(w, events[..i])
    ensures RunOf(w, events[..i]).next == t && IssuesTicket(RunOf(w, events[..i]), events[i])
    decreases |events|
  {
    var w' := Next(w, events[0]);
    TicketNeedsChange(w, events[0]);
    if t < w'.next {
      i := 0;
      assert events[..0] == [];
    } else {
      var j := TicketHasOrigin(w', events[1..], t);
      i := j + 1;
      assert events[..i][0] == events[0] && events[..i][1..] == events[1..][..j];
    }
  }

  // --- No lost update ---

  /** The commit of ticket t was accepted, and the candidate it read. */
  ghost predicate AcceptedFrom(w: World, t: nat, candidate: Overlay) {
    exists i :: 0 <= i < |w.log| && w.log[i].ticket == t && w.log[i].read == candidate
  }

  /** When a commit collects its answer, a refusal keeps the candidate; an acceptance drops it,
      and what is dropped is what was handed over and what the manager read, exactly unless a
      load wiped it meanwhile. */
  lemma NoLostUpdate(w: World, sid: string)
    requires Inv(w) && CanCollect(w, sid)
    ensures var s := w.sessions[sid];
            var f := s.frames[0];
            var ok := w.tickets[f.ticket].ok;
            var s' := CollectAt(w, sid).sessions[sid];
            && s'.lpid == f.before
            && s'.candidate == (if ok then EMPTY else s.candidate)
            && (s.candidate == f.handed <==> !f.wiped || f.handed == WIPED)
            && (ok && !f.wiped ==> AcceptedFrom(w, f.ticket, s.candidate))
  {
    var s := w.sessions[sid];
    var f := s.frames[0];
    CommitRestoresLock(s, w.tickets[f.ticket].ok);
    assert SessionHasTicket(w, sid) && TicketWaits(w, f.ticket);
    if w.tickets[f.ticket].ok && !f.wiped {
      assert Accepted(w, f.ticket);
      assert Entered(w.log, f.ticket);
      var i :| 0 <= i < |w.log| && w.log[i].ticket == f.ticket;
      assert Saw(w, f.ticket, w.log[i].read);
    }
  }

  lemma StartedCommitWaits(w: World, sid: string, req: Request)
    requires Inv(w) && LetsCommit(w, sid, req) && Can(w, Arrive(sid, req))
    ensures var f := CommitWait(req.pid, w.sessions[sid].lpid != FREE, w.sessions[sid].lpid, w.next,
                                w.sessions[sid].candidate, false);
            WaitsFor(ArriveAt(w, sid, req), sid, f)
  {
    ServeKeepsCommit(w.sessions[sid], req, w.running, w.next);
  }

  lemma NotYetDelivered(w: World, sid: string)
    requires Inv(w) && CanCollect(w, sid)
    ensures w.sessions[sid].frames[0].ticket !in w.delivered
  {
  }

  /** Over every run: a commit starts in a session, anything arrives anywhere, and at last the
      commit collects its answer. The candidate is then still the one handed over if and only if
      no load or copy-config came to that session meanwhile, or it was as if wiped to begin with;
      and if none came, an accepted commit has read it. */
  lemma NoLostUpdateOverRuns(running: Tree, before: seq<Event>, sid: string, req: Request, during: seq<Event>)
    requires IsRun(Initial(running), before)
    requires var w0 := RunOf(Initial(running), before);
             && Can(w0, Arrive(sid, req)) && LetsCommit(w0, sid, req)
             && IsRun(ArriveAt(w0, sid, req), during)
             && var w := RunOf(ArriveAt(w0, sid, req), during);
                CanCollect(w, sid) && w.sessions[sid].frames[0].ticket == w0.next
    ensures var w0 := RunOf(Initial(running), before);
            var w := RunOf(ArriveAt(w0, sid, req), during);
            var handed := w0.sessions[sid].candidate;
            && (w.sessions[sid].candidate == handed <==> !ClearedAt(during, sid) || handed == WIPED)
            && (w.tickets[w0.next].ok && !ClearedAt(during, sid) ==> AcceptedFrom(w, w0.next, handed))
  {
    InitialInv(running);
    RunKeepsInv(Initial(running), before);
    var w0 := RunOf(Initial(running), before);
    var w1 := ArriveAt(w0, sid, req);
    NextKeepsInv(w0, Arrive(sid, req));
    RunKeepsInv(w1, during);
    var w := RunOf(w1, during);
    StartedCommitWaits(w0, sid, req);
    var f := Pending(w1.sessions[sid].frames).value;
    NotYetDelivered(w, sid);
    RunMarks(w1, sid, f, during);
    NoLostUpdate(w, sid);
  }

  // --- What an accepted commit makes of the running tree ---

  /** What the commit was asked for: the candidate it read over the running tree it read. */
  function Target(e: Entry): Tree {
    View(e.read, e.base)
  }

  /** The commit library acts on nodes that differ. */
  ghost predicate ActsOnDiff(e: Entry) {
    OfDiff(e.done, e.base, Target(e))
  }

  /** No load wiped the effective session while it mattered, or every node that the effects leave
      has been put since. */
  ghost predicate Undamaged(e: Entry) {
    !e.origin.wiped || AllPut(e.origin.since, Replay(e.done, e.base))
  }

  /** No node that differs was skipped; or, after a wipe, every node of the target has been put. */
  ghost predicate Reaching(e: Entry) {
    if e.origin.wiped then AllPut(e.origin.since, Target(e)) else Thorough(e.done, e.base, Target(e))
  }

  /** What a commit leaves is what its effects make of the tree it read if and only if it is
      undamaged, and what it was asked for if and only if it reaches. */
  lemma EntryIsExact(e: Entry)
    requires SoundEntry(e) && ActsOnDiff(e)
    requires Continues(e.origin, e.done) && e.result == e.origin.Shows(e.base)
    ensures e.result == Replay(e.done, e.base) <==> Undamaged(e)
    ensures e.result == Target(e) <==> Reaching(e)
  {
    ViewIsProper(e.read, e.base);
    if e.origin.wiped {
      LastFromNothing(e.done, e.origin.since, e.base, Target(e));
      assert OfDiff(e.origin.since, e.base, Target(e));
      ReplayFromNothing(e.origin.since, e.base, Target(e));
    } else {
      ReplayReaches(e.done, e.base, Target(e));
    }
  }

  /** Storing an accepted commit makes running what was asked for if and only if it reaches. */
  lemma AcceptedReachesRunning(w: World)
    requires Inv(w) && Shaped(w) && w.job.Some? && w.job.value.phase.Discarded? && ActsOnDiff(EntryOf(w.job.value))
    ensures var e := EntryOf(w.job.value);
            e.base == w.running && (StoreJob(w).running == Target(e) <==> Reaching(e))
  {
    EntryIsExact(EntryOf(w.job.value));
  }

  /** For every commit of every run. */
  lemma EntryReaches(running: Tree, events: seq<Event>, i: nat)
    requires Proper(running) && IsRun(Initial(running), events)
    requires i < |RunOf(Initial(running), events).log| && ActsOnDiff(RunOf(Initial(running), events).log[i])
    ensures var e := RunOf(Initial(running), events).log[i];
            && (e.result == Replay(e.done, e.base) <==> Undamaged(e))
            && (e.result == Target(e) <==> Reaching(e))
  {
    InitialInv(running);
    RunKeepsInv(Initial(running), events);
    InitialIsShaped(running);
    RunKeepsShape(Initial(running), events);
    var e := RunOf(Initial(running), events).log[i];
    assert SoundEntry(e);
    EntryIsExact(e);
  }

  // --- What a run of commits makes of it ---

  /** Commits applied one after the other, whatever a commit does. */
  function FoldWith(step: (Tree, Entry) -> Tree, start: Tree, log: seq<Entry>): Tree {
    if log == [] then start
    else
      var n := |log| - 1;
      step(FoldWith(step, start, log[..n]), log[n])
  }

  /** What each commit really does, what its effects alone would do, and what it was asked for. */
  function ByOrigin(t: Tree, e: Entry): Tree {
    e.origin.Shows(t)
  }

  function ByEffects(t: Tree, e: Entry): Tree {
    Replay(e.done, t)
  }

  function ByCandidate(t: Tree, e: Entry): Tree {
    View(e.read, t)
  }

  /** At every moment of the log, running is the fold. */
  ghost predicate Folds(step: (Tree, Entry) -> Tree, start: Tree, log: seq<Entry>) {
    forall k :: 0 <= k <= |log| ==> Tip(start, log[..k]) == FoldWith(step, start, log[..k])
  }

  lemma FoldNext(step: (Tree, Entry) -> Tree, start: Tree, log: seq<Entry>, k: nat)
    requires k < |log|
    ensures FoldWith(step, start, log[..k + 1]) == step(FoldWith(step, start, log[..k]), log[k])
    ensures Tip(start, log[..k + 1]) == log[k].result
  {
    assert log[..k + 1][..k] == log[..k];
  }

  lemma {:induction false} EachFolds(step: (Tree, Entry) -> Tree, start: Tree, log: seq<Entry>, k: nat)
    requires Chained(start, log) && k <= |log|
    requires forall i :: 0 <= i < |log| ==> log[i].result == step(log[i].base, log[i])
    ensures Tip(start, log[..k]) == FoldWith(step, start, log[..k])
  {
    if k > 0 {
      EachFolds(step, start, log, k - 1);
      FoldNext(step, start, log, k - 1);
    }
  }

  /** Running is the fold at every moment if and only if every commit does what the fold does. */
  lemma FoldsIffEach(step: (Tree, Entry) -> Tree, start: Tree, log: seq<Entry>)
    requires Chained(start, log)
    ensures Folds(step, start, log) <==> forall i :: 0 <= i < |log| ==> log[i].result == step(log[i].base, log[i])
  {
    if Folds(step, start, log) {
      forall i | 0 <= i < |log| ensures log[i].result == step(log[i].base, log[i]) {
        FoldNext(step, start, log, i);
        assert Tip(start, log[..i]) == FoldWith(step, start, log[..i]);
        assert Tip(start, log[..i + 1]) == FoldWith(step, start, log[..i + 1]);
      }
    }
    if forall i :: 0 <= i < |log| ==> log[i].result == step(log[i].base, log[i]) {
      forall k | 0 <= k <= |log| ensures Tip(start, log[..k]) == FoldWith(step, start, log[..k]) {
        EachFolds(step, start, log, k);
      }
    }
  }

  /** After any run, running is the accepted commits applied to the first running tree in completion
      order, each on the tree the one before left or, if a load had wiped the effective session,
      on nothing; the accepted are exactly those answered or about to be answered with success,
      each once. */
  lemma CommitsAreSerial(running: Tree, events: seq<Event>)
    requires IsRun(Initial(running), events)
    ensures var w := RunOf(Initial(running), events);
            && w.running == FoldWith(ByOrigin, running, w.log)
            && DistinctTickets(w.log)
            && forall t: nat :: Entered(w.log, t) <==> Accepted(w, t)
  {
    InitialInv(running);
    RunKeepsInv(Initial(running), events);
    var w := RunOf(Initial(running), events);
    StartIsKept(Initial(running), events);
    FoldsIffEach(ByOrigin, running, w.log);
    assert w.log[..|w.log|] == w.log;
    assert Tip(running, w.log[..|w.log|]) == FoldWith(ByOrigin, running, w.log[..|w.log|]);
  }

  /** Serialisability, exactly: running is at every moment the effects of the accepted commits,
      replayed in completion order, if and only if every commit is undamaged. */
  lemma SerialIffUndamaged(running: Tree, events: seq<Event>)
    requires Proper(running) && IsRun(Initial(running), events)
    requires var w := RunOf(Initial(running), events); forall i :: 0 <= i < |w.log| ==> ActsOnDiff(w.log[i])
    ensures var w := RunOf(Initial(running), events);
            Folds(ByEffects, running, w.log) <==> forall i :: 0 <= i < |w.log| ==> Undamaged(w.log[i])
  {
    InitialInv(running);
    RunKeepsInv(Initial(running), events);
    var w := RunOf(Initial(running), events);
    StartIsKept(Initial(running), events);
    FoldsIffEach(ByEffects, running, w.log);
    forall i | 0 <= i < |w.log|
      ensures w.log[i].result == ByEffects(w.log[i].base, w.log[i]) <==> Undamaged(w.log[i])
    {
      EntryReaches(running, events, i);
    }
  }

  /** No accepted edit fails to reach running, exactly: running is at every moment what the accepted
      candidates, in completion order, make of the first running tree if and only if every
      commit reaches. */
  lemma CandidatesReachRunning(running: Tree, events: seq<Event>)
    requires Proper(running) && IsRun(Initial(running), events)
    requires var w := RunOf(Initial(running), events); forall i :: 0 <= i < |w.log| ==> ActsOnDiff(w.log[i])
    ensures var w := RunOf(Initial(running), events);
            Folds(ByCandidate, running, w.log) <==> forall i :: 0 <= i < |w.log| ==> Reaching(w.log[i])
  {
    InitialInv(running);
    RunKeepsInv(Initial(running), events);
    var w := RunOf(Initial(running), events);
    StartIsKept(Initial(running), events);
    FoldsIffEach(ByCandidate, running, w.log);
    forall i | 0 <= i < |w.log|
      ensures w.log[i].result == ByCandidate(w.log[i].base, w.log[i]) <==> Reaching(w.log[i])
    {
      EntryReaches(running, events, i);
    }
  }

  /** The first running tree is never forgotten. */
  lemma {:induction false} StartIsKept(w: World, events: seq<Event>)
    requires IsRun(w, events)
    ensures RunOf(w, events).start == w.start
    decreases |events|
  {
    if events != [] {
      StartIsKept(Next(w, events[0]), events[1..]);
    }
  }

  /** Every commit request ever let through holds its ticket until it is answered, and is
      answered once: an answer is never given to a request already answered. */
  lemma AnsweredOnce(w: World, sid: string, t: nat)
    requires Inv(w) && CanCollect(w, sid)
    ensures var t0 := w.sessions[sid].frames[0].ticket; var w' := CollectAt(w, sid);
            && t0 !in w.delivered && t0 in w'.delivered && t0 !in w'.tickets
            && (t in w'.tickets || t in w'.delivered <==> t < w'.next)
            && !(t in w'.tickets && t in w'.delivered)
  {
    CollectKeepsInv(w, sid);
    assert TicketWaits(w, w.sessions[sid].frames[0].ticket);
  }

  // --- The effective session ---

  /** A flag over the events: a load has wiped the effective session, and no commit has discarded
      its overlay since. */
  function Wiped(flag: bool, events: seq<Event>): bool
    decreases |events|
  {
    if events == [] then flag
    else Wiped(if events[0].JobDiscard? then false else flag || ClearsAt(events[0], EFFECTIVE), events[1..])
  }

  lemma EventWipes(w: World, e: Event)
    requires Inv(w) && Can(w, e)
    ensures Next(w, e).origin.wiped == if e.JobDiscard? then false else w.origin.wiped || ClearsAt(e, EFFECTIVE)
  {
    if e.Arrive? {
      ArriveWipes(w, e.sid, e.req);
    } else {
      OnlyDiscardAgrees(w, e);
    }
  }

  lemma OnlyDiscardAgrees(w: World, e: Event)
    requires Can(w, e) && !e.Arrive?
    ensures Next(w, e).origin.wiped == if e.JobDiscard? then false else w.origin.wiped
  {
  }

  lemma ArriveWipes(w: World, sid: string, req: Request)
    requires Inv(w) && Can(w, Arrive(sid, req))
    ensures ArriveAt(w, sid, req).origin.wiped == (w.origin.wiped || ClearsAt(Arrive(sid, req), EFFECTIVE))
  {
    if sid == EFFECTIVE {
      ServeSystemOwned(w.sessions[EFFECTIVE], req, w.running, w.next);
    }
  }

  lemma {:induction false} RunWipes(w: World, events: seq<Event>)
    requires Inv(w) && IsRun(w, events)
    ensures RunOf(w, events).origin.wiped == Wiped(w.origin.wiped, events)
    decreases |events|
  {
    if events != [] {
      EventWipes(w, events[0]);
      NextKeepsInv(w, events[0]);
      RunWipes(Next(w, events[0]), events[1..]);
    }
  }

  /** Over every run that ends with no commit applying its effects, the effective view equals running
      if and only if no load has wiped it since the last discard, or there is nothing to lose. */
  lemma EffectiveAgrees(running: Tree, events: seq<Event>)
    requires IsRun(Initial(running), events)
    requires var job := RunOf(Initial(running), events).job;
             job.None? || job.value.phase.Taken? || job.value.phase.Ended?
    ensures var w := RunOf(Initial(running), events);
            && EFFECTIVE in w.sessions
            && (View(Effective(w).candidate, w.running) == w.running <==> !Wiped(false, events) || w.running == {})
  {
    InitialInv(running);
    RunKeepsInv(Initial(running), events);
    RunWipes(Initial(running), events);
    var w := RunOf(Initial(running), events);
    ViewOfEmpty(w.running);
    WipedIsEmpty(w.running);
  }

  /** At any moment of any run it is where it comes from that it shows. */
  lemma EffectiveShowsOrigin(running: Tree, events: seq<Event>)
    requires IsRun(Initial(running), events)
    ensures var w := RunOf(Initial(running), events);
            && EFFECTIVE in w.sessions && View(Effective(w).candidate, w.running) == w.origin.Shows(w.running)
            && (w.origin.wiped <==> Wiped(false, events))
  {
    InitialInv(running);
    RunKeepsInv(Initial(running), events);
    RunWipes(Initial(running), events);
  }

  /** Storing the merged effective tree: it is what the origin showed, and when the running file is
      written the effective view equals it if and only if no load has come since the discard, or
      it is empty. */
  lemma StoreKeepsEffectiveView(w: World)
    requires Inv(w) && w.job.Some? && w.job.value.phase.Discarded?
    ensures var w' := StoreJob(w);
            && w'.running == w.job.value.phase.origin.Shows(w.running)
            && (View(Effective(w').candidate, w'.running) == w'.running <==> !w.origin.wiped || w'.running == {})
  {
    ViewOfEmpty(w.job.value.phase.result);
    WipedIsEmpty(w.job.value.phase.result);
  }

  /** A load aimed at EFFECTIVE wipes it although SYSTEM holds its lock; with no commit applying its
      effects the effective view then equals running only if running is empty. */
  lemma LoadBreaksAgreement(w: World, pid: Pid, paths: seq<Path>)
    requires Inv(w) && Client(pid) && Receptive(Effective(w))
    requires w.job.None? || w.job.value.phase.Taken? || w.job.value.phase.Ended?
    ensures var w' := ArriveAt(w, EFFECTIVE, LoadReq(pid, true, paths));
            && w'.origin == LOST && w'.running == w.running
            && (View(Effective(w').candidate, w'.running) == w'.running <==> w.running == {})
  {
    DeleteRoot(Effective(w).candidate);
    WipedIsEmpty(w.running);
  }

  /** A session that is destroyed leaves nothing behind: one of its name that is created next is new,
      and no other session has changed. */
  lemma DestroyForgets(w: World, sid: string, pid: Pid)
    requires Can(w, Destroy(sid, pid))
    ensures var w' := Next(Next(w, Destroy(sid, pid)), Create(sid));
            && sid in w'.sessions && w'.sessions[sid] == Sess(FREE, EMPTY, false, [])
            && w' == w.(sessions := w.sessions[sid := w'.sessions[sid]])
  {
    var w1 := Next(w, Destroy(sid, pid));
    assert w1.sessions[sid := NEW_SESSION] == w.sessions[sid := NEW_SESSION];
  }

  // --- Which candidate a commit reads ---

  /** The request has been received, and is no longer in a commit. */
  ghost predicate Over(w: World, t: nat) {
    && t < w.next
    && !(t in w.tickets && w.tickets[t].Queued?)
    && !(w.job.Some? && w.job.value.ticket == t && !w.job.value.phase.Ended?)
  }

  ghost predicate IsReading(w: World, t: nat, read: Overlay) {
    && w.job.Some? && w.job.value.ticket == t
    && var p := w.job.value.phase; (p.Working? || p.Merged? || p.Discarded?) && p.read == read
  }

  /** The commit of ticket t has read this candidate and no other. */
  ghost predicate HasRead(w: World, t: nat, read: Overlay) {
    IsReading(w, t, read) || (Over(w, t) && (Accepted(w, t) ==> AcceptedFrom(w, t, read)))
  }

  /** Nothing that concerns ticket t has changed, except perhaps the commit under way of another. */
  ghost predicate SameBooks(w: World, w': World, t: nat) {
    && w.next <= w'.next && w'.log == w.log
    && (t in w'.tickets <==> t in w.tickets) && (t in w.tickets ==> w'.tickets[t] == w.tickets[t])
    && (t in w'.delivered <==> t in w.delivered) && (t in w.delivered ==> w'.delivered[t] == w.delivered[t])
    && (w'.job == w.job || (JobOfOther(w, t) && JobOfOther(w', t)))
  }

  ghost predicate JobOfOther(w: World, t: nat) {
    w.job.Some? ==> w.job.value.ticket != t
  }

  lemma BooksKept(w: World, w': World, t: nat, read: Overlay)
    requires SameBooks(w, w', t) && HasRead(w, t, read)
    ensures HasRead(w', t, read)
  {
  }

  lemma ReadingIsInCommit(w: World, t: nat, read: Overlay)
    requires Inv(w) && HasRead(w, t, read)
    ensures t < w.next
    ensures IsReading(w, t, read) ==> t in w.tickets && w.tickets[t].InCommit? && t !in w.delivered
  {
    if IsReading(w, t, read) { assert TicketWaits(w, t); }
  }

  lemma ArriveKeepsBooks(w: World, sid: string, req: Request, t: nat)
    requires Can(w, Arrive(sid, req)) && t < w.next
    ensures SameBooks(w, ArriveAt(w, sid, req), t)
  {
  }

  lemma OthersKeepBooks(w: World, e: Event, t: nat)
    requires Can(w, e) && (e.Advance? || e.Wake? || e.Create? || e.Destroy?)
    ensures SameBooks(w, Next(w, e), t)
  {
  }

  lemma ReadAtSession(w: World, e: Event, t: nat, read: Overlay)
    requires Can(w, e) && HasRead(w, t, read) && t < w.next
    requires e.Arrive? || e.Advance? || e.Wake? || e.Create? || e.Destroy?
    ensures HasRead(Next(w, e), t, read)
  {
    if e.Arrive? {
      ArriveKeepsBooks(w, e.sid, e.req, t);
    } else {
      OthersKeepBooks(w, e, t);
    }
    BooksKept(w, Next(w, e), t, read);
  }

  lemma ReadAtCollect(w: World, sid: string, t: nat, read: Overlay)
    requires Inv(w) && CanCollect(w, sid) && HasRead(w, t, read)
    ensures HasRead(CollectAt(w, sid), t, read)
  {
    ReadingIsInCommit(w, t, read);
    if w.sessions[sid].frames[0].ticket != t {
      BooksKept(w, CollectAt(w, sid), t, read);
    } else {
      CollectAnswers(w, sid);
      assert Accepted(CollectAt(w, sid), t) <==> Accepted(w, t);
    }
  }

  lemma ReadAtTake(w: World, u: nat, t: nat, read: Overlay)
    requires Inv(w) && u in w.tickets && w.tickets[u].Queued? && HasRead(w, t, read)
    ensures HasRead(TakeTicket(w, u), t, read)
  {
    ReadingIsInCommit(w, t, read);
    assert u != t;
    BooksKept(w, TakeTicket(w, u), t, read);
  }

  predicate IsPhase(e: Event) {
    e.JobBegin? || e.JobReject? || e.JobApply? || e.JobMerge? || e.JobDiscard?
  }

  lemma OtherPhase(w: World, e: Event, t: nat)
    requires Can(w, e) && IsPhase(e) && w.job.value.ticket != t
    ensures SameBooks(w, Next(w, e), t)
  {
  }

  lemma OwnPhase(w: World, e: Event, t: nat, read: Overlay)
    requires Can(w, e) && IsPhase(e) && IsReading(w, t, read) && t < w.next
    requires t in w.tickets && w.tickets[t].InCommit? && t !in w.delivered
    ensures if e.JobReject? then Over(Next(w, e), t) && !Accepted(Next(w, e), t) else IsReading(Next(w, e), t, read)
  {
  }

  lemma ReadAtPhase(w: World, e: Event, t: nat, read: Overlay)
    requires Inv(w) && Can(w, e) && HasRead(w, t, read) && IsPhase(e)
    ensures HasRead(Next(w, e), t, read)
  {
    ReadingIsInCommit(w, t, read);
    if w.job.value.ticket != t {
      OtherPhase(w, e, t);
      BooksKept(w, Next(w, e), t, read);
    } else {
      OwnPhase(w, e, t, read);
    }
  }

  lemma ReadAtStore(w: World, t: nat, read: Overlay)
    requires Inv(w) && w.job.Some? && w.job.value.phase.Discarded? && HasRead(w, t, read)
    ensures HasRead(StoreJob(w), t, read)
  {
    var log, log' := w.log, StoreJob(w).log;
    assert log'[|log|] == EntryOf(w.job.value);
    if w.job.value.ticket != t {
      assert Accepted(StoreJob(w), t) <==> Accepted(w, t);
      if i :| 0 <= i < |log| && log[i].ticket == t && log[i].read == read {
        assert log'[i] == log[i];
      }
    }
  }

  lemma OtherDone(w: World, t: nat)
    requires Can(w, JobDone) && w.job.value.ticket != t
    ensures SameBooks(w, EndJob(w), t)
  {
  }

  lemma OwnDone(w: World, t: nat, read: Overlay)
    requires Can(w, JobDone) && w.job.value.ticket == t && t < w.next
    requires HasRead(w, t, read)
    ensures HasRead(EndJob(w), t, read)
  {
    assert Accepted(EndJob(w), t) ==> Accepted(w, t);
    assert EndJob(w).log == w.log;
  }

  lemma ReadAtDone(w: World, t: nat, read: Overlay)
    requires Can(w, JobDone) && HasRead(w, t, read) && t < w.next
    ensures HasRead(EndJob(w), t, read)
  {
    if w.job.value.ticket == t {
      OwnDone(w, t, read);
    } else {
      OtherDone(w, t);
      BooksKept(w, EndJob(w), t, read);
    }
  }

  lemma ReadGoesOn(w: World, e: Event, t: nat, read: Overlay)
    requires Inv(w) && Can(w, e) && HasRead(w, t, read)
    ensures HasRead(Next(w, e), t, read)
  {
    ReadingIsInCommit(w, t, read);
    match e
    case Collect(sid) => ReadAtCollect(w, sid, t, read);
    case Take(u) => ReadAtTake(w, u, t, read);
    case JobStore => ReadAtStore(w, t, read);
    case JobDone => ReadAtDone(w, t, read);
    case JobBegin => ReadAtPhase(w, e, t, read);
    case JobReject => ReadAtPhase(w, e, t, read);
    case JobApply(_) => ReadAtPhase(w, e, t, read);
    case JobMerge => ReadAtPhase(w, e, t, read);
    case JobDiscard => ReadAtPhase(w, e, t, read);
    case _ => ReadAtSession(w, e, t, read);
  }

  lemma {:induction false} ReadStays(w: World, events: seq<Event>, t: nat, read: Overlay)
    requires Inv(w) && IsRun(w, events) && HasRead(w, t, read)
    ensures HasRead(RunOf(w, events), t, read)
    decreases |events|
  {
    if events != [] {
      ReadGoesOn(w, events[0], t, read);
      NextKeepsInv(w, events[0]);
      ReadStays(Next(w, events[0]), events[1..], t, read);
    }
  }

  /** When the manager begins, the candidate is what was handed over, or emptied by then. */
  lemma BeginsReading(w1: World, sid: string, f: Frame, before: seq<Event>, w2: World, w3: World)
    requires f.CommitWait? && !f.wiped && w2.job == Some(Job(f.ticket, Taken))
    requires Can(w2, JobBegin) && w3 == BeginJob(w2)
    requires IsRun(w1, before) && w2 == RunOf(w1, before)
    requires Inv(w1) && WaitsFor(w1, sid, f)
    ensures Inv(w3) && WaitsFor(w3, sid, MaybeWiped(f, ClearedAt(before, sid)))
    ensures IsReading(w3, f.ticket, if ClearedAt(before, sid) then WIPED else f.handed)
  {
    RunKeepsInv(w1, before);
    TakenIsNotDelivered(w2, f.ticket);
    CandidateAfter(w1, sid, f, before);
    RunMarks(w1, sid, f, before);
    BeginReads(w2, sid, MaybeWiped(f, ClearedAt(before, sid)));
    BeginKeepsInv(w2);
  }

  lemma TakenIsNotDelivered(w: World, t: nat)
    requires Inv(w) && w.job == Some(Job(t, Taken))
    ensures t !in w.delivered
  {
    assert TicketWaits(w, t);
  }

  lemma BeginReads(w: World, sid: string, f: Frame)
    requires Inv(w) && WaitsFor(w, sid, f) && w.job == Some(Job(f.ticket, Taken)) && Can(w, JobBegin)
    ensures IsReading(BeginJob(w), f.ticket, w.sessions[sid].candidate) && WaitsFor(BeginJob(w), sid, f)
  {
    assert SessionHasTicket(w, sid);
  }

  lemma NotBothReadingAndAccepted(w: World, t: nat, read: Overlay)
    requires Inv(w) && Accepted(w, t)
    ensures !IsReading(w, t, read)
  {
    assert w.job.Some? ==> w.tickets[w.job.value.ticket].InCommit? && w.job.value.ticket !in w.delivered;
  }

  /** A commit that is accepted in the end has read what it was reading. */
  lemma AcceptedHasRead(w: World, after: seq<Event>, t: nat, read: Overlay)
    requires IsRun(w, after) && Accepted(RunOf(w, after), t) && IsReading(w, t, read) && Inv(w)
    ensures AcceptedFrom(RunOf(w, after), t, read) && DistinctTickets(RunOf(w, after).log)
  {
    ReadStays(w, after, t, read);
    RunKeepsInv(w, after);
    NotBothReadingAndAccepted(RunOf(w, after), t, read);
  }

  /** A commit starts in a session, and the manager is about to begin with it. */
  predicate ComesToBegin(w0: World, sid: string, req: Request, before: seq<Event>, w2: World) {
    && Can(w0, Arrive(sid, req)) && LetsCommit(w0, sid, req)
    && IsRun(ArriveAt(w0, sid, req), before) && w2 == RunOf(ArriveAt(w0, sid, req), before)
    && w2.job == Some(Job(w0.next, Taken)) && Can(w2, JobBegin)
  }

  /** It begins, and after a run the world is w. */
  predicate GoesOnTo(w2: World, after: seq<Event>, w: World) {
    Can(w2, JobBegin) && IsRun(BeginJob(w2), after) && w == RunOf(BeginJob(w2), after)
  }

  /** An accepted commit has read the candidate that was handed over if and only if no load or
      copy-config came to its session before the manager began; else it has read, and so commits,
      an emptied one. */
  lemma ReadsWhatItFinds(w0: World, sid: string, req: Request, before: seq<Event>, w2: World, after: seq<Event>,
                         w: World)
    requires ComesToBegin(w0, sid, req, before, w2) && GoesOnTo(w2, after, w) && Accepted(w, w0.next)
    requires Inv(w0)
    ensures var handed := w0.sessions[sid].candidate;
            && AcceptedFrom(w, w0.next, if ClearedAt(before, sid) then WIPED else handed)
            && (AcceptedFrom(w, w0.next, handed) <==> !ClearedAt(before, sid) || handed == WIPED)
  {
    var w1 := ArriveAt(w0, sid, req);
    ArriveKeepsInv(w0, sid, req);
    StartedCommitWaits(w0, sid, req);
    var f := Pending(w1.sessions[sid].frames).value;
    BeginsReading(w1, sid, f, before, w2, BeginJob(w2));
    var read := if ClearedAt(before, sid) then WIPED else f.handed;
    AcceptedHasRead(BeginJob(w2), after, f.ticket, read);
    OneRead(w, f.ticket, read, f.handed);
  }

  lemma OneRead(w: World, t: nat, a: Overlay, b: Overlay)
    requires DistinctTickets(w.log) && AcceptedFrom(w, t, a)
    ensures AcceptedFrom(w, t, b) <==> a == b
  {
    var i :| 0 <= i < |w.log| && w.log[i].ticket == t && w.log[i].read == a;
    if AcceptedFrom(w, t, b) {
      var j :| 0 <= j < |w.log| && w.log[j].ticket == t && w.log[j].read == b;
    }
  }

  /** When an accepted commit collects its answer, the candidate it drops is the one it has read if
      and only if no load came after the manager began, or one had come before, or there was
      nothing to empty. */
  lemma DropsWhatItRead(w0: World, sid: string, req: Request, before: seq<Event>, w2: World, after: seq<Event>,
                        w: World)
    requires ComesToBegin(w0, sid, req, before, w2) && GoesOnTo(w2, after, w)
    requires CanCollect(w, sid) && w.sessions[sid].frames[0].ticket == w0.next && w.tickets[w0.next].ok
    requires Inv(w0)
    ensures AcceptedFrom(w, w0.next, w.sessions[sid].candidate)
       <==> ClearedAt(before, sid) || !ClearedAt(after, sid) || w0.sessions[sid].candidate == WIPED
  {
    var w1 := ArriveAt(w0, sid, req);
    ArriveKeepsInv(w0, sid, req);
    StartedCommitWaits(w0, sid, req);
    var f := Pending(w1.sessions[sid].frames).value;
    var read := if ClearedAt(before, sid) then WIPED else f.handed;
    BeginsReading(w1, sid, f, before, w2, BeginJob(w2));
    RunKeepsInv(BeginJob(w2), after);
    assert Accepted(w, w0.next);
    AcceptedHasRead(BeginJob(w2), after, f.ticket, read);
    NotYetDelivered(w, sid);
    CandidateAfter(BeginJob(w2), sid, MaybeWiped(f, ClearedAt(before, sid)), after);
    OneRead(w, f.ticket, read, w.sessions[sid].candidate);
  }

  /** The candidate under a commit that has waited through a run. */
  lemma CandidateAfter(w: World, sid: string, f: Frame, events: seq<Event>)
    requires f.CommitWait? && IsRun(w, events) && f.ticket !in RunOf(w, events).delivered
    requires WaitsFor(w, sid, f) && Inv(w)
    ensures var w' := RunOf(w, events);
            && sid in w'.sessions
            && w'.sessions[sid].candidate == if f.wiped || ClearedAt(events, sid) then WIPED else f.handed
  {
    RunMarks(w, sid, f, events);
    RunKeepsInv(w, events);
    assert Valid(RunOf(w, events).sessions[sid]);
  }

  /** A load that arrives while a commit waits wipes the candidate under it: the commit then
      drops a candidate other than the one it handed over. */
  lemma LoadLosesUpdate(w: World, sid: string, pid: Pid, paths: seq<Path>)
    requires Inv(w) && sid in w.sessions && CanDeliver(w.sessions[sid]) && Client(pid)
    requires !w.sessions[sid].frames[0].wiped && w.sessions[sid].candidate != WIPED
    ensures var s' := ArriveAt(w, sid, LoadReq(pid, true, paths)).sessions[sid];
            && s'.candidate == WIPED && Pending(s'.frames).Some?
            && s'.candidate != Pending(s'.frames).value.handed
  {
    LoadWipesUnder(w.sessions[sid], pid, paths, w.running, w.next);
  }

  lemma LoadWipesUnder(s: Sess, pid: Pid, paths: seq<Path>, running: Tree, ticket: nat)
    requires Valid(s) && CanDeliver(s) && !s.frames[0].wiped && s.candidate != WIPED
    ensures var s' := Serve(s, LoadReq(pid, true, paths), running, ticket);
            && s'.candidate == WIPED && Pending(s'.frames).Some?
            && s'.candidate != Pending(s'.frames).value.handed
  {
    DeleteRoot(s.candidate);
    MarkWipedKeeps(s.frames);
    assert Serve(s, LoadReq(pid, true, paths), running, ticket).frames[1..] == MarkWiped(s.frames);
  }
}
