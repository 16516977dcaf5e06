/** All sessions, the commit manager and the running tree together, as a transition system:
    what is true after any run of client requests, however they interleave. */
module World {
  import opened Config
  import opened Effects
  import opened Lock
  import opened Session

  const RUNNING := "RUNNING"
  const EFFECTIVE := "EFFECTIVE"

  /** Where a tree comes from: a running tree, or nothing if the effective session was wiped, and
      the effects since then. */
  datatype Origin = Origin(wiped: bool, since: seq<Effect>) {
    function Start(running: Tree): Tree {
      if wiped then {} else running
    }

    function Shows(running: Tree): Tree {
      Replay(since, Start(running))
    }
  }

  const AGREED := Origin(false, [])
  const LOST := Origin(true, [])

  /** How far the one commit under way has come. `base` is the running tree and `read` the
      candidate it read, `done` what it has done to the effective session, `result` the
      effective tree it read back, and `origin` history: where that tree came from. */
  datatype Phase =
    | Taken
    | Working(base: Tree, read: Overlay, done: seq<Effect>)
    | Merged(base: Tree, read: Overlay, done: seq<Effect>, origin: Origin, result: Tree)
    | Discarded(base: Tree, read: Overlay, done: seq<Effect>, origin: Origin, result: Tree)
    | Ended(ok: bool)

  datatype Job = Job(ticket: nat, phase: Phase)

  /** A commit request between a session and the manager: not yet received, being worked on,
      or answered but not yet collected by the session. */
  datatype Ticket = Queued(sid: string) | InCommit(sid: string) | Answered(sid: string, ok: bool)

  /** An accepted commit. */
  datatype Entry = Entry(ticket: nat, base: Tree, read: Overlay, done: seq<Effect>, origin: Origin, result: Tree)

  /** `start`, `delivered`, `log` and `origin` are history: the running tree at start, the
      answers collected, the accepted commits in completion order, and where what the effective
      session shows comes from. */
  datatype World = World(
    sessions: map<string, Sess>,
    running: Tree,
    hadCommit: bool,
    job: Option<Job>,
    tickets: map<nat, Ticket>,
    next: nat,
    start: Tree,
    delivered: map<nat, bool>,
    log: seq<Entry>,
    origin: Origin)

  const SYSTEM_SESSION := NEW_SESSION.(lpid := SYSTEM)

  function Initial(running: Tree): World {
    World(map[RUNNING := SYSTEM_SESSION, EFFECTIVE := SYSTEM_SESSION],
          running, false, None, map[], 0, running, map[], [], AGREED)
  }

  datatype Event =
    | Arrive(sid: string, req: Request)
    | Advance(sid: string, go: bool)
    | Wake(sid: string, ok: bool, subst: bool)
    | Collect(sid: string)
    | Take(ticket: nat)
    | JobBegin
    | JobReject
    | JobApply(effect: Effect)
    | JobMerge
    | JobDiscard
    | JobStore
    | JobDone
    | Create(sid: string)
    | Destroy(sid: string, pid: Pid)

  function Effective(w: World): Sess
    requires EFFECTIVE in w.sessions
  {
    w.sessions[EFFECTIVE]
  }

  /** The effective session answers the commit machinery, which calls it as SYSTEM. */
  predicate EffectiveAnswers(w: World) {
    EFFECTIVE in w.sessions && Receptive(Effective(w)) && MayUse(Effective(w).lpid, SYSTEM)
  }

  predicate Can(w: World, e: Event) {
    match e
    case Arrive(sid, req) => sid in w.sessions && Receptive(w.sessions[sid]) && Client(req.pid)
    case Advance(sid, _) => sid in w.sessions && CanStep(w.sessions[sid])
    case Wake(sid, _, _) => sid in w.sessions && CanResume(w.sessions[sid])
    case Collect(sid) => CanCollect(w, sid)
    case Take(t) => t in w.tickets && w.tickets[t].Queued?
    case JobBegin =>
      && w.job.Some? && w.job.value.phase.Taken?
      && w.job.value.ticket in w.tickets && w.tickets[w.job.value.ticket].sid in w.sessions
    case JobReject => w.job.Some? && w.job.value.phase.Working? && w.job.value.phase.done == []
    case JobApply(_) => w.job.Some? && w.job.value.phase.Working? && EffectiveAnswers(w)
    case JobMerge => w.job.Some? && w.job.value.phase.Working? && EffectiveAnswers(w)
    case JobDiscard => w.job.Some? && w.job.value.phase.Merged? && EffectiveAnswers(w)
    case JobStore => w.job.Some? && w.job.value.phase.Discarded?
    case JobDone => w.job.Some? && w.job.value.phase.Ended? && w.job.value.ticket in w.tickets
    case Create(_) => true
    case Destroy(sid, pid) => sid in w.sessions && Client(pid) && MayUse(w.sessions[sid].lpid, pid)
  }

  function WithSession(w: World, sid: string, s: Sess): World {
    w.(sessions := w.sessions[sid := s])
  }

  function WithPhase(w: World, p: Phase): World
    requires w.job.Some?
  {
    w.(job := Some(w.job.value.(phase := p)))
  }

  function ApplyToOverlay(e: Effect, c: Overlay, running: Tree): Overlay {
    match e
    case Put(p) => SetPath(c, p)
    case Drop(p) => if Exists(c, running, p) then DeletePath(c, p) else c
  }

  predicate LetsCommit(w: World, sid: string, req: Request) {
    && sid in w.sessions && req.CommitReq?
    && CommitStarts(w.sessions[sid], req.pid, req.readOnlyDisk, w.running)
  }

  function ArriveAt(w: World, sid: string, req: Request): World
    requires sid in w.sessions && Receptive(w.sessions[sid])
  {
    var w' := WithSession(w, sid, Serve(w.sessions[sid], req, w.running, w.next));
    if LetsCommit(w, sid, req) then w'.(tickets := w.tickets[w.next := Queued(sid)], next := w.next + 1)
    else w'.(origin := if req.LoadReq? && req.clears && sid == EFFECTIVE then LOST else w.origin)
  }

  predicate CanCollect(w: World, sid: string) {
    && sid in w.sessions && CanDeliver(w.sessions[sid])
    && w.sessions[sid].frames[0].ticket in w.tickets
    && w.tickets[w.sessions[sid].frames[0].ticket].Answered?
  }

  function CollectAt(w: World, sid: string): World
    requires CanCollect(w, sid)
  {
    var t := w.sessions[sid].frames[0].ticket;
    var ok := w.tickets[t].ok;
    WithSession(w, sid, Deliver(w.sessions[sid], ok)).(tickets := w.tickets - {t}, delivered := w.delivered[t := ok])
  }

  /** The manager receives a request: it starts it, or refuses it while another is under way. */
  function TakeTicket(w: World, t: nat): World
    requires t in w.tickets
  {
    var sid := w.tickets[t].sid;
    if w.job.Some? then w.(tickets := w.tickets[t := Answered(sid, false)])
    else w.(tickets := w.tickets[t := InCommit(sid)], job := Some(Job(t, Taken)))
  }

  function BeginJob(w: World): World
    requires w.job.Some? && w.job.value.ticket in w.tickets && w.tickets[w.job.value.ticket].sid in w.sessions
  {
    var s := w.sessions[w.tickets[w.job.value.ticket].sid];
    WithPhase(w, Working(w.running, s.candidate, [])).(hadCommit := true)
  }

  function ApplyJob(w: World, effect: Effect): World
    requires w.job.Some? && w.job.value.phase.Working? && EFFECTIVE in w.sessions
  {
    var p := w.job.value.phase;
    var s := Effective(w);
    WithSession(WithPhase(w, Working(p.base, p.read, p.done + [effect])), EFFECTIVE,
                s.(candidate := ApplyToOverlay(effect, s.candidate, w.running)))
      .(origin := w.origin.(since := w.origin.since + [effect]))
  }

  function DiscardJob(w: World): World
    requires w.job.Some? && w.job.value.phase.Merged? && EFFECTIVE in w.sessions
  {
    var p := w.job.value.phase;
    WithSession(WithPhase(w, Discarded(p.base, p.read, p.done, p.origin, p.result)), EFFECTIVE,
                Effective(w).(candidate := EMPTY))
      .(origin := AGREED)
  }

  function EntryOf(job: Job): Entry
    requires job.phase.Discarded?
  {
    var p := job.phase;
    Entry(job.ticket, p.base, p.read, p.done, p.origin, p.result)
  }

  function StoreJob(w: World): World
    requires w.job.Some? && w.job.value.phase.Discarded?
  {
    var p := w.job.value.phase;
    WithPhase(w, Ended(true))
      .(running := p.result, log := w.log + [EntryOf(w.job.value)])
  }

  function EndJob(w: World): World
    requires w.job.Some? && w.job.value.phase.Ended? && w.job.value.ticket in w.tickets
  {
    var t := w.job.value.ticket;
    w.(job := None, tickets := w.tickets[t := Answered(w.tickets[t].sid, w.job.value.phase.ok)])
  }

  function Next(w: World, e: Event): World
    requires Can(w, e)
  {
    match e
    case Arrive(sid, req) => ArriveAt(w, sid, req)
    case Advance(sid, go) => WithSession(w, sid, Step(w.sessions[sid], w.running, go))
    case Wake(sid, ok, subst) => WithSession(w, sid, Resume(w.sessions[sid], ok, subst))
    case Collect(sid) => CollectAt(w, sid)
    case Take(t) => TakeTicket(w, t)
    case JobBegin => BeginJob(w)
    case JobReject => WithPhase(w, Ended(false))
    case JobApply(effect) => ApplyJob(w, effect)
    case JobMerge =>
      var p := w.job.value.phase;
      WithPhase(w, Merged(p.base, p.read, p.done, w.origin, View(Effective(w).candidate, w.running)))
    case JobDiscard => DiscardJob(w)
    case JobStore => StoreJob(w)
    case JobDone => EndJob(w)
    case Create(sid) => if sid in w.sessions then w else WithSession(w, sid, NEW_SESSION)
    case Destroy(sid, _) => w.(sessions := w.sessions - {sid})
  }

  /** A run: events that are possible where they occur. */
  predicate IsRun(w: World, events: seq<Event>)
    decreases |events|
  {
    events == [] || (Can(w, events[0]) && IsRun(Next(w, events[0]), events[1..]))
  }

  function RunOf(w: World, events: seq<Event>): World
    requires IsRun(w, events)
    decreases |events|
  {
    if events == [] then w else RunOf(Next(w, events[0]), events[1..])
  }

  // --- The invariant ---

  ghost predicate SessionsOk(w: World) {
    && (forall sid :: sid in w.sessions ==> Valid(w.sessions[sid]))
    && RUNNING in w.sessions && EFFECTIVE in w.sessions
    && SystemOwned(w.sessions[RUNNING]) && SystemOwned(w.sessions[EFFECTIVE])
  }

  /** The commit a ticket stands for waits in its session. */
  ghost predicate TicketWaits(w: World, t: nat)
    requires t in w.tickets
  {
    && t < w.next
    && w.tickets[t].sid in w.sessions
    && Pending(w.sessions[w.tickets[t].sid].frames).Some?
    && Pending(w.sessions[w.tickets[t].sid].frames).value.ticket == t
  }

  ghost predicate SessionHasTicket(w: World, sid: string)
    requires sid in w.sessions
  {
    match Pending(w.sessions[sid].frames)
    case None => true
    case Some(f) => f.ticket in w.tickets && w.tickets[f.ticket].sid == sid
  }

  ghost predicate TicketsOk(w: World) {
    && (forall t :: t in w.tickets ==> TicketWaits(w, t))
    && (forall sid :: sid in w.sessions ==> SessionHasTicket(w, sid))
    && (forall t :: t in w.tickets ==> (w.tickets[t].InCommit? <==> w.job.Some? && w.job.value.ticket == t))
    && (w.job.Some? ==> w.job.value.ticket in w.tickets)
  }

  /** Every request ever made is answered once or still has its ticket, never both. */
  ghost predicate AnswersOk(w: World) {
    forall t: nat :: (t in w.tickets || t in w.delivered <==> t < w.next) && !(t in w.tickets && t in w.delivered)
  }

  /** The commit of a ticket reads what the session handed over. */
  ghost predicate Saw(w: World, t: nat, read: Overlay)
    requires t in w.tickets && TicketWaits(w, t)
  {
    var f := Pending(w.sessions[w.tickets[t].sid].frames).value;
    read == f.handed || (f.wiped && read == WIPED)
  }

  ghost predicate PhaseOk(w: World, t: nat, p: Phase)
    requires t in w.tickets && TicketWaits(w, t)
  {
    p.Working? || p.Merged? || p.Discarded? ==> p.base == w.running && Saw(w, t, p.read)
  }

  ghost predicate JobOk(w: World)
    requires TicketsOk(w)
  {
    w.job.Some? ==> PhaseOk(w, w.job.value.ticket, w.job.value.phase)
  }

  /** The effects since a wipe are the last ones; without a wipe they are all of them. */
  ghost predicate Continues(o: Origin, done: seq<Effect>) {
    && |o.since| <= |done| && o.since == done[|done| - |o.since|..]
    && (!o.wiped ==> o.since == done)
  }

  /** The effective view is what its origin shows: it is running, with the effects of the commit
      under way, or those effects alone since a load wiped it. */
  ghost predicate EffectiveOk(w: World)
    requires EFFECTIVE in w.sessions
  {
    var c, o := Effective(w).candidate, w.origin;
    && View(c, w.running) == o.Shows(w.running)
    && (o.since == [] ==> c == if o.wiped then WIPED else EMPTY)
    && match (if w.job.Some? then w.job.value.phase else Taken)
       case Working(_, _, done) => Continues(o, done)
       case Merged(base, _, done, origin, result) => Continues(origin, done) && result == origin.Shows(base)
       case Discarded(base, _, done, origin, result) =>
         Continues(origin, done) && result == origin.Shows(base) && o.since == []
       case _ => o.since == []
  }

  ghost predicate Accepted(w: World, t: nat) {
    || (t in w.delivered && w.delivered[t])
    || (t in w.tickets && w.tickets[t] == Answered(w.tickets[t].sid, true))
    || (w.job.Some? && w.job.value == Job(t, Ended(true)))
  }

  /** The running tree after the accepted commits. */
  function Tip(start: Tree, log: seq<Entry>): Tree {
    if log == [] then start else log[|log| - 1].result
  }

  /** Each commit started from the tree the one before left. */
  ghost predicate Chained(start: Tree, log: seq<Entry>) {
    forall i :: 0 <= i < |log| ==> log[i].base == Tip(start, log[..i])
  }

  ghost predicate Replays(log: seq<Entry>) {
    forall i :: 0 <= i < |log| ==>
      Continues(log[i].origin, log[i].done) && log[i].result == log[i].origin.Shows(log[i].base)
  }

  ghost predicate DistinctTickets(log: seq<Entry>) {
    forall i, j :: 0 <= i < j < |log| ==> log[i].ticket != log[j].ticket
  }

  ghost predicate Entered(log: seq<Entry>, t: nat) {
    exists i :: 0 <= i < |log| && log[i].ticket == t
  }

  ghost predicate LogOk(w: World)
    requires TicketsOk(w)
  {
    && w.running == Tip(w.start, w.log)
    && Chained(w.start, w.log)
    && DistinctTickets(w.log)
    && (forall t: nat :: Entered(w.log, t) <==> Accepted(w, t))
    && (forall i :: 0 <= i < |w.log| && w.log[i].ticket in w.tickets ==>
          Saw(w, w.log[i].ticket, w.log[i].read))
  }

  ghost predicate Core(w: World) {
    SessionsOk(w) && TicketsOk(w) && AnswersOk(w) && JobOk(w) && LogOk(w)
  }

  ghost predicate Inv(w: World) {
    Core(w) && EffectiveOk(w) && Replays(w.log)
  }

  lemma InitialInv(running: Tree)
    ensures Inv(Initial(running))
  {
    ViewOfEmpty(running);
  }

  // --- What keeps the ticket, job and log parts of the invariant ---

  function CommitOf(w: World, t: nat): Option<Frame>
    requires t in w.tickets && w.tickets[t].sid in w.sessions
  {
    Pending(w.sessions[w.tickets[t].sid].frames)
  }

  /** A ticket stands for the same commit before and after. */
  ghost predicate SameSight(w: World, w': World, t: nat) {
    && t in w.tickets && t in w'.tickets && TicketWaits(w, t) && TicketWaits(w', t)
    && SameCommit(CommitOf(w, t), CommitOf(w', t))
  }

  lemma SightKept(w: World, w': World, t: nat, read: Overlay)
    requires SameSight(w, w', t) && Saw(w, t, read)
    ensures Saw(w', t, read)
  {
  }

  ghost predicate SameJob(w: World, w': World) {
    w'.job == w.job && w'.running == w.running
    && (w.job.Some? ==> SameSight(w, w', w.job.value.ticket))
  }

  lemma JobKept(w: World, w': World)
    requires TicketsOk(w) && TicketsOk(w') && JobOk(w) && SameJob(w, w')
    ensures JobOk(w')
  {
    if w.job.Some? {
      var p := w.job.value.phase;
      if p.Working? || p.Merged? || p.Discarded? {
        SightKept(w, w', w.job.value.ticket, p.read);
      }
    }
  }

  ghost predicate SameLog(w: World, w': World) {
    && w'.log == w.log && w'.running == w.running && w'.start == w.start
    && (forall t: nat :: Accepted(w', t) <==> Accepted(w, t))
    && (forall t :: t in w'.tickets && Entered(w.log, t) ==> SameSight(w, w', t))
  }

  lemma LogKept(w: World, w': World)
    requires TicketsOk(w) && TicketsOk(w') && LogOk(w) && SameLog(w, w')
    ensures LogOk(w')
  {
    forall i | 0 <= i < |w'.log| && w'.log[i].ticket in w'.tickets
      ensures Saw(w', w'.log[i].ticket, w'.log[i].read)
    {
      var t := w.log[i].ticket;
      assert Entered(w.log, t);
      SightKept(w, w', t, w.log[i].read);
    }
  }

  /** The commits that wait, and their tickets, are where they were. */
  ghost predicate Untouched(w: World, w': World) {
    && w'.next == w.next && w'.tickets.Keys == w.tickets.Keys
    && (forall t :: t in w.tickets ==> w'.tickets[t].sid == w.tickets[t].sid)
    && (forall k :: k in w.sessions && Pending(w.sessions[k].frames).Some? ==>
          k in w'.sessions && w'.sessions[k] == w.sessions[k])
    && (forall k :: k in w'.sessions && Pending(w'.sessions[k].frames).Some? ==>
          k in w.sessions && w'.sessions[k] == w.sessions[k])
  }

  lemma UntouchedTickets(w: World, w': World)
    requires TicketsOk(w) && Untouched(w, w')
    ensures forall t :: t in w'.tickets ==> SameSight(w, w', t)
    ensures forall k :: k in w'.sessions ==> SessionHasTicket(w', k)
  {
    forall t | t in w'.tickets ensures SameSight(w, w', t) {
      assert TicketWaits(w, t);
    }
    forall k | k in w'.sessions ensures SessionHasTicket(w', k) {
      assert Pending(w'.sessions[k].frames).Some? ==> SessionHasTicket(w, k);
    }
  }

  /** Nothing but sessions without a commit, and history, has moved. */
  lemma CoreKept(w: World, w': World)
    requires Core(w) && SessionsOk(w') && Untouched(w, w')
    requires w'.tickets == w.tickets && w'.delivered == w.delivered && w'.job == w.job
    requires w'.running == w.running && w'.start == w.start && w'.log == w.log
    ensures Core(w')
  {
    UntouchedTickets(w, w');
    JobKept(w, w');
    LogKept(w, w');
  }

  // --- Steps of one session ---

  /** One session changes while the same commit, or none, waits in it. */
  ghost predicate Changes(w: World, w': World, sid: string, s: Sess) {
    && sid in w.sessions
    && SameCommit(Pending(w.sessions[sid].frames), Pending(s.frames))
    && w' == WithSession(w, sid, s).(origin := w'.origin)
  }

  lemma ChangeKeepsTickets(w: World, w': World, sid: string, s: Sess)
    requires TicketsOk(w) && Changes(w, w', sid, s)
    ensures TicketsOk(w') && SameJob(w, w') && SameLog(w, w')
  {
    forall t | t in w'.tickets ensures TicketWaits(w', t) && SameSight(w, w', t) {
      assert TicketWaits(w, t);
    }
    forall k | k in w'.sessions ensures SessionHasTicket(w', k) {
      assert SessionHasTicket(w, k);
    }
    forall t: nat ensures Accepted(w', t) <==> Accepted(w, t) {
    }
  }

  lemma SessionChange(w: World, w': World, sid: string, s: Sess)
    requires Core(w) && Changes(w, w', sid, s) && Valid(s)
    requires SystemOwned(w.sessions[sid]) ==> SystemOwned(s)
    ensures Core(w')
  {
    ChangeKeepsTickets(w, w', sid, s);
    JobKept(w, w');
    LogKept(w, w');
  }

  lemma EffectiveKept(w: World, w': World)
    requires EFFECTIVE in w.sessions && EFFECTIVE in w'.sessions
    requires Effective(w').candidate == Effective(w).candidate
    requires w'.job == w.job && w'.running == w.running && w'.origin == w.origin
    ensures EffectiveOk(w) ==> EffectiveOk(w')
  {
  }

  /** A session moves without a commit starting or collecting its answer in it. */
  lemma SessionMoves(w: World, sid: string, s: Sess)
    requires Inv(w) && sid in w.sessions && Valid(s)
    requires SameCommit(Pending(w.sessions[sid].frames), Pending(s.frames))
    requires SystemOwned(w.sessions[sid]) ==> SystemOwned(s) && s.candidate == w.sessions[sid].candidate
    ensures Inv(WithSession(w, sid, s))
  {
    var w' := WithSession(w, sid, s);
    SessionChange(w, w', sid, s);
    EffectiveKept(w, w');
  }

  lemma AdvanceKeepsInv(w: World, sid: string, go: bool)
    requires Inv(w) && Can(w, Advance(sid, go))
    ensures Inv(WithSession(w, sid, Step(w.sessions[sid], w.running, go)))
  {
    var s := w.sessions[sid];
    StepKeepsValid(s, w.running, go);
    StepKeepsCommit(s, w.running, go);
    if SystemOwned(s) {
      StepSystemOwned(s, w.running, go);
    }
    SessionMoves(w, sid, Step(s, w.running, go));
  }

  lemma WakeKeepsInv(w: World, sid: string, ok: bool, subst: bool)
    requires Inv(w) && Can(w, Wake(sid, ok, subst))
    ensures Inv(WithSession(w, sid, Resume(w.sessions[sid], ok, subst)))
  {
    var s := w.sessions[sid];
    ResumeKeepsValid(s, ok, subst);
    ResumeKeepsCommit(s, ok, subst);
    if SystemOwned(s) {
      ResumeSystemOwned(s, ok, subst);
    }
    SessionMoves(w, sid, Resume(s, ok, subst));
  }

  // --- A commit starts ---

  lemma CommitStartTicket(w: World, sid: string, req: Request, t: nat)
    requires SessionsOk(w) && TicketsOk(w) && LetsCommit(w, sid, req)
    requires Receptive(w.sessions[sid]) && Client(req.pid) && w.next !in w.tickets && t in w.tickets
    ensures SameSight(w, ArriveAt(w, sid, req), t)
  {
    ServeKeepsCommit(w.sessions[sid], req, w.running, w.next);
    assert TicketWaits(w, t);
  }

  lemma CommitStartSession(w: World, sid: string, req: Request, k: string)
    requires SessionsOk(w) && TicketsOk(w) && LetsCommit(w, sid, req)
    requires Receptive(w.sessions[sid]) && Client(req.pid) && w.next !in w.tickets && k in w.sessions
    ensures SessionHasTicket(ArriveAt(w, sid, req), k)
  {
    ServeKeepsCommit(w.sessions[sid], req, w.running, w.next);
    assert SessionHasTicket(w, k);
  }

  lemma CommitStartTickets(w: World, sid: string, req: Request)
    requires SessionsOk(w) && TicketsOk(w) && LetsCommit(w, sid, req)
    requires Receptive(w.sessions[sid]) && Client(req.pid) && w.next !in w.tickets
    ensures var w' := ArriveAt(w, sid, req);
            TicketsOk(w') && forall t :: t in w.tickets ==> SameSight(w, w', t)
  {
    var s := w.sessions[sid];
    var w' := ArriveAt(w, sid, req);
    ServeKeepsCommit(s, req, w.running, w.next);
    forall t | t in w.tickets ensures SameSight(w, w', t) {
      CommitStartTicket(w, sid, req, t);
    }
    forall k | k in w'.sessions ensures SessionHasTicket(w', k) {
      CommitStartSession(w, sid, req, k);
    }
    assert TicketWaits(w', w.next);
  }

  lemma CommitStartAccepted(w: World, sid: string, req: Request, t: nat)
    requires AnswersOk(w) && LetsCommit(w, sid, req) && Receptive(w.sessions[sid])
    ensures Accepted(ArriveAt(w, sid, req), t) <==> Accepted(w, t)
  {
    assert w.next !in w.tickets && w.next !in w.delivered;
  }

  lemma CommitStartSessions(w: World, sid: string, req: Request)
    requires SessionsOk(w) && LetsCommit(w, sid, req) && Receptive(w.sessions[sid]) && Client(req.pid)
    ensures SessionsOk(ArriveAt(w, sid, req))
  {
    var s := w.sessions[sid];
    ServeKeepsValid(s, req, w.running, w.next);
    if SystemOwned(s) {
      ServeSystemOwned(s, req, w.running, w.next);
    }
  }

  /** A commit request that is let through gets the next ticket. */
  lemma CommitStartKeepsCore(w: World, sid: string, req: Request)
    requires Core(w) && LetsCommit(w, sid, req) && Receptive(w.sessions[sid]) && Client(req.pid)
    ensures Core(ArriveAt(w, sid, req))
  {
    var w' := ArriveAt(w, sid, req);
    assert w.next !in w.tickets && w.next !in w.delivered;
    CommitStartSessions(w, sid, req);
    CommitStartTickets(w, sid, req);
    JobKept(w, w');
    forall t: nat ensures Accepted(w', t) <==> Accepted(w, t) {
      CommitStartAccepted(w, sid, req, t);
    }
    assert !Accepted(w, w.next);
    LogKept(w, w');
  }

  lemma OtherArrivalKeepsCore(w: World, sid: string, req: Request)
    requires Core(w) && sid in w.sessions && Receptive(w.sessions[sid]) && Client(req.pid)
    requires !LetsCommit(w, sid, req)
    ensures Core(ArriveAt(w, sid, req))
  {
    var s := w.sessions[sid];
    ServeKeepsValid(s, req, w.running, w.next);
    ServeKeepsCommit(s, req, w.running, w.next);
    if SystemOwned(s) {
      ServeSystemOwned(s, req, w.running, w.next);
    }
    SessionChange(w, ArriveAt(w, sid, req), sid, Serve(s, req, w.running, w.next));
  }

  lemma ArriveKeepsEffective(w: World, sid: string, req: Request)
    requires SessionsOk(w) && sid in w.sessions && Receptive(w.sessions[sid]) && Client(req.pid)
    requires EffectiveOk(w)
    ensures EffectiveOk(ArriveAt(w, sid, req))
  {
    if sid == EFFECTIVE {
      ServeSystemOwned(w.sessions[sid], req, w.running, w.next);
      WipedIsEmpty(w.running);
    }
  }

  lemma ArriveKeepsInv(w: World, sid: string, req: Request)
    requires Inv(w) && sid in w.sessions && Receptive(w.sessions[sid]) && Client(req.pid)
    ensures Inv(ArriveAt(w, sid, req))
  {
    if LetsCommit(w, sid, req) {
      CommitStartKeepsCore(w, sid, req);
    } else {
      OtherArrivalKeepsCore(w, sid, req);
    }
    ArriveKeepsEffective(w, sid, req);
  }

  // --- A commit collects its answer ---

  lemma CollectTicket(w: World, sid: string, t: nat)
    requires SessionsOk(w) && TicketsOk(w) && CanCollect(w, sid) && t in CollectAt(w, sid).tickets
    ensures SameSight(w, CollectAt(w, sid), t)
  {
    assert TicketWaits(w, t);
    assert Pending(w.sessions[sid].frames) == Some(w.sessions[sid].frames[0]);
  }

  lemma CollectedSession(w: World, sid: string, k: string)
    requires SessionsOk(w) && TicketsOk(w) && CanCollect(w, sid) && k in w.sessions
    ensures SessionHasTicket(CollectAt(w, sid), k)
  {
    assert SessionHasTicket(w, sid) && SessionHasTicket(w, k);
    assert Pending(w.sessions[sid].frames) == Some(w.sessions[sid].frames[0]);
  }

  lemma CollectTickets(w: World, sid: string)
    requires SessionsOk(w) && TicketsOk(w) && CanCollect(w, sid)
    ensures var w' := CollectAt(w, sid);
            TicketsOk(w') && forall t :: t in w'.tickets ==> SameSight(w, w', t)
  {
    var s := w.sessions[sid];
    var w' := CollectAt(w, sid);
    var done := s.frames[0].ticket;
    assert Pending(s.frames) == Some(s.frames[0]);
    assert SessionHasTicket(w, sid) && TicketWaits(w, done);
    forall t | t in w'.tickets ensures SameSight(w, w', t) {
      CollectTicket(w, sid, t);
    }
    forall k | k in w'.sessions ensures SessionHasTicket(w', k) {
      CollectedSession(w, sid, k);
    }
  }

  lemma CollectAnswers(w: World, sid: string)
    requires AnswersOk(w) && TicketsOk(w) && CanCollect(w, sid)
    ensures var w' := CollectAt(w, sid);
            AnswersOk(w') && forall t: nat :: Accepted(w', t) <==> Accepted(w, t)
  {
    var w' := CollectAt(w, sid);
    var done := w.sessions[sid].frames[0].ticket;
    assert TicketWaits(w, done) && done !in w.delivered;
    forall t: nat ensures Accepted(w', t) <==> Accepted(w, t) {
      if t == done { assert !w.tickets[t].InCommit?; }
    }
  }

  /** A commit that collects its answer gives its ticket back. */
  lemma CollectKeepsInv(w: World, sid: string)
    requires Inv(w) && CanCollect(w, sid)
    ensures Inv(CollectAt(w, sid))
  {
    var s := w.sessions[sid];
    var w' := CollectAt(w, sid);
    DeliverKeepsValid(s, w.tickets[s.frames[0].ticket].ok);
    assert s.frames[0] in s.frames;
    CollectTickets(w, sid);
    CollectAnswers(w, sid);
    assert w.tickets[s.frames[0].ticket].Answered?;
    JobKept(w, w');
    LogKept(w, w');
    EffectiveKept(w, w');
  }

  // --- Steps of the commit manager ---

  lemma TakeTouchesNoSession(w: World, ticket: nat)
    requires ticket in w.tickets && w.tickets[ticket].Queued?
    ensures Untouched(w, TakeTicket(w, ticket))
  {
  }

  lemma TakeStartsOne(w: World, ticket: nat)
    requires TicketsOk(w) && ticket in w.tickets && w.tickets[ticket].Queued?
    ensures var w' := TakeTicket(w, ticket);
            && (w'.job.Some? ==> w'.job.value.ticket in w'.tickets)
            && forall t :: t in w'.tickets ==> (w'.tickets[t].InCommit? <==> w'.job.Some? && w'.job.value.ticket == t)
  {
  }

  lemma TakeTickets(w: World, ticket: nat)
    requires TicketsOk(w) && ticket in w.tickets && w.tickets[ticket].Queued?
    ensures var w' := TakeTicket(w, ticket);
            TicketsOk(w') && forall t :: t in w'.tickets ==> SameSight(w, w', t)
  {
    TakeTouchesNoSession(w, ticket);
    TakeStartsOne(w, ticket);
    UntouchedTickets(w, TakeTicket(w, ticket));
  }

  lemma TakeAccepted(w: World, ticket: nat, t: nat)
    requires ticket in w.tickets && w.tickets[ticket].Queued?
    ensures Accepted(TakeTicket(w, ticket), t) <==> Accepted(w, t)
  {
  }

  lemma TakeKeepsInv(w: World, ticket: nat)
    requires Inv(w) && ticket in w.tickets && w.tickets[ticket].Queued?
    ensures Inv(TakeTicket(w, ticket))
  {
    var w' := TakeTicket(w, ticket);
    TakeTickets(w, ticket);
    forall t: nat ensures Accepted(w', t) <==> Accepted(w, t) {
      TakeAccepted(w, ticket, t);
    }
    if w.job.Some? {
      JobKept(w, w');
    }
    LogKept(w, w');
  }

  lemma EndTouchesNoSession(w: World)
    requires TicketsOk(w) && w.job.Some? && w.job.value.phase.Ended?
    ensures Untouched(w, EndJob(w))
  {
  }

  lemma EndTickets(w: World)
    requires TicketsOk(w) && w.job.Some? && w.job.value.phase.Ended?
    ensures var w' := EndJob(w);
            TicketsOk(w') && forall t :: t in w'.tickets ==> SameSight(w, w', t)
  {
    EndTouchesNoSession(w);
    UntouchedTickets(w, EndJob(w));
  }

  lemma EndAccepted(w: World, t: nat)
    requires TicketsOk(w) && w.job.Some? && w.job.value.phase.Ended?
    ensures Accepted(EndJob(w), t) <==> Accepted(w, t)
  {
  }

  lemma EndKeepsEffective(w: World)
    requires EFFECTIVE in w.sessions && w.job.Some? && w.job.value.phase.Ended?
    requires w.job.value.ticket in w.tickets && EffectiveOk(w)
    ensures EffectiveOk(EndJob(w))
  {
  }

  lemma EndKeepsInv(w: World)
    requires Inv(w) && w.job.Some? && w.job.value.phase.Ended?
    ensures Inv(EndJob(w))
  {
    var w' := EndJob(w);
    EndTickets(w);
    forall t: nat ensures Accepted(w', t) <==> Accepted(w, t) {
      EndAccepted(w, t);
    }
    LogKept(w, w');
    EndKeepsEffective(w);
  }

  /** The commit under way moves on without being accepted. */
  lemma PhaseKeepsCore(w: World, p: Phase)
    requires Core(w) && w.job.Some? && w.job.value.phase != Ended(true) && p != Ended(true)
    requires PhaseOk(w, w.job.value.ticket, p)
    ensures Core(WithPhase(w, p))
  {
    var w' := WithPhase(w, p);
    var t0 := w.job.value.ticket;
    UntouchedTickets(w, w');
    if p.Working? || p.Merged? || p.Discarded? {
      SightKept(w, w', t0, p.read);
    }
    forall t: nat ensures Accepted(w', t) <==> Accepted(w, t) {
    }
    LogKept(w, w');
  }

  lemma BeginSeesHandedCandidate(w: World)
    requires SessionsOk(w) && TicketsOk(w) && w.job.Some?
    ensures var t := w.job.value.ticket;
            Saw(w, t, w.sessions[w.tickets[t].sid].candidate)
  {
    assert TicketWaits(w, w.job.value.ticket);
  }

  lemma FlagKeepsInv(w: World, hadCommit: bool)
    requires Inv(w)
    ensures Inv(w.(hadCommit := hadCommit))
  {
    var w' := w.(hadCommit := hadCommit);
    CoreKept(w, w');
    EffectiveKept(w, w');
  }

  lemma BeginKeepsInv(w: World)
    requires Inv(w) && w.job.Some? && w.job.value.phase.Taken?
    ensures Inv(BeginJob(w))
  {
    var c := w.sessions[w.tickets[w.job.value.ticket].sid].candidate;
    var p := Working(w.running, c, []);
    BeginSeesHandedCandidate(w);
    PhaseKeepsCore(w, p);
    ViewOfEmpty(w.running);
    FlagKeepsInv(WithPhase(w, p), true);
  }

  lemma RejectKeepsInv(w: World)
    requires Inv(w) && w.job.Some? && w.job.value.phase.Working? && w.job.value.phase.done == []
    ensures Inv(WithPhase(w, Ended(false)))
  {
    PhaseKeepsCore(w, Ended(false));
  }

  lemma EffectOnView(e: Effect, c: Overlay, running: Tree)
    ensures View(ApplyToOverlay(e, c, running), running) == ApplyEffect(e, View(c, running))
  {
    ViewOfSet(c, running, e.path);
    ViewOfDelete(c, running, e.path);
  }

  /** The commit machinery writes the effective session. */
  lemma EffectiveChangeKeepsCore(w: World, c: Overlay)
    requires Core(w)
    ensures Core(WithSession(w, EFFECTIVE, Effective(w).(candidate := c)))
  {
    var s := Effective(w);
    QuietHasNoLock(s.frames);
    SessionChange(w, WithSession(w, EFFECTIVE, s.(candidate := c)), EFFECTIVE, s.(candidate := c));
  }

  /** Nothing but where the effective view comes from is noted differently. */
  lemma OriginKeepsCore(w: World, o: Origin)
    requires Core(w)
    ensures Core(w.(origin := o))
  {
    CoreKept(w, w.(origin := o));
  }

  lemma ApplyKeepsEffective(w: World, effect: Effect)
    requires EFFECTIVE in w.sessions && w.job.Some? && w.job.value.phase.Working? && EffectiveOk(w)
    ensures EffectiveOk(ApplyJob(w, effect))
  {
    var o, done := w.origin, w.job.value.phase.done;
    var since' := o.since + [effect];
    EffectOnView(effect, Effective(w).candidate, w.running);
    assert since'[..|since'| - 1] == o.since;
    assert (done + [effect])[|done| + 1 - |since'|..] == done[|done| - |o.since|..] + [effect];
  }

  lemma ApplyKeepsInv(w: World, effect: Effect)
    requires Inv(w) && w.job.Some? && w.job.value.phase.Working?
    ensures Inv(ApplyJob(w, effect))
  {
    var p := w.job.value.phase;
    var w1 := WithPhase(w, Working(p.base, p.read, p.done + [effect]));
    var w2 := WithSession(w1, EFFECTIVE,
                          Effective(w).(candidate := ApplyToOverlay(effect, Effective(w).candidate, w.running)));
    PhaseKeepsCore(w, Working(p.base, p.read, p.done + [effect]));
    EffectiveChangeKeepsCore(w1, ApplyToOverlay(effect, Effective(w).candidate, w.running));
    OriginKeepsCore(w2, w.origin.(since := w.origin.since + [effect]));
    ApplyKeepsEffective(w, effect);
  }

  lemma MergeKeepsInv(w: World)
    requires Inv(w) && w.job.Some? && w.job.value.phase.Working?
    ensures var p := w.job.value.phase;
            Inv(WithPhase(w, Merged(p.base, p.read, p.done, w.origin, View(Effective(w).candidate, w.running))))
  {
    var p := w.job.value.phase;
    PhaseKeepsCore(w, Merged(p.base, p.read, p.done, w.origin, View(Effective(w).candidate, w.running)));
  }

  lemma DiscardKeepsInv(w: World)
    requires Inv(w) && w.job.Some? && w.job.value.phase.Merged?
    ensures Inv(DiscardJob(w))
  {
    var p := w.job.value.phase;
    var w1 := WithPhase(w, Discarded(p.base, p.read, p.done, p.origin, p.result));
    PhaseKeepsCore(w, Discarded(p.base, p.read, p.done, p.origin, p.result));
    EffectiveChangeKeepsCore(w1, EMPTY);
    OriginKeepsCore(WithSession(w1, EFFECTIVE, Effective(w).(candidate := EMPTY)), AGREED);
    ViewOfEmpty(w.running);
  }

  // --- A commit is accepted ---

  lemma StoreTickets(w: World)
    requires TicketsOk(w) && w.job.Some? && w.job.value.phase.Discarded?
    ensures var w' := StoreJob(w);
            TicketsOk(w') && forall t :: t in w'.tickets ==> SameSight(w, w', t)
  {
    var w' := StoreJob(w);
    UntouchedTickets(w, w');
  }

  lemma StoreAccepts(w: World, t: nat)
    requires TicketsOk(w) && w.job.Some? && w.job.value.phase.Discarded?
    requires Entered(w.log, t) <==> Accepted(w, t)
    ensures Entered(StoreJob(w).log, t) <==> Accepted(StoreJob(w), t)
  {
    var t0 := w.job.value.ticket;
    var log, log' := w.log, StoreJob(w).log;
    assert log'[|log|].ticket == t0;
    if Entered(log, t) {
      var i :| 0 <= i < |log| && log[i].ticket == t;
      assert log'[i] == log[i];
    }
    if Entered(log', t) {
      var i :| 0 <= i < |log'| && log'[i].ticket == t;
      assert i < |log| ==> log[i] == log'[i];
    }
  }

  lemma StoreIsNew(w: World)
    requires TicketsOk(w) && AnswersOk(w) && LogOk(w) && w.job.Some? && w.job.value.phase.Discarded?
    ensures !Entered(w.log, w.job.value.ticket)
  {
    var t0 := w.job.value.ticket;
    assert w.tickets[t0].InCommit? && TicketWaits(w, t0) && t0 !in w.delivered;
    assert !Accepted(w, t0);
  }

  lemma ChainEntry(start: Tree, log: seq<Entry>, entry: Entry)
    requires Chained(start, log) && entry.base == Tip(start, log)
    ensures Chained(start, log + [entry]) && Tip(start, log + [entry]) == entry.result
  {
    var log' := log + [entry];
    forall i | 0 <= i < |log'| ensures log'[i].base == Tip(start, log'[..i]) {
      assert log'[..i] == log[..i];
    }
    assert log[..|log|] == log;
  }

  lemma DistinctEntry(log: seq<Entry>, entry: Entry)
    requires DistinctTickets(log) && !Entered(log, entry.ticket)
    ensures DistinctTickets(log + [entry])
  {
  }

  lemma StoreSaw(w: World, i: nat)
    requires TicketsOk(w) && w.job.Some? && w.job.value.phase.Discarded?
    requires AnswersOk(w) && JobOk(w) && LogOk(w) && TicketsOk(StoreJob(w))
    requires i < |StoreJob(w).log| && StoreJob(w).log[i].ticket in w.tickets
    ensures var entry := StoreJob(w).log[i]; Saw(StoreJob(w), entry.ticket, entry.read)
  {
    StoreTickets(w);
    var entry := StoreJob(w).log[i];
    assert i < |w.log| ==> entry == w.log[i];
    assert Saw(w, entry.ticket, entry.read);
    SightKept(w, StoreJob(w), entry.ticket, entry.read);
  }

  lemma StoreKeepsLog(w: World)
    requires TicketsOk(w) && w.job.Some? && w.job.value.phase.Discarded?
    requires AnswersOk(w) && JobOk(w) && LogOk(w) && TicketsOk(StoreJob(w))
    ensures LogOk(StoreJob(w))
  {
    var w' := StoreJob(w);
    var p := w.job.value.phase;
    var entry := EntryOf(w.job.value);
    ChainEntry(w.start, w.log, entry);
    StoreIsNew(w);
    DistinctEntry(w.log, entry);
    forall t: nat ensures Entered(w'.log, t) <==> Accepted(w', t) {
      StoreAccepts(w, t);
    }
    forall i | 0 <= i < |w'.log| && w'.log[i].ticket in w'.tickets
      ensures Saw(w', w'.log[i].ticket, w'.log[i].read)
    {
      StoreSaw(w, i);
    }
  }

  lemma StoreKeepsEffective(w: World)
    requires EFFECTIVE in w.sessions && w.job.Some? && w.job.value.phase.Discarded?
    requires EffectiveOk(w) && Replays(w.log)
    ensures EffectiveOk(StoreJob(w)) && Replays(StoreJob(w).log)
  {
    var running' := w.job.value.phase.result;
    ViewOfEmpty(running');
    WipedIsEmpty(running');
  }

  lemma StoreKeepsInv(w: World)
    requires Inv(w) && w.job.Some? && w.job.value.phase.Discarded?
    ensures Inv(StoreJob(w))
  {
    StoreKeepsEffective(w);
    StoreTickets(w);
    StoreKeepsLog(w);
  }

  // --- Sessions come and go ---

  lemma CreateKeepsInv(w: World, sid: string)
    requires Inv(w) && sid !in w.sessions
    ensures Inv(WithSession(w, sid, NEW_SESSION))
  {
    var w' := WithSession(w, sid, NEW_SESSION);
    CoreKept(w, w');
    EffectiveKept(w, w');
  }

  lemma DestroyKeepsInv(w: World, sid: string, pid: Pid)
    requires Inv(w) && Can(w, Destroy(sid, pid))
    ensures Inv(w.(sessions := w.sessions - {sid}))
  {
    var w' := w.(sessions := w.sessions - {sid});
    assert Valid(w.sessions[sid]) && Pending(w.sessions[sid].frames).None?;
    CoreKept(w, w');
    EffectiveKept(w, w');
  }

  /** Every event keeps the invariant. */
  lemma NextKeepsInv(w: World, e: Event)
    requires Inv(w) && Can(w, e)
    ensures Inv(Next(w, e))
  {
    match e
    case Arrive(sid, req) => ArriveKeepsInv(w, sid, req);
    case Advance(sid, go) => AdvanceKeepsInv(w, sid, go);
    case Wake(sid, ok, subst) => WakeKeepsInv(w, sid, ok, subst);
    case Collect(sid) => CollectKeepsInv(w, sid);
    case Take(t) => TakeKeepsInv(w, t);
    case JobBegin => BeginKeepsInv(w);
    case JobReject => RejectKeepsInv(w);
    case JobApply(effect) => ApplyKeepsInv(w, effect);
    case JobMerge => MergeKeepsInv(w);
    case JobDiscard => DiscardKeepsInv(w);
    case JobStore => StoreKeepsInv(w);
    case JobDone => EndKeepsInv(w);
    case Create(sid) => if sid !in w.sessions { CreateKeepsInv(w, sid); }
    case Destroy(sid, pid) => DestroyKeepsInv(w, sid, pid);
  }

  /** After any run, however the requests interleave. */
  lemma {:induction false} RunKeepsInv(w: World, events: seq<Event>)
    requires Inv(w) && IsRun(w, events)
    ensures Inv(RunOf(w, events))
    decreases |events|
  {
    if events != [] {
      NextKeepsInv(w, events[0]);
      RunKeepsInv(Next(w, events[0]), events[1..]);
    }
  }
}
