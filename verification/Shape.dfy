/** Every tree and candidate that a run comes across is made of real nodes, with their
    ancestors. */
module Shape {
  import opened Config
  import opened Effects
  import opened EditOps
  import opened Session
  import opened World

  /** A candidate adds nodes together with their ancestors. */
  ghost predicate Sound(c: Overlay) {
    Closed(c) && [] !in c.adds
  }

  ghost predicate SoundPhase(p: Phase) {
    match p
    case Working(base, read, _) => Proper(base) && Sound(read)
    case Merged(base, read, _, _, result) => Proper(base) && Sound(read) && Proper(result)
    case Discarded(base, read, _, _, result) => Proper(base) && Sound(read) && Proper(result)
    case _ => true
  }

  ghost predicate SoundEntry(e: Entry) {
    Proper(e.base) && Sound(e.read)
  }

  ghost predicate Shaped(w: World) {
    && Proper(w.running)
    && (forall sid :: sid in w.sessions ==> Sound(w.sessions[sid].candidate))
    && (w.job.Some? ==> SoundPhase(w.job.value.phase))
    && (forall i :: 0 <= i < |w.log| ==> SoundEntry(w.log[i]))
  }

  lemma EditsKeepSound(c: Overlay, p: Path)
    requires Sound(c)
    ensures Sound(SetPath(c, p)) && Sound(DeletePath(c, p))
  {
    EditsKeepClosed(c, p);
  }

  lemma ViewIsProper(c: Overlay, running: Tree)
    requires Sound(c) && Proper(running)
    ensures Proper(View(c, running))
  {
    ViewIsClosed(c, running);
  }

  lemma ServeKeepsSound(s: Sess, req: Request, running: Tree, ticket: nat)
    requires Receptive(s) && Sound(s.candidate)
    ensures Sound(Serve(s, req, running, ticket).candidate)
  {
    EditsKeepSound(s.candidate, []);
    if req.DelReq? {
      EditsKeepSound(s.candidate, req.path);
    }
  }

  lemma BeginKeepsSound(o: EditOp, c: Overlay, running: Tree, defaultNone: bool)
    requires Sound(c)
    ensures Sound(Begin(o, c, running, defaultNone).candidate)
  {
    EditsKeepSound(c, o.path);
  }

  lemma StepKeepsSound(s: Sess, running: Tree, go: bool)
    requires CanStep(s) && Sound(s.candidate)
    ensures Sound(Step(s, running, go).candidate)
  {
    var f := s.frames[0];
    if f.Edit? && f.todo != [] {
      BeginKeepsSound(f.todo[0], s.candidate, running, f.options.defaultNone);
    }
  }

  lemma ResumeKeepsSound(s: Sess, ok: bool, subst: bool)
    requires CanResume(s) && Sound(s.candidate)
    ensures Sound(Resume(s, ok, subst).candidate)
  {
    match s.frames[0]
    case SetWait(_, path) => EditsKeepSound(s.candidate, path);
    case Edit(_, _, Setting(path)) => EditsKeepSound(s.candidate, path);
    case Load(_, _, Setting(path)) => EditsKeepSound(s.candidate, path);
    case _ =>
  }

  lemma InitialIsShaped(running: Tree)
    requires Proper(running)
    ensures Shaped(Initial(running))
  {
  }

  lemma MoveKeepsShape(w: World, sid: string, s: Sess)
    requires Shaped(w) && Sound(s.candidate)
    ensures Shaped(WithSession(w, sid, s))
  {
  }

  lemma ArriveKeepsShape(w: World, sid: string, req: Request)
    requires Shaped(w) && sid in w.sessions && Receptive(w.sessions[sid])
    ensures Shaped(ArriveAt(w, sid, req))
  {
    var s' := Serve(w.sessions[sid], req, w.running, w.next);
    ServeKeepsSound(w.sessions[sid], req, w.running, w.next);
    MoveKeepsShape(w, sid, s');
    var w' := ArriveAt(w, sid, req);
    assert w'.sessions == WithSession(w, sid, s').sessions;
  }

  lemma CollectKeepsShape(w: World, sid: string)
    requires Shaped(w) && CanCollect(w, sid)
    ensures Shaped(CollectAt(w, sid))
  {
    var s' := Deliver(w.sessions[sid], w.tickets[w.sessions[sid].frames[0].ticket].ok);
    assert Sound(w.sessions[sid].candidate);
    MoveKeepsShape(w, sid, s');
    assert CollectAt(w, sid).sessions == WithSession(w, sid, s').sessions;
  }

  lemma ApplyKeepsShape(w: World, effect: Effect)
    requires Shaped(w) && Can(w, JobApply(effect))
    ensures Shaped(ApplyJob(w, effect))
  {
    EditsKeepSound(Effective(w).candidate, effect.path);
  }

  lemma StoreKeepsShape(w: World)
    requires Shaped(w) && Can(w, JobStore)
    ensures Shaped(StoreJob(w))
  {
    var log, log' := w.log, StoreJob(w).log;
    forall i | 0 <= i < |log'| ensures SoundEntry(log'[i]) {
      assert i < |log| ==> log'[i] == log[i];
    }
  }

  lemma JobKeepsShape(w: World, e: Event)
    requires Shaped(w) && Can(w, e) && w.job.Some?
    requires e.JobBegin? || e.JobReject? || e.JobMerge? || e.JobDiscard? || e.JobDone?
    ensures Shaped(Next(w, e))
  {
    if e.JobMerge? {
      ViewIsProper(Effective(w).candidate, w.running);
    }
  }

  lemma NextKeepsShape(w: World, e: Event)
    requires Shaped(w) && Can(w, e)
    ensures Shaped(Next(w, e))
  {
    match e
    case Arrive(sid, req) => ArriveKeepsShape(w, sid, req);
    case Advance(sid, go) =>
      StepKeepsSound(w.sessions[sid], w.running, go);
      MoveKeepsShape(w, sid, Step(w.sessions[sid], w.running, go));
    case Wake(sid, ok, subst) =>
      ResumeKeepsSound(w.sessions[sid], ok, subst);
      MoveKeepsShape(w, sid, Resume(w.sessions[sid], ok, subst));
    case Collect(sid) => CollectKeepsShape(w, sid);
    case Take(_) =>
    case JobApply(effect) => ApplyKeepsShape(w, effect);
    case JobStore => StoreKeepsShape(w);
    case Create(sid) => MoveKeepsShape(w, sid, NEW_SESSION);
    case Destroy(_, _) =>
    case _ => JobKeepsShape(w, e);
  }

  lemma {:induction false} RunKeepsShape(w: World, events: seq<Event>)
    requires Shaped(w) && IsRun(w, events)
    ensures Shaped(RunOf(w, events))
    decreases |events|
  {
    if events != [] {
      NextKeepsShape(w, events[0]);
      RunKeepsShape(Next(w, events[0]), events[1..]);
    }
  }
}
