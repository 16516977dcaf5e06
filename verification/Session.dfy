/** A session as one goroutine that, while a request waits, serves the next one inside it:
    its lock, its candidate and the stack of suspended requests, innermost first. */
module Session {
  import opened Config
  import opened EditOps
  import opened Lock

  /** The requests, as far as they can change the session; comment requests are sets, and
      every request that only reads is a ReadReq, which may or may not wait. */
  datatype Request =
    | SetReq(pid: Pid, path: Path)
    | DelReq(pid: Pid, path: Path)
    | DiscardReq(pid: Pid)
    | LockReq(pid: Pid)
    | UnlockReq(pid: Pid)
    | MarkSavedReq(pid: Pid, saved: bool)
    | ReadReq(pid: Pid, waits: bool)
    | ValidateReq(pid: Pid)
    | CommitReq(pid: Pid, readOnlyDisk: bool)
    | EditReq(pid: Pid, ops: seq<EditOp>, options: Options)
    | LoadReq(pid: Pid, clears: bool, paths: seq<Path>)

  /** How an edit-config runs its list: whether the first failure ends it, what an unset
      operation does, and whether operations are only tested. */
  datatype Options = Options(stop: bool, defaultNone: bool, testOnly: bool)

  /** How far a request that runs a list of sets has come with the first of them. */
  datatype Progress = Ready | Setting(path: Path) | Substituting

  /** A suspended request. The pid of a set, the lock holder `before` and, in a commit, the
      candidate handed over and whether a load has wiped it since are history: no step looks
      at them. A full read may wait a second time, to have its path validated. */
  datatype Frame =
    | SetWait(pid: Pid, path: Path)
    | ReadWait(again: bool)
    | ValidateWait(pid: Pid, relock: bool, before: Pid)
    | CommitWait(pid: Pid, relock: bool, before: Pid, ticket: nat, handed: Overlay, wiped: bool)
    | Edit(todo: seq<EditOp>, options: Options, progress: Progress)
    | Load(pid: Pid, paths: seq<Path>, progress: Progress)

  datatype Sess = Sess(lpid: Pid, candidate: Overlay, saved: bool, frames: seq<Frame>)

  const NEW_SESSION := Sess(FREE, EMPTY, false, [])

  predicate HoldsLock(f: Frame) {
    f.ValidateWait? || f.CommitWait?
  }

  /** Whether the innermost request waits, so that the next request is served inside it. */
  predicate Waiting(f: Frame) {
    !((f.Edit? || f.Load?) && f.progress.Ready?)
  }

  /** A request that will write the candidate when it is resumed. */
  predicate Writing(f: Frame) {
    f.SetWait? || f.Edit? || (f.Load? && !f.progress.Ready?)
  }

  predicate Receptive(s: Sess) {
    s.frames != [] ==> Waiting(s.frames[0])
  }

  function Push(s: Sess, f: Frame): Sess {
    s.(frames := [f] + s.frames)
  }

  function Pop(s: Sess): Sess
    requires s.frames != []
  {
    s.(frames := s.frames[1..])
  }

  function Replace(s: Sess, f: Frame): Sess
    requires s.frames != []
  {
    s.(frames := [f] + s.frames[1..])
  }

  /** History only: every commit waiting below learns that the candidate was wiped. */
  function MarkWiped(frames: seq<Frame>): (r: seq<Frame>)
    ensures |r| == |frames|
  {
    if frames == [] then []
    else [if frames[0].CommitWait? then frames[0].(wiped := true) else frames[0]] + MarkWiped(frames[1..])
  }

  predicate CommitStarts(s: Sess, pid: Pid, readOnlyDisk: bool, running: Tree) {
    MayUse(s.lpid, pid) && View(s.candidate, running) != running && !(readOnlyDisk && running != {})
  }

  /** A request served up to its answer or its first wait. */
  function Serve(s: Sess, req: Request, running: Tree, ticket: nat): Sess
    requires Receptive(s)
  {
    match req
    case SetReq(pid, path) => if MayUse(s.lpid, pid) then Push(s, SetWait(pid, path)) else s
    case DelReq(pid, path) =>
      if MayUse(s.lpid, pid) && Exists(s.candidate, running, path)
      then s.(candidate := DeletePath(s.candidate, path)) else s
    case DiscardReq(pid) => if MayUse(s.lpid, pid) then s.(candidate := EMPTY) else s
    case LockReq(pid) => s.(lpid := Locked(s.lpid, pid))
    case UnlockReq(pid) => s.(lpid := Unlocked(s.lpid, pid))
    case MarkSavedReq(pid, saved) => if MayUse(s.lpid, pid) then s.(saved := saved) else s
    case ReadReq(_, waits) => if waits then Push(s, ReadWait(true)) else s
    case ValidateReq(pid) =>
      if MayUse(s.lpid, pid)
      then Push(s, ValidateWait(pid, s.lpid != FREE, s.lpid)).(lpid := Swapped(s.lpid, pid)) else s
    case CommitReq(pid, readOnlyDisk) =>
      if CommitStarts(s, pid, readOnlyDisk, running)
      then Push(s, CommitWait(pid, s.lpid != FREE, s.lpid, ticket, s.candidate, false))
           .(lpid := Swapped(s.lpid, pid)) else s
    case EditReq(pid, ops, options) => if MayUse(s.lpid, pid) then Push(s, Edit(ops, options, Ready)) else s
    case LoadReq(pid, clears, paths) =>
      var s' := if clears
                then s.(candidate := DeletePath(s.candidate, []), frames := MarkWiped(s.frames)) else s;
      Push(s', Load(pid, paths, Ready))
  }

  /** What an edit operation does before it waits for a path to be validated. */
  datatype Begun = Finished(candidate: Overlay, ok: bool) | Validating(candidate: Overlay, path: Path)

  function MergeBegins(c: Overlay, running: Tree, p: Path): Begun {
    if Exists(c, running, p) then Finished(c, true) else Validating(c, p)
  }

  function Begin(o: EditOp, c: Overlay, running: Tree, defaultNone: bool): Begun {
    match o.op
    case Merge => MergeBegins(c, running, o.path)
    case Replace =>
      MergeBegins(if Exists(c, running, o.path) then DeletePath(c, o.path) else c, running, o.path)
    case Create => if Exists(c, running, o.path) then Finished(c, false) else Validating(c, o.path)
    case Delete =>
      if Exists(c, running, o.path) then Finished(DeletePath(c, o.path), true) else Finished(c, false)
    case Remove => Finished(if Exists(c, running, o.path) then DeletePath(c, o.path) else c, true)
    case NotSet => Finished(c, defaultNone)
  }

  /** The wait splits an edit operation without changing what it comes to. */
  lemma BeginRefinesSet(env: Env, c: Overlay, o: EditOp)
    ensures Set(env, c, o)
         == match Begin(o, c, env.running, env.defaultNone)
            case Finished(c', ok) => Done(c', ok)
            case Validating(c', p) => if env.settable(p) then Done(SetPath(c', p), true) else Done(c', false)
  {
    ViewOfDelete(c, env.running, o.path);
  }

  /** The first operation of a list is over: a failure ends the list when it should stop. */
  function NextEdit(s: Sess, f: Frame, ok: bool): Sess
    requires s.frames != [] && f.Edit? && f.todo != []
  {
    if ok || !f.options.stop then Replace(s, f.(todo := f.todo[1..], progress := Ready)) else Pop(s)
  }

  predicate CanStep(s: Sess) {
    !Receptive(s)
  }

  /** The innermost request runs its next operation; `go` is the outcome of what is looked up
      first: the test of an edit operation, or whether a loaded node is to be set at all. */
  function Step(s: Sess, running: Tree, go: bool): Sess
    requires CanStep(s)
  {
    var f := s.frames[0];
    match f
    case Edit(todo, options, _) =>
      if todo == [] then Pop(s)
      else if !go || options.testOnly then NextEdit(s, f, go)
      else
        (match Begin(todo[0], s.candidate, running, options.defaultNone)
         case Finished(c, ok) => NextEdit(s.(candidate := c), f, ok)
         case Validating(c, p) => Replace(s, f.(todo := todo, progress := Setting(p))).(candidate := c))
    case Load(pid, paths, _) =>
      if paths == [] then Pop(s)
      else if !go || !MayUse(s.lpid, pid) then Replace(s, f.(paths := paths[1..]))
      else Replace(s, f.(paths := paths, progress := Setting(paths[0])))
    case _ => s
  }

  predicate CanResume(s: Sess) {
    s.frames != [] && Waiting(s.frames[0]) && !s.frames[0].CommitWait?
  }

  function Release(s: Sess, f: Frame): Sess
    requires s.frames != [] && HoldsLock(f)
  {
    Pop(s).(lpid := Restored(s.lpid, f.pid, f.relock))
  }

  /** The result the innermost request waits for arrives; `subst` says that the schema has
      the value substituted by a program, in which case nothing is written here, or that a read
      waits once more. */
  function Resume(s: Sess, ok: bool, subst: bool): Sess
    requires CanResume(s)
  {
    var f := s.frames[0];
    match f
    case SetWait(_, path) =>
      if !ok then Pop(s)
      else if subst then Replace(s, ReadWait(false))
      else Pop(s).(candidate := SetPath(s.candidate, path))
    case ReadWait(again) => if again && subst then Replace(s, ReadWait(false)) else Pop(s)
    case ValidateWait(_, _, _) => Release(s, f)
    case Edit(todo, _, progress) =>
      if todo == [] then s
      else if progress.Setting? && ok && subst then Replace(s, f.(todo := todo, progress := Substituting))
      else if progress.Setting? && ok then NextEdit(s.(candidate := SetPath(s.candidate, progress.path)), f, true)
      else NextEdit(s, f, ok)
    case Load(_, paths, progress) =>
      if paths == [] then s
      else if progress.Setting? && ok && subst then Replace(s, f.(paths := paths, progress := Substituting))
      else
        var s' := Replace(s, f.(paths := paths[1..], progress := Ready));
        if progress.Setting? && ok then s'.(candidate := SetPath(s.candidate, progress.path)) else s'
    case _ => s
  }

  predicate CanDeliver(s: Sess) {
    s.frames != [] && s.frames[0].CommitWait?
  }

  /** The answer of the commit manager arrives at the commit that waits for it. */
  function Deliver(s: Sess, ok: bool): Sess
    requires CanDeliver(s)
  {
    var s' := Release(s, s.frames[0]);
    if ok then s'.(candidate := EMPTY) else s'
  }

  // --- What every action keeps ---

  function LockFrames(frames: seq<Frame>): nat {
    if frames == [] then 0 else (if HoldsLock(frames[0]) then 1 else 0) + LockFrames(frames[1..])
  }

  /** Frames that hold the lock remember how to give it back; lists under way are not empty. */
  predicate GoodFrame(f: Frame) {
    match f
    case ValidateWait(pid, relock, before) => Caller(pid) && before == (if relock then pid else FREE)
    case CommitWait(pid, relock, before, _, _, _) => Caller(pid) && before == (if relock then pid else FREE)
    case Edit(todo, _, progress) => !progress.Ready? ==> todo != []
    case Load(pid, paths, progress) => Caller(pid) && (!progress.Ready? ==> paths != [])
    case _ => true
  }

  /** No request that holds the COMMIT lock or writes sits on top of one that holds it. */
  ghost predicate WellStacked(frames: seq<Frame>) {
    frames != [] ==>
      && GoodFrame(frames[0])
      && (HoldsLock(frames[0]) || Writing(frames[0]) ==> LockFrames(frames[1..]) == 0)
      && WellStacked(frames[1..])
  }

  /** The commit that waits in this session, if any. */
  function Pending(frames: seq<Frame>): (r: Option<Frame>)
    ensures r.Some? ==> r.value.CommitWait? && r.value in frames && LockFrames(frames) > 0
  {
    if frames == [] then None
    else if frames[0].CommitWait? then Some(frames[0])
    else Pending(frames[1..])
  }

  ghost predicate Valid(s: Sess) {
    && WellStacked(s.frames)
    && (s.lpid == COMMIT <==> LockFrames(s.frames) > 0)
    && match Pending(s.frames)
       case None => true
       case Some(f) => s.candidate == if f.wiped then WIPED else f.handed
  }

  /** At most one request holds the COMMIT lock: commits and validations never nest. */
  lemma {:induction false} AtMostOneLockFrame(frames: seq<Frame>)
    requires WellStacked(frames)
    ensures LockFrames(frames) <= 1
  {
    if frames != [] {
      AtMostOneLockFrame(frames[1..]);
    }
  }

  lemma {:induction false} MarkWipedKeeps(frames: seq<Frame>)
    requires WellStacked(frames)
    ensures WellStacked(MarkWiped(frames)) && LockFrames(MarkWiped(frames)) == LockFrames(frames)
    ensures Pending(MarkWiped(frames))
         == match Pending(frames) case None => None case Some(f) => Some(f.(wiped := true))
  {
    if frames != [] {
      MarkWipedKeeps(frames[1..]);
      assert MarkWiped(frames)[1..] == MarkWiped(frames[1..]);
    }
  }

  lemma {:induction false} MarkWipedAt(frames: seq<Frame>, i: nat)
    requires i < |frames|
    ensures MarkWiped(frames)[i] == if frames[i].CommitWait? then frames[i].(wiped := true) else frames[i]
  {
    if i > 0 {
      MarkWipedAt(frames[1..], i - 1);
    }
  }

  /** Serving any request keeps the lock and the stack consistent. */
  lemma ServeKeepsValid(s: Sess, req: Request, running: Tree, ticket: nat)
    requires Valid(s) && Receptive(s) && Caller(req.pid)
    ensures Valid(Serve(s, req, running, ticket))
  {
    var s' := Serve(s, req, running, ticket);
    if |s'.frames| > |s.frames| {
      if req.LoadReq? && req.clears {
        MarkWipedKeeps(s.frames);
        assert s'.frames[1..] == MarkWiped(s.frames);
        DeleteRoot(s.candidate);
      } else {
        assert s'.frames[1..] == s.frames;
      }
    }
  }

  lemma StepKeepsValid(s: Sess, running: Tree, go: bool)
    requires Valid(s) && CanStep(s)
    ensures Valid(Step(s, running, go))
  {
    var s' := Step(s, running, go);
    if |s'.frames| == |s.frames| {
      assert s'.frames[1..] == s.frames[1..];
    }
  }

  lemma ResumeKeepsValid(s: Sess, ok: bool, subst: bool)
    requires Valid(s) && CanResume(s)
    ensures Valid(Resume(s, ok, subst))
  {
    AtMostOneLockFrame(s.frames);
    var s' := Resume(s, ok, subst);
    if |s'.frames| == |s.frames| {
      assert s'.frames[1..] == s.frames[1..];
    }
  }

  lemma DeliverKeepsValid(s: Sess, ok: bool)
    requires Valid(s) && CanDeliver(s)
    ensures Valid(Deliver(s, ok))
  {
    AtMostOneLockFrame(s.frames);
  }

  // --- What the COMMIT lock freezes ---

  /** While a commit or validation waits no request moves the lock, and the only one that
      touches the candidate is a load that first deletes it: it changes it exactly when
      there was something to wipe. */
  lemma ServeUnderLock(s: Sess, req: Request, running: Tree, ticket: nat)
    requires Valid(s) && Receptive(s) && Caller(req.pid) && LockFrames(s.frames) > 0
    ensures Serve(s, req, running, ticket).lpid == COMMIT
    ensures Serve(s, req, running, ticket).candidate != s.candidate
       <==> req.LoadReq? && req.clears && s.candidate != WIPED
  {
    DeleteRoot(s.candidate);
  }

  /** No set, edit-config or load writes while a commit or validation waits: whatever writes
      was suspended before, and is still below it. */
  lemma StepUnderLock(s: Sess, running: Tree, go: bool)
    requires Valid(s) && CanStep(s) && LockFrames(s.frames) > 0
    ensures Step(s, running, go).candidate == s.candidate && Step(s, running, go).lpid == COMMIT
  {
  }

  lemma ResumeUnderLock(s: Sess, ok: bool, subst: bool)
    requires Valid(s) && CanResume(s) && LockFrames(s.frames) > 0
    ensures Resume(s, ok, subst).candidate == s.candidate
    ensures !s.frames[0].ValidateWait? ==> Resume(s, ok, subst).lpid == COMMIT
  {
  }

  /** Every write made by resuming a request is made while the lock is not COMMIT. */
  lemma WritesAreUnlocked(s: Sess, ok: bool, subst: bool)
    requires Valid(s) && CanResume(s) && Resume(s, ok, subst).candidate != s.candidate
    ensures s.lpid != COMMIT
  {
  }

  /** That is all that can be said of the lock at the time of the write: a set that found the
      session free still writes after another client has locked it, when a new set of the same
      client is refused. */
  lemma WriterMayHaveLostTheLock(s: Sess, a: Pid, b: Pid, path: Path)
    requires Receptive(s) && s.lpid == FREE && Client(a) && Client(b) && a != b
    ensures var locked := Serve(Serve(s, SetReq(a, path), {}, 0), LockReq(b), {}, 0);
            var written := Resume(locked, true, false);
            && locked.lpid == b && written.lpid == b && written.candidate == SetPath(s.candidate, path)
            && Serve(written.(frames := []), SetReq(a, path), {}, 0) == written.(frames := [])
  {
  }

  /** A validation leaves the lock and the candidate as it found them. */
  lemma ValidationRestoresLock(s: Sess, ok: bool, subst: bool)
    requires Valid(s) && CanResume(s) && s.frames[0].ValidateWait?
    ensures Resume(s, ok, subst) == Pop(s).(lpid := s.frames[0].before)
  {
    AtMostOneLockFrame(s.frames);
    SwapThenRestore(s.frames[0].before, s.frames[0].pid);
  }

  /** A commit leaves the lock as it found it, and drops exactly the candidate it handed over
      unless a load wiped it meanwhile; a failed commit keeps the candidate. */
  lemma CommitRestoresLock(s: Sess, ok: bool)
    requires Valid(s) && CanDeliver(s)
    ensures var f := s.frames[0]; var s' := Deliver(s, ok);
            && s'.lpid == f.before && s'.frames == s.frames[1..]
            && s'.candidate == (if ok then EMPTY else s.candidate)
            && (s.candidate == f.handed <==> !f.wiped || f.handed == WIPED)
  {
    SwapThenRestore(s.frames[0].before, s.frames[0].pid);
  }

  /** Starting a commit or a validation records the lock it will give back. */
  lemma StartRecordsLock(s: Sess, req: Request, running: Tree, ticket: nat)
    requires Valid(s) && Receptive(s) && Caller(req.pid)
    requires req.ValidateReq? || req.CommitReq?
    ensures var s' := Serve(s, req, running, ticket);
            s' == s || (s'.lpid == COMMIT && s'.frames[1..] == s.frames && s'.frames[0].before == s.lpid)
  {
    if MayUse(s.lpid, req.pid) {
      SwapThenRestore(s.lpid, req.pid);
    }
  }

  // --- How the commit that waits evolves ---

  /** The same commit waits, possibly wiped since, or none does. */
  ghost predicate SameCommit(before: Option<Frame>, after: Option<Frame>) {
    match (before, after)
    case (None, None) => true
    case (Some(f), Some(g)) => f.CommitWait? && g.CommitWait? && g == f.(wiped := g.wiped) && (f.wiped ==> g.wiped)
    case _ => false
  }

  ghost predicate StartsCommit(s: Sess, req: Request, running: Tree) {
    req.CommitReq? && CommitStarts(s, req.pid, req.readOnlyDisk, running)
  }

  lemma LoadKeepsCommit(s: Sess, req: Request, running: Tree, ticket: nat)
    requires Valid(s) && Receptive(s) && req.LoadReq?
    ensures SameCommit(Pending(s.frames), Pending(Serve(s, req, running, ticket).frames))
  {
    MarkWipedKeeps(s.frames);
    var s' := Serve(s, req, running, ticket);
    assert s'.frames[1..] == if req.clears then MarkWiped(s.frames) else s.frames;
  }

  lemma PushKeepsCommit(s: Sess, f: Frame)
    ensures Pending(Push(s, f).frames) == if f.CommitWait? then Some(f) else Pending(s.frames)
  {
    assert Push(s, f).frames[1..] == s.frames;
  }

  lemma ServeKeepsCommit(s: Sess, req: Request, running: Tree, ticket: nat)
    requires Valid(s) && Receptive(s) && Caller(req.pid)
    ensures StartsCommit(s, req, running) ==>
              && Pending(s.frames) == None
              && Pending(Serve(s, req, running, ticket).frames)
                 == Some(CommitWait(req.pid, s.lpid != FREE, s.lpid, ticket, s.candidate, false))
    ensures !StartsCommit(s, req, running) ==>
              SameCommit(Pending(s.frames), Pending(Serve(s, req, running, ticket).frames))
  {
    if req.LoadReq? {
      LoadKeepsCommit(s, req, running, ticket);
    } else {
      var s' := Serve(s, req, running, ticket);
      if |s'.frames| > |s.frames| {
        PushKeepsCommit(s, s'.frames[0]);
        assert Push(s, s'.frames[0]).frames == s'.frames;
      }
    }
  }

  lemma StepKeepsCommit(s: Sess, running: Tree, go: bool)
    requires Valid(s) && CanStep(s)
    ensures Pending(Step(s, running, go).frames) == Pending(s.frames)
  {
    var s' := Step(s, running, go);
    if |s'.frames| == |s.frames| {
      assert s'.frames[1..] == s.frames[1..];
    }
  }

  lemma ResumeKeepsCommit(s: Sess, ok: bool, subst: bool)
    requires Valid(s) && CanResume(s)
    ensures Pending(Resume(s, ok, subst).frames) == Pending(s.frames)
  {
    var s' := Resume(s, ok, subst);
    if |s'.frames| == |s.frames| {
      assert s'.frames[1..] == s.frames[1..];
    }
  }

  // --- Sessions locked by SYSTEM ---

  /** Only reads and loads that will be refused are under way. */
  ghost predicate Quiet(frames: seq<Frame>) {
    forall f :: f in frames ==> !HoldsLock(f) && !Writing(f) && (f.Load? ==> Client(f.pid))
  }

  ghost predicate SystemOwned(s: Sess) {
    s.lpid == SYSTEM && Quiet(s.frames)
  }

  lemma {:induction false} QuietHasNoLock(frames: seq<Frame>)
    requires Quiet(frames)
    ensures LockFrames(frames) == 0 && MarkWiped(frames) == frames
  {
    if frames != [] {
      QuietHasNoLock(frames[1..]);
      assert frames[0] in frames;
    }
  }

  /** No client request moves a session that SYSTEM holds, save a load that wipes it. */
  lemma ServeSystemOwned(s: Sess, req: Request, running: Tree, ticket: nat)
    requires Valid(s) && SystemOwned(s) && Receptive(s) && Client(req.pid)
    ensures SystemOwned(Serve(s, req, running, ticket)) && !StartsCommit(s, req, running)
    ensures Serve(s, req, running, ticket).candidate
         == if req.LoadReq? && req.clears then WIPED else s.candidate
  {
    QuietHasNoLock(s.frames);
    DeleteRoot(s.candidate);
  }

  lemma StepSystemOwned(s: Sess, running: Tree, go: bool)
    requires Valid(s) && SystemOwned(s) && CanStep(s)
    ensures SystemOwned(Step(s, running, go)) && Step(s, running, go).candidate == s.candidate
  {
    assert s.frames[0] in s.frames;
  }

  lemma ResumeSystemOwned(s: Sess, ok: bool, subst: bool)
    requires Valid(s) && SystemOwned(s) && CanResume(s)
    ensures SystemOwned(Resume(s, ok, subst)) && Resume(s, ok, subst).candidate == s.candidate
  {
    assert s.frames[0] in s.frames;
  }
}
