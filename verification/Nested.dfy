/** What happens in one session while a request of it is suspended: requests served inside it,
    their steps and the results they wait for, nested to any depth. */
module Nested {
  import opened Config
  import opened Lock
  import opened Session

  /** One thing that happens in a session, with what it finds: the running tree, the ticket a
      commit would get, and the outcomes that Session leaves open. */
  datatype Act =
    | Served(req: Request, running: Tree, ticket: nat)
    | Stepped(running: Tree, go: bool)
    | Resumed(ok: bool, subst: bool)
    | Delivered(ok: bool)

  predicate CanDo(s: Sess, a: Act) {
    match a
    case Served(req, _, _) => Receptive(s) && Caller(req.pid)
    case Stepped(_, _) => CanStep(s)
    case Resumed(_, _) => CanResume(s)
    case Delivered(_) => CanDeliver(s)
  }

  function Do(s: Sess, a: Act): Sess
    requires CanDo(s, a)
  {
    match a
    case Served(req, running, ticket) => Serve(s, req, running, ticket)
    case Stepped(running, go) => Step(s, running, go)
    case Resumed(ok, subst) => Resume(s, ok, subst)
    case Delivered(ok) => Deliver(s, ok)
  }

  predicate IsTrace(s: Sess, acts: seq<Act>)
    decreases |acts|
  {
    acts == [] || (CanDo(s, acts[0]) && IsTrace(Do(s, acts[0]), acts[1..]))
  }

  function TraceOf(s: Sess, acts: seq<Act>): Sess
    requires IsTrace(s, acts)
    decreases |acts|
  {
    if acts == [] then s else TraceOf(Do(s, acts[0]), acts[1..])
  }

  lemma DoKeepsValid(s: Sess, a: Act)
    requires Valid(s) && CanDo(s, a)
    ensures Valid(Do(s, a))
  {
    match a
    case Served(req, running, ticket) => ServeKeepsValid(s, req, running, ticket);
    case Stepped(running, go) => StepKeepsValid(s, running, go);
    case Resumed(ok, subst) => ResumeKeepsValid(s, ok, subst);
    case Delivered(ok) => DeliverKeepsValid(s, ok);
  }

  lemma {:induction false} TraceKeepsValid(s: Sess, acts: seq<Act>)
    requires Valid(s) && IsTrace(s, acts)
    ensures Valid(TraceOf(s, acts))
    decreases |acts|
  {
    if acts != [] {
      DoKeepsValid(s, acts[0]);
      TraceKeepsValid(Do(s, acts[0]), acts[1..]);
    }
  }

  // --- Who holds the lock ---

  /** The holder that the commit or validation under way will give the lock back to. */
  function Displaced(frames: seq<Frame>): Pid {
    if frames == [] then FREE
    else if HoldsLock(frames[0]) then frames[0].before
    else Displaced(frames[1..])
  }

  /** The holder of the lock, looking through the COMMIT lock. */
  function Holder(s: Sess): Pid {
    if s.lpid == COMMIT then Displaced(s.frames) else s.lpid
  }

  predicate Locks(s: Sess, a: Act, q: Pid) {
    a.Served? && a.req == LockReq(q) && s.lpid != COMMIT
  }

  predicate Unlocks(s: Sess, a: Act, q: Pid) {
    a.Served? && a.req == UnlockReq(q) && s.lpid != COMMIT
  }

  /** What a lock or unlock request that is served outside COMMIT makes of a holder; anything
      else makes nothing of it. */
  function FoldOne(l: Pid, s: Sess, a: Act): Pid {
    if a.Served? && s.lpid != COMMIT then
      match a.req
      case LockReq(q) => Locked(l, q)
      case UnlockReq(q) => Unlocked(l, q)
      case _ => l
    else l
  }

  function Folded(l: Pid, s: Sess, acts: seq<Act>): Pid
    requires IsTrace(s, acts)
    decreases |acts|
  {
    if acts == [] then l else Folded(FoldOne(l, s, acts[0]), Do(s, acts[0]), acts[1..])
  }

  lemma {:induction false} MarkingDisplacesNone(frames: seq<Frame>)
    ensures Displaced(MarkWiped(frames)) == Displaced(frames)
  {
    if frames != [] {
      MarkingDisplacesNone(frames[1..]);
      assert MarkWiped(frames)[1..] == MarkWiped(frames[1..]);
    }
  }

  lemma ServeFolds(s: Sess, req: Request, running: Tree, ticket: nat)
    requires Valid(s) && Receptive(s) && Caller(req.pid)
    ensures Holder(Serve(s, req, running, ticket)) == FoldOne(Holder(s), s, Served(req, running, ticket))
  {
    var s' := Serve(s, req, running, ticket);
    MarkingDisplacesNone(s.frames);
    if req.ValidateReq? || req.CommitReq? {
      StartRecordsLock(s, req, running, ticket);
    }
    if |s'.frames| > |s.frames| {
      assert s'.frames[1..] == if req.LoadReq? && req.clears then MarkWiped(s.frames) else s.frames;
    }
  }

  lemma StepFolds(s: Sess, running: Tree, go: bool)
    requires Valid(s) && CanStep(s)
    ensures Holder(Step(s, running, go)) == Holder(s)
  {
    var s' := Step(s, running, go);
    if |s'.frames| == |s.frames| {
      assert s'.frames[1..] == s.frames[1..];
    }
  }

  lemma BeforeIsNotCommit(s: Sess)
    requires Valid(s) && s.frames != [] && HoldsLock(s.frames[0])
    ensures s.lpid == COMMIT && s.frames[0].before != COMMIT
  {
  }

  lemma ResumeFolds(s: Sess, ok: bool, subst: bool)
    requires Valid(s) && CanResume(s)
    ensures Holder(Resume(s, ok, subst)) == Holder(s)
  {
    var s' := Resume(s, ok, subst);
    if s.frames[0].ValidateWait? {
      ValidationRestoresLock(s, ok, subst);
      BeforeIsNotCommit(s);
    } else if |s'.frames| == |s.frames| {
      assert s'.frames[1..] == s.frames[1..];
    }
  }

  lemma DeliverFolds(s: Sess, ok: bool)
    requires Valid(s) && CanDeliver(s)
    ensures Holder(Deliver(s, ok)) == Holder(s)
  {
    CommitRestoresLock(s, ok);
    BeforeIsNotCommit(s);
  }

  lemma DoFolds(s: Sess, a: Act)
    requires Valid(s) && CanDo(s, a)
    ensures Holder(Do(s, a)) == FoldOne(Holder(s), s, a)
  {
    match a
    case Served(req, running, ticket) => ServeFolds(s, req, running, ticket);
    case Stepped(running, go) => StepFolds(s, running, go);
    case Resumed(ok, subst) => ResumeFolds(s, ok, subst);
    case Delivered(ok) => DeliverFolds(s, ok);
  }

  /** Over every nested run the holder of the lock is the first holder folded with the lock and
      unlock requests that are served outside COMMIT: commits and validations come and go
      without a trace. */
  lemma {:induction false} HolderFolds(s: Sess, acts: seq<Act>)
    requires Valid(s) && IsTrace(s, acts)
    ensures Holder(TraceOf(s, acts)) == Folded(Holder(s), s, acts)
    decreases |acts|
  {
    if acts != [] {
      DoFolds(s, acts[0]);
      DoKeepsValid(s, acts[0]);
      HolderFolds(Do(s, acts[0]), acts[1..]);
    }
  }

  /** q gives up the lock, if it has it. */
  predicate Releases(s: Sess, acts: seq<Act>, q: Pid)
    requires IsTrace(s, acts)
    decreases |acts|
  {
    acts != [] && (Unlocks(s, acts[0], q) || Releases(Do(s, acts[0]), acts[1..], q))
  }

  /** A lock request of q finds the session free, and q does not give the lock up afterwards. */
  predicate Takes(l: Pid, s: Sess, acts: seq<Act>, q: Pid)
    requires IsTrace(s, acts)
    decreases |acts|
  {
    acts != [] &&
      var s' := Do(s, acts[0]);
      || (l == FREE && Locks(s, acts[0], q) && !Releases(s', acts[1..], q))
      || Takes(FoldOne(l, s, acts[0]), s', acts[1..], q)
  }

  /** Who ends up with the lock: the one who had it and kept it, or took it and kept it. */
  lemma {:induction false} WhoHolds(l: Pid, s: Sess, acts: seq<Act>, q: Pid)
    requires IsTrace(s, acts) && q != FREE
    ensures Folded(l, s, acts) == q <==> (l == q && !Releases(s, acts, q)) || Takes(l, s, acts, q)
    decreases |acts|
  {
    if acts != [] {
      WhoHolds(FoldOne(l, s, acts[0]), Do(s, acts[0]), acts[1..], q);
    }
  }

  // --- The request below ---

  /** Nothing but requests arriving happens to the innermost k frames of the stack. */
  predicate Above(s: Sess, acts: seq<Act>, k: nat)
    requires IsTrace(s, acts)
    decreases |acts|
  {
    acts == [] || ((acts[0].Served? || |s.frames| > k) && Above(Do(s, acts[0]), acts[1..], k))
  }

  function Bottom(s: Sess, k: nat): seq<Frame>
    requires k <= |s.frames|
  {
    s.frames[|s.frames| - k..]
  }

  lemma {:induction false} NothingToMark(frames: seq<Frame>)
    requires LockFrames(frames) == 0
    ensures MarkWiped(frames) == frames
  {
    if frames != [] {
      NothingToMark(frames[1..]);
    }
  }

  lemma {:induction false} MarkingSplits(frames: seq<Frame>, i: nat)
    requires i <= |frames|
    ensures MarkWiped(frames)[i..] == MarkWiped(frames[i..])
  {
    if i > 0 {
      MarkingSplits(frames[1..], i - 1);
      assert MarkWiped(frames)[i..] == MarkWiped(frames)[1..][i - 1..];
      assert MarkWiped(frames)[1..] == MarkWiped(frames[1..]);
    }
  }

  lemma ServePushes(s: Sess, req: Request, running: Tree, ticket: nat)
    requires Receptive(s)
    ensures var after := Serve(s, req, running, ticket).frames;
            || after == s.frames
            || (after != [] && (after[1..] == s.frames || after[1..] == MarkWiped(s.frames)))
  {
    var s' := Serve(s, req, running, ticket);
    if |s'.frames| > |s.frames| {
      assert s'.frames[1..] == if req.LoadReq? && req.clears then MarkWiped(s.frames) else s.frames;
    }
  }

  lemma ServeKeepsBottom(s: Sess, req: Request, running: Tree, ticket: nat, k: nat)
    requires Receptive(s) && k <= |s.frames| && LockFrames(Bottom(s, k)) == 0
    ensures var s' := Serve(s, req, running, ticket); k <= |s'.frames| && Bottom(s', k) == Bottom(s, k)
  {
    var after := Serve(s, req, running, ticket).frames;
    var n := |s.frames| - k;
    ServePushes(s, req, running, ticket);
    MarkingSplits(s.frames, n);
    NothingToMark(s.frames[n..]);
    if after != s.frames {
      assert after[|after| - k..] == after[1..][n..];
    }
  }

  /** The innermost frame stays, goes or is replaced, and no other changes. */
  ghost predicate TopMoves(before: seq<Frame>, after: seq<Frame>) {
    && before != []
    && (after == before || after == before[1..] || (after != [] && after[1..] == before[1..]))
  }

  lemma StepMovesTop(s: Sess, running: Tree, go: bool)
    requires CanStep(s)
    ensures TopMoves(s.frames, Step(s, running, go).frames)
  {
  }

  lemma ResumeMovesTop(s: Sess, ok: bool, subst: bool)
    requires CanResume(s)
    ensures TopMoves(s.frames, Resume(s, ok, subst).frames)
  {
  }

  lemma TopMovesAbove(before: seq<Frame>, after: seq<Frame>, k: nat)
    requires TopMoves(before, after) && k < |before|
    ensures k <= |after| && after[|after| - k..] == before[|before| - k..]
  {
    assert before[|before| - k..] == before[1..][|before| - 1 - k..];
    if after != before && after != before[1..] {
      assert after[|after| - k..] == after[1..][|after| - 1 - k..];
    }
  }

  lemma DoKeepsBottom(s: Sess, a: Act, k: nat)
    requires CanDo(s, a) && k <= |s.frames| && LockFrames(Bottom(s, k)) == 0
    requires a.Served? || |s.frames| > k
    ensures k <= |Do(s, a).frames| && Bottom(Do(s, a), k) == Bottom(s, k)
  {
    match a
    case Served(req, running, ticket) => ServeKeepsBottom(s, req, running, ticket, k);
    case Stepped(running, go) =>
      StepMovesTop(s, running, go);
      TopMovesAbove(s.frames, Do(s, a).frames, k);
    case Resumed(ok, subst) =>
      ResumeMovesTop(s, ok, subst);
      TopMovesAbove(s.frames, Do(s, a).frames, k);
    case Delivered(_) => TopMovesAbove(s.frames, Do(s, a).frames, k);
  }

  lemma {:induction false} TraceKeepsBottom(s: Sess, acts: seq<Act>, k: nat)
    requires IsTrace(s, acts) && Above(s, acts, k) && k <= |s.frames| && LockFrames(Bottom(s, k)) == 0
    ensures k <= |TraceOf(s, acts).frames| && Bottom(TraceOf(s, acts), k) == Bottom(s, k)
    decreases |acts|
  {
    if acts != [] {
      DoKeepsBottom(s, acts[0], k);
      TraceKeepsBottom(Do(s, acts[0]), acts[1..], k);
    }
  }

  // --- The lock when a set writes ---

  /** A set that is let through, anything served while it waits, and its turn to write. */
  ghost predicate SetInterrupted(s: Sess, pid: Pid, path: Path, acts: seq<Act>) {
    && Valid(s) && Receptive(s) && Caller(pid) && MayUse(s.lpid, pid)
    && var s1 := Push(s, SetWait(pid, path));
       && IsTrace(s1, acts) && Above(s1, acts, |s1.frames|)
       && |TraceOf(s1, acts).frames| == |s1.frames|
  }

  /** The set is as it was, and writes under the lock that the requests served meanwhile, outside
      COMMIT, have made of the one it found. */
  lemma LockAtTheWrite(s: Sess, pid: Pid, path: Path, acts: seq<Act>)
    requires SetInterrupted(s, pid, path, acts)
    ensures var s1 := Push(s, SetWait(pid, path));
            var s2 := TraceOf(s1, acts);
            && s1 == Serve(s, SetReq(pid, path), {}, 0)
            && s2.frames == s1.frames && s2.lpid == Folded(s.lpid, s1, acts)
            && Resume(s2, true, false) == Pop(s2).(candidate := SetPath(s2.candidate, path))
  {
    var s1 := Push(s, SetWait(pid, path));
    var s2 := TraceOf(s1, acts);
    ServeKeepsValid(s, SetReq(pid, path), {}, 0);
    assert s1.frames[1..] == s.frames;
    assert Bottom(s1, |s1.frames|) == s1.frames;
    TraceKeepsBottom(s1, acts, |s1.frames|);
    assert Bottom(s2, |s1.frames|) == s2.frames;
    TraceKeepsValid(s1, acts);
    HolderFolds(s1, acts);
  }

  /** Another client takes the lock and keeps it. */
  ghost predicate OtherTakes(l: Pid, s: Sess, acts: seq<Act>, pid: Pid)
    requires IsTrace(s, acts)
  {
    exists q :: q != FREE && q != pid && Takes(l, s, acts, q)
  }

  /** The client may still use the session when its set writes if and only if no other client has
      taken the lock meanwhile and kept it. */
  lemma WriterMayUse(s: Sess, pid: Pid, path: Path, acts: seq<Act>)
    requires SetInterrupted(s, pid, path, acts)
    ensures var s1 := Push(s, SetWait(pid, path));
            (MayUse(TraceOf(s1, acts).lpid, pid) <==> !OtherTakes(s.lpid, s1, acts, pid))
  {
    var s1 := Push(s, SetWait(pid, path));
    var l := TraceOf(s1, acts).lpid;
    LockAtTheWrite(s, pid, path, acts);
    if l != FREE && l != pid {
      WhoHolds(s.lpid, s1, acts, l);
      assert Takes(s.lpid, s1, acts, l);
    }
    if q :| q != FREE && q != pid && Takes(s.lpid, s1, acts, q) {
      WhoHolds(s.lpid, s1, acts, q);
    }
  }

  /** A client that holds the lock when it sets writes under its own lock if and only if it has
      not given it up meanwhile, or has taken it again. */
  lemma HolderWritesUnderItsLock(s: Sess, pid: Pid, path: Path, acts: seq<Act>)
    requires SetInterrupted(s, pid, path, acts) && s.lpid == pid
    ensures var s1 := Push(s, SetWait(pid, path));
            (TraceOf(s1, acts).lpid == pid <==> !Releases(s1, acts, pid) || Takes(pid, s1, acts, pid))
  {
    LockAtTheWrite(s, pid, path, acts);
    WhoHolds(pid, Push(s, SetWait(pid, path)), acts, pid);
  }
}
