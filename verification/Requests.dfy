/** What the requests of a session do, said of the nodes that show, of the lock and of what is under
    way, whatever the running tree is. */
module Requests {
  import opened Config
  import opened Lock
  import opened Nested
  import opened Session
  import Loader = Load

  /** A request that only a client who may use the session gets through with. */
  predicate AsksForTheLock(req: Request) {
    || req.SetReq? || req.DelReq? || req.DiscardReq? || req.MarkSavedReq?
    || req.ValidateReq? || req.CommitReq? || req.EditReq?
  }

  /** Another client holds the lock: nothing changes. */
  lemma RefusedToOthers(s: Sess, req: Request, running: Tree, ticket: nat)
    requires Receptive(s) && AsksForTheLock(req) && s.lpid != FREE && s.lpid != req.pid
    ensures Serve(s, req, running, ticket) == s
  {
  }

  /** Only the request under way is new: nothing has been written, and no lock has moved. */
  ghost predicate OnlyWaits(s: Sess, s': Sess, f: Frame) {
    s'.lpid == s.lpid && s'.candidate == s.candidate && s'.saved == s.saved && s'.frames == [f] + s.frames
  }

  /** A set, an edit-config, a validation and a read by a client who may use the session write nothing
      yet, and wait; a validation under the COMMIT lock. */
  lemma Starts(s: Sess, req: Request, running: Tree, ticket: nat)
    requires Receptive(s) && Caller(req.pid) && (s.lpid == FREE || s.lpid == req.pid)
    ensures var s' := Serve(s, req, running, ticket);
            && (req.SetReq? ==> OnlyWaits(s, s', SetWait(req.pid, req.path)))
            && (req.EditReq? ==> OnlyWaits(s, s', Edit(req.ops, req.options, Ready)))
            && (req.ReadReq? && req.waits ==> OnlyWaits(s, s', ReadWait(true)))
            && (req.ValidateReq? ==>
                  s'.lpid == COMMIT && OnlyWaits(s, s'.(lpid := s.lpid), ValidateWait(req.pid, s.lpid != FREE, s.lpid)))
  {
    SwapThenRestore(s.lpid, req.pid);
  }

  /** A session remembers whether it was last said to be saved, and nothing else changes. */
  lemma MarksSaved(s: Sess, pid: Pid, saved: bool, running: Tree, ticket: nat)
    requires Receptive(s) && MayUse(s.lpid, pid)
    ensures var s' := Serve(s, MarkSavedReq(pid, saved), running, ticket);
            (s'.saved <==> saved) && s' == s.(saved := s'.saved)
  {
  }

  /** A lock is taken only if the session is free, and given back only by its holder. */
  lemma MovesTheLock(s: Sess, pid: Pid, running: Tree, ticket: nat)
    requires Receptive(s) && Caller(pid)
    ensures var s' := Serve(s, LockReq(pid), running, ticket);
            && s' == s.(lpid := s'.lpid) && (s'.lpid != s.lpid <==> s.lpid == FREE)
            && (s'.lpid != s.lpid ==> s'.lpid == pid)
    ensures var s' := Serve(s, UnlockReq(pid), running, ticket);
            && s' == s.(lpid := s'.lpid) && (s'.lpid != s.lpid <==> s.lpid == pid)
            && (s'.lpid != s.lpid ==> s'.lpid == FREE)
  {
  }

  /** A delete of a node that shows takes it and what is below it; of any other node it is refused. */
  lemma DeleteTakes(s: Sess, pid: Pid, path: Path, running: Tree, ticket: nat)
    requires Receptive(s) && MayUse(s.lpid, pid)
    ensures var s' := Serve(s, DelReq(pid, path), running, ticket);
            && s' == s.(candidate := s'.candidate)
            && (s' != s <==> path in View(s.candidate, running))
            && forall q :: q in View(s'.candidate, running)
                      <==> q in View(s.candidate, running) && !(path in View(s.candidate, running) && path <= q)
  {
    ViewOfDelete(s.candidate, running, path);
  }

  /** A discard leaves a candidate that shows the running tree, whichever that is. */
  lemma DiscardForgets(s: Sess, pid: Pid, running: Tree, ticket: nat)
    requires Receptive(s) && MayUse(s.lpid, pid)
    ensures var s' := Serve(s, DiscardReq(pid), running, ticket);
            s' == s.(candidate := s'.candidate) && forall t: Tree :: View(s'.candidate, t) == t
  {
    forall t: Tree ensures View(EMPTY, t) == t {
      ViewOfEmpty(t);
    }
  }

  /** A load that replaces the candidate leaves nothing that shows, whoever holds the lock; any other
      writes nothing yet. The paths it asks for are under way, and what waits below waits on. */
  lemma LoadStarts(s: Sess, pid: Pid, clears: bool, paths: seq<Path>, running: Tree, ticket: nat)
    requires Receptive(s)
    ensures var s' := Serve(s, LoadReq(pid, clears, paths), running, ticket);
            && s'.lpid == s.lpid && s'.saved == s.saved
            && |s'.frames| == |s.frames| + 1 && s'.frames[0] == Load(pid, paths, Ready)
            && (forall t: Tree :: View(s'.candidate, t) == if clears then {} else View(s.candidate, t))
            && forall i :: 0 <= i < |s.frames| && !s.frames[i].CommitWait? ==> s'.frames[i + 1] == s.frames[i]
  {
    DeleteRoot(s.candidate);
    forall t: Tree ensures View(WIPED, t) == {} {
      WipedIsEmpty(t);
    }
    forall i | 0 <= i < |s.frames| ensures !s.frames[i].CommitWait? ==> MarkWiped(s.frames)[i] == s.frames[i] {
      MarkWipedAt(s.frames, i);
    }
  }

  // --- When a commit starts ---

  /** The candidate and the running tree differ at some node. */
  ghost predicate Uncommitted(c: Overlay, running: Tree) {
    exists q: Path :: (q in View(c, running)) != (q in running)
  }

  lemma UncommittedOrShows(c: Overlay, running: Tree)
    ensures Uncommitted(c, running) <==> View(c, running) != running
  {
    if !Uncommitted(c, running) {
      assert forall q: Path :: q in View(c, running) <==> q in running;
    }
  }

  /** A client who may use the session is refused its commit exactly when the candidate shows no node
      differently from running, or the disk is read-only and running has a node; otherwise the
      COMMIT lock is taken and the candidate is handed over as it is. */
  lemma CommitIsRefused(s: Sess, pid: Pid, readOnlyDisk: bool, running: Tree, ticket: nat)
    requires Receptive(s) && Caller(pid) && (s.lpid == FREE || s.lpid == pid)
    ensures var s' := Serve(s, CommitReq(pid, readOnlyDisk), running, ticket);
            && (s' == s <==> !Uncommitted(s.candidate, running) || (readOnlyDisk && exists q: Path :: q in running))
            && (s' != s ==>
                  && s'.lpid == COMMIT
                  && OnlyWaits(s, s'.(lpid := s.lpid),
                               CommitWait(pid, s.lpid != FREE, s.lpid, ticket, s.candidate, false)))
  {
    UncommittedOrShows(s.candidate, running);
    SwapThenRestore(s.lpid, pid);
    var s' := Serve(s, CommitReq(pid, readOnlyDisk), running, ticket);
    assert s' != s ==> |s'.frames| > |s.frames|;
    assert running != {} <==> exists q: Path :: q in running;
  }

  // --- What is written when a result arrives ---

  /** The path that the innermost request waits to set. */
  function Awaited(f: Frame): Option<Path> {
    match f
    case SetWait(_, path) => Some(path)
    case Edit(_, _, Setting(path)) => Some(path)
    case Load(_, _, Setting(path)) => Some(path)
    case _ => None
  }

  /** A resumed request writes exactly when the path it waits for was accepted and no program is to
      substitute the value. Then a node shows afterwards if it showed before or is that path or
      above it; otherwise the candidate is the one found at that moment. */
  lemma ResumeWrites(s: Sess, ok: bool, subst: bool, running: Tree)
    requires CanResume(s)
    requires s.frames[0].Edit? ==> s.frames[0].todo != []
    requires s.frames[0].Load? ==> s.frames[0].paths != []
    ensures var s' := Resume(s, ok, subst); var path := Awaited(s.frames[0]);
            && (!(path.Some? && ok && !subst) ==> s'.candidate == s.candidate)
            && (path.Some? && ok && !subst ==>
                  forall q :: q in View(s'.candidate, running)
                         <==> q in View(s.candidate, running) || (q != [] && q <= path.value))
            && s'.saved == s.saved && (!s.frames[0].ValidateWait? ==> s'.lpid == s.lpid)
  {
    if Awaited(s.frames[0]).Some? {
      ViewOfSet(s.candidate, running, Awaited(s.frames[0]).value);
    }
  }

  /** Where a resumed set, load or edit-config then is: a program is waited for if it substitutes;
      else a set is over, a load goes on with its next path whatever the result, and so does an
      edit-config, unless it failed and stops at the first failure. */
  lemma ResumeGoesOn(s: Sess, ok: bool, subst: bool)
    requires CanResume(s)
    requires s.frames[0].Edit? ==> s.frames[0].todo != []
    requires s.frames[0].Load? ==> s.frames[0].paths != []
    ensures var s' := Resume(s, ok, subst); var f := s.frames[0]; var below := s.frames[1..];
            if Awaited(f).Some? && ok && subst then
              && |s'.frames| == |s.frames| && s'.frames[1..] == below
              && Waiting(s'.frames[0]) && Awaited(s'.frames[0]).None?
            else
              && (f.SetWait? ==> s'.frames == below)
              && (f.Load? ==> s'.frames == [Load(f.pid, f.paths[1..], Ready)] + below)
              && (f.Edit? ==> s'.frames == if !ok && f.options.stop then below
                                           else [Edit(f.todo[1..], f.options, Ready)] + below)
  {
  }

  /** Over every nested run: whatever is served while a set waits, its turn comes with the lock that
      the requests served meanwhile have made of the one it found, and it writes exactly when its path
      was accepted and no program substitutes the value, into the candidate found at that moment. */
  lemma WriteAtItsTurn(s: Sess, pid: Pid, path: Path, acts: seq<Act>, ok: bool, subst: bool, running: Tree)
    requires SetInterrupted(s, pid, path, acts)
    ensures var s2 := TraceOf(Push(s, SetWait(pid, path)), acts);
            && CanResume(s2) && s2.lpid == Folded(s.lpid, Push(s, SetWait(pid, path)), acts)
            && var s3 := Resume(s2, ok, subst);
               && s3.lpid == s2.lpid
               && (!(ok && !subst) ==> s3.candidate == s2.candidate)
               && (ok && !subst ==>
                     forall q :: q in View(s3.candidate, running)
                            <==> q in View(s2.candidate, running) || (q != [] && q <= path))
  {
    LockAtTheWrite(s, pid, path, acts);
    ResumeWrites(TraceOf(Push(s, SetWait(pid, path)), acts), ok, subst, running);
  }

  // --- A load as a suspended request ---

  /** A load that is under way comes to its next path: it waits to set it exactly if that is to be set
      and its client may use the session at that moment; otherwise it passes on. Nothing is written. */
  lemma LoadComesToNext(s: Sess, running: Tree, go: bool)
    requires CanStep(s) && s.frames[0].Load?
    ensures var s' := Step(s, running, go); var f := s.frames[0]; var below := s.frames[1..];
            && s' == s.(frames := s'.frames)
            && s'.frames == if f.paths == [] then below
                            else if go && (s.lpid == FREE || s.lpid == f.pid)
                            then [Load(f.pid, f.paths, Setting(f.paths[0]))] + below
                            else [Load(f.pid, f.paths[1..], Ready)] + below
  {
  }

  /** What a load that nothing interrupts does for one path, and for all. */
  function ActsOfOne(c: Overlay, setting: Loader.Setting, p: Path): seq<Act> {
    if Exists(setting.Looks(c), setting.running, p) then [Stepped(setting.running, false)]
    else if !setting.may then [Stepped(setting.running, true)]
    else [Stepped(setting.running, true), Resumed(setting.settable(p), false)]
  }

  function ActsOfLoad(c: Overlay, setting: Loader.Setting, paths: seq<Path>): seq<Act>
    decreases |paths|
  {
    if paths == [] then [Stepped(setting.running, true)]
    else
      ActsOfOne(c, setting, paths[0])
      + ActsOfLoad(Loader.MergeOne(Loader.Merged(c, []), setting, paths[0]).candidate, setting, paths[1..])
  }

  lemma TraceCons(s: Sess, a: Act, rest: seq<Act>)
    requires CanDo(s, a) && IsTrace(Do(s, a), rest)
    ensures IsTrace(s, [a] + rest) && TraceOf(s, [a] + rest) == TraceOf(Do(s, a), rest)
  {
    assert ([a] + rest)[1..] == rest;
  }

  function Loading(s: Sess, pid: Pid, c: Overlay, paths: seq<Path>): Sess {
    s.(candidate := c, frames := [Load(pid, paths, Ready)] + s.frames)
  }

  lemma OnePath(s: Sess, pid: Pid, c: Overlay, setting: Loader.Setting, paths: seq<Path>)
    requires paths != [] && (setting.may <==> MayUse(s.lpid, pid))
    ensures var acts, s0 := ActsOfOne(c, setting, paths[0]), Loading(s, pid, c, paths);
            var s1 := Loading(s, pid, Loader.MergeOne(Loader.Merged(c, []), setting, paths[0]).candidate, paths[1..]);
            && 1 <= |acts| <= 2 && CanDo(s0, acts[0])
            && (|acts| == 1 ==> Do(s0, acts[0]) == s1)
            && (|acts| == 2 ==> CanDo(Do(s0, acts[0]), acts[1]) && Do(Do(s0, acts[0]), acts[1]) == s1)
  {
    var s0 := Loading(s, pid, c, paths);
    var acts := ActsOfOne(c, setting, paths[0]);
    assert s0.frames[1..] == s.frames;
    if |acts| == 2 {
      var s1 := Do(s0, acts[0]);
      assert s1.frames == [Load(pid, paths, Setting(paths[0]))] + s.frames;
      assert s1.frames[1..] == s.frames;
    }
  }

  lemma ErrorsDoNotMatter(m: Loader.Merged, setting: Loader.Setting, p: Path)
    ensures Loader.MergeOne(m, setting, p).candidate
         == Loader.MergeOne(Loader.Merged(m.candidate, []), setting, p).candidate
  {
  }

  /** A load that nothing interrupts leaves, as a suspended request, the candidate that the walk over
      the loaded tree leaves, and is over. */
  lemma {:induction false} LoadAlone(s: Sess, pid: Pid, m: Loader.Merged, setting: Loader.Setting, paths: seq<Path>)
    requires setting.may <==> MayUse(s.lpid, pid)
    ensures var acts := ActsOfLoad(m.candidate, setting, paths);
            && IsTrace(Loading(s, pid, m.candidate, paths), acts)
            && TraceOf(Loading(s, pid, m.candidate, paths), acts)
               == s.(candidate := Loader.Merge(m, setting, paths).candidate)
    decreases |paths|
  {
    var s0 := Loading(s, pid, m.candidate, paths);
    if paths == [] {
      var a := Stepped(setting.running, true);
      assert [a][1..] == [] && s0.frames[1..] == s.frames;
      assert Do(s0, a) == s.(candidate := m.candidate);
    } else {
      var m' := Loader.MergeOne(m, setting, paths[0]);
      ErrorsDoNotMatter(m, setting, paths[0]);
      OnePath(s, pid, m.candidate, setting, paths);
      LoadAlone(s, pid, m', setting, paths[1..]);
      var first, rest := ActsOfOne(m.candidate, setting, paths[0]), ActsOfLoad(m'.candidate, setting, paths[1..]);
      if |first| == 1 {
        TraceCons(s0, first[0], rest);
        assert first + rest == [first[0]] + rest;
      } else {
        TraceCons(Do(s0, first[0]), first[1], rest);
        TraceCons(s0, first[0], [first[1]] + rest);
        assert first + rest == [first[0]] + ([first[1]] + rest);
      }
    }
  }
}
