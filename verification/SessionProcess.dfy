/** The session object: the methods that serve its requests, each up to its answer or its
    first wait, and those that go on when what was waited for arrives. */
module SessionProcess {
  import opened Config
  import opened EditOps
  import opened Lock
  import opened Requests
  import opened Session

  class Process {
    var lpid: Pid
    var candidate: Overlay
    var saved: bool
    var frames: seq<Frame>

    constructor ()
      ensures State() == NEW_SESSION
    {
      lpid, candidate, saved, frames := FREE, EMPTY, false, [];
    }

    function State(): Sess
      reads this
    {
      Sess(lpid, candidate, saved, frames)
    }

    /** Taking a lock that is held is refused, even to its holder; the answer names the holder. */
    method Lock(pid: Pid) returns (holder: Pid, ok: bool)
      modifies `lpid
      ensures lpid == Locked(old(lpid), pid)
      ensures ok <==> old(lpid) == FREE
      ensures holder == lpid
    {
      if lpid == FREE {
        lpid := pid;
        return pid, true;
      } else if lpid == pid {
        return pid, false;
      }
      return lpid, false;
    }

    method TryLock(pid: Pid) returns (ok: bool)
      ensures ok <==> MayUse(lpid, pid)
    {
      if lpid == FREE {
        return true;
      } else if lpid == pid {
        return true;
      }
      return false;
    }

    method Unlock(pid: Pid) returns (holder: Pid, ok: bool)
      requires Caller(pid) || pid == COMMIT
      modifies `lpid
      ensures lpid == Unlocked(old(lpid), pid)
      ensures ok <==> old(lpid) == pid
      ensures holder == old(lpid)
    {
      if lpid == FREE {
        return lpid, false;
      } else if lpid == pid {
        lpid := FREE;
        return pid, true;
      }
      return lpid, false;
    }

    method Set(pid: Pid, path: Path) returns (ok: bool)
      requires Receptive(State())
      modifies this
      ensures State() == Serve(old(State()), SetReq(pid, path), {}, 0)
      ensures ok <==> MayUse(old(lpid), pid)
    {
      ok := TryLock(pid);
      if !ok {
        return;
      }
      frames := [SetWait(pid, path)] + frames;
    }

    method Del(pid: Pid, path: Path, running: Tree) returns (ok: bool)
      requires Receptive(State())
      modifies this
      ensures State() == Serve(old(State()), DelReq(pid, path), running, 0)
      ensures ok <==> MayUse(old(lpid), pid) && Exists(old(candidate), running, path)
    {
      ok := TryLock(pid);
      if !ok {
        return;
      }
      if !Exists(candidate, running, path) {
        return false;
      }
      candidate := DeletePath(candidate, path);
    }

    method Discard(pid: Pid) returns (ok: bool)
      requires Receptive(State())
      modifies this
      ensures State() == Serve(old(State()), DiscardReq(pid), {}, 0)
      ensures ok <==> MayUse(old(lpid), pid)
    {
      ok := TryLock(pid);
      if ok {
        candidate := EMPTY;
      }
    }

    method MarkSaved(pid: Pid, value: bool) returns (ok: bool)
      requires Receptive(State())
      modifies this
      ensures State() == Serve(old(State()), MarkSavedReq(pid, value), {}, 0)
      ensures ok <==> MayUse(old(lpid), pid)
    {
      ok := TryLock(pid);
      if ok {
        saved := value;
      }
    }

    /** The lock is given up if it was held, and COMMIT takes it. */
    method SwapLock(pid: Pid) returns (relock: bool)
      requires Caller(pid)
      modifies `lpid
      ensures lpid == Swapped(old(lpid), pid) && relock == (old(lpid) != FREE)
    {
      relock := lpid != FREE;
      if relock {
        var _, _ := Unlock(pid);
      }
      var _, _ := Lock(COMMIT);
    }

    /** The deferred calls: COMMIT gives the lock back, then the caller takes it again. */
    method RestoreLock(pid: Pid, relock: bool)
      modifies `lpid
      ensures lpid == Restored(old(lpid), pid, relock)
    {
      var _, _ := Unlock(COMMIT);
      if relock {
        var _, _ := Lock(pid);
      }
    }

    method Validate(pid: Pid) returns (ok: bool)
      requires Receptive(State()) && Caller(pid)
      modifies this
      ensures State() == Serve(old(State()), ValidateReq(pid), {}, 0)
      ensures ok <==> MayUse(old(lpid), pid)
    {
      ok := TryLock(pid);
      if !ok {
        return;
      }
      var before := lpid;
      var relock := SwapLock(pid);
      frames := [ValidateWait(pid, relock, before)] + frames;
    }

    method Commit(pid: Pid, readOnlyDisk: bool, running: Tree, ticket: nat) returns (ok: bool)
      requires Receptive(State()) && Caller(pid)
      modifies this
      ensures State() == Serve(old(State()), CommitReq(pid, readOnlyDisk), running, ticket)
      ensures ok <==> MayUse(old(lpid), pid) && Uncommitted(candidate, running)
                      && !(readOnlyDisk && exists q: Path :: q in running)
      ensures candidate == old(candidate) && (ok <==> |frames| > |old(frames)|)
    {
      ok := TryLock(pid);
      if !ok {
        return;
      }
      UncommittedOrShows(candidate, running);
      if View(candidate, running) == running {
        return false;
      }
      assert running != {} <==> exists q: Path :: q in running;
      if readOnlyDisk && running != {} {
        return false;
      }
      var before := lpid;
      var relock := SwapLock(pid);
      frames := [CommitWait(pid, relock, before, ticket, candidate, false)] + frames;
    }

    method EditConfig(pid: Pid, ops: seq<EditOp>, options: Options) returns (ok: bool)
      requires Receptive(State())
      modifies this
      ensures State() == Serve(old(State()), EditReq(pid, ops, options), {}, 0)
      ensures ok <==> MayUse(old(lpid), pid)
    {
      ok := TryLock(pid);
      if ok {
        frames := [Edit(ops, options, Ready)] + frames;
      }
    }

    /** Deletes first, when it replaces the candidate, and asks for the lock afterwards. */
    method LoadTree(pid: Pid, clears: bool, paths: seq<Path>)
      requires Receptive(State())
      modifies this
      ensures State() == Serve(old(State()), LoadReq(pid, clears, paths), {}, 0)
    {
      if clears {
        candidate := DeletePath(candidate, []);
        frames := MarkWiped(frames);
      }
      frames := [Load(pid, paths, Ready)] + frames;
    }

    /** One request, whichever it is. */
    method ProcessReq(req: Request, running: Tree, ticket: nat)
      requires Receptive(State()) && Caller(req.pid)
      modifies this
      ensures State() == Serve(old(State()), req, running, ticket)
    {
      match req
      case SetReq(pid, path) => var _ := Set(pid, path);
      case DelReq(pid, path) => var _ := Del(pid, path, running);
      case DiscardReq(pid) => var _ := Discard(pid);
      case LockReq(pid) => var _, _ := Lock(pid);
      case UnlockReq(pid) => var _, _ := Unlock(pid);
      case MarkSavedReq(pid, value) => var _ := MarkSaved(pid, value);
      case ReadReq(_, waits) =>
        if waits {
          frames := [ReadWait(true)] + frames;
        }
      case ValidateReq(pid) => var _ := Validate(pid);
      case CommitReq(pid, readOnlyDisk) => var _ := Commit(pid, readOnlyDisk, running, ticket);
      case EditReq(pid, ops, options) => var _ := EditConfig(pid, ops, options);
      case LoadReq(pid, clears, paths) => LoadTree(pid, clears, paths);
    }

    /** A commit that gets its answer: the candidate is dropped on success, and the deferred
        calls restore the lock either way. */
    method CommitReturns(ok: bool)
      requires CanDeliver(State())
      modifies this
      ensures State() == Deliver(old(State()), ok)
    {
      var f := frames[0];
      if ok {
        candidate := EMPTY;
      }
      RestoreLock(f.pid, f.relock);
      frames := frames[1..];
    }

    method ValidateReturns()
      requires CanResume(State()) && frames[0].ValidateWait?
      modifies this
      ensures forall ok, subst :: State() == Resume(old(State()), ok, subst)
    {
      var f := frames[0];
      RestoreLock(f.pid, f.relock);
      frames := frames[1..];
    }

    /** A set whose path has been validated writes the candidate as it is now, not as it was
        when the lock was checked: the path and what is above it, exactly if the path was accepted
        and no program substitutes the value. */
    method SetReturns(ok: bool, subst: bool)
      requires CanResume(State()) && frames[0].SetWait?
      modifies this
      ensures State() == Resume(old(State()), ok, subst)
      ensures !ok || subst ==> candidate == old(candidate)
      ensures ok && !subst ==>
                forall running, q :: q in View(candidate, running)
                                <==> q in View(old(candidate), running) || (q != [] && q <= old(frames[0].path))
    {
      var path := frames[0].path;
      frames := frames[1..];
      if !ok {
        return;
      }
      if subst {
        frames := [ReadWait(false)] + frames;
        return;
      }
      candidate := SetPath(candidate, path);
    }

    /** One operation of an edit-config request, up to its wait for a path to be validated. */
    method PerformNext(running: Tree, tested: bool)
      requires CanStep(State()) && frames[0].Edit?
      modifies this
      ensures State() == Step(old(State()), running, tested)
    {
      var f := frames[0];
      if f.todo == [] {
        frames := frames[1..];
        return;
      }
      var ok := tested;
      if tested && !f.options.testOnly {
        match Begin(f.todo[0], candidate, running, f.options.defaultNone)
        case Validating(c, p) =>
          candidate := c;
          frames := [f.(todo := f.todo, progress := Setting(p))] + frames[1..];
          return;
        case Finished(c, done) =>
          candidate := c;
          ok := done;
      }
      if ok || !f.options.stop {
        frames := [f.(todo := f.todo[1..], progress := Ready)] + frames[1..];
      } else {
        frames := frames[1..];
      }
    }

    /** The path of an edit-config's operation has been validated. */
    method OperationReturns(ok: bool, subst: bool)
      requires CanResume(State()) && frames[0].Edit? && frames[0].todo != []
      modifies this
      ensures State() == Resume(old(State()), ok, subst)
    {
      var f := frames[0];
      if f.progress.Setting? && ok {
        if subst {
          frames := [f.(todo := f.todo, progress := Substituting)] + frames[1..];
          return;
        }
        candidate := SetPath(candidate, f.progress.path);
      }
      if ok || !f.options.stop {
        frames := [f.(todo := f.todo[1..], progress := Ready)] + frames[1..];
      } else {
        frames := frames[1..];
      }
    }

    /** A load comes to its next path, unless it exists: the lock is asked for only now, and a
        refusal is no end. */
    method LoadNext(running: Tree, missing: bool)
      requires CanStep(State()) && frames[0].Load?
      modifies this
      ensures State() == Step(old(State()), running, missing)
    {
      var f := frames[0];
      if f.paths == [] {
        frames := frames[1..];
        return;
      }
      if missing {
        var ok := TryLock(f.pid);
        if ok {
          frames := [f.(paths := f.paths, progress := Setting(f.paths[0]))] + frames[1..];
          return;
        }
      }
      frames := [f.(paths := f.paths[1..])] + frames[1..];
    }

    /** The path of a loaded node has been validated; a refusal is recorded, and the load goes on. */
    method NodeReturns(ok: bool, subst: bool)
      requires CanResume(State()) && frames[0].Load? && frames[0].paths != []
      modifies this
      ensures State() == Resume(old(State()), ok, subst)
    {
      var f := frames[0];
      if f.progress.Setting? && ok {
        if subst {
          frames := [f.(paths := f.paths, progress := Substituting)] + frames[1..];
          return;
        }
        candidate := SetPath(candidate, f.progress.path);
      }
      frames := [f.(paths := f.paths[1..], progress := Ready)] + frames[1..];
    }
  }
}
