/** The session lock: who may use a session, and what lock and unlock do to its holder. */
module Lock {

  type Pid = int

  /** The free lock, and the two holders that are no client. */
  const FREE: Pid := 0
  const COMMIT: Pid := -1
  const SYSTEM: Pid := -2

  /** A pid a request may carry. */
  predicate Caller(pid: Pid) {
    pid != FREE && pid != COMMIT
  }

  predicate Client(pid: Pid) {
    Caller(pid) && pid != SYSTEM
  }

  predicate MayUse(lpid: Pid, pid: Pid) {
    lpid == FREE || lpid == pid
  }

  function Locked(lpid: Pid, pid: Pid): Pid {
    if lpid == FREE then pid else lpid
  }

  function Unlocked(lpid: Pid, pid: Pid): Pid {
    if lpid == pid then FREE else lpid
  }

  /** What commit and validate do to the lock when they start: give up the caller's, if the
      session was locked, and take the COMMIT lock. */
  function Swapped(lpid: Pid, pid: Pid): Pid {
    Locked(if lpid != FREE then Unlocked(lpid, pid) else lpid, COMMIT)
  }

  /** What their deferred calls do when they return, last one first. */
  function Restored(lpid: Pid, pid: Pid, relock: bool): Pid {
    var free := Unlocked(lpid, COMMIT);
    if relock then Locked(free, pid) else free
  }

  /** A caller who may use the session gets its lock back as it was. */
  lemma SwapThenRestore(lpid: Pid, pid: Pid)
    requires Caller(pid) && MayUse(lpid, pid)
    ensures Swapped(lpid, pid) == COMMIT
    ensures Restored(Swapped(lpid, pid), pid, lpid != FREE) == lpid
  {
  }
}
