/** The table of sessions: who may look one up, create or destroy it, and the release of
    every lock of a caller that goes away. */
module SessionManager {
  import opened Config
  import opened Lock

  type Uid = int

  /** The owner, if the session is not shared, and the holder of its lock. */
  datatype Entry = Entry(owner: Option<Uid>, lpid: Pid)

  datatype Caller = Caller(pid: Pid, uid: Uid, configd: bool, superuser: bool)

  /** A session of one's own or of nobody; configd and superusers may use any. */
  predicate Access(e: Entry, who: Caller) {
    e.owner == Some(who.uid) || e.owner.None? || who.configd || who.superuser
  }

  function NewEntry(who: Caller, shared: bool): Entry {
    Entry(if shared then None else Some(who.uid), FREE)
  }

  /** Who finds a session that a caller has created: everyone if it is shared; else whoever has the
      same user, configd and superusers. And nobody holds its lock. */
  lemma WhoFinds(creator: Caller, shared: bool, who: Caller)
    ensures Access(NewEntry(creator, shared), who)
       <==> shared || who.uid == creator.uid || who.configd || who.superuser
    ensures MayUse(NewEntry(creator, shared).lpid, who.pid)
  {
  }

  datatype Answer = Done | NoSession | AccessDenied | SharingMismatch | LockDenied

  class Manager {
    var sessions: map<string, Entry>

    constructor ()
      ensures sessions == map[]
    {
      sessions := map[];
    }

    predicate MayAccess(who: Caller, sid: string)
      requires sid in sessions
      reads this
    {
      Access(sessions[sid], who)
    }

    method Lookup(who: Caller, sid: string) returns (a: Answer)
      ensures a == NoSession <==> sid !in sessions
      ensures a == Done <==> sid in sessions && MayAccess(who, sid)
      ensures a == Done <==>
                && sid in sessions
                && (sessions[sid].owner in {None, Some(who.uid)} || who.configd || who.superuser)
      ensures a == NoSession || a == Done || a == AccessDenied
    {
      if sid !in sessions {
        return NoSession;
      }
      var s := sessions[sid];
      if s.owner == Some(who.uid) || s.owner.None? || who.configd || who.superuser {
        return Done;
      }
      return AccessDenied;
    }

    /** An existing session is joined, never changed; only an absent one is added. */
    method Create(who: Caller, sid: string, shared: bool) returns (a: Answer)
      modifies this
      ensures old(sid !in sessions) ==>
                a == Done && sessions == old(sessions)[sid := NewEntry(who, shared)]
      ensures old(sid in sessions) ==>
                && sessions == old(sessions)
                && (a == Done <==> MayAccess(who, sid) && (shared <==> sessions[sid].owner.None?)
                                   && MayUse(sessions[sid].lpid, who.pid))
                && (a == AccessDenied <==> !MayAccess(who, sid))
                && (a == SharingMismatch <==> MayAccess(who, sid) && !(shared <==> sessions[sid].owner.None?))
                && a != NoSession
    {
      a := Lookup(who, sid);
      if a == AccessDenied {
        return;
      }
      if a == Done {
        if shared != sessions[sid].owner.None? {
          return SharingMismatch;
        }
        var lpid := sessions[sid].lpid;
        if lpid != FREE && lpid != who.pid {
          return LockDenied;
        }
        return Done;
      }
      sessions := sessions[sid := NewEntry(who, shared)];
      return Done;
    }

    /** A session goes only at the wish of a caller who may access it and could use it; an
        absent one is gone already. */
    method Destroy(who: Caller, sid: string) returns (a: Answer)
      modifies this
      ensures sid in sessions <==> old(sid in sessions && !(MayAccess(who, sid) && MayUse(sessions[sid].lpid, who.pid)))
      ensures sessions - {sid} == old(sessions) - {sid}
      ensures sid in sessions ==>
                sessions == old(sessions) && a == if MayAccess(who, sid) then LockDenied else AccessDenied
      ensures sid !in sessions ==> a == Done
    {
      a := Lookup(who, sid);
      if a == NoSession {
        return Done;
      }
      if a != Done {
        return;
      }
      var lpid := sessions[sid].lpid;
      if lpid != FREE && lpid != who.pid {
        return LockDenied;
      }
      sessions := sessions - {sid};
    }

    /** Releases exactly the caller's locks and changes no other. */
    method UnlockAllPid(pid: Pid)
      modifies this
      ensures sessions.Keys == old(sessions.Keys)
      ensures forall sid :: sid in sessions ==>
                sessions[sid] == old(sessions)[sid].(lpid := Unlocked(old(sessions)[sid].lpid, pid))
    {
      var todo := sessions.Keys;
      while todo != {}
        invariant todo <= sessions.Keys == old(sessions.Keys)
        invariant forall sid :: sid in sessions ==>
                    sessions[sid] == if sid in todo then old(sessions)[sid]
                                     else old(sessions)[sid].(lpid := Unlocked(old(sessions)[sid].lpid, pid))
      {
        var sid :| sid in todo;
        var lpid := sessions[sid].lpid;
        if lpid != FREE && lpid == pid {
          sessions := sessions[sid := sessions[sid].(lpid := FREE)];
        }
        todo := todo - {sid};
      }
    }
  }
}
