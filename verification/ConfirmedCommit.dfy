/** Commits that must be confirmed before a timer reverts them (section 8.4 of RFC 6241). The
    job that holds the pending record is external: what it does is an assumed contract, and
    whether it works is an input. */
module ConfirmedCommit {
  import opened Config
  import opened Lock
  import opened Text

  // --- The parameters of a request ---

  const DEFAULT_TIMEOUT: nat := 600
  const MAX_UINT32: nat := 0xFFFF_FFFF

  datatype CommitInfo = CommitInfo(confirmed: bool, timeout: nat, persist: string, persistId: string)

  /** No time-out means the default one; any other text must be a number from 1 to 2^32 - 1. */
  method NewCommitInfo(confirmed: bool, timeout: string, persist: string, persistId: string)
    returns (r: Option<CommitInfo>)
    ensures r.Some? <==>
              timeout == "" || (Value(timeout, Decimal).Some? && 0 < Value(timeout, Decimal).value <= MAX_UINT32)
    ensures r.Some? ==> 0 < r.value.timeout <= MAX_UINT32
    ensures r.Some? && timeout == "" ==> r.value.timeout == DEFAULT_TIMEOUT
    ensures r.Some? && timeout != "" ==> Value(timeout, Decimal) == Some(r.value.timeout)
    ensures r.Some? ==> r.value.confirmed == confirmed && r.value.persist == persist && r.value.persistId == persistId
  {
    var seconds := DEFAULT_TIMEOUT;
    if timeout != "" {
      match Value(timeout, Decimal)
      case None => return None;
      case Some(v) =>
        if v > MAX_UINT32 || v == 0 {
          return None;
        }
        seconds := v;
    }
    r := Some(CommitInfo(confirmed, seconds, persist, persistId));
  }

  // --- The state and what may happen ---

  /** The pending confirmed commit: who made it, and the identifier that may confirm it. */
  datatype Record = Record(session: Pid, persistId: string)

  type Sid = nat

  /** The pending confirmed commit; the minutes a commit-confirm left before it is rolled back,
      which is a timer of its own; the running tree; and the sessions' candidates. */
  datatype State = State(pending: Option<Record>, timer: Option<int>, running: Tree, candidates: map<Sid, Overlay>) {
    predicate Changed(sid: Sid)
      requires sid in candidates
    {
      View(candidates[sid], running) != running
    }
  }

  /** What decides how a commit ends: whether the session's commit succeeds, and without errors,
      the running tree is saved, and the external job confirms and schedules. */
  datatype Outcome = Outcome(ok: bool, clean: bool, saved: bool, confirms: bool, schedules: bool)

  /** What a confirm job does: whether it gives the pending record up, and whether it cancels the
      timer of a commit-confirm. */
  datatype Silence = Silence(drops: bool, cancels: bool)

  /** What decides how a rollback goes up to its commit: its silent confirm job, whether the
      revision exists, whether it loads, and the candidate that loading it leaves. */
  datatype Archive = Archive(silence: Silence, exists_: bool, loads: bool, loaded: Overlay)

  /** A Job is a request that only runs a confirm job: confirm, with or without a persist-id,
      silently, or as a confirming commit does. */
  datatype Event =
    | Commit(pid: Pid, sid: Sid, outcome: Outcome)
    | CommitConfirm(pid: Pid, sid: Sid, minutes: int, outcome: Outcome)
    | Confirmed(pid: Pid, sid: Sid, cmt: CommitInfo, outcome: Outcome)
    | Cancel(pid: Pid, sid: Sid, persistId: string, force: bool, archive: Archive, outcome: Outcome)
    | Rollback(pid: Pid, sid: Sid, revert: bool, archive: Archive, outcome: Outcome)
    | Job(silence: Silence)
    | Disconnect(pid: Pid, reverts: bool, reverted: Tree)

  // --- One commit ---

  datatype Verdict = Blocked | Confirming | Unconcerned

  function Required(pending: Option<Record>, pid: Pid, cmt: Option<CommitInfo>, revert: bool): Verdict {
    match pending
    case None => Unconcerned
    case Some(info) =>
      if revert then Confirming
      else
        match cmt
        case None => Blocked
        case Some(c) =>
          if info.persistId != c.persistId then Blocked
          else if c.persistId == "" && info.session != pid then Blocked
          else if !c.confirmed then Confirming
          else Unconcerned
  }

  function Confirm(s: State, o: Outcome): State {
    if o.confirms then s.(pending := None) else s
  }

  function Stored(s: State, sid: Sid): State
    requires sid in s.candidates
  {
    s.(running := View(s.candidates[sid], s.running), candidates := s.candidates[sid := EMPTY])
  }

  /** What is scheduled after a commit without errors. */
  function Scheduled(s: State, pid: Pid, cmt: Option<CommitInfo>, minutes: int, o: Outcome): State {
    if !(o.clean && o.saved && o.schedules) then s
    else if cmt.Some? && cmt.value.confirmed then s.(pending := Some(Record(pid, cmt.value.persist)))
    else if minutes != 0 then s.(timer := Some(minutes))
    else s
  }

  function CommitWith(s: State, pid: Pid, sid: Sid, cmt: Option<CommitInfo>, minutes: int, revert: bool, o: Outcome)
    : State
  {
    if sid !in s.candidates then s
    else
      match Required(s.pending, pid, cmt, revert)
      case Blocked => s
      case verdict =>
        var t := if verdict.Confirming? then Confirm(s, o) else s;
        if !s.Changed(sid) || !o.ok then t else Scheduled(Stored(t, sid), pid, cmt, minutes, o)
  }

  // --- One rollback ---

  function Silenced(s: State, silence: Silence): State {
    s.(pending := if silence.drops then None else s.pending, timer := if silence.cancels then None else s.timer)
  }

  predicate Loads(s: State, sid: Sid, a: Archive) {
    sid in s.candidates && !s.Changed(sid) && a.exists_
  }

  /** The silent confirm job comes before every check. */
  function RollbackWith(s: State, pid: Pid, sid: Sid, revert: bool, a: Archive, o: Outcome): State {
    var q := Silenced(s, a.silence);
    if !Loads(q, sid, a) then q
    else
      var t := q.(candidates := q.candidates[sid := a.loaded]);
      if a.loads && t.Changed(sid) then CommitWith(t, pid, sid, None, 0, revert, o) else t
  }

  predicate MayCancel(pending: Option<Record>, pid: Pid, persistId: string) {
    && pending.Some?
    && pending.value.persistId == persistId
    && (persistId == "" ==> pending.value.session == pid)
  }

  predicate OwnSession(pending: Option<Record>, pid: Pid) {
    pending.Some? && pending.value.persistId == "" && pending.value.session == pid
  }

  function Next(s: State, e: Event): State {
    match e
    case Commit(pid, sid, o) => CommitWith(s, pid, sid, None, 0, false, o)
    case CommitConfirm(pid, sid, minutes, o) => CommitWith(s, pid, sid, None, minutes, false, o)
    case Confirmed(pid, sid, cmt, o) => CommitWith(s, pid, sid, Some(cmt), 0, false, o)
    case Cancel(pid, sid, persistId, force, a, o) =>
      if !force && !MayCancel(s.pending, pid, persistId) then s else RollbackWith(s, pid, sid, true, a, o)
    case Rollback(pid, sid, revert, a, o) => RollbackWith(s, pid, sid, revert, a, o)
    case Job(silence) => Silenced(s, silence)
    case Disconnect(pid, reverts, reverted) =>
      if OwnSession(s.pending, pid) && reverts then s.(pending := None, running := reverted) else s
  }

  // --- The dispatcher's methods ---

  class Dispatcher {
    var pending: Option<Record>
    var timer: Option<int>
    var running: Tree
    var candidates: map<Sid, Overlay>

    constructor (running: Tree, candidates: map<Sid, Overlay>)
      ensures Now() == State(None, None, running, candidates)
    {
      pending, timer, this.running, this.candidates := None, None, running, candidates;
    }

    function Now(): State
      reads this
    {
      State(pending, timer, running, candidates)
    }

    /** Confirms a pending confirmed commit if this commit may and should. */
    method PerformConfirmingCommitIfRequired(pid: Pid, cmt: Option<CommitInfo>, revert: bool, o: Outcome)
      returns (confirming: bool, ok: bool)
      modifies `pending
      ensures var verdict := Required(old(pending), pid, cmt, revert);
              && confirming == verdict.Confirming? && ok == !verdict.Blocked?
              && Now() == if verdict.Confirming? then Confirm(old(Now()), o) else old(Now())
    {
      if pending.Some? {
        var info := pending.value;
        if revert {
          ConfirmingCommit(o);
          return true, true;
        }
        if cmt.None? {
          return false, false;
        }
        if info.persistId != cmt.value.persistId {
          return false, false;
        }
        if cmt.value.persistId == "" && info.session != pid {
          return false, false;
        }
        if !cmt.value.confirmed {
          ConfirmingCommit(o);
          return true, true;
        }
      }
      return false, true;
    }

    method ConfirmingCommit(o: Outcome)
      modifies `pending
      ensures Now() == Confirm(old(Now()), o)
    {
      if o.confirms {
        pending := None;
      }
    }

    /** The commit of the session itself: nothing to commit is a failure. */
    method SessionCommit(sid: Sid, o: Outcome) returns (ok: bool)
      requires sid in candidates
      modifies `running, `candidates
      ensures ok <==> old(Now()).Changed(sid) && o.ok
      ensures Now() == if ok then Stored(old(Now()), sid) else old(Now())
    {
      ok := View(candidates[sid], running) != running && o.ok;
      if ok {
        running := View(candidates[sid], running);
        candidates := candidates[sid := EMPTY];
      }
    }

    method ConfirmedCommitInternal(pid: Pid, sid: Sid, cmt: Option<CommitInfo>, confirmTimeout: int, revert: bool,
                                   o: Outcome)
      modifies this
      ensures Now() == CommitWith(old(Now()), pid, sid, cmt, confirmTimeout, revert, o)
    {
      if sid !in candidates {
        return;
      }
      var confirming, proceeds := PerformConfirmingCommitIfRequired(pid, cmt, revert, o);
      if !proceeds {
        return;
      }
      if confirming && View(candidates[sid], running) == running {
        return;
      }
      var ok := SessionCommit(sid, o);
      if ok && o.clean {
        if !o.saved {
          return;
        }
        if cmt.Some? && cmt.value.confirmed {
          if o.schedules {
            pending := Some(Record(pid, cmt.value.persist));
          }
        } else if confirmTimeout != 0 {
          if o.schedules {
            timer := Some(confirmTimeout);
          }
        }
      }
    }

    method ConfirmSilent(silence: Silence)
      modifies `pending, `timer
      ensures Now() == Silenced(old(Now()), silence)
    {
      if silence.drops {
        pending := None;
      }
      if silence.cancels {
        timer := None;
      }
    }

    method RollbackInternal(pid: Pid, sid: Sid, revert: bool, a: Archive, o: Outcome)
      modifies this
      ensures Now() == RollbackWith(old(Now()), pid, sid, revert, a, o)
    {
      ConfirmSilent(a.silence);
      if sid !in candidates || View(candidates[sid], running) != running {
        return;
      }
      if !a.exists_ {
        return;
      }
      candidates := candidates[sid := a.loaded];
      if !a.loads {
        return;
      }
      if View(candidates[sid], running) != running {
        ConfirmedCommitInternal(pid, sid, None, 0, revert, o);
      }
    }

    method CancelCommit(pid: Pid, sid: Sid, persistId: string, force: bool, a: Archive, o: Outcome)
      modifies this
      ensures Now() == Next(old(Now()), Cancel(pid, sid, persistId, force, a, o))
    {
      if !force {
        if pending.None? {
          return;
        }
        if pending.value.persistId != persistId {
          return;
        }
        if pending.value.persistId == "" && pending.value.session != pid {
          return;
        }
      }
      RollbackInternal(pid, sid, true, a, o);
    }

    method SessionTermination(pid: Pid, reverts: bool, reverted: Tree)
      modifies this
      ensures Now() == Next(old(Now()), Disconnect(pid, reverts, reverted))
    {
      if pending.Some? && pending.value.persistId == "" && pending.value.session == pid {
        if reverts {
          pending, running := None, reverted;
        }
      }
    }
  }

  // --- What each event does, said of the nodes, the record and the timer ---

  /** The candidate, over the running tree, differs from it at some node. */
  ghost predicate Edits(c: Overlay, running: Tree) {
    exists q: Path :: (q in View(c, running)) != (q in running)
  }

  lemma EditsOrShows(c: Overlay, running: Tree)
    ensures Edits(c, running) <==> View(c, running) != running
  {
    if !Edits(c, running) {
      assert forall q: Path :: q in View(c, running) <==> q in running;
    }
  }

  predicate IsCommit(e: Event) {
    e.Commit? || e.CommitConfirm? || e.Confirmed?
  }

  /** No commit is pending, or this one shows its identifier or, if it has none, comes from its
      session. */
  predicate LetThrough(s: State, e: Event) {
    s.pending.Some? ==>
      && e.Confirmed? && e.cmt.persistId == s.pending.value.persistId
      && (e.cmt.persistId == "" ==> e.pid == s.pending.value.session)
  }

  /** The commit is let through, has something to commit, and the session's commit succeeds. */
  ghost predicate Succeeds(s: State, e: Event)
    requires IsCommit(e)
  {
    && LetThrough(s, e) && e.sid in s.candidates && Edits(s.candidates[e.sid], s.running) && e.outcome.ok
  }

  /** And then saving and scheduling succeed. */
  ghost predicate Schedules(s: State, e: Event)
    requires IsCommit(e)
  {
    Succeeds(s, e) && e.outcome.clean && e.outcome.saved && e.outcome.schedules
  }

  /** A commit that succeeds makes running what its candidate shows, and its candidate show running;
      any other changes neither, and no commit changes another candidate. */
  lemma CommitStores(s: State, e: Event)
    requires IsCommit(e)
    ensures var s' := Next(s, e);
            && (forall q :: q in s'.running
                  <==> if Succeeds(s, e) then q in View(s.candidates[e.sid], s.running) else q in s.running)
            && s'.candidates.Keys == s.candidates.Keys
            && (forall sid :: sid in s.candidates && !(Succeeds(s, e) && sid == e.sid) ==>
                                s'.candidates[sid] == s.candidates[sid])
            && (Succeeds(s, e) ==> forall t: Tree :: View(s'.candidates[e.sid], t) == t)
  {
    if e.sid in s.candidates { EditsOrShows(s.candidates[e.sid], s.running); }
    forall t: Tree ensures View(EMPTY, t) == t {
      ViewOfEmpty(t);
    }
  }

  /** Exactly the record that a commit leaves: a confirmed commit that succeeds and is scheduled makes
      its own pending, whatever its persist identifier; a confirming one gives the pending one up if
      the job does, even when it then fails; any other leaves it alone. */
  lemma CommitLeavesRecord(s: State, e: Event)
    requires IsCommit(e)
    ensures Next(s, e).pending
         == if e.Confirmed? && e.cmt.confirmed && Schedules(s, e) then Some(Record(e.pid, e.cmt.persist))
            else if e.Confirmed? && !e.cmt.confirmed && LetThrough(s, e) && e.sid in s.candidates
                    && e.outcome.confirms then None
            else s.pending
  {
    if e.sid in s.candidates { EditsOrShows(s.candidates[e.sid], s.running); }
  }

  /** The timer is set exactly by a commit with minutes that succeeds and is scheduled. */
  lemma CommitSetsTimer(s: State, e: Event)
    requires IsCommit(e)
    ensures Next(s, e).timer
         == if e.CommitConfirm? && e.minutes != 0 && Schedules(s, e) then Some(e.minutes) else s.timer
  {
    if e.sid in s.candidates { EditsOrShows(s.candidates[e.sid], s.running); }
  }

  predicate IsRollback(e: Event) {
    e.Rollback? || e.Cancel?
  }

  /** A cancel needs to be forced, or to show what the pending record asks for; a rollback nothing. */
  predicate MayStart(s: State, e: Event)
    requires IsRollback(e)
  {
    || e.Rollback? || e.force
    || (s.pending.Some? && e.persistId == s.pending.value.persistId
        && (e.persistId == "" ==> e.pid == s.pending.value.session))
  }

  /** Its session has nothing uncommitted, and the revision exists: it is loaded. */
  ghost predicate LoadsRevision(s: State, e: Event)
    requires IsRollback(e)
  {
    MayStart(s, e) && e.sid in s.candidates && !Edits(s.candidates[e.sid], s.running) && e.archive.exists_
  }

  /** The revision has loaded, and there is something to commit. */
  ghost predicate Attempts(s: State, e: Event)
    requires IsRollback(e)
  {
    LoadsRevision(s, e) && e.archive.loads && Edits(e.archive.loaded, s.running)
  }

  /** A revert is let through by any record, another rollback only if its confirm job has left none. */
  ghost predicate Reverts(s: State, e: Event)
    requires IsRollback(e)
  {
    Attempts(s, e) && e.outcome.ok && (e.Cancel? || e.revert || s.pending.None? || e.archive.silence.drops)
  }

  /** What a rollback or cancel leaves of running and of the candidates. */
  lemma RollbackStores(s: State, e: Event)
    requires IsRollback(e)
    ensures var s' := Next(s, e);
            && (forall q :: q in s'.running
                  <==> if Reverts(s, e) then q in View(e.archive.loaded, s.running) else q in s.running)
            && s'.candidates.Keys == s.candidates.Keys
            && (forall sid :: sid in s.candidates && !(LoadsRevision(s, e) && sid == e.sid) ==>
                                s'.candidates[sid] == s.candidates[sid])
            && (LoadsRevision(s, e) ==>
                  forall t: Tree ::
                    View(s'.candidates[e.sid], t) == if Reverts(s, e) then t else View(e.archive.loaded, t))
  {
    if e.sid in s.candidates { EditsOrShows(s.candidates[e.sid], s.running); }
    EditsOrShows(e.archive.loaded, s.running);
    forall t: Tree ensures View(EMPTY, t) == t {
      ViewOfEmpty(t);
    }
  }

  /** And of the record and the timer: its silent confirm job comes first, and a revert that comes to
      its commit confirms once more. */
  lemma RollbackLeavesRecord(s: State, e: Event)
    requires IsRollback(e)
    ensures Next(s, e).pending
         == if MayStart(s, e) && e.archive.silence.drops then None
            else if Attempts(s, e) && (e.Cancel? || e.revert) && e.outcome.confirms then None
            else s.pending
    ensures Next(s, e).timer == if MayStart(s, e) && e.archive.silence.cancels then None else s.timer
  {
    if e.sid in s.candidates { EditsOrShows(s.candidates[e.sid], s.running); }
    EditsOrShows(e.archive.loaded, s.running);
  }

  /** A disconnect reverts exactly the pending commit of its own session that has no identifier, if the
      job does; a confirm job touches nothing but the record and the timer. */
  lemma OthersDo(s: State, e: Event)
    requires e.Disconnect? || e.Job?
    ensures e.Disconnect? ==>
              Next(s, e) == if e.reverts && s.pending == Some(Record(e.pid, ""))
                            then s.(pending := None, running := e.reverted) else s
    ensures e.Job? ==>
              Next(s, e) == s.(pending := if e.silence.drops then None else s.pending,
                               timer := if e.silence.cancels then None else s.timer)
  {
  }

  // --- Who may touch a pending confirmed commit ---

  /** The event shows the identifier of the record or, when it has none, comes from its session;
      a forced cancel, and a rollback to the revision that a cancel reverts to, need neither. */
  ghost predicate Authorised(r: Record, e: Event) {
    match e
    case Confirmed(pid, _, cmt, _) => cmt.persistId == r.persistId && (r.persistId == "" ==> pid == r.session)
    case Cancel(pid, _, persistId, force, _, _) =>
      force || (persistId == r.persistId && (r.persistId == "" ==> pid == r.session))
    case Disconnect(pid, _, _) => r.persistId == "" && pid == r.session
    case Rollback(_, _, revert, _, _) => revert
    case _ => false
  }

  /** The event runs a confirm job that gives the record up, whoever asks for it. */
  ghost predicate GivesUp(e: Event) {
    match e
    case Rollback(_, _, _, a, _) => a.silence.drops
    case Job(silence) => silence.drops
    case _ => false
  }

  /** Nothing but the timer of a commit-confirm, which a confirm job cancels, and the candidate
      of a rollback. */
  ghost predicate BlockedAs(s: State, s': State, e: Event) {
    match e
    case Job(silence) => s' == Silenced(s, silence)
    case Rollback(_, sid, _, a, _) =>
      s' == Silenced(if Loads(s, sid, a) then s.(candidates := s.candidates[sid := a.loaded]) else s, a.silence)
    case _ => s' == s
  }

  /** An event that is not authorised keeps the record if and only if it runs no confirm job that
      gives it up; then it keeps the running tree too, and what else it changes is exact. */
  lemma OthersAreBlocked(s: State, e: Event, r: Record)
    requires s.pending == Some(r) && !Authorised(r, e)
    ensures Next(s, e).pending == (if GivesUp(e) then None else Some(r))
    ensures !GivesUp(e) ==> Next(s, e).running == s.running && BlockedAs(s, Next(s, e), e)
  {
  }

  /** A rollback that the pending record blocks changes a candidate if and only if it came to
      load its revision, which it does before its commit is checked. */
  lemma BlockedRollbackLoads(s: State, e: Event, r: Record)
    requires s.pending == Some(r) && e.Rollback? && !e.revert && !e.archive.silence.drops
    ensures Next(s, e).candidates != s.candidates
       <==> e.sid in s.candidates && !s.Changed(e.sid) && e.archive.exists_
            && e.archive.loaded != s.candidates[e.sid]
    ensures Next(s, e).candidates != s.candidates ==>
              Next(s, e).candidates == s.candidates[e.sid := e.archive.loaded]
  {
    if e.sid in s.candidates {
      var c' := s.candidates[e.sid := e.archive.loaded];
      assert c'[e.sid] == e.archive.loaded;
      if e.archive.loaded == s.candidates[e.sid] { assert c' == s.candidates; }
    }
  }

  const QUIET := Silence(false, false)
  const NODE: Path := ["node"]

  function PendingElsewhere(): State {
    State(Some(Record(7, "id")), None, {NODE}, map[0 := EMPTY])
  }

  function BlockedRollback(): Event {
    Rollback(1, 0, false, Archive(QUIET, true, true, WIPED), Outcome(true, true, true, true, true))
  }

  /** A rollback of another client, while a confirmed commit is pending, to a revision without
      the one node there is: its commit is blocked, and its session's candidate is empty. */
  lemma BlockedRollbackEmptiesCandidate()
    ensures var s := PendingElsewhere(); var s' := Next(s, BlockedRollback());
            && !Authorised(s.pending.value, BlockedRollback())
            && s'.pending == s.pending && s'.running == s.running
            && View(s.candidates[0], s.running) == {NODE} && View(s'.candidates[0], s'.running) == {}
  {
    ViewOfEmpty({NODE});
    WipedIsEmpty({NODE});
  }

  ghost predicate Kept(r: Record, es: seq<Event>) {
    forall i :: 0 <= i < |es| ==> !Authorised(r, es[i]) && !GivesUp(es[i])
  }

  function After(s: State, es: seq<Event>): State
    decreases |es|
  {
    if es == [] then s else After(Next(s, es[0]), es[1..])
  }

  /** Over any run, a pending confirmed commit is confirmed, replaced or reverted, and the running
      tree changed, only if some event was authorised or ran a confirm job that gave it up. */
  lemma {:induction false} PendingIsGuarded(s: State, es: seq<Event>, r: Record)
    requires s.pending == Some(r)
    ensures Kept(r, es) ==> After(s, es).pending == Some(r) && After(s, es).running == s.running
    decreases |es|
  {
    if es != [] && Kept(r, es) {
      OthersAreBlocked(s, es[0], r);
      PendingIsGuarded(Next(s, es[0]), es[1..], r);
    }
  }

  lemma {:induction false} AfterOne(s: State, es: seq<Event>, e: Event)
    ensures After(s, es + [e]) == Next(After(s, es), e)
    decreases |es|
  {
    if es != [] {
      assert (es + [e])[1..] == es[1..] + [e];
      AfterOne(Next(s, es[0]), es[1..], e);
    }
  }

  /** The exception is real: the first event that is not authorised and gives the record up ends
      the confirmed commit. */
  lemma PendingIsGivenUp(s: State, es: seq<Event>, e: Event, r: Record)
    requires s.pending == Some(r) && Kept(r, es) && !Authorised(r, e) && GivesUp(e)
    ensures After(s, es + [e]).pending == None
  {
    PendingIsGuarded(s, es, r);
    AfterOne(s, es, e);
    OthersAreBlocked(After(s, es), e, r);
  }

  /** The event is the confirmed commit that the record is about, and it changed the running tree. */
  ghost predicate Made(s: State, e: Event, r: Record) {
    && e.Confirmed? && e.cmt.confirmed && e.pid == r.session && e.cmt.persist == r.persistId
    && e.sid in s.candidates && s.Changed(e.sid)
    && Next(s, e).running == View(s.candidates[e.sid], s.running)
  }

  lemma RecordIsMade(s: State, e: Event, r: Record)
    requires Next(s, e).pending == Some(r) && s.pending != Some(r)
    ensures Made(s, e, r)
  {
  }

  /** A record that is pending was there from the start, or some event of the run made it. */
  lemma {:induction false} RecordHasOrigin(s: State, es: seq<Event>, r: Record)
    requires After(s, es).pending == Some(r)
    ensures s.pending == Some(r)
         || exists i :: 0 <= i < |es| && Made(After(s, es[..i]), es[i], r)
    decreases |es|
  {
    if es != [] {
      RecordHasOrigin(Next(s, es[0]), es[1..], r);
      if Next(s, es[0]).pending == Some(r) {
        if s.pending != Some(r) {
          RecordIsMade(s, es[0], r);
          assert es[..0] == [];
          assert Made(After(s, es[..0]), es[0], r);
        }
      } else {
        var i :| 0 <= i < |es[1..]| && Made(After(Next(s, es[0]), es[1..][..i]), es[1..][i], r);
        assert es[..i + 1][1..] == es[1..][..i];
        assert Made(After(s, es[..i + 1]), es[i + 1], r);
      }
    }
  }

  /** The record is given up before the commit that confirms it is tried: it stays given up when
      that commit then fails. */
  lemma FailedCommitStillConfirms(s: State, e: Event, r: Record)
    requires s.pending == Some(r) && e.Confirmed? && Authorised(r, e) && !e.cmt.confirmed
    requires e.sid in s.candidates && !e.outcome.ok
    ensures Next(s, e).running == s.running && Next(s, e).candidates == s.candidates
    ensures Next(s, e).pending == None <==> e.outcome.confirms
  {
  }

  /** What a cancel needs to come to its commit: nothing uncommitted in its session, and a
      revision that loads and differs from the running tree. */
  ghost predicate ComesToCommit(s: State, e: Event)
    requires e.Cancel?
  {
    Loads(s, e.sid, e.archive) && e.archive.loads && View(e.archive.loaded, s.running) != s.running
  }

  /** An authorised cancel reverts exactly when it comes to its commit and that succeeds; it gives
      the record up exactly when its silent confirm job does, or it comes to its commit and the
      confirming job there does. */
  lemma CancelReverts(s: State, e: Event, r: Record)
    requires s.pending == Some(r) && e.Cancel? && Authorised(r, e)
    ensures Next(s, e).pending == None
       <==> e.archive.silence.drops || (ComesToCommit(s, e) && e.outcome.confirms)
    ensures Next(s, e).running != s.running <==> ComesToCommit(s, e) && e.outcome.ok
    ensures Next(s, e).running != s.running ==> Next(s, e).running == View(e.archive.loaded, s.running)
  {
  }

  /** So a cancel that is refused for uncommitted changes has lost the record all the same if its
      silent confirm job gave it up, and reverted nothing. */
  lemma RefusedCancelLosesRecord(s: State, e: Event, r: Record)
    requires s.pending == Some(r) && e.Cancel? && Authorised(r, e)
    requires e.sid in s.candidates && s.Changed(e.sid)
    ensures Next(s, e) == Silenced(s, e.archive.silence)
    ensures Next(s, e).pending == None <==> e.archive.silence.drops
  {
  }
}
