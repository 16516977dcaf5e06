/** The commit manager object: its loop over requests and completions, and one commit. */
module CommitManager {
  import opened Config
  import opened Effects
  import opened Lock
  import opened World
  import SessionProcess

  /** What the manager's loop selects on. */
  datatype Message = Request(ticket: nat) | Completed

  function Requests(inbox: seq<Message>): seq<nat> {
    if inbox == [] then []
    else
      var n := |inbox| - 1;
      Requests(inbox[..n]) + (if inbox[n].Request? then [inbox[n].ticket] else [])
  }

  function Completions(inbox: seq<Message>): nat {
    if inbox == [] then 0
    else Completions(inbox[..|inbox| - 1]) + (if inbox[|inbox| - 1].Completed? then 1 else 0)
  }

  ghost predicate Sorted(started: seq<nat>, refused: seq<nat>, requests: seq<nat>) {
    multiset(started) + multiset(refused) == multiset(requests)
  }

  lemma SortOne(started: seq<nat>, refused: seq<nat>, requests: seq<nat>, t: nat)
    requires Sorted(started, refused, requests)
    ensures Sorted(started + [t], refused, requests + [t]) && Sorted(started, refused + [t], requests + [t])
  {
  }

  /** What the loop has done with its messages: whether it believes a commit to be under way,
      and the requests it started and refused. */
  datatype Desk = Desk(inCommit: bool, started: seq<nat>, refused: seq<nat>)

  function Sort(inbox: seq<Message>): Desk {
    if inbox == [] then Desk(false, [], [])
    else
      var n := |inbox| - 1;
      var d := Sort(inbox[..n]);
      match inbox[n]
      case Request(t) =>
        if d.inCommit then d.(refused := d.refused + [t])
        else d.(inCommit := true, started := d.started + [t])
      case Completed => d.(inCommit := false)
  }

  /** Every request is started or refused, once, and at most one more has been started than has
      completed: one exactly while the flag is up. */
  lemma {:induction false} SortKeepsAll(inbox: seq<Message>)
    ensures Sorted(Sort(inbox).started, Sort(inbox).refused, Requests(inbox))
    ensures |Sort(inbox).started| <= Completions(inbox) + if Sort(inbox).inCommit then 1 else 0
  {
    if inbox != [] {
      var n := |inbox| - 1;
      SortKeepsAll(inbox[..n]);
      if inbox[n].Request? {
        SortOne(Sort(inbox[..n]).started, Sort(inbox[..n]).refused, Requests(inbox[..n]), inbox[n].ticket);
      }
    }
  }

  class Manager {
    var running: Tree
    var hadCommit: bool
    const effective: SessionProcess.Process

    constructor (running: Tree, effective: SessionProcess.Process)
      ensures this.running == running && !hadCommit && this.effective == effective
    {
      this.running, this.hadCommit, this.effective := running, false, effective;
    }

    ghost predicate Valid()
      reads this, effective
    {
      effective.State() == SYSTEM_SESSION
    }

    /** Every request is started or refused, once, and one more can have been started than
        have completed: never two at a time. */
    method Run(inbox: seq<Message>) returns (started: seq<nat>, refused: seq<nat>)
      ensures multiset(started) + multiset(refused) == multiset(Requests(inbox))
      ensures |started| <= Completions(inbox) + 1
      ensures started == Sort(inbox).started && refused == Sort(inbox).refused
    {
      started, refused := [], [];
      var inCommit := false;
      for i := 0 to |inbox|
        invariant Sort(inbox[..i]) == Desk(inCommit, started, refused)
      {
        assert inbox[..i + 1][..i] == inbox[..i];
        match inbox[i]
        case Request(t) =>
          if inCommit {
            refused := refused + [t];
          } else {
            inCommit := true;
            started := started + [t];
          }
        case Completed =>
          inCommit := false;
      }
      assert inbox[..|inbox|] == inbox;
      SortKeepsAll(inbox);
    }

    /** One effect, through the effective session's own requests. */
    method Apply(effect: Effect)
      requires effective.lpid == SYSTEM && effective.frames == []
      modifies effective
      ensures effective.State()
           == old(effective.State()).(candidate := ApplyToOverlay(effect, old(effective.candidate), running))
    {
      match effect
      case Put(p) =>
        var _ := effective.Set(SYSTEM, p);
        effective.SetReturns(true, false);
      case Drop(p) =>
        var _ := effective.Del(SYSTEM, p, running);
    }

    /** A commit that nothing interrupts: refused, it changes neither tree; accepted, running
        becomes what the effects made of it, and the effective view is equal to it again. */
    method Commit(candidate: Overlay, valid: Tree -> bool, knownUser: bool, effects: seq<Effect>) returns (ok: bool)
      requires Valid()
      modifies this, effective
      ensures Valid() && hadCommit
      ensures ok <==> valid(View(candidate, old(running))) && knownUser
      ensures running == if ok then Replay(effects, old(running)) else old(running)
      ensures var target := View(candidate, old(running));
              ok && Proper(old(running)) && Proper(target) && OfDiff(effects, old(running), target) ==>
                (running == target <==> Thorough(effects, old(running), target))
      ensures View(effective.candidate, running) == running
    {
      var base := running;
      hadCommit := true;
      ViewOfEmpty(base);
      if !valid(View(candidate, base)) {
        return false;
      }
      if !knownUser {
        return false;
      }
      ghost var target := View(candidate, base);
      if Proper(base) && Proper(target) && OfDiff(effects, base, target) {
        ReplayReaches(effects, base, target);
      }
      for i := 0 to |effects|
        invariant hadCommit && running == base && effective.lpid == SYSTEM && effective.frames == [] && !effective.saved
        invariant View(effective.candidate, base) == Replay(effects[..i], base)
      {
        EffectOnView(effects[i], effective.candidate, base);
        Apply(effects[i]);
        assert effects[..i + 1][..i] == effects[..i];
      }
      assert effects[..|effects|] == effects;
      var result := View(effective.candidate, running);
      var _ := effective.Discard(SYSTEM);
      running := result;
      ViewOfEmpty(running);
      ok := true;
    }
  }
}
