/** The commits in flight as the manager really keeps them: a flag in its loop, and a goroutine
    for each commit it has started. That there is never more than one is proved here, and it is
    what lets World give the commit under way a single slot. */
module Flight {
  import opened Config
  import opened CommitManager
  import opened World

  /** The world, whose own slot for a commit is not used; the loop's flag; and the goroutines
      inside a commit, by the ticket of their request. */
  datatype Fleet = Fleet(world: World, inCommit: bool, live: map<nat, Phase>)

  function Launched(running: Tree): Fleet {
    Fleet(Initial(running), false, map[])
  }

  /** Events that no commit takes part in; the loop receiving a request or a completion; and a
      step of one of the goroutines. A goroutine that has completed does nothing any more but
      answer, so both are one event. */
  datatype FleetEvent =
    | Outside(e: Event)
    | Receive(ticket: nat)
    | Work(ticket: nat, e: Event)
    | Complete(ticket: nat)

  predicate IsOutside(e: Event) {
    e.Arrive? || e.Advance? || e.Wake? || e.Collect? || e.Create? || e.Destroy?
  }

  predicate IsWork(e: Event) {
    e.JobBegin? || e.JobReject? || e.JobApply? || e.JobMerge? || e.JobDiscard? || e.JobStore?
  }

  /** The world as one goroutine sees it. */
  function Seen(f: Fleet, t: nat): World
    requires t in f.live
  {
    f.world.(job := Some(Job(t, f.live[t])))
  }

  predicate CanFly(f: Fleet, e: FleetEvent) {
    match e
    case Outside(e) => IsOutside(e) && Can(f.world, e)
    case Receive(t) => t in f.world.tickets && f.world.tickets[t].Queued?
    case Work(t, e) => t in f.live && IsWork(e) && Can(Seen(f, t), e)
    case Complete(t) => t in f.live && f.live[t].Ended? && t in f.world.tickets
  }

  function Reply(w: World, t: nat, ok: bool): World
    requires t in w.tickets
  {
    w.(tickets := w.tickets[t := Answered(w.tickets[t].sid, ok)])
  }

  function Fly(f: Fleet, e: FleetEvent): Fleet
    requires CanFly(f, e)
  {
    match e
    case Outside(e) => f.(world := Next(f.world, e))
    case Receive(t) =>
      if f.inCommit then f.(world := Reply(f.world, t, false))
      else
        Fleet(f.world.(tickets := f.world.tickets[t := InCommit(f.world.tickets[t].sid)]), true, f.live[t := Taken])
    case Work(t, e) =>
      var w := Next(Seen(f, t), e);
      f.(world := w.(job := None), live := f.live[t := w.job.value.phase])
    case Complete(t) => Fleet(Reply(f.world, t, f.live[t].ok), false, f.live - {t})
  }

  predicate IsFlight(f: Fleet, events: seq<FleetEvent>)
    decreases |events|
  {
    events == [] || (CanFly(f, events[0]) && IsFlight(Fly(f, events[0]), events[1..]))
  }

  function FlightOf(f: Fleet, events: seq<FleetEvent>): Fleet
    requires IsFlight(f, events)
    decreases |events|
  {
    if events == [] then f else FlightOf(Fly(f, events[0]), events[1..])
  }

  // --- The flag is right ---

  ghost predicate FlagOk(f: Fleet) {
    && f.world.job.None?
    && (!f.inCommit ==> f.live == map[])
    && (f.inCommit ==> exists t :: f.live.Keys == {t})
  }

  lemma WorkHasJob(f: Fleet, t: nat, e: Event)
    requires t in f.live && IsWork(e) && Can(Seen(f, t), e)
    ensures Next(Seen(f, t), e).job.Some? && Next(Seen(f, t), e).job.value.ticket == t
  {
  }

  lemma FlyKeepsFlag(f: Fleet, e: FleetEvent)
    requires FlagOk(f) && CanFly(f, e)
    ensures FlagOk(Fly(f, e))
  {
    var f' := Fly(f, e);
    match e
    case Outside(_) =>
    case Receive(t) => if !f.inCommit { assert f'.live.Keys == {t}; }
    case Work(t, _) => assert f'.live.Keys == f.live.Keys;
    case Complete(t) =>
      var u :| f.live.Keys == {u};
      assert f'.live.Keys == {};
  }

  /** Over every run no two commits are in flight. */
  lemma {:induction false} AtMostOneLive(f: Fleet, events: seq<FleetEvent>, t: nat, u: nat)
    requires FlagOk(f) && IsFlight(f, events)
    requires t in FlightOf(f, events).live && u in FlightOf(f, events).live
    ensures t == u && FlightOf(f, events).inCommit
    decreases |events|
  {
    if events != [] {
      FlyKeepsFlag(f, events[0]);
      AtMostOneLive(Fly(f, events[0]), events[1..], t, u);
    }
  }

  // --- World is what a flight looks like ---

  /** The world with the commit in flight, if any, in its slot. */
  ghost predicate Refines(w: World, f: Fleet) {
    && f.world.job.None? && w == f.world.(job := w.job)
    && (f.inCommit <==> w.job.Some?)
    && f.live == match w.job case None => map[] case Some(job) => map[job.ticket := job.phase]
  }

  function Shown(e: FleetEvent): Event {
    match e
    case Outside(e) => e
    case Receive(t) => Take(t)
    case Work(_, e) => e
    case Complete(_) => JobDone
  }

  lemma OutsideRefines(w: World, f: Fleet, e: Event)
    requires Refines(w, f) && IsOutside(e) && Can(f.world, e)
    ensures Can(w, e) && Next(w, e) == Next(f.world, e).(job := w.job) && Next(f.world, e).job.None?
  {
  }

  lemma WorkRefines(w: World, f: Fleet, t: nat, e: Event)
    requires Refines(w, f) && CanFly(f, Work(t, e))
    ensures Can(w, e) && Refines(Next(w, e), Fly(f, Work(t, e)))
  {
    assert Seen(f, t) == w;
    WorkHasJob(f, t, e);
  }

  /** Each step of a flight is a step of the world. */
  lemma FlyRefines(w: World, f: Fleet, e: FleetEvent)
    requires Refines(w, f) && CanFly(f, e)
    ensures Can(w, Shown(e)) && Refines(Next(w, Shown(e)), Fly(f, e))
  {
    match e
    case Outside(e) => OutsideRefines(w, f, e);
    case Receive(t) =>
    case Work(t, e) => WorkRefines(w, f, t, e);
    case Complete(t) =>
  }

  function ShownRun(events: seq<FleetEvent>): seq<Event> {
    if events == [] then [] else [Shown(events[0])] + ShownRun(events[1..])
  }

  /** So every flight is a run of the world, and what holds of every run holds of it. */
  lemma {:induction false} FlightRefines(w: World, f: Fleet, events: seq<FleetEvent>)
    requires Refines(w, f) && IsFlight(f, events)
    ensures IsRun(w, ShownRun(events))
    ensures Refines(RunOf(w, ShownRun(events)), FlightOf(f, events))
    decreases |events|
  {
    if events != [] {
      FlyRefines(w, f, events[0]);
      FlightRefines(Next(w, Shown(events[0])), Fly(f, events[0]), events[1..]);
      assert ShownRun(events)[0] == Shown(events[0]) && ShownRun(events)[1..] == ShownRun(events[1..]);
    }
  }

  ghost predicate ReadsRunning(p: Phase, running: Tree) {
    p.Working? || p.Merged? || p.Discarded? ==> p.base == running
  }

  /** At most one commit is in flight across all sessions, at any moment of any run, and the
      running tree is still the one it read. */
  lemma OneCommitInFlight(running: Tree, events: seq<FleetEvent>)
    requires IsFlight(Launched(running), events)
    ensures var f := FlightOf(Launched(running), events);
            && (forall t, u :: t in f.live && u in f.live ==> t == u)
            && (forall t :: t in f.live ==> f.inCommit && ReadsRunning(f.live[t], f.world.running))
  {
    var f := FlightOf(Launched(running), events);
    forall t, u | t in f.live && u in f.live ensures t == u && f.inCommit {
      AtMostOneLive(Launched(running), events, t, u);
    }
    FlightRefines(Initial(running), Launched(running), events);
    InitialInv(running);
    RunKeepsInv(Initial(running), ShownRun(events));
  }

  // --- The manager's loop keeps the flag ---

  /** The messages a flight sends to the loop. */
  function Inbox(events: seq<FleetEvent>): seq<Message> {
    if events == [] then []
    else
      var n := |events| - 1;
      Inbox(events[..n])
      + (match events[n] case Receive(t) => [Request(t)] case Complete(_) => [Completed] case _ => [])
  }

  lemma {:induction false} FlightSnoc(f: Fleet, events: seq<FleetEvent>)
    requires events != [] && IsFlight(f, events)
    ensures var n := |events| - 1;
            && IsFlight(f, events[..n]) && CanFly(FlightOf(f, events[..n]), events[n])
            && FlightOf(f, events) == Fly(FlightOf(f, events[..n]), events[n])
    decreases |events|
  {
    var n := |events| - 1;
    if n > 0 {
      FlightSnoc(Fly(f, events[0]), events[1..]);
      assert events[..n][1..] == events[1..][..n - 1];
    }
  }

  lemma SortSnoc(inbox: seq<Message>, m: Message)
    ensures Sort(inbox + [m])
         == match m
            case Request(t) =>
              if Sort(inbox).inCommit then Sort(inbox).(refused := Sort(inbox).refused + [t])
              else Sort(inbox).(inCommit := true, started := Sort(inbox).started + [t])
            case Completed => Sort(inbox).(inCommit := false)
  {
    assert (inbox + [m])[..|inbox|] == inbox;
  }

  lemma LiveKept(f: Fleet, e: FleetEvent)
    requires CanFly(f, e) && e.Work?
    ensures Fly(f, e).live.Keys == f.live.Keys && Fly(f, e).inCommit == f.inCommit
  {
  }

  /** Fed the messages of a flight, the loop has the flag of the flight, and has started every
      commit that is in flight. */
  lemma {:induction false} LoopKeepsFlag(running: Tree, events: seq<FleetEvent>)
    requires IsFlight(Launched(running), events)
    ensures var f := FlightOf(Launched(running), events);
            Sort(Inbox(events)).inCommit == f.inCommit && forall t :: t in f.live ==> t in Sort(Inbox(events)).started
  {
    if events != [] {
      var n := |events| - 1;
      FlightSnoc(Launched(running), events);
      LoopKeepsFlag(running, events[..n]);
      match events[n]
      case Receive(t) => SortSnoc(Inbox(events[..n]), Request(t));
      case Complete(_) => SortSnoc(Inbox(events[..n]), Completed);
      case Outside(_) => assert Inbox(events) == Inbox(events[..n]);
      case Work(_, _) =>
        assert Inbox(events) == Inbox(events[..n]);
        LiveKept(FlightOf(Launched(running), events[..n]), events[n]);
    }
  }
}
