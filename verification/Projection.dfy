/** A run of the whole system as one session sees it. */
module Projection {
  import opened Nested
  import opened Session
  import opened World

  /** What an event does in a session, if it does anything there. */
  function ActsAt(w: World, e: Event, sid: string): seq<Act>
    requires Can(w, e)
  {
    match e
    case Arrive(at, req) => if at == sid then [Served(req, w.running, w.next)] else []
    case Advance(at, go) => if at == sid then [Stepped(w.running, go)] else []
    case Wake(at, ok, subst) => if at == sid then [Resumed(ok, subst)] else []
    case Collect(at) => if at == sid then [Delivered(w.tickets[w.sessions[at].frames[0].ticket].ok)] else []
    case _ => []
  }

  function ActsOf(w: World, events: seq<Event>, sid: string): seq<Act>
    requires IsRun(w, events)
    decreases |events|
  {
    if events == [] then [] else ActsAt(w, events[0], sid) + ActsOf(Next(w, events[0]), events[1..], sid)
  }

  /** EFFECTIVE is also written by the commit machinery. */
  predicate Ordinary(events: seq<Event>, sid: string) {
    sid != EFFECTIVE && forall i :: 0 <= i < |events| ==> !(events[i].Destroy? && events[i].sid == sid)
  }

  lemma EventIsTrace(w: World, e: Event, sid: string)
    requires Can(w, e) && sid in w.sessions && Ordinary([e], sid)
    ensures var w' := Next(w, e);
            && sid in w'.sessions && IsTrace(w.sessions[sid], ActsAt(w, e, sid))
            && w'.sessions[sid] == TraceOf(w.sessions[sid], ActsAt(w, e, sid))
  {
    assert [e][0] == e;
    var acts := ActsAt(w, e, sid);
    if acts != [] {
      assert acts[1..] == [];
      assert TraceOf(Do(w.sessions[sid], acts[0]), []) == Do(w.sessions[sid], acts[0]);
    }
  }

  lemma {:induction false} TraceConcat(s: Sess, a: seq<Act>, b: seq<Act>)
    requires IsTrace(s, a) && IsTrace(TraceOf(s, a), b)
    ensures IsTrace(s, a + b) && TraceOf(s, a + b) == TraceOf(TraceOf(s, a), b)
    decreases |a|
  {
    if a == [] {
      assert a + b == b;
    } else {
      assert (a + b)[0] == a[0] && (a + b)[1..] == a[1..] + b;
      TraceConcat(Do(s, a[0]), a[1..], b);
    }
  }

  /** Every run of the system is, in each session, a trace of what happened there: so what holds of
      every trace holds of every session in every run. */
  lemma {:induction false} RunIsTrace(w: World, events: seq<Event>, sid: string)
    requires IsRun(w, events) && sid in w.sessions && Ordinary(events, sid)
    ensures var w' := RunOf(w, events);
            && sid in w'.sessions && IsTrace(w.sessions[sid], ActsOf(w, events, sid))
            && w'.sessions[sid] == TraceOf(w.sessions[sid], ActsOf(w, events, sid))
    decreases |events|
  {
    if events != [] {
      var w1 := Next(w, events[0]);
      EventIsTrace(w, events[0], sid);
      RunIsTrace(w1, events[1..], sid);
      TraceConcat(w.sessions[sid], ActsAt(w, events[0], sid), ActsOf(w1, events[1..], sid));
    }
  }
}
