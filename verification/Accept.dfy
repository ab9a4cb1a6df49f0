/** server/src/server.cpp, do_accept: admission of connections, while sessions on other threads
    go on and close.

    The handler's loads and additions are steps of their own; between any two of them any
    session may take a step of SessionMachine, and a session that closes calls back. */
module Accept {
  import opened Protocol
  import opened Router
  import Frames
  import O = SessionObject
  import S = SessionMachine

  /** How far the accept handler has come: waiting for a connection, about to load the number of
      active ones, past that test, past the addition to the total, and past the addition to the
      active ones, about to take an id and create the session.  Ended: not armed again. */
  datatype Phase = Listening | Loading | Admitted | Counted | Opening | Ended

  datatype Slot = Slot(id: nat, session: S.State)

  datatype State = State(
    phase: Phase,
    active: int,
    total: nat,
    nextId: nat,
    slots: seq<Slot>,
    refused: nat)

  /** Accept(isOpen, ec): the accept handler starts.  Continue: it takes its next step.
      Serve(k, e): the k-th session created takes step e. */
  datatype Event = Accept(isOpen: bool, ec: bool) | Continue | Serve(k: nat, e: S.Event)

  function Start(): State {
    State(Listening, 0, 0, 1, [], 0)
  }

  function Advance(max: nat, s: State): State {
    match s.phase
    case Loading => if s.active < max then s.(phase := Admitted) else s.(phase := Listening, refused := s.refused + 1)
    case Admitted => s.(phase := Counted, total := s.total + 1)
    case Counted => s.(phase := Opening, active := s.active + 1)
    case Opening => s.(phase := Listening, nextId := s.nextId + 1, slots := s.slots + [Slot(s.nextId, S.Start())])
    case _ => s
  }

  /** The whole handler, nothing in between. */
  function Finish(max: nat, s: State): State {
    Advance(max, Advance(max, Advance(max, Advance(max, s))))
  }

  function Step(cfg: S.Config, max: nat, s: State, e: Event): State {
    match e
    case Accept(isOpen, ec) =>
      if !s.phase.Listening? then s
      else s.(phase := if !isOpen then Ended else if ec then Listening else Loading)
    case Continue => Advance(max, s)
    case Serve(k, e) =>
      if k >= |s.slots| then s
      else
        var was := s.slots[k].session;
        var t := S.Step(cfg, was, e);
        s.(slots := s.slots[k := s.slots[k].(session := t)], active := s.active - (t.closeCalls - was.closeCalls))
  }

  function Run(cfg: S.Config, max: nat, events: seq<Event>): State {
    if events == [] then Start() else Step(cfg, max, Run(cfg, max, events[..|events| - 1]), events[|events| - 1])
  }

  // ---------------------------------------------------------------------------------------

  function One(slot: Slot): int {
    if slot.session.closed then 0 else 1
  }

  /** How many sessions have not closed. */
  function Open(slots: seq<Slot>): (n: nat)
    ensures n <= |slots|
  {
    if slots == [] then 0 else Open(slots[..|slots| - 1]) + One(slots[|slots| - 1])
  }

  lemma {:induction false} OpenUpdate(slots: seq<Slot>, k: nat, slot: Slot)
    requires k < |slots|
    ensures Open(slots[k := slot]) == Open(slots) - One(slots[k]) + One(slot)
  {
    var n := |slots| - 1;
    if k < n {
      OpenUpdate(slots[..n], k, slot);
      assert slots[k := slot][..n] == slots[..n][k := slot];
    } else {
      assert slots[k := slot][..n] == slots[..n];
    }
  }

  /** One connection is counted as active before its session exists. */
  function Window(s: State): int {
    if s.phase.Opening? then 1 else 0
  }

  ghost predicate Inv(cfg: S.Config, max: nat, s: State) {
    && s.active == Open(s.slots) + Window(s) && s.active <= max
    && (s.phase.Admitted? || s.phase.Counted? ==> s.active < max)
    && s.total == |s.slots| + (if s.phase.Counted? || s.phase.Opening? then 1 else 0)
    && s.nextId == |s.slots| + 1
    && (forall k :: 0 <= k < |s.slots| ==> s.slots[k].id == k + 1 && S.Inv(cfg, s.slots[k].session))
  }

  /** A session's step closes it if and only if it calls back, and nothing reopens it. */
  lemma StepCloses(cfg: S.Config, s: S.State, e: S.Event)
    requires S.Inv(cfg, s)
    ensures var t := S.Step(cfg, s, e);
            && S.Inv(cfg, t) && (s.closed ==> t.closed)
            && s.closeCalls == (if s.closed then 1 else 0)
            && t.closeCalls - s.closeCalls == One(Slot(0, s)) - One(Slot(0, t))
  {
    hide S.Step, S.Replies, S.Output, Frames.Parse, HeaderOf;
    S.StepKeeps(cfg, s, e);
    StaysClosed(cfg, s, e);
  }

  lemma StaysClosed(cfg: S.Config, s: S.State, e: S.Event)
    ensures s.closed ==> S.Step(cfg, s, e).closed
  {
    hide HeaderOf, Dispatch, Frames.Serialize;
  }

  lemma StepKeeps(cfg: S.Config, max: nat, s: State, e: Event)
    requires Inv(cfg, max, s)
    ensures Inv(cfg, max, Step(cfg, max, s, e))
  {
    hide S.Inv, S.Step;
    match e {
      case Serve(k, se) =>
        if k < |s.slots| {
          StepCloses(cfg, s.slots[k].session, se);
          OpenUpdate(s.slots, k, s.slots[k].(session := S.Step(cfg, s.slots[k].session, se)));
        }
      case Continue =>
        var slots := s.slots + [Slot(s.nextId, S.Start())];
        assert slots[..|s.slots|] == s.slots;
        S.StartHolds(cfg);
      case _ =>
    }
  }

  lemma StartHolds(cfg: S.Config, max: nat)
    ensures Inv(cfg, max, Start())
  {
  }

  lemma {:induction false} RunKeeps(cfg: S.Config, max: nat, events: seq<Event>)
    ensures Inv(cfg, max, Run(cfg, max, events))
  {
    hide Inv, Step;
    if events == [] {
      StartHolds(cfg, max);
    } else {
      RunKeeps(cfg, max, events[..|events| - 1]);
      StepKeeps(cfg, max, Run(cfg, max, events[..|events| - 1]), events[|events| - 1]);
    }
  }

  /** The counters under every interleaving of the handler's steps with closing sessions. */
  lemma ConnectionsAccounted(cfg: S.Config, max: nat, events: seq<Event>)
    ensures var s := Run(cfg, max, events);
            && s.active == Open(s.slots) + Window(s) && 0 <= s.active <= max
            && (s.phase.Listening? || s.phase.Loading? || s.phase.Ended? ==> s.total == |s.slots| == s.nextId - 1)
            && (forall k :: 0 <= k < |s.slots| ==>
                  && s.slots[k].id == k + 1
                  && s.slots[k].session.closeCalls == (if s.slots[k].session.closed then 1 else 0))
  {
    hide Run, S.Step, Open;
    RunKeeps(cfg, max, events);
    var s := Run(cfg, max, events);
    forall k | 0 <= k < |s.slots|
      ensures s.slots[k].id == k + 1
      ensures s.slots[k].session.closeCalls == (if s.slots[k].session.closed then 1 else 0)
    {
      StepCloses(cfg, s.slots[k].session, S.Stop);
    }
  }

  /** Destroying a session at any point, an operation outstanding or not, leaves it closed with
      exactly one callback, now or from before, and nothing that happens later adds another. */
  lemma DestroyedCalledBack(cfg: S.Config, max: nat, events: seq<Event>, k: nat, later: seq<Event>)
    requires k < |Run(cfg, max, events).slots|
    ensures var s := Run(cfg, max, events);
            var t := Run(cfg, max, events + [Serve(k, S.Destroy)]);
            && |t.slots| == |s.slots| && t.active == s.active - One(s.slots[k])
            && t.slots[k].session.destroyed && t.slots[k].session.closed && t.slots[k].session.closeCalls == 1
            && var u := Run(cfg, max, events + [Serve(k, S.Destroy)] + later);
               k < |u.slots| && u.slots[k] == t.slots[k]
  {
    hide Run, S.Inv;
    var more := events + [Serve(k, S.Destroy)];
    RunKeeps(cfg, max, events);
    var s := Run(cfg, max, events);
    StepCloses(cfg, s.slots[k].session, S.Destroy);
    Destroyed(cfg, s.slots[k].session);
    RunOne(cfg, max, events, Serve(k, S.Destroy));
    hide *;
    StaysDestroyed(cfg, max, more, k, later);
  }

  lemma Destroyed(cfg: S.Config, s: S.State)
    requires S.Inv(cfg, s)
    ensures var t := S.Step(cfg, s, S.Destroy); t.destroyed && t.closed && t.closeCalls == 1
  {
    hide S.Replies, S.Output, Frames.Parse, HeaderOf;
  }

  lemma {:induction false} StaysDestroyed(cfg: S.Config, max: nat, events: seq<Event>, k: nat, later: seq<Event>)
    requires var s := Run(cfg, max, events); k < |s.slots| && s.slots[k].session.destroyed
    ensures var s, t := Run(cfg, max, events), Run(cfg, max, events + later);
            k < |t.slots| && t.slots[k] == s.slots[k]
  {
    hide Run;
    if later == [] {
      assert events + later == events;
    } else {
      var n := |later| - 1;
      StaysDestroyed(cfg, max, events, k, later[..n]);
      assert events + later == (events + later[..n]) + [later[n]];
      RunOne(cfg, max, events + later[..n], later[n]);
      SlotStays(cfg, max, Run(cfg, max, events + later[..n]), k, later[n]);
    }
  }

  lemma SlotStays(cfg: S.Config, max: nat, s: State, k: nat, e: Event)
    requires k < |s.slots| && s.slots[k].session.destroyed
    ensures var t := Step(cfg, max, s, e); k < |t.slots| && t.slots[k] == s.slots[k]
  {
    hide S.Possible, HeaderOf;
  }

  lemma RunOne(cfg: S.Config, max: nat, events: seq<Event>, e: Event)
    ensures Run(cfg, max, events + [e]) == Step(cfg, max, Run(cfg, max, events), e)
  {
    hide Step;
    assert (events + [e])[..|events|] == events;
  }

  /** A connection is refused exactly when as many sessions are open as are allowed. */
  lemma RefusedIff(cfg: S.Config, max: nat, events: seq<Event>)
    requires Run(cfg, max, events).phase.Loading?
    ensures var s := Run(cfg, max, events);
            var t := Step(cfg, max, s, Continue);
            && (t.refused == s.refused + 1 <==> Open(s.slots) == max)
            && (t.phase.Admitted? <==> Open(s.slots) < max)
  {
    hide Run, S.Inv;
    RunKeeps(cfg, max, events);
  }

  // ---------------------------------------------------------------------------------------
  // The acceptor stays armed

  /** The handler finds its acceptor closed. */
  predicate FindsClosed(e: Event) {
    e.Accept? && !e.isOpen
  }

  function Continues(n: nat): (events: seq<Event>)
    ensures |events| == n && forall e <- events :: e == Continue
  {
    seq(n, _ => Continue)
  }

  /** Only a closed acceptor is not armed again, over every run. */
  lemma {:induction false} EndsOnlyClosed(cfg: S.Config, max: nat, events: seq<Event>)
    requires Run(cfg, max, events).phase.Ended?
    ensures exists e <- events :: FindsClosed(e)
  {
    hide S.Step;
    var n := |events| - 1;
    if Run(cfg, max, events[..n]).phase.Ended? {
      EndsOnlyClosed(cfg, max, events[..n]);
      var e :| e in events[..n] && FindsClosed(e);
      assert e in events;
    } else {
      assert FindsClosed(events[n]);
    }
  }

  /** Steps of the handler alone. */
  lemma {:induction false} ContinuesAdvance(cfg: S.Config, max: nat, events: seq<Event>, n: nat)
    ensures n > 0 ==> Run(cfg, max, events + Continues(n)) == Advance(max, Run(cfg, max, events + Continues(n - 1)))
  {
    hide Run, Advance;
    if n > 0 {
      assert events + Continues(n) == (events + Continues(n - 1)) + [Continue];
      RunOne(cfg, max, events + Continues(n - 1), Continue);
    }
  }

  lemma FourAdvance(cfg: S.Config, max: nat, events: seq<Event>)
    ensures Run(cfg, max, events + Continues(4)) == Finish(max, Run(cfg, max, events))
  {
    hide Run, Advance;
    assert events + Continues(0) == events;
    ContinuesAdvance(cfg, max, events, 1);
    ContinuesAdvance(cfg, max, events, 2);
    ContinuesAdvance(cfg, max, events, 3);
    ContinuesAdvance(cfg, max, events, 4);
  }

  /** From every reachable state the handler's next four steps arm the acceptor again, unless it
      has found it closed. */
  lemma ArmedAgain(cfg: S.Config, max: nat, events: seq<Event>)
    requires forall e <- events :: !FindsClosed(e)
    ensures Run(cfg, max, events + Continues(4)).phase.Listening?
  {
    FourAdvance(cfg, max, events);
    hide Run, FindsClosed;
    if Run(cfg, max, events).phase.Ended? {
      EndsOnlyClosed(cfg, max, events);
      assert false;
    }
  }

  /** A connection on an open acceptor: the whole handler leaves the acceptor armed; it creates
      a session, new and started, exactly if there was no error and fewer than the maximum were
      open, and counts a refusal exactly if only the number stood in the way. */
  lemma ConnectionHandled(cfg: S.Config, max: nat, events: seq<Event>, ec: bool)
    requires Run(cfg, max, events).phase.Listening?
    ensures var s := Run(cfg, max, events);
            var t := Run(cfg, max, events + [Accept(true, ec)] + Continues(4));
            && t.phase.Listening?
            && (if !ec && Open(s.slots) < max then t.slots == s.slots + [Slot(|s.slots| + 1, S.Start())]
                else t.slots == s.slots)
            && t.refused == s.refused + (if !ec && Open(s.slots) == max then 1 else 0)
  {
    RunKeeps(cfg, max, events);
    FourAdvance(cfg, max, events + [Accept(true, ec)]);
    RunOne(cfg, max, events, Accept(true, ec));
    hide Run, S.Inv;
  }

  /** So every number of sessions up to the maximum can be open at once. */
  lemma {:induction false} AllAdmitted(cfg: S.Config, max: nat, n: nat) returns (events: seq<Event>)
    requires n <= max
    ensures var s := Run(cfg, max, events); s.phase.Listening? && |s.slots| == Open(s.slots) == s.active == n
  {
    if n == 0 {
      events := [];
    } else {
      var before := AllAdmitted(cfg, max, n - 1);
      events := before + [Accept(true, false)] + Continues(4);
      hide Run;
      ConnectionHandled(cfg, max, before, false);
      var slots := Run(cfg, max, events).slots;
      assert slots[..n - 1] == Run(cfg, max, before).slots;
      ConnectionsAccounted(cfg, max, events);
    }
  }

  // ---------------------------------------------------------------------------------------
  // The Server object

  class Server {
    const host: Host
    const router: ServiceRouter
    const maxConnections: nat
    var totalConnections: nat
    var activeConnections: int
    var nextSessionId: nat

    ghost var listening: bool
    ghost var slots: seq<Slot>
    ghost var refused: nat

    /** The state between two handlers. */
    ghost function View(): State
      reads this
    {
      State(if listening then Listening else Ended, activeConnections, totalConnections, nextSessionId, slots, refused)
    }

    constructor (host: Host, router: ServiceRouter, maxConnections: nat)
      ensures View() == Start() && this.maxConnections == maxConnections && this.router == router
    {
      this.host, this.router, this.maxConnections := host, router, maxConnections;
      totalConnections, activeConnections, nextSessionId := 0, 0, 1;
      listening, slots, refused := true, [], 0;
    }

    /** The accept handler, all its steps in a row: the session it starts is a new one, and it
        starts one exactly when the connection is admitted. */
    method OnAccept(isOpen: bool, ec: bool) returns (session: O.Session?)
      requires listening
      modifies this
      ensures forall cfg: S.Config ::
                View() == Finish(maxConnections, Step(cfg, maxConnections, old(View()), Accept(isOpen, ec)))
      ensures listening <==> isOpen
      ensures session != null <==> isOpen && !ec && old(activeConnections) < maxConnections
      ensures session != null ==>
                fresh(session) && session.Valid() && session.View() == S.Start() == slots[|slots| - 1].session
    {
      session := null;
      if !isOpen {
        listening := false;
        return;
      }
      if !ec {
        if activeConnections < maxConnections {
          totalConnections := totalConnections + 1;
          activeConnections := activeConnections + 1;
          var sid := nextSessionId;
          nextSessionId := nextSessionId + 1;
          var started := new O.Session(host, router);
          started.Start();
          slots := slots + [Slot(sid, S.Start())];
          session := started;
        } else {
          refused := refused + 1;
        }
      }
    }

    /** The callback of the k-th session, at whichever step closes it. */
    method OnClose(ghost cfg: S.Config, ghost k: nat, ghost e: S.Event)
      requires k < |slots| && !slots[k].session.closed && S.Step(cfg, slots[k].session, e).closed
      modifies this`activeConnections, this`slots
      ensures View() == Step(cfg, maxConnections, old(View()), Serve(k, e))
    {
      ClosingCallsBack(cfg, slots[k].session, e);
      activeConnections := activeConnections - 1;
      slots := slots[k := slots[k].(session := S.Step(cfg, slots[k].session, e))];
    }
  }

  lemma ClosingCallsBack(cfg: S.Config, s: S.State, e: S.Event)
    requires !s.closed && S.Step(cfg, s, e).closed
    ensures S.Step(cfg, s, e).closeCalls == s.closeCalls + 1
  {
    hide HeaderOf, Dispatch, Frames.Serialize;
  }
}
