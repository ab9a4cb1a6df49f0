/** The load test ends: what follows once the timer has set the stop flag, over whole runs. */
module Shutdown {
  import opened Protocol
  import opened Frames
  import opened System
  import opened EndToEnd
  import C = ClientMachine
  import S = SessionMachine

  ghost predicate Measurable(c: Conn) {
    && (c.client.op.Writing? ==> c.client.op.written <= |c.client.op.out|)
    && (c.session.op.Writing? ==> c.session.op.written <= |c.session.op.out|)
  }

  /** The j-th component of a connection's measure. */
  ghost function Part(j: nat): Conn -> int
    requires j < 6
  {
    (c: Conn) => if Measurable(c) then Measure(c)[j] else 0
  }

  /** The j-th component, added up over all connections. */
  ghost function Whole(s: State, j: nat): (n: nat)
    requires j < 6
  {
    SumOfParts(s.conns, j);
    Sum(s.conns, Part(j))
  }

  lemma {:induction false} SumOfParts(conns: seq<Conn>, j: nat)
    requires j < 6
    ensures Sum(conns, Part(j)) >= 0
  {
    hide Measure;
    if conns != [] {
      SumOfParts(conns[..|conns| - 1], j);
      var n: nat := if Measurable(conns[|conns| - 1]) then Measure(conns[|conns| - 1])[j] else 0;
      assert Part(j)(conns[|conns| - 1]) == n;
    }
  }

  lemma IsMeasurable(cfg: S.Config, c: Conn)
    requires ConnInv(cfg, c)
    ensures Measurable(c)
  {
    hide Parse, HeaderOf, SerializeAll, S.Replies;
  }

  /** Every step lowers the components' sums, lexicographically. */
  lemma WholeFalls(cfg: S.Config, s: State, e: Event) returns (j: nat)
    requires Inv(cfg, s) && s.stop && Effective(s, e)
    ensures var t := Step(cfg, s, e);
            && Inv(cfg, t) && t.stop
            && j < 6 && Whole(t, j) < Whole(s, j) && forall i: nat :: i < j ==> Whole(t, i) == Whole(s, i)
  {
    hide Inv, Step, ConnInv, ClientMay, SessionMay, ClientStep, SessionStep, Measure;
    var t := Step(cfg, s, e);
    ShutdownStep(cfg, s, e);
    var c, d := s.conns[e.i], t.conns[e.i];
    IsMeasurable(cfg, c);
    IsMeasurable(cfg, d);
    assert t.conns == s.conns[e.i := d];
    var m, k := Measure(c), Measure(d);
    j :| 0 <= j < |m| && k[j] < m[j] && forall i :: 0 <= i < j ==> k[i] == m[i];
    forall i: nat | i < 6 ensures Whole(t, i) == Whole(s, i) - m[i] + k[i] {
      SumUpdate(s.conns, Part(i), e.i, d);
    }
  }

  /** The components of the whole measure. */
  ghost function Wholes(s: State): (m: seq<nat>)
    ensures |m| == 6
  {
    [Whole(s, 0), Whole(s, 1), Whole(s, 2), Whole(s, 3), Whole(s, 4), Whole(s, 5)]
  }

  ghost predicate AtMost(n: seq<nat>, m: seq<nat>)
    requires |n| == |m|
  {
    n == m || Below(n, m)
  }

  lemma BelowTransitive(a: seq<nat>, b: seq<nat>, c: seq<nat>)
    requires |a| == |b| == |c| && AtMost(a, b) && AtMost(b, c)
    ensures AtMost(a, c) && (Below(a, b) || Below(b, c) ==> Below(a, c))
  {
    if a != b && b != c {
      var i :| 0 <= i < |b| && a[i] < b[i] && forall l :: 0 <= l < i ==> a[l] == b[l];
      var j :| 0 <= j < |c| && b[j] < c[j] && forall l :: 0 <= l < j ==> b[l] == c[l];
      var k := if i < j then i else j;
      assert a[k] < c[k];
    }
  }

  /** What is left when the stop flag is set: an effective step, or one that at most stops or
      destroys a session or sets the flag again. */
  lemma EveryStepFalls(cfg: S.Config, s: State, e: Event)
    requires Inv(cfg, s) && s.stop
    ensures var t := Step(cfg, s, e);
            && Inv(cfg, t) && t.stop && SameRequests(s, t)
            && (if Effective(s, e) then Below(Wholes(t), Wholes(s)) else AtMost(Wholes(t), Wholes(s)))
  {
    hide Inv, Step, Effective, Whole;
    if Effective(s, e) {
      var j := WholeFalls(cfg, s, e);
      var m, n := Wholes(s), Wholes(Step(cfg, s, e));
      assert n[j] < m[j];
      RequestsStay(cfg, s, e);
    } else {
      CloseFalls(cfg, s, e);
    }
  }

  /** Stopping or destroying a session never raises the measure. */
  lemma CloseFalls(cfg: S.Config, s: State, e: Event)
    requires Inv(cfg, s) && s.stop && !Effective(s, e)
    ensures var t := Step(cfg, s, e);
            Inv(cfg, t) && t.stop && SameRequests(s, t) && AtMost(Wholes(t), Wholes(s))
  {
    StepKeeps(cfg, s, e);
    var t := Step(cfg, s, e);
    if e.Serve? && e.i < |s.conns| && SessionMay(s.conns[e.i], s.orders, e.se) {
      var c := s.conns[e.i];
      var d := SessionStep(cfg, c, s.orders, e.se);
      assert t.conns == s.conns[e.i := d] && t.stop == s.stop;
      assert ConnInv(cfg, c);
      IsMeasurable(cfg, c);
      CloseLowers(cfg, c, s.orders, e.se);
      hide *;
      SumsFollow(s, t, e.i, d);
    } else {
      assert t.conns == s.conns;
      hide *;
      SumsSame(s, t);
    }
  }

  lemma SumsSame(s: State, t: State)
    requires t.conns == s.conns
    ensures Wholes(t) == Wholes(s) && SameRequests(s, t)
  {
  }

  /** Closing leaves the outstanding operation alone, destroying drops it. */
  lemma CloseLowers(cfg: S.Config, c: Conn, orders: nat, e: S.Event)
    requires SessionMay(c, orders, e) && Measurable(c) && (e.Stop? || e.Destroy?)
    ensures var d := SessionStep(cfg, c, orders, e);
            && d.client == c.client && Measurable(d)
            && (Measure(d) == Measure(c)
                || (Measure(d)[0] == Measure(c)[0] && Measure(d)[1] == Measure(c)[1] && Measure(d)[2] < Measure(c)[2]))
  {
  }

  /** If one connection's measure falls, or stays, the sums do. */
  lemma SumsFollow(s: State, t: State, i: nat, d: Conn)
    requires i < |s.conns| && t.conns == s.conns[i := d] && Measurable(s.conns[i]) && Measurable(d)
    requires d.client == s.conns[i].client
    requires var m, n := Measure(s.conns[i]), Measure(d);
             n == m || (n[0] == m[0] && n[1] == m[1] && n[2] < m[2])
    ensures SameRequests(s, t) && AtMost(Wholes(t), Wholes(s))
  {
    hide Measure;
    var m, n := Measure(s.conns[i]), Measure(d);
    forall j: nat | j < 6 ensures Whole(t, j) == Whole(s, j) - m[j] + n[j] {
      PartIs(s.conns[i], j);
      PartIs(d, j);
      SumUpdate(s.conns, Part(j), i, d);
    }
    hide Whole;
    var p, q := Wholes(t), Wholes(s);
    if n == m {
      assert p == q;
    } else {
      assert p[0] == q[0] && p[1] == q[1] && p[2] < q[2];
    }
  }

  lemma PartIs(c: Conn, j: nat)
    requires j < 6 && Measurable(c)
    ensures Part(j)(c) == Measure(c)[j]
  {
    hide Measure;
  }

  // ---------------------------------------------------------------------------------------
  // Endless runs

  /** A run of the system as an endless sequence of states and the events between them. */
  ghost predicate Follows(cfg: S.Config, run: nat -> State, ev: nat -> Event) {
    forall n: nat :: run(n + 1) == Step(cfg, run(n), ev(n))
  }

  /** Along a run the measure never rises, and falls with every effective step. */
  lemma {:induction false} FallsAlong(cfg: S.Config, run: nat -> State, ev: nat -> Event, n: nat, m: nat)
    requires Follows(cfg, run, ev) && Inv(cfg, run(n)) && run(n).stop && n <= m
    ensures Inv(cfg, run(m)) && run(m).stop && SameRequests(run(n), run(m))
    ensures AtMost(Wholes(run(m)), Wholes(run(n)))
    decreases m - n
  {
    hide Inv, Step, Effective, Wholes, AtMost, Below;
    if n < m {
      FallsAlong(cfg, run, ev, n, m - 1);
      assert run(m - 1 + 1) == Step(cfg, run(m - 1), ev(m - 1));
      EveryStepFalls(cfg, run(m - 1), ev(m - 1));
      Lower(Wholes(run(m)), Wholes(run(m - 1)));
      BelowTransitive(Wholes(run(m)), Wholes(run(m - 1)), Wholes(run(n)));
    } else {
      Same(Wholes(run(n)));
    }
  }

  lemma Lower(n: seq<nat>, m: seq<nat>)
    requires |n| == |m|
    ensures Below(n, m) ==> AtMost(n, m)
  {
  }

  lemma Same(m: seq<nat>)
    ensures AtMost(m, m)
  {
  }

  /** From any point on, effective steps come to an end. */
  lemma {:induction false} RunsDry(cfg: S.Config, run: nat -> State, ev: nat -> Event, n: nat) returns (m: nat)
    requires Follows(cfg, run, ev) && Inv(cfg, run(n)) && run(n).stop
    ensures m >= n && (forall l: nat :: l >= m ==> !Effective(run(l), ev(l)))
    ensures Inv(cfg, run(m)) && run(m).stop && SameRequests(run(n), run(m))
    decreases Wholes(run(n))[0], Wholes(run(n))[1], Wholes(run(n))[2], Wholes(run(n))[3], Wholes(run(n))[4],
      Wholes(run(n))[5]
  {
    hide Inv, Step, Effective, Wholes, AtMost;
    if l: nat :| l >= n && Effective(run(l), ev(l)) {
      FallsAlong(cfg, run, ev, n, l);
      assert run(l + 1) == Step(cfg, run(l), ev(l));
      EveryStepFalls(cfg, run(l), ev(l));
      Lower(Wholes(run(l + 1)), Wholes(run(l)));
      BelowTransitive(Wholes(run(l + 1)), Wholes(run(l)), Wholes(run(n)));
      m := RunsDry(cfg, run, ev, l + 1);
    } else {
      m := n;
    }
  }

  /** No client has begun another request. */
  ghost predicate SameRequests(s: State, t: State) {
    && |t.conns| == |s.conns|
    && forall i :: 0 <= i < |s.conns| ==> t.conns[i].client.requests == s.conns[i].client.requests
  }

  lemma RequestsStay(cfg: S.Config, s: State, e: Event)
    requires Inv(cfg, s) && s.stop && Effective(s, e)
    ensures SameRequests(s, Step(cfg, s, e))
  {
    hide Inv, Step, ConnInv, ClientMay, SessionMay, ClientStep, SessionStep, Measure;
    ShutdownStep(cfg, s, e);
  }

  /** A client that has not finished always has something that can happen to it. */
  lemma SomethingCanHappen(s: State, i: nat) returns (e: Event)
    requires i < |s.conns| && s.stop && !s.conns[i].client.op.Finished?
    ensures Effective(s, e)
  {
    var op := s.conns[i].client.op;
    e := Client(i, if op.Loading? then C.Load(true) else if op.Pushing? then C.Push
                   else if op.Closing? then C.Finish else C.Fail, 0);
  }

  /** The load test ends.  Once the stop flag is set, in every run in which something effective
      keeps happening as long as anything can, whatever sessions are stopped or destroyed in
      between, all clients finish, none having begun another request; the count in flight is
      then zero and every success has its sample. */
  lemma ShutdownCompletes(cfg: S.Config, run: nat -> State, ev: nat -> Event, t: nat) returns (m: nat)
    requires Follows(cfg, run, ev) && Inv(cfg, run(t)) && run(t).stop
    requires forall n: nat :: (exists e :: Effective(run(n), e)) ==> exists l: nat :: l >= n && Effective(run(l), ev(l))
    ensures var s := run(m);
            && m >= t && (forall c <- s.conns :: c.client.op.Finished?) && SameRequests(run(t), s)
            && s.inFlight == 0 && s.successes == |s.samples| == Sum(s.conns, Responses)
  {
    hide Step, Effective, ConnInv, Measurable, SameRequests, Chained, Logged;
    m := RunsDry(cfg, run, ev, t);
    var s := run(m);
    forall c <- s.conns ensures c.client.op.Finished? {
      var i :| 0 <= i < |s.conns| && s.conns[i] == c;
      if !c.client.op.Finished? {
        var e := SomethingCanHappen(s, i);
        assert false;
      }
    }
    AllFinished(cfg, s);
  }

  /** The load test from its start: a run in which the timer goes off at some time t, and
      effective steps keep coming while any is possible, ends with all clients finished, and
      none begins a request behind the timer. */
  lemma LoadTestEnds(cfg: S.Config, load: Load, run: nat -> State, ev: nat -> Event, t: nat) returns (m: nat)
    requires Follows(cfg, run, ev) && run(0) == Start(load) && ev(t) == Timeout
    requires forall n: nat :: (exists e :: Effective(run(n), e)) ==> exists l: nat :: l >= n && Effective(run(l), ev(l))
    ensures var s := run(m);
            && m > t && (forall c <- s.conns :: c.client.op.Finished?) && SameRequests(run(t), s)
            && s.inFlight == 0 && s.successes == |s.samples| == Sum(s.conns, Responses)
  {
    hide Inv, Step, Effective;
    StartHolds(cfg, load);
    InvAlong(cfg, run, ev, t + 1);
    assert run(t + 1) == Step(cfg, run(t), ev(t));
    TimeoutStops(cfg, run(t));
    m := ShutdownCompletes(cfg, run, ev, t + 1);
  }

  lemma TimeoutStops(cfg: S.Config, s: State)
    ensures Step(cfg, s, Timeout).stop && SameRequests(s, Step(cfg, s, Timeout))
  {
  }

  lemma {:induction false} InvAlong(cfg: S.Config, run: nat -> State, ev: nat -> Event, n: nat)
    requires Follows(cfg, run, ev) && Inv(cfg, run(0))
    ensures Inv(cfg, run(n))
  {
    hide Inv, Step;
    if n > 0 {
      InvAlong(cfg, run, ev, n - 1);
      assert run(n - 1 + 1) == Step(cfg, run(n - 1), ev(n - 1));
      StepKeeps(cfg, run(n - 1), ev(n - 1));
    }
  }

  lemma AllFinished(cfg: S.Config, s: State)
    requires Inv(cfg, s) && forall c <- s.conns :: c.client.op.Finished?
    ensures s.inFlight == 0 && s.successes == |s.samples| == Sum(s.conns, Responses)
  {
    hide Chained, Logged, Parse, HeaderOf, SerializeAll, S.Inv;
    forall c <- s.conns ensures C.Books(c.client) {
      assert ConnInv(cfg, c);
    }
    hide ConnInv, AllConns;
    SumOfEqual(s.conns, Unfinished, 0);
    SumOfEqual(s.conns, Recording, 0);
    SumOfEqual(s.conns, Nothing, 0);
    SumsAddUp(s.conns, Responses, Samples, Recording, Nothing);
  }
}
