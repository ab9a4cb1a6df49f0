/** load_generator/src/client_session.cpp, next_request: what a client asks next, chosen by
    weight from the states of its generator. */
module LoadMix {
  import opened Lcg

  datatype Kind = SqlQuery | BuyOrder | SellOrder | GetPosition | GetPriceHistory

  datatype Scenario = Scenario(sql: int, buy: int, sell: int, position: int, history: int)

  function Weight(w: Scenario, kind: Kind): int {
    match kind
    case SqlQuery => w.sql
    case BuyOrder => w.buy
    case SellOrder => w.sell
    case GetPosition => w.position
    case GetPriceHistory => w.history
  }

  function Sum(w: Scenario): int {
    w.sql + w.buy + w.sell + w.position + w.history
  }

  function Total(w: Scenario): (t: int)
    ensures t > 0
  {
    if Sum(w) <= 0 then 1 else Sum(w)
  }

  /** The running threshold the pick is compared with. */
  function Selected(w: Scenario, r: nat): Kind {
    var pick := r % Total(w);
    if pick < w.sql then SqlQuery
    else if pick < w.sql + w.buy then BuyOrder
    else if pick < w.sql + w.buy + w.sell then SellOrder
    else if pick < w.sql + w.buy + w.sell + w.position then GetPosition
    else GetPriceHistory
  }

  // ---------------------------------------------------------------------------------------
  // Which picks select a kind

  function Index(kind: Kind): (i: nat)
    ensures i < 5
  {
    match kind
    case SqlQuery => 0
    case BuyOrder => 1
    case SellOrder => 2
    case GetPosition => 3
    case GetPriceHistory => 4
  }

  function Threshold(w: Scenario, i: nat): int {
    if i == 0 then 0
    else if i == 1 then w.sql
    else if i == 2 then w.sql + w.buy
    else if i == 3 then w.sql + w.buy + w.sell
    else w.sql + w.buy + w.sell + w.position
  }

  /** The picks divide at the largest threshold so far, within the total. */
  function Edge(w: Scenario, i: nat): (e: int)
    requires i <= 5
    ensures 0 <= e <= Total(w)
  {
    if i == 0 then 0
    else if i == 5 then Total(w)
    else
      var t := if Threshold(w, i) < Total(w) then Threshold(w, i) else Total(w);
      if t < Edge(w, i - 1) then Edge(w, i - 1) else t
  }

  function Share(w: Scenario, kind: Kind): (n: nat) {
    Edge(w, Index(kind) + 1) - Edge(w, Index(kind))
  }

  lemma SelectedIff(w: Scenario, r: nat, kind: Kind)
    ensures Selected(w, r) == kind <==> Edge(w, Index(kind)) <= r % Total(w) < Edge(w, Index(kind) + 1)
  {
    assert Edge(w, 0) == 0 && Edge(w, 5) == Total(w);
    var e1, e2, e3, e4 := Edge(w, 1), Edge(w, 2), Edge(w, 3), Edge(w, 4);
    assert 0 <= e1 <= e2 <= e3 <= e4 <= Total(w);
  }

  /** With a positive sum, the shares are the weights exactly when no weight is negative. */
  lemma ProportionalIff(w: Scenario)
    requires Sum(w) > 0
    ensures (forall kind :: Share(w, kind) == Weight(w, kind)) <==> (forall kind :: Weight(w, kind) >= 0)
  {
    assert Edge(w, 0) == 0 && Edge(w, 5) == Sum(w);
    var e1, e2, e3, e4 := Edge(w, 1), Edge(w, 2), Edge(w, 3), Edge(w, 4);
    if forall kind :: Weight(w, kind) >= 0 {
      assert Weight(w, SqlQuery) >= 0 && Weight(w, BuyOrder) >= 0 && Weight(w, SellOrder) >= 0;
      assert Weight(w, GetPosition) >= 0 && Weight(w, GetPriceHistory) >= 0;
      assert e1 == w.sql && e2 == w.sql + w.buy && e3 == w.sql + w.buy + w.sell;
      forall kind ensures Share(w, kind) == Weight(w, kind) {
        match kind
        case _ =>
      }
    } else {
      var kind :| Weight(w, kind) < 0;
      assert Share(w, kind) >= 0;
    }
  }

  /** With no positive sum the generator does not matter, and no positive weight means price
      history always. */
  lemma NothingToWeigh(w: Scenario, r: nat)
    requires Sum(w) <= 0
    ensures Selected(w, r) == Selected(w, 0)
    ensures (forall kind :: Weight(w, kind) <= 0) ==> Selected(w, r) == GetPriceHistory
  {
    assert r % 1 == 0;
    assert (forall kind :: Weight(w, kind) <= 0) ==>
      Weight(w, SqlQuery) <= 0 && Weight(w, BuyOrder) <= 0 && Weight(w, SellOrder) <= 0 && Weight(w, GetPosition) <= 0;
  }

  // ---------------------------------------------------------------------------------------
  // How often

  /** The numbers below n that select the kind. */
  ghost function Picked(w: Scenario, kind: Kind, n: nat): set<int> {
    set r: int | 0 <= r < n && Selected(w, r) == kind
  }

  function Within(x: int, lo: int, hi: int): int
    requires lo <= hi
  {
    if x < lo then lo else if x > hi then hi else x
  }

  lemma NextQuotient(n: nat, t: int)
    requires t > 0
    ensures if n % t == t - 1 then (n + 1) / t == n / t + 1 && (n + 1) % t == 0
            else (n + 1) / t == n / t && (n + 1) % t == n % t + 1
  {
    if n % t == t - 1 {
      assert n + 1 == t * (n / t + 1) + 0;
      DivModUnique(n + 1, t, n / t + 1, 0);
    } else {
      assert n + 1 == t * (n / t) + (n % t + 1);
      DivModUnique(n + 1, t, n / t, n % t + 1);
    }
  }

  lemma PickedNext(w: Scenario, kind: Kind, m: nat)
    ensures |Picked(w, kind, m + 1)| == |Picked(w, kind, m)| + (if Selected(w, m) == kind then 1 else 0)
  {
    hide Selected;
    if Selected(w, m) == kind {
      assert Picked(w, kind, m + 1) == Picked(w, kind, m) + {m};
    } else {
      assert Picked(w, kind, m + 1) == Picked(w, kind, m);
    }
  }

  /** What n picks give a kind whose picks are those from e to e + s of every t. */
  function Expected(n: nat, t: int, e: int, s: int): int
    requires t > 0 && s >= 0
  {
    n / t * s + Within(n % t - e, 0, s)
  }

  lemma ExpectedNext(m: nat, t: int, e: int, s: int)
    requires t > 0 && s >= 0 && 0 <= e && e + s <= t
    ensures Expected(m + 1, t, e, s) == Expected(m, t, e, s) + (if e <= m % t < e + s then 1 else 0)
    ensures Expected(0, t, e, s) == 0
  {
    NextQuotient(m, t);
    Distribute(m / t, 1, s);
    DivModUnique(0, t, 0, 0);
  }

  /** Selection is exact: every full round of `total` numbers gives a kind its share, and the
      rest of a round gives it what the round has passed of its picks. */
  lemma {:induction false} PickedExactly(w: Scenario, kind: Kind, n: nat)
    ensures |Picked(w, kind, n)| == Expected(n, Total(w), Edge(w, Index(kind)), Share(w, kind))
  {
    var t, e, s := Total(w), Edge(w, Index(kind)), Share(w, kind);
    assert e + s == Edge(w, Index(kind) + 1) <= t;
    hide Total, Selected, Edge, Share, Expected;
    ExpectedNext(if n == 0 then 0 else n - 1, t, e, s);
    if n == 0 {
      assert Picked(w, kind, 0) == {};
    } else {
      PickedExactly(w, kind, n - 1);
      PickedNext(w, kind, n - 1);
      SelectedIff(w, n - 1, kind);
    }
  }

  ghost function Image(xs: set<int>, f: int -> int): set<int> {
    set x | x in xs :: f(x)
  }

  lemma Member<T>(xs: set<T>) returns (x: T)
    requires xs != {}
    ensures x in xs
  {
    x :| x in xs;
  }

  lemma {:induction false} ImageSize(xs: set<int>, f: int -> int)
    requires forall x <- xs, x' <- xs :: f(x) == f(x') ==> x == x'
    ensures |Image(xs, f)| == |xs|
    decreases |xs|
  {
    if xs != {} {
      var x := Member(xs);
      ImageSize(xs - {x}, f);
      assert Image(xs, f) == Image(xs - {x}, f) + {f(x)};
    }
  }

  /** The calls of next_rand, among the first 2^64, whose results select the kind. */
  ghost function PickedOverPeriod(w: Scenario, kind: Kind, seed: uint64): set<int> {
    set n: int | 0 <= n < MODULUS && Selected(w, After(n, seed)) == kind
  }

  /** Over a full period from any seed, each kind is picked as often as among the numbers below
      2^64: its share of every round, and at most one share more. */
  lemma PeriodExactly(w: Scenario, kind: Kind, seed: uint64)
    ensures var picks, rounds, s := |PickedOverPeriod(w, kind, seed)|, MODULUS / Total(w), Share(w, kind);
            && picks == Expected(MODULUS, Total(w), Edge(w, Index(kind)), s)
            && rounds * s <= picks <= (rounds + 1) * s
  {
    hide Selected, Total, Edge, After, Index;
    var xs, ys := PickedOverPeriod(w, kind, seed), Picked(w, kind, MODULUS);
    var f: int -> int := n => if n < 0 then 0 else After(n, seed);
    forall x <- xs, x' <- xs | f(x) == f(x') ensures x == x' {
      if x < x' { NoRepeat(x, x', seed); }
      if x' < x { NoRepeat(x', x, seed); }
    }
    forall y <- ys ensures y in Image(xs, f) {
      var x := EveryStateReached(seed, y);
      assert f(x) == y && x in xs;
    }
    assert Image(xs, f) == ys;
    ImageSize(xs, f);
    PickedExactly(w, kind, MODULUS);
    Distribute(MODULUS / Total(w), 1, Share(w, kind));
  }

  lemma {:induction false} AfterAdd(m: nat, n: nat, s: uint64)
    ensures After(m + n, s) == After(m, After(n, s))
  {
    if m > 0 {
      AfterAdd(m - 1, n, s);
    }
  }

  lemma NoRepeat(m: nat, n: nat, s: uint64)
    requires m < n < MODULUS
    ensures After(m, s) != After(n, s)
  {
    hide After;
    AfterAdd(n - m, m, s);
    FullPeriod(0, n - m, After(m, s));
  }
}
