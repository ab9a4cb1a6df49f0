/** The load generator's ClientSession class itself, with the stop flag, the count of clients in
    flight and the metrics it shares with the other clients.  Each handler is tied to the steps
    of ClientMachine it performs, one after the other. */
module ClientObject {
  import opened Protocol
  import opened Frames
  import opened Lcg
  import opened LoadMix
  import opened Requests
  import opened Metrics
  import opened ClientMachine
  import Decimal
  import PriceHistory
  import Router
  import Sql
  import Trade

  /** What load_generator/src/main.cpp shares among the clients. */
  class Control {
    var stopFlag: bool
    var inFlight: int

    constructor (clients: nat)
      ensures !stopFlag && inFlight == clients
    {
      stopFlag, inFlight := false, clients;
    }

    /** The timer. */
    method StopLoad()
      modifies this`stopFlag
      ensures stopFlag
    {
      stopFlag := true;
    }

    /** The on_done callback. */
    method ClientDone()
      modifies this`inFlight
      ensures inFlight == old(inFlight) - 1
    {
      inFlight := inFlight - 1;
    }
  }

  /** Where the client is: the operation outstanding on its socket, or the point its handler
      has reached. */
  datatype Pending =
    | Resolve | Connect | ReadyToSend | Write | HeaderRead | BodyRead | Counted | Failed | Done

  /** What a handler does after its completion event, with no other thread in between: record
      the success and send the next request, or finish. */
  function Settled(host: Host, s: State, stop: bool): State {
    match s.op
    case Closing => Step(host, s, Finish)
    case Loading => Step(host, s, Load(stop))
    case Pushing => Step(host, Step(host, s, Push), Load(stop))
    case _ => s
  }

  class ClientSession {
    const host: Host
    const metrics: MetricsCollector
    const control: Control
    const scenario: Scenario
    const headerBuf: array<byte>
    var bodyBuf: seq<byte>
    var writeBuf: array<byte>
    var respHeader: Header
    var requestStart: int
    var rngState: uint64
    var pending: Pending
    var moved: nat

    ghost const seed: uint64
    ghost var taken: seq<byte>
    ghost var framed: seq<byte>
    ghost var sent: seq<byte>
    ghost var requests: seq<Message>
    ghost var responses: seq<Message>
    ghost var stored: nat
    ghost var failures: nat
    ghost var sendFailures: nat
    ghost var finishes: nat

    ghost predicate Valid()
      reads this
    {
      && headerBuf.Length == HEADER_SIZE && writeBuf != headerBuf
      && (pending.HeaderRead? ==> moved <= HEADER_SIZE)
      && (pending.BodyRead? ==> |bodyBuf| == respHeader.payloadLength && moved <= |bodyBuf|)
      && (pending.Write? ==> moved <= writeBuf.Length)
    }

    ghost function Operation(): Op
      reads this, headerBuf, writeBuf
      requires Valid()
    {
      match pending
      case Resolve => Resolving
      case Connect => Connecting
      case ReadyToSend => Loading
      case Write => Writing(writeBuf[..], moved)
      case HeaderRead => ReadingHeader(headerBuf[..moved])
      case BodyRead => ReadingBody(headerBuf[..], bodyBuf[..moved])
      case Counted => Pushing
      case Failed => Closing
      case Done => Finished
    }

    ghost function View(): State
      reads this, headerBuf, writeBuf
      requires Valid()
    {
      State(scenario, seed, rngState, Operation(), respHeader, taken, framed, sent, requests, responses,
            stored, failures, sendFailures, finishes)
    }

    constructor (host: Host, metrics: MetricsCollector, control: Control, scenario: Scenario, clientId: nat)
      ensures Valid() && fresh(headerBuf) && fresh(writeBuf)
      ensures this.host == host && this.metrics == metrics && this.control == control && this.scenario == scenario
      ensures View() == ClientMachine.Start(scenario, Seed(clientId))
      ensures rngState == (clientId * 2654435761 + 1) % 0x1_0000_0000_0000_0000
    {
      this.host, this.metrics, this.control, this.scenario := host, metrics, control, scenario;
      headerBuf, writeBuf := new byte[HEADER_SIZE](_ => 0), new byte[0];
      bodyBuf, respHeader, requestStart, pending, moved := [], Header(0, 6, 0, 0), 0, Resolve, 0;
      rngState := (clientId * 2654435761 + 1) % MODULUS;
      seed := Seed(clientId);
      taken, framed, sent, requests, responses := [], [], [], [], [];
      stored, failures, sendFailures, finishes := 0, 0, 0, 0;
    }

    // -------------------------------------------------------------------------------------
    // Choosing a request

    method NextRand() returns (r: uint64)
      modifies this`rngState
      ensures r == rngState == Next(old(rngState))
      ensures r == (old(rngState) * 6364136223846793005 + 1442695040888963407) % 0x1_0000_0000_0000_0000
    {
      rngState := (rngState * MULTIPLIER + INCREMENT) % MODULUS;
      r := rngState;
    }

    /** The message is the one the generator's state determines, and takes its draws. */
    method NextRequest() returns (m: Message)
      modifies this`rngState
      ensures m == RequestFrom(scenario, old(rngState))
      ensures rngState == After(Draws(KindFrom(scenario, old(rngState))), old(rngState))
    {
      hide Next, Symbol, PriceText, Lcg.After, Trade.PrintOrder, PriceHistory.PrintRequest, Sql.PrintQuery;
      ghost var s := rngState;
      FirstDraws(s);
      var w := scenario;
      var total := w.sql + w.buy + w.sell + w.position + w.history;
      if total <= 0 { total := 1; }
      var r := NextRand();
      var pick := r % total;
      ghost var kind := KindFrom(w, s);
      assert pick == After(1, s) % LoadMix.Total(w);
      r := NextRand();
      var symbol := Symbol(r);
      var threshold := w.sql;
      if pick < threshold {
        assert kind == SqlQuery;
        return Make(1, Router.Octets(Sql.PrintQuery(Statement(symbol))), 0);
      }
      threshold := threshold + w.buy;
      if pick < threshold {
        assert kind == BuyOrder;
        var order := DrawOrder(symbol);
        return Make(2, Router.Octets(order), 0);
      }
      threshold := threshold + w.sell;
      if pick < threshold {
        assert kind == SellOrder;
        var order := DrawOrder(symbol);
        return Make(3, Router.Octets(order), 0);
      }
      threshold := threshold + w.position;
      if pick < threshold {
        assert kind == GetPosition;
        return Make(4, Router.Octets("{\"account\":\"ACC-001\"}"), 0);
      }
      assert kind == GetPriceHistory;
      r := NextRand();
      m := Make(5, Router.Octets(PriceHistory.PrintRequest(symbol, 7 + r % 24)), 0);
    }

    method DrawOrder(symbol: string) returns (payload: string)
      modifies this`rngState
      ensures var r := Next(old(rngState));
              && rngState == Next(r)
              && payload == Trade.PrintOrder(symbol, Decimal.Print(Quantity(r)), PriceText(Cents(rngState)), ACCOUNT)
    {
      var r := NextRand();
      var qty := 10 + r % 491;
      r := NextRand();
      payload := Trade.PrintOrder(symbol, Decimal.Print(qty), PriceText(r % 20000), ACCOUNT);
    }

    // -------------------------------------------------------------------------------------
    // Moving bytes

    method Receive(chunk: seq<byte>)
      requires Valid() && Enabled(View(), ClientMachine.Receive(chunk))
      modifies this, headerBuf
      ensures Valid() && View() == Step(host, old(View()), ClientMachine.Receive(chunk))
      ensures writeBuf == old(writeBuf) && rngState == old(rngState) && requestStart == old(requestStart)
    {
      if pending.HeaderRead? {
        var m := moved;
        forall i | 0 <= i < |chunk| {
          headerBuf[m + i] := chunk[i];
        }
        assert headerBuf[..m + |chunk|] == old(headerBuf[..moved]) + chunk;
      } else {
        bodyBuf := bodyBuf[..moved] + chunk + bodyBuf[moved + |chunk|..];
        assert bodyBuf[..moved + |chunk|] == old(bodyBuf[..moved]) + chunk;
      }
      moved := moved + |chunk|;
      taken := taken + chunk;
    }

    method Transmit(n: nat)
      requires Valid() && Enabled(View(), ClientMachine.Transmit(n))
      modifies this
      ensures Valid() && View() == Step(host, old(View()), ClientMachine.Transmit(n))
      ensures writeBuf == old(writeBuf) && rngState == old(rngState) && requestStart == old(requestStart)
    {
      sent := sent + writeBuf[..][moved..moved + n];
      moved := moved + n;
    }

    // -------------------------------------------------------------------------------------
    // Handlers

    /** The shared counters moved by exactly what this client did; a sample is the time since its
        request was begun. */
    twostate predicate Booked(now: int)
      reads this, metrics, control
    {
      && metrics.successes == old(metrics.successes) + |responses| - |old(responses)|
      && metrics.errors == old(metrics.errors) + failures - old(failures)
      && metrics.samples == old(metrics.samples) + (if stored == old(stored) then [] else [now - old(requestStart)])
      && control.inFlight == old(control.inFlight) - finishes + old(finishes)
      && control.stopFlag == old(control.stopFlag)
      && requestStart == (if |requests| > |old(requests)| then now else old(requestStart))
    }

    /** An asynchronous operation is outstanding, or the client is done. */
    predicate Waits()
      reads this
    {
      || pending.Resolve? || pending.Connect? || pending.Write? || pending.HeaderRead? || pending.BodyRead?
      || pending.Done?
    }

    /** The outcome of a handler: the completion event, and everything up to the next wait. */
    twostate predicate Handled(ec: bool)
      reads this, headerBuf, writeBuf, control
      requires old(Valid()) && Valid()
    {
      && (writeBuf == old(writeBuf) || fresh(writeBuf)) && Waits()
      && var t := Step(host, old(View()), if ec then Fail else Complete);
         View() == Settled(host, t, control.stopFlag)
    }

    /** record_error, then finish. */
    method GiveUp(now: int)
      requires Valid() && Enabled(View(), Fail)
      modifies this, metrics, control
      ensures Valid() && Booked(now) && Handled(true)
    {
      hide OnHeader, RequestFrom, Serialize;
      ghost var was, stop := View(), control.stopFlag;
      assert Settled(host, Step(host, was, Fail), stop) == DoFinish(RecordError(was));
      metrics.RecordError();
      if pending.Write? || pending.HeaderRead? || pending.BodyRead? {
        sendFailures := sendFailures + 1;
      }
      failures, pending := failures + 1, Failed;
      assert View() == RecordError(was);
      hide Step, Settled, RecordError, DoFinish;
      FinishClient();
    }

    method FinishClient()
      requires Valid()
      modifies this, control
      ensures Valid() && View() == DoFinish(old(View())) && writeBuf == old(writeBuf) && pending.Done?
      ensures control.inFlight == old(control.inFlight) - 1 && control.stopFlag == old(control.stopFlag)
      ensures requestStart == old(requestStart)
    {
      pending, finishes := Done, finishes + 1;
      control.ClientDone();
    }

    method DoSendRequest(now: int)
      requires Valid() && pending.ReadyToSend?
      modifies this, control
      ensures Valid() && (writeBuf == old(writeBuf) || fresh(writeBuf))
      ensures View() == Step(host, old(View()), Load(control.stopFlag))
      ensures responses == old(responses) && failures == old(failures) && stored == old(stored)
      ensures if control.stopFlag then pending.Done? && requests == old(requests) && requestStart == old(requestStart)
              else pending.Write? && |requests| == |old(requests)| + 1 && moved == 0 && requestStart == now
      ensures control.inFlight == old(control.inFlight) - finishes + old(finishes)
      ensures control.stopFlag == old(control.stopFlag)
    {
      hide RequestFrom, Serialize, OnHeader, TextFrom, KindFrom;
      if control.stopFlag {
        FinishClient();
        return;
      }
      var req := NextRequest();
      var buf := PrintMessage(host, req);
      writeBuf, requestStart, pending, moved := buf, now, Write, 0;
      requests := requests + [req];
    }

    /** record_success, then the next request. */
    method Succeeded(response: Message, now: int)
      requires Valid() && (pending.HeaderRead? || pending.BodyRead?)
      modifies this, metrics, control
      ensures Valid() && Booked(now) && (writeBuf == old(writeBuf) || fresh(writeBuf)) && Waits()
      ensures View() == Settled(host, Succeed(old(View()), response), control.stopFlag)
    {
      hide RequestFrom, Serialize, OnHeader, ClientMachine.DoSendRequest;
      ghost var was := View();
      ghost var counted := Succeed(was, response);
      assert Settled(host, counted, control.stopFlag)
          == Step(host, Step(host, counted, Push), Load(control.stopFlag));
      assert Step(host, counted, Push) == counted.(op := Loading, samples := counted.samples + 1);
      hide Step, Settled, Enabled;
      var us := now - requestStart;
      metrics.CountSuccess();
      framed, responses, pending := taken, responses + [response], Counted;
      metrics.StoreSample(us);
      stored, pending := stored + 1, ReadyToSend;
      assert View() == Step(host, counted, Push);
      hide Succeed;
      DoSendRequest(now);
    }

    method OnResolved(ec: bool, now: int)
      requires Valid() && pending.Resolve?
      modifies this, metrics, control
      ensures Valid() && Booked(now) && Handled(ec)
    {
      if ec {
        GiveUp(now);
        return;
      }
      pending := Connect;
    }

    method OnConnected(ec: bool, now: int)
      requires Valid() && pending.Connect?
      modifies this, metrics, control
      ensures Valid() && Booked(now) && Handled(ec)
    {
      hide RequestFrom, Serialize;
      if ec {
        GiveUp(now);
        return;
      }
      pending := ReadyToSend;
      DoSendRequest(now);
    }

    method OnWritten(ec: bool, now: int)
      requires Valid() && pending.Write? && (!ec ==> moved == writeBuf.Length)
      modifies this, metrics, control
      ensures Valid() && Booked(now) && Handled(ec)
    {
      if ec {
        GiveUp(now);
        return;
      }
      pending, moved := HeaderRead, 0;
      assert headerBuf[..0] == [];
    }

    method OnHeaderRead(ec: bool, now: int)
      requires Valid() && pending.HeaderRead? && (!ec ==> moved == HEADER_SIZE)
      modifies this, metrics, control
      ensures Valid() && Booked(now) && Handled(ec)
    {
      hide HeaderOf, DecodeHeader, RequestFrom, Serialize, ClientMachine.DoSendRequest, WithHeader, RecordError;
      if ec {
        GiveUp(now);
        return;
      }
      assert headerBuf[..moved] == headerBuf[..];
      DecodeHeaderMeaning(host, headerBuf[..]);
      FailedLikewise(host, View(), control.stopFlag);
      var decoded := DecodeHeader(host, headerBuf[..]);
      if decoded.Err? {
        GiveUp(now);
        return;
      }
      OnHeaderDecoded(decoded.value, now);
    }

    /** A body of no bytes is complete at once. */
    method OnHeaderDecoded(h: Header, now: int)
      requires Valid() && pending.HeaderRead? && moved == HEADER_SIZE
      modifies this, metrics, control
      ensures Valid() && Booked(now) && (writeBuf == old(writeBuf) || fresh(writeBuf)) && Waits()
      ensures View() == Settled(host, WithHeader(old(View()), h), control.stopFlag)
    {
      hide RequestFrom, Serialize, ClientMachine.DoSendRequest, Step, Succeed;
      assert headerBuf[..moved] == headerBuf[..];
      respHeader := h;
      if h.payloadLength == 0 {
        hide Settled;
        Succeeded(Message(h, []), now);
        return;
      }
      bodyBuf := seq(h.payloadLength, _ => 0);
      pending, moved := BodyRead, 0;
      assert bodyBuf[..0] == [];
    }

    method OnBodyRead(ec: bool, now: int)
      requires Valid() && pending.BodyRead? && (!ec ==> moved == |bodyBuf|)
      modifies this, metrics, control
      ensures Valid() && Booked(now) && Handled(ec)
    {
      hide RequestFrom, Serialize;
      if ec {
        GiveUp(now);
        return;
      }
      assert bodyBuf[..moved] == bodyBuf;
      Succeeded(Message(respHeader, bodyBuf), now);
    }
  }

  /** A refused header is settled like a failed read. */
  lemma FailedLikewise(host: Host, s: State, stop: bool)
    requires s.op.ReadingHeader?
    ensures Settled(host, Step(host, s, Fail), stop) == Settled(host, RecordError(s), stop)
  {
    hide OnHeader, ClientMachine.DoSendRequest;
  }

  lemma FirstDraws(s: uint64)
    ensures After(1, s) == Next(s) && After(2, s) == Next(Next(s))
    ensures After(3, s) == Next(After(2, s)) && After(4, s) == Next(After(3, s))
  {
    hide Next;
    assert After(0, s) == s;
    assert After(1, s) == Next(After(0, s));
    assert After(2, s) == Next(After(1, s));
  }
}
