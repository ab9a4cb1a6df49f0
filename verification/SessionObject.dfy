/** The Session class itself: buffers filled in place, handlers that start the next operation.
    Each method is tied to the step of SessionMachine it performs. */
module SessionObject {
  import opened Protocol
  import opened Frames
  import opened Router
  import opened SessionMachine

  /** Which asynchronous operation is outstanding on the socket. */
  datatype Pending = Nothing | HeaderRead | BodyRead | Write

  class Session {
    const host: Host
    const router: ServiceRouter
    const headerBuf: array<byte>
    var bodyBuf: seq<byte>
    var writeBuf: array<byte>
    var currentHeader: Header
    var closed: bool
    var onCloseCalls: nat
    var pending: Pending
    var moved: nat
    /** Calls of stop whose close is still to run on the executor. */
    var posted: nat

    ghost var failed: bool
    ghost var destroyed: bool
    ghost var taken: seq<byte>
    ghost var framed: seq<byte>
    ghost var sent: seq<byte>
    ghost var requests: seq<Message>
    ghost var envs: seq<Env>

    ghost predicate Valid()
      reads this
    {
      && headerBuf.Length == HEADER_SIZE && writeBuf != headerBuf
      && (pending.HeaderRead? ==> moved <= HEADER_SIZE)
      && (pending.BodyRead? ==> |bodyBuf| == currentHeader.payloadLength && moved <= |bodyBuf|)
      && (pending.Write? ==> moved <= writeBuf.Length)
      && (destroyed ==> pending.Nothing?)
    }

    ghost function Operation(): Op
      reads this, headerBuf, writeBuf
      requires Valid()
    {
      match pending
      case Nothing => Idle
      case HeaderRead => ReadingHeader(headerBuf[..moved])
      case BodyRead => ReadingBody(headerBuf[..], bodyBuf[..moved])
      case Write => Writing(writeBuf[..], moved)
    }

    ghost function View(): State
      reads this, headerBuf, writeBuf
      requires Valid()
    {
      State(Operation(), currentHeader, closed, onCloseCalls, failed, destroyed, taken, framed, sent, requests, envs)
    }

    ghost function Cfg(): Config
      reads router
    {
      Config(host, router.handlers)
    }

    constructor (host: Host, router: ServiceRouter)
      ensures Valid() && fresh(headerBuf) && fresh(writeBuf) && this.host == host && this.router == router
      ensures View() == SessionMachine.Start().(op := Idle)
    {
      this.host, this.router := host, router;
      headerBuf, writeBuf := new byte[HEADER_SIZE](_ => 0), new byte[0];
      bodyBuf, currentHeader, pending, moved := [], Header(0, 6, 0, 0), Nothing, 0;
      closed, onCloseCalls, failed, destroyed, posted := false, 0, false, false, 0;
      taken, framed, sent, requests, envs := [], [], [], [], [];
    }

    method Start()
      requires Valid() && !destroyed
      modifies this
      ensures Valid() && View() == old(View()).(op := ReadingHeader([]))
      ensures writeBuf == old(writeBuf)
    {
      DoReadHeader();
    }

    method DoReadHeader()
      requires Valid() && !destroyed
      modifies this
      ensures Valid() && View() == old(View()).(op := ReadingHeader([]))
      ensures writeBuf == old(writeBuf)
    {
      pending, moved := HeaderRead, 0;
      assert headerBuf[..0] == [];
    }

    /** The outstanding read stores the next bytes of the socket in its buffer. */
    method Receive(chunk: seq<byte>)
      requires Valid() && Enabled(View(), SessionMachine.Receive(chunk))
      modifies this, headerBuf
      ensures Valid() && View() == Step(Cfg(), old(View()), SessionMachine.Receive(chunk))
      ensures writeBuf == old(writeBuf)
    {
      if pending.HeaderRead? {
        var m := moved;
        forall i | 0 <= i < |chunk| {
          headerBuf[m + i] := chunk[i];
        }
        assert headerBuf[..m + |chunk|] == old(headerBuf[..moved]) + chunk;
      } else {
        bodyBuf := bodyBuf[..moved] + chunk + bodyBuf[moved + |chunk|..];
        assert bodyBuf[..moved + |chunk|] == old(bodyBuf[..moved]) + chunk;
      }
      moved := moved + |chunk|;
      taken := taken + chunk;
    }

    /** The outstanding write hands the next n bytes of its buffer to the socket. */
    method Transmit(n: nat)
      requires Valid() && Enabled(View(), SessionMachine.Transmit(n))
      modifies this
      ensures Valid() && View() == Step(Cfg(), old(View()), SessionMachine.Transmit(n))
      ensures writeBuf == old(writeBuf)
    {
      sent := sent + writeBuf[..][moved..moved + n];
      moved := moved + n;
    }

    /** Completion handler of the header read; `ec` is its error code. */
    method OnHeaderRead(ec: bool, env: Env) returns (orders: nat)
      requires Valid() && pending.HeaderRead? && (!ec ==> moved == HEADER_SIZE)
      modifies this
      ensures Valid() && (writeBuf == old(writeBuf) || fresh(writeBuf))
      ensures View() == Step(Cfg(), old(View()), if ec then Fail else Complete(env))
      ensures orders == if ec then env.orders else OrdersAfter(Cfg(), old(View()), env)
    {
      hide HeaderOf, DecodeHeader, Dispatch, Serialize;
      orders := env.orders;
      if ec {
        pending, failed := Nothing, true;
        Close();
        return;
      }
      assert headerBuf[..moved] == headerBuf[..];
      DecodeHeaderMeaning(host, headerBuf[..]);
      var decoded := DecodeHeader(host, headerBuf[..]);
      if decoded.Err? {
        pending := Nothing;
        Close();
        return;
      }
      currentHeader := decoded.value;
      if currentHeader.payloadLength == 0 {
        bodyBuf := [];
        orders := DoReadBody(env);
        return;
      }
      bodyBuf := seq(currentHeader.payloadLength, _ => 0);
      orders := DoReadBody(env);
    }

    method DoReadBody(env: Env) returns (orders: nat)
      requires Valid() && !destroyed && |bodyBuf| == currentHeader.payloadLength
      modifies this
      ensures Valid() && (writeBuf == old(writeBuf) || fresh(writeBuf))
      ensures View() == if |old(bodyBuf)| == 0 then SessionMachine.DispatchAndWrite(Cfg(), old(View()), [], env)
                        else old(View()).(op := ReadingBody(headerBuf[..], []))
      ensures orders == if |old(bodyBuf)| == 0
                        then Dispatch(Cfg().table, env, Message(old(currentHeader), [])).orders else env.orders
    {
      hide Dispatch, Serialize;
      if currentHeader.payloadLength == 0 {
        orders := DispatchAndWrite(env);
        return;
      }
      pending, moved, orders := BodyRead, 0, env.orders;
    }

    method DispatchAndWrite(env: Env) returns (orders: nat)
      requires Valid() && !destroyed
      modifies this
      ensures Valid() && (writeBuf == old(writeBuf) || fresh(writeBuf))
      ensures View() == SessionMachine.DispatchAndWrite(Cfg(), old(View()), old(bodyBuf), env)
      ensures orders == Dispatch(Cfg().table, env, Message(old(currentHeader), old(bodyBuf))).orders
    {
      hide Dispatch, Serialize;
      var request := Message(currentHeader, bodyBuf);
      framed, requests, envs := taken, requests + [request], envs + [env];
      var dispatched := Dispatch(router.handlers, env, request);
      orders := dispatched.orders;
      DoWrite(dispatched.response);
    }

    method DoWrite(response: Message)
      requires Valid() && !destroyed
      modifies this
      ensures Valid() && fresh(writeBuf)
      ensures View() == SessionMachine.DoWrite(Cfg(), old(View()), response)
    {
      hide Serialize;
      var buf := PrintMessage(host, response);
      writeBuf, pending, moved := buf, Write, 0;
    }

    method OnBodyRead(ec: bool, env: Env) returns (orders: nat)
      requires Valid() && pending.BodyRead? && (!ec ==> moved == |bodyBuf|)
      modifies this
      ensures Valid() && (writeBuf == old(writeBuf) || fresh(writeBuf))
      ensures View() == Step(Cfg(), old(View()), if ec then Fail else Complete(env))
      ensures orders == if ec then env.orders else OrdersAfter(Cfg(), old(View()), env)
    {
      hide HeaderOf, Dispatch, Serialize;
      if ec {
        pending, failed, orders := Nothing, true, env.orders;
        Close();
        return;
      }
      assert bodyBuf[..moved] == bodyBuf;
      orders := DispatchAndWrite(env);
    }

    method OnWritten(ec: bool, env: Env)
      requires Valid() && pending.Write? && (!ec ==> moved == writeBuf.Length)
      modifies this
      ensures Valid() && writeBuf == old(writeBuf)
      ensures View() == Step(Cfg(), old(View()), if ec then Fail else Complete(env))
    {
      if ec {
        pending, failed := Nothing, true;
        Close();
        return;
      }
      DoReadHeader();
    }

    method Close()
      requires Valid()
      modifies this`closed, this`onCloseCalls
      ensures Valid() && View() == SessionMachine.Close(old(View()))
    {
      if closed {
        return;
      }
      closed := true;
      onCloseCalls := onCloseCalls + 1;
    }

    /** stop() only posts the close onto the executor. */
    method Stop()
      requires Valid() && !destroyed
      modifies this`posted
      ensures Valid() && View() == old(View()) && posted == old(posted) + 1
    {
      posted := posted + 1;
    }

    /** A posted close runs. */
    method RunPosted()
      requires Valid() && !destroyed && posted > 0
      modifies this`posted, this`closed, this`onCloseCalls
      ensures Valid() && View() == Step(Cfg(), old(View()), SessionMachine.Stop) && posted == old(posted) - 1
      ensures onCloseCalls == old(onCloseCalls) + (if old(closed) then 0 else 1) && closed
    {
      posted := posted - 1;
      Close();
    }

    /** The destructor, which drops the outstanding operation and what is posted. */
    method Destroy()
      requires Valid() && !destroyed
      modifies this
      ensures Valid() && View() == Step(Cfg(), old(View()), SessionMachine.Destroy) && posted == 0
      ensures closed && onCloseCalls == old(onCloseCalls) + (if old(closed) then 0 else 1)
    {
      assert Enabled(View(), SessionMachine.Destroy);
      hide OnHeader, SessionMachine.DispatchAndWrite, Possible, Enabled;
      failed := failed || !pending.Nothing?;
      destroyed, pending, posted := true, Nothing, 0;
      Close();
    }
  }
}
