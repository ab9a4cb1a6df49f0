/** server/include/service_router.hpp: handlers by message type, and dispatch.

    A handler is a function of its payload and of the two shared things handlers look at: the
    process-wide order counter and the clock.  It says what it leaves in the order counter. */
module Router {
  import opened Protocol

  datatype Env = Env(orders: nat, now: nat)

  datatype Outcome = Reply(payload: seq<byte>) | Throw(what: seq<byte>)

  datatype Handled = Handled(outcome: Outcome, orders: nat)

  type Handler = (Env, seq<byte>) -> Handled

  type Table = map<uint16, Handler>

  const ERROR: uint16 := 0xFFFF

  /** std::string and the wire hold the same eight-bit chars. */
  function Octets(s: string): (bs: seq<byte>)
    ensures |bs| == |s|
  {
    seq(|s|, i requires 0 <= i < |s| => s[i] as int % 0x100)
  }

  function Text(bs: seq<byte>): (s: string)
    ensures |s| == |bs|
  {
    seq(|bs|, i requires 0 <= i < |bs| => bs[i] as char)
  }

  predicate EightBit(s: string) {
    forall c <- s :: c as int < 0x100
  }

  lemma TextOfOctets(s: string)
    requires EightBit(s)
    ensures Text(Octets(s)) == s
  {
    forall i | 0 <= i < |s| ensures Text(Octets(s))[i] == s[i] {
      assert s[i] in s;
    }
  }

  lemma OctetsOfText(bs: seq<byte>)
    ensures Octets(Text(bs)) == bs && EightBit(Text(bs))
  {
  }

  /** The request type with its high bit set. */
  function ResponseKind(kind: uint16): uint16 {
    if kind < 0x8000 then kind + 0x8000 else kind
  }

  datatype Dispatched = Dispatched(response: Message, orders: nat)

  function Dispatch(table: Table, env: Env, request: Message): Dispatched {
    var kind := request.header.messageType;
    if kind !in table then
      Dispatched(Make(ERROR, Octets("{\"code\":404,\"message\":\"" + "Unknown message type\"}"), 0), env.orders)
    else
      var r := table[kind](env, request.payload);
      match r.outcome
      case Reply(payload) => Dispatched(Make(ResponseKind(kind), payload, 0), r.orders)
      case Throw(what) =>
        Dispatched(Make(ERROR, Octets("{\"code\":500,\"message\":\"") + what + Octets("\"}"), 0), r.orders)
  }

  ghost predicate Replied(table: Table, env: Env, request: Message) {
    var kind := request.header.messageType;
    kind in table && table[kind](env, request.payload).outcome.Reply?
  }

  /** Every response is server-to-client.  kError tells that no handler replied, except for the
      two request types whose own response type it is; any other response type tells the
      request's type up to the direction bit. */
  lemma ResponseKindTells(table: Table, env: Env, request: Message)
    ensures var kind, d := request.header.messageType, Dispatch(table, env, request).response;
            && d.header.messageType >= 0x8000
            && (d.header.messageType == ERROR <==> !Replied(table, env, request) || kind in {0x7FFF, 0xFFFF})
            && (d.header.messageType != ERROR ==> kind in {d.header.messageType, d.header.messageType - 0x8000})
  {
  }

  class ServiceRouter {
    var handlers: Table

    constructor ()
      ensures handlers == map[]
    {
      handlers := map[];
    }

    /** register_handler; false is the exception for a type that already has a handler. */
    method RegisterHandler(kind: uint16, handler: Handler) returns (ok: bool)
      modifies this
      ensures ok <==> kind !in old(handlers)
      ensures handlers == if ok then old(handlers)[kind := handler] else old(handlers)
    {
      ok := kind !in handlers;
      if ok {
        handlers := handlers[kind := handler];
      }
    }
  }
}
