/** Messages of the PostgreSQL frontend/backend protocol as the proxy distinguishes them, and one end
    of a connection that carries them. */
module Wire {
  import opened CancelKeys
  import opened PooledBackend

  datatype FrontendMsg =
    | StartupMessage(parameters: map<string, string>)
    | SSLRequest
    | GSSEncRequest
    | CancelRequest(target: Key)
    | PasswordMessage(password: string)
    | SASLInitialResponse(mechanism: string, data: string)
    | SASLResponse(data: string)
    | Query(sql: string)
    | Parse(text: string)
    | Bind(text: string)
    | Describe(text: string)
    | Execute(text: string)
    | Sync
    | Terminate
    | OtherFrontend(tag: nat)

  datatype BackendMsg =
    | SslReply(byte: char)
    | AuthenticationCleartextPassword
    | AuthenticationMD5Password(salt: seq<bv8>)
    | AuthenticationSASL(mechanisms: seq<string>)
    | AuthenticationSASLContinue(data: string)
    | AuthenticationSASLFinal(data: string)
    | AuthenticationOk
    | ParameterStatus(name: string, value: string)
    | BackendKeyData(key: Key)
    | ReadyForQuery(tx: Tx)
    | ErrorResponse(code: string, message: string)
    | CommandComplete(commandTag: string)
    | OtherBackend(tag: nat)

  /** What a blocking receive comes to: a message, the peer's closing, or nothing, for ever. */
  datatype Received<+T> = Got(msg: T) | Closed | Blocked

  lemma Grouped<T>(a: seq<T>, b: seq<T>, c: seq<T>)
    ensures (a + b) + c == a + (b + c)
  {
  }

  /** The sends of one end from the `next` on: which of them succeed. */
  datatype Sender = Sender(ok: nat -> bool, next: nat)

  /** The next `n` sends succeed. */
  predicate Delivers(s: Sender, n: nat) {
    forall i :: s.next <= i < s.next + n ==> s.ok(i)
  }

  function Later(s: Sender, n: nat): Sender {
    s.(next := s.next + n)
  }

  /** One end of a connection. What the peer sends first is in `incoming` from the start; what it
      sends on having received some messages is `react` of them. Which sends fail is arbitrary. */
  class Wire<In, Out> {
    const react: seq<Out> -> seq<In>
    const closes: bool
    const sendOk: nat -> bool
    var incoming: seq<In>
    var delivered: seq<Out>
    var sends: nat
    ghost var read: seq<In>

    constructor (incoming: seq<In>, react: seq<Out> -> seq<In>, closes: bool, sendOk: nat -> bool)
      ensures this.incoming == incoming && this.react == react && this.closes == closes && this.sendOk == sendOk
      ensures delivered == [] && sends == 0 && read == []
    {
      this.incoming, this.react, this.closes, this.sendOk := incoming, react, closes, sendOk;
      delivered, sends, read := [], 0, [];
    }

    function Sending(): Sender
      reads this
    {
      Sender(sendOk, sends)
    }

    method Receive() returns (r: Received<In>)
      modifies this
      ensures delivered == old(delivered) && sends == old(sends)
      ensures old(incoming) == [] ==>
        r == (if closes then Closed else Blocked) && incoming == [] && read == old(read)
      ensures old(incoming) != [] ==>
        r == Got(old(incoming)[0]) && incoming == old(incoming)[1..] && read == old(read) + [old(incoming)[0]]
    {
      if incoming == [] {
        return if closes then Closed else Blocked;
      }
      r := Got(incoming[0]);
      read := read + [incoming[0]];
      incoming := incoming[1..];
    }

    method Send(m: Out) returns (ok: bool)
      modifies this
      ensures read == old(read) && sends == old(sends) + 1
      ensures ok == sendOk(old(sends))
      ensures ok ==> delivered == old(delivered) + [m] && incoming == old(incoming) + react(delivered)
      ensures !ok ==> delivered == old(delivered) && incoming == old(incoming)
    {
      ok := sendOk(sends);
      sends := sends + 1;
      if ok {
        delivered := delivered + [m];
        incoming := incoming + react(delivered);
      }
    }
  }

  type ClientWire = Wire<FrontendMsg, BackendMsg>
  type BackendWire = Wire<BackendMsg, FrontendMsg>
}
