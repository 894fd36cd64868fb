/** What the owner of the HTTP/1.x request parser makes of its callbacks. */
module HttpReceive {
  import opened Bytes
  import opened HttpSyntax
  import opened HttpRun

  /** The request as it is handed on. */
  datatype Request = Request(
    verb: nat,
    rawUrl: seq<byte>,
    headers: seq<(seq<byte>, seq<byte>)>,
    keepAlive: bool,
    closeConnection: bool,
    upgrade: bool,
    body: seq<byte>)

  /** The request under construction. `naming` holds while a header name is being collected. */
  datatype Owner = Owner(req: Request, naming: bool, headerField: seq<byte>, headerValue: seq<byte>, complete: bool)

  const NO_REQUEST := Request(0, [], [], false, false, false, [])

  const NEW_OWNER := Owner(NO_REQUEST, false, [], [], false)

  function AddHeader(req: Request, name: seq<byte>, value: seq<byte>): Request {
    req.(headers := req.headers + [(name, value)])
  }

  function SetConnection(req: Request, major: nat, minor: nat, keepAlive: bool, close: bool, upgrade: bool): Request {
    req.(keepAlive := if major == 1 && minor == 0 then keepAlive else major == 1 && minor == 1,
         closeConnection := if major == 1 && minor == 0 then !keepAlive else major == 1 && minor == 1 && close,
         upgrade := upgrade)
  }

  function Receive(q: Owner, e: Event): Owner {
    match e
    case Data(Url, b) => q.(req := q.req.(rawUrl := q.req.rawUrl + b))
    case Data(Field, b) =>
      if q.naming then q.(headerField := q.headerField + b)
      else if q.headerValue != [] then
        // a finished header is stored by moving both strings out
        Owner(AddHeader(q.req, q.headerField, q.headerValue), true, b, [], q.complete)
      else q.(headerField := b, naming := true)
    case Data(Value, b) =>
      if q.naming then q.(headerValue := b, naming := false) else q.(headerValue := q.headerValue + b)
    case Data(Body, b) => q.(req := q.req.(body := q.req.body + b))
    case MessageBegin => q
    case OnMethod(m) => q.(req := q.req.(verb := m))
    case HeadersComplete(major, minor, keepAlive, close, upgrade) =>
      var s := if q.headerField != [] then
                 q.(req := AddHeader(q.req, q.headerField, q.headerValue), headerField := [], headerValue := [])
               else q;
      s.(req := SetConnection(s.req, major, minor, keepAlive, close, upgrade))
    case MessageComplete => q.(complete := true)
  }

  function ReceiveAll(q: Owner, log: seq<Event>): Owner {
    if |log| == 0 then q else Receive(ReceiveAll(q, log[..|log| - 1]), log[|log| - 1])
  }

  lemma ReceiveNone(q: Owner)
    ensures ReceiveAll(q, []) == q
  {
  }

  lemma ReceiveSnoc(q: Owner, log: seq<Event>, e: Event)
    ensures ReceiveAll(q, log + [e]) == Receive(ReceiveAll(q, log), e)
  {
    hide Receive;
    assert (log + [e])[..|log|] == log;
  }

  /** The owner cannot tell one data callback from two that carry the same text. */
  lemma ReceiveTwice(q: Owner, k: Kind, x: seq<byte>, y: seq<byte>)
    ensures Receive(Receive(q, Data(k, x)), Data(k, y)) == Receive(q, Data(k, x + y))
  {
    match k
    case Url => assert q.req.rawUrl + x + y == q.req.rawUrl + (x + y);
    case Body => assert q.req.body + x + y == q.req.body + (x + y);
    case Field => assert q.headerField + x + y == q.headerField + (x + y);
    case Value => assert q.headerValue + x + y == q.headerValue + (x + y);
  }

  lemma ReceivePush(q: Owner, log: seq<Event>, e: Event)
    ensures ReceiveAll(q, Push(log, e)) == Receive(ReceiveAll(q, log), e)
  {
    var n := |log| - 1;
    if e.Data? && |log| > 0 && log[n].Data? && log[n].kind == e.kind {
      assert Push(log, e)[..n] == log[..n];
      ReceiveTwice(ReceiveAll(q, log[..n]), e.kind, log[n].bytes, e.bytes);
    } else {
      assert Push(log, e)[..|log|] == log;
    }
  }

  /** However the callbacks were cut, the owner ends up with the same request. */
  lemma {:induction false} ReceiveJoined(q: Owner, log: seq<Event>)
    ensures ReceiveAll(q, Joined(log)) == ReceiveAll(q, log)
    decreases |log|
  {
    if |log| > 0 {
      var n := |log| - 1;
      ReceiveJoined(q, log[..n]);
      ReceivePush(q, Joined(log[..n]), log[n]);
      assert log == log[..n] + [log[n]];
      JoinedSnoc(log[..n], log[n]);
    }
  }
}
