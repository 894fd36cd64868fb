/** One byte of the HTTP/1.x request parser, as a function of the parser record. */
module HttpStep {
  import opened Bytes
  import opened HttpSyntax

  /** What one byte does: the new record, the callbacks in order, and whether the parser
      stops after it because the rest of the connection speaks another protocol. */
  datatype Out = Out(f: Fields, events: seq<Event>, exit: bool)

  /** The outcome of an arm that may ask for the same byte to be read again in the new state. */
  datatype Turn = Take(o: Out) | Reread(f: Fields, events: seq<Event>)

  function Go(f: Fields): Out { Out(f, [], false) }

  function Goto(f: Fields, s: State): Out { Go(f.(state := s)) }

  function Fail(f: Fields, e: Errno): Out
    requires e != OK
  {
    Go(f.(errno := e))
  }

  function Notify(f: Fields, e: Event): Out { Out(f, [e], false) }

  const METHODS: seq<string> := [
    "DELETE", "GET", "HEAD", "POST", "PUT", "CONNECT", "OPTIONS", "TRACE", "PATCH", "PURGE",
    "COPY", "LOCK", "MKCOL", "MOVE", "PROPFIND", "PROPPATCH", "SEARCH", "UNLOCK", "BIND", "REBIND",
    "UNBIND", "ACL", "REPORT", "MKACTIVITY", "CHECKOUT", "MERGE", "M-SEARCH", "NOTIFY", "SUBSCRIBE", "UNSUBSCRIBE",
    "MKCALENDAR", "LINK", "UNLINK", "SOURCE"]

  const GET: nat := 1
  const POST: nat := 3
  const PUT: nat := 4
  const CONNECT: nat := 5
  const LOCK: nat := 11
  const MKCOL: nat := 12
  const PROPFIND: nat := 14
  const UNLOCK: nat := 17
  const REPORT: nat := 22
  const SUBSCRIBE: nat := 28
  const SOURCE: nat := 33
  const NO_METHOD: nat := 34

  /** Character `i` of the name of method `m`, zero at its end. */
  function MethodChar(m: nat, i: nat): int {
    if m < |METHODS| && i < |METHODS[m]| then METHODS[m][i] as int else 0
  }

  /** The method first guessed from the first letter. */
  function FirstGuess(c: byte): nat {
    if c == 'A' as int then 21
    else if c == 'B' as int then 18
    else if c == 'C' as int then CONNECT
    else if c == 'D' as int then 0
    else if c == 'G' as int then GET
    else if c == 'H' as int then 2
    else if c == 'L' as int then LOCK
    else if c == 'M' as int then MKCOL
    else if c == 'N' as int then 27
    else if c == 'O' as int then 6
    else if c == 'P' as int then POST
    else if c == 'R' as int then REPORT
    else if c == 'S' as int then SUBSCRIBE
    else if c == 'T' as int then 7
    else if c == 'U' as int then UNLOCK
    else NO_METHOD
  }

  /** The method to switch to when letter `c` at place `i` contradicts the guess `m`. */
  function NextGuess(m: nat, i: nat, c: byte): nat {
    if m == POST && i == 1 && c == 'U' as int then PUT
    else if m == POST && i == 1 && c == 'A' as int then 8
    else if m == POST && i == 1 && c == 'R' as int then PROPFIND
    else if m == PUT && i == 2 && c == 'R' as int then 9
    else if m == CONNECT && i == 1 && c == 'H' as int then 24
    else if m == CONNECT && i == 2 && c == 'P' as int then 10
    else if m == MKCOL && i == 1 && c == 'O' as int then 13
    else if m == MKCOL && i == 1 && c == 'E' as int then 25
    else if m == MKCOL && i == 1 && c == '-' as int then 26
    else if m == MKCOL && i == 2 && c == 'A' as int then 23
    else if m == MKCOL && i == 3 && c == 'A' as int then 30
    else if m == SUBSCRIBE && i == 1 && c == 'E' as int then 16
    else if m == SUBSCRIBE && i == 1 && c == 'O' as int then SOURCE
    else if m == REPORT && i == 2 && c == 'B' as int then 19
    else if m == PROPFIND && i == 4 && c == 'P' as int then 15
    else if m == LOCK && i == 1 && c == 'I' as int then 31
    else if m == UNLOCK && i == 2 && c == 'S' as int then 29
    else if m == UNLOCK && i == 2 && c == 'B' as int then 20
    else if m == UNLOCK && i == 3 && c == 'I' as int then 32
    else NO_METHOD
  }

  /** The states of the request line and before it. */
  predicate InRequestLine(s: State) {
    s.Dead? || s.StartReq? || s.ReqMethod? || s.ReqSpacesBeforeUrl? || s.InUrl? || s.InVersion?
  }

  /** What every arm of the request line keeps to. */
  predicate InLine(o: Out) {
    && o.f.errno != AssertFailed && !o.exit
    && |o.events| <= 1 && (|o.events| == 1 ==> !o.events[0].MessageComplete?)
    && (InRequestLine(o.f.state) || o.f.state == HeaderFieldStart)
  }

  function StartByte(f: Fields, c: byte): (o: Out)
    requires InRequestLine(f.state) && f.errno == OK
    ensures InLine(o)
  {
    if c == CR || c == LF then Go(f)
    else
      var g := f.(flags := NO_FLAGS, usesTransferEncoding := false, contentLength := ULLONG_MAX);
      if !IsAlpha(c) then Fail(g, InvalidMethod)
      else
        var m := FirstGuess(c);
        if m == NO_METHOD then Fail(g.(verb := 0, index := 1), InvalidMethod)
        else Notify(g.(verb := m, index := 1, state := ReqMethod), MessageBegin)
  }

  function MethodByte(f: Fields, c: byte): (o: Out)
    requires InRequestLine(f.state) && f.errno == OK
    ensures InLine(o)
  {
    if c == NUL then Fail(f, InvalidMethod)
    else
      var next := (f.index + 1) % 32;
      if c == SPACE && MethodChar(f.verb, f.index) == 0 then
        Notify(f.(state := ReqSpacesBeforeUrl, index := next), OnMethod(f.verb))
      else if c == MethodChar(f.verb, f.index) then
        Notify(f.(index := next), OnMethod(f.verb))
      else if IsUpper(c) || c == 45 then
        var m := NextGuess(f.verb, f.index, c);
        if m == NO_METHOD then Fail(f, InvalidMethod)
        else Notify(f.(verb := m, index := next), OnMethod(m))
      else Fail(f, InvalidMethod)
  }

  /** The URL automaton; `Dead` is its error. Where the query starts is not recorded. */
  function ParseUrlChar(s: State, c: byte): (next: State)
    ensures next == Dead || next.InUrl?
  {
    if c == SPACE || c == CR || c == LF || c == TAB || c == 12 then Dead
    else match s
      case ReqSpacesBeforeUrl =>
        if c == SLASH || c == 42 then InUrl(ReqPath) else if IsAlpha(c) then InUrl(ReqSchema) else Dead
      case InUrl(u) => NextInUrl(u, c)
      case _ => Dead
  }

  function NextInUrl(u: UrlState, c: byte): (next: State)
    ensures next == Dead || next.InUrl?
  {
    match u
    case ReqSchema => if IsAlpha(c) then InUrl(u) else if c == COLON then InUrl(ReqSchemaSlash) else Dead
    case ReqSchemaSlash => if c == SLASH then InUrl(ReqSchemaSlashSlash) else Dead
    case ReqSchemaSlashSlash => if c == SLASH then InUrl(ReqServerStart) else Dead
    case ReqServerWithAt => if c == 64 then Dead else ServerChar(c)
    case ReqServerStart => ServerChar(c)
    case ReqServer => ServerChar(c)
    case ReqPath => if IsUrlChar(c) then InUrl(u) else if c == 63 then InUrl(ReqQueryStringStart) else Dead
    case ReqQueryStringStart => if IsUrlChar(c) || c == 63 then InUrl(ReqQueryString) else Dead
    case ReqQueryString => if IsUrlChar(c) || c == 63 then InUrl(u) else Dead
  }

  function ServerChar(c: byte): (next: State)
    ensures next == Dead || next.InUrl?
  {
    if c == SLASH then InUrl(ReqPath)
    else if c == 63 then InUrl(ReqQueryStringStart)
    else if c == 64 then InUrl(ReqServerWithAt)
    else if IsUserinfoChar(c) || c == 91 || c == 93 then InUrl(ReqServer)
    else Dead
  }

  function UrlByte(f: Fields, s: State, c: byte): (o: Out)
    requires f.errno == OK
    ensures InLine(o)
  {
    var next := ParseUrlChar(s, c);
    if next == Dead then Fail(f.(state := Dead), InvalidUrl) else Goto(f, next)
  }

  function ServerOrPathByte(f: Fields, c: byte): (o: Out)
    requires InRequestLine(f.state) && f.errno == OK
    ensures InLine(o)
  {
    if c == SPACE then Notify(f.(state := InVersion(ReqHttpStart)), Data(Url, []))
    else if c == CR || c == LF then
      // no version means HTTP/0.9, which only has GET
      if f.verb != GET then Fail(f.(state := Dead), InvalidVersion)
      else Notify(f.(major := 0, minor := 9, state := if c == CR then InVersion(ReqLineAlmostDone)
        else HeaderFieldStart),
                  Data(Url, []))
    else UrlByte(f, f.state, c)
  }

  function Expect(f: Fields, ok: bool, s: State): Out {
    Go(f.(state := if ok then s else f.state, errno := if ok then f.errno else Strict))
  }

  function HttpStartByte(f: Fields, c: byte): (o: Out)
    requires InRequestLine(f.state) && f.errno == OK
    ensures InLine(o)
  {
    if c == SPACE then Go(f)
    else if c == 'H' as int then Goto(f, InVersion(ReqHttpH))
    else if c == 'I' as int && f.verb == SOURCE then Goto(f, InVersion(ReqHttpI))
    else Fail(f, InvalidConstant)
  }

  function HttpEndByte(f: Fields, c: byte): (o: Out)
    requires InRequestLine(f.state) && f.errno == OK
    ensures InLine(o)
  {
    if c == CR then Goto(f, InVersion(ReqLineAlmostDone))
    else if c == LF then Goto(f, HeaderFieldStart)
    else Fail(f, InvalidVersion)
  }

  function FieldStartByte(f: Fields, c: byte): Turn {
    if c == CR then Take(Goto(f, HeadersAlmostDone))
    else if c == LF then Reread(f.(state := HeadersAlmostDone), [])
    else
      var t := Token(c);
      if t == 0 then Take(Fail(f, InvalidHeaderToken))
      else
        var h := if t == 'c' as int then SeenC
                 else if t == 'p' as int then MatchingProxyConnection
                 else if t == 't' as int then MatchingTransferEncoding
                 else if t == 'u' as int then MatchingUpgrade
                 else General;
        Take(Go(f.(index := 0, state := HeaderField, headerState := h)))
  }

  /** Compares letter `i` of `name` with `t`: the match is complete, goes on, or turns into `other`. */
  function Match(name: Name, i: nat, t: byte, going: HeaderState, found: HeaderState,
      other: HeaderState): (r: HeaderState)
    ensures r == going || r == found || r == other
  {
    if i > Length(name) || t != Letter(name, i) then other
    else if i == Length(name) - 1 then found
    else going
  }

  predicate ReadsFieldNames(h: HeaderState) {
    h.General? || h.SeenC? || h.SeenCO? || h.SeenCON? || h.MatchingConnection? || h.MatchingProxyConnection?
    || h.MatchingContentLength? || h.MatchingTransferEncoding? || h.MatchingUpgrade?
    || h.Connection? || h.ContentLength? || h.TransferEncoding? || h.Upgrade?
  }

  function FieldIndex(h: HeaderState, i: nat): nat {
    if h.General? || h.Connection? || h.ContentLength? || h.TransferEncoding? || h.Upgrade?
        || !ReadsFieldNames(h) then i
    else (i + 1) % 32
  }

  /** The recogniser of header names after token character `t` (in lower case) at index `i`. */
  function FieldState(h: HeaderState, i: nat, t: byte, c: byte): (r: HeaderState)
    ensures ReadsFieldNames(h) ==> ReadsFieldNames(r)
  {
    match h
    case SeenC => if t == 'o' as int then SeenCO else General
    case SeenCO => if t == 'n' as int then SeenCON else General
    case SeenCON =>
      if t == 'n' as int then MatchingConnection
      else if t == 't' as int then MatchingContentLength
      else General
    case MatchingConnection => Match(ConnectionName, i, t, h, Connection, General)
    case MatchingProxyConnection => Match(ProxyConnectionName, i, t, h, Connection, General)
    case MatchingContentLength => Match(ContentLengthName, i, t, h, ContentLength, General)
    case MatchingTransferEncoding => Match(TransferEncodingName, i, t, h, TransferEncoding, General)
    case MatchingUpgrade => Match(UpgradeName, i, t, h, HeaderState.Upgrade, General)
    case Connection => if c != SPACE then General else h
    case ContentLength => if c != SPACE then General else h
    case TransferEncoding => if c != SPACE then General else h
    case Upgrade => if c != SPACE then General else h
    case _ => h
  }

  /** A token character `t` (in lower case) of a header name. */
  function FieldChar(f: Fields, t: byte, c: byte): Fields {
    var i := FieldIndex(f.headerState, f.index);
    var h := FieldState(f.headerState, i, t, c);
    f.(index := i,
       headerState := h,
       usesTransferEncoding := f.usesTransferEncoding
         || (f.headerState.MatchingTransferEncoding? && h.TransferEncoding?),
       errno := if ReadsFieldNames(f.headerState) then f.errno else AssertFailed)
  }

  function FieldByte(f: Fields, c: byte): Out {
    var t := Token(c);
    if t != 0 then Go(FieldChar(f, t, c))
    else if c == COLON then Notify(f.(state := HeaderValueDiscardWs), Data(Field, []))
    else Fail(f, InvalidHeaderToken)
  }

  function DiscardWsByte(f: Fields, c: byte): Out {
    if c == SPACE || c == TAB then Go(f)
    else if c == CR then Goto(f, HeaderValueDiscardWsAlmostDone)
    else if c == LF then Goto(f, HeaderValueDiscardLws)
    else ValueStartByte(f, c)
  }

  function ValueStartByte(f: Fields, c: byte): Out {
    var g := f.(state := HeaderValue, index := 0);
    var l := Lower(c);
    match f.headerState
    case Upgrade => Go(g.(flags := g.flags.(upgrade := true), headerState := General))
    case TransferEncoding =>
      Go(g.(headerState := if l == 'c' as int then MatchingChunked else TransferEncodingToken))
    case TransferEncodingTokenStart => Go(g)
    case ContentLength =>
      if !IsNum(c) then Fail(g, InvalidContentLength)
      else if f.flags.contentLength then Fail(g, UnexpectedContentLength)
      else Go(g.(flags := g.flags.(contentLength := true), contentLength := c - 48, headerState := ContentLengthNum))
    case ContentLengthWs => Go(g)
    case Connection =>
      Go(g.(headerState := if l == 'k' as int then MatchingKeepAlive
                           else if l == 'c' as int then MatchingClose
                           else if l == SPACE || l == TAB then Connection
                           else General))
    case _ => Go(g.(headerState := General))
  }

  /** Whether `c` goes on a content length: only spaces may follow the digits, and a
      digit is refused when it might overflow 64 bits. */
  function LengthError(h: HeaderState, length: uint64, c: byte): Errno {
    if c == SPACE then OK
    else if h.ContentLengthWs? || !IsNum(c) then InvalidContentLength
    else if (ULLONG_MAX - 10) / 10 < length then InvalidContentLength
    else OK
  }

  predicate ReadsLength(h: HeaderState) { h.ContentLength? || h.ContentLengthNum? || h.ContentLengthWs? }

  function ValueError(lenient: bool, h: HeaderState, length: uint64, c: byte): Errno {
    if !lenient && !IsHeaderChar(c) then InvalidHeaderToken
    else if ReadsLength(h) then LengthError(h, length, c)
    else if h.Connection? || h.TransferEncoding? then AssertFailed
    else OK
  }

  function ValueIndex(h: HeaderState, i: nat, c: byte): nat {
    if h.MatchingChunked? || h.MatchingKeepAlive? || h.MatchingClose? then (i + 1) % 32
    else if h.TransferEncodingToken? && c == COMMA then 0
    else i
  }

  /** The recogniser of header values after `c`, whose lower case is `l`, at index `i`. */
  function ValueState(h: HeaderState, i: nat, l: byte, c: byte): (r: HeaderState)
    ensures r != TransferEncoding
  {
    match h
    case ContentLength => if c == SPACE then h else ContentLengthNum
    case ContentLengthNum => if c == SPACE then ContentLengthWs else h
    case ContentLengthWs => h
    case TransferEncodingTokenStart =>
      if l == 'c' as int then MatchingChunked
      else if Token(l) != 0 then TransferEncodingToken
      else if l == SPACE || l == TAB then h
      else General
    case MatchingChunked => Match(ChunkedName, i, l, h, TransferEncodingChunked, TransferEncodingToken)
    case TransferEncodingToken => if c == COMMA then TransferEncodingTokenStart else h
    case MatchingKeepAlive => Match(KeepAliveName, i, l, h, ConnectionKeepAlive, General)
    case MatchingClose => Match(CloseName, i, l, h, ConnectionClose, General)
    case TransferEncodingChunked => if c != SPACE then TransferEncodingToken else h
    case ConnectionKeepAlive => if c != SPACE then General else h
    case ConnectionClose => if c != SPACE then General else h
    case _ => General
  }

  /** A character of a header value that is neither CR nor LF. */
  function ValueChar(f: Fields, c: byte): Fields
    requires f.errno == OK
  {
    var e := ValueError(f.lenient, f.headerState, f.contentLength, c);
    var i := ValueIndex(f.headerState, f.index, c);
    f.(errno := e,
       index := i,
       headerState := ValueState(f.headerState, i, Lower(c), c),
       contentLength := if e == OK && ReadsLength(f.headerState) && IsNum(c) then f.contentLength * 10 + (c - 48)
                        else f.contentLength)
  }

  function ValueByte(f: Fields, c: byte): Turn
    requires f.errno == OK
  {
    if c == CR then Take(Notify(f.(state := HeaderAlmostDone), Data(Value, [])))
    else if c == LF then Reread(f.(state := HeaderAlmostDone), [Data(Value, [])])
    else Take(Go(ValueChar(f, c)))
  }

  /** The byte after a header line: white space continues the value, anything else ends it. */
  function ValueLwsByte(f: Fields, c: byte): Turn {
    if c == SPACE || c == TAB then
      Reread(f.(headerState := if f.headerState == ContentLengthNum then ContentLengthWs else f.headerState,
                state := HeaderValueStart), [])
    else
      var flags := match f.headerState
        case ConnectionKeepAlive => f.flags.(keepAlive := true)
        case ConnectionClose => f.flags.(close := true)
        case TransferEncodingChunked => f.flags.(chunked := true)
        case _ => f.flags;
      Reread(f.(flags := flags, state := HeaderFieldStart), [])
  }

  function DiscardLwsByte(f: Fields, c: byte): Turn {
    if c == SPACE || c == TAB then Take(Goto(f, HeaderValueDiscardWs))
    else Reread(f.(state := HeaderFieldStart), [Data(Value, [])])  // the value was empty
  }

  function HeadersAlmostDoneByte(f: Fields, c: byte): Turn {
    if c != LF then Take(Fail(f, Strict))
    else if f.flags.trailing then Take(Notify(f, MessageComplete))
    else if f.usesTransferEncoding && f.flags.contentLength
         && (if f.flags.chunked then !f.allowChunkedLength else !f.lenient) then
      Take(Fail(f, UnexpectedContentLength))
    else
      var g := f.(state := HeadersDone, upgrade := f.flags.upgrade || f.verb == CONNECT);
      Reread(g, [HeadersComplete(g.major, g.minor, g.flags.keepAlive, g.flags.close, g.upgrade)])
  }

  /** What kind of body follows. */
  function HeadersDoneByte(f: Fields, c: byte): Out {
    if c != LF then Fail(f, Strict)
    else
      var g := f.(nread := 0);
      if g.upgrade then Out(g, [MessageComplete], true)
      else if g.flags.skipBody then Notify(g, MessageComplete)
      else if g.flags.chunked then Goto(g, InChunk(ChunkSizeStart))
      else if g.usesTransferEncoding then
        if !g.lenient then Fail(g, InvalidTransferEncoding) else Goto(g, BodyIdentityEof)
      else if g.contentLength == 0 || g.contentLength == ULLONG_MAX then Notify(g, MessageComplete)
      else Goto(g, BodyIdentity)
  }

  /** One byte of a body with a known length. */
  function BodyByte(f: Fields, c: byte): Turn {
    if f.contentLength == 0 || f.contentLength == ULLONG_MAX then Take(Fail(f, AssertFailed))
    else
      var g := f.(contentLength := f.contentLength - 1);
      if g.contentLength == 0 then Reread(g.(state := MessageDone), [Data(Body, [c])])
      else Take(Notify(g, Data(Body, [c])))
  }

  function ChunkSizeStartByte(f: Fields, c: byte): Out {
    if f.nread != 1 || !f.flags.chunked then Fail(f, AssertFailed)
    else if Unhex(c) == -1 then Fail(f, InvalidChunkSize)
    else Go(f.(contentLength := Unhex(c), state := InChunk(ChunkSize)))
  }

  /** A hexadecimal digit of a chunk size, refused when it might overflow 64 bits. */
  function ChunkSizeByte(f: Fields, c: byte): Out {
    if !f.flags.chunked then Fail(f, AssertFailed)
    else if c == CR then Goto(f, InChunk(ChunkSizeAlmostDone))
    else if Unhex(c) == -1 then
      if c == SEMICOLON || c == SPACE then Goto(f, InChunk(ChunkParameters)) else Fail(f, InvalidChunkSize)
    else if (ULLONG_MAX - 16) / 16 < f.contentLength then Fail(f, InvalidContentLength)
    else Go(f.(contentLength := f.contentLength * 16 + Unhex(c)))
  }

  function ChunkSizeAlmostDoneByte(f: Fields, c: byte): Out {
    if !f.flags.chunked then Fail(f, AssertFailed)
    else if c != LF then Fail(f, Strict)
    else if f.contentLength == 0 then
      Goto(f.(nread := 0, flags := f.flags.(trailing := true)), HeaderFieldStart)
    else Goto(f.(nread := 0), InChunk(ChunkData))
  }

  function ChunkDataByte(f: Fields, c: byte): Out {
    if !f.flags.chunked || f.contentLength == 0 || f.contentLength == ULLONG_MAX then Fail(f, AssertFailed)
    else
      var g := f.(contentLength := f.contentLength - 1);
      Notify(if g.contentLength == 0 then g.(state := InChunk(ChunkDataAlmostDone)) else g, Data(Body, [c]))
  }

  function ChunkDataAlmostDoneByte(f: Fields, c: byte): Out {
    if !f.flags.chunked || f.contentLength != 0 then Fail(f, AssertFailed)
    else Expect(f, c == CR, InChunk(ChunkDataDone))
  }

  function ChunkDataDoneByte(f: Fields, c: byte): Out {
    if !f.flags.chunked then Fail(f, AssertFailed)
    else if c != LF then Fail(f, Strict)
    else Goto(f.(nread := 0), InChunk(ChunkSizeStart))
  }

  /** Every re-reading of a byte moves to a state of lower rank; states of rank 1 take it. */
  function Rank(s: State): nat {
    match s
    case HeaderValue => 5
    case HeaderValueLws => 5
    case HeaderValueDiscardLws => 5
    case HeaderFieldStart => 4
    case HeadersAlmostDone => 3
    case BodyIdentity => 2
    case _ => 1
  }

  predicate InHeader(s: State) {
    s.HeaderField? || s.HeaderValueDiscardWs? || s.HeaderValueDiscardWsAlmostDone? || s.HeaderValueStart?
    || s.HeaderAlmostDone? || s.HeadersDone?
  }

  /** The arms after the URL. */
  function VersionByte(f: Fields, c: byte): (o: Out)
    requires f.state.InVersion? && f.errno == OK
    ensures InLine(o)
  {
    match f.state.version
    case ReqHttpStart => HttpStartByte(f, c)
    case ReqHttpH => Expect(f, c == 'T' as int, InVersion(ReqHttpHT))
    case ReqHttpHT => Expect(f, c == 'T' as int, InVersion(ReqHttpHTT))
    case ReqHttpHTT => Expect(f, c == 'P' as int, InVersion(ReqHttpHTTP))
    case ReqHttpI => Expect(f, c == 'C' as int, InVersion(ReqHttpIC))
    case ReqHttpIC => Expect(f, c == 'E' as int, InVersion(ReqHttpHTTP))
    case ReqHttpHTTP => Expect(f, c == SLASH, InVersion(ReqHttpMajor))
    case ReqHttpMajor =>
      if IsNum(c) then Goto(f.(major := c - 48), InVersion(ReqHttpDot)) else Fail(f, InvalidVersion)
    case ReqHttpDot => if c == 46 then Goto(f, InVersion(ReqHttpMinor)) else Fail(f, InvalidVersion)
    case ReqHttpMinor =>
      if IsNum(c) then Goto(f.(minor := c - 48), InVersion(ReqHttpEnd)) else Fail(f, InvalidVersion)
    case ReqHttpEnd => HttpEndByte(f, c)
    case ReqLineAlmostDone => if c == LF then Goto(f, HeaderFieldStart) else Fail(f, LfExpected)
  }

  /** The arms up to the end of the URL. */
  function TargetByte(f: Fields, c: byte): (o: Out)
    requires InRequestLine(f.state) && !f.state.InVersion? && f.errno == OK
    ensures InLine(o)
  {
    match f.state
    case Dead => if c == CR || c == LF then Go(f) else Fail(f, ClosedConnection)
    case StartReq => StartByte(f, c)
    case ReqMethod => MethodByte(f, c)
    case ReqSpacesBeforeUrl =>
      if c == SPACE then Go(f)
      else UrlByte(f, if f.verb == CONNECT then InUrl(ReqServerStart) else ReqSpacesBeforeUrl, c)
    case InUrl(u) =>
      // no white space may follow a scheme
      if u.ReqSchema? || u.ReqSchemaSlash? || u.ReqSchemaSlashSlash? || u.ReqServerStart? then UrlByte(f, f.state, c)
      else ServerOrPathByte(f, c)
  }

  /** The arms of the request line. */
  function RequestLineByte(f: Fields, c: byte): (o: Out)
    requires InRequestLine(f.state) && f.errno == OK
    ensures InLine(o)
  {
    if f.state.InVersion? then VersionByte(f, c) else TargetByte(f, c)
  }

  /** The arms of the headers that always take the byte. */
  function HeaderByte(f: Fields, c: byte): Out
    requires InHeader(f.state)
  {
    match f.state
    case HeaderField => FieldByte(f, c)
    case HeaderValueDiscardWs => DiscardWsByte(f, c)
    case HeaderValueDiscardWsAlmostDone => Expect(f, c == LF, HeaderValueDiscardLws)
    case HeaderValueStart => ValueStartByte(f, c)
    case HeaderAlmostDone => if c == LF then Goto(f, HeaderValueLws) else Fail(f, LfExpected)
    case HeadersDone => HeadersDoneByte(f, c)
  }

  /** The arms of a chunked body. */
  function ChunkArm(f: Fields, c: byte): Out
    requires f.state.InChunk?
  {
    match f.state.chunk
    case ChunkSizeStart => ChunkSizeStartByte(f, c)
    case ChunkSize => ChunkSizeByte(f, c)
    case ChunkParameters =>
      if !f.flags.chunked then Fail(f, AssertFailed)
      else if c == CR then Goto(f, InChunk(ChunkSizeAlmostDone)) else Go(f)
    case ChunkSizeAlmostDone => ChunkSizeAlmostDoneByte(f, c)
    case ChunkData => ChunkDataByte(f, c)
    case ChunkDataAlmostDone => ChunkDataAlmostDoneByte(f, c)
    case ChunkDataDone => ChunkDataDoneByte(f, c)
  }

  /** The arms that always take the byte. */
  function Once(f: Fields, c: byte): Out
    requires Rank(f.state) == 1 && f.errno == OK
  {
    if InRequestLine(f.state) then RequestLineByte(f, c)
    else if InHeader(f.state) then HeaderByte(f, c)
    else if f.state.InChunk? then ChunkArm(f, c)
    else if f.state.BodyIdentityEof? then Notify(f, Data(Body, [c]))
    else Notify(f, MessageComplete)
  }

  /** The arms that may ask for the byte to be read again. */
  function Rereading(f: Fields, c: byte): (t: Turn)
    requires Rank(f.state) > 1 && f.errno == OK
    ensures t.Reread? ==> Rank(t.f.state) < Rank(f.state) && t.f.errno == OK
  {
    match f.state
    case HeaderFieldStart => FieldStartByte(f, c)
    case HeaderValue => ValueByte(f, c)
    case HeaderValueLws => ValueLwsByte(f, c)
    case HeaderValueDiscardLws => DiscardLwsByte(f, c)
    case HeadersAlmostDone => HeadersAlmostDoneByte(f, c)
    case BodyIdentity => BodyByte(f, c)
  }

  /** The switch over the state, repeated on the same byte as long as the arms ask for it. */
  function Dispatch(f: Fields, c: byte): Out
    requires f.errno == OK
    decreases Rank(f.state)
  {
    if Rank(f.state) == 1 then Once(f, c)
    else
      match Rereading(f, c)
      case Take(o) => o
      case Reread(g, events) =>
        var rest := Dispatch(g, c);
        Out(rest.f, events + rest.events, rest.exit)
  }

  /** Counts a byte against the header size limit. */
  function Count(f: Fields, n: nat): Fields {
    var g := f.(nread := f.nread + n);
    if g.nread > MAX_HEADER_SIZE then g.(errno := HeaderOverflow) else g
  }
}
