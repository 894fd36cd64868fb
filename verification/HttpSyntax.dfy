/** The alphabet of the HTTP/1.x request parser: states, header matchers, the
    parser record, the callbacks it makes, and the character classes it tests. */
module HttpSyntax {
  import opened Bytes

  const ULLONG_MAX: nat := 0xFFFF_FFFF_FFFF_FFFF

  type uint64 = n: nat | n <= ULLONG_MAX

  /** Where in a URL the parser is. */
  datatype UrlState =
    | ReqSchema
    | ReqSchemaSlash
    | ReqSchemaSlashSlash
    | ReqServerStart
    | ReqServer
    | ReqServerWithAt
    | ReqPath
    | ReqQueryStringStart
    | ReqQueryString

  /** Where after the URL of a request line the parser is. */
  datatype VersionState =
    | ReqHttpStart
    | ReqHttpH
    | ReqHttpHT
    | ReqHttpHTT
    | ReqHttpHTTP
    | ReqHttpI
    | ReqHttpIC
    | ReqHttpMajor
    | ReqHttpDot
    | ReqHttpMinor
    | ReqHttpEnd
    | ReqLineAlmostDone

  /** Where in a chunked body the parser is. */
  datatype ChunkState =
    | ChunkSizeStart
    | ChunkSize
    | ChunkParameters
    | ChunkSizeAlmostDone
    | ChunkData
    | ChunkDataAlmostDone
    | ChunkDataDone

  /** The states of the parser. */
  datatype State =
    | Dead
    | StartReq
    | ReqMethod
    | ReqSpacesBeforeUrl
    | InUrl(url: UrlState)
    | InVersion(version: VersionState)
    | HeaderFieldStart
    | HeaderField
    | HeaderValueDiscardWs
    | HeaderValueDiscardWsAlmostDone
    | HeaderValueDiscardLws
    | HeaderValueStart
    | HeaderValue
    | HeaderValueLws
    | HeaderAlmostDone
    | HeadersAlmostDone
    | HeadersDone
    | InChunk(chunk: ChunkState)
    | BodyIdentity
    | BodyIdentityEof
    | MessageDone

  /** What the parser knows about the header it is reading. */
  datatype HeaderState =
    | General
    | SeenC
    | SeenCO
    | SeenCON
    | MatchingConnection
    | MatchingProxyConnection
    | MatchingContentLength
    | MatchingTransferEncoding
    | MatchingUpgrade
    | Connection
    | ContentLength
    | ContentLengthNum
    | ContentLengthWs
    | TransferEncoding
    | Upgrade
    | TransferEncodingTokenStart
    | MatchingChunked
    | TransferEncodingToken
    | MatchingKeepAlive
    | MatchingClose
    | TransferEncodingChunked
    | ConnectionKeepAlive
    | ConnectionClose

  /** `AssertFailed` stands for a run-time assertion of the parser failing. */
  datatype Errno =
    | OK
    | InvalidEofState
    | HeaderOverflow
    | ClosedConnection
    | InvalidVersion
    | InvalidMethod
    | InvalidUrl
    | LfExpected
    | InvalidHeaderToken
    | InvalidContentLength
    | UnexpectedContentLength
    | InvalidChunkSize
    | InvalidConstant
    | Strict
    | InvalidTransferEncoding
    | AssertFailed

  datatype Flags = Flags(
    chunked: bool, keepAlive: bool, close: bool, trailing: bool,
    upgrade: bool, skipBody: bool, contentLength: bool)

  const NO_FLAGS := Flags(false, false, false, false, false, false, false)

  /** The parser record. `nread` is a 32-bit unsigned integer and `index` a 5-bit field. */
  datatype Fields = Fields(
    state: State,
    headerState: HeaderState,
    flags: Flags,
    index: nat,
    usesTransferEncoding: bool,
    nread: nat,
    contentLength: uint64,
    major: nat,
    minor: nat,
    verb: nat,
    errno: Errno,
    upgrade: bool,
    lenient: bool,
    allowChunkedLength: bool)

  /** The streams of text a message is cut into. */
  datatype Kind = Url | Field | Value | Body

  /** The calls the parser makes to its owner. */
  datatype Event =
    | Data(kind: Kind, bytes: seq<byte>)
    | MessageBegin
    | OnMethod(verb: nat)
    | HeadersComplete(major: nat, minor: nat, keepAlive: bool, close: bool, upgrade: bool)
    | MessageComplete

  const MAX_HEADER_SIZE: nat := 80 * 1024

  const NUL: byte := 0
  const TAB: byte := 9
  const LF: byte := 10
  const CR: byte := 13
  const SPACE: byte := 32
  const COMMA: byte := 44
  const SLASH: byte := 47
  const ZERO: byte := 48
  const COLON: byte := 58
  const SEMICOLON: byte := 59

  /** The names the parser recognises letter by letter. */
  datatype Name =
    | ConnectionName
    | ProxyConnectionName
    | ContentLengthName
    | TransferEncodingName
    | UpgradeName
    | ChunkedName
    | KeepAliveName
    | CloseName

  function Length(n: Name): nat {
    match n
    case ConnectionName => 10
    case ProxyConnectionName => 16
    case ContentLengthName => 14
    case TransferEncodingName => 17
    case UpgradeName => 7
    case ChunkedName => 7
    case KeepAliveName => 10
    case CloseName => 5
  }

  /** Letter `i` of a name; the terminator reads as zero. */
  function Letter(n: Name, i: nat): byte {
    match n
    case ConnectionName =>  // connection
      if i == 0 then 99 else if i == 1 then 111 else if i == 2 then 110 else if i == 3 then 110 else
      if i == 4 then 101 else if i == 5 then 99 else if i == 6 then 116 else if i == 7 then 105 else
      if i == 8 then 111 else if i == 9 then 110 else 0
    case ProxyConnectionName =>  // proxy-connection
      if i == 0 then 112 else if i == 1 then 114 else if i == 2 then 111 else if i == 3 then 120 else
      if i == 4 then 121 else if i == 5 then 45 else if i == 6 then 99 else if i == 7 then 111 else
      if i == 8 then 110 else if i == 9 then 110 else if i == 10 then 101 else if i == 11 then 99 else
      if i == 12 then 116 else if i == 13 then 105 else if i == 14 then 111 else if i == 15 then 110 else 0
    case ContentLengthName =>  // content-length
      if i == 0 then 99 else if i == 1 then 111 else if i == 2 then 110 else if i == 3 then 116 else
      if i == 4 then 101 else if i == 5 then 110 else if i == 6 then 116 else if i == 7 then 45 else
      if i == 8 then 108 else if i == 9 then 101 else if i == 10 then 110 else if i == 11 then 103 else
      if i == 12 then 116 else if i == 13 then 104 else 0
    case TransferEncodingName =>  // transfer-encoding
      if i == 0 then 116 else if i == 1 then 114 else if i == 2 then 97 else if i == 3 then 110 else
      if i == 4 then 115 else if i == 5 then 102 else if i == 6 then 101 else if i == 7 then 114 else
      if i == 8 then 45 else if i == 9 then 101 else if i == 10 then 110 else if i == 11 then 99 else
      if i == 12 then 111 else if i == 13 then 100 else if i == 14 then 105 else if i == 15 then 110 else
      if i == 16 then 103 else 0
    case UpgradeName =>  // upgrade
      if i == 0 then 117 else if i == 1 then 112 else if i == 2 then 103 else if i == 3 then 114 else
      if i == 4 then 97 else if i == 5 then 100 else if i == 6 then 101 else 0
    case ChunkedName =>  // chunked
      if i == 0 then 99 else if i == 1 then 104 else if i == 2 then 117 else if i == 3 then 110 else
      if i == 4 then 107 else if i == 5 then 101 else if i == 6 then 100 else 0
    case KeepAliveName =>  // keep-alive
      if i == 0 then 107 else if i == 1 then 101 else if i == 2 then 101 else if i == 3 then 112 else
      if i == 4 then 45 else if i == 5 then 97 else if i == 6 then 108 else if i == 7 then 105 else
      if i == 8 then 118 else if i == 9 then 101 else 0
    case CloseName =>  // close
      if i == 0 then 99 else if i == 1 then 108 else if i == 2 then 111 else if i == 3 then 115 else
      if i == 4 then 101 else 0
  }

  /** `c | 0x20` */
  function Lower(c: byte): byte {
    if (c / 32) % 2 == 1 then c else c + 32
  }

  predicate IsUpper(c: byte) { 65 <= c <= 90 }

  predicate IsNum(c: byte) { 48 <= c <= 57 }

  predicate IsAlpha(c: byte) { 97 <= Lower(c) <= 122 }

  predicate IsMark(c: byte) {
    c in {45, 95, 46, 33, 126, 42, 39, 40, 41}
  }

  predicate IsUserinfoChar(c: byte) {
    IsAlpha(c) || IsNum(c) || IsMark(c) || c in {37, 59, 58, 38, 61, 43, 36, 44}
  }

  /** Any visible ASCII character but '#' and '?'. */
  predicate IsUrlChar(c: byte) { 33 <= c <= 126 && c != 35 && c != 63 }

  /** The token table: zero for a byte that is not a token character, its lower case otherwise. */
  function Token(c: byte): byte {
    if IsUpper(c) then c + 32
    else if 97 <= c <= 122 || IsNum(c) || c in {33, 35, 36, 37, 38, 39, 42, 43, 45, 46, 94, 95, 96, 124, 126} then c
    else 0
  }

  predicate IsHeaderChar(c: byte) {
    c == CR || c == LF || c == TAB || (c > 31 && c != 127)
  }

  /** The table of hexadecimal digits has 128 entries written out; the other 128 are zero. */
  function Unhex(c: byte): (d: int)
    ensures -1 <= d < 16
  {
    if IsNum(c) then c - 48
    else if 65 <= c <= 70 then c - 55
    else if 97 <= c <= 102 then c - 87
    else if c >= 128 then 0
    else -1
  }

  /** The states whose bytes count against the header size limit. */
  predicate ParsingHeader(s: State) {
    match s
    case InChunk(k) => !(k.ChunkData? || k.ChunkDataAlmostDone? || k.ChunkDataDone?)
    case BodyIdentity => false
    case BodyIdentityEof => false
    case MessageDone => false
    case _ => true
  }

  /** The stream a byte belongs to when reading it leaves the parser in state `s`. */
  function KindOf(s: State): (k: Kind)
    requires HasKind(s)
  {
    if s.HeaderField? then Field else if s.HeaderValue? then Value else Url
  }

  predicate HasKind(s: State) {
    s.HeaderField? || s.HeaderValue? || s.InUrl?
  }
}
