/** The list of codings in a `Transfer-Encoding` header: when the parser takes the body that
    follows to be chunked, and what becomes of the request. */
module HttpCodings {
  import opened Bytes
  import opened HttpAssertions
  import opened HttpBodies
  import opened HttpHeaders
  import Marks = HttpMarks
  import opened HttpRun
  import opened HttpStep
  import opened HttpSyntax
  import opened HttpWords

  // ---- what the list says ----

  /** The value cut at its commas. */
  function Elements(v: seq<byte>): (es: seq<seq<byte>>)
    ensures es != []
  {
    if v == [] then [[]]
    else
      var n := |v| - 1;
      var es := Elements(v[..n]);
      if v[n] == COMMA then es + [[]] else es[|es| - 1 := es[|es| - 1] + [v[n]]]
  }

  /** An element without the spaces it begins with; a tab counts as a letter here. */
  function Core(e: seq<byte>): seq<byte> {
    if e != [] && e[0] == SPACE then Core(e[1..]) else e
  }

  /** The word "chunked", in any mixture of cases, and perhaps spaces after it. */
  predicate IsChunkedWord(w: seq<byte>) { IsWord(w, ChunkedName) }

  /** How an element is read. The comma after an element that begins the word "chunked", or is it, is
      swallowed, so the element after it is not looked at. An element that is empty, or begins with what
      the matcher does not take for a letter of a token, makes it give up on the header. */
  datatype Reading = Fresh | Swallowed | Lost

  /** What is known at the end of an element, or of a part of it. */
  function Word(d: Reading, e: seq<byte>, first: bool): HeaderState {
    match d
    case Lost => General
    case Swallowed => TransferEncodingToken
    case Fresh =>
      var w := Core(e);
      if w == [] then TransferEncodingTokenStart
      else if IsChunkedWord(w) then TransferEncodingChunked
      else if Begins(InLower(w), ChunkedName) then MatchingChunked
      else if !first && Token(Lower(w[0])) == 0 then General
      else TransferEncodingToken
  }

  /** How the element after this one is read. A comma that the value begins with is taken for a letter. */
  function After(d: Reading, e: seq<byte>, first: bool): Reading {
    if first && e == [] then Swallowed
    else
      match Word(d, e, first)
      case TransferEncodingChunked => Swallowed
      case MatchingChunked => Swallowed
      case TransferEncodingToken => Fresh
      case _ => Lost
  }

  /** How element `n` is read. */
  function ReadingOf(es: seq<seq<byte>>, n: nat): Reading
    requires n <= |es|
  {
    if n == 0 then Fresh else After(ReadingOf(es, n - 1), es[n - 1], n == 1)
  }

  /** The value is recognised as chunked: its last element is the word, and the elements before it let it
      be looked at. */
  predicate SaysChunked(v: seq<byte>) {
    var es := Elements(v);
    var n := |es| - 1;
    ReadingOf(es, n) == Fresh && IsChunkedWord(Core(es[n]))
  }

  // ---- reading the value ----

  /** Run `q` is `n` bytes further than `r`, in the value, with `h` known of it and nothing else changed. */
  ghost predicate InValue(r: Run, q: Run, n: nat, h: HeaderState) {
    !Stopped(q) && q.f == r.f.(state := HeaderValue, headerState := h, nread := r.f.nread + n, index := q.f.index)
  }

  /** The states of the matcher of codings. */
  predicate Coding(h: HeaderState) {
    h.General? || h.MatchingChunked? || h.TransferEncodingToken? || h.TransferEncodingTokenStart?
      || h.TransferEncodingChunked?
  }

  /** The index says how far the word was compared. */
  predicate IndexOk(h: HeaderState, i: nat, e: seq<byte>) {
    && (h.MatchingChunked? ==> i + 1 == |Core(e)|)
    && (h.TransferEncodingTokenStart? ==> i == 0)
  }

  lemma ValueByteStep(r: Run, q: Run, n: nat, h: HeaderState, c: byte)
    requires InValue(r, q, n, h) && Coding(h) && r.f.nread + n < MAX_HEADER_SIZE && IsValueByte(c)
    ensures var s := ByteStep(q, c);
            InValue(r, s, n + 1, ValueState(h, ValueIndex(h, q.f.index, c), Lower(c), c))
            && s.f.index == ValueIndex(h, q.f.index, c)
  {
    Marks.ValueStep(q, c);
    hide ByteStep, ValueState, ValueIndex;
  }

  lemma {:induction false} CoreMore(e: seq<byte>, c: byte)
    ensures Core(e + [c]) == if Core(e) == [] then (if c == SPACE then [] else [c]) else Core(e) + [c]
  {
    if e == [] {
      assert e + [c] == [c] && [c][1..] == [];
    } else if e[0] == SPACE {
      assert (e + [c])[1..] == e[1..] + [c];
      CoreMore(e[1..], c);
    }
  }

  lemma LowerIs(c: byte)
    requires IsValueByte(c)
    ensures Lower(c) == SPACE <==> c == SPACE
    ensures Lower(c) != TAB && Token('c' as int) != 0
  {
  }

  lemma FirstLetter()
    ensures Letter(ChunkedName, 0) == 'c' as int
  {
  }

  /** One more byte of an element of which some letter was seen. */
  lemma CoreStep(w: seq<byte>, c: byte, first: bool, i: nat)
    requires w != [] && w[0] != SPACE && IsValueByte(c) && c != COMMA
    requires IndexOk(Word(Fresh, w, first), i, w)
    ensures var h := Word(Fresh, w, first);
            var j := ValueIndex(h, i, c);
            && Word(Fresh, w + [c], first) == ValueState(h, j, Lower(c), c)
            && IndexOk(Word(Fresh, w + [c], first), j, w + [c])
  {
    hide IsWord, Begins, InLower, Token, Lower, Letter, IsValueByte;
    assert (w + [c])[0] == w[0];
    FirstLetter();
    LowerIs(c);
    Longer(w, c, ChunkedName);
    WordLonger(w, c, ChunkedName);
  }

  lemma {:induction false} CoreIs(e: seq<byte>)
    ensures Core(Core(e)) == Core(e) && (Core(e) != [] ==> Core(e)[0] != SPACE)
  {
    if e != [] && e[0] == SPACE { CoreIs(e[1..]); }
  }

  lemma WordOfCore(e: seq<byte>, first: bool, i: nat)
    requires Core(e) != []
    ensures Word(Fresh, e, first) == Word(Fresh, Core(e), first)
    ensures IndexOk(Word(Fresh, e, first), i, e) <==> IndexOk(Word(Fresh, e, first), i, Core(e))
  {
    CoreIs(e);
    hide Core, IsChunkedWord, Begins, InLower, Token, Lower;
  }

  /** One more byte of an element. */
  lemma WordMore(d: Reading, e: seq<byte>, c: byte, first: bool, i: nat)
    requires IsValueByte(c) && c != COMMA && IndexOk(Word(d, e, first), i, e) && (first ==> Core(e) != [])
    ensures var h := Word(d, e, first);
            var j := ValueIndex(h, i, c);
            && Coding(h)
            && Word(d, e + [c], first) == ValueState(h, j, Lower(c), c) && IndexOk(Word(d, e + [c], first), j, e + [c])
  {
    hide Core, IsChunkedWord, Begins, InLower, Token, Lower, IsValueByte;
    WordIs(d, e, first);
    WordIs(d, e + [c], first);
    if d == Fresh {
      FreshMore(e, c, first, i);
    }
    hide Word;
  }

  lemma WordIs(d: Reading, e: seq<byte>, first: bool)
    ensures Coding(Word(d, e, first))
    ensures d == Lost ==> Word(d, e, first) == General
    ensures d == Swallowed ==> Word(d, e, first) == TransferEncodingToken
  {
    hide Core, IsChunkedWord, Begins, InLower, Token, Lower;
  }

  lemma FreshMore(e: seq<byte>, c: byte, first: bool, i: nat)
    requires IsValueByte(c) && c != COMMA && IndexOk(Word(Fresh, e, first), i, e) && (first ==> Core(e) != [])
    ensures var h := Word(Fresh, e, first);
            var j := ValueIndex(h, i, c);
            && Word(Fresh, e + [c], first) == ValueState(h, j, Lower(c), c)
            && IndexOk(Word(Fresh, e + [c], first), j, e + [c])
  {
    var j := ValueIndex(Word(Fresh, e, first), i, c);
    CoreMore(e, c);
    CoreIs(e);
    hide IsChunkedWord, Begins, InLower, Token, Lower, IsValueByte, ValueState;
    if Core(e) != [] {
      hide Core, Word, IndexOk, ValueIndex;
      WordOfCore(e, first, i);
      CoreStep(Core(e), c, first, i);
      WordOfCore(e + [c], first, j);
      CoreIs(e + [c]);
      WordOfCore(Core(e) + [c], first, j);
    } else if c != SPACE {
      FirstOfCore(c, first);
      WordOfCore(e + [c], first, j);
      WordOfCore([c], first, j);
      hide Core;
    } else {
      FirstOfCore(c, first);
      hide Core;
    }
  }

  lemma FirstOfCore(c: byte, first: bool)
    requires IsValueByte(c)
    ensures c != SPACE && !first ==> Word(Fresh, [c], first) == ValueState(TransferEncodingTokenStart, 0, Lower(c), c)
    ensures c == SPACE ==> ValueState(TransferEncodingTokenStart, 0, Lower(c), c) == TransferEncodingTokenStart
  {
    LowerIs(c);
    One(c, ChunkedName);
    hide Begins, InLower, Token, Lower;
    assert c != SPACE ==> Core([c]) == [c];
  }

  /** The matcher at a comma. */
  lemma CommaState(h: HeaderState, i: nat)
    requires Coding(h) && (h.MatchingChunked? ==> i < 7)
    ensures ValueState(h, ValueIndex(h, i, COMMA), Lower(COMMA), COMMA) ==
            match h
            case TransferEncodingChunked => TransferEncodingToken
            case MatchingChunked => TransferEncodingToken
            case TransferEncodingToken => TransferEncodingTokenStart
            case _ => General
    ensures h.TransferEncodingToken? ==> ValueIndex(h, i, COMMA) == 0
  {
    assert Lower(COMMA) == COMMA;
    assert forall k :: Letter(ChunkedName, k) != COMMA;
  }

  lemma MatchingIsShort(d: Reading, e: seq<byte>, first: bool)
    ensures Word(d, e, first).MatchingChunked? ==> |Core(e)| <= 7
  {
    hide IsChunkedWord, InLower, Token, Lower, Core, Letter;
  }

  lemma NoWord(d: Reading)
    ensures Word(d, [], false) == match d case Lost => General case Swallowed => TransferEncodingToken
                                  case Fresh => TransferEncodingTokenStart
  {
    assert Core([]) == [];
    hide IsChunkedWord, Begins, InLower, Token, Lower;
  }

  /** The comma after an element. */
  lemma CommaMeans(d: Reading, e: seq<byte>, first: bool, i: nat)
    requires IndexOk(Word(d, e, first), i, e) && (first ==> e != [])
    ensures var h := Word(d, e, first);
            var j := ValueIndex(h, i, COMMA);
            var g := Word(After(d, e, first), [], false);
            Coding(h) && ValueState(h, j, Lower(COMMA), COMMA) == g && IndexOk(g, j, [])
  {
    hide Word, Core, ValueState, ValueIndex, Lower;
    MatchingIsShort(d, e, first);
    WordIs(d, e, first);
    CommaState(Word(d, e, first), i);
    NoWord(After(d, e, first));
  }

  // ---- the whole value ----

  /** The header is `Transfer-Encoding` and its value comes next. */
  ghost predicate BeforeCodings(r: Run) { BeforeValue(r) && r.f.headerState == HeaderState.TransferEncoding }

  lemma FirstByteOut(f: Fields, c: byte)
    requires f.errno == OK && f.state == HeaderValueDiscardWs && f.headerState == HeaderState.TransferEncoding
    requires !IsBlank(c) && c != CR && c != LF
    ensures Dispatch(f, c) ==
            Go(f.(state := HeaderValue, index := 0,
                  headerState := if Lower(c) == 'c' as int then MatchingChunked else TransferEncodingToken))
  {
    hide Lower, Rereading, RequestLineByte, ChunkArm, FieldByte, HeadersDoneByte;
  }

  lemma FirstByteRead(r: Run, c: byte)
    requires BeforeCodings(r) && IsValueByte(c) && !IsBlank(c) && r.f.nread < MAX_HEADER_SIZE
    ensures var q := ByteStep(r, c);
            && InValue(r, q, 1, if Lower(c) == 'c' as int then MatchingChunked else TransferEncodingToken)
            && q.f.index == 0
  {
    FirstByteOut(Counted(r.f), c);
    hide PushAll, Lower, Dispatch;
  }

  /** What is known at the end of a value. */
  function KnownOf(v: seq<byte>): HeaderState {
    var es := Elements(v);
    var n := |es| - 1;
    Word(ReadingOf(es, n), es[n], n == 0)
  }

  function LastOf(v: seq<byte>): seq<byte> { Elements(v)[|Elements(v)| - 1] }

  lemma FirstKnown(c: byte)
    requires IsValueByte(c) && !IsBlank(c)
    ensures KnownOf([c]) == if Lower(c) == 'c' as int then MatchingChunked else TransferEncodingToken
    ensures LastOf([c]) == if c == COMMA then [] else [c]
    ensures c != COMMA ==> Core([c]) == [c]
  {
    assert [c][..0] == [];
    assert Elements([]) == [[]];
    assert Elements([c]) == if c == COMMA then [[], []] else [[] + [c]];
    assert [] + [c] == [c];
    One(c, ChunkedName);
    hide Begins, InLower, Token;
  }

  lemma {:induction false} ReadingAgrees(a: seq<seq<byte>>, b: seq<seq<byte>>, k: nat)
    requires k <= |a| && k <= |b| && a[..k] == b[..k]
    ensures ReadingOf(a, k) == ReadingOf(b, k)
  {
    hide After;
    if k > 0 {
      assert a[k - 1] == a[..k][k - 1] == b[..k][k - 1] == b[k - 1];
      assert a[..k - 1] == a[..k][..k - 1] == b[..k][..k - 1] == b[..k - 1];
      ReadingAgrees(a, b, k - 1);
    }
  }

  /** What one more byte makes of the elements. */
  lemma ElementsMore(v: seq<byte>, c: byte)
    ensures var es, fs := Elements(v), Elements(v + [c]);
            var n := |es| - 1;
            if c == COMMA then
              |fs| == n + 2 && fs[n + 1] == [] && ReadingOf(fs, n + 1) == After(ReadingOf(es, n), es[n], n == 0)
            else |fs| == n + 1 && fs[n] == es[n] + [c] && ReadingOf(fs, n) == ReadingOf(es, n)
  {
    hide After;
    assert (v + [c])[..|v|] == v;
    var es, fs := Elements(v), Elements(v + [c]);
    var n := |es| - 1;
    assert fs[..n] == es[..n];
    ReadingAgrees(es, fs, n);
  }

  /** In the first element something was seen already. */
  lemma {:induction false} FirstElement(v: seq<byte>)
    requires v != [] && !IsBlank(v[0]) && |Elements(v)| == 1
    ensures Elements(v)[0] == v && Core(v) == v
    decreases |v|
  {
    var n := |v| - 1;
    assert v == v[..n] + [v[n]];
    if n == 0 {
      assert v[..0] == [] && [] + [v[0]] == v;
    } else {
      FirstElement(v[..n]);
    }
  }

  /** What is known after a value is what its last element says, read as the elements before it let it be. */
  lemma {:induction false} ValueRead(r: Run, v: seq<byte>)
    requires BeforeCodings(r) && v != [] && IsValue(v) && !IsBlank(v[0]) && r.f.nread + |v| <= MAX_HEADER_SIZE
    ensures var q := RunBytes(r, v);
            InValue(r, q, |v|, KnownOf(v)) && IndexOk(KnownOf(v), q.f.index, LastOf(v))
    decreases |v|
  {
    hide ByteStep, RunBytes, InValue, IsValueByte, IsBlank, Lower, BeforeCodings, KnownOf, Elements, IndexOk;
    var n := |v| - 1;
    RunEnd(r, v);
    if n == 0 {
      NothingRead(r);
      assert v == [v[0]];
      FirstByteRead(r, v[0]);
      FirstKnown(v[0]);
      FirstIndex(v[0], RunBytes(r, v).f.index);
    } else {
      var u, c := v[..n], v[n];
      ValueRead(r, u);
      assert v == u + [c];
      ValueMore(r, RunBytes(r, u), u, c);
    }
  }

  lemma NothingRead(r: Run)
    ensures RunBytes(r, []) == r
  {
  }

  lemma RunEnd(r: Run, v: seq<byte>)
    requires v != []
    ensures RunBytes(r, v) == ByteStep(RunBytes(r, v[..|v| - 1]), v[|v| - 1])
    ensures |v| == 1 ==> v[..|v| - 1] == []
  {
    hide ByteStep;
  }

  lemma FirstIndex(c: byte, i: nat)
    requires IsValueByte(c) && !IsBlank(c) && i == 0
    ensures IndexOk(KnownOf([c]), i, LastOf([c]))
  {
    FirstKnown(c);
    hide KnownOf, LastOf, Lower;
  }

  /** One more byte: what is known follows the matcher. */
  lemma KnownOfMore(v: seq<byte>, c: byte, i: nat)
    requires v != [] && !IsBlank(v[0]) && IsValueByte(c) && IndexOk(KnownOf(v), i, LastOf(v))
    ensures var j := ValueIndex(KnownOf(v), i, c);
            && Coding(KnownOf(v))
            && KnownOf(v + [c]) == ValueState(KnownOf(v), j, Lower(c), c)
            && IndexOk(KnownOf(v + [c]), j, LastOf(v + [c]))
  {
    var es := Elements(v);
    var n := |es| - 1;
    var d, e := ReadingOf(es, n), es[n];
    hide Elements, ReadingOf, Word, After, IndexOk, ValueState, ValueIndex, IsValueByte, Lower, Core;
    ElementsMore(v, c);
    if n == 0 { FirstElement(v); }
    if c == COMMA { CommaMeans(d, e, n == 0, i); } else { WordMore(d, e, c, n == 0, i); }
  }

  lemma ValueMore(r: Run, q: Run, v: seq<byte>, c: byte)
    requires v != [] && !IsBlank(v[0]) && IsValueByte(c) && r.f.nread + |v| < MAX_HEADER_SIZE
    requires InValue(r, q, |v|, KnownOf(v)) && IndexOk(KnownOf(v), q.f.index, LastOf(v))
    ensures var s := ByteStep(q, c);
            InValue(r, s, |v| + 1, KnownOf(v + [c])) && IndexOk(KnownOf(v + [c]), s.f.index, LastOf(v + [c]))
  {
    hide ByteStep, InValue, KnownOf, LastOf, IndexOk, ValueState, ValueIndex, IsValueByte, IsBlank, Lower, Coding;
    KnownOfMore(v, c, q.f.index);
    ValueByteStep(r, q, |v|, KnownOf(v), c);
  }

  // ---- the end of the header ----

  lemma ReturnRead(q: Run)
    requires !Stopped(q) && q.f.state == HeaderValue && q.f.nread < MAX_HEADER_SIZE
    ensures var a := ByteStep(q, CR);
            !Stopped(a) && a.f == q.f.(state := HeaderAlmostDone, nread := q.f.nread + 1)
  {
    hide PushAll, Once;
  }

  lemma LineFeedRead(q: Run)
    requires !Stopped(q) && q.f.state == HeaderAlmostDone && q.f.nread < MAX_HEADER_SIZE
    ensures var a := ByteStep(q, LF);
            !Stopped(a) && a.f == q.f.(state := HeaderValueLws, nread := q.f.nread + 1)
  {
    hide PushAll, RequestLineByte, ChunkArm, Rereading;
  }

  /** The header record once its line is over and the next line has turned out to be empty. */
  function Over(f: Fields): Fields {
    f.(state := HeadersAlmostDone,
      flags := f.flags.(chunked := f.flags.chunked || f.headerState.TransferEncodingChunked?))
  }

  lemma EndSeen(f: Fields)
    requires f.state == HeaderValueLws && f.errno == OK && Coding(f.headerState)
    ensures Dispatch(f, CR) == Go(Over(f))
  {
    hide Once;
    match Rereading(f, CR)
    case Reread(g, _) =>
      assert Rereading(g, CR) == Take(Goto(g, HeadersAlmostDone));
  }

  /** At the end of the header the flag is set if the matcher has read "chunked" to its end. */
  lemma LineEnd(q: Run)
    requires !Stopped(q) && q.f.state == HeaderValue && q.f.nread + 3 <= MAX_HEADER_SIZE && Coding(q.f.headerState)
    ensures var s := ByteStep(ByteStep(ByteStep(q, CR), LF), CR);
            !Stopped(s) && s.f == Over(q.f).(nread := q.f.nread + 3)
  {
    ReturnRead(q);
    var a := ByteStep(q, CR);
    LineFeedRead(a);
    var b := ByteStep(a, LF);
    EndSeen(Counted(b.f));
    hide PushAll, Dispatch;
  }

  lemma KnownAtEnd(v: seq<byte>)
    ensures Coding(KnownOf(v))
    ensures KnownOf(v).TransferEncodingChunked? <==> SaysChunked(v)
  {
    hide IsChunkedWord, Begins, Elements, ReadingOf, Core;
    NotEmpty();
    CoreEmpty(LastOf(v));
  }

  lemma NotEmpty()
    ensures !IsChunkedWord([])
  {
  }

  lemma CoreEmpty(e: seq<byte>)
    ensures Core(e) == [] ==> !IsChunkedWord(Core(e))
  {
  }

  /** Whether the body is taken to be chunked depends on more than the last coding, for every value on one
      line: the elements before it must not make the matcher pass over it. */
  lemma ChunkedSeen(r: Run, v: seq<byte>)
    requires BeforeCodings(r) && v != [] && IsValue(v) && !IsBlank(v[0]) && r.f.nread + |v| + 3 <= MAX_HEADER_SIZE
    ensures var s := RunBytes(r, v + [CR, LF, CR]);
            && !Stopped(s) && s.f.state == HeadersAlmostDone && s.f.nread == r.f.nread + |v| + 3
            && s.f.flags == r.f.flags.(chunked := r.f.flags.chunked || SaysChunked(v))
            && s.f.usesTransferEncoding == r.f.usesTransferEncoding && s.f.lenient == r.f.lenient
            && s.f.upgrade == r.f.upgrade && s.f.verb == r.f.verb
  {
    hide ByteStep, BeforeCodings, KnownOf, SaysChunked, IsValueByte;
    ValueRead(r, v);
    KnownAtEnd(v);
    var q := RunBytes(r, v);
    LineEnd(q);
    EndRun(r, v);
  }

  lemma EndRun(r: Run, v: seq<byte>)
    ensures RunBytes(r, v + [CR, LF, CR]) == ByteStep(ByteStep(ByteStep(RunBytes(r, v), CR), LF), CR)
  {
    hide ByteStep;
    var q := RunBytes(r, v);
    assert v + [CR, LF, CR] == v + ([CR] + ([LF] + [CR]));
    RunSplit(r, v, [CR] + ([LF] + [CR]));
    RunSplit(q, [CR], [LF] + [CR]);
    Step1(q, CR);
    RunSplit(ByteStep(q, CR), [LF], [CR]);
    Step1(ByteStep(q, CR), LF);
    Step1(ByteStep(ByteStep(q, CR), LF), CR);
  }

  lemma Step1(r: Run, c: byte)
    ensures RunBytes(r, [c]) == ByteStep(r, c)
  {
    hide ByteStep;
    RunEnd(r, [c]);
    NothingRead(r);
  }

  // ---- a request with a coded body ----

  /** A `Transfer-Encoding` header, with blanks before its value, and the end of the headers. */
  function Head(name: seq<byte>, lead: seq<byte>, v: seq<byte>): seq<byte> {
    name + [COLON] + lead + (v + [CR, LF, CR]) + [LF]
  }

  /** The headers of a request are about to be read. */
  ghost predicate BeforeHeaders(r: Run) {
    !Stopped(r) && r.f.state == HeaderFieldStart && r.f.flags == NO_FLAGS && !r.f.upgrade && r.f.verb != CONNECT
      && !r.f.lenient
  }

  /** A header for `Transfer-Encoding`, in any mixture of cases, with any value that is not blank. */
  ghost predicate IsHead(name: seq<byte>, lead: seq<byte>, v: seq<byte>) {
    && IsTokens(name) && Spells(Lowered(name), TransferEncodingName)
    && (forall i :: 0 <= i < |lead| ==> IsBlank(lead[i]))
    && v != [] && IsValue(v) && !IsBlank(v[0])
  }

  lemma ColonStep(q: Run)
    requires !Stopped(q) && q.f.state == HeaderField && q.f.nread < MAX_HEADER_SIZE
    ensures var s := ByteStep(q, COLON);
            !Stopped(s) && s.f == q.f.(state := HeaderValueDiscardWs, nread := q.f.nread + 1)
  {
    hide PushAll, RequestLineByte, ChunkArm, Rereading;
  }

  /** The line feed of the empty line: what kind of body follows. */
  lemma HeadersEnd(f: Fields)
    requires f.state == HeadersAlmostDone && f.errno == OK && f.usesTransferEncoding
    requires !f.lenient && !f.upgrade && f.verb != CONNECT
    requires f.flags == NO_FLAGS.(chunked := f.flags.chunked)
    ensures var o := Dispatch(f, LF);
            !o.exit && if f.flags.chunked then o.f == f.(state := InChunk(ChunkSizeStart), nread := 0)
                       else o.f.errno == InvalidTransferEncoding
  {
    hide RequestLineByte, ChunkArm;
    match Rereading(f, LF)
    case Reread(g, _) =>
      assert g == f.(state := HeadersDone);
      assert Dispatch(g, LF) == Once(g, LF) == HeadersDoneByte(g, LF);
  }

  lemma HeadersEndStep(r: Run)
    requires !Stopped(r) && r.f.state == HeadersAlmostDone && r.f.usesTransferEncoding && !r.f.lenient && !r.f.upgrade
    requires r.f.verb != CONNECT && r.f.nread < MAX_HEADER_SIZE && r.f.flags == NO_FLAGS.(chunked := r.f.flags.chunked)
    ensures var s := ByteStep(r, LF);
            if r.f.flags.chunked then BeforeChunk(s) else s.f.errno == InvalidTransferEncoding
  {
    hide PushAll, Dispatch;
    HeadersEnd(Counted(r.f));
  }

  /** After the headers the parser is ready for the first chunk, or has refused the request. */
  lemma HeadRead(r: Run, name: seq<byte>, lead: seq<byte>, v: seq<byte>)
    requires BeforeHeaders(r) && IsHead(name, lead, v) && r.f.nread + |Head(name, lead, v)| <= MAX_HEADER_SIZE
    ensures var s := RunBytes(r, Head(name, lead, v));
            if SaysChunked(v) then BeforeChunk(s) else s.f.errno == InvalidTransferEncoding
  {
    hide ByteStep, RunBytes, Spells, Token, SaysChunked, BeforeChunk, IsBlank, IsValueByte;
    NameKnown(name);
    NameRead(r, name);
    var a := RunBytes(r, name);
    ColonStep(a);
    Step1(a, COLON);
    RunSplit(r, name, [COLON]);
    var b := RunBytes(a, [COLON]);
    BlanksRead(b, lead);
    RunSplit(r, name + [COLON], lead);
    var c := RunBytes(b, lead);
    ChunkedSeen(c, v);
    RunSplit(r, name + [COLON] + lead, v + [CR, LF, CR]);
    var e := RunBytes(c, v + [CR, LF, CR]);
    HeadersEndStep(e);
    RunSplit(r, name + [COLON] + lead + (v + [CR, LF, CR]), [LF]);
    Step1(e, LF);
  }

  lemma NameKnown(name: seq<byte>)
    requires Spells(Lowered(name), TransferEncodingName)
    ensures |name| == 17 && StartsTransferEncoding(name) && Known(Lowered(name)) == HeaderState.TransferEncoding
  {
    hide Begins;
    assert name[..17] == name;
    Exclusive(Lowered(name), TransferEncodingName);
  }

  /** A request with a `Transfer-Encoding` header: if its value is recognised as chunked, the chunks are
      delivered joined together and the message completes, once; if not, the request is refused. */
  lemma CodedRequest(r: Run, name: seq<byte>, lead: seq<byte>, v: seq<byte>, cs: seq<Chunk>, zeros: seq<byte>)
    requires BeforeHeaders(r) && IsHead(name, lead, v) && r.f.nread + |Head(name, lead, v)| <= MAX_HEADER_SIZE
    requires forall i :: 0 <= i < |cs| ==> IsChunk(cs[i])
    requires zeros != [] && IsHex(zeros) && HexValue(zeros) == 0 && |zeros| + 2 <= MAX_HEADER_SIZE
    ensures var h := RunBytes(r, Head(name, lead, v));
            var s := RunBytes(r, Head(name, lead, v) + (EncodedAll(cs) + (zeros + CRLF + CRLF)));
            if SaysChunked(v) then
              && s.f.errno == OK && !s.exit
              && s.log == (if cs == [] then h.log else Push(h.log, Data(Body, Content(cs)))) + [MessageComplete]
            else s.f.errno == InvalidTransferEncoding
  {
    hide ByteStep, Head, SaysChunked, IsChunk, IsHex, HexValue, Push, IsHead, BeforeHeaders;
    HeadRead(r, name, lead, v);
    var h := RunBytes(r, Head(name, lead, v));
    var body := EncodedAll(cs) + (zeros + CRLF + CRLF);
    RunSplit(r, Head(name, lead, v), body);
    if SaysChunked(v) { ChunkedBody(h, cs, zeros); } else { StoppedStays(h, body); }
  }

  // ---- lists ----

  /** Elements with commas between them. */
  function Listed(es: seq<seq<byte>>): seq<byte>
    requires es != []
  {
    var n := |es| - 1;
    if n == 0 then es[0] else Listed(es[..n]) + [COMMA] + es[n]
  }

  lemma ElementsComma(v: seq<byte>)
    ensures Elements(v + [COMMA]) == Elements(v) + [[]]
  {
    assert (v + [COMMA])[..|v|] == v;
  }

  /** Cutting a list at its commas gives its elements back. */
  lemma {:induction false} ElementsListed(es: seq<seq<byte>>)
    requires es != [] && forall i :: 0 <= i < |es| ==> COMMA !in es[i]
    ensures Elements(Listed(es)) == es
    decreases |es|
  {
    hide Elements;
    var n := |es| - 1;
    if n == 0 {
      NoElement();
      OneElement([], es[0]);
      assert [] + es[0] == es[0];
    } else {
      var front := Listed(es[..n]);
      ElementsListed(es[..n]);
      ElementsComma(front);
      OneElement(front + [COMMA], es[n]);
      assert [] + es[n] == es[n];
    }
  }

  lemma NoElement()
    ensures Elements([]) == [[]]
  {
  }

  /** Bytes without a comma go on the last element. */
  lemma {:induction false} OneElement(v: seq<byte>, e: seq<byte>)
    requires COMMA !in e
    ensures var es := Elements(v);
            var n := |es| - 1;
            Elements(v + e) == es[n := es[n] + e]
    decreases |e|
  {
    var es := Elements(v);
    var n := |es| - 1;
    if e == [] {
      assert v + e == v && es[n] + e == es[n];
    } else {
      var k := |e| - 1;
      assert e[k] in e && forall c :: c in e[..k] ==> c in e;
      OneElement(v, e[..k]);
      assert (v + e)[..|v + e| - 1] == v + e[..k] && (v + e)[|v + e| - 1] == e[k];
      assert es[n] + e[..k] + [e[k]] == es[n] + e;
    }
  }

  /** An element that begins with a letter of a token and is neither the word nor a beginning of it. */
  predicate OtherCoding(e: seq<byte>) {
    var w := Core(e);
    w != [] && Token(Lower(w[0])) != 0 && !IsChunkedWord(w) && !Begins(InLower(w), ChunkedName)
  }

  /** If the elements before the last are other codings, the last one decides. */
  lemma LastDecides(es: seq<seq<byte>>)
    requires es != [] && forall i :: 0 <= i < |es| ==> COMMA !in es[i]
    requires forall i :: 0 <= i < |es| - 1 ==> OtherCoding(es[i])
    ensures SaysChunked(Listed(es)) <==> IsChunkedWord(Core(es[|es| - 1]))
  {
    hide Elements, Listed, IsChunkedWord, Core, OtherCoding, ReadingOf;
    ElementsListed(es);
    AllLookedAt(es, |es| - 1);
  }

  lemma {:induction false} AllLookedAt(es: seq<seq<byte>>, n: nat)
    requires n <= |es| && forall i :: 0 <= i < n ==> OtherCoding(es[i])
    ensures ReadingOf(es, n) == Fresh
  {
    hide IsChunkedWord, Begins, InLower, Token, Lower;
    if n > 0 {
      AllLookedAt(es, n - 1);
      assert OtherCoding(es[n - 1]);
      assert Core([]) == [];
    }
  }

  const CHUNKED: seq<byte> := [99, 104, 117, 110, 107, 101, 100]

  /** The word repeated is not recognised, with a space after the comma: the comma after the first is
      swallowed. With a third one it is recognised again. */
  lemma ChunkedTwice()
    ensures var next := [SPACE] + CHUNKED;
            && SaysChunked(Listed([CHUNKED]))
            && !SaysChunked(Listed([CHUNKED, next]))
            && SaysChunked(Listed([CHUNKED, next, next]))
  {
    var next := [SPACE] + CHUNKED;
    var two, three := [CHUNKED, next], [CHUNKED, next, next];
    hide Elements, Listed, IsChunkedWord, Core, After, CHUNKED;
    TheWord();
    ElementsListed([CHUNKED]);
    ElementsListed(two);
    ElementsListed(three);
    WordSwallows(Fresh, CHUNKED, true);
    WordSwallows(Swallowed, next, false);
    assert ReadingOf([CHUNKED], 0) == Fresh && ReadingOf(two, 0) == Fresh && ReadingOf(three, 0) == Fresh;
    assert ReadingOf(two, 1) == Swallowed && ReadingOf(three, 1) == Swallowed;
    assert ReadingOf(three, 2) == Fresh;
  }

  /** How the element after the word, and the one after an element not looked at, is read. */
  lemma WordSwallows(d: Reading, e: seq<byte>, first: bool)
    requires d != Lost && e != [] && (d == Fresh ==> IsChunkedWord(Core(e)))
    ensures After(d, e, first) == if d == Fresh then Swallowed else Fresh
  {
    hide IsChunkedWord, Begins, InLower, Core, Token, Lower;
    CoreEmpty(e);
  }

  lemma TheWord()
    ensures Core(CHUNKED) == CHUNKED && Core([SPACE] + CHUNKED) == CHUNKED && IsChunkedWord(CHUNKED)
    ensures CHUNKED != [] && COMMA !in CHUNKED && COMMA !in [SPACE] + CHUNKED
  {
    assert ([SPACE] + CHUNKED)[1..] == CHUNKED;
    assert CHUNKED[..7] == CHUNKED && CHUNKED[7..] == [];
    assert InLower(CHUNKED) == CHUNKED;
  }
}
