/** Header lines: which names and values the owner is told, and which flags they set. */
module HttpHeaderLines {
  import opened Bytes
  import opened HttpAssertions
  import opened HttpBodies
  import opened HttpHeaders
  import Marks = HttpMarks
  import opened HttpReceive
  import opened HttpRun
  import opened HttpStep
  import opened HttpSyntax
  import opened HttpView
  import opened HttpWords

  // ---- views and runs ----

  /** A run that a view stands for, with nothing logged before. */
  function RunOf(v: View): Run { Run(v.f, [], v.exit) }

  lemma FromRun(v: View, data: seq<byte>)
    ensures LookAll(v, data) == ViewOf(v.q, RunBytes(RunOf(v), data))
  {
    hide LookAll, RunBytes;
    ReceiveNone(v.q);
    LookIsRun(v.q, RunOf(v), data);
  }

  // ---- names ----

  lemma FieldOut(f: Fields, c: byte)
    requires f.errno == OK && f.state == HeaderFieldStart && Token(c) != 0
    ensures var o := Dispatch(f, c);
            o == Go(o.f) && o.f.errno == OK && o.f.state == HeaderField && ReadsFieldNames(o.f.headerState)
  {
    TokenIs(c);
    hide Token, Once;
  }

  lemma LetterSeen(v: View, c: byte)
    requires !Halted(v) && v.f.nread < MAX_HEADER_SIZE && Token(c) != 0
    requires v.f.state == HeaderFieldStart || (v.f.state == HeaderField && ReadsFieldNames(v.f.headerState))
    ensures var w := Look(v, c);
            && !Halted(w) && w.f.state == HeaderField && ReadsFieldNames(w.f.headerState)
            && w.f.nread == v.f.nread + 1 && w.q == Receive(v.q, Data(Field, [c]))
  {
    hide Look, Dispatch, Token, ReceiveAll, Receive;
    var g := v.f.(nread := v.f.nread + 1);
    if v.f.state == HeaderFieldStart { FieldOut(g, c); } else { Marks.FieldOut(g, c); }
    StartCounts(g, c);
    LookTo(v, c, Dispatch(g, c));
    ReceiveFew(v.q);
    var o := Dispatch(g, c);
    assert o.events + OwnData(o.f, c) == [Data(Field, [c])];
    hide FieldState, FieldIndex;
  }

  lemma StartCounts(f: Fields, c: byte)
    requires f.errno == OK && Token(c) != 0 && (f.state == HeaderFieldStart || f.state == HeaderField)
    ensures Dispatch(f, c).f.nread == f.nread
  {
    if f.state == HeaderField { Marks.FieldOut(f, c); } else { TokenIs(c); }
    hide Token, Once;
  }

  /** The owner is told the letters of a name. */
  lemma {:induction false} LettersSeen(v: View, name: seq<byte>)
    requires !Halted(v) && v.f.state == HeaderFieldStart && name != [] && IsTokens(name)
    requires v.f.nread + |name| <= MAX_HEADER_SIZE
    ensures var w := LookAll(v, name);
            && !Halted(w) && w.f.state == HeaderField && ReadsFieldNames(w.f.headerState)
            && w.f.nread == v.f.nread + |name| && w.q == Receive(v.q, Data(Field, name))
    decreases |name|
  {
    hide Look, Token, Receive;
    var n := |name| - 1;
    assert name == name[..n] + [name[n]];
    LookSplit(v, name[..n], [name[n]]);
    LookOne(LookAll(v, name[..n]), name[n]);
    if n == 0 {
      assert name[..0] == [] && name == [name[0]];
      LetterSeen(v, name[0]);
    } else {
      LettersSeen(v, name[..n]);
      LetterSeen(LookAll(v, name[..n]), name[n]);
      ReceiveTwice(v.q, Field, name[..n], [name[n]]);
    }
  }

  /** A name: the owner is told it, and the parser knows what it is. */
  lemma NameSeen(v: View, name: seq<byte>)
    requires !Halted(v) && v.f.state == HeaderFieldStart && name != [] && IsTokens(name)
    requires v.f.nread + |name| <= MAX_HEADER_SIZE
    ensures var w := LookAll(v, name);
            w == View(v.f.(state := HeaderField, nread := v.f.nread + |name|, index := w.f.index,
                           headerState := Known(Lowered(name)),
                           usesTransferEncoding := v.f.usesTransferEncoding || StartsTransferEncoding(name)),
                      Receive(v.q, Data(Field, name)), false)
  {
    hide Look, LookAll, RunBytes, Receive, Known, StartsTransferEncoding, Token;
    LettersSeen(v, name);
    NameRead(RunOf(v), name);
    FromRun(v, name);
  }

  lemma ColonSeen(v: View)
    requires !Halted(v) && v.f.state == HeaderField && v.f.nread < MAX_HEADER_SIZE
    ensures Look(v, COLON) == View(v.f.(state := HeaderValueDiscardWs, nread := v.f.nread + 1),
                                   Receive(v.q, Data(Field, [])), false)
  {
    var g := v.f.(nread := v.f.nread + 1);
    ColonOut(g);
    hide Look, Dispatch, ReceiveAll, Receive;
    LookTo(v, COLON, Dispatch(g, COLON));
    ReceiveFew(v.q);
    var o := Dispatch(g, COLON);
    assert o.events + OwnData(o.f, COLON) == [Data(Field, [])];
  }

  lemma ColonOut(f: Fields)
    requires f.errno == OK && f.state == HeaderField
    ensures Dispatch(f, COLON) == Notify(f.(state := HeaderValueDiscardWs), Data(Field, []))
  {
    hide RequestLineByte, ChunkArm, Rereading;
  }

  lemma {:induction false} BlanksSeen(v: View, lead: seq<byte>)
    requires !Halted(v) && v.f.state == HeaderValueDiscardWs && (forall i :: 0 <= i < |lead| ==> IsBlank(lead[i]))
    requires v.f.nread + |lead| <= MAX_HEADER_SIZE
    ensures LookAll(v, lead) == View(v.f.(nread := v.f.nread + |lead|), v.q, false)
    decreases |lead|
  {
    hide Look;
    if lead != [] {
      BlankSeen(v, lead[0]);
      BlanksSeen(Look(v, lead[0]), lead[1..]);
    }
  }

  lemma BlankSeen(v: View, c: byte)
    requires !Halted(v) && v.f.state == HeaderValueDiscardWs && IsBlank(c) && v.f.nread < MAX_HEADER_SIZE
    ensures Look(v, c) == View(v.f.(nread := v.f.nread + 1), v.q, false)
  {
    var g := v.f.(nread := v.f.nread + 1);
    BlankOut(g, c);
    hide Look, Dispatch, ReceiveAll;
    LookTo(v, c, Dispatch(g, c));
    ReceiveFew(v.q);
    assert [] + OwnData(g, c) == [];
  }

  lemma BlankOut(f: Fields, c: byte)
    requires f.errno == OK && f.state == HeaderValueDiscardWs && IsBlank(c)
    ensures Dispatch(f, c) == Go(f)
  {
    hide RequestLineByte, ChunkArm, Rereading;
  }

  // ---- values ----

  /** A header whose value means nothing to the parser. */
  predicate Ordinary(h: HeaderState) {
    ReadsFieldNames(h) && !h.Connection? && !h.ContentLength? && !h.TransferEncoding? && !h.Upgrade?
  }

  /** How far a text has come with a word. */
  datatype Progress = Off | Going | Whole

  function ProgressOf(w: seq<byte>, n: Name): Progress {
    if IsWord(w, n) then Whole else if Begins(InLower(w), n) then Going else Off
  }

  function KnownOfBoth(keepAlive: Progress, close: Progress): HeaderState {
    match keepAlive
    case Whole => ConnectionKeepAlive
    case Going => MatchingKeepAlive
    case Off => match close case Whole => ConnectionClose case Going => MatchingClose case Off => General
  }

  /** What is known of a `Connection` header after some of its value. */
  function ConnectionKnown(w: seq<byte>): HeaderState {
    KnownOfBoth(ProgressOf(w, KeepAliveName), ProgressOf(w, CloseName))
  }

  function ValueKnown(h: HeaderState, w: seq<byte>): HeaderState {
    if h.Connection? then ConnectionKnown(w) else General
  }

  lemma FirstLetters()
    ensures Letter(KeepAliveName, 0) == 'k' as int && Length(KeepAliveName) == 10
    ensures Letter(CloseName, 0) == 'c' as int && Length(CloseName) == 5
  {
  }

  lemma ShortNoWord(c: byte)
    ensures !IsWord([c], KeepAliveName) && !IsWord([c], CloseName)
  {
    FirstLetters();
    hide Spells, InLower;
  }

  lemma FirstKnown(h: HeaderState, c: byte)
    requires Ordinary(h) || h.Connection?
    requires IsValueByte(c) && !IsBlank(c)
    ensures ValueKnown(h, [c]) == if !h.Connection? then General
                                  else if Lower(c) == 'k' as int then MatchingKeepAlive
                                  else if Lower(c) == 'c' as int then MatchingClose
                                  else General
  {
    ShortNoWord(c);
    FirstLetters();
    One(c, KeepAliveName);
    One(c, CloseName);
    hide IsWord, Begins, InLower, Lower, Letter;
  }

  /** The index says how far a word was compared. */
  predicate IndexOk(h: HeaderState, i: nat, w: seq<byte>) {
    h.MatchingKeepAlive? || h.MatchingClose? ==> i + 1 == |w| <= 10
  }

  /** One more letter of a word of which `k` letters were seen. */
  function Next(p: Progress, k: nat, c: byte, n: Name): Progress {
    match p
    case Whole => if c == SPACE then Whole else Off
    case Going => if Lower(c) != Letter(n, k) then Off else if k == Length(n) - 1 then Whole else Going
    case Off => Off
  }

  lemma ProgressMore(w: seq<byte>, c: byte, n: Name)
    requires w != []
    ensures ProgressOf(w + [c], n) == Next(ProgressOf(w, n), |w|, c, n)
    ensures ProgressOf(w, n) == Going ==> |w| < Length(n)
    ensures ProgressOf(w, n) != Off ==> Lower(w[0]) == Letter(n, 0)
  {
    Longer(w, c, n);
    WordLonger(w, c, n);
    hide IsWord, Begins, InLower, Lower, Letter, Length;
  }

  lemma ConnectionMore(w: seq<byte>, c: byte, i: nat)
    requires w != [] && IsValueByte(c) && IndexOk(ConnectionKnown(w), i, w)
    ensures var h := ConnectionKnown(w);
            var j := ValueIndex(h, i, c);
            && ConnectionKnown(w + [c]) == ValueState(h, j, Lower(c), c)
            && IndexOk(ConnectionKnown(w + [c]), j, w + [c])
  {
    hide ProgressOf, Lower, Letter, Length, Next, ValueState, ValueIndex;
    FirstLetters();
    ProgressMore(w, c, KeepAliveName);
    ProgressMore(w, c, CloseName);
    var p, q := ProgressOf(w, KeepAliveName), ProgressOf(w, CloseName);
    if p == Off {
      CloseMore(q, |w|, c, i);
      OffStays(|w|, c, KeepAliveName);
    } else {
      KeepAliveMore(p, |w|, c, i);
      OffStays(|w|, c, CloseName);
    }
  }

  lemma OffStays(k: nat, c: byte, n: Name)
    ensures Next(Off, k, c, n) == Off
  {
  }

  lemma KeepAliveMore(p: Progress, k: nat, c: byte, i: nat)
    requires p != Off && (p == Going ==> i + 1 == k < 10)
    ensures var h := KnownOfBoth(p, Off);
            var j := ValueIndex(h, i, c);
            var next := KnownOfBoth(Next(p, k, c, KeepAliveName), Off);
            next == ValueState(h, j, Lower(c), c) && (next.MatchingKeepAlive? ==> j == k && k + 1 <= 10)
  {
    FirstLetters();
    hide Lower, Letter;
  }

  lemma CloseMore(q: Progress, k: nat, c: byte, i: nat)
    requires q == Going ==> i + 1 == k < 5
    ensures var h := KnownOfBoth(Off, q);
            var j := ValueIndex(h, i, c);
            var next := KnownOfBoth(Off, Next(q, k, c, CloseName));
            next == ValueState(h, j, Lower(c), c) && (next.MatchingClose? ==> j == k && k + 1 <= 10)
  {
    FirstLetters();
    hide Lower, Letter;
  }

  /** The first byte of a value. */
  lemma FirstOut(f: Fields, c: byte)
    requires f.errno == OK && f.state == HeaderValueDiscardWs && (Ordinary(f.headerState) || f.headerState.Connection?)
    requires IsValueByte(c) && !IsBlank(c)
    ensures Dispatch(f, c) == Go(f.(state := HeaderValue, index := 0, headerState := ValueKnown(f.headerState, [c])))
  {
    FirstKnown(f.headerState, c);
    NotSpace(c);
    hide Lower, ValueKnown, RequestLineByte, ChunkArm, Rereading;
  }

  lemma NotSpace(c: byte)
    requires IsValueByte(c) && !IsBlank(c)
    ensures Lower(c) != SPACE && Lower(c) != TAB && c != CR && c != LF
  {
  }

  lemma NextOut(f: Fields, c: byte)
    requires f.errno == OK && f.state == HeaderValue && IsValueByte(c)
    requires f.headerState.General? || f.headerState.MatchingKeepAlive? || f.headerState.MatchingClose?
             || f.headerState.ConnectionKeepAlive? || f.headerState.ConnectionClose?
    ensures var j := ValueIndex(f.headerState, f.index, c);
            Dispatch(f, c) == Go(f.(index := j, headerState := ValueState(f.headerState, j, Lower(c), c)))
  {
    Marks.ValueOut(f, c);
    hide Dispatch, ValueState, ValueIndex, Lower;
  }

  /** One byte of a value: the owner is told it. */
  lemma ValueByteSeen(v: View, c: byte, g: Fields)
    requires !Halted(v) && v.f.nread < MAX_HEADER_SIZE && ParsingHeader(v.f.state)
    requires g.errno == OK && g.state == HeaderValue && Dispatch(v.f.(nread := v.f.nread + 1), c) == Go(g)
    ensures Look(v, c) == View(g, Receive(v.q, Data(Value, [c])), false)
  {
    hide Look, Dispatch, ReceiveAll, Receive;
    LookTo(v, c, Go(g));
    ReceiveFew(v.q);
    assert [] + OwnData(g, c) == [Data(Value, [c])];
  }

  /** The view after a value, or a part of it. */
  ghost predicate InValue(v: View, w: View, h: HeaderState, u: seq<byte>) {
    && w == View(v.f.(state := HeaderValue, headerState := ValueKnown(h, u), index := w.f.index,
                      nread := v.f.nread + |u|),
                 Receive(v.q, Data(Value, u)), false)
    && IndexOk(ValueKnown(h, u), w.f.index, u)
  }

  lemma FirstValueByte(v: View, c: byte)
    requires !Halted(v) && v.f.state == HeaderValueDiscardWs && v.f.nread < MAX_HEADER_SIZE
    requires (Ordinary(v.f.headerState) || v.f.headerState.Connection?) && IsValueByte(c) && !IsBlank(c)
    ensures InValue(v, Look(v, c), v.f.headerState, [c])
  {
    hide Look, Dispatch, Receive;
    var g := v.f.(nread := v.f.nread + 1);
    FirstOut(g, c);
    FirstKnown(v.f.headerState, c);
    hide ValueKnown, Lower, IsValueByte;
    ValueByteSeen(v, c, g.(state := HeaderValue, index := 0, headerState := ValueKnown(v.f.headerState, [c])));
  }

  lemma NextValueByte(v: View, w: View, h: HeaderState, u: seq<byte>, c: byte)
    requires !Halted(v) && v.f.nread + |u| < MAX_HEADER_SIZE && u != [] && IsValueByte(c) && InValue(v, w, h, u)
    ensures InValue(v, Look(w, c), h, u + [c])
  {
    hide Look, Dispatch, Receive, ProgressOf, Lower, IsValueByte, ValueState, ValueIndex;
    var g := w.f.(nread := w.f.nread + 1);
    KnownKinds(h, u);
    NextOut(g, c);
    ReceiveTwice(v.q, Value, u, [c]);
    ValueMore(h, u, c, w.f.index);
    hide ValueKnown, IndexOk;
    var j := ValueIndex(w.f.headerState, w.f.index, c);
    ValueByteSeen(w, c, g.(index := j, headerState := ValueState(w.f.headerState, j, Lower(c), c)));
  }

  lemma KnownKinds(h: HeaderState, u: seq<byte>)
    ensures var k := ValueKnown(h, u);
            k.General? || k.MatchingKeepAlive? || k.MatchingClose? || k.ConnectionKeepAlive? || k.ConnectionClose?
  {
    hide ProgressOf;
  }

  lemma ValueMore(h: HeaderState, u: seq<byte>, c: byte, i: nat)
    requires u != [] && IsValueByte(c) && IndexOk(ValueKnown(h, u), i, u)
    ensures var k := ValueKnown(h, u);
            var j := ValueIndex(k, i, c);
            ValueKnown(h, u + [c]) == ValueState(k, j, Lower(c), c) && IndexOk(ValueKnown(h, u + [c]), j, u + [c])
  {
    hide ConnectionKnown, Lower;
    if h.Connection? { ConnectionMore(u, c, i); }
  }

  /** The owner is told a value, and what matters of it is known. */
  lemma {:induction false} ValueSeen(v: View, u: seq<byte>)
    requires !Halted(v) && v.f.state == HeaderValueDiscardWs && v.f.nread + |u| <= MAX_HEADER_SIZE
    requires Ordinary(v.f.headerState) || v.f.headerState.Connection?
    requires u != [] && IsValue(u) && !IsBlank(u[0])
    ensures InValue(v, LookAll(v, u), v.f.headerState, u)
    decreases |u|
  {
    hide Look, InValue, IsValueByte;
    var n := |u| - 1;
    assert u == u[..n] + [u[n]];
    LookSplit(v, u[..n], [u[n]]);
    LookOne(LookAll(v, u[..n]), u[n]);
    if n == 0 {
      assert u[..0] == [] && u == [u[0]];
      FirstValueByte(v, u[0]);
    } else {
      ValueSeen(v, u[..n]);
      NextValueByte(v, LookAll(v, u[..n]), v.f.headerState, u[..n], u[n]);
    }
  }

  /** The value of a content length. */
  lemma LengthSeen(v: View, ds: seq<byte>)
    requires !Halted(v) && v.f.state == HeaderValueDiscardWs && v.f.nread + |ds| <= MAX_HEADER_SIZE
    requires v.f.headerState == ContentLength && !v.f.flags.contentLength
    requires ds != [] && IsDecimal(ds) && DecimalValue(ds) <= MAX_LENGTH
    ensures LookAll(v, ds) == View(LengthRead(v.f, DecimalValue(ds), |ds|), Receive(v.q, Data(Value, ds)), false)
  {
    hide LookAll, RunBytes, Receive, Push, IsDecimal, DecimalValue;
    LengthDigits(RunOf(v), ds);
    FromRun(v, ds);
    ReceivePush(v.q, [], Data(Value, ds));
    ReceiveNone(v.q);
  }

  // ---- line ends ----

  /** The end of a line with a value. */
  lemma LineEndSeen(v: View)
    requires !Halted(v) && v.f.state == HeaderValue && v.f.nread + 2 <= MAX_HEADER_SIZE
    ensures LookAll(v, [CR, LF]) ==
            View(v.f.(state := HeaderValueLws, nread := v.f.nread + 2), Receive(v.q, Data(Value, [])), false)
  {
    hide Look, Dispatch, ReceiveAll, Receive;
    assert [CR, LF][1..] == [LF];
    LookOne(Look(v, CR), LF);
    var g := v.f.(nread := v.f.nread + 1);
    Marks.ValueEndOut(g, CR);
    LookTo(v, CR, Dispatch(g, CR));
    ReceiveFew(v.q);
    var o := Dispatch(g, CR);
    assert o.events + OwnData(o.f, CR) == [Data(Value, [])];
    var w := Look(v, CR);
    var k := w.f.(nread := w.f.nread + 1);
    Marks.AlmostDoneLf(k);
    LookTo(w, LF, Dispatch(k, LF));
    ReceiveFew(w.q);
    assert [] + OwnData(Dispatch(k, LF).f, LF) == [];
  }

  lemma EmptyOut(f: Fields)
    requires f.errno == OK
    ensures f.state == HeaderValueDiscardWs ==> Dispatch(f, CR) == Goto(f, HeaderValueDiscardWsAlmostDone)
    ensures f.state == HeaderValueDiscardWsAlmostDone ==> Dispatch(f, LF) == Goto(f, HeaderValueDiscardLws)
  {
    hide RequestLineByte, ChunkArm, Rereading;
  }

  /** The end of a line without a value. */
  lemma EmptySeen(v: View)
    requires !Halted(v) && v.f.state == HeaderValueDiscardWs && v.f.nread + 2 <= MAX_HEADER_SIZE
    ensures LookAll(v, [CR, LF]) == View(v.f.(state := HeaderValueDiscardLws, nread := v.f.nread + 2), v.q, false)
  {
    hide Look, Dispatch, ReceiveAll, Receive;
    assert [CR, LF][1..] == [LF];
    LookOne(Look(v, CR), LF);
    var g := v.f.(nread := v.f.nread + 1);
    EmptyOut(g);
    LookTo(v, CR, Dispatch(g, CR));
    ReceiveFew(v.q);
    assert [] + OwnData(Dispatch(g, CR).f, CR) == [];
    var w := Look(v, CR);
    var k := w.f.(nread := w.f.nread + 1);
    EmptyOut(k);
    LookTo(w, LF, Dispatch(k, LF));
    assert [] + OwnData(Dispatch(k, LF).f, LF) == [];
  }

  // ---- between lines ----

  /** A header line may begin. */
  predicate Between(v: View) {
    !Halted(v) && (v.f.state == HeaderFieldStart || v.f.state == HeaderValueLws || v.f.state == HeaderValueDiscardLws)
  }

  /** What the line before has set, once it is clear that it does not go on. */
  function LineFlags(f: Fields): Flags {
    match f.headerState
    case ConnectionKeepAlive => f.flags.(keepAlive := true)
    case ConnectionClose => f.flags.(close := true)
    case TransferEncodingChunked => f.flags.(chunked := true)
    case _ => f.flags
  }

  /** The view with the line before settled. */
  function Settled(v: View): View {
    if v.f.state == HeaderValueLws then v.(f := v.f.(flags := LineFlags(v.f), state := HeaderFieldStart))
    else if v.f.state == HeaderValueDiscardLws then
      View(v.f.(state := HeaderFieldStart), Receive(v.q, Data(Value, [])), v.exit)
    else v
  }

  lemma SettleOut(f: Fields, c: byte)
    requires f.errno == OK && (f.state == HeaderValueLws || f.state == HeaderValueDiscardLws) && !IsBlank(c)
    ensures var flags := if f.state == HeaderValueLws then LineFlags(f) else f.flags;
            var g := f.(state := HeaderFieldStart, flags := flags);
            var o := Dispatch(g, c);
            Dispatch(f, c) ==
              Out(o.f, (if f.state == HeaderValueLws then [] else [Data(Value, [])]) + o.events, o.exit)
  {
    hide Once;
    var g := f.(state := HeaderFieldStart, flags := if f.state == HeaderValueLws then LineFlags(f) else f.flags);
    assert Rereading(f, c) == Reread(g, if f.state == HeaderValueLws then [] else [Data(Value, [])]);
    hide Rereading;
  }

  lemma {:induction false} ReceiveCons(q: Owner, e: Event, es: seq<Event>)
    ensures ReceiveAll(q, [e] + es) == ReceiveAll(Receive(q, e), es)
    decreases |es|
  {
    hide Receive;
    if es == [] {
      ReceiveFew(q);
      ReceiveFew(Receive(q, e));
      assert [e] + es == [e];
    } else {
      var n := |es| - 1;
      ReceiveCons(q, e, es[..n]);
      assert ([e] + es)[..n + 1] == [e] + es[..n];
    }
  }

  /** The byte that begins the next line settles the line before. */
  lemma SettleLook(v: View, c: byte)
    requires Between(v) && v.f.nread < MAX_HEADER_SIZE && !IsBlank(c)
    ensures Look(v, c) == Look(Settled(v), c)
  {
    hide Look, Dispatch, ReceiveAll, Receive, LineFlags, IsBlank;
    if v.f.state != HeaderFieldStart {
      var s := Settled(v);
      var g := v.f.(nread := v.f.nread + 1);
      var k := s.f.(nread := s.f.nread + 1);
      SameFlags(v.f);
      SettleOut(g, c);
      var o := Dispatch(k, c);
      LookTo(v, c, Dispatch(g, c));
      LookTo(s, c, o);
      if v.f.state == HeaderValueLws {
        assert [] + o.events + OwnData(o.f, c) == o.events + OwnData(o.f, c);
      } else {
        ReceiveCons(v.q, Data(Value, []), o.events + OwnData(o.f, c));
        assert [Data(Value, [])] + o.events + OwnData(o.f, c) == [Data(Value, [])] + (o.events + OwnData(o.f, c));
      }
    }
  }

  lemma SameFlags(f: Fields)
    ensures LineFlags(f.(nread := f.nread + 1)) == LineFlags(f)
  {
  }

  // ---- whole lines ----

  datatype Header = Header(name: seq<byte>, lead: seq<byte>, value: seq<byte>)

  /** A header line: the name, a colon, blanks, the value, and the end of the line. */
  function Line(h: Header): seq<byte> { h.name + [COLON] + h.lead + h.value + [CR, LF] }

  function Recognised(h: Header): HeaderState { Known(Lowered(h.name)) }

  /** A line that is a header; transfer codings and upgrades are not among these. */
  ghost predicate IsLine(h: Header) {
    && h.name != [] && IsTokens(h.name) && !StartsTransferEncoding(h.name) && !Recognised(h).TransferEncoding?
    && !Recognised(h).Upgrade?
    && (forall i :: 0 <= i < |h.lead| ==> IsBlank(h.lead[i]))
    && IsValue(h.value) && (h.value != [] ==> !IsBlank(h.value[0]))
    && (Recognised(h).ContentLength? ==> IsDecimal(h.value) && DecimalValue(h.value) <= MAX_LENGTH)
  }

  /** What header lines set: two flags, and the length of the body, if there is one. */
  datatype Settings = Settings(keepAlive: bool, close: bool, hasLength: bool, length: uint64)

  function SettingsOf(f: Fields): Settings {
    Settings(f.flags.keepAlive, f.flags.close, f.flags.contentLength, f.contentLength)
  }

  function WithSettings(f: Fields, s: Settings): Fields {
    f.(flags := f.flags.(keepAlive := s.keepAlive, close := s.close, contentLength := s.hasLength),
       contentLength := s.length)
  }

  ghost function LengthOf(v: seq<byte>): uint64 {
    if IsDecimal(v) && DecimalValue(v) <= MAX_LENGTH then DecimalValue(v) else 0
  }

  /** What a line sets. */
  ghost function Set(s: Settings, h: Header): Settings {
    if h.value == [] then s
    else if Recognised(h).Connection? && IsWord(h.value, KeepAliveName) then s.(keepAlive := true)
    else if Recognised(h).Connection? && IsWord(h.value, CloseName) then s.(close := true)
    else if Recognised(h).ContentLength? then s.(hasLength := true, length := LengthOf(h.value))
    else s
  }

  /** The request with the header that is still being collected, if it has a value. */
  function Stored(q: Owner): Request {
    if q.headerValue != [] then AddHeader(q.req, q.headerField, q.headerValue) else q.req
  }

  /** What the owner knows after a line. */
  function Told(q: Owner, h: Header): Owner { Owner(Stored(q), false, h.name, h.value, q.complete) }

  lemma ToldName(q: Owner, h: Header)
    requires !q.naming
    ensures var n := Receive(Receive(q, Data(Field, h.name)), Data(Field, []));
            && Receive(n, Data(Value, [])) == Told(q, h.(value := []))
            && Receive(Receive(n, Data(Value, h.value)), Data(Value, [])) == Told(q, h)
  {
    assert h.name + [] == h.name && h.value + [] == h.value;
  }

  /** The view after the colon and the blanks of a line. */
  function BeforeValueOf(s: View, h: Header, i: nat): View {
    View(s.f.(state := HeaderValueDiscardWs, index := i, headerState := Recognised(h),
              nread := s.f.nread + |h.name| + 1 + |h.lead|),
         Receive(Receive(s.q, Data(Field, h.name)), Data(Field, [])), false)
  }

  lemma BeginningSeen(s: View, h: Header) returns (i: nat)
    requires !Halted(s) && s.f.state == HeaderFieldStart && IsLine(h)
    requires s.f.nread + |h.name| + 1 + |h.lead| <= MAX_HEADER_SIZE
    ensures LookAll(s, h.name + [COLON] + h.lead) == BeforeValueOf(s, h, i)
  {
    hide Look, LookAll, Receive, Known, StartsTransferEncoding, Token, IsDecimal, DecimalValue, IsValue;
    NameSeen(s, h.name);
    LookSplit(s, h.name, [COLON]);
    var w := LookAll(s, h.name);
    i := w.f.index;
    LookOne(w, COLON);
    ColonSeen(w);
    LookSplit(s, h.name + [COLON], h.lead);
    BlanksSeen(Look(w, COLON), h.lead);
  }

  /** The line before is settled, and this one has set what it sets and is told. */
  ghost predicate LineDone(s: View, t: View, h: Header) {
    t == View(Further(s.f, Set(SettingsOf(s.f), h), |Line(h)|, t.f), Told(s.q, h), false)
  }

  /** The record `n` bytes further, with these settings; the matcher is left as in `t`. */
  function Further(f: Fields, s: Settings, n: nat, t: Fields): Fields {
    WithSettings(f, s).(nread := f.nread + n, index := t.index, headerState := t.headerState)
  }

  lemma EmptyLine(s: View, h: Header, i: nat)
    requires !Halted(s) && s.f.state == HeaderFieldStart && !s.q.naming && IsLine(h) && h.value == []
    requires s.f.nread + |Line(h)| <= MAX_HEADER_SIZE
    ensures var w := LookAll(BeforeValueOf(s, h, i), h.value + [CR, LF]); Between(w) && LineDone(s, Settled(w), h)
  {
    hide LookAll, Known, StartsTransferEncoding, IsTokens, Receive;
    assert h.value + [CR, LF] == [CR, LF] && h.(value := []) == h;
    EmptySeen(BeforeValueOf(s, h, i));
    ToldName(s.q, h);
    SameSettings(s.f);
    hide WithSettings, SettingsOf;
  }

  lemma SameSettings(f: Fields)
    ensures WithSettings(f, SettingsOf(f)) == f
  {
  }

  lemma LengthLine(s: View, h: Header, i: nat)
    requires !Halted(s) && s.f.state == HeaderFieldStart && !s.q.naming && IsLine(h) && h.value != []
    requires Recognised(h).ContentLength? && !s.f.flags.contentLength && s.f.nread + |Line(h)| <= MAX_HEADER_SIZE
    ensures var w := LookAll(BeforeValueOf(s, h, i), h.value + [CR, LF]); Between(w) && LineDone(s, Settled(w), h)
  {
    hide LookAll, Receive, IsLine, Set, Known, IsDecimal, DecimalValue, LengthRead, WithSettings, SettingsOf;
    var b := BeforeValueOf(s, h, i);
    LengthIs(h);
    LookSplit(b, h.value, [CR, LF]);
    LengthSeen(b, h.value);
    var w := LookAll(b, h.value);
    LengthSets(s.f, b.f, h);
    LineEndSeen(w);
    ToldName(s.q, h);
  }

  lemma LengthIs(h: Header)
    requires IsLine(h) && Recognised(h).ContentLength?
    ensures IsDecimal(h.value) && DecimalValue(h.value) <= MAX_LENGTH && LengthOf(h.value) == DecimalValue(h.value)
  {
    hide Known, IsTokens, IsDecimal, DecimalValue, StartsTransferEncoding;
  }

  lemma LengthSets(s: Fields, b: Fields, h: Header)
    requires h.value != [] && Recognised(h).ContentLength?
    requires b == s.(state := HeaderValueDiscardWs, index := b.index, headerState := b.headerState, nread := b.nread)
    ensures var f := LengthRead(b, LengthOf(h.value), |h.value|);
            && f == b.(state := HeaderValue, headerState := ContentLengthNum, index := 0, flags := f.flags,
                       contentLength := f.contentLength, nread := b.nread + |h.value|)
            && s.(flags := f.flags, contentLength := f.contentLength) == WithSettings(s, Set(SettingsOf(s), h))
  {
    hide Known, LengthOf, IsWord;
  }

  lemma ValueLine(s: View, h: Header, i: nat)
    requires !Halted(s) && s.f.state == HeaderFieldStart && !s.q.naming && IsLine(h) && h.value != []
    requires !Recognised(h).ContentLength? && s.f.nread + |Line(h)| <= MAX_HEADER_SIZE
    ensures var w := LookAll(BeforeValueOf(s, h, i), h.value + [CR, LF]); Between(w) && LineDone(s, Settled(w), h)
  {
    hide LookAll, Receive, IsLine, Set, LineFlags, ValueKnown, Known, IndexOk, IsWord, WithSettings, SettingsOf;
    var b := BeforeValueOf(s, h, i);
    LineIs(h);
    LookSplit(b, h.value, [CR, LF]);
    ValueSeen(b, h.value);
    var w := LookAll(b, h.value);
    LineEndSeen(w);
    ToldName(s.q, h);
    SetByValue(LookAll(w, [CR, LF]).f, s.f, h);
  }

  lemma LineIs(h: Header)
    requires IsLine(h) && !Recognised(h).ContentLength?
    ensures Ordinary(Recognised(h)) || Recognised(h).Connection?
    ensures IsValue(h.value) && (h.value != [] ==> !IsBlank(h.value[0]))
  {
    hide Known, IsTokens, IsDecimal, DecimalValue, StartsTransferEncoding;
    KnownReads(Lowered(h.name));
  }

  lemma SetByValue(f: Fields, s: Fields, h: Header)
    requires h.value != [] && !Recognised(h).ContentLength? && f.flags == s.flags
    requires f.headerState == ValueKnown(Recognised(h), h.value)
    ensures s.(flags := LineFlags(f)) == WithSettings(s, Set(SettingsOf(s), h))
  {
    hide Known, LengthOf, IsWord, ValueKnown;
    KnownFlags(Recognised(h), h.value);
  }

  lemma KnownFlags(k: HeaderState, u: seq<byte>)
    requires u != []
    ensures var v := ValueKnown(k, u);
            && (v.ConnectionKeepAlive? <==> k.Connection? && IsWord(u, KeepAliveName))
            && (v.ConnectionClose? <==> k.Connection? && IsWord(u, CloseName))
            && !(IsWord(u, KeepAliveName) && IsWord(u, CloseName)) && !v.TransferEncodingChunked?
  {
    FirstLetters();
    ProgressMore(u, SPACE, KeepAliveName);
    ProgressMore(u, SPACE, CloseName);
    hide IsWord, Begins, Next, Letter, Lower;
  }

  /** A header line sets what it sets, and the owner is told its name and value. */
  lemma LineRead(v: View, h: Header)
    requires Between(v) && !Settled(v).q.naming && IsLine(h) && v.f.nread + |Line(h)| <= MAX_HEADER_SIZE
    requires Recognised(h).ContentLength? && h.value != [] ==> !Settled(v).f.flags.contentLength
    ensures var w := LookAll(v, Line(h)); Between(w) && LineDone(Settled(v), Settled(w), h)
  {
    hide Look, Known, StartsTransferEncoding, Receive, IsDecimal, DecimalValue, IsWord, LineFlags, Token;
    var s := Settled(v);
    var c := Line(h)[0];
    assert c == h.name[0] && Token(c) != 0;
    NotBlank(c);
    SettleLook(v, c);
    LookSettled(v, s, Line(h));
    var head := h.name + [COLON] + h.lead;
    assert Line(h) == head + (h.value + [CR, LF]);
    hide LookAll, Settled;
    var i := BeginningSeen(s, h);
    LookSplit(s, head, h.value + [CR, LF]);
    if h.value == [] {
      EmptyLine(s, h, i);
    } else if Recognised(h).ContentLength? {
      LengthLine(s, h, i);
    } else {
      ValueLine(s, h, i);
    }
  }

  lemma NotBlank(c: byte)
    requires Token(c) != 0
    ensures !IsBlank(c)
  {
  }

  lemma LookSettled(v: View, s: View, data: seq<byte>)
    requires data != [] && Look(v, data[0]) == Look(s, data[0])
    ensures LookAll(v, data) == LookAll(s, data)
  {
    hide Look;
  }
}
