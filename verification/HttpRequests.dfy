/** From the text of a request to the request that is handed on. */
module HttpRequests {
  import opened Bytes
  import opened HttpAssertions
  import opened HttpBodies
  import opened HttpHeaderLines
  import opened HttpHeaders
  import opened HttpParser
  import opened HttpReceive
  import opened HttpRequestLine
  import opened HttpRun
  import opened HttpStep
  import opened HttpSyntax
  import opened HttpView
  import opened HttpWords

  // ---- all header lines ----

  function Lines(hs: seq<Header>): seq<byte> { if hs == [] then [] else Line(hs[0]) + Lines(hs[1..]) }

  ghost predicate AllLines(hs: seq<Header>) { forall i :: 0 <= i < |hs| ==> IsLine(hs[i]) }

  ghost function SetAll(s: Settings, hs: seq<Header>): Settings
    decreases |hs|
  {
    if hs == [] then s else SetAll(Set(s, hs[0]), hs[1..])
  }

  function ToldAll(q: Owner, hs: seq<Header>): Owner
    decreases |hs|
  {
    if hs == [] then q else ToldAll(Told(q, hs[0]), hs[1..])
  }

  predicate HasLength(h: Header) { Recognised(h).ContentLength? && h.value != [] }

  /** A length is given at most once. */
  predicate OneLength(hs: seq<Header>) {
    forall i, j :: 0 <= i < j < |hs| ==> !(HasLength(hs[i]) && HasLength(hs[j]))
  }

  /** All lines are read: they have set what they set, and the owner is told all of them. */
  ghost predicate LinesDone(s: View, t: View, hs: seq<Header>) {
    t == View(Further(s.f, SetAll(SettingsOf(s.f), hs), |Lines(hs)|, t.f), ToldAll(s.q, hs), false)
  }

  lemma FurtherTwice(f: Fields, a: Settings, b: Settings, m: nat, n: nat, t: Fields, u: Fields)
    ensures SettingsOf(Further(f, a, m, t)) == a
    ensures Further(Further(f, a, m, t), b, n, u) == Further(f, b, m + n, u)
    ensures Further(f, SettingsOf(f), 0, f) == f
    ensures Further(f, a, m, t).nread == f.nread + m && Further(f, a, m, t).flags.contentLength == a.hasLength
  {
  }

  lemma {:induction false} LinesRead(v: View, hs: seq<Header>)
    requires Between(v) && !Settled(v).q.naming && AllLines(hs) && OneLength(hs)
    requires v.f.nread + |Lines(hs)| <= MAX_HEADER_SIZE
    requires SettingsOf(Settled(v).f).hasLength ==> forall i :: 0 <= i < |hs| ==> !HasLength(hs[i])
    ensures var w := LookAll(v, Lines(hs)); Between(w) && LinesDone(Settled(v), Settled(w), hs)
    decreases |hs|
  {
    hide IsLine, Set, HasLength, LookAll, Between, Further, Settled, SettingsOf;
    SettledIs(v);
    var s := Settled(v);
    if hs == [] {
      LookNothing(v);
      FurtherTwice(s.f, SettingsOf(s.f), SettingsOf(s.f), 0, 0, s.f, s.f);
    } else {
      var h := hs[0];
      LookSplit(v, Line(h), Lines(hs[1..]));
      HasLengthIs(h);
      LineRead(v, h);
      var w := LookAll(v, Line(h));
      var t := Settled(w);
      LengthStays(SettingsOf(s.f), h);
      SettledIs(w);
      FurtherTwice(s.f, Set(SettingsOf(s.f), h), SetAll(SettingsOf(s.f), hs), |Line(h)|, |Lines(hs[1..])|, t.f,
        Settled(LookAll(w, Lines(hs[1..]))).f);
      hide Line;
      TailOneLength(hs);
      LinesRead(w, hs[1..]);
    }
  }

  lemma LookNothing(v: View)
    ensures LookAll(v, []) == v
  {
  }

  lemma SettledIs(v: View)
    requires Between(v)
    ensures Settled(v).f.nread == v.f.nread && !Halted(v) && !v.exit && !Halted(Settled(v))
    ensures SettingsOf(Settled(v).f).hasLength == Settled(v).f.flags.contentLength
    ensures Settled(v) == View(Settled(v).f, Settled(v).q, false)
  {
    hide Receive;
  }

  lemma HasLengthIs(h: Header)
    ensures HasLength(h) <==> Recognised(h).ContentLength? && h.value != []
  {
  }

  lemma LengthStays(s: Settings, h: Header)
    ensures Set(s, h).hasLength <==> s.hasLength || HasLength(h)
  {
    hide Known, LengthOf, IsWord;
  }

  lemma TailOneLength(hs: seq<Header>)
    requires hs != [] && OneLength(hs) && AllLines(hs)
    ensures OneLength(hs[1..]) && AllLines(hs[1..])
    ensures HasLength(hs[0]) ==> forall i :: 0 <= i < |hs[1..]| ==> !HasLength(hs[1..][i])
  {
    hide HasLength, IsLine;
  }

  // ---- the list of headers ----

  /** The headers that the owner keeps: one without a value is lost, unless it is the last. */
  function Kept(hs: seq<Header>): seq<(seq<byte>, seq<byte>)> {
    if hs == [] then []
    else (if hs[0].value != [] || |hs| == 1 then [(hs[0].name, hs[0].value)] else []) + Kept(hs[1..])
  }

  /** The request once the last header is stored. */
  function Complete(q: Owner): Request {
    if q.headerField != [] then AddHeader(q.req, q.headerField, q.headerValue) else q.req
  }

  lemma {:induction false} HeadersKept(q: Owner, hs: seq<Header>)
    requires hs != [] && AllLines(hs)
    ensures var r := ToldAll(q, hs);
            && Complete(r) == q.req.(headers := Stored(q).headers + Kept(hs))
            && !r.naming && r.complete == q.complete && r.headerField != []
    decreases |hs|
  {
    assert IsLine(hs[0]);
    hide IsLine;
    NameThere(hs[0]);
    var t := Told(q, hs[0]);
    if |hs| == 1 {
      assert hs[1..] == [] && Kept(hs[1..]) == [];
      assert ToldAll(q, hs) == ToldAll(t, []) == t;
      assert Kept(hs) == [(hs[0].name, hs[0].value)] + [];
    } else {
      HeadersKept(t, hs[1..]);
      assert Stored(t).headers == Stored(q).headers + if hs[0].value != [] then [(hs[0].name, hs[0].value)] else [];
      Regroup(Stored(q).headers, if hs[0].value != [] then [(hs[0].name, hs[0].value)] else [], Kept(hs[1..]));
    }
  }

  lemma NameThere(h: Header)
    requires IsLine(h)
    ensures h.name != []
  {
  }

  lemma Regroup<T>(a: seq<T>, b: seq<T>, c: seq<T>)
    ensures a + b + c == a + (b + c)
  {
  }

  /** The headers as they are written. */
  function Pairs(hs: seq<Header>): (r: seq<(seq<byte>, seq<byte>)>)
    ensures |r| == |hs|
  {
    if hs == [] then [] else [(hs[0].name, hs[0].value)] + Pairs(hs[1..])
  }

  /** All headers are kept exactly if each but the last has a value. */
  lemma {:induction false} AllKeptIff(hs: seq<Header>)
    ensures |Kept(hs)| <= |hs|
    ensures Kept(hs) == Pairs(hs) <==> forall i :: 0 <= i < |hs| - 1 ==> hs[i].value != []
    decreases |hs|
  {
    if hs != [] {
      var rest := hs[1..];
      AllKeptIff(rest);
      assert forall i :: 0 < i < |hs| ==> hs[i] == rest[i - 1];
      if hs[0].value != [] || |hs| == 1 {
        assert Kept(hs)[1..] == Kept(rest) && Pairs(hs)[1..] == Pairs(rest);
      }
    }
  }

  // ---- the end of the headers ----

  lemma ReturnOut(f: Fields)
    requires f.errno == OK && f.state == HeaderFieldStart
    ensures Dispatch(f, CR) == Goto(f, HeadersAlmostDone)
  {
    hide Once;
  }

  /** A request whose body is not chunked and that uses no transfer coding. */
  predicate PlainBody(f: Fields) {
    !f.flags.trailing && !f.flags.chunked && !f.flags.skipBody && !f.flags.upgrade && !f.usesTransferEncoding
  }

  lemma DoneOut(f: Fields)
    requires f.errno == OK && f.state == HeadersAlmostDone && PlainBody(f)
    ensures var up := f.verb == CONNECT;
            var g := f.(upgrade := up, nread := 0);
            var told := HeadersComplete(f.major, f.minor, f.flags.keepAlive, f.flags.close, up);
            Dispatch(f, LF) ==
            if up || f.contentLength == 0 || f.contentLength == ULLONG_MAX then
              Out(g.(state := HeadersDone), [told, MessageComplete], up)
            else Notify(g.(state := BodyIdentity), told)
  {
    hide RequestLineByte, ChunkArm;
    var up := f.verb == CONNECT;
    var g := f.(state := HeadersDone, upgrade := up);
    var told := HeadersComplete(f.major, f.minor, f.flags.keepAlive, f.flags.close, up);
    assert Rereading(f, LF) == Reread(g, [told]);
    assert Dispatch(g, LF) == Once(g, LF) == HeadersDoneByte(g, LF);
    assert [told] + [MessageComplete] == [told, MessageComplete] && [told] + [] == [told];
  }

  /** The request when its headers are complete. */
  function AfterHeaders(q: Owner, f: Fields): Request {
    SetConnection(Complete(q), f.major, f.minor, f.flags.keepAlive, f.flags.close, f.verb == CONNECT)
  }

  lemma ReturnRead(v: View)
    requires Between(v) && v.f.nread < MAX_HEADER_SIZE
    ensures var s := Settled(v);
            Look(v, CR) == View(s.f.(state := HeadersAlmostDone, nread := s.f.nread + 1), s.q, false)
  {
    hide Look, Dispatch, ReceiveAll, Settled;
    SettledIs(v);
    SettledState(v);
    var s := Settled(v);
    SettleLook(v, CR);
    var g := s.f.(nread := s.f.nread + 1);
    ReturnOut(g);
    LookTo(s, CR, Dispatch(g, CR));
    ReceiveFew(s.q);
    assert [] + OwnData(Dispatch(g, CR).f, CR) == [];
  }

  predicate NoBody(f: Fields) { f.verb == CONNECT || f.contentLength == 0 || f.contentLength == ULLONG_MAX }

  lemma FeedRead(w: View)
    requires !Halted(w) && w.f.state == HeadersAlmostDone && PlainBody(w.f) && w.f.nread < MAX_HEADER_SIZE
    ensures var x := Look(w, LF);
            && x.f == w.f.(state := if NoBody(w.f) then HeadersDone else BodyIdentity, upgrade := w.f.verb == CONNECT,
                           nread := 0)
            && x.q.req == AfterHeaders(w.q, w.f) && x.q.complete == (NoBody(w.f) || w.q.complete)
            && x.exit == (w.f.verb == CONNECT)
  {
    hide Look, Dispatch, ReceiveAll, SetConnection, AddHeader;
    var k := w.f.(nread := w.f.nread + 1);
    DoneOut(k);
    LookTo(w, LF, Dispatch(k, LF));
    var o := Dispatch(k, LF);
    assert o.events + OwnData(o.f, LF) == o.events;
    ReceiveFew(w.q);
  }

  /** The empty line: the headers are complete, and without a body so is the message. */
  lemma EndRead(v: View)
    requires Between(v) && PlainBody(Settled(v).f) && v.f.nread + 2 <= MAX_HEADER_SIZE
    ensures var s := Settled(v);
            var f := s.f;
            var w := LookAll(v, [CR, LF]);
            && w.f == f.(state := if NoBody(f) then HeadersDone else BodyIdentity, upgrade := f.verb == CONNECT,
                         nread := 0)
            && w.q.req == AfterHeaders(s.q, f) && w.q.complete == (NoBody(f) || s.q.complete)
            && w.exit == (f.verb == CONNECT)
  {
    hide Look, Settled, AfterHeaders, Complete;
    SettledIs(v);
    assert [CR, LF][1..] == [LF];
    LookOne(Look(v, CR), LF);
    ReturnRead(v);
    FeedRead(Look(v, CR));
    SameAfter(Settled(v).q, Settled(v).f, Look(v, CR).f);
  }

  lemma SameAfter(q: Owner, f: Fields, g: Fields)
    requires g == f.(state := HeadersAlmostDone, nread := f.nread + 1)
    ensures AfterHeaders(q, f) == AfterHeaders(q, g)
  {
  }

  lemma SettledState(v: View)
    requires Between(v)
    ensures Settled(v).f.state == HeaderFieldStart
  {
    hide Receive;
  }

  // ---- what the headers say ----

  predicate SaysKeepAlive(h: Header) { Recognised(h).Connection? && IsWord(h.value, KeepAliveName) }

  predicate SaysClose(h: Header) { Recognised(h).Connection? && IsWord(h.value, CloseName) }

  lemma WordNotEmpty(h: Header)
    ensures SaysKeepAlive(h) || SaysClose(h) ==> h.value != []
    ensures !(SaysKeepAlive(h) && SaysClose(h))
  {
    hide Known, Spells;
    if h.value != [] { KnownFlags(Recognised(h), h.value); }
    hide IsWord;
    NoWord();
  }

  lemma NoWord()
    ensures !IsWord([], KeepAliveName) && !IsWord([], CloseName)
  {
  }

  lemma SetIs(s: Settings, h: Header)
    ensures Set(s, h) == Settings(s.keepAlive || SaysKeepAlive(h), s.close || SaysClose(h), s.hasLength || HasLength(h),
                                  if HasLength(h) then LengthOf(h.value) else s.length)
  {
    WordNotEmpty(h);
    hide Known, IsWord, LengthOf;
  }

  /** The settings after all lines, in terms of the lines. */
  lemma {:induction false} SetAllIs(s: Settings, hs: seq<Header>)
    requires OneLength(hs)
    ensures var r := SetAll(s, hs);
            && (r.keepAlive <==> s.keepAlive || exists i :: 0 <= i < |hs| && SaysKeepAlive(hs[i]))
            && (r.close <==> s.close || exists i :: 0 <= i < |hs| && SaysClose(hs[i]))
            && (forall i :: 0 <= i < |hs| && HasLength(hs[i]) ==> r.length == LengthOf(hs[i].value))
            && ((forall i :: 0 <= i < |hs| ==> !HasLength(hs[i])) ==> r.length == s.length)
    decreases |hs|
  {
    hide SaysKeepAlive, SaysClose, HasLength, LengthOf, Set;
    if hs != [] {
      var t, rest := Set(s, hs[0]), hs[1..];
      SetIs(s, hs[0]);
      assert OneLength(rest);
      SetAllIs(t, rest);
      assert forall i :: 0 <= i < |rest| ==> rest[i] == hs[i + 1];
      assert forall i :: 0 < i < |hs| ==> hs[i] == rest[i - 1];
    }
  }

  // ---- bodies ----

  /** A body of the length that was given. */
  lemma BodyRead(v: View, data: seq<byte>)
    requires !Halted(v) && v.f.state == BodyIdentity && data != [] && v.f.contentLength == |data| < ULLONG_MAX
    ensures LookAll(v, data) ==
            View(v.f.(contentLength := 0, state := MessageDone),
                 v.q.(req := v.q.req.(body := v.q.req.body + data), complete := true), false)
  {
    hide LookAll, RunBytes, Push;
    var r := RunOf(v);
    FromRun(v, data);
    IdentityBody(r, data);
    ReceiveNone(v.q);
    ReceivePush(v.q, [], Data(Body, data));
    ReceiveSnoc(v.q, Push([], Data(Body, data)), MessageComplete);
  }

  // ---- whole requests ----

  /** A request up to the end of its headers. */
  function Head(name: string, u: seq<byte>, a: byte, b: byte, hs: seq<Header>): seq<byte>
    requires Ascii(name)
  {
    RequestLine(name, u, a, b) + Lines(hs) + [CR, LF]
  }

  /** What may stand in a request. */
  ghost predicate IsHead(name: string, m: nat, u: seq<byte>, a: byte, b: byte, hs: seq<Header>) {
    && Spelled(name, m) && IsTarget(u) && 48 <= a <= 57 && 48 <= b <= 57 && AllLines(hs) && OneLength(hs)
  }

  /** The body is as long as the headers say; without a length, or to `CONNECT`, there is none. */
  ghost predicate BodyFits(m: nat, hs: seq<Header>, body: seq<byte>) {
    && (m == CONNECT ==> body == [])
    && (body != [] ==> exists i :: 0 <= i < |hs| && HasLength(hs[i]))
    && (m != CONNECT ==> forall i :: 0 <= i < |hs| && HasLength(hs[i]) ==> LengthOf(hs[i].value) == |body|)
  }

  /** The request that a text stands for. With version 1.0 the connection is kept if a header says so, with
      1.1 it is kept, and closed after the answer if a header says so. */
  ghost function Meant(m: nat, u: seq<byte>, a: byte, b: byte, hs: seq<Header>, body: seq<byte>): Request {
    var says := exists i :: 0 <= i < |hs| && SaysKeepAlive(hs[i]);
    var close := exists i :: 0 <= i < |hs| && SaysClose(hs[i]);
    var old_, new_ := a == 49 && b == 48, a == 49 && b == 49;
    Request(m, u, Kept(hs), if old_ then says else new_, if old_ then !says else new_ && close, m == CONNECT, body)
  }

  /** The view when all header lines are read. */
  lemma LinesSeen(v: View, name: string, m: nat, u: seq<byte>, a: byte, b: byte, hs: seq<Header>)
    requires !Halted(v) && v.f.state == StartReq && v.q == NEW_OWNER && IsHead(name, m, u, a, b, hs)
    requires Ascii(name) && v.f.nread + |Head(name, u, a, b, hs)| <= MAX_HEADER_SIZE
    ensures var w := LookAll(v, RequestLine(name, u, a, b) + Lines(hs));
            var t := Settled(w);
            && Between(w) && w.f.nread + 2 <= MAX_HEADER_SIZE
            && SettingsOf(t.f) == SetAll(Settings(false, false, false, ULLONG_MAX), hs) && PlainBody(t.f)
            && t.f.verb == m && t.f.major == a - 48 && t.f.minor == b - 48
            && t.q == ToldAll(NEW_OWNER.(req := NO_REQUEST.(verb := m, rawUrl := u)), hs)
  {
    hide LookAll, Settled, Spelled, IsTarget, IsLine, RequestLine, HasLength, Further;
    RequestLineRead(v, name, m, u, a, b);
    var line := RequestLine(name, u, a, b);
    var w := LookAll(v, line);
    assert [] + u == u;
    StartSettled(w);
    LookSplit(v, line, Lines(hs));
    LinesRead(w, hs);
    var x := LookAll(w, Lines(hs));
    FurtherIs(w.f, SetAll(SettingsOf(w.f), hs), |Lines(hs)|, Settled(x).f);
    SettledIs(x);
  }

  lemma StartSettled(w: View)
    requires !Halted(w) && w.f.state == HeaderFieldStart
    ensures Between(w) && Settled(w) == w
  {
  }

  lemma FurtherIs(f: Fields, s: Settings, n: nat, t: Fields)
    requires f.flags == NO_FLAGS && !f.usesTransferEncoding && t == Further(f, s, n, t)
    ensures SettingsOf(t) == s && PlainBody(t) && t.verb == f.verb && t.major == f.major && t.minor == f.minor
    ensures t.nread == f.nread + n
  {
  }

  /** The request when the headers are complete. */
  lemma HeadMeans(q: Owner, f: Fields, m: nat, u: seq<byte>, a: byte, b: byte, hs: seq<Header>)
    requires AllLines(hs) && OneLength(hs) && f.verb == m && 48 <= a <= 57 && 48 <= b <= 57
    requires f.major == a - 48 && f.minor == b - 48
    requires SettingsOf(f) == SetAll(Settings(false, false, false, ULLONG_MAX), hs)
    requires q == ToldAll(NEW_OWNER.(req := NO_REQUEST.(verb := m, rawUrl := u)), hs)
    ensures AfterHeaders(q, f) == Meant(m, u, a, b, hs, []) && !q.complete
  {
    hide SetAll, SaysKeepAlive, SaysClose, HasLength, IsLine;
    var start := NEW_OWNER.(req := NO_REQUEST.(verb := m, rawUrl := u));
    SetAllIs(Settings(false, false, false, ULLONG_MAX), hs);
    if hs == [] {
      assert ToldAll(start, hs) == start && Kept(hs) == [];
    } else {
      HeadersKept(start, hs);
      assert [] + Kept(hs) == Kept(hs);
    }
  }

  /** Reading the text of a request gives exactly the request that is written, and completes it. */
  lemma RequestRead(v: View, name: string, m: nat, u: seq<byte>, a: byte, b: byte, hs: seq<Header>, body: seq<byte>)
    requires !Halted(v) && v.f.state == StartReq && v.q == NEW_OWNER && IsHead(name, m, u, a, b, hs)
    requires Ascii(name) && v.f.nread + |Head(name, u, a, b, hs)| <= MAX_HEADER_SIZE && BodyFits(m, hs, body)
    ensures var w := LookAll(v, Head(name, u, a, b, hs) + body);
            && w.f.errno == OK && w.q.complete && w.q.req == Meant(m, u, a, b, hs, body) && w.exit == (m == CONNECT)
            && w.f.major == a - 48 && w.f.minor == b - 48
  {
    hide LookAll, Settled, IsHead, RequestLine, HasLength, LengthOf, AfterHeaders, Meant, PlainBody, SettingsOf,
         ToldAll;
    var head := RequestLine(name, u, a, b) + Lines(hs);
    LinesSeen(v, name, m, u, a, b, hs);
    var w := LookAll(v, head);
    var t := Settled(w);
    SettledIs(w);
    EndRead(w);
    LookSplit(v, head, [CR, LF]);
    LookSplit(v, head + [CR, LF], body);
    assert Head(name, u, a, b, hs) == head + [CR, LF];
    var x := LookAll(w, [CR, LF]);
    HeadIs(name, m, u, a, b, hs);
    HeadMeans(t.q, t.f, m, u, a, b, hs);
    LengthMeans(t.f, m, hs, body);
    if body == [] {
      LookNothing(x);
    } else {
      BodyRead(x, body);
      BodyMeant(m, u, a, b, hs, body);
    }
  }

  lemma HeadIs(name: string, m: nat, u: seq<byte>, a: byte, b: byte, hs: seq<Header>)
    requires IsHead(name, m, u, a, b, hs)
    ensures AllLines(hs) && OneLength(hs) && 48 <= a <= 57 && 48 <= b <= 57
  {
  }

  lemma BodyMeant(m: nat, u: seq<byte>, a: byte, b: byte, hs: seq<Header>, body: seq<byte>)
    ensures var r := Meant(m, u, a, b, hs, []); r.(body := r.body + body) == Meant(m, u, a, b, hs, body)
  {
    hide SaysKeepAlive, SaysClose, Kept;
    assert [] + body == body;
  }

  /** Which of the two ends of the headers there is. */
  lemma LengthMeans(f: Fields, m: nat, hs: seq<Header>, body: seq<byte>)
    requires OneLength(hs) && BodyFits(m, hs, body) && f.verb == m
    requires SettingsOf(f) == SetAll(Settings(false, false, false, ULLONG_MAX), hs)
    ensures NoBody(f) <==> body == []
    ensures body != [] ==> f.contentLength == |body| < ULLONG_MAX
  {
    hide SetAll, SaysKeepAlive, SaysClose, HasLength;
    SetAllIs(Settings(false, false, false, ULLONG_MAX), hs);
    forall i | 0 <= i < |hs|
      ensures LengthOf(hs[i].value) < ULLONG_MAX
    {
      LengthBound(hs[i].value);
    }
  }

  lemma LengthBound(v: seq<byte>)
    ensures LengthOf(v) < ULLONG_MAX
  {
    hide IsDecimal, DecimalValue;
  }

  /** Feeds the text of a request to a parser that is ready for one: the parser hands on the request that is
      written. */
  method TakeRequest(p: Parser, text: seq<byte>, ghost name: string, ghost m: nat, ghost u: seq<byte>, ghost a: byte,
      ghost b: byte, ghost hs: seq<Header>, ghost body: seq<byte>) returns (ok: bool)
    requires p.Valid() && p.log == [] && p.f.errno == OK && p.f.state == StartReq && |text| < 0x8000_0000
    requires Ascii(name) && IsHead(name, m, u, a, b, hs) && BodyFits(m, hs, body)
    requires p.f.nread + |Head(name, u, a, b, hs)| <= MAX_HEADER_SIZE && text == Head(name, u, a, b, hs) + body
    modifies p
    ensures p.Valid() && p.complete && p.req == Meant(m, u, a, b, hs, body) && (m != CONNECT ==> ok)
    ensures p.f.major == a - 48 && p.f.minor == b - 48
  {
    hide LookAll, RunBytes, Receive, Joined, Head, IsHead, BodyFits, Meant, ReceiveAll;
    ghost var r0 := p.Start();
    ReceiveNone(NEW_OWNER);
    NothingJoined();
    HeadNotEmpty(name, u, a, b, hs);
    LookIsRun(NEW_OWNER, r0, text);
    RequestRead(ViewOf(NEW_OWNER, r0), name, m, u, a, b, hs, body);
    ok := p.Feed(text);
    ReceiveJoined(NEW_OWNER, p.log);
  }

  lemma NothingJoined()
    ensures Joined([]) == []
  {
  }

  lemma HeadNotEmpty(name: string, u: seq<byte>, a: byte, b: byte, hs: seq<Header>)
    requires Ascii(name)
    ensures Head(name, u, a, b, hs) != []
  {
    hide RequestLine, Lines;
  }

  // ---- the texts, spelled out ----

  /** A request as it is written. */
  lemma HeadText(name: string, u: seq<byte>, a: byte, b: byte, hs: seq<Header>)
    requires Ascii(name)
    ensures Head(name, u, a, b, hs) ==
            Text(name) + Text(" ") + u + Text(" HTTP/") + [a] + Text(".") + [b] + Text("\r\n") + Lines(hs)
            + Text("\r\n")
  {
    Marks();
    hide Text, Lines;
    var front := Text(name) + [SPACE] + u;
    Regroup(front, [SPACE], Text("HTTP/"));
    Regroup(Text(name) + [SPACE], u, [SPACE]);
    assert [a, 46, b, CR, LF] == [a] + [46] + [b] + [CR, LF];
    var line := front + Text(" HTTP/");
    assert line + [a, 46, b, CR, LF] == line + [a] + [46] + [b] + [CR, LF];
  }

  /** A header line as it is written. */
  lemma LineText(hs: seq<Header>)
    requires hs != []
    ensures Lines(hs) == hs[0].name + Text(":") + hs[0].lead + hs[0].value + Text("\r\n") + Lines(hs[1..])
  {
    Marks();
    hide Text;
  }

  lemma Marks()
    ensures Text(" ") == [SPACE] && Text(":") == [COLON] && Text(".") == [46] && Text("\r\n") == [CR, LF]
    ensures Text(" HTTP/") == [SPACE] + Text("HTTP/")
  {
  }

  lemma OneName(l: seq<byte>, n: Name, s: string)
    requires Ascii(s) && |s| == Length(n) && forall i :: 0 <= i < |s| ==> s[i] as int == Letter(n, i)
    ensures Spells(l, n) <==> l == Text(s)
  {
    hide Letter, Length;
  }

  lemma ConnectionText(l: seq<byte>)
    ensures Spells(l, ConnectionName) <==> l == Text("connection")
  {
    OneName(l, ConnectionName, "connection");
  }

  lemma ProxyConnectionText(l: seq<byte>)
    ensures Spells(l, ProxyConnectionName) <==> l == Text("proxy-connection")
  {
    OneName(l, ProxyConnectionName, "proxy-connection");
  }

  lemma ContentLengthText(l: seq<byte>)
    ensures Spells(l, ContentLengthName) <==> l == Text("content-length")
  {
    OneName(l, ContentLengthName, "content-length");
  }

  lemma TransferEncodingText(l: seq<byte>)
    ensures Spells(l, TransferEncodingName) <==> l == Text("transfer-encoding")
  {
    OneName(l, TransferEncodingName, "transfer-encoding");
  }

  lemma UpgradeText(l: seq<byte>)
    ensures Spells(l, UpgradeName) <==> l == Text("upgrade")
  {
    OneName(l, UpgradeName, "upgrade");
  }

  lemma ChunkedText(l: seq<byte>)
    ensures Spells(l, ChunkedName) <==> l == Text("chunked")
  {
    OneName(l, ChunkedName, "chunked");
  }

  lemma KeepAliveText(l: seq<byte>)
    ensures Spells(l, KeepAliveName) <==> l == Text("keep-alive")
  {
    OneName(l, KeepAliveName, "keep-alive");
  }

  lemma CloseText(l: seq<byte>)
    ensures Spells(l, CloseName) <==> l == Text("close")
  {
    OneName(l, CloseName, "close");
  }

  /** The names that are recognised. */
  lemma NameTexts(l: seq<byte>)
    ensures Spells(l, ConnectionName) <==> l == Text("connection")
    ensures Spells(l, ProxyConnectionName) <==> l == Text("proxy-connection")
    ensures Spells(l, ContentLengthName) <==> l == Text("content-length")
    ensures Spells(l, TransferEncodingName) <==> l == Text("transfer-encoding")
    ensures Spells(l, UpgradeName) <==> l == Text("upgrade")
  {
    hide Spells, Text;
    ConnectionText(l);
    ProxyConnectionText(l);
    ContentLengthText(l);
    TransferEncodingText(l);
    UpgradeText(l);
  }

  /** The words that are recognised. */
  lemma WordTexts(l: seq<byte>)
    ensures Spells(l, ChunkedName) <==> l == Text("chunked")
    ensures Spells(l, KeepAliveName) <==> l == Text("keep-alive")
    ensures Spells(l, CloseName) <==> l == Text("close")
  {
    hide Spells, Text;
    ChunkedText(l);
    KeepAliveText(l);
    CloseText(l);
  }

  /** What a header is taken for: its name in lower case decides. */
  lemma RecognisedIs(h: Header)
    ensures var l := Lowered(h.name);
            && (Recognised(h).Connection? <==> l == Text("connection") || l == Text("proxy-connection"))
            && (Recognised(h).ContentLength? <==> l == Text("content-length"))
            && (Recognised(h).TransferEncoding? <==> l == Text("transfer-encoding"))
            && (Recognised(h).Upgrade? <==> l == Text("upgrade"))
  {
    NameTexts(Lowered(h.name));
    hide Begins, Text, Lowered, Spells;
  }

  /** The lower case of the characters of names. */
  lemma LowerCase(c: byte)
    ensures 'A' as int <= c <= 'Z' as int ==> Token(c) == c + 32 == Lower(c)
    ensures 'a' as int <= c <= 'z' as int || '0' as int <= c <= '9' as int ==> Token(c) == c == Lower(c)
    ensures c == '-' as int ==> Token(c) == c == Lower(c)
    ensures c == ' ' as int || c == ':' as int || c == '\r' as int || c == '\n' as int ==> Token(c) == 0
  {
  }

  /** The digits of chunk sizes and of lengths. */
  lemma DigitTexts(i: nat)
    ensures i < 10 ==> Text("0123456789")[i] - ZERO == i && IsNum(Text("0123456789")[i])
    ensures i < 16 ==> Unhex(Text("0123456789abcdef")[i]) == i && Unhex(Text("0123456789ABCDEF")[i]) == i
  {
  }
}
