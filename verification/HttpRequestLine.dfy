/** The request line: which method, target and version a text stands for. */
module HttpRequestLine {
  import opened Bytes
  import opened HttpReceive
  import opened HttpRun
  import opened HttpStep
  import opened HttpSyntax
  import opened HttpView

  predicate Ascii(s: string) { forall i :: 0 <= i < |s| ==> s[i] as int < 128 }

  /** The bytes of a text. */
  function Text(s: string): (b: seq<byte>)
    requires Ascii(s)
    ensures |b| == |s| && forall i :: 0 <= i < |s| ==> b[i] == s[i] as int
  {
    seq(|s|, i requires 0 <= i < |s| => s[i] as int)
  }

  // ---- methods ----

  /** The method guessed after the first `k` letters. */
  function Guess(name: string, k: nat): nat
    requires 0 < k <= |name| && Ascii(name)
  {
    var c := name[k - 1] as int;
    if k == 1 then FirstGuess(c)
    else
      var m := Guess(name, k - 1);
      if m == NO_METHOD then NO_METHOD
      else if c == MethodChar(m, k - 1) then m
      else if IsUpper(c) || c == 45 then NextGuess(m, k - 1, c)
      else NO_METHOD
  }

  /** The letters lead to this method, and its name ends with them. */
  predicate Spelled(name: string, m: nat) {
    && Ascii(name) && 0 < |name| < 31 && Guess(name, |name|) == m != NO_METHOD && MethodChar(m, |name|) == 0
    && forall i :: 0 <= i < |name| ==> 'A' <= name[i] <= 'Z' || name[i] == '-'
  }

  lemma StartOut(f: Fields, c: byte)
    requires f.errno == OK && f.state == StartReq && IsAlpha(c) && FirstGuess(c) != NO_METHOD && c != CR && c != LF
    ensures Dispatch(f, c) ==
            Notify(f.(flags := NO_FLAGS, usesTransferEncoding := false, contentLength := ULLONG_MAX,
                      verb := FirstGuess(c), index := 1, state := ReqMethod), MessageBegin)
  {
    hide FirstGuess, IsAlpha, HeaderByte, ChunkArm, Rereading;
  }

  lemma MethodOut(f: Fields, c: byte)
    requires f.errno == OK && f.state == ReqMethod
    ensures Dispatch(f, c) == MethodByte(f, c)
  {
    hide MethodByte, HeaderByte, ChunkArm, Rereading;
  }

  lemma CapitalIs(c: byte)
    requires 65 <= c <= 90
    ensures IsAlpha(c) && c != CR && c != LF && c != NUL && c != SPACE
  {
  }

  /** After some letters: the guess is kept in the record, and the owner has been told of a method or not. */
  ghost predicate Guessed(v: View, w: View, name: string, k: nat)
    requires 0 < k <= |name| && Ascii(name)
  {
    && w.f == v.f.(flags := NO_FLAGS, usesTransferEncoding := false, contentLength := ULLONG_MAX,
                   verb := Guess(name, k), index := k, state := ReqMethod, nread := v.f.nread + k)
    && w.q == v.q.(req := v.q.req.(verb := w.q.req.verb)) && !w.exit
  }

  lemma {:induction false} LettersRead(v: View, name: string, k: nat, m: nat)
    requires !Halted(v) && v.f.state == StartReq && Spelled(name, m) && 0 < k <= |name|
    requires v.f.nread + k <= MAX_HEADER_SIZE
    ensures Guess(name, k) != NO_METHOD
    ensures Guessed(v, LookAll(v, Text(name)[..k]), name, k)
    decreases k
  {
    hide Look, Receive, ReceiveAll, FirstGuess, NextGuess, MethodChar;
    var t := Text(name);
    GuessStays(name, k, m);
    ReceiveFew(v.q);
    if k == 1 {
      assert t[..1] == [t[0]];
      LookOne(v, t[0]);
      FirstLetterRead(v, name);
    } else {
      LettersRead(v, name, k - 1, m);
      assert t[..k] == t[..k - 1] + [t[k - 1]];
      LookSplit(v, t[..k - 1], [t[k - 1]]);
      var w := LookAll(v, t[..k - 1]);
      LookOne(w, t[k - 1]);
      NextLetterRead(v, w, name, k);
    }
  }

  lemma {:induction false} GuessStays(name: string, k: nat, m: nat)
    requires Spelled(name, m) && 0 < k <= |name|
    ensures Guess(name, k) != NO_METHOD
    decreases |name| - k
  {
    hide FirstGuess, NextGuess, MethodChar;
    if k < |name| { GuessStays(name, k + 1, m); }
  }

  lemma FirstLetterRead(v: View, name: string)
    requires !Halted(v) && v.f.state == StartReq && Ascii(name) && name != "" && v.f.nread < MAX_HEADER_SIZE
    requires 'A' <= name[0] <= 'Z' || name[0] == '-'
    requires Guess(name, 1) != NO_METHOD
    ensures Guessed(v, Look(v, name[0] as int), name, 1)
  {
    hide Look, ReceiveAll, FirstGuess, Dispatch;
    var c: byte := name[0] as int;
    NotDash(name[0]);
    CapitalIs(c);
    var g := v.f.(nread := v.f.nread + 1);
    StartOut(g, c);
    LookTo(v, c, Dispatch(g, c));
    ReceiveFew(v.q);
    assert OwnData(Dispatch(g, c).f, c) == [];
    assert [MessageBegin] + [] == [MessageBegin];
  }

  lemma NotDash(c: char)
    requires 'A' <= c <= 'Z' || (c == '-' && FirstGuess(c as int) != NO_METHOD)
    ensures 'A' <= c <= 'Z'
  {
  }

  lemma NextLetterRead(v: View, w: View, name: string, k: nat)
    requires !Halted(v) && Ascii(name) && 1 < k <= |name| < 31 && v.f.nread + k <= MAX_HEADER_SIZE
    requires 'A' <= name[k - 1] <= 'Z' || name[k - 1] == '-'
    requires Guessed(v, w, name, k - 1) && Guess(name, k) != NO_METHOD
    ensures Guessed(v, Look(w, name[k - 1] as int), name, k)
  {
    hide Look, ReceiveAll, FirstGuess, NextGuess, MethodChar, Dispatch;
    var c: byte := name[k - 1] as int;
    var g := w.f.(nread := w.f.nread + 1);
    MethodOut(g, c);
    LookTo(w, c, Dispatch(g, c));
    ReceiveFew(w.q);
    var o := Dispatch(g, c);
    assert OwnData(o.f, c) == [];
    assert o.events == [OnMethod(Guess(name, k))];
    assert o.events + [] == o.events;
  }

  /** The method of a request line is the one whose letters stand there. */
  lemma MethodRead(v: View, name: string, m: nat)
    requires !Halted(v) && v.f.state == StartReq && Spelled(name, m) && v.f.nread + |name| < MAX_HEADER_SIZE
    ensures LookAll(v, Text(name) + [SPACE]) ==
            View(v.f.(flags := NO_FLAGS, usesTransferEncoding := false, contentLength := ULLONG_MAX,
                      verb := m, index := |name| + 1, state := ReqSpacesBeforeUrl, nread := v.f.nread + |name| + 1),
                 v.q.(req := v.q.req.(verb := m)), false)
  {
    hide Look, ReceiveAll, FirstGuess, NextGuess, MethodChar, Dispatch, Guess;
    var t := Text(name);
    LettersRead(v, name, |name|, m);
    assert t[..|name|] == t;
    LookSplit(v, t, [SPACE]);
    var w := LookAll(v, t);
    LookOne(w, SPACE);
    var g := w.f.(nread := w.f.nread + 1);
    MethodOut(g, SPACE);
    LookTo(w, SPACE, Dispatch(g, SPACE));
    ReceiveFew(w.q);
    var o := Dispatch(g, SPACE);
    assert o.events == [OnMethod(m)] && OwnData(o.f, SPACE) == [];
    assert o.events + [] == o.events;
  }

  lemma BeginsWith(name: string, m: nat)
    requires Ascii(name) && name != "" && FirstGuess(name[0] as int) == m
    ensures Guess(name, 1) == m
  {
  }

  /** As long as the letters are those of the guess, it stays. */
  lemma {:induction false} Keeps(name: string, m: nat, i: nat, j: nat)
    requires Ascii(name) && 0 < i <= j <= |name| && m < |METHODS| && m < NO_METHOD && j <= |METHODS[m]|
    requires Guess(name, i) == m
    requires forall k :: i <= k < j ==> name[k] == METHODS[m][k]
    ensures Guess(name, j) == m
    decreases j
  {
    hide NextGuess, FirstGuess, METHODS;
    if i < j { Keeps(name, m, i, j - 1); }
  }

  /** A letter that is none of the guess leads to another guess. */
  lemma Turns(name: string, m: nat, i: nat, m': nat)
    requires Ascii(name) && 0 < i < |name| && m < |METHODS| && m < NO_METHOD && Guess(name, i) == m
    requires i < |METHODS[m]| ==> name[i] != METHODS[m][i]
    requires ('A' <= name[i] <= 'Z' || name[i] == '-') && NextGuess(m, i, name[i] as int) == m'
    ensures Guess(name, i + 1) == m'
  {
    hide NextGuess, FirstGuess, METHODS;
  }

  lemma EndsWith(name: string, m: nat, i: nat)
    requires Ascii(name) && 0 < i <= |name| < 31 && m < |METHODS| && m < NO_METHOD && METHODS[m] == name
    requires Guess(name, i) == m
    requires forall k :: 0 <= k < |name| ==> 'A' <= name[k] <= 'Z' || name[k] == '-'
    ensures Spelled(name, m)
  {
    hide NextGuess, FirstGuess, METHODS;
    Keeps(name, m, i, |name|);
  }

  lemma FirstLetters()
    ensures FirstGuess('A' as int) == 21 && FirstGuess('B' as int) == 18 && FirstGuess('C' as int) == 5
    ensures FirstGuess('D' as int) == 0 && FirstGuess('G' as int) == 1 && FirstGuess('H' as int) == 2
    ensures FirstGuess('L' as int) == 11 && FirstGuess('M' as int) == 12 && FirstGuess('N' as int) == 27
    ensures FirstGuess('O' as int) == 6 && FirstGuess('P' as int) == 3 && FirstGuess('R' as int) == 22
    ensures FirstGuess('S' as int) == 28 && FirstGuess('T' as int) == 7 && FirstGuess('U' as int) == 17
  {
  }

  lemma Switches()
    ensures NextGuess(3, 1, 'U' as int) == 4 && NextGuess(3, 1, 'A' as int) == 8 && NextGuess(3, 1, 'R' as int) == 14
    ensures NextGuess(4, 2, 'R' as int) == 9 && NextGuess(5, 1, 'H' as int) == 24 && NextGuess(5, 2, 'P' as int) == 10
    ensures NextGuess(12, 1, 'O' as int) == 13 && NextGuess(12, 1, 'E' as int) == 25
    ensures NextGuess(12, 1, '-' as int) == 26
    ensures NextGuess(12, 2, 'A' as int) == 23 && NextGuess(12, 3, 'A' as int) == 30
    ensures NextGuess(28, 1, 'E' as int) == 16
    ensures NextGuess(28, 1, 'O' as int) == 33 && NextGuess(22, 2, 'B' as int) == 19
    ensures NextGuess(14, 4, 'P' as int) == 15
    ensures NextGuess(11, 1, 'I' as int) == 31 && NextGuess(17, 2, 'S' as int) == 29
    ensures NextGuess(17, 2, 'B' as int) == 20
    ensures NextGuess(17, 3, 'I' as int) == 32
  {
  }

  lemma Table()
    ensures |METHODS| == NO_METHOD == 34
    ensures METHODS[0] == "DELETE" && METHODS[1] == "GET" && METHODS[2] == "HEAD" && METHODS[3] == "POST"
    ensures METHODS[4] == "PUT" && METHODS[5] == "CONNECT" && METHODS[6] == "OPTIONS" && METHODS[7] == "TRACE"
    ensures METHODS[8] == "PATCH" && METHODS[9] == "PURGE" && METHODS[10] == "COPY" && METHODS[11] == "LOCK"
    ensures METHODS[12] == "MKCOL" && METHODS[13] == "MOVE" && METHODS[14] == "PROPFIND" && METHODS[15] == "PROPPATCH"
    ensures METHODS[16] == "SEARCH" && METHODS[17] == "UNLOCK" && METHODS[18] == "BIND" && METHODS[19] == "REBIND"
    ensures METHODS[20] == "UNBIND" && METHODS[21] == "ACL" && METHODS[22] == "REPORT" && METHODS[23] == "MKACTIVITY"
    ensures METHODS[24] == "CHECKOUT" && METHODS[25] == "MERGE" && METHODS[26] == "M-SEARCH" && METHODS[27] == "NOTIFY"
    ensures METHODS[28] == "SUBSCRIBE" && METHODS[29] == "UNSUBSCRIBE"
    ensures METHODS[30] == "MKCALENDAR" && METHODS[31] == "LINK"
    ensures METHODS[32] == "UNLINK" && METHODS[33] == "SOURCE"
  {
    TableEnd();
    hide METHODS;
    TableStart();
  }

  lemma TableStart()
    ensures |METHODS| == NO_METHOD == 34
    ensures METHODS[0] == "DELETE" && METHODS[1] == "GET" && METHODS[2] == "HEAD" && METHODS[3] == "POST"
    ensures METHODS[4] == "PUT" && METHODS[5] == "CONNECT" && METHODS[6] == "OPTIONS" && METHODS[7] == "TRACE"
    ensures METHODS[8] == "PATCH" && METHODS[9] == "PURGE" && METHODS[10] == "COPY" && METHODS[11] == "LOCK"
    ensures METHODS[12] == "MKCOL" && METHODS[13] == "MOVE" && METHODS[14] == "PROPFIND" && METHODS[15] == "PROPPATCH"
  {
  }

  lemma TableEnd()
    ensures METHODS[16] == "SEARCH" && METHODS[17] == "UNLOCK" && METHODS[18] == "BIND" && METHODS[19] == "REBIND"
    ensures METHODS[20] == "UNBIND" && METHODS[21] == "ACL" && METHODS[22] == "REPORT" && METHODS[23] == "MKACTIVITY"
    ensures METHODS[24] == "CHECKOUT" && METHODS[25] == "MERGE" && METHODS[26] == "M-SEARCH" && METHODS[27] == "NOTIFY"
    ensures METHODS[28] == "SUBSCRIBE" && METHODS[29] == "UNSUBSCRIBE"
    ensures METHODS[30] == "MKCALENDAR" && METHODS[31] == "LINK"
    ensures METHODS[32] == "UNLINK" && METHODS[33] == "SOURCE"
  {
  }

  lemma Names0()
    ensures Spelled("DELETE", 0) && Spelled("GET", 1) && Spelled("HEAD", 2)
    ensures Spelled("POST", 3) && Spelled("PUT", 4)
  {
    hide Guess, Spelled, FirstGuess, NextGuess, METHODS;
    FirstLetters();
    Switches();
    Table();
    BeginsWith("DELETE", 0);
    EndsWith("DELETE", 0, 1);
    BeginsWith("GET", 1);
    EndsWith("GET", 1, 1);
    BeginsWith("HEAD", 2);
    EndsWith("HEAD", 2, 1);
    BeginsWith("POST", 3);
    EndsWith("POST", 3, 1);
    BeginsWith("PUT", 3);
    Turns("PUT", 3, 1, 4);
    EndsWith("PUT", 4, 2);
  }

  lemma Names1()
    ensures Spelled("CONNECT", 5) && Spelled("OPTIONS", 6) && Spelled("TRACE", 7)
    ensures Spelled("PATCH", 8) && Spelled("PURGE", 9)
  {
    hide Guess, Spelled, FirstGuess, NextGuess, METHODS;
    FirstLetters();
    Switches();
    Table();
    BeginsWith("CONNECT", 5);
    EndsWith("CONNECT", 5, 1);
    BeginsWith("OPTIONS", 6);
    EndsWith("OPTIONS", 6, 1);
    BeginsWith("TRACE", 7);
    EndsWith("TRACE", 7, 1);
    BeginsWith("PATCH", 3);
    Turns("PATCH", 3, 1, 8);
    EndsWith("PATCH", 8, 2);
    BeginsWith("PURGE", 3);
    Turns("PURGE", 3, 1, 4);
    Turns("PURGE", 4, 2, 9);
    EndsWith("PURGE", 9, 3);
  }

  lemma Names2()
    ensures Spelled("COPY", 10) && Spelled("LOCK", 11) && Spelled("MKCOL", 12)
    ensures Spelled("MOVE", 13) && Spelled("PROPFIND", 14)
  {
    hide Guess, Spelled, FirstGuess, NextGuess, METHODS;
    FirstLetters();
    Switches();
    Table();
    BeginsWith("COPY", 5);
    Keeps("COPY", 5, 1, 2);
    Turns("COPY", 5, 2, 10);
    EndsWith("COPY", 10, 3);
    BeginsWith("LOCK", 11);
    EndsWith("LOCK", 11, 1);
    BeginsWith("MKCOL", 12);
    EndsWith("MKCOL", 12, 1);
    BeginsWith("MOVE", 12);
    Turns("MOVE", 12, 1, 13);
    EndsWith("MOVE", 13, 2);
    BeginsWith("PROPFIND", 3);
    Turns("PROPFIND", 3, 1, 14);
    EndsWith("PROPFIND", 14, 2);
  }

  lemma Names3()
    ensures Spelled("PROPPATCH", 15) && Spelled("SEARCH", 16) && Spelled("UNLOCK", 17)
    ensures Spelled("BIND", 18) && Spelled("REBIND", 19)
  {
    hide Guess, Spelled, FirstGuess, NextGuess, METHODS;
    FirstLetters();
    Switches();
    Table();
    BeginsWith("PROPPATCH", 3);
    Turns("PROPPATCH", 3, 1, 14);
    Keeps("PROPPATCH", 14, 2, 4);
    Turns("PROPPATCH", 14, 4, 15);
    EndsWith("PROPPATCH", 15, 5);
    BeginsWith("SEARCH", 28);
    Turns("SEARCH", 28, 1, 16);
    EndsWith("SEARCH", 16, 2);
    BeginsWith("UNLOCK", 17);
    EndsWith("UNLOCK", 17, 1);
    BeginsWith("BIND", 18);
    EndsWith("BIND", 18, 1);
    BeginsWith("REBIND", 22);
    Keeps("REBIND", 22, 1, 2);
    Turns("REBIND", 22, 2, 19);
    EndsWith("REBIND", 19, 3);
  }

  lemma Names4()
    ensures Spelled("UNBIND", 20) && Spelled("ACL", 21) && Spelled("REPORT", 22)
    ensures Spelled("MKACTIVITY", 23) && Spelled("CHECKOUT", 24)
  {
    hide Guess, Spelled, FirstGuess, NextGuess, METHODS;
    FirstLetters();
    Switches();
    Table();
    BeginsWith("UNBIND", 17);
    Keeps("UNBIND", 17, 1, 2);
    Turns("UNBIND", 17, 2, 20);
    EndsWith("UNBIND", 20, 3);
    BeginsWith("ACL", 21);
    EndsWith("ACL", 21, 1);
    BeginsWith("REPORT", 22);
    EndsWith("REPORT", 22, 1);
    BeginsWith("MKACTIVITY", 12);
    Keeps("MKACTIVITY", 12, 1, 2);
    Turns("MKACTIVITY", 12, 2, 23);
    EndsWith("MKACTIVITY", 23, 3);
    BeginsWith("CHECKOUT", 5);
    Turns("CHECKOUT", 5, 1, 24);
    EndsWith("CHECKOUT", 24, 2);
  }

  lemma Names5()
    ensures Spelled("MERGE", 25) && Spelled("M-SEARCH", 26) && Spelled("NOTIFY", 27)
    ensures Spelled("SUBSCRIBE", 28) && Spelled("UNSUBSCRIBE", 29)
  {
    hide Guess, Spelled, FirstGuess, NextGuess, METHODS;
    FirstLetters();
    Switches();
    Table();
    BeginsWith("MERGE", 12);
    Turns("MERGE", 12, 1, 25);
    EndsWith("MERGE", 25, 2);
    BeginsWith("M-SEARCH", 12);
    Turns("M-SEARCH", 12, 1, 26);
    EndsWith("M-SEARCH", 26, 2);
    BeginsWith("NOTIFY", 27);
    EndsWith("NOTIFY", 27, 1);
    BeginsWith("SUBSCRIBE", 28);
    EndsWith("SUBSCRIBE", 28, 1);
    BeginsWith("UNSUBSCRIBE", 17);
    Keeps("UNSUBSCRIBE", 17, 1, 2);
    Turns("UNSUBSCRIBE", 17, 2, 29);
    EndsWith("UNSUBSCRIBE", 29, 3);
  }

  lemma Names6()
    ensures Spelled("MKCALENDAR", 30) && Spelled("LINK", 31) && Spelled("UNLINK", 32)
    ensures Spelled("SOURCE", 33)
  {
    hide Guess, Spelled, FirstGuess, NextGuess, METHODS;
    FirstLetters();
    Switches();
    Table();
    BeginsWith("MKCALENDAR", 12);
    Keeps("MKCALENDAR", 12, 1, 3);
    Turns("MKCALENDAR", 12, 3, 30);
    EndsWith("MKCALENDAR", 30, 4);
    BeginsWith("LINK", 11);
    Turns("LINK", 11, 1, 31);
    EndsWith("LINK", 31, 2);
    BeginsWith("UNLINK", 17);
    Keeps("UNLINK", 17, 1, 3);
    Turns("UNLINK", 17, 3, 32);
    EndsWith("UNLINK", 32, 4);
    BeginsWith("SOURCE", 28);
    Turns("SOURCE", 28, 1, 33);
    EndsWith("SOURCE", 33, 2);
  }

  /** The names of the methods, in the order of their numbers. */
  lemma MethodNames()
    ensures Spelled("DELETE", 0) && Spelled("GET", 1) && Spelled("HEAD", 2)
    ensures Spelled("POST", 3) && Spelled("PUT", 4) && Spelled("CONNECT", 5)
    ensures Spelled("OPTIONS", 6) && Spelled("TRACE", 7) && Spelled("PATCH", 8)
    ensures Spelled("PURGE", 9) && Spelled("COPY", 10) && Spelled("LOCK", 11)
    ensures Spelled("MKCOL", 12) && Spelled("MOVE", 13) && Spelled("PROPFIND", 14)
    ensures Spelled("PROPPATCH", 15) && Spelled("SEARCH", 16) && Spelled("UNLOCK", 17)
    ensures Spelled("BIND", 18) && Spelled("REBIND", 19) && Spelled("UNBIND", 20)
    ensures Spelled("ACL", 21) && Spelled("REPORT", 22) && Spelled("MKACTIVITY", 23)
    ensures Spelled("CHECKOUT", 24) && Spelled("MERGE", 25) && Spelled("M-SEARCH", 26)
    ensures Spelled("NOTIFY", 27) && Spelled("SUBSCRIBE", 28) && Spelled("UNSUBSCRIBE", 29)
    ensures Spelled("MKCALENDAR", 30) && Spelled("LINK", 31) && Spelled("UNLINK", 32)
    ensures Spelled("SOURCE", 33)
  {
    hide Spelled;
    Names0();
    Names1();
    Names2();
    Names3();
    Names4();
    Names5();
    Names6();
  }

  // ---- targets ----

  /** A target in origin form: a slash, and visible characters without a fragment. */
  predicate IsTarget(u: seq<byte>) {
    u != [] && u[0] == 47 && forall i :: 0 <= i < |u| ==> 33 <= u[i] <= 126 && u[i] != 35
  }

  predicate InPath(s: State) {
    s == InUrl(ReqPath) || s == InUrl(ReqQueryStringStart) || s == InUrl(ReqQueryString)
  }

  lemma TargetOut(f: Fields, c: byte)
    requires f.errno == OK && (f.state == ReqSpacesBeforeUrl || InPath(f.state))
    ensures Dispatch(f, c) == TargetByte(f, c)
  {
    hide TargetByte, HeaderByte, ChunkArm, Rereading;
  }

  lemma SlashOut(f: Fields)
    requires f.errno == OK && f.state == ReqSpacesBeforeUrl
    ensures TargetByte(f, 47) == Goto(f, InUrl(ReqPath))
  {
  }

  lemma PathOut(f: Fields, c: byte)
    requires f.errno == OK && InPath(f.state) && 33 <= c <= 126 && c != 35
    ensures var o := TargetByte(f, c); o == Goto(f, o.f.state) && InPath(o.f.state)
  {
    hide StartByte, MethodByte;
  }

  lemma PathEnds(f: Fields)
    requires f.errno == OK && InPath(f.state)
    ensures TargetByte(f, SPACE) == Notify(f.(state := InVersion(ReqHttpStart)), Data(Url, []))
  {
    hide StartByte, MethodByte;
  }

  function WithUrl(q: Owner, u: seq<byte>): Owner { q.(req := q.req.(rawUrl := q.req.rawUrl + u)) }

  lemma {:induction false} PathRead(v: View, u: seq<byte>, k: nat)
    requires !Halted(v) && v.f.state == ReqSpacesBeforeUrl && IsTarget(u) && 0 < k <= |u|
    requires v.f.nread + k <= MAX_HEADER_SIZE
    ensures var w := LookAll(v, u[..k]);
            && InPath(w.f.state)
            && w == View(v.f.(state := w.f.state, nread := v.f.nread + k), WithUrl(v.q, u[..k]), false)
    decreases k
  {
    hide Look, Dispatch, ReceiveAll, TargetByte;
    if k == 1 {
      assert u[..1] == [u[0]];
      LookOne(v, u[0]);
      PathByte(v, u[0], InUrl(ReqPath));
    } else {
      PathRead(v, u, k - 1);
      assert u[..k] == u[..k - 1] + [u[k - 1]];
      LookSplit(v, u[..k - 1], [u[k - 1]]);
      var w := LookAll(v, u[..k - 1]);
      LookOne(w, u[k - 1]);
      PathOut(w.f.(nread := w.f.nread + 1), u[k - 1]);
      PathByte(w, u[k - 1], TargetByte(w.f.(nread := w.f.nread + 1), u[k - 1]).f.state);
      assert w.q.req.rawUrl + [u[k - 1]] == v.q.req.rawUrl + u[..k];
    }
  }

  lemma PathByte(v: View, c: byte, s: State)
    requires !Halted(v) && (v.f.state == ReqSpacesBeforeUrl || InPath(v.f.state)) && v.f.nread < MAX_HEADER_SIZE
    requires v.f.state == ReqSpacesBeforeUrl ==> c == 47 && s == InUrl(ReqPath)
    requires InPath(s) && (InPath(v.f.state) ==>
               TargetByte(v.f.(nread := v.f.nread + 1), c) == Goto(v.f.(nread := v.f.nread + 1), s))
    ensures Look(v, c) == View(v.f.(state := s, nread := v.f.nread + 1), WithUrl(v.q, [c]), false)
  {
    hide Look, Dispatch, ReceiveAll, TargetByte;
    var g := v.f.(nread := v.f.nread + 1);
    TargetOut(g, c);
    if v.f.state == ReqSpacesBeforeUrl { SlashOut(g); }
    LookTo(v, c, Dispatch(g, c));
    ReceiveFew(v.q);
    assert [] + [Data(Url, [c])] == [Data(Url, [c])];
  }

  /** The target is handed on as it is written. */
  lemma TargetRead(v: View, u: seq<byte>)
    requires !Halted(v) && v.f.state == ReqSpacesBeforeUrl && IsTarget(u) && v.f.nread + |u| < MAX_HEADER_SIZE
    ensures LookAll(v, u + [SPACE]) ==
            View(v.f.(state := InVersion(ReqHttpStart), nread := v.f.nread + |u| + 1), WithUrl(v.q, u), false)
  {
    hide Look, Dispatch, ReceiveAll, TargetByte;
    PathRead(v, u, |u|);
    assert u[..|u|] == u;
    LookSplit(v, u, [SPACE]);
    var w := LookAll(v, u);
    LookOne(w, SPACE);
    var g := w.f.(nread := w.f.nread + 1);
    TargetOut(g, SPACE);
    PathEnds(g);
    LookTo(w, SPACE, Dispatch(g, SPACE));
    ReceiveFew(w.q);
    var o := Dispatch(g, SPACE);
    assert o.events + OwnData(o.f, SPACE) == [Data(Url, [])];
    assert w.q.req.rawUrl + [] == w.q.req.rawUrl;
  }

  // ---- versions ----

  lemma VersionOut(f: Fields, c: byte)
    requires f.errno == OK && f.state.InVersion?
    ensures Dispatch(f, c) == VersionByte(f, c)
  {
    hide VersionByte, HeaderByte, ChunkArm, Rereading, TargetByte;
  }

  lemma VersionStep(v: View, c: byte, f: Fields)
    requires !Halted(v) && v.f.state.InVersion? && v.f.nread < MAX_HEADER_SIZE && !HasKind(f.state)
    requires VersionByte(v.f.(nread := v.f.nread + 1), c) == Go(f)
    ensures Look(v, c) == View(f, v.q, false)
  {
    hide Look, Dispatch, ReceiveAll, VersionByte;
    var g := v.f.(nread := v.f.nread + 1);
    VersionOut(g, c);
    LookTo(v, c, Dispatch(g, c));
    ReceiveFew(v.q);
    assert [] + OwnData(f, c) == [];
  }

  lemma LookNext(v: View, c: byte, rest: seq<byte>)
    ensures LookAll(v, [c] + rest) == LookAll(Look(v, c), rest)
  {
    hide Look;
    assert ([c] + rest)[1..] == rest;
  }

  lemma LookFive(v: View, a: byte, b: byte, c: byte, d: byte, e: byte)
    ensures LookAll(v, [a, b, c, d, e]) == Look(Look(Look(Look(Look(v, a), b), c), d), e)
  {
    hide Look;
    LookNext(v, a, [b, c, d, e]);
    var w := Look(v, a);
    LookNext(w, b, [c, d, e]);
    var x := Look(w, b);
    LookNext(x, c, [d, e]);
    var y := Look(x, c);
    LookNext(y, d, [e]);
    LookOne(Look(y, d), e);
    assert [a] + [b, c, d, e] == [a, b, c, d, e] && [b] + [c, d, e] == [b, c, d, e];
    assert [c] + [d, e] == [c, d, e] && [d] + [e] == [d, e];
  }

  /** The bytes of a version, each in its state. */
  lemma VersionBytes(f: Fields, d: byte)
    requires f.errno == OK && 48 <= d <= 57
    ensures f.state == InVersion(ReqHttpStart) ==> VersionByte(f, 72) == Goto(f, InVersion(ReqHttpH))
    ensures f.state == InVersion(ReqHttpH) ==> VersionByte(f, 84) == Goto(f, InVersion(ReqHttpHT))
    ensures f.state == InVersion(ReqHttpHT) ==> VersionByte(f, 84) == Goto(f, InVersion(ReqHttpHTT))
    ensures f.state == InVersion(ReqHttpHTT) ==> VersionByte(f, 80) == Goto(f, InVersion(ReqHttpHTTP))
    ensures f.state == InVersion(ReqHttpHTTP) ==> VersionByte(f, 47) == Goto(f, InVersion(ReqHttpMajor))
    ensures f.state == InVersion(ReqHttpMajor) ==>
              VersionByte(f, d) == Goto(f.(major := d - 48), InVersion(ReqHttpDot))
    ensures f.state == InVersion(ReqHttpDot) ==> VersionByte(f, 46) == Goto(f, InVersion(ReqHttpMinor))
    ensures f.state == InVersion(ReqHttpMinor) ==>
              VersionByte(f, d) == Goto(f.(minor := d - 48), InVersion(ReqHttpEnd))
    ensures f.state == InVersion(ReqHttpEnd) ==> VersionByte(f, CR) == Goto(f, InVersion(ReqLineAlmostDone))
    ensures f.state == InVersion(ReqLineAlmostDone) ==> VersionByte(f, LF) == Goto(f, HeaderFieldStart)
  {
    hide InLine;
  }

  /** The byte that leads from one state of the version to the next, apart from the two digits. */
  predicate Leads(s: VersionState, c: byte, next: State) {
    || (s == ReqHttpStart && c == 72 && next == InVersion(ReqHttpH))
    || (s == ReqHttpH && c == 84 && next == InVersion(ReqHttpHT))
    || (s == ReqHttpHT && c == 84 && next == InVersion(ReqHttpHTT))
    || (s == ReqHttpHTT && c == 80 && next == InVersion(ReqHttpHTTP))
    || (s == ReqHttpHTTP && c == 47 && next == InVersion(ReqHttpMajor))
    || (s == ReqHttpDot && c == 46 && next == InVersion(ReqHttpMinor))
    || (s == ReqHttpEnd && c == CR && next == InVersion(ReqLineAlmostDone))
    || (s == ReqLineAlmostDone && c == LF && next == HeaderFieldStart)
  }

  function On(v: View, next: State): View { v.(f := v.f.(state := next, nread := v.f.nread + 1)) }

  lemma WordByte(v: View, c: byte, next: State)
    requires !Halted(v) && v.f.state.InVersion? && v.f.nread < MAX_HEADER_SIZE && Leads(v.f.state.version, c, next)
    ensures Look(v, c) == On(v, next)
  {
    hide Look, VersionByte;
    var g := v.f.(nread := v.f.nread + 1);
    VersionBytes(g, 48);
    VersionStep(v, c, g.(state := next));
  }

  lemma DigitByte(v: View, d: byte)
    requires !Halted(v) && v.f.nread < MAX_HEADER_SIZE && 48 <= d <= 57
    ensures v.f.state == InVersion(ReqHttpMajor) ==>
              Look(v, d) == On(v.(f := v.f.(major := d - 48)), InVersion(ReqHttpDot))
    ensures v.f.state == InVersion(ReqHttpMinor) ==>
              Look(v, d) == On(v.(f := v.f.(minor := d - 48)), InVersion(ReqHttpEnd))
  {
    hide Look, VersionByte;
    var g := v.f.(nread := v.f.nread + 1);
    VersionBytes(g, d);
    if v.f.state == InVersion(ReqHttpMajor) {
      VersionStep(v, d, g.(major := d - 48, state := InVersion(ReqHttpDot)));
    } else if v.f.state == InVersion(ReqHttpMinor) {
      VersionStep(v, d, g.(minor := d - 48, state := InVersion(ReqHttpEnd)));
    }
  }

  lemma ProtocolRead(v: View)
    requires !Halted(v) && v.f.state == InVersion(ReqHttpStart) && v.f.nread + 5 <= MAX_HEADER_SIZE
    ensures LookAll(v, [72, 84, 84, 80, 47]) ==
            View(v.f.(state := InVersion(ReqHttpMajor), nread := v.f.nread + 5), v.q, false)
  {
    hide Look, LookAll;
    LookFive(v, 72, 84, 84, 80, 47);
    WordByte(v, 72, InVersion(ReqHttpH));
    var h := On(v, InVersion(ReqHttpH));
    WordByte(h, 84, InVersion(ReqHttpHT));
    var t := On(h, InVersion(ReqHttpHT));
    WordByte(t, 84, InVersion(ReqHttpHTT));
    var u := On(t, InVersion(ReqHttpHTT));
    WordByte(u, 80, InVersion(ReqHttpHTTP));
    WordByte(On(u, InVersion(ReqHttpHTTP)), 47, InVersion(ReqHttpMajor));
  }

  lemma DigitsRead(v: View, a: byte, b: byte)
    requires !Halted(v) && v.f.state == InVersion(ReqHttpMajor) && v.f.nread + 3 <= MAX_HEADER_SIZE
    requires 48 <= a <= 57 && 48 <= b <= 57
    ensures Look(Look(Look(v, a), 46), b) ==
            v.(f := v.f.(state := InVersion(ReqHttpEnd), major := a - 48, minor := b - 48, nread := v.f.nread + 3))
  {
    hide Look;
    DigitByte(v, a);
    var d := On(v.(f := v.f.(major := a - 48)), InVersion(ReqHttpDot));
    WordByte(d, 46, InVersion(ReqHttpMinor));
    DigitByte(On(d, InVersion(ReqHttpMinor)), b);
  }

  lemma LineEndRead(v: View)
    requires !Halted(v) && v.f.state == InVersion(ReqHttpEnd) && v.f.nread + 2 <= MAX_HEADER_SIZE
    ensures Look(Look(v, CR), LF) == v.(f := v.f.(state := HeaderFieldStart, nread := v.f.nread + 2))
  {
    hide Look;
    WordByte(v, CR, InVersion(ReqLineAlmostDone));
    WordByte(On(v, InVersion(ReqLineAlmostDone)), LF, HeaderFieldStart);
  }

  lemma NumbersRead(v: View, a: byte, b: byte)
    requires !Halted(v) && v.f.state == InVersion(ReqHttpMajor) && v.f.nread + 5 <= MAX_HEADER_SIZE
    requires 48 <= a <= 57 && 48 <= b <= 57
    ensures LookAll(v, [a, 46, b, CR, LF]) ==
            View(v.f.(state := HeaderFieldStart, major := a - 48, minor := b - 48, nread := v.f.nread + 5), v.q, false)
  {
    hide Look, LookAll;
    LookFive(v, a, 46, b, CR, LF);
    DigitsRead(v, a, b);
    LineEndRead(Look(Look(Look(v, a), 46), b));
  }

  // ---- the whole line ----

  /** A request line: the name of the method, a target, and `HTTP/` with two digits. */
  function RequestLine(name: string, u: seq<byte>, a: byte, b: byte): seq<byte>
    requires Ascii(name)
  {
    Text(name) + [SPACE] + (u + [SPACE]) + Text("HTTP/") + [a, 46, b, CR, LF]
  }

  /** Reading a request line gives the method, the target and the version that are written. */
  lemma RequestLineRead(v: View, name: string, m: nat, u: seq<byte>, a: byte, b: byte)
    requires !Halted(v) && v.f.state == StartReq && Spelled(name, m) && IsTarget(u)
    requires 48 <= a <= 57 && 48 <= b <= 57 && v.f.nread + |RequestLine(name, u, a, b)| <= MAX_HEADER_SIZE
    ensures LookAll(v, RequestLine(name, u, a, b)) ==
            View(v.f.(flags := NO_FLAGS, usesTransferEncoding := false, contentLength := ULLONG_MAX,
                      verb := m, index := |name| + 1, major := a - 48, minor := b - 48, state := HeaderFieldStart,
                      nread := v.f.nread + |RequestLine(name, u, a, b)|),
                 v.q.(req := v.q.req.(verb := m, rawUrl := v.q.req.rawUrl + u)), false)
  {
    hide Look, Spelled, IsTarget;
    SpelledIs(name, m);
    assert Text("HTTP/") == [72, 84, 84, 80, 47];
    var p1, p2 := Text(name) + [SPACE], u + [SPACE];
    MethodRead(v, name, m);
    var w := LookAll(v, p1);
    TargetRead(w, u);
    LookSplit(v, p1, p2);
    var x := LookAll(w, p2);
    ProtocolRead(x);
    LookSplit(v, p1 + p2, [72, 84, 84, 80, 47]);
    var y := LookAll(x, [72, 84, 84, 80, 47]);
    NumbersRead(y, a, b);
    LookSplit(v, p1 + p2 + [72, 84, 84, 80, 47], [a, 46, b, CR, LF]);
  }

  lemma SpelledIs(name: string, m: nat)
    requires Spelled(name, m)
    ensures Ascii(name) && 0 < |name| < 31
  {
  }
}
