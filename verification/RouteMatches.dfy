/** Exactly which URLs match a pattern: those that can be cut into pieces, one for each step. */
module RouteMatches {
  import DecimalText
  import opened Options
  import opened RoutePatterns
  import opened RouteUrls

  /** A piece of a URL with the step that takes it and the value it stands for. */
  datatype Cut = Cut(step: Tok, text: string, value: Value)

  predicate AllDigits(s: string) { s != "" && forall i :: 0 <= i < |s| ==> '0' <= s[i] <= '9' }

  /** Decimal digits, perhaps after a plus sign. */
  predicate UintText(s: string, n: nat) {
    || (AllDigits(s) && n == DecimalText.Value(s))
    || (s != "" && s[0] == '+' && AllDigits(s[1..]) && n == DecimalText.Value(s[1..]))
  }

  predicate IntText(s: string, i: int) {
    || (i >= 0 && UintText(s, i))
    || (i <= 0 && s != "" && s[0] == '-' && AllDigits(s[1..]) && i == 0 - DecimalText.Value(s[1..]))
  }

  /** The piece is one that its step takes, and it is not longer in the URL. */
  predicate Fits(c: Cut, rest: string) {
    match c.step
    case Lit(ch) => c.text == [ch]
    case Tag(INT) =>
      && c.value.IntValue? && -0x8000_0000_0000_0000 <= c.value.i < 0x8000_0000_0000_0000
      && IntText(c.text, c.value.i) && (rest == "" || !('0' <= rest[0] <= '9'))
    case Tag(UINT) =>
      && c.value.UintValue? && c.value.u < 0x1_0000_0000_0000_0000
      && UintText(c.text, c.value.u) && (rest == "" || !('0' <= rest[0] <= '9'))
    case Tag(DOUBLE) => false
    case Tag(STRING) =>
      c.value == StringValue(c.text) && c.text != "" && '/' !in c.text && (rest == "" || rest[0] == '/')
    case Tag(PATH) => c.value == StringValue(c.text) && c.text != "" && rest == ""
  }

  function Joined(cs: seq<Cut>): string { if cs == [] then "" else cs[0].text + Joined(cs[1..]) }

  function StepsOf(cs: seq<Cut>): (r: seq<Tok>)
    ensures |r| == |cs|
  {
    if cs == [] then [] else [cs[0].step] + StepsOf(cs[1..])
  }

  predicate AllFit(cs: seq<Cut>) { cs != [] ==> Fits(cs[0], Joined(cs[1..])) && AllFit(cs[1..]) }

  /** The values of the parameters, after those that were there before. */
  function Given(cs: seq<Cut>, ps: Params): Params {
    if cs == [] then ps else Given(cs[1..], if cs[0].step.Lit? then ps else Push(ps, cs[0].value))
  }

  // ---- numbers ----

  lemma DigitsRead(url: string, pos: nat, e: nat)
    requires pos <= e <= |url|
    ensures Unsigned(url, pos).Some? && Unsigned(url, pos).value.1 == e <==>
            AllDigits(url[pos..e]) && (e == |url| || !IsDigit(url[e]))
    ensures AllDigits(url[pos..e]) && (e == |url| || !IsDigit(url[e])) ==>
            Unsigned(url, pos) == Some((DecimalText.Value(url[pos..e]), e))
  {
    if AllDigits(url[pos..e]) && (e == |url| || !IsDigit(url[e])) {
      forall i | pos <= i < e
        ensures IsDigit(url[i])
      {
        assert url[pos..e][i - pos] == url[i];
      }
      DigitsEndIs(url, pos, e);
      DecimalIs(url, pos, e);
    }
    if Unsigned(url, pos).Some? && Unsigned(url, pos).value.1 == e {
      DigitsAre(url, pos);
      DigitsStop(url, pos);
      assert forall i :: 0 <= i < e - pos ==> url[pos..e][i] == url[pos + i];
    }
  }

  lemma {:induction false} DigitsStop(url: string, pos: nat)
    requires pos <= |url|
    ensures var e := DigitsEnd(url, pos); e < |url| ==> !IsDigit(url[e])
    decreases |url| - pos
  {
    if pos < |url| && IsDigit(url[pos]) { DigitsStop(url, pos + 1); }
  }

  /** The number at a place, with the sign before it or without. */
  lemma SignRead(url: string, pos: nat, e: nat, signed: bool)
    requires pos < e <= |url|
    ensures var t := url[pos..e];
            var d := if signed then t[1..] else t;
            var r := Unsigned(url, if signed then pos + 1 else pos);
            && (r.Some? && r.value.1 == e <==> AllDigits(d) && (e == |url| || !IsDigit(url[e])))
            && (AllDigits(d) && (e == |url| || !IsDigit(url[e])) ==> r == Some((DecimalText.Value(d), e)))
  {
    hide Unsigned, AllDigits;
    DigitsRead(url, pos, e);
    DigitsRead(url, pos + 1, e);
    assert url[pos..e][1..] == url[pos + 1..e];
  }

  lemma FirstDigit(t: string)
    requires AllDigits(t)
    ensures IsDigit(t[0])
  {
  }

  lemma IntTaken(fp: FloatParser, url: string, pos: nat, e: nat, v: Value)
    requires pos < e <= |url|
    ensures Take(fp, INT, url, pos) == Some((v, e)) <==> Fits(Cut(Tag(INT), url[pos..e], v), url[e..])
  {
    hide Unsigned, AllDigits;
    var t, c := url[pos..e], url[pos];
    assert t[0] == c && (e < |url| ==> url[e..][0] == url[e]);
    SignRead(url, pos, e, c == '+' || c == '-');
    if AllDigits(t) { FirstDigit(t); }
  }

  lemma UintTaken(fp: FloatParser, url: string, pos: nat, e: nat, v: Value)
    requires pos < e <= |url|
    ensures Take(fp, UINT, url, pos) == Some((v, e)) <==> Fits(Cut(Tag(UINT), url[pos..e], v), url[e..])
  {
    hide Unsigned, AllDigits;
    var t, c := url[pos..e], url[pos];
    assert t[0] == c && (e < |url| ==> url[e..][0] == url[e]);
    SignRead(url, pos, e, c == '+');
    if AllDigits(t) { FirstDigit(t); }
  }

  lemma StringTaken(fp: FloatParser, url: string, pos: nat, e: nat, v: Value)
    requires pos < e <= |url|
    ensures Take(fp, STRING, url, pos) == Some((v, e)) <==> Fits(Cut(Tag(STRING), url[pos..e], v), url[e..])
  {
    var t := url[pos..e];
    assert e < |url| ==> url[e..][0] == url[e];
    assert forall i :: 0 <= i < |t| ==> t[i] == url[pos + i];
    if Fits(Cut(Tag(STRING), t, v), url[e..]) {
      forall i | pos <= i < e
        ensures url[i] != '/'
      {
        assert t[i - pos] in t;
      }
      SlashIs(url, pos, e);
    }
  }

  /** What a parameter takes, exactly: numbers of the right sign and size with all their digits, a component
      up to the next slash, or the rest. */
  lemma TakenIff(fp: FloatParser, p: ParamType, url: string, pos: nat, e: nat, v: Value)
    requires p != DOUBLE && pos < e <= |url|
    ensures Take(fp, p, url, pos) == Some((v, e)) <==> Fits(Cut(Tag(p), url[pos..e], v), url[e..])
  {
    match p {
      case INT => IntTaken(fp, url, pos, e, v);
      case UINT => UintTaken(fp, url, pos, e, v);
      case STRING => StringTaken(fp, url, pos, e, v);
      case PATH => assert url[e..] == "" <==> e == |url|; assert url[pos..|url|] == url[pos..];
    }
  }

  // ---- whole URLs ----

  /** A URL that is cut into fitting pieces matches, and gives their values. */
  lemma {:induction false} CutMatches(fp: FloatParser, cs: seq<Cut>, url: string, pos: nat, ps: Params)
    requires AllFit(cs) && pos <= |url| && url[pos..] == Joined(cs)
    ensures Extract(fp, StepsOf(cs), url, pos, ps) == Some(Given(cs, ps))
    decreases |cs|
  {
    hide Take;
    if cs != [] {
      var c, rest := cs[0], Joined(cs[1..]);
      var e := pos + |c.text|;
      FitsNotEmpty(c, rest);
      assert url[pos..e] == url[pos..][..|c.text|] == c.text;
      assert url[e..] == url[pos..][|c.text|..] == rest;
      assert url[pos] == c.text[0];
      assert StepsOf(cs)[1..] == StepsOf(cs[1..]);
      if c.step.Tag? { TakenIff(fp, c.step.param, url, pos, e, c.value); }
      hide Fits;
      CutMatches(fp, cs[1..], url, e, if c.step.Lit? then ps else Push(ps, c.value));
    }
  }

  lemma FitsNotEmpty(c: Cut, rest: string)
    requires Fits(c, rest)
    ensures c.text != "" && c.step != Tag(DOUBLE)
  {
  }

  /** A URL that matches can be cut into fitting pieces. */
  lemma {:induction false} MatchIsCut(fp: FloatParser, toks: seq<Tok>, url: string, pos: nat, ps: Params)
    returns (cs: seq<Cut>)
    requires Tag(DOUBLE) !in toks && pos <= |url| && Extract(fp, toks, url, pos, ps).Some?
    ensures StepsOf(cs) == toks && Joined(cs) == url[pos..] && AllFit(cs)
    decreases |toks|
  {
    hide Take, Fits;
    if toks == [] {
      cs := [];
    } else {
      var first, e, ps' := FirstCut(fp, toks, url, pos, ps);
      hide Extract;
      var rest := MatchIsCut(fp, toks[1..], url, e, ps');
      cs := [first] + rest;
      assert cs[1..] == rest && url[pos..] == url[pos..e] + url[e..];
      assert toks == [toks[0]] + toks[1..];
    }
  }

  lemma FirstCut(fp: FloatParser, toks: seq<Tok>, url: string, pos: nat, ps: Params)
    returns (first: Cut, e: nat, ps': Params)
    requires toks != [] && toks[0] != Tag(DOUBLE) && pos <= |url| && Extract(fp, toks, url, pos, ps).Some?
    ensures pos < e <= |url| && first.step == toks[0] && first.text == url[pos..e] && Fits(first, url[e..])
    ensures Extract(fp, toks[1..], url, e, ps') == Extract(fp, toks, url, pos, ps)
  {
    hide Take, Fits;
    first, e, ps' := Cut(toks[0], [url[pos]], IntValue(0)), pos + 1, ps;
    if toks[0].Tag? {
      var (v, end) := Take(fp, toks[0].param, url, pos).value;
      first, e, ps' := Cut(toks[0], url[pos..end], v), end, Push(ps, v);
      TakenIff(fp, toks[0].param, url, pos, e, v);
    } else {
      LitFits(toks[0], url[e..]);
    }
  }

  lemma LitFits(step: Tok, rest: string)
    requires step.Lit?
    ensures Fits(Cut(step, [step.c], IntValue(0)), rest)
  {
  }

  /** A URL matches a pattern exactly if it can be cut into pieces that fit the steps, and then the
      parameters are the values of the pieces. */
  lemma MatchIff(fp: FloatParser, toks: seq<Tok>, url: string, found: Params)
    requires Tag(DOUBLE) !in toks
    ensures Extract(fp, toks, url, 0, NO_PARAMS) == Some(found) <==>
            exists cs :: StepsOf(cs) == toks && Joined(cs) == url && AllFit(cs) && Given(cs, NO_PARAMS) == found
  {
    hide Extract, AllFit, StepsOf, Joined, Given;
    assert url[0..] == url;
    if Extract(fp, toks, url, 0, NO_PARAMS).Some? {
      var cs := MatchIsCut(fp, toks, url, 0, NO_PARAMS);
      CutMatches(fp, cs, url, 0, NO_PARAMS);
    }
    if cs :| StepsOf(cs) == toks && Joined(cs) == url && AllFit(cs) && Given(cs, NO_PARAMS) == found {
      CutMatches(fp, cs, url, 0, NO_PARAMS);
    }
  }

  // ---- the lists of values ----

  /** The one value of a piece, in the list of its type. */
  function One(c: Cut): Params {
    if c.step.Lit? then NO_PARAMS
    else
      match c.value
      case IntValue(i) => Params([i], [], [], [])
      case UintValue(u) => Params([], [u], [], [])
      case DoubleValue(d) => Params([], [], [d], [])
      case StringValue(s) => Params([], [], [], [s])
  }

  function Together(a: Params, b: Params): Params {
    Params(a.ints + b.ints, a.uints + b.uints, a.doubles + b.doubles, a.strings + b.strings)
  }

  function InOrder(cs: seq<Cut>): Params { if cs == [] then NO_PARAMS else Together(One(cs[0]), InOrder(cs[1..])) }

  lemma TogetherTwice(a: Params, b: Params, c: Params)
    ensures Together(a, Together(b, c)) == Together(Together(a, b), c)
    ensures Together(a, NO_PARAMS) == a
  {
  }

  /** Each list has the values of its type, in the order of the URL. */
  lemma {:induction false} GivenInOrder(cs: seq<Cut>, ps: Params)
    ensures Given(cs, ps) == Together(ps, InOrder(cs))
    decreases |cs|
  {
    if cs == [] {
      TogetherTwice(ps, ps, ps);
    } else {
      var c := cs[0];
      Pushed(c, ps);
      GivenInOrder(cs[1..], if c.step.Lit? then ps else Push(ps, c.value));
      hide Given, One, Together, Push;
      TogetherTwice(ps, One(c), InOrder(cs[1..]));
    }
  }

  lemma Pushed(c: Cut, ps: Params)
    ensures (if c.step.Lit? then ps else Push(ps, c.value)) == Together(ps, One(c))
  {
  }
}
