/** URLs that are made by filling in a pattern: they match it, and give the values back. */
module RouteUrls {
  import DecimalText
  import opened Options
  import opened RoutePatterns

  /** A step of a pattern with what a URL has in its place. */
  datatype Filled = Own(c: char) | Given(param: ParamType, value: Value)

  function Step(f: Filled): Tok {
    match f
    case Own(c) => Lit(c)
    case Given(p, _) => Tag(p)
  }

  /** The pattern. */
  function Pattern(fs: seq<Filled>): (r: seq<Tok>)
    ensures |r| == |fs|
  {
    if fs == [] then [] else [Step(fs[0])] + Pattern(fs[1..])
  }

  function Written(v: Value): string {
    match v
    case IntValue(i) => if i < 0 then "-" + DecimalText.Digits(-i) else DecimalText.Digits(i)
    case UintValue(u) => DecimalText.Digits(u)
    case DoubleValue(_) => ""
    case StringValue(s) => s
  }

  function Text(f: Filled): string { if f.Own? then [f.c] else Written(f.value) }

  /** The URL. */
  function Url(fs: seq<Filled>): string {
    if fs == [] then "" else Text(fs[0]) + Url(fs[1..])
  }

  /** The parameters, after those that were there before. */
  function Values(fs: seq<Filled>, ps: Params): Params {
    if fs == [] then ps else Values(fs[1..], if fs[0].Own? then ps else Push(ps, fs[0].value))
  }

  /** The value is one of its parameter's, and what comes after it is not taken for a part of it. */
  predicate Proper(f: Filled, rest: string) {
    match f
    case Own(_) => true
    case Given(INT, v) =>
      v.IntValue? && -0x8000_0000_0000_0000 <= v.i < 0x8000_0000_0000_0000 && (rest == "" || !IsDigit(rest[0]))
    case Given(UINT, v) =>
      v.UintValue? && v.u < 0x1_0000_0000_0000_0000 && (rest == "" || !IsDigit(rest[0]))
    case Given(DOUBLE, _) => false
    case Given(STRING, v) =>
      v.StringValue? && v.s != "" && '/' !in v.s && (rest == "" || rest[0] == '/')
    case Given(PATH, v) => v.StringValue? && v.s != "" && rest == ""
  }

  predicate AllProper(fs: seq<Filled>) {
    fs != [] ==> Proper(fs[0], Url(fs[1..])) && AllProper(fs[1..])
  }

  // ---- numbers ----

  lemma {:induction false} DigitsEndIs(url: string, pos: nat, e: nat)
    requires pos <= e <= |url| && (forall i :: pos <= i < e ==> IsDigit(url[i])) && (e < |url| ==> !IsDigit(url[e]))
    ensures DigitsEnd(url, pos) == e
    decreases e - pos
  {
    if pos < e { DigitsEndIs(url, pos + 1, e); }
  }

  lemma {:induction false} DecimalIs(url: string, pos: nat, end: nat)
    requires pos <= end <= |url| && forall i :: pos <= i < end ==> IsDigit(url[i])
    ensures forall i :: 0 <= i < end - pos ==> DecimalText.IsDigit(url[pos..end][i])
    ensures Decimal(url, pos, end) == DecimalText.Value(url[pos..end])
    decreases end
  {
    var s := url[pos..end];
    assert forall i :: 0 <= i < end - pos ==> s[i] == url[pos + i];
    if pos < end {
      DecimalIs(url, pos, end - 1);
      assert s[..|s| - 1] == url[pos..end - 1];
    }
  }

  /** Digits that were written are read as their number. */
  lemma DigitsTaken(url: string, pos: nat, n: nat)
    requires var d := DecimalText.Digits(n);
             && pos + |d| <= |url| && url[pos..pos + |d|] == d
             && (pos + |d| < |url| ==> !IsDigit(url[pos + |d|]))
    ensures Unsigned(url, pos) == Some((n, pos + |DecimalText.Digits(n)|)) && IsDigit(url[pos])
  {
    var d := DecimalText.Digits(n);
    var e := pos + |d|;
    forall i | pos <= i < e
      ensures IsDigit(url[i])
    {
      assert url[i] == d[i - pos] && DecimalText.IsDigit(d[i - pos]);
    }
    DigitsEndIs(url, pos, e);
    DecimalIs(url, pos, e);
    DecimalText.ValueOfDigits(n);
  }

  lemma {:induction false} SlashIs(url: string, pos: nat, e: nat)
    requires pos <= e <= |url| && (forall i :: pos <= i < e ==> url[i] != '/') && (e < |url| ==> url[e] == '/')
    ensures SlashFrom(url, pos) == e
    decreases e - pos
  {
    if pos < e { SlashIs(url, pos + 1, e); }
  }

  // ---- reading a URL back ----

  lemma IntTaken(fp: FloatParser, url: string, pos: nat, i: int)
    requires var t := Written(IntValue(i));
             && pos + |t| <= |url| && url[pos..pos + |t|] == t && t != ""
             && (pos + |t| < |url| ==> !IsDigit(url[pos + |t|]))
    requires -0x8000_0000_0000_0000 <= i < 0x8000_0000_0000_0000
    ensures Take(fp, INT, url, pos) == Some((IntValue(i), pos + |Written(IntValue(i))|))
  {
    hide Take, Unsigned, DecimalText.Digits, IsDigit;
    var t := Written(IntValue(i));
    assert url[pos] == url[pos..pos + |t|][0] == t[0];
    if i < 0 {
      var d := DecimalText.Digits(-i);
      assert url[pos + 1..pos + 1 + |d|] == url[pos..pos + |t|][1..] == d;
      DigitsTaken(url, pos + 1, -i);
      MinusTaken(fp, url, pos, i, pos + |t|);
    } else {
      DigitsTaken(url, pos, i);
      PlainTaken(fp, url, pos, i, pos + |t|);
    }
  }

  lemma MinusTaken(fp: FloatParser, url: string, pos: nat, i: int, e: nat)
    requires -0x8000_0000_0000_0000 <= i < 0
    requires pos < |url| && url[pos] == '-' && Unsigned(url, pos + 1) == Some((-i, e))
    ensures Take(fp, INT, url, pos) == Some((IntValue(i), e))
  {
    hide Unsigned;
  }

  lemma PlainTaken(fp: FloatParser, url: string, pos: nat, n: nat, e: nat)
    requires pos < |url| && IsDigit(url[pos]) && Unsigned(url, pos) == Some((n, e)) && n < 0x8000_0000_0000_0000
    ensures Take(fp, INT, url, pos) == Some((IntValue(n), e))
  {
    hide Unsigned;
  }

  /** What a parameter takes from a URL is what was filled in there. */
  lemma TextTaken(fp: FloatParser, f: Filled, url: string, pos: nat, rest: string)
    requires f.Given? && Proper(f, rest) && pos + |Text(f)| <= |url| && url[pos..pos + |Text(f)|] == Text(f)
    requires url[pos + |Text(f)|..] == rest
    ensures Text(f) != "" && Take(fp, f.param, url, pos) == Some((f.value, pos + |Text(f)|))
  {
    var e := pos + |Text(f)|;
    assert e < |url| ==> url[e] == rest[0];
    match f.param {
      case INT => IntTaken(fp, url, pos, f.value.i);
      case UINT => DigitsTaken(url, pos, f.value.u);
      case STRING =>
        forall i | pos <= i < e
          ensures url[i] != '/'
        {
          assert url[i] == Text(f)[i - pos] && Text(f)[i - pos] in Text(f);
        }
        SlashIs(url, pos, e);
      case PATH => assert url[pos..] == url[pos..e];
    }
  }

  /** From any place in it on: the rest of a filled URL matches the rest of its pattern. */
  lemma {:induction false} RestMatches(fp: FloatParser, fs: seq<Filled>, url: string, pos: nat, ps: Params)
    requires AllProper(fs) && pos <= |url| && url[pos..] == Url(fs)
    ensures Extract(fp, Pattern(fs), url, pos, ps) == Some(Values(fs, ps))
    decreases |fs|
  {
    hide Take, Written;
    if fs != [] {
      var f, rest := fs[0], Url(fs[1..]);
      var e := pos + |Text(f)|;
      assert url[pos..] == Text(f) + rest;
      assert url[pos..e] == url[pos..][..|Text(f)|] == Text(f);
      assert url[e..] == url[pos..][|Text(f)|..] == rest;
      if f.Own? {
        assert url[pos] == Text(f)[0];
      } else {
        TextTaken(fp, f, url, pos, rest);
      }
      assert Pattern(fs)[1..] == Pattern(fs[1..]);
      RestMatches(fp, fs[1..], url, e, if f.Own? then ps else Push(ps, f.value));
    }
  }

  /** A URL that was made from a pattern matches it and gives exactly the values that were filled in. */
  lemma UrlRoundTrip(fp: FloatParser, fs: seq<Filled>)
    requires AllProper(fs)
    ensures Extract(fp, Pattern(fs), Url(fs), 0, NO_PARAMS) == Some(Values(fs, NO_PARAMS))
  {
    assert Url(fs)[0..] == Url(fs);
    RestMatches(fp, fs, Url(fs), 0, NO_PARAMS);
  }

  /** The pattern a URL was made from is found, or one of a smaller index that matches too. */
  lemma FilledIsFound(fp: FloatParser, rules: seq<Rule>, fs: seq<Filled>, index: nat)
    requires AllProper(fs) && Rule(Pattern(fs), index) in rules && index != 0
    ensures var o := Scan(fp, rules, Url(fs), 0, NO_PARAMS); o.Found? && o.index <= index
  {
    hide Extract, Scan, AllProper;
    UrlRoundTrip(fp, fs);
    ScanMeans(fp, rules, Url(fs), 0, NO_PARAMS);
    assert Try(fp, Rule(Pattern(fs), index), Url(fs), 0, NO_PARAMS) == Found(index, Values(fs, NO_PARAMS));
  }
}
