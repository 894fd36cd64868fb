/** URL patterns and what it means for a URL to match one. */
module RoutePatterns {
  import opened Options

  datatype ParamType = INT | UINT | DOUBLE | STRING | PATH

  /** One step of a pattern: a character of its own, or a parameter. */
  datatype Tok = Lit(c: char) | Tag(param: ParamType)

  datatype Value = IntValue(i: int) | UintValue(u: nat) | DoubleValue(d: real) | StringValue(s: string)

  /** The parameters of a match, one list for each type. */
  datatype Params = Params(ints: seq<int>, uints: seq<nat>, doubles: seq<real>, strings: seq<string>)

  const NO_PARAMS := Params([], [], [], [])

  function Push(ps: Params, v: Value): Params {
    match v
    case IntValue(i) => ps.(ints := ps.ints + [i])
    case UintValue(u) => ps.(uints := ps.uints + [u])
    case DoubleValue(d) => ps.(doubles := ps.doubles + [d])
    case StringValue(s) => ps.(strings := ps.strings + [s])
  }

  /** The parser of floating point numbers: it reads a nonempty prefix or nothing. */
  type FloatParser = f: (string, nat) -> Option<(real, nat)>
    | forall u: string, p: nat :: f(u, p).Some? ==> p < f(u, p).value.1 <= |u|
    witness (u, p) => None

  predicate IsDigit(c: char) { '0' <= c <= '9' }

  function DigitValue(c: char): nat
    requires IsDigit(c)
  {
    c as int - '0' as int
  }

  /** Where the digits that begin at `pos` end. */
  function DigitsEnd(url: string, pos: nat): (e: nat)
    requires pos <= |url|
    ensures pos <= e <= |url|
    decreases |url| - pos
  {
    if pos < |url| && IsDigit(url[pos]) then DigitsEnd(url, pos + 1) else pos
  }

  function Decimal(url: string, pos: nat, end: nat): nat
    requires pos <= end <= |url| && (forall i :: pos <= i < end ==> IsDigit(url[i]))
    decreases end - pos
  {
    if pos == end then 0 else Decimal(url, pos, end - 1) * 10 + DigitValue(url[end - 1])
  }

  lemma DigitsAre(url: string, pos: nat)
    requires pos <= |url|
    ensures forall i :: pos <= i < DigitsEnd(url, pos) ==> IsDigit(url[i])
    decreases |url| - pos
  {
    if pos < |url| && IsDigit(url[pos]) { DigitsAre(url, pos + 1); }
  }

  function Unsigned(url: string, pos: nat): (r: Option<(nat, nat)>)
    requires pos <= |url|
    ensures r.Some? ==> pos < r.value.1 <= |url|
  {
    var e := DigitsEnd(url, pos);
    DigitsAre(url, pos);
    if e == pos then None else Some((Decimal(url, pos, e), e))
  }

  /** `strtoll` and `strtoull` in base 10: an optional sign, digits, and a range check. */
  function Strtoll(url: string, pos: nat): (r: Option<(int, nat)>)
    requires pos < |url|
    ensures r.Some? ==> pos < r.value.1 <= |url|
  {
    var signed := url[pos] == '+' || url[pos] == '-';
    match Unsigned(url, if signed then pos + 1 else pos)
    case None => None
    case Some((n, e)) =>
      var v: int := if url[pos] == '-' then 0 - n else n;
      if -0x8000_0000_0000_0000 <= v < 0x8000_0000_0000_0000 then Some((v, e)) else None
  }

  function Strtoull(url: string, pos: nat): (r: Option<(nat, nat)>)
    requires pos < |url|
    ensures r.Some? ==> pos < r.value.1 <= |url|
  {
    match Unsigned(url, if url[pos] == '+' then pos + 1 else pos)
    case None => None
    case Some((n, e)) => if n < 0x1_0000_0000_0000_0000 then Some((n, e)) else None
  }

  /** Where the path component that begins at `pos` ends. */
  function SlashFrom(url: string, pos: nat): (e: nat)
    requires pos <= |url|
    ensures pos <= e <= |url| && (forall i :: pos <= i < e ==> url[i] != '/') && (e < |url| ==> url[e] == '/')
    decreases |url| - pos
  {
    if pos < |url| && url[pos] != '/' then SlashFrom(url, pos + 1) else pos
  }

  /** What parameter `p` takes from the URL at `pos`, and where it stops. */
  function Take(fp: FloatParser, p: ParamType, url: string, pos: nat): (r: Option<(Value, nat)>)
    requires pos < |url|
    ensures r.Some? ==> pos < r.value.1 <= |url|
  {
    var c := url[pos];
    match p
    case INT =>
      if !IsDigit(c) && c != '+' && c != '-' then None
      else (match Strtoll(url, pos) case None => None case Some((v, e)) => Some((IntValue(v), e)))
    case UINT =>
      if !IsDigit(c) && c != '+' then None
      else (match Strtoull(url, pos) case None => None case Some((v, e)) => Some((UintValue(v), e)))
    case DOUBLE =>
      if !IsDigit(c) && c != '+' && c != '-' && c != '.' then None
      else (match fp(url, pos) case None => None case Some((v, e)) => Some((DoubleValue(v), e)))
    case STRING =>
      var e := SlashFrom(url, pos);
      if e == pos then None else Some((StringValue(url[pos..e]), e))
    case PATH => Some((StringValue(url[pos..]), |url|))
  }

  /** Matches the rest of a URL against the rest of a pattern, adding to `ps`. */
  function Extract(fp: FloatParser, toks: seq<Tok>, url: string, pos: nat, ps: Params): Option<Params>
    requires pos <= |url|
    decreases |toks|
  {
    if toks == [] then if pos == |url| then Some(ps) else None
    else if pos == |url| then None
    else
      match toks[0]
      case Lit(c) => if url[pos] == c then Extract(fp, toks[1..], url, pos + 1, ps) else None
      case Tag(p) =>
        match Take(fp, p, url, pos)
        case None => None
        case Some((v, e)) => Extract(fp, toks[1..], url, e, Push(ps, v))
  }

  // ---- rules ----

  /** A pattern and its index; index 0 stands for no rule. */
  datatype Rule = Rule(toks: seq<Tok>, index: nat)

  datatype Outcome = NotFound | Found(index: nat, params: Params)

  /** The smaller index wins; of two equal ones the first. */
  function Better(a: Outcome, b: Outcome): Outcome {
    if b.NotFound? then a
    else if a.NotFound? then b
    else if a.index > b.index then b else a
  }

  function Try(fp: FloatParser, rule: Rule, url: string, pos: nat, ps: Params): Outcome
    requires pos <= |url|
  {
    var m := Extract(fp, rule.toks, url, pos, ps);
    if rule.index != 0 && m.Some? then Found(rule.index, m.value) else NotFound
  }

  /** The linear scan over a list of rules. */
  function Scan(fp: FloatParser, rules: seq<Rule>, url: string, pos: nat, ps: Params): Outcome
    requires pos <= |url|
  {
    if rules == [] then NotFound
    else Better(Scan(fp, rules[..|rules| - 1], url, pos, ps), Try(fp, rules[|rules| - 1], url, pos, ps))
  }

  lemma {:induction false} ScanAppend(fp: FloatParser, a: seq<Rule>, b: seq<Rule>, url: string, pos: nat, ps: Params)
    requires pos <= |url|
    ensures Scan(fp, a + b, url, pos, ps) == Better(Scan(fp, a, url, pos, ps), Scan(fp, b, url, pos, ps))
    decreases |b|
  {
    if b == [] {
      assert a + b == a;
    } else {
      var n := |b| - 1;
      assert (a + b)[..|a + b| - 1] == a + b[..n];
      ScanAppend(fp, a, b[..n], url, pos, ps);
    }
  }

  /** What the scan finds matches and has the smallest index of all that match, and it finds
      something as soon as any rule matches. */
  lemma {:induction false} ScanMeans(fp: FloatParser, rules: seq<Rule>, url: string, pos: nat, ps: Params)
    requires pos <= |url|
    ensures var o := Scan(fp, rules, url, pos, ps);
            && (o.Found? ==> o.index != 0 && exists rule :: rule in rules && Try(fp, rule, url, pos, ps) == o)
            && (forall rule :: rule in rules && Try(fp, rule, url, pos, ps).Found? ==>
              o.Found? && o.index <= rule.index)
  {
    if rules != [] {
      var n := |rules| - 1;
      ScanMeans(fp, rules[..n], url, pos, ps);
      assert forall rule :: rule in rules <==> rule in rules[..n] || rule == rules[n];
    }
  }

  /** Every rule of a list with `toks` put in front. */
  function Prepend(toks: seq<Tok>, rules: seq<Rule>): (r: seq<Rule>)
    ensures |r| == |rules|
    ensures forall i :: 0 <= i < |r| ==> r[i] == Rule(toks + rules[i].toks, rules[i].index)
  {
    seq(|rules|, i requires 0 <= i < |rules| => Rule(toks + rules[i].toks, rules[i].index))
  }

  lemma PrependTwice(a: seq<Tok>, b: seq<Tok>, rules: seq<Rule>)
    ensures Prepend(a, Prepend(b, rules)) == Prepend(a + b, rules)
  {
    forall i | 0 <= i < |rules|
      ensures Prepend(a, Prepend(b, rules))[i] == Prepend(a + b, rules)[i]
    {
      assert a + (b + rules[i].toks) == a + b + rules[i].toks;
    }
  }

  /** A step in front of all rules decides for all of them where to go on. */
  lemma {:induction false} ScanTag(fp: FloatParser, p: ParamType, rules: seq<Rule>, url: string, pos: nat, ps: Params)
    requires pos < |url|
    ensures Scan(fp, Prepend([Tag(p)], rules), url, pos, ps) ==
            match Take(fp, p, url, pos)
            case None => NotFound
            case Some((v, e)) => Scan(fp, rules, url, e, Push(ps, v))
  {
    hide Take;
    if rules != [] {
      var n := |rules| - 1;
      assert Prepend([Tag(p)], rules)[..n] == Prepend([Tag(p)], rules[..n]);
      ScanTag(fp, p, rules[..n], url, pos, ps);
      assert ([Tag(p)] + rules[n].toks)[1..] == rules[n].toks;
    }
  }

  /** The characters of a key, as steps. */
  function Lits(key: string): (r: seq<Tok>)
    ensures |r| == |key| && forall i :: 0 <= i < |key| ==> r[i] == Lit(key[i])
  {
    seq(|key|, i requires 0 <= i < |key| => Lit(key[i]))
  }

  lemma {:induction false} ExtractLits(fp: FloatParser, key: string, toks: seq<Tok>, url: string, pos: nat, ps: Params)
    requires pos <= |url| && key != []
    ensures Extract(fp, Lits(key) + toks, url, pos, ps) ==
            if pos + |key| <= |url| && url[pos..pos + |key|] == key then Extract(fp, toks, url, pos + |key|, ps)
                else None
    decreases |key|
  {
    hide Take;
    var all := Lits(key) + toks;
    if pos < |url| {
      assert all[1..] == Lits(key[1..]) + toks;
      if url[pos] != key[0] {
        assert pos + |key| <= |url| ==> url[pos..pos + |key|][0] != key[0];
      } else if |key| == 1 {
        assert Lits(key[1..]) + toks == toks;
        assert url[pos..pos + 1] == key;
      } else {
        ExtractLits(fp, key[1..], toks, url, pos + 1, ps);
        if pos + |key| <= |url| {
          assert url[pos..pos + |key|] == [url[pos]] + url[pos + 1..pos + |key|];
          assert key == [key[0]] + key[1..];
          assert url[pos + 1..pos + |key|] == key[1..] <==> url[pos..pos + |key|] == key;
        }
      }
    }
  }

  lemma {:induction false} ScanKey(fp: FloatParser, key: string, rules: seq<Rule>, url: string, pos: nat, ps: Params)
    requires pos <= |url| && key != []
    ensures Scan(fp, Prepend(Lits(key), rules), url, pos, ps) ==
            if pos + |key| <= |url| && url[pos..pos + |key|] == key then Scan(fp, rules, url, pos + |key|, ps)
                else NotFound
    decreases |rules|
  {
    hide Take;
    if rules != [] {
      var n := |rules| - 1;
      assert Prepend(Lits(key), rules)[..n] == Prepend(Lits(key), rules[..n]);
      ScanKey(fp, key, rules[..n], url, pos, ps);
      ExtractLits(fp, key, rules[n].toks, url, pos, ps);
    }
  }
}
