/** What the JSON loader makes of a text, and that it reads back what the writer wrote. */
module JsonGrammar {
  import opened DecimalText
  import opened JsonText
  import opened Options
  import opened TextAt

  /** A value that was read. Numbers keep their text. */
  datatype Json =
    | JNull
    | JFalse
    | JTrue
    | JNumber(text: string)
    | JString(s: string)
    | JList(l: seq<Json>)
    | JObject(o: seq<JMember>)

  datatype JMember = JMember(key: string, value: Json)

  const MAX_DEPTH := 10000

  /** The character at a place; the text ends with the character 0. */
  function At(t: string, i: nat): char { if i < |t| then t[i] else '\0' }

  predicate IsSpace(c: char) { c == ' ' || c == '\t' || c == '\r' || c == '\n' }

  function SkipSpace(t: string, i: nat): (r: nat)
    requires i <= |t|
    ensures i <= r <= |t|
    decreases |t| - i
  {
    if i < |t| && IsSpace(t[i]) then SkipSpace(t, i + 1) else i
  }

  // ---- strings ----

  /** Where the string ends whose text begins at `i`. */
  function StringEnd(t: string, i: nat): (r: Option<nat>)
    requires i <= |t|
    ensures r.Some? ==> i <= r.value < |t| && t[r.value] == '"'
    decreases |t| - i
  {
    if At(t, i) == '"' && i < |t| then Some(i)
    else
      var n := UnitLength(t[i..]);
      if n == 0 then None else StringEnd(t, i + n)
  }

  lemma UnitLengthPrefix(s: string, k: nat)
    requires k <= |s| && 0 < UnitLength(s) <= k
    ensures UnitLength(s[..k]) == UnitLength(s)
  {
  }

  lemma {:induction false} StringWellEscaped(t: string, i: nat)
    requires i <= |t| && StringEnd(t, i).Some?
    ensures WellEscaped(t[i..StringEnd(t, i).value])
    decreases |t| - i
  {
    var e := StringEnd(t, i).value;
    if i < e {
      var n := UnitLength(t[i..]);
      StringWellEscaped(t, i + n);
      assert t[i..][..e - i] == t[i..e];
      UnitLengthPrefix(t[i..], e - i);
      assert t[i..e][n..] == t[i + n..e];
    }
  }

  // ---- numbers ----

  datatype NumberState =
    | Minus | AfterMinus | ZeroFirst | InDigits | DigitsAfterPoint | Exponent | DigitsAfterExponent | Invalid

  function AfterZero(st: NumberState): NumberState {
    match st
    case Minus => ZeroFirst
    case AfterMinus => ZeroFirst
    case ZeroFirst => Invalid
    case InDigits => InDigits
    case DigitsAfterPoint => DigitsAfterPoint
    case Exponent => DigitsAfterExponent
    case DigitsAfterExponent => DigitsAfterExponent
    case Invalid => Invalid
  }

  function AfterDigit(st: NumberState): NumberState {
    if st == Minus || st == AfterMinus then InDigits else AfterZero(st)
  }

  function AfterPoint(st: NumberState): NumberState {
    if st == ZeroFirst || st == InDigits then DigitsAfterPoint else Invalid
  }

  function AfterSign(st: NumberState, minus: bool): NumberState {
    if st == Minus && minus then AfterMinus else if st == Exponent then DigitsAfterExponent else Invalid
  }

  function AfterE(st: NumberState): NumberState {
    if st == InDigits || st == DigitsAfterPoint then Exponent else Invalid
  }

  predicate Accepts(st: NumberState) {
    st == ZeroFirst || st == InDigits || st == DigitsAfterPoint || st == DigitsAfterExponent
  }

  /** Where the number ends that is read from `i` on. */
  function NumberEnd(t: string, i: nat, st: NumberState): (r: Option<nat>)
    requires i <= |t|
    ensures r.Some? ==> i <= r.value <= |t|
    decreases |t| - i
  {
    if st == Invalid then None
    else if i == |t| then if Accepts(st) then Some(i) else None
    else if t[i] == '0' then NumberEnd(t, i + 1, AfterZero(st))
    else if '1' <= t[i] <= '9' then NumberEnd(t, DigitsEnd(t, i + 1), AfterDigit(st))
    else if t[i] == '.' then NumberEnd(t, i + 1, AfterPoint(st))
    else if t[i] == '-' || t[i] == '+' then NumberEnd(t, i + 1, AfterSign(st, t[i] == '-'))
    else if t[i] == 'e' || t[i] == 'E' then NumberEnd(t, i + 1, AfterE(st))
    else if Accepts(st) then Some(i) else None
  }

  // ---- values ----

  function ParseWord(t: string, i: nat, word: string, v: Json): (r: Option<(Json, nat)>)
    requires i <= |t| && word != ""
    ensures r.Some? ==> i < r.value.1 <= |t|
  {
    if Holds(t, i, word) then Some((v, i + |word|)) else None
  }

  /** The value at `i`; `d` is the depth at which it stands. */
  function ParseValue(t: string, i: nat, d: nat): (r: Option<(Json, nat)>)
    requires i <= |t|
    ensures r.Some? ==> i < r.value.1 <= |t|
    decreases |t| - i, 1
  {
    if i == |t| then None
    else if t[i] == '[' then
      if d + 1 > MAX_DEPTH then None
      else
        var j := SkipSpace(t, i + 1);
        if At(t, j) == ']' then Some((JList([]), j + 1)) else ParseItems(t, j, d + 1, [])
    else if t[i] == '{' then
      if d + 1 > MAX_DEPTH then None
      else
        var j := SkipSpace(t, i + 1);
        if At(t, j) == '}' then Some((JObject([]), j + 1)) else ParseMembers(t, j, d + 1, [])
    else if t[i] == '"' then
      match StringEnd(t, i + 1)
      case None => None
      case Some(e) =>
        StringWellEscaped(t, i + 1);
        Some((JString(Unescaped(t[i + 1..e])), e + 1))
    else if t[i] == 't' then ParseWord(t, i, "true", JTrue)
    else if t[i] == 'f' then ParseWord(t, i, "false", JFalse)
    else if t[i] == 'n' then ParseWord(t, i, "null", JNull)
    else
      match NumberEnd(t, i, Minus)
      case None => None
      case Some(e) =>
        NumberNotEmpty(t, i);
        Some((JNumber(t[i..e]), e))
  }

  lemma NumberNotEmpty(t: string, i: nat)
    requires i <= |t| && NumberEnd(t, i, Minus).Some?
    ensures i < NumberEnd(t, i, Minus).value
  {
  }

  /** The items of a list from `i` on, after those in `acc`. */
  function ParseItems(t: string, i: nat, d: nat, acc: seq<Json>): (r: Option<(Json, nat)>)
    requires i <= |t|
    ensures r.Some? ==> i < r.value.1 <= |t|
    decreases |t| - i, 2
  {
    match ParseValue(t, i, d + 1)
    case None => None
    case Some((v, e)) =>
      var j := SkipSpace(t, e);
      if At(t, j) == ']' then Some((JList(acc + [v]), j + 1))
      else if At(t, j) == ',' then ParseItems(t, SkipSpace(t, j + 1), d, acc + [v])
      else None
  }

  function ParseMembers(t: string, i: nat, d: nat, acc: seq<JMember>): (r: Option<(Json, nat)>)
    requires i <= |t|
    ensures r.Some? ==> i < r.value.1 <= |t|
    decreases |t| - i, 2
  {
    if At(t, i) != '"' || i == |t| then None
    else
      match StringEnd(t, i + 1)
      case None => None
      case Some(e) =>
        StringWellEscaped(t, i + 1);
        var key := Unescaped(t[i + 1..e]);
        var c := SkipSpace(t, e + 1);
        if At(t, c) != ':' || c == |t| then None
        else
          match ParseValue(t, SkipSpace(t, c + 1), d + 1)
          case None => None
          case Some((v, f)) =>
            var j := SkipSpace(t, f);
            if At(t, j) == '}' then Some((JObject(acc + [JMember(key, v)]), j + 1))
            else if At(t, j) == ',' then ParseMembers(t, SkipSpace(t, j + 1), d, acc + [JMember(key, v)])
            else None
  }

  /** A whole text: one value with spaces around it, up to the end or the first character 0. */
  function Load(t: string): Option<Json> {
    match ParseValue(t, SkipSpace(t, 0), 0)
    case None => None
    case Some((v, e)) => if At(t, SkipSpace(t, e)) == '\0' then Some(v) else None
  }
}
