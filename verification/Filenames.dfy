/** Making a file name harmless: characters are replaced and device names and `..` are cut down
    while the name is scanned. Characters stand for bytes. */
module Filenames {
  const MAX_LENGTH := 255
  const REPLACEMENT := '_'

  function Upper(c: char): char { if 'a' <= c <= 'z' then ((c as int) - 32) as char else c }

  predicate IsSeparator(c: char) { c == '/' || c == '\\' }

  /** Characters that may not be in a file name. */
  predicate IsBad(c: char) {
    c < ' ' || 0x80 <= c as int <= 0x9F || c == '?' || c == '<' || c == '>' || c == ':' || c == '*' || c == '|'
      || c == '"'
  }

  predicate IsFollower(c: char) { c == '.' || c == ':' || IsSeparator(c) }

  /** A reserved name, with a digit after it or not. */
  datatype Pattern = Pattern(name: string, number: bool)

  function Length(p: Pattern): nat { |p.name| + if p.number then 1 else 0 }

  /** The text begins with the reserved name, which ends there or before a dangerous character. */
  predicate Hits(s: string, p: Pattern) {
    && Length(p) <= |s|
    && (forall j :: 0 <= j < |p.name| ==> Upper(s[j]) == p.name[j])
    && (p.number ==> '1' <= s[|p.name|] <= '9')
    && (Length(p) < |s| ==> IsFollower(s[Length(p)]))
  }

  const PATTERNS := [Pattern("AUX", false), Pattern("CON", false), Pattern("COM", true), Pattern("LPT", true),
                     Pattern("NUL", false), Pattern("PRN", false), Pattern("..", false)]

  predicate IsPattern(p: Pattern) { p in PATTERNS }

  /** The component that begins the text is reserved. */
  ghost predicate Dangerous(s: string) {
    exists p :: IsPattern(p) && Hits(s, p)
  }

  // ---- what the result is ----

  function Fix(c: char): char { if IsBad(c) then REPLACEMENT else c }

  /** The rest of a name from inside a component. */
  function Mid(s: string): string
    decreases |s|, 0
  {
    if s == "" then ""
    else if IsSeparator(s[0]) then [s[0]] + Start(s[1..])
    else [Fix(s[0])] + Mid(s[1..])
  }

  /** The rest of a name from the start of a component. */
  function Start(s: string): string
    decreases |s|, 1
  {
    var t := Cut(s, 0);
    Mid(t)
  }

  /** Cuts the component down to one character if it is reserved. */
  function Cut(s: string, k: nat): (t: string)
    requires k <= |PATTERNS|
    ensures |t| <= |s|
    decreases |PATTERNS| - k
  {
    if k == |PATTERNS| then s
    else if Hits(s, PATTERNS[k]) then Cut([REPLACEMENT] + s[Length(PATTERNS[k])..], k + 1)
    else Cut(s, k + 1)
  }

  function Truncated(s: string): string { if |s| > MAX_LENGTH then s[..MAX_LENGTH] else s }

  /** The whole name: a separator at its front is replaced. */
  function Sanitized(s: string): string {
    var t := Truncated(s);
    if t != "" && IsSeparator(t[0]) then [REPLACEMENT] + Mid(t[1..]) else Start(t)
  }

  // ---- what is promised ----

  /** No bad character, and no reserved component after the one that begins the text. */
  ghost predicate CleanMid(s: string)
    decreases |s|, 0
  {
    s != "" ==> !IsBad(s[0]) && if IsSeparator(s[0]) then CleanStart(s[1..]) else CleanMid(s[1..])
  }

  ghost predicate CleanStart(s: string)
    decreases |s|, 1
  {
    !Dangerous(s) && CleanMid(s)
  }

  /** A harmless name. */
  ghost predicate Clean(s: string) {
    |s| <= MAX_LENGTH && (s != "" ==> !IsSeparator(s[0])) && CleanStart(s)
  }

  lemma PatternAt(k: nat)
    requires k < |PATTERNS|
    ensures IsPattern(PATTERNS[k]) && 2 <= |PATTERNS[k].name| <= 3
    ensures forall j :: 0 <= j < |PATTERNS[k].name| ==> PATTERNS[k].name[j] == '.' || 'A' <= PATTERNS[k].name[j] <= 'Z'
  {
    assert PATTERNS[k] in PATTERNS;
  }

  lemma NoName(s: string, p: Pattern)
    requires s != "" && s[0] == REPLACEMENT && IsPattern(p)
    ensures !Hits(s, p)
  {
    var k :| 0 <= k < |PATTERNS| && PATTERNS[k] == p;
    PatternAt(k);
  }

  /** After a cut nothing more is cut, and what is left is not reserved. */
  lemma {:induction false} CutIs(s: string, k: nat)
    requires k <= |PATTERNS| && forall j :: 0 <= j < k ==> !Hits(s, PATTERNS[j])
    ensures !Dangerous(Cut(s, k))
    ensures !Dangerous(s) ==> Cut(s, k) == s
    ensures Cut(s, k) == s
            || exists j :: k <= j < |PATTERNS| && Hits(s, PATTERNS[j])
                           && Cut(s, k) == [REPLACEMENT] + s[Length(PATTERNS[j])..]
    decreases |PATTERNS| - k
  {
    if k < |PATTERNS| {
      PatternAt(k);
      if Hits(s, PATTERNS[k]) {
        CutNone([REPLACEMENT] + s[Length(PATTERNS[k])..], k + 1);
      } else {
        CutIs(s, k + 1);
      }
    } else {
      forall p | IsPattern(p)
        ensures !Hits(s, p)
      {
        var j :| 0 <= j < |PATTERNS| && PATTERNS[j] == p;
      }
    }
  }

  lemma {:induction false} CutNone(s: string, k: nat)
    requires k <= |PATTERNS| && s != "" && s[0] == REPLACEMENT
    ensures Cut(s, k) == s && !Dangerous(s)
    decreases |PATTERNS| - k
  {
    if k < |PATTERNS| {
      PatternAt(k);
      NoName(s, PATTERNS[k]);
      CutNone(s, k + 1);
    }
    forall p | IsPattern(p)
      ensures !Hits(s, p)
    {
      NoName(s, p);
    }
  }

  /** Up to the first separator characters are only fixed. */
  lemma {:induction false} MidPrefix(s: string, m: nat)
    requires m <= |s| && forall j :: 0 <= j < m ==> !IsSeparator(s[j])
    ensures |Mid(s)| >= m && Mid(s)[m..] == Mid(s[m..]) && forall j :: 0 <= j < m ==> Mid(s)[j] == Fix(s[j])
    decreases m
  {
    if m > 0 {
      MidPrefix(s[1..], m - 1);
      assert s[1..][m - 1..] == s[m..];
      assert Mid(s) == [Fix(s[0])] + Mid(s[1..]);
      assert forall j :: 1 <= j < m ==> Mid(s)[j] == Mid(s[1..])[j - 1];
    }
  }

  lemma MidFirst(s: string)
    requires Mid(s) != ""
    ensures s != "" && Mid(s)[0] == (if IsSeparator(s[0]) then s[0] else Fix(s[0]))
    ensures IsSeparator(Mid(s)[0]) <==> IsSeparator(s[0])
  {
  }

  /** Fixing the characters of a component makes no reserved name of it. */
  lemma HitsBefore(s: string, p: Pattern)
    requires IsPattern(p) && Hits(Mid(s), p)
    ensures Hits(s, p)
  {
    var k :| 0 <= k < |PATTERNS| && PATTERNS[k] == p;
    PatternAt(k);
    var t := Mid(s);
    NoSeparator(s, p, 0);
    MidPrefix(s, Length(p));
    forall j | 0 <= j < Length(p)
      ensures t[j] == s[j]
    {
      assert t[j] == Fix(s[j]);
      assert j < |p.name| ==> Upper(t[j]) == p.name[j];
    }
    if Length(p) < |s| {
      var rest := s[Length(p)..];
      assert t[Length(p)..] == Mid(rest);
      assert rest[0] == s[Length(p)];
      MidNonempty(rest);
      assert t[Length(p)] == Mid(rest)[0];
      MidFirst(rest);
    }
  }

  lemma MidNonempty(s: string)
    requires s != ""
    ensures Mid(s) != ""
  {
  }

  /** The characters that a reserved name takes are no separators, before they are fixed either. */
  lemma {:induction false} NoSeparator(s: string, p: Pattern, m: nat)
    requires IsPattern(p) && Hits(Mid(s), p) && m <= Length(p)
    requires m <= |s| && forall j :: 0 <= j < m ==> !IsSeparator(s[j])
    ensures Length(p) <= |s| && forall j :: 0 <= j < Length(p) ==> !IsSeparator(s[j])
    decreases Length(p) - m
  {
    if m < Length(p) {
      MidPrefix(s, m);
      var t := Mid(s);
      assert t[m] == t[m..][0] == Mid(s[m..])[0];
      MidFirst(s[m..]);
      assert s[m..][0] == s[m];
      NoSeparatorIn(t, p, m);
      NoSeparator(s, p, m + 1);
    }
  }

  lemma NoSeparatorIn(t: string, p: Pattern, m: nat)
    requires IsPattern(p) && Hits(t, p) && m < Length(p)
    ensures !IsSeparator(t[m])
  {
    var k :| 0 <= k < |PATTERNS| && PATTERNS[k] == p;
    PatternAt(k);
    assert m < |p.name| ==> Upper(t[m]) == p.name[m];
  }

  lemma {:induction false} MidIsClean(s: string)
    ensures CleanMid(Mid(s)) && |Mid(s)| <= |s|
    decreases |s|, 0
  {
    if s != "" {
      if IsSeparator(s[0]) {
        StartIsClean(s[1..]);
        assert Mid(s)[1..] == Start(s[1..]);
      } else {
        MidIsClean(s[1..]);
        assert Mid(s)[1..] == Mid(s[1..]);
      }
    }
  }

  lemma {:induction false} StartIsClean(s: string)
    ensures CleanStart(Start(s)) && |Start(s)| <= |s|
    decreases |s|, 1
  {
    var t := Cut(s, 0);
    CutIs(s, 0);
    MidIsClean(t);
    forall p | IsPattern(p)
      ensures !Hits(Mid(t), p)
    {
      if Hits(Mid(t), p) { HitsBefore(t, p); }
    }
  }

  lemma {:induction false} MidKeepsClean(s: string)
    requires CleanMid(s)
    ensures Mid(s) == s
    decreases |s|, 0
  {
    hide Start, CleanStart, IsSeparator;
    if s != "" {
      if IsSeparator(s[0]) { StartKeepsClean(s[1..]); } else { MidKeepsClean(s[1..]); }
      assert s == [s[0]] + s[1..];
    }
  }

  lemma {:induction false} StartKeepsClean(s: string)
    requires CleanStart(s)
    ensures Start(s) == s
    decreases |s|, 1
  {
    CutIs(s, 0);
    MidKeepsClean(s);
  }

  /** The result is always harmless. */
  lemma SanitizedIsClean(s: string)
    ensures Clean(Sanitized(s))
  {
    var t := Truncated(s);
    if t != "" && IsSeparator(t[0]) {
      MidIsClean(t[1..]);
      var r := [REPLACEMENT] + Mid(t[1..]);
      assert r[1..] == Mid(t[1..]);
      CutNone(r, 0);
    } else {
      StartIsClean(t);
      StartFirst(t);
    }
  }

  lemma StartFirst(t: string)
    requires t == "" || !IsSeparator(t[0])
    ensures Start(t) == "" || !IsSeparator(Start(t)[0])
  {
    CutIs(t, 0);
  }

  /** A name is left as it is exactly if it is harmless; so a second pass changes nothing. */
  lemma UnchangedIffClean(s: string)
    ensures Sanitized(s) == s <==> Clean(s)
    ensures Sanitized(Sanitized(s)) == Sanitized(s)
  {
    SanitizedIsClean(s);
    CleanIsKept(Sanitized(s));
    if Clean(s) { CleanIsKept(s); }
  }

  lemma CleanIsKept(s: string)
    requires Clean(s)
    ensures Sanitized(s) == s
  {
    StartKeepsClean(s);
  }

  /** What harmless means: no bad character anywhere, and no component that is reserved. */
  lemma {:induction false} CleanMeans(s: string, i: nat)
    requires CleanMid(s) && i < |s|
    ensures !IsBad(s[i]) && (IsSeparator(s[i]) ==> !Dangerous(s[i + 1..]))
    decreases |s|
  {
    if i > 0 {
      CleanMeans(s[1..], i - 1);
      assert s[1..][i..] == s[i + 1..];
    }
  }

  // ---- the scan ----

  /** Compares the name at `ofs` with a reserved one and erases it if it is. */
  method SanitizeSpecialFile(source: string, ofs: nat, p: Pattern) returns (r: string)
    requires ofs < |source| && p.name != ""
    ensures r == if Hits(source[ofs..], p) then source[..ofs] + ([REPLACEMENT] + source[ofs..][Length(p)..]) else source
  {
    ghost var s := source[ofs..];
    var i, k := ofs, 0;
    while k < |p.name|
      invariant k <= |p.name| && i == ofs + k <= |source|
      invariant forall j :: 0 <= j < k ==> Upper(s[j]) == p.name[j]
    {
      if i >= |source| || Upper(source[i]) != p.name[k] { return source; }
      assert s[k] == source[i];
      i, k := i + 1, k + 1;
    }
    if p.number {
      assert i < |source| ==> s[k] == source[i];
      if i >= |source| || source[i] < '1' || source[i] > '9' { return source; }
      i := i + 1;
    }
    assert i < |source| ==> s[Length(p)] == source[i];
    if i >= |source| || IsFollower(source[i]) {
      assert s[Length(p)..] == source[i..];
      return source[..ofs] + ([REPLACEMENT] + source[i..]);
    }
    return source;
  }

  /** Looks at the names that begin like the component at `i`. */
  method CheckSpecial(source: string, i: nat) returns (r: string)
    requires i < |source|
    ensures r == source[..i] + Cut(source[i..], 0)
  {
    hide Hits, Cut;
    r := source;
    var s := source[i..];
    CutByFirst(s);
    assert source == source[..i] + s;
    match Upper(source[i]) {
      case 'A' => r := SanitizeSpecialFile(r, i, Pattern("AUX", false));
      case 'C' =>
        r := SanitizeSpecialFile(r, i, Pattern("CON", false));
        assert r[i..] == CutOne(s, Pattern("CON", false)) && r[..i] == source[..i];
        r := SanitizeSpecialFile(r, i, Pattern("COM", true));
      case 'L' => r := SanitizeSpecialFile(r, i, Pattern("LPT", true));
      case 'N' => r := SanitizeSpecialFile(r, i, Pattern("NUL", false));
      case 'P' => r := SanitizeSpecialFile(r, i, Pattern("PRN", false));
      case '.' => r := SanitizeSpecialFile(r, i, Pattern("..", false));
      case _ =>
    }
  }

  function CutOne(s: string, p: Pattern): (t: string)
    ensures s != "" ==> t != ""
  {
    if Hits(s, p) then [REPLACEMENT] + s[Length(p)..] else s
  }

  lemma CutNext(s: string, k: nat)
    requires k <= |PATTERNS|
    ensures Cut(s, k) == if k == |PATTERNS| then s else Cut(CutOne(s, PATTERNS[k]), k + 1)
  {
    hide Hits;
  }

  /** A name that begins differently does not match. */
  lemma OtherFirst(s: string, p: Pattern)
    requires s != "" && p.name != "" && Upper(s[0]) != p.name[0]
    ensures CutOne(s, p) == s
  {
  }

  lemma OneFirst(s: string, p: Pattern)
    requires s != "" && p.name != ""
    ensures Upper(CutOne(s, p)[0]) == Upper(s[0]) || Upper(CutOne(s, p)[0]) == REPLACEMENT
  {
  }

  /** Cuts down the names from `k` on that begin with another letter: nothing. */
  lemma {:induction false} CutOthers(s: string, k: nat, m: nat)
    requires s != "" && k <= m <= |PATTERNS|
    requires forall j :: k <= j < m ==> PATTERNS[j].name != "" && Upper(s[0]) != PATTERNS[j].name[0]
    ensures Cut(s, k) == Cut(s, m)
    decreases m - k
  {
    if k < m {
      CutNext(s, k);
      OtherFirst(s, PATTERNS[k]);
      CutOthers(s, k + 1, m);
    }
  }

  /** Only the reserved names that begin with the same letter can match. */
  lemma CutByFirst(s: string)
    requires s != ""
    ensures var c := Upper(s[0]);
            Cut(s, 0) ==
            if c == 'A' then CutOne(s, Pattern("AUX", false))
            else if c == 'C' then CutOne(CutOne(s, Pattern("CON", false)), Pattern("COM", true))
            else if c == 'L' then CutOne(s, Pattern("LPT", true))
            else if c == 'N' then CutOne(s, Pattern("NUL", false))
            else if c == 'P' then CutOne(s, Pattern("PRN", false))
            else if c == '.' then CutOne(s, Pattern("..", false))
            else s
  {
    hide Hits, Cut, CutOne, Upper;
    var c := Upper(s[0]);
    if c == 'A' {
      CutAt(s, 0);
    } else if c == 'C' {
      CutTwice(s);
    } else if c == 'L' {
      CutAt(s, 3);
    } else if c == 'N' {
      CutAt(s, 4);
    } else if c == 'P' {
      CutAt(s, 5);
    } else if c == '.' {
      CutAt(s, 6);
    } else {
      CutOthers(s, 0, 7);
      CutNext(s, 7);
    }
  }

  /** Two reserved names begin with the same letter. */
  lemma CutTwice(s: string)
    requires s != "" && Upper(s[0]) == 'C'
    ensures Cut(s, 0) == CutOne(CutOne(s, Pattern("CON", false)), Pattern("COM", true))
  {
    hide Hits, Cut, CutOne, Upper;
    CutOthers(s, 0, 1);
    CutNext(s, 1);
    var t := CutOne(s, PATTERNS[1]);
    OneFirst(s, PATTERNS[1]);
    CutNext(t, 2);
    OneFirst(t, PATTERNS[2]);
    CutOthers(CutOne(t, PATTERNS[2]), 3, 7);
    CutNext(CutOne(t, PATTERNS[2]), 7);
  }

  /** Only one reserved name begins like this one. */
  lemma CutAt(s: string, k: nat)
    requires s != "" && k < |PATTERNS| && k != 1 && k != 2 && Upper(s[0]) == PATTERNS[k].name[0]
    ensures Cut(s, 0) == CutOne(s, PATTERNS[k])
  {
    hide Hits, Cut, CutOne;
    CutOthers(s, 0, k);
    CutNext(s, k);
    var t := CutOne(s, PATTERNS[k]);
    OneFirst(s, PATTERNS[k]);
    CutOthers(t, k + 1, 7);
    CutNext(t, 7);
  }

  /** What is still to come at the start of a component or inside one. */
  function Rest(check: bool, s: string): string { if check then Start(s) else Mid(s) }

  /** One character of the scan, after the reserved names were looked at. */
  lemma ScanStep(done: string, t: string, target: string)
    requires t != "" && done + Mid(t) == target
    ensures IsSeparator(t[0]) ==> done + [t[0]] + Rest(true, t[1..]) == target
    ensures !IsSeparator(t[0]) ==> done + [Fix(t[0])] + Rest(false, t[1..]) == target
  {
  }

  /** What the scan is to make of the characters from `i` on. */
  predicate Due(data: string, i: nat, check: bool, target: string)
    requires i <= |data|
  {
    if i == 0 then
      check && data != "" && target == if IsSeparator(data[0]) then [REPLACEMENT] + Mid(data[1..]) else Start(data)
    else data[..i] + Rest(check, data[i..]) == target
  }

  /** Looks at one character, and before it at the reserved names if a component starts with it. */
  method ScanOne(input: string, i: nat, startOfComponent: bool, ghost target: string) returns (data: string,
      check: bool)
    requires i < |input| && Due(input, i, startOfComponent, target)
    ensures i < |data| <= |input| && Due(data, i + 1, check, target)
  {
    hide Cut, Mid, Start;
    data, check := input, startOfComponent;
    ghost var done, s := input[..i], input[i..];
    if check {
      check := false;
      CutStart(s);
      data := CheckSpecial(data, i);
    }
    ghost var t := data[i..];
    assert data == done + t && t[0] == data[i];
    assert i == 0 ==> s == input && done == "" && done + Mid(t) == Mid(t);
    var c := data[i];
    if IsBad(c) {
      ScanStep(done, t, target);
      data := data[i := REPLACEMENT];
      assert data[..i + 1] == done + [Fix(c)] && data[i + 1..] == t[1..];
    } else if IsSeparator(c) {
      if i == 0 {
        data := data[i := REPLACEMENT];
        assert data[..i + 1] == [REPLACEMENT] && data[i + 1..] == input[1..];
      } else {
        ScanStep(done, t, target);
        check := true;
        assert data[..i + 1] == done + [c] && data[i + 1..] == t[1..];
      }
    } else {
      ScanStep(done, t, target);
      assert data[..i + 1] == done + [Fix(c)] && data[i + 1..] == t[1..];
    }
  }

  // ---- the names, spelled out ----

  /** The text begins with this word in any case, at its end or before a dot, a colon or a separator. */
  predicate BeginsWith(s: string, word: string) {
    && |word| <= |s| && (forall j :: 0 <= j < |word| ==> s[j] == word[j] || Upper(s[j]) == word[j])
    && (|word| < |s| ==> s[|word|] in {'.', ':', '/', '\\'})
  }

  /** The characters that are replaced, and the names that are cut down. */
  lemma SpelledOut(s: string)
    ensures forall c: char :: IsBad(c) <==>
              c as int < 32 || 128 <= c as int < 160 || c in {'?', '<', '>', ':', '*', '|', '"'}
    ensures forall c: char :: IsSeparator(c) <==> c in {'/', '\\'}
    ensures Dangerous(s) <==>
            || BeginsWith(s, "AUX") || BeginsWith(s, "CON") || BeginsWith(s, "NUL") || BeginsWith(s, "PRN")
            || BeginsWith(s, "..")
            || (exists d :: '1' <= d <= '9' && (BeginsWith(s, "COM" + [d]) || BeginsWith(s, "LPT" + [d])))
    ensures REPLACEMENT == '_' && MAX_LENGTH == 255
  {
    FixedNames(s);
    NumberedNames(s, "COM");
    NumberedNames(s, "LPT");
    hide Hits, BeginsWith;
    AllPatterns(s);
  }

  lemma AllPatterns(s: string)
    ensures Dangerous(s) <==>
            || Hits(s, Pattern("AUX", false)) || Hits(s, Pattern("CON", false)) || Hits(s, Pattern("COM", true))
            || Hits(s, Pattern("LPT", true)) || Hits(s, Pattern("NUL", false)) || Hits(s, Pattern("PRN", false))
            || Hits(s, Pattern("..", false))
  {
    hide Hits;
    assert IsPattern(Pattern("AUX", false)) && IsPattern(Pattern("CON", false)) && IsPattern(Pattern("COM", true));
    assert IsPattern(Pattern("LPT", true)) && IsPattern(Pattern("NUL", false)) && IsPattern(Pattern("PRN", false));
    assert IsPattern(Pattern("..", false));
  }

  lemma OneName(s: string, word: string)
    requires forall j :: 0 <= j < |word| ==> 'A' <= word[j] <= 'Z' || word[j] == '.'
    ensures Hits(s, Pattern(word, false)) <==> BeginsWith(s, word)
  {
  }

  lemma FixedNames(s: string)
    ensures Hits(s, Pattern("AUX", false)) <==> BeginsWith(s, "AUX")
    ensures Hits(s, Pattern("CON", false)) <==> BeginsWith(s, "CON")
    ensures Hits(s, Pattern("NUL", false)) <==> BeginsWith(s, "NUL")
    ensures Hits(s, Pattern("PRN", false)) <==> BeginsWith(s, "PRN")
    ensures Hits(s, Pattern("..", false)) <==> BeginsWith(s, "..")
  {
    hide Hits, BeginsWith;
    OneName(s, "AUX");
    OneName(s, "CON");
    OneName(s, "NUL");
    OneName(s, "PRN");
    OneName(s, "..");
  }

  lemma NumberedNames(s: string, word: string)
    requires forall j :: 0 <= j < |word| ==> 'A' <= word[j] <= 'Z'
    ensures Hits(s, Pattern(word, true)) <==> exists d :: '1' <= d <= '9' && BeginsWith(s, word + [d])
  {
    if Hits(s, Pattern(word, true)) {
      assert BeginsWith(s, word + [s[|word|]]);
    }
    if d :| '1' <= d <= '9' && BeginsWith(s, word + [d]) {
      assert (word + [d])[|word|] == d;
      assert forall j :: 0 <= j < |word| ==> (word + [d])[j] == word[j];
    }
  }

  /** No component is reserved. */
  ghost predicate NoneReserved(s: string) {
    !Dangerous(s) && forall i :: 0 < i <= |s| && IsSeparator(s[i - 1]) ==> !Dangerous(s[i..])
  }

  /** In a name without reserved components that is short and does not begin with a separator only the bad
      characters are replaced, and nothing else changes. */
  lemma OnlyBadReplaced(s: string)
    requires |s| <= 255 && NoneReserved(s) && (s != "" ==> !IsSeparator(s[0]))
    ensures |Sanitized(s)| == |s|
    ensures forall i :: 0 <= i < |s| ==> Sanitized(s)[i] == if IsBad(s[i]) then '_' else s[i]
  {
    hide Dangerous, IsBad;
    CutIs(s, 0);
    MidReplaces(s);
  }

  lemma {:induction false} MidReplaces(s: string)
    requires forall i :: 0 < i <= |s| && IsSeparator(s[i - 1]) ==> !Dangerous(s[i..])
    ensures |Mid(s)| == |s| && forall i :: 0 <= i < |s| ==> Mid(s)[i] == if IsBad(s[i]) then '_' else s[i]
    decreases |s|
  {
    if s != "" {
      var rest := s[1..];
      forall i | 0 < i <= |rest| && IsSeparator(rest[i - 1])
        ensures !Dangerous(rest[i..])
      {
        assert rest[i..] == s[i + 1..] && s[i] == rest[i - 1];
      }
      MidReplaces(rest);
      if IsSeparator(s[0]) {
        assert !Dangerous(s[1..]);
        CutIs(rest, 0);
        SeparatorFine(s[0]);
      }
      assert forall i :: 0 < i < |s| ==> s[i] == rest[i - 1];
      hide Dangerous, IsBad, IsSeparator;
    }
  }

  lemma SeparatorFine(c: char)
    requires IsSeparator(c)
    ensures !IsBad(c)
  {
  }

  /** Makes a name harmless. */
  method SanitizeFilename(input: string) returns (data: string)
    ensures data == Sanitized(input) && Clean(data)
    ensures Clean(input) ==> data == input
  {
    hide Clean, Due;
    data := if |input| > MAX_LENGTH then input[..MAX_LENGTH] else input;
    ghost var target := Sanitized(input);
    SanitizedIsClean(input);
    UnchangedIffClean(input);
    var check, i := true, 0;
    ScanStarts(input);
    while i < |data|
      invariant i <= |data| && (data != "" || i > 0 ==> Due(data, i, check, target))
      invariant data == "" ==> i == 0 && target == ""
      decreases |data| - i
    {
      data, check := ScanOne(data, i, check, target);
      i := i + 1;
    }
    if data != "" { ScanEnds(data, check, target); }
  }

  lemma ScanStarts(input: string)
    ensures var t := Truncated(input);
            if t == "" then Sanitized(input) == "" else Due(t, 0, true, Sanitized(input))
  {
    if Truncated(input) == "" { CutIs("", 0); }
  }

  lemma ScanEnds(data: string, check: bool, target: string)
    requires data != "" && Due(data, |data|, check, target)
    ensures data == target
  {
    CutIs("", 0);
    assert data[..|data|] == data && data[|data|..] == "";
  }

  lemma CutStart(s: string)
    requires s != ""
    ensures Start(s) == Mid(Cut(s, 0)) && Cut(s, 0) != "" && |Cut(s, 0)| <= |s|
    ensures IsSeparator(Cut(s, 0)[0]) <==> IsSeparator(s[0])
    ensures IsSeparator(s[0]) ==> Cut(s, 0) == s
  {
    CutIs(s, 0);
  }
}
