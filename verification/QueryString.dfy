/** Query strings: cut into pieces at `&`, with the value of each piece decoded in the buffer
    itself. The buffer ends with the character 0. */
module QueryString {
  import opened Options
  import opened Sequences

  predicate IsHex(c: char) { '0' <= c <= '9' || 'A' <= c <= 'F' || 'a' <= c <= 'f' }

  function HexValue(c: char): (n: nat)
    requires IsHex(c)
    ensures n < 16
  {
    if '0' <= c <= '9' then c as int - 48 else if 'A' <= c <= 'F' then c as int - 55 else c as int - 87
  }

  /** A character that can stand inside a key or a value. */
  predicate IsQsChar(c: char) { c != '=' && c != '#' && c != '&' && c != '\0' }

  // ---- what the pieces are ----

  /** Where the piece ends that begins at `i`. */
  function PieceEnd(t: string, i: nat): (e: nat)
    requires i <= |t|
    ensures i <= e <= |t| && (forall j :: i <= j < e ==> t[j] != '&') && (e < |t| ==> t[e] == '&')
    decreases |t| - i
  {
    if i == |t| || t[i] == '&' then i else PieceEnd(t, i + 1)
  }

  /** Where the first `max` pieces begin, from position `i` on. */
  function Starts(t: string, i: nat, max: nat): seq<nat>
    requires i <= |t|
    decreases max
  {
    if max == 0 then []
    else
      var e := PieceEnd(t, i);
      [i] + if e == |t| then [] else Starts(t, e + 1, max - 1)
  }

  function Piece(t: string, i: nat): string
    requires i <= |t|
  {
    t[i..PieceEnd(t, i)]
  }

  /** The length of a piece's key. */
  function KeyLength(piece: string): (k: nat)
    ensures k <= |piece| && (forall j :: 0 <= j < k ==> piece[j] != '=' && piece[j] != '#')
    ensures k < |piece| ==> piece[k] == '=' || piece[k] == '#'
  {
    if piece == "" || piece[0] == '=' || piece[0] == '#' then 0
    else
      var k := KeyLength(piece[1..]);
      assert forall j :: 1 <= j <= k && j < |piece| ==> piece[j] == piece[1..][j - 1];
      1 + k
  }

  function KeyText(piece: string): string { piece[..KeyLength(piece)] }

  /** The value that a text stands for: up to another `=` or `#`, or an escape that is none. */
  function Decoded(s: string): string {
    if s == "" || s[0] == '=' || s[0] == '#' then ""
    else if s[0] == '+' then " " + Decoded(s[1..])
    else if s[0] == '%' then
      if |s| >= 3 && IsHex(s[1])
          && IsHex(s[2]) then [(HexValue(s[1]) * 16 + HexValue(s[2])) as char] + Decoded(s[3..]) else ""
    else [s[0]] + Decoded(s[1..])
  }

  /** How many characters of the text are decoded. */
  function Consumed(s: string): (n: nat)
    ensures n <= |s|
  {
    if s == "" || s[0] == '=' || s[0] == '#' then 0
    else if s[0] == '%' then
      if |s| >= 3 && IsHex(s[1]) && IsHex(s[2]) then 3 + Consumed(s[3..]) else 0
    else 1 + Consumed(s[1..])
  }

  lemma {:induction false} DecodedFits(s: string)
    ensures |Decoded(s)| <= Consumed(s)
    decreases |s|
  {
    if s == "" || s[0] == '=' || s[0] == '#' {
    } else if s[0] == '%' {
      if |s| >= 3 && IsHex(s[1]) && IsHex(s[2]) { DecodedFits(s[3..]); }
    } else {
      DecodedFits(s[1..]);
    }
  }

  /** What a piece is turned into. */
  function Final(piece: string): string {
    var k := KeyLength(piece);
    if k == |piece| then piece else piece[..k + 1] + Decoded(piece[k + 1..])
  }

  lemma FinalFits(piece: string)
    ensures |Final(piece)| <= |piece|
  {
    var k := KeyLength(piece);
    if k < |piece| { DecodedFits(piece[k + 1..]); }
  }

  // ---- the buffer ----

  /** The text `s` stands at position `p` of the buffer, with its end mark. */
  ghost predicate Slot(buf: array<char>, p: nat, s: string)
    reads buf
  {
    && p + |s| < buf.Length
    && (forall i :: 0 <= i < |s| ==> buf[p + i] == s[i])
    && buf[p + |s|] == '\0'
  }

  /** Decodes the text that begins at `p`; `s` is this text up to the end of its piece. */
  method QsDecode(buf: array<char>, p: nat, ghost s: string) returns (length: nat)
    requires p + |s| < buf.Length && (forall i :: 0 <= i < |s| ==> buf[p + i] == s[i])
    requires '&' !in s && '\0' !in s && (buf[p + |s|] == '&' || buf[p + |s|] == '\0')
    modifies buf
    ensures length == |Decoded(s)| && Slot(buf, p, Decoded(s))
    ensures buf[p + |s|] == old(buf[p + |s|]) || buf[p + |s|] == '\0'
    ensures forall i :: 0 <= i < p || p + |s| < i < buf.Length ==> buf[i] == old(buf[i])
  {
    hide Decoded;
    var i, j := 0, 0;
    ghost var done: string := "";
    assert s[0..] == s;
    while IsQsChar(buf[p + j])
      invariant i <= j <= |s| && |done| == i
      invariant forall k :: 0 <= k < p || p + j <= k < buf.Length ==> buf[k] == old(buf[k])
      invariant forall k :: 0 <= k < i ==> buf[p + k] == done[k]
      invariant done + Decoded(s[j..]) == Decoded(s)
      decreases |s| - j
    {
      assert j < |s| ==> old(buf[p + j]) == s[j];
      assert j + 1 < |s| ==> old(buf[p + (j + 1)]) == s[j + 1];
      assert j + 2 < |s| ==> old(buf[p + (j + 2)]) == s[j + 2];
      DecodeStep(s, j);
      if buf[p + j] == '%' && (!IsHex(buf[p + j + 1]) || !IsHex(buf[p + j + 2])) {
        assert done + "" == done;
        buf[p + i] := '\0';
        return i;
      }
      var c := if buf[p + j] == '+' then ' '
               else if buf[p + j] == '%' then (HexValue(buf[p + j + 1]) * 16 + HexValue(buf[p + j + 2])) as char
               else buf[p + j];
      if buf[p + j] == '%' { j := j + 2; }
      buf[p + i] := c;
      i, j := i + 1, j + 1;
      Associate(done, [c], Decoded(s[j..]));
      done := done + [c];
    }
    assert j < |s| ==> old(buf[p + j]) == s[j];
    DecodeStep(s, j);
    assert done + "" == done;
    buf[p + i] := '\0';
    return i;
  }

  /** One character or escape of a text. */
  lemma DecodeStep(s: string, j: nat)
    requires j <= |s|
    ensures Decoded(s[j..]) ==
            if j == |s| || s[j] == '=' || s[j] == '#' then ""
            else if s[j] == '+' then " " + Decoded(s[j + 1..])
            else if s[j] == '%' then
              if j + 2 < |s| && IsHex(s[j + 1]) && IsHex(s[j + 2]) then
                [(HexValue(s[j + 1]) * 16 + HexValue(s[j + 2])) as char] + Decoded(s[j + 3..])
              else ""
            else [s[j]] + Decoded(s[j + 1..])
  {
    assert j < |s| ==> s[j..][1..] == s[j + 1..];
    assert j + 2 < |s| ==> s[j..][3..] == s[j + 3..];
  }

  // ---- cutting ----

  /** The first place from `i` on that holds `a`, `b`, `c` or the end mark. */
  method Strcspn(buf: array<char>, i: nat, a: char, b: char, c: char) returns (r: nat)
    requires i < buf.Length && buf[buf.Length - 1] == '\0'
    ensures i <= r < buf.Length
    ensures forall k :: i <= k < r ==> buf[k] != a && buf[k] != b && buf[k] != c && buf[k] != '\0'
    ensures buf[r] == a || buf[r] == b || buf[r] == c || buf[r] == '\0'
  {
    r := i;
    while buf[r] != a && buf[r] != b && buf[r] != c && buf[r] != '\0'
      invariant i <= r < buf.Length
      invariant forall k :: i <= k < r ==> buf[k] != a && buf[k] != b && buf[k] != c && buf[k] != '\0'
      decreases buf.Length - r
    {
      r := r + 1;
    }
  }

  lemma {:induction false} PieceEndIs(t: string, i: nat, e: nat)
    requires i <= e <= |t| && (forall j :: i <= j < e ==> t[j] != '&') && (e < |t| ==> t[e] == '&')
    ensures PieceEnd(t, i) == e
    decreases e - i
  {
    if i < e { PieceEndIs(t, i + 1, e); }
  }

  /** Finds where the pieces begin. */
  method FindPieces(buf: array<char>, first: nat, max: nat, ghost t: string) returns (kv: seq<nat>)
    requires buf.Length == |t| + 1 && buf[|t|] == '\0' && '\0' !in t && first <= |t|
    requires forall i :: 0 <= i < |t| ==> buf[i] == t[i]
    ensures kv == Starts(t, first, max)
  {
    hide Starts, PieceEnd;
    kv := [];
    var at: nat, i: nat := first, 0;
    while i < max
      invariant i <= max && at <= |t| && kv + Starts(t, at, max - i) == Starts(t, first, max)
    {
      var j := Strcspn(buf, at, '&', '&', '&');
      EndFound(buf, t, at, j);
      StartsStep(t, at, max - i, kv);
      kv := kv + [at];
      if buf[j] == '\0' { return; }
      at := j + 1;
      i := i + 1;
    }
    StartsNone(t, at, kv);
  }

  lemma EndFound(buf: array<char>, t: string, at: nat, j: nat)
    requires buf.Length == |t| + 1 && buf[|t|] == '\0' && '\0' !in t && at <= j <= |t|
    requires forall i :: 0 <= i < |t| ==> buf[i] == t[i]
    requires (forall k :: at <= k < j ==> buf[k] != '&') && (buf[j] == '&' || buf[j] == '\0')
    ensures PieceEnd(t, at) == j && (buf[j] == '\0' <==> j == |t|)
  {
    assert j < |t| ==> t[j] in t;
    PieceEndIs(t, at, j);
  }

  lemma StartsStep(t: string, at: nat, n: nat, kv: seq<nat>)
    requires at <= |t| && n > 0
    ensures var e := PieceEnd(t, at);
            kv + Starts(t, at, n) == if e == |t| then kv + [at] else kv + [at] + Starts(t, e + 1, n - 1)
  {
    hide PieceEnd;
    var e := PieceEnd(t, at);
    var rest := if e == |t| then [] else Starts(t, e + 1, n - 1);
    assert Starts(t, at, n) == [at] + rest;
    hide Starts;
    Associate2(kv, [at], rest);
  }

  lemma Associate2<T>(a: seq<T>, b: seq<T>, c: seq<T>)
    ensures a + (b + c) == a + b + c && (c == [] ==> a + b + c == a + b)
  {
  }

  lemma StartsNone(t: string, at: nat, kv: seq<nat>)
    requires at <= |t|
    ensures kv + Starts(t, at, 0) == kv
  {
  }

  lemma {:induction false} KeyLengthIs(piece: string, k: nat)
    requires k <= |piece| && (forall j :: 0 <= j < k ==> piece[j] != '=' && piece[j] != '#')
    requires k < |piece| ==> piece[k] == '=' || piece[k] == '#'
    ensures KeyLength(piece) == k
    decreases k
  {
    if k > 0 { KeyLengthIs(piece[1..], k - 1); }
  }

  /** Decodes the value of one piece; nothing outside of the piece and its end changes. */
  method DecodePiece(buf: array<char>, p: nat, ghost t: string)
    requires buf.Length == |t| + 1 && buf[|t|] == '\0' && '\0' !in t && p <= |t|
    requires forall i :: p <= i < |t| ==> buf[i] == t[i]
    modifies buf
    ensures Slot(buf, p, Final(Piece(t, p))) && buf[|t|] == '\0'
    ensures forall i :: 0 <= i < p || PieceEnd(t, p) < i < buf.Length ==> buf[i] == old(buf[i])
  {
    hide Decoded, PieceEnd, KeyLength, Slot, Final, Piece;
    ghost var piece := Piece(t, p);
    PieceIs(t, p);
    var at := Strcspn(buf, p, '=', '&', '#');
    KeyFound(buf, t, p, at);
    FinalIs(piece, at - p);
    if buf[at] == '&' || buf[at] == '\0' {
      buf[at] := '\0';
      SlotIs(buf, p, piece);
    } else {
      ghost var rest := piece[at - p + 1..];
      assert forall i :: 0 <= i < |rest| ==> rest[i] == t[at + 1 + i];
      NoSeparatorIn(piece, at - p + 1);
      ghost var length := QsDecode(buf, at + 1, rest);
      SlotJoin(buf, p, piece[..at - p + 1], Decoded(rest));
    }
  }

  lemma FinalIs(piece: string, k: nat)
    requires KeyLength(piece) == k
    ensures k == |piece| ==> Final(piece) == piece
    ensures k < |piece| ==> Final(piece) == piece[..k + 1] + Decoded(piece[k + 1..])
  {
    hide Decoded;
  }

  lemma PieceIs(t: string, p: nat)
    requires p <= |t| && '\0' !in t
    ensures var piece := Piece(t, p);
            && |piece| == PieceEnd(t, p) - p && (forall i :: 0 <= i < |piece| ==> piece[i] == t[p + i])
            && '&' !in piece && '\0' !in piece
  {
    var piece := Piece(t, p);
    forall i | 0 <= i < |piece|
      ensures piece[i] == t[p + i] && piece[i] != '&' && piece[i] != '\0'
    {
      assert t[p + i] in t;
    }
  }

  lemma NoSeparatorIn(s: string, i: nat)
    requires i <= |s| && '&' !in s && '\0' !in s
    ensures '&' !in s[i..] && '\0' !in s[i..]
  {
  }

  /** The end of the key is where the piece has its first separator, or where it ends. */
  lemma KeyFound(buf: array<char>, t: string, p: nat, at: nat)
    requires buf.Length == |t| + 1 && buf[|t|] == '\0' && '\0' !in t && p <= at <= |t|
    requires forall i :: p <= i < |t| ==> buf[i] == t[i]
    requires forall k :: p <= k < at ==> buf[k] != '=' && buf[k] != '&' && buf[k] != '#' && buf[k] != '\0'
    requires buf[at] == '=' || buf[at] == '&' || buf[at] == '#' || buf[at] == '\0'
    ensures at <= PieceEnd(t, p) && KeyLength(Piece(t, p)) == at - p
    ensures buf[at] == '&' || buf[at] == '\0' <==> at == PieceEnd(t, p)
  {
    var e := PieceEnd(t, p);
    PieceIs(t, p);
    assert at < |t| ==> t[at] in t;
    assert at <= e;
    KeyLengthIs(Piece(t, p), at - p);
  }

  lemma SlotIs(buf: array<char>, p: nat, s: string)
    requires p + |s| < buf.Length && (forall i :: 0 <= i < |s| ==> buf[p + i] == s[i]) && buf[p + |s|] == '\0'
    ensures Slot(buf, p, s)
  {
  }

  lemma SlotJoin(buf: array<char>, p: nat, s: string, d: string)
    requires p + |s| <= buf.Length && (forall i :: 0 <= i < |s| ==> buf[p + i] == s[i]) && Slot(buf, p + |s|, d)
    ensures Slot(buf, p, s + d)
  {
    forall i | 0 <= i < |s + d|
      ensures buf[p + i] == (s + d)[i]
    {
      if i >= |s| { assert buf[p + |s| + (i - |s|)] == d[i - |s|]; }
    }
  }

  // ---- the whole string ----

  /** The pieces begin one after the other, each after the end of the one before. */
  ghost predicate InOrder(t: string, kv: seq<nat>) {
    && (forall k :: 0 <= k < |kv| ==> kv[k] <= |t|)
    && (forall k, m :: 0 <= k < m < |kv| ==> PieceEnd(t, kv[k]) < kv[m])
  }

  lemma {:induction false} StartsInOrder(t: string, i: nat, max: nat)
    requires i <= |t|
    ensures InOrder(t, Starts(t, i, max)) && forall k :: 0 <= k < |Starts(t, i, max)| ==> i <= Starts(t, i, max)[k]
    ensures max > 0 ==> Starts(t, i, max) != [] && Starts(t, i, max)[0] == i
    decreases max
  {
    hide PieceEnd;
    if max > 0 {
      var e := PieceEnd(t, i);
      if e < |t| {
        var rest := Starts(t, e + 1, max - 1);
        StartsInOrder(t, e + 1, max - 1);
        assert Starts(t, i, max) == [i] + rest;
        hide Starts;
        OneBefore(t, i, rest);
      }
    }
  }

  lemma OneBefore(t: string, i: nat, rest: seq<nat>)
    requires i <= |t| && InOrder(t, rest) && forall k :: 0 <= k < |rest| ==> PieceEnd(t, i) < rest[k]
    ensures InOrder(t, [i] + rest) && forall k :: 0 <= k < |[i] + rest| ==> i <= ([i] + rest)[k]
  {
    hide PieceEnd;
    var kv := [i] + rest;
    forall k | 0 <= k < |kv|
      ensures i <= kv[k] <= |t|
    {
      if k > 0 { assert kv[k] == rest[k - 1] && PieceEnd(t, i) < rest[k - 1]; }
    }
    forall k, m | 0 <= k < m < |kv|
      ensures PieceEnd(t, kv[k]) < kv[m]
    {
      assert kv[m] == rest[m - 1] && (k > 0 ==> kv[k] == rest[k - 1]);
    }
  }

  /** Where the query begins: after the first `?` or `#`. */
  function QueryStart(t: string, i: nat): (q: nat)
    requires i <= |t|
    ensures i <= q <= |t| + 1
    decreases |t| - i
  {
    if i == |t| then |t| + 1 else if t[i] == '?' || t[i] == '#' then i + 1 else QueryStart(t, i + 1)
  }

  /** Cuts the query of a URL, or a whole text, into at most `max` pieces and decodes their values. Every
      piece ends as its key, its separator and its decoded value, with an end mark; what stands before
      the query stays. */
  method QsParse(buf: array<char>, max: nat, parseUrl: bool, ghost t: string) returns (kv: seq<nat>)
    requires buf.Length == |t| + 1 && buf[..|t|] == t && buf[|t|] == '\0' && '\0' !in t
    modifies buf
    ensures var q := if parseUrl then QueryStart(t, 0) else 0;
            && kv == (if q > |t| then [] else Starts(t, q, max))
            && (forall k :: 0 <= k < |kv| ==> kv[k] <= |t| && Slot(buf, kv[k], Final(Piece(t, kv[k]))))
            && (forall i :: 0 <= i < q && i < buf.Length ==> buf[i] == old(buf[i]))
            && buf[|t|] == '\0'
  {
    hide PieceEnd, Starts, Slot, Final, QueryStart;
    assert forall i :: 0 <= i < |t| ==> buf[i] == buf[..|t|][i] == t[i];
    var first := 0;
    if parseUrl {
      first := Strcspn(buf, 0, '?', '#', '#');
      QueryFound(buf, t, first);
      if buf[first] == '\0' { return []; }
      first := first + 1;
    }
    kv := FindPieces(buf, first, max, t);
    StartsInOrder(t, first, max);
    var j := 0;
    while j < |kv|
      invariant j <= |kv|
      invariant forall k :: 0 <= k < j ==> Slot(buf, kv[k], Final(Piece(t, kv[k])))
      invariant j < |kv| ==> forall i :: kv[j] <= i < |t| ==> buf[i] == t[i]
      invariant buf[|t|] == '\0' && forall i :: 0 <= i < first ==> buf[i] == old(buf[i])
    {
      SlotsSeen(buf, kv, j, t);
      ghost var before := buf[..];
      DecodePiece(buf, kv[j], t);
      SlotsKept(buf, before, kv, j, t);
      j := j + 1;
    }
  }

  /** The same of a copy of the buffer. */
  ghost predicate SlotIn(b: string, p: nat, s: string) {
    p + |s| < |b| && (forall i :: 0 <= i < |s| ==> b[p + i] == s[i]) && b[p + |s|] == '\0'
  }

  lemma SlotsSeen(buf: array<char>, kv: seq<nat>, j: nat, t: string)
    requires j <= |kv| && forall k :: 0 <= k < j ==> kv[k] <= |t| && Slot(buf, kv[k], Final(Piece(t, kv[k])))
    ensures forall k :: 0 <= k < j ==> SlotIn(buf[..], kv[k], Final(Piece(t, kv[k])))
  {
    hide Final, Piece;
  }

  /** Decoding a piece disturbs none of the pieces before it. */
  lemma SlotsKept(buf: array<char>, before: string, kv: seq<nat>, j: nat, t: string)
    requires j < |kv| && buf.Length == |before| && InOrder(t, kv)
    requires forall k :: 0 <= k < j ==> SlotIn(before, kv[k], Final(Piece(t, kv[k])))
    requires kv[j] <= buf.Length && forall i :: 0 <= i < kv[j] ==> buf[i] == before[i]
    ensures forall k :: 0 <= k < j ==> Slot(buf, kv[k], Final(Piece(t, kv[k])))
  {
    hide Final, PieceEnd;
    forall k | 0 <= k < j
      ensures Slot(buf, kv[k], Final(Piece(t, kv[k])))
    {
      FinalFits(Piece(t, kv[k]));
    }
  }

  lemma {:induction false} QueryIs(t: string, i: nat, q: nat)
    requires i <= q <= |t| && (forall k :: i <= k < q ==> t[k] != '?' && t[k] != '#')
    requires q < |t| ==> t[q] == '?' || t[q] == '#'
    ensures QueryStart(t, i) == q + 1
    decreases q - i
  {
    if i < q { QueryIs(t, i + 1, q); }
  }

  lemma QueryFound(buf: array<char>, t: string, q: nat)
    requires buf.Length == |t| + 1 && buf[|t|] == '\0' && '\0' !in t && q <= |t|
    requires forall i :: 0 <= i < |t| ==> buf[i] == t[i]
    requires forall k :: 0 <= k < q ==> buf[k] != '?' && buf[k] != '#'
    requires buf[q] == '?' || buf[q] == '#' || buf[q] == '\0'
    ensures QueryStart(t, 0) == q + 1 && (buf[q] == '\0' <==> q == |t|)
  {
    assert q < |t| ==> t[q] in t;
    QueryIs(t, 0, q);
  }

  // ---- comparing keys ----

  /** The character of a text, or the mark at its end. */
  function At(t: string, i: nat): char { if i < |t| then t[i] else '\0' }

  /** What the comparison makes of the next three characters: a separator counts as the character 0, and so
      does a bad escape. */
  function Unit(c: char, upper: char, lower: char): char {
    if !IsQsChar(c) then '\0'
    else if c == '+' then ' '
    else if c == '%' then
      if IsHex(upper) && IsHex(lower) then (HexValue(upper) * 16 + HexValue(lower)) as char else '\0'
    else c
  }

  function First(t: string): char { Unit(At(t, 0), At(t, 1), At(t, 2)) }

  /** What is left after the first unit, if there is one. */
  function Rest(t: string): (r: string)
    requires First(t) != '\0'
    ensures |r| < |t|
  {
    if t[0] == '%' then t[3..] else t[1..]
  }

  /** The characters that a text stands for, up to its end or a character that counts as 0. */
  function Meaning(t: string): string
    decreases |t|
  {
    if First(t) == '\0' then "" else [First(t)] + Meaning(Rest(t))
  }

  /** The meaning goes to the end of the text or to a separator. */
  predicate Ended(t: string)
    decreases |t|
  {
    if First(t) == '\0' then !IsQsChar(At(t, 0)) else Ended(Rest(t))
  }

  /** A text without separators and escapes. */
  predicate Simple(t: string) { forall i :: 0 <= i < |t| ==> IsQsChar(t[i]) && t[i] != '%' }

  /** A key is taken to be the same as a text with the same meaning; only a simple key makes sure that the
      text has come to its end. */
  predicate SameMeaning(key: string, text: string) {
    Meaning(key) == Meaning(text) && (Simple(key) ==> Ended(text))
  }

  function Peek(buf: array<char>, i: nat): char
    reads buf
  {
    if i < buf.Length then buf[i] else '\0'
  }

  /** Compares a key with the key that stands at `p`; 0 means that they are the same. The source reads the
      two characters after a percent sign whatever they are, so for a text that ends in a percent sign it
      reads one character beyond the end mark; this character does not change the answer. */
  method QsStrncmp(key: string, buf: array<char>, p: nat, ghost text: string) returns (r: int)
    requires '\0' !in key && p + |text| < buf.Length && (forall i :: 0 <= i < |text| ==> buf[p + i] == text[i])
    requires (forall i :: 0 <= i < |text| ==> IsQsChar(text[i])) && !IsQsChar(buf[p + |text|])
    ensures r == 0 <==> SameMeaning(key, text)
  {
    hide Unit, Meaning, Ended, Simple, First;
    var qs: nat, n: nat, s: nat := p, |key|, 0;
    ghost var at: nat := 0;
    assert text[0..] == text && key[0..] == key;
    NoMeaning();
    while n > 0
      invariant s <= |key| <= s + n && qs == p + at && at <= |text|
      invariant s + n == |key| <==> Simple(key[..s])
      invariant Simple(key) ==> Simple(key[..s])
      invariant SameMeaning(key, text) <==>
                Meaning(key[s..]) == Meaning(text[at..]) && (Simple(key) ==> Ended(text[at..]))
    {
      n := n - 1;
      FirstInBuffer(buf, p, text, at);
      UnitsCompared(key, s, text, at);
      var u1 := Unit(At(key, s), At(key, s + 1), At(key, s + 2));
      var u2 := Unit(Peek(buf, qs), Peek(buf, qs + 1), Peek(buf, qs + 2));
      if u1 != u2 { return u1 as int - u2 as int; }
      if u1 == '\0' {
        StopNotSimple(key, s);
        return 0;
      }
      SimpleStep(key, s);
      s := s + if At(key, s) == '%' then 3 else 1;
      qs := qs + if Peek(buf, qs) == '%' then 3 else 1;
      at := qs - p;
    }
    assert key[..s] == key && key[s..] == "";
    FirstInBuffer(buf, p, text, at);
    EndSeen(text, at);
    if IsQsChar(Peek(buf, qs)) { return -1; }
    return 0;
  }

  lemma NoMeaning()
    ensures Meaning("") == "" && Simple("")
  {
  }

  /** The meanings of two rests, unit by unit. */
  lemma UnitsCompared(key: string, s: nat, text: string, at: nat)
    requires s <= |key| && at <= |text|
    ensures var u1 := Unit(At(key, s), At(key, s + 1), At(key, s + 2));
            var u2 := Unit(At(text, at), At(text, at + 1), At(text, at + 2));
            var same := Meaning(key[s..]) == Meaning(text[at..]);
            if u1 != u2 then !same
            else if u1 == '\0' then same
            else
              && s < |key| && at < |text| && (key[s] == '%' ==> s + 3 <= |key|)
              && (text[at] == '%' ==> at + 3 <= |text|)
              && var j, k := s + if key[s] == '%' then 3 else 1, at + if text[at] == '%' then 3 else 1;
                 (same <==> Meaning(key[j..]) == Meaning(text[k..])) && (Ended(text[at..]) <==> Ended(text[k..]))
  {
    hide Unit, Meaning, Ended, First;
    FirstAt(key, s);
    FirstAt(text, at);
    var m1, m2 := Meaning(key[s..]), Meaning(text[at..]);
    if m1 != "" && m2 != "" {
      assert m1[0] == First(key[s..]) && m2[0] == First(text[at..]);
      assert m1[1..] == Meaning(key[s + if key[s] == '%' then 3 else 1..]);
      assert m2[1..] == Meaning(text[at + if text[at] == '%' then 3 else 1..]);
    }
  }

  lemma EndSeen(text: string, at: nat)
    requires at <= |text| && forall i :: 0 <= i < |text| ==> IsQsChar(text[i])
    ensures Meaning(text[at..]) == "" && Ended(text[at..]) <==> at == |text|
  {
    if at < |text| { assert text[at..][0] == text[at]; }
  }

  /** The first unit of a rest, and what the meaning is made of. */
  lemma FirstAt(t: string, i: nat)
    requires i <= |t|
    ensures First(t[i..]) == Unit(At(t, i), At(t, i + 1), At(t, i + 2))
    ensures First(t[i..]) == '\0' ==> Meaning(t[i..]) == ""
    ensures First(t[i..]) != '\0' ==>
              && i < |t| && (t[i] == '%' ==> i + 3 <= |t|)
              && var j := i + if t[i] == '%' then 3 else 1;
                 Meaning(t[i..]) == [First(t[i..])] + Meaning(t[j..]) && (Ended(t[i..]) <==> Ended(t[j..]))
  {
    var u := t[i..];
    assert forall k: nat :: At(u, k) == At(t, i + k);
    if First(u) != '\0' {
      assert Rest(u) == if t[i] == '%' then t[i + 3..] else t[i + 1..];
    }
  }

  /** In the buffer the separator after the text stops an escape as the end of the text does. */
  lemma FirstInBuffer(buf: array<char>, p: nat, text: string, at: nat)
    requires at <= |text| && p + |text| < buf.Length && (forall i :: 0 <= i < |text| ==> buf[p + i] == text[i])
    requires !IsQsChar(buf[p + |text|])
    ensures Unit(Peek(buf, p + at), Peek(buf, p + at + 1), Peek(buf, p + at + 2)) ==
            Unit(At(text, at), At(text, at + 1), At(text, at + 2))
    ensures IsQsChar(Peek(buf, p + at)) <==> IsQsChar(At(text, at))
    ensures at < |text| ==> Peek(buf, p + at) == At(text, at)
  {
    assert at < |text| ==> buf[p + at] == text[at];
    assert at + 1 < |text| ==> buf[p + (at + 1)] == text[at + 1];
    assert at + 2 < |text| ==> buf[p + (at + 2)] == text[at + 2];
  }

  /** The counter runs short only over a simple key, and such a key has no unit that counts as 0. */
  lemma StopNotSimple(key: string, s: nat)
    requires s <= |key| && '\0' !in key && Unit(At(key, s), At(key, s + 1), At(key, s + 2)) == '\0'
    requires s == |key| ==> !Simple(key[..s])
    ensures !Simple(key)
  {
    if s == |key| { assert key[..s] == key; }
  }

  lemma SimpleStep(key: string, s: nat)
    requires s < |key|
    requires key[s] == '%' ==> s + 3 <= |key|
    requires Unit(At(key, s), At(key, s + 1), At(key, s + 2)) != '\0'
    ensures var j := s + if key[s] == '%' then 3 else 1;
            && (Simple(key[..j]) <==> Simple(key[..s]) && key[s] != '%')
            && (Simple(key) ==> key[s] != '%')
  {
    assert IsQsChar(key[s]);
    var j := s + if key[s] == '%' then 3 else 1;
    assert key[..j][s] == key[s];
    assert forall i :: 0 <= i < s ==> key[..j][i] == key[..s][i];
  }

  predicate Matches(piece: string, key: string) { SameMeaning(key, KeyText(piece)) }

  /** A text without escapes stands for itself, with spaces for its plus signs. */
  function Spaced(t: string): (r: string)
    ensures |r| == |t|
  {
    seq(|t|, i requires 0 <= i < |t| => if t[i] == '+' then ' ' else t[i])
  }

  lemma {:induction false} SimpleMeaning(t: string, more: string)
    requires Simple(t)
    ensures Meaning(t + more) == Spaced(t) + Meaning(more)
    decreases |t|
  {
    hide Unit;
    if t == "" {
      assert t + more == more && Spaced(t) + Meaning(more) == Meaning(more);
    } else {
      var c := t[0];
      SimpleUnit(c, At(t + more, 1), At(t + more, 2));
      assert (t + more)[1..] == t[1..] + more;
      SimpleMeaning(t[1..], more);
      assert Spaced(t) == [Unit(c, 'x', 'x')] + Spaced(t[1..]);
      assert Spaced(t) + Meaning(more) == [Unit(c, 'x', 'x')] + (Spaced(t[1..]) + Meaning(more));
    }
  }

  lemma SimpleUnit(c: char, upper: char, lower: char)
    requires IsQsChar(c) && c != '%'
    ensures Unit(c, upper, lower) == Unit(c, 'x', 'x') == (if c == '+' then ' ' else c) != '\0'
  {
  }

  /** A key is cut off at a separator in it, and then also finds keys that go on with a bad escape. */
  lemma KeyCutOff(key: string, c: char, more: string, piece: string)
    requires Simple(key) && !IsQsChar(c)
    ensures Matches(piece, key) <==> Meaning(KeyText(piece)) == Spaced(key) && Ended(KeyText(piece))
    ensures Matches(piece, key + [c] + more) <==> Meaning(KeyText(piece)) == Spaced(key)
  {
    hide Ended, KeyText;
    var whole := key + [c] + more;
    assert whole == key + ([c] + more) && key + "" == key;
    SimpleMeaning(key, "");
    SimpleMeaning(key, [c] + more);
    assert Meaning([c] + more) == "" && Meaning("") == "";
    assert whole[|key|] == c;
  }

  /** The piece that is the `nth` one from `i` on with this key. */
  function Nth(pieces: seq<string>, key: string, i: nat, nth: nat): (r: Option<nat>)
    requires i <= |pieces|
    ensures r.Some? ==> r.value < |pieces| && Matches(pieces[r.value], key)
    decreases |pieces| - i
  {
    if i == |pieces| then None
    else if !Matches(pieces[i], key) then Nth(pieces, key, i + 1, nth)
    else if nth == 0 then Some(i)
    else Nth(pieces, key, i + 1, nth - 1)
  }

  /** What is found in a decoded piece: what stands after its first `=`, and nothing if the end comes
      before. */
  function Found(f: string): string {
    if f == "" || f[0] == '\0' then "" else if f[0] == '=' then f[1..] else Found(f[1..])
  }

  /** A piece with an `=` after its key has the decoded value, a piece that is all key has none. */
  lemma FoundMeans(piece: string)
    requires IsPiece(piece)
    ensures var k := KeyLength(piece);
            && (k < |piece| && piece[k] == '=' ==> Found(Final(piece)) == Decoded(piece[k + 1..]))
            && (k == |piece| ==> Found(Final(piece)) == "")
  {
    var k := KeyLength(piece);
    var f := Final(piece);
    hide Decoded, KeyLength;
    forall i | 0 <= i < k
      ensures f[i] != '=' && f[i] != '\0'
    {
      assert f[i] == piece[i] && piece[i] in piece;
    }
    FoundAt(f, k);
  }

  lemma {:induction false} FoundAt(f: string, k: nat)
    requires k <= |f| && (forall i :: 0 <= i < k ==> f[i] != '=' && f[i] != '\0')
    ensures k < |f| && f[k] == '=' ==> Found(f) == f[k + 1..]
    ensures k == |f| || f[k] == '\0' ==> Found(f) == ""
    decreases k
  {
    if k > 0 {
      FoundAt(f[1..], k - 1);
    }
  }

  predicate IsPiece(piece: string) { '&' !in piece && '\0' !in piece }

  /** The key of a piece in the buffer, and what ends it. */
  lemma KeyInBuffer(buf: array<char>, p: nat, piece: string)
    requires Slot(buf, p, Final(piece)) && IsPiece(piece)
    ensures var k := KeyLength(piece);
            && p + k < buf.Length && (forall i :: 0 <= i < k ==> buf[p + i] == KeyText(piece)[i])
            && !IsQsChar(buf[p + k])
    ensures forall i :: 0 <= i < KeyLength(piece) ==> IsQsChar(KeyText(piece)[i])
  {
    hide Decoded;
    var k := KeyLength(piece);
    var f := Final(piece);
    forall i | 0 <= i < k
      ensures buf[p + i] == piece[i] && IsQsChar(piece[i])
    {
      assert f[i] == piece[i] && piece[i] in piece;
    }
    if k < |piece| { assert buf[p + k] == f[k] == piece[k]; }
  }

  /** Where the scan for `=` stops, and what stands after it. */
  lemma FoundInBuffer(buf: array<char>, p: nat, f: string, skip: nat)
    requires Slot(buf, p, f) && p <= skip < buf.Length
    requires forall k :: p <= k < skip ==> buf[k] != '=' && buf[k] != '\0'
    requires buf[skip] == '=' || buf[skip] == '\0'
    ensures Slot(buf, if buf[skip] == '=' then skip + 1 else skip, Found(f))
  {
    var k := skip - p;
    assert k <= |f|;
    forall i | 0 <= i < k
      ensures f[i] != '=' && f[i] != '\0'
    {
      assert buf[p + i] == f[i];
    }
    FoundAt(f, k);
    assert k < |f| ==> buf[p + k] == f[k];
    if buf[skip] == '=' {
      var d := f[k + 1..];
      forall i | 0 <= i < |d|
        ensures buf[skip + 1 + i] == d[i]
      {
        assert buf[p + (k + 1 + i)] == f[k + 1 + i];
      }
    }
  }

  /** What became of the pieces in the buffer. */
  ghost predicate Parsed(buf: array<char>, kv: seq<nat>, pieces: seq<string>)
    reads buf
  {
    && |kv| == |pieces| && buf.Length > 0 && buf[buf.Length - 1] == '\0'
    && forall i :: 0 <= i < |kv| ==> IsPiece(pieces[i]) && Slot(buf, kv[i], Final(pieces[i]))
  }

  /** Finds the value of the `nth` piece that has a key. */
  method QsK2v(key: string, buf: array<char>, kv: seq<nat>, start: nat,
      ghost pieces: seq<string>) returns (r: Option<nat>)
    requires '\0' !in key && Parsed(buf, kv, pieces)
    ensures match Nth(pieces, key, 0, start)
            case None => r == None
            case Some(k) => r.Some? && Slot(buf, r.value, Found(Final(pieces[k])))
  {
    hide Slot, Final, KeyLength, Matches, IsPiece, Found;
    var nth := start;
    var i := 0;
    while i < |kv|
      invariant 0 <= nth && i <= |kv| && Nth(pieces, key, i, nth) == Nth(pieces, key, 0, start)
    {
      var c := Compare(key, buf, kv[i], pieces[i]);
      if c == 0 {
        var skip := Strcspn(buf, kv[i], '=', '=', '=');
        FoundInBuffer(buf, kv[i], Final(pieces[i]), skip);
        if buf[skip] == '=' { skip := skip + 1; }
        if nth == 0 { return Some(skip); }
        nth := nth - 1;
      }
      i := i + 1;
    }
    return None;
  }

  /** Compares with the key of a piece. */
  method Compare(key: string, buf: array<char>, p: nat, ghost piece: string) returns (r: int)
    requires '\0' !in key && IsPiece(piece) && Slot(buf, p, Final(piece))
    ensures p < buf.Length && (r == 0 <==> Matches(piece, key))
  {
    hide Slot, Final, KeyLength, SameMeaning;
    KeyInBuffer(buf, p, piece);
    r := QsStrncmp(key, buf, p, KeyText(piece));
  }

  // ---- from the query to the value ----

  const MAX_PAIRS: nat := 256

  /** The pieces of the query of a URL, or of a whole text. */
  function Pieces(t: string, url: bool): seq<string> {
    var q := if url then QueryStart(t, 0) else 0;
    if t == "" || q > |t| then []
    else
      var kv := Starts(t, q, MAX_PAIRS);
      StartsInOrder(t, q, MAX_PAIRS);
      seq(|kv|, i requires 0 <= i < |kv| => Piece(t, kv[i]))
  }

  class Query {
    var url: array<char>
    var kv: seq<nat>

    /** The pieces are in the buffer, decoded. */
    ghost predicate Holds(pieces: seq<string>)
      reads this, url
    {
      Parsed(url, kv, pieces)
    }

    /** Takes over a text, which is cut into pieces. */
    constructor (buf: array<char>, isUrl: bool, ghost t: string)
      requires buf.Length == |t| + 1 && buf[..|t|] == t && buf[|t|] == '\0' && '\0' !in t
      modifies buf
      ensures url == buf && Holds(Pieces(t, isUrl))
    {
      hide Slot, Final, PieceEnd, Starts;
      var starts := [];
      if buf.Length > 1 { starts := QsParse(buf, MAX_PAIRS, isUrl, t); }
      url, kv := buf, starts;
    }

    /** The value of the first piece that has this key. */
    method Get(name: string, ghost pieces: seq<string>) returns (r: Option<nat>)
      requires Holds(pieces) && '\0' !in name
      ensures match Nth(pieces, name, 0, 0)
              case None => r == None
              case Some(k) => r.Some? && Slot(url, r.value, Found(Final(pieces[k])))
    {
      r := QsK2v(name, url, kv, 0, pieces);
    }

    /** The values of all pieces that have this key. */
    method GetList(name: string, useBrackets: bool, ghost pieces: seq<string>) returns (r: seq<nat>)
      requires Holds(pieces) && '\0' !in name
      ensures var hits := Hits(pieces, if useBrackets then name + "[]" else name, 0);
              |r| == |hits| && forall n :: 0 <= n < |r| ==> Slot(url, r[n], Found(Final(pieces[hits[n]])))
    {
      hide Slot, Final, Found, Parsed, Hits, Nth;
      var plus := if useBrackets then name + "[]" else name;
      assert '\0' !in plus;
      ghost var hits := Hits(pieces, plus, 0);
      r := [];
      var count := 0;
      while true
        invariant count == |r| <= |hits|
        invariant forall n :: 0 <= n < |r| ==> Slot(url, r[n], Found(Final(pieces[hits[n]])))
        decreases |hits| - count
      {
        NthIsHit(pieces, plus, 0, count);
        var element := QsK2v(plus, url, kv, count, pieces);
        count := count + 1;
        if element.None? { break; }
        r := r + [element.value];
      }
    }
  }

  /** The pieces from `i` on that have this key. */
  function Hits(pieces: seq<string>, key: string, i: nat): (h: seq<nat>)
    requires i <= |pieces|
    ensures forall k :: 0 <= k < |h| ==> h[k] < |pieces|
    decreases |pieces| - i
  {
    if i == |pieces| then []
    else if Matches(pieces[i], key) then [i] + Hits(pieces, key, i + 1)
    else Hits(pieces, key, i + 1)
  }

  lemma {:induction false} HitsAre(pieces: seq<string>, key: string, i: nat)
    requires i <= |pieces|
    ensures var h := Hits(pieces, key, i);
            && (forall k :: 0 <= k < |h| ==> i <= h[k] && Matches(pieces[h[k]], key))
            && (forall j :: i <= j < |pieces| && Matches(pieces[j], key) ==> j in h)
            && (forall k, m :: 0 <= k < m < |h| ==> h[k] < h[m])
    decreases |pieces| - i
  {
    hide Matches;
    if i < |pieces| {
      HitsAre(pieces, key, i + 1);
      var h, rest := Hits(pieces, key, i), Hits(pieces, key, i + 1);
      assert if Matches(pieces[i], key) then h == [i] + rest else h == rest;
    }
  }

  lemma {:induction false} NthIsHit(pieces: seq<string>, key: string, i: nat, n: nat)
    requires i <= |pieces|
    ensures var h := Hits(pieces, key, i); Nth(pieces, key, i, n) == if n < |h| then Some(h[n]) else None
    decreases |pieces| - i
  {
    hide Matches;
    if i < |pieces| {
      var rest := Hits(pieces, key, i + 1);
      if !Matches(pieces[i], key) {
        NthIsHit(pieces, key, i + 1, n);
      } else if n > 0 {
        NthIsHit(pieces, key, i + 1, n - 1);
        assert n <= |rest| ==> ([i] + rest)[n] == rest[n - 1];
      }
    }
  }

  // ---- percent-encoding ----

  /** How a character is written: as it is, as a percent sign and two digits, or a space as a plus sign. */
  datatype Form = AsIs | Percent | Plus

  function Digit(n: nat): char
    requires n < 16
  {
    "0123456789ABCDEF"[n]
  }

  predicate MayBe(c: char, f: Form) {
    match f
    case AsIs => c !in {'=', '#', '&', '\0', '+', '%'}
    case Percent => c as int < 256
    case Plus => c == ' '
  }

  function Shown(c: char, f: Form): string
    requires MayBe(c, f)
  {
    match f
    case AsIs => [c]
    case Percent => ['%', Digit(c as int / 16), Digit(c as int % 16)]
    case Plus => "+"
  }

  function PercentEncoded(s: string, fs: seq<Form>): string
    requires |fs| == |s| && forall i :: 0 <= i < |s| ==> MayBe(s[i], fs[i])
  {
    if s == "" then "" else Shown(s[0], fs[0]) + PercentEncoded(s[1..], fs[1..])
  }

  lemma DigitRead(n: nat)
    requires n < 16
    ensures IsHex(Digit(n)) && HexValue(Digit(n)) == n
  {
  }

  lemma ShownRead(c: char, f: Form, rest: string)
    requires MayBe(c, f)
    ensures Decoded(Shown(c, f) + rest) == [c] + Decoded(rest)
    ensures Consumed(Shown(c, f) + rest) == |Shown(c, f)| + Consumed(rest)
    ensures c != '\0' ==> First(Shown(c, f) + rest) == c && Rest(Shown(c, f) + rest) == rest
  {
    var s := Shown(c, f) + rest;
    if f == Percent {
      DigitRead(c as int / 16);
      DigitRead(c as int % 16);
      assert s[0] == '%' && s[1] == Digit(c as int / 16) && s[2] == Digit(c as int % 16) && s[3..] == rest;
      hide Digit;
    } else {
      assert s[1..] == rest;
    }
  }

  /** Decoding undoes percent-encoding, however the characters are written; so does the comparison of keys. */
  lemma {:induction false} DecodingUndoes(s: string, fs: seq<Form>)
    requires |fs| == |s| && forall i :: 0 <= i < |s| ==> MayBe(s[i], fs[i])
    ensures var e := PercentEncoded(s, fs);
            && Decoded(e) == s && Consumed(e) == |e| && ('\0' !in s ==> Meaning(e) == s && Ended(e))
    decreases |s|
  {
    if s != "" {
      hide Decoded, Consumed, Meaning, Ended, Shown, First;
      ShownRead(s[0], fs[0], PercentEncoded(s[1..], fs[1..]));
      DecodingUndoes(s[1..], fs[1..]);
      assert s == [s[0]] + s[1..];
      if '\0' !in s { OneUnit(PercentEncoded(s, fs)); }
    }
  }

  lemma OneUnit(t: string)
    requires First(t) != '\0'
    ensures Meaning(t) == [First(t)] + Meaning(Rest(t)) && (Ended(t) <==> Ended(Rest(t)))
  {
    hide First;
  }

  // ---- a query, spelled out ----

  lemma {:induction false} NoQuery(p: string, t: string, i: nat)
    requires i <= |p| && '?' !in p && '#' !in p && p + "?" <= t
    ensures QueryStart(t, i) == |p| + 1
    decreases |p| - i
  {
    assert t[|p|] == (p + "?")[|p|] == '?';
    if i < |p| {
      assert t[i] == (p + "?")[i] == p[i] && p[i] in p;
      NoQuery(p, t, i + 1);
    }
  }

  /** A key that may stand in a pair. */
  predicate IsKey(k: string) { '&' !in k && '=' !in k && '#' !in k && '\0' !in k }

  lemma PairIs(k: string, v: string)
    requires IsKey(k) && '&' !in v && '\0' !in v
    ensures var a := k + "=" + v;
            && IsPiece(a) && KeyText(a) == k && Found(Final(a)) == Decoded(v)
            && forall i :: 0 <= i < |a| ==> a[i] != '&'
  {
    var a := k + "=" + v;
    forall i | 0 <= i < |a|
      ensures a[i] != '&' && a[i] != '\0' && (i < |k| ==> a[i] != '=' && a[i] != '#')
    {
      assert i < |k| ==> a[i] == k[i] && k[i] in k;
      assert i > |k| ==> a[i] == v[i - |k| - 1] && v[i - |k| - 1] in v;
    }
    KeyLengthIs(a, |k|);
    assert a[|k| + 1..] == v && a[..|k|] == k && a[|k|] == '=';
    hide KeyLength, Final, Found, Decoded;
    FoundMeans(a);
  }

  /** Two pieces with a `&` between them. */
  lemma TwoPieces(t: string, q: nat, a: string, b: string)
    requires q + |a| + 1 + |b| == |t| && t[q..q + |a|] == a && t[q + |a|] == '&' && t[q + |a| + 1..] == b
    requires (forall i :: 0 <= i < |a| ==> a[i] != '&') && forall i :: 0 <= i < |b| ==> b[i] != '&'
    ensures Starts(t, q, MAX_PAIRS) == [q, q + |a| + 1] && Piece(t, q) == a && Piece(t, q + |a| + 1) == b
  {
    var r := q + |a| + 1;
    forall i | q <= i < q + |a|
      ensures t[i] != '&'
    {
      assert t[i] == t[q..q + |a|][i - q];
    }
    forall i | r <= i < |t|
      ensures t[i] != '&'
    {
      assert t[i] == t[r..][i - r];
    }
    PieceEndIs(t, q, q + |a|);
    PieceEndIs(t, r, |t|);
    assert t[r..|t|] == b;
    assert Starts(t, r, MAX_PAIRS - 1) == [r] + [];
    assert Starts(t, q, MAX_PAIRS) == [q] + ([r] + []);
  }

  /** The query of a URL with two pairs: two pieces, each with its key and its value. */
  lemma TwoPairs(p: string, k: string, v: string, l: string, w: string)
    requires '?' !in p && '#' !in p && IsKey(k) && IsKey(l)
    requires '&' !in v && '&' !in w && '\0' !in v && '\0' !in w
    ensures Pieces(p + "?" + (k + "=" + v) + "&" + (l + "=" + w), true) == [k + "=" + v, l + "=" + w]
    ensures KeyText(k + "=" + v) == k && Found(Final(k + "=" + v)) == Decoded(v)
  {
    hide Starts, Piece, KeyText, Final, Found, Decoded, IsPiece, QueryStart;
    var a, b := k + "=" + v, l + "=" + w;
    PairIs(k, v);
    PairIs(l, w);
    QueryOfTwo(p, a, b);
  }

  lemma QueryOfTwo(p: string, a: string, b: string)
    requires '?' !in p && '#' !in p
    requires (forall i :: 0 <= i < |a| ==> a[i] != '&') && forall i :: 0 <= i < |b| ==> b[i] != '&'
    ensures Pieces(p + "?" + a + "&" + b, true) == [a, b]
  {
    hide Starts, Piece, QueryStart;
    var t := p + "?" + a + "&" + b;
    var q := |p| + 1;
    assert t == p + "?" + (a + "&" + b);
    NoQuery(p, t, 0);
    assert t[q..q + |a|] == a && t[q + |a|] == '&' && t[q + |a| + 1..] == b;
    TwoPieces(t, q, a, b);
    assert Pieces(t, true)[0] == a && Pieces(t, true)[1] == b;
  }
}
