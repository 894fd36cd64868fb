/** Base64 in both alphabets, with and without padding: sections 4 and 5 of RFC 4648. Shifts and
    masks of bytes are written as division and remainder. */
module Base64 {
  import opened Bytes
  import opened Sequences

  /** Six bits. */
  type six = n: nat | n < 64

  /** The character for six bits. */
  function Char(url: bool, n: six): (c: char)
    ensures c != '=' && Key(c) == n
  {
    if n < 26 then 'A' + n as char
    else if n < 52 then 'a' + (n - 26) as char
    else if n < 62 then '0' + (n - 52) as char
    else if n == 62 then (if url then '-' else '+')
    else if url then '_' else '/'
  }

  /** The six bits of a character; other characters count as 0. */
  function Key(c: char): six {
    if 'A' <= c <= 'Z' then c as int - 'A' as int
    else if 'a' <= c <= 'z' then c as int - 'a' as int + 26
    else if '0' <= c <= '9' then c as int - '0' as int + 52
    else if c == '+' || c == '-' then 62
    else if c == '/' || c == '_' then 63
    else 0
  }

  // ---- what the encoding is ----

  /** The four groups of six bits of three bytes. */
  function Six1(a: byte): six { a / 4 }
  function Six2(a: byte, b: byte): six { a % 4 * 16 + b / 16 }
  function Six3(b: byte, c: byte): six { b % 16 * 4 + c / 64 }
  function Six4(c: byte): six { c % 64 }

  function Four(url: bool, a: byte, b: byte, c: byte): (r: string)
    ensures |r| == 4
  {
    [Char(url, Six1(a)), Char(url, Six2(a, b)), Char(url, Six3(b, c)), Char(url, Six4(c))]
  }

  /** The characters of the data, without padding. */
  function Bare(url: bool, data: seq<byte>): string {
    if |data| == 0 then ""
    else if |data| == 1 then Four(url, data[0], 0, 0)[..2]
    else if |data| == 2 then Four(url, data[0], data[1], 0)[..3]
    else Four(url, data[0], data[1], data[2]) + Bare(url, data[3..])
  }

  function Padding(n: nat): string {
    if n % 3 == 1 then "==" else if n % 3 == 2 then "=" else ""
  }

  function Encoded(url: bool, data: seq<byte>): string { Bare(url, data) + Padding(|data|) }

  /** The three bytes of four groups of six bits. */
  function Byte1(a: six, b: six): byte { a * 4 + b / 16 }
  function Byte2(b: six, c: six): byte { b % 16 * 16 + c / 4 }
  function Byte3(c: six, d: six): byte { c % 4 * 64 + d }

  function Three(s: string, i: nat): (r: seq<byte>)
    ensures |r| == 3
  {
    [Byte1(KeyAt(s, i), KeyAt(s, i + 1)), Byte2(KeyAt(s, i + 1), KeyAt(s, i + 2)),
      Byte3(KeyAt(s, i + 2), KeyAt(s, i + 3))]
  }

  /** The data that the characters from `i` on stand for, `size` bytes of it. */
  function Bits(s: string, i: nat, size: nat): (r: seq<byte>)
    ensures |r| == size
    decreases size
  {
    if size < 3 then Three(s, i)[..size] else Three(s, i) + Bits(s, i + 4, size - 3)
  }

  function KeyAt(s: string, i: nat): six { if i < |s| then Key(s[i]) else 0 }

  /** The number of bytes that a text of two or more characters stands for. */
  function SizeOf(s: string): nat
    requires |s| >= 2
  {
    var n := |s|;
    if n % 4 == 2 then n / 4 * 3 + 1
    else if n % 4 == 3 then n / 4 * 3 + 2
    else if s[n - 2] == '=' then n / 4 * 3 - 2
    else if s[n - 1] == '=' then n / 4 * 3 - 1
    else n / 4 * 3
  }

  function Decoded(s: string): seq<byte>
    requires |s| >= 2
  {
    Bits(s, 0, SizeOf(s))
  }

  // ---- the methods ----

  method Encode(data: seq<byte>, url: bool) returns (ret: string)
    ensures ret == Encoded(url, data)
  {
    hide Char, Six1, Six2, Six3, Six4, Bare, Padding;
    ret := "";
    var i := 0;
    ghost var k := 0;
    assert data[0..] == data;
    while |data| - i >= 3
      invariant 0 <= i <= |data| && i == 3 * k
      invariant ret + Bare(url, data[i..]) == Bare(url, data)
    {
      BareFirst(url, data, i);
      var four := [Char(url, Six1(data[i])), Char(url, Six2(data[i], data[i + 1])),
                   Char(url, Six3(data[i + 1], data[i + 2])), Char(url, Six4(data[i + 2]))];
      Associate(ret, four, Bare(url, data[i + 3..]));
      ret := ret + four;
      i, k := i + 3, k + 1;
    }
    var left := |data| - i;
    BareLast(url, data[i..]);
    PaddingIs(k, left);
    if left == 1 {
      ret := ret + [Char(url, Six1(data[i])), Char(url, Six2(data[i], 0))] + "==";
    } else if left == 2 {
      ret := ret + [Char(url, Six1(data[i])), Char(url, Six2(data[i], data[i + 1])), Char(url, Six3(data[i + 1], 0))]
        + "=";
    }
  }

  lemma BareFirst(url: bool, data: seq<byte>, i: nat)
    requires i + 3 <= |data|
    ensures Bare(url, data[i..]) == Four(url, data[i], data[i + 1], data[i + 2]) + Bare(url, data[i + 3..])
  {
    assert data[i..][3..] == data[i + 3..];
  }

  lemma BareLast(url: bool, data: seq<byte>)
    requires |data| < 3
    ensures |data| == 0 ==> Bare(url, data) == ""
    ensures |data| == 1 ==> Bare(url, data) == [Char(url, Six1(data[0])), Char(url, Six2(data[0], 0))]
    ensures |data| == 2 ==> Bare(url, data) ==
                            [Char(url, Six1(data[0])), Char(url, Six2(data[0], data[1])), Char(url, Six3(data[1], 0))]
  {
    hide Char, Six1, Six2, Six3, Six4;
  }

  lemma PaddingIs(k: nat, left: nat)
    requires left < 3
    ensures Padding(3 * k + left) == if left == 1 then "==" else if left == 2 then "=" else ""
  {
  }

  method Decode(s: string) returns (ret: seq<byte>)
    requires |s| >= 2
    ensures ret == Decoded(s)
  {
    hide Key, KeyAt, SizeOf, Byte1, Byte2, Byte3;
    var size: nat, i: nat := SizeOf(s), 0;
    ret := [];
    while size >= 3
      invariant ret + Bits(s, i, size) == Decoded(s)
    {
      var odd, even := KeyAt(s, i), KeyAt(s, i + 1);
      var one := Byte1(odd, even);
      odd := KeyAt(s, i + 2);
      var two := Byte2(even, odd);
      even := KeyAt(s, i + 3);
      var three := Byte3(odd, even);
      Associate(ret, [one, two, three], Bits(s, i + 4, size - 3));
      ret := ret + [one, two, three];
      i, size := i + 4, size - 3;
    }
    if size == 2 {
      ret := ret + [Byte1(KeyAt(s, i), KeyAt(s, i + 1)), Byte2(KeyAt(s, i + 1), KeyAt(s, i + 2))];
    } else if size == 1 {
      ret := ret + [Byte1(KeyAt(s, i), KeyAt(s, i + 1))];
    }
  }

  // ---- round trips ----

  lemma {:induction false} Lengths(url: bool, data: seq<byte>)
    ensures |Bare(url, data)| == |data| / 3 * 4 + (if |data| % 3 == 0 then 0 else |data| % 3 + 1)
    ensures forall c :: c in Bare(url, data) ==> c != '='
    decreases |data|
  {
    hide Char;
    if |data| >= 3 { Lengths(url, data[3..]); }
  }

  /** With padding the length is a multiple of four. */
  lemma EncodedLength(url: bool, data: seq<byte>)
    ensures |Encoded(url, data)| == (|data| + 2) / 3 * 4
  {
    hide Bare;
    Lengths(url, data);
  }

  lemma SixBits(a: byte, b: byte, c: byte)
    ensures Byte1(Six1(a), Six2(a, b)) == a && Byte2(Six2(a, b), Six3(b, c)) == b && Byte3(Six3(b, c), Six4(c)) == c
  {
  }

  /** The characters that stand for three bytes, or for the first `n` of them, are read back. */
  lemma FourRead(url: bool, a: byte, b: byte, c: byte, n: nat, s: string, i: nat)
    requires n <= 4 && i + n <= |s| && s[i..i + n] == Four(url, a, b, c)[..n]
    ensures n >= 2 ==> Three(s, i)[0] == a
    ensures n >= 3 ==> Three(s, i)[1] == b
    ensures n >= 4 ==> Three(s, i)[2] == c
  {
    hide Char, Key, Byte1, Byte2, Byte3, Six1, Six2, Six3, Six4;
    SixBits(a, b, c);
    var f := Four(url, a, b, c);
    forall k | 0 <= k < n
      ensures KeyAt(s, i + k) == Key(f[k])
    {
      assert s[i..i + n][k] == s[i + k];
    }
    assert n > 0 ==> KeyAt(s, i + 0) == KeyAt(s, i) == Key(f[0]) == Six1(a);
    assert n > 1 ==> KeyAt(s, i + 1) == Key(f[1]) == Six2(a, b);
    assert n > 2 ==> KeyAt(s, i + 2) == Key(f[2]) == Six3(b, c);
    assert n > 3 ==> KeyAt(s, i + 3) == Key(f[3]) == Six4(c);
  }

  lemma Apart(s: string, i: nat, a: string, b: string)
    requires i + |a + b| <= |s| && s[i..i + |a + b|] == a + b
    ensures s[i..i + |a|] == a && s[i + |a|..i + |a| + |b|] == b
  {
    var all := s[i..i + |a + b|];
    assert s[i..i + |a|] == all[..|a|];
    assert s[i + |a|..i + |a| + |b|] == all[|a|..];
  }

  /** The bits come back, wherever the characters stand and whatever follows them. */
  lemma {:induction false} BitsOfBare(url: bool, data: seq<byte>, s: string, i: nat)
    requires i + |Bare(url, data)| <= |s| && s[i..i + |Bare(url, data)|] == Bare(url, data)
    ensures Bits(s, i, |data|) == data
    decreases |data|
  {
    hide Three, Four;
    if |data| == 1 {
      FourRead(url, data[0], 0, 0, 2, s, i);
    } else if |data| == 2 {
      FourRead(url, data[0], data[1], 0, 3, s, i);
    } else if |data| >= 3 {
      var four, rest := Four(url, data[0], data[1], data[2]), Bare(url, data[3..]);
      Apart(s, i, four, rest);
      assert four[..4] == four;
      FourRead(url, data[0], data[1], data[2], 4, s, i);
      BitsOfBare(url, data[3..], s, i + 4);
      assert data == [data[0], data[1], data[2]] + data[3..];
    }
  }

  lemma SizeOfBare(url: bool, data: seq<byte>)
    requires data != []
    ensures |Bare(url, data)| >= 2 && SizeOf(Bare(url, data)) == |data|
    ensures |Encoded(url, data)| >= 2 && SizeOf(Encoded(url, data)) == |data|
  {
    Lengths(url, data);
    hide Bare;
    var n := |data|;
    var bare := Bare(url, data);
    assert bare[|bare| - 1] in bare && bare[|bare| - 2] in bare;
  }

  /** Decoding undoes encoding, with the padding kept or stripped, in either alphabet. */
  lemma RoundTrip(url: bool, data: seq<byte>)
    requires data != []
    ensures |Bare(url, data)| >= 2 && Decoded(Encoded(url, data)) == data && Decoded(Bare(url, data)) == data
  {
    SizeOfBare(url, data);
    hide Bare, SizeOf;
    var bare, padded := Bare(url, data), Encoded(url, data);
    assert bare[0..0 + |bare|] == bare && padded[0..0 + |bare|] == bare;
    BitsOfBare(url, data, bare, 0);
    BitsOfBare(url, data, padded, 0);
  }

  // ---- the alphabets, spelled out ----

  /** The two alphabets of tables 1 and 2 of RFC 4648. */
  lemma Alphabets(n: six)
    ensures Char(false, n) == ("ABCDEFGHIJKLMNOPQRSTUVWXYZ" + "abcdefghijklmnopqrstuvwxyz" + "0123456789" + "+/")[n]
    ensures Char(true, n) == ("ABCDEFGHIJKLMNOPQRSTUVWXYZ" + "abcdefghijklmnopqrstuvwxyz" + "0123456789" + "-_")[n]
  {
    Capitals(n);
    Letters(n);
    Others(n);
  }

  lemma Capitals(n: six)
    ensures n < 26 ==> "ABCDEFGHIJKLMNOPQRSTUVWXYZ"[n] == 'A' + n as char
  {
  }

  lemma Letters(n: six)
    ensures 26 <= n < 52 ==> "abcdefghijklmnopqrstuvwxyz"[n - 26] == 'a' + (n - 26) as char
  {
  }

  lemma Others(n: six)
    ensures 52 <= n < 62 ==> "0123456789"[n - 52] == '0' + (n - 52) as char
  {
  }

  /** Four groups of six bits are the 24 bits of three bytes, in order. */
  lemma SameBits(a: byte, b: byte, c: byte)
    ensures ((Six1(a) * 64 + Six2(a, b)) * 64 + Six3(b, c)) * 64 + Six4(c) == (a * 256 + b) * 256 + c
  {
  }

  /** What is written for one or two bytes at the end. */
  lemma WrittenAtEnd(url: bool, a: byte, b: byte)
    ensures Encoded(url, []) == ""
    ensures Encoded(url, [a]) == [Char(url, Six1(a)), Char(url, Six2(a, 0))] + "=="
    ensures Encoded(url, [a, b]) == [Char(url, Six1(a)), Char(url, Six2(a, b)), Char(url, Six3(b, 0))] + "="
  {
    hide Char, Six1, Six2, Six3, Six4;
  }

  lemma SamePadding(n: nat)
    ensures Padding(n + 3) == Padding(n)
  {
  }

  /** What is written for three bytes. */
  lemma Written(url: bool, a: byte, b: byte, c: byte, rest: seq<byte>)
    ensures Encoded(url, [a, b, c] + rest) ==
            [Char(url, Six1(a)), Char(url, Six2(a, b)), Char(url, Six3(b, c)), Char(url, Six4(c))] + Encoded(url, rest)
  {
    var data := [a, b, c] + rest;
    assert data[3..] == rest && |data| == |rest| + 3;
    SamePadding(|rest|);
    assert Bare(url, data) == Four(url, a, b, c) + Bare(url, rest);
    hide Char, Six1, Six2, Six3, Six4, Bare, Padding;
    Associate(Four(url, a, b, c), Bare(url, rest), Padding(|rest|));
  }
}
