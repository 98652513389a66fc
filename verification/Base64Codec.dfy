/**
 The base64 codec (base64.cpp): encoding with padding in the two alphabets of sections 4 and 5 of
 RFC 4648, decoding of padded, unpadded and mixed input, and line breaks as in section 6.8 of
 RFC 2045. Bit operations are written as divisions and remainders by powers of two.
 */
module Base64Codec {
  import opened Sequences

  type byte = b: int | 0 <= b < 256

  const UPPER := "ABCDEFGHIJKLMNOPQRSTUVWXYZ"
  const LOWER := "abcdefghijklmnopqrstuvwxyz"
  const DIGITS := "0123456789"
  const STANDARD := UPPER + LOWER + DIGITS + "+/"
  const URL := UPPER + LOWER + DIGITS + "-_"
  const TWO32: nat := 0x1_0000_0000

  /** What the decoder runs into: `std::string::at` out of range, or a character of no alphabet. */
  datatype Fault = OutOfRange | BadChar

  datatype Outcome<T> = Done(value: T) | Failed(fault: Fault)

  // ---------------------------------------------------------------- alphabets

  /** One of the two sets of characters, and what fills up the last group. */
  datatype Alphabet = Alphabet(chars: string, padding: char)

  function AlphabetOf(url: bool): Alphabet {
    if url then Alphabet(URL, '.') else Alphabet(STANDARD, '=')
  }

  /** 64 characters that are read back as their positions; none of them is a padding or a line break. */
  ghost predicate Legible(a: Alphabet) {
    && |a.chars| == 64 && IsPadding(a.padding) && PosOfChar(a.padding).None?
    && (forall v {:trigger a.chars[v]} :: 0 <= v < 64 ==> PosOfChar(a.chars[v]) == Some(v) && !IsPadding(a.chars[v]) && a.chars[v] != '\n')
  }

  predicate IsPadding(c: char) {
    c == '=' || c == '.'
  }

  /** `pos_of_char`; none where the source expects to be unreachable. */
  function PosOfChar(c: char): (p: Option<nat>)
    ensures p.Some? ==> p.value < 64
  {
    if 'A' <= c <= 'Z' then Some(c as nat - 'A' as nat)
    else if 'a' <= c <= 'z' then Some(c as nat - 'a' as nat + 26)
    else if '0' <= c <= '9' then Some(c as nat - '0' as nat + 52)
    else if c == '+' || c == '-' then Some(62)
    else if c == '/' || c == '_' then Some(63)
    else None
  }

  lemma Upper(v: nat)
    requires v < 26
    ensures UPPER[v] as nat == 'A' as nat + v
  {
  }

  lemma Lower(v: nat)
    requires v < 26
    ensures LOWER[v] as nat == 'a' as nat + v
  {
  }

  lemma Digit(v: nat)
    requires v < 10
    ensures DIGITS[v] as nat == '0' as nat + v
  {
  }

  lemma Joined(x: string, y: string, z: string, last: string, v: nat)
    requires v < |x| + |y| + |z|
    ensures (x + y + z + last)[v] == if v < |x| then x[v] else if v < |x| + |y| then y[v - |x|] else z[v - |x| - |y|]
  {
  }

  /** The first 62 characters are the same in both. */
  lemma CommonIs(v: nat, last: string)
    requires v < 62
    ensures (UPPER + LOWER + DIGITS + last)[v] as nat
         == if v < 26 then 'A' as nat + v else if v < 52 then 'a' as nat + (v - 26) else '0' as nat + (v - 52)
  {
    Joined(UPPER, LOWER, DIGITS, last, v);
    if v < 26 {
      Upper(v);
    } else if v < 52 {
      Lower(v - 26);
    } else {
      Digit(v - 52);
    }
  }

  lemma AlphabetIsLegible(url: bool)
    ensures Legible(AlphabetOf(url))
  {
    var a := AlphabetOf(url);
    forall v | 0 <= v < 64 ensures PosOfChar(a.chars[v]) == Some(v) {
      if v < 62 { CommonIs(v, if url then "-_" else "+/"); }
    }
    ReadIsNoPadding(a);
  }

  lemma ReadIsNoPadding(a: Alphabet)
    requires |a.chars| == 64 && IsPadding(a.padding) && forall v :: 0 <= v < 64 ==> PosOfChar(a.chars[v]) == Some(v)
    ensures Legible(a)
  {
  }

  // ---------------------------------------------------------------- encoding

  /** The four characters of a group of three bytes; fewer bytes are padded. */
  function Group(bytes: seq<byte>, a: Alphabet): (g: string)
    requires 0 < |bytes| && |a.chars| == 64
    ensures |g| == 4
  {
    if |bytes| == 1 then
      [a.chars[bytes[0] / 4], a.chars[bytes[0] % 4 * 16], a.padding, a.padding]
    else if |bytes| == 2 then
      [a.chars[bytes[0] / 4], a.chars[bytes[0] % 4 * 16 + bytes[1] / 16], a.chars[bytes[1] % 16 * 4], a.padding]
    else
      [a.chars[bytes[0] / 4], a.chars[bytes[0] % 4 * 16 + bytes[1] / 16],
       a.chars[bytes[1] % 16 * 4 + bytes[2] / 64], a.chars[bytes[2] % 64]]
  }

  function Rest<T>(s: seq<T>, n: nat): (r: seq<T>)
    ensures |r| == if n <= |s| then |s| - n else 0
    ensures forall k :: 0 <= k < |r| ==> r[k] == s[n + k]
  {
    if n <= |s| then s[n..] else []
  }

  function Encoded(bytes: seq<byte>, a: Alphabet): string
    requires |a.chars| == 64
    decreases |bytes|
  {
    if bytes == [] then "" else Group(bytes, a) + Encoded(Rest(bytes, 3), a)
  }

  // ---------------------------------------------------------------- what the text is

  /** Tables 1 and 2 of RFC 4648: the character of a sextet. */
  function Symbol(url: bool, v: nat): (c: char)
    requires v < 64
    ensures c !in if url then "+/=." else "-_=."
  {
    if v < 26 then ('A' as nat + v) as char
    else if v < 52 then ('a' as nat + (v - 26)) as char
    else if v < 62 then ('0' as nat + (v - 52)) as char
    else if v == 62 then (if url then '-' else '+')
    else if url then '_' else '/'
  }

  lemma AlphabetIs(url: bool, v: nat)
    requires v < 64
    ensures |AlphabetOf(url).chars| == 64 && AlphabetOf(url).chars[v] == Symbol(url, v)
    ensures AlphabetOf(url).padding == if url then '.' else '='
  {
    if v < 62 { CommonIs(v, if url then "-_" else "+/"); }
  }

  function ByteAt(bytes: seq<byte>, k: nat): nat {
    if k < |bytes| then bytes[k] else 0
  }

  /** The 24 bits of the group that begins at byte `k`; missing bytes are zero. */
  function Bits24(bytes: seq<byte>, k: nat): nat {
    ByteAt(bytes, k) * 65536 + ByteAt(bytes, k + 1) * 256 + ByteAt(bytes, k + 2)
  }

  /** The `i`th of the four digits of a number of 24 bits in base 64, the highest one first. */
  function Digit64(n: nat, i: nat): (v: nat)
    ensures v < 64
  {
    if i == 0 then n / 262144 % 64 else if i == 1 then n / 4096 % 64 else if i == 2 then n / 64 % 64 else n % 64
  }

  /** How many characters stand for the bits of `n` bytes. */
  function DataLength(n: nat): nat {
    (4 * n + 2) / 3
  }

  /** The character at place `i` of the encoding of `bytes`, by the definition in section 4 of RFC 4648. */
  function CharAt(bytes: seq<byte>, url: bool, i: nat): (c: char)
    ensures i < DataLength(|bytes|) ==> c !in if url then "+/=." else "-_=."
  {
    if i < DataLength(|bytes|) then Symbol(url, Digit64(Bits24(bytes, i / 4 * 3), i % 4))
    else if url then '.' else '='
  }

  /** All of the text: its length and each of its characters. */
  ghost predicate IsText(ret: string, bytes: seq<byte>, url: bool) {
    && |ret| == 4 * ((|bytes| + 2) / 3)
    && forall i {:trigger ret[i]} :: 0 <= i < |ret| ==> ret[i] == CharAt(bytes, url, i)
  }

  lemma Digits64(w: nat, x: nat, y: nat, z: nat)
    requires w < 64 && x < 64 && y < 64 && z < 64
    ensures var n := w * 262144 + x * 4096 + y * 64 + z;
            Digit64(n, 0) == w && Digit64(n, 1) == x && Digit64(n, 2) == y && Digit64(n, 3) == z
  {
    var n := w * 262144 + x * 4096 + y * 64 + z;
    assert n / 262144 == w;
    assert n / 4096 == w * 64 + x;
    assert n / 64 == (w * 64 + x) * 64 + y;
  }

  /** The sextets of a group as the source takes them from its bytes, missing ones being zero. */
  function Sextet(b: seq<byte>, i: nat): (v: nat)
    ensures v < 64
  {
    var b0, b1, b2 := ByteAt(b, 0), ByteAt(b, 1), ByteAt(b, 2);
    if i == 0 then b0 / 4 else if i == 1 then b0 % 4 * 16 + b1 / 16 else if i == 2 then b1 % 16 * 4 + b2 / 64 else b2 % 64
  }

  lemma SextetIs(b: seq<byte>, i: nat)
    requires i < 4
    ensures Sextet(b, i) == Digit64(Bits24(b, 0), i)
  {
    Digits64(Sextet(b, 0), Sextet(b, 1), Sextet(b, 2), Sextet(b, 3));
  }

  lemma GroupAt(b: seq<byte>, a: Alphabet, i: nat)
    requires |b| > 0 && i < 4 && |a.chars| == 64
    ensures Group(b, a)[i] == if i <= |b| then a.chars[Sextet(b, i)] else a.padding
  {
    if |b| == 1 {
      assert i == 1 ==> ByteAt(b, 1) == 0;
    } else if |b| == 2 {
      assert i == 2 ==> ByteAt(b, 2) == 0;
    }
  }

  /** A group is the four digits of its 24 bits; padding stands where no bit of a byte is left. */
  lemma GroupIs(b: seq<byte>, url: bool, i: nat)
    requires |b| > 0 && i < 4
    ensures |AlphabetOf(url).chars| == 64 && Group(b, AlphabetOf(url))[i] == CharAt(b, url, i)
  {
    AlphabetIs(url, Sextet(b, i));
    GroupAt(b, AlphabetOf(url), i);
    SextetIs(b, i);
    FirstGroupAt(b, url, i);
  }

  lemma FirstGroupAt(b: seq<byte>, url: bool, i: nat)
    requires |b| > 0 && i < 4
    ensures CharAt(b, url, i) == if i <= |b| then Symbol(url, Digit64(Bits24(b, 0), i)) else if url then '.' else '='
  {
    assert i / 4 * 3 == 0 && i % 4 == i;
    assert i <= |b| <==> i < DataLength(|b|);
  }

  lemma CharBehind(bytes: seq<byte>, url: bool, i: nat)
    requires bytes != [] && 4 <= i < 4 * ((|bytes| + 2) / 3)
    ensures CharAt(bytes, url, i) == CharAt(Rest(bytes, 3), url, i - 4)
  {
    var rest, k := Rest(bytes, 3), (i - 4) / 4 * 3;
    assert i / 4 * 3 == k + 3 && i % 4 == (i - 4) % 4;
    assert forall n: nat :: ByteAt(rest, n) == ByteAt(bytes, n + 3);
    assert Bits24(rest, k) == Bits24(bytes, k + 3);
    assert i < DataLength(|bytes|) <==> i - 4 < DataLength(|rest|);
  }

  /** What `Encoded` computes group by group is the text. */
  lemma {:induction false} EncodedIs(bytes: seq<byte>, url: bool)
    ensures |AlphabetOf(url).chars| == 64 && IsText(Encoded(bytes, AlphabetOf(url)), bytes, url)
    decreases |bytes|
  {
    AlphabetIs(url, 0);
    var a := AlphabetOf(url);
    EncodedLength(bytes, a);
    if bytes != [] {
      var r, rest := Encoded(bytes, a), Rest(bytes, 3);
      EncodedIs(rest, url);
      assert r == Group(bytes, a) + Encoded(rest, a);
      forall i | 0 <= i < |r| ensures r[i] == CharAt(bytes, url, i) {
        if i < 4 {
          GroupIs(bytes, url, i);
        } else {
          CharBehind(bytes, url, i);
          assert r[i] == Encoded(rest, a)[i - 4];
        }
      }
    }
  }

  /** One or two characters of padding for one or two bytes short of a group, at the end and nowhere else. */
  ghost predicate Padded(ret: string, n: nat, padding: char) {
    var k := (3 - n % 3) % 3;
    k <= |ret| && forall i {:trigger ret[i]} :: 0 <= i < |ret| ==> (ret[i] == padding <==> |ret| - k <= i)
  }

  lemma TextPadded(ret: string, bytes: seq<byte>, url: bool)
    requires IsText(ret, bytes, url)
    ensures Padded(ret, |bytes|, if url then '.' else '=')
    ensures forall c :: c in ret ==> c !in if url then "+/=" else "-_."
  {
    var n := |bytes|;
    assert DataLength(n) + (3 - n % 3) % 3 == |ret|;
  }

  /** `base64_encode` */
  method Encode(bytes: seq<byte>, url: bool) returns (ret: string)
    requires |bytes| < TWO32
    ensures |AlphabetOf(url).chars| == 64 && ret == Encoded(bytes, AlphabetOf(url))
    ensures IsText(ret, bytes, url)
    ensures Padded(ret, |bytes|, if url then '.' else '=')
    ensures forall c :: c in ret ==> c !in if url then "+/=" else "-_."
  {
    AlphabetIsLegible(url);
    ret := EncodeWith(bytes, AlphabetOf(url));
    EncodedIs(bytes, url);
    TextPadded(ret, bytes, url);
  }

  /** `pos += 3` on the 32-bit counter. */
  function Next(pos: nat): nat {
    (pos + 3) % TWO32
  }

  /** Where the loop of `base64_encode` stands after so many rounds. */
  function PosAfter(rounds: nat): nat {
    if rounds == 0 then 0 else Next(PosAfter(rounds - 1))
  }

  /** The counter does not wrap around as long as it is below an input that is shorter than 2^32. */
  lemma NoWrap(pos: nat, len: nat, rounds: nat)
    requires pos < len < TWO32 && pos == PosAfter(rounds) && pos == 3 * rounds
    ensures Next(pos) == PosAfter(rounds + 1) == 3 * (rounds + 1) < TWO32
  {
  }

  lemma {:induction false} PosBelow(rounds: nat)
    ensures PosAfter(rounds) < TWO32
    ensures 3 * rounds < TWO32 ==> PosAfter(rounds) == 3 * rounds
  {
    if rounds > 0 { PosBelow(rounds - 1); }
  }

  /** The loop comes to the end of its input if and only if the input is shorter than 2^32 bytes. */
  lemma LoopEnds(len: nat)
    ensures (exists rounds: nat :: PosAfter(rounds) >= len) <==> len < TWO32
  {
    if len < TWO32 {
      PosBelow(1431655765);
      assert PosAfter(1431655765) >= len;
    }
    forall rounds: nat ensures PosAfter(rounds) < TWO32 { PosBelow(rounds); }
  }

  /** One round of the loop of `base64_encode` (base64.cpp:136-157). */
  method AppendGroup(bytes: seq<byte>, pos: nat, a: Alphabet, before: string) returns (ret: string)
    requires pos < |bytes| && |a.chars| == 64
    ensures ret == before + Group(Rest(bytes, pos), a)
  {
    ret := before;
    ret := ret + [a.chars[bytes[pos] / 4]];
    if pos + 1 < |bytes| {
      ret := ret + [a.chars[bytes[pos] % 4 * 16 + bytes[pos + 1] / 16]];
      if pos + 2 < |bytes| {
        ret := ret + [a.chars[bytes[pos + 1] % 16 * 4 + bytes[pos + 2] / 64]];
        ret := ret + [a.chars[bytes[pos + 2] % 64]];
      } else {
        ret := ret + [a.chars[bytes[pos + 1] % 16 * 4]];
        ret := ret + [a.padding];
      }
    } else {
      ret := ret + [a.chars[bytes[pos] % 4 * 16]];
      ret := ret + [a.padding];
      ret := ret + [a.padding];
    }
    ghost var g := Group(Rest(bytes, pos), a);
    Four(before, ret, g);
  }

  lemma Four(before: string, ret: string, g: string)
    requires |g| == 4 && ret == before + [g[0]] + [g[1]] + [g[2]] + [g[3]]
    ensures ret == before + g
  {
  }

  /** The loop of `base64_encode`; `pos` is a 32-bit counter, which does not wrap around for these lengths. */
  method EncodeWith(bytes: seq<byte>, a: Alphabet) returns (ret: string)
    requires |bytes| < TWO32 && |a.chars| == 64
    ensures ret == Encoded(bytes, a)
  {
    ret := "";
    var pos := 0;
    ghost var rounds := 0;
    NoneEncoded(bytes, a);
    while pos < |bytes|
      invariant pos == PosAfter(rounds) == 3 * rounds < TWO32
      invariant UpTo(bytes, pos, a, ret)
      decreases |bytes| - pos
    {
      ghost var before := ret;
      ret := AppendGroup(bytes, pos, a, ret);
      NextEncoded(bytes, pos, a, before, ret);
      NoWrap(pos, |bytes|, rounds);
      pos := Next(pos);
      rounds := rounds + 1;
    }
    AllEncoded(bytes, pos, a, ret);
  }

  /** What is encoded so far, and the encoding of the rest. */
  ghost predicate UpTo(bytes: seq<byte>, pos: nat, a: Alphabet, ret: string)
    requires |a.chars| == 64
  {
    ret + Encoded(Rest(bytes, pos), a) == Encoded(bytes, a)
  }

  lemma NoneEncoded(bytes: seq<byte>, a: Alphabet)
    requires |a.chars| == 64
    ensures UpTo(bytes, 0, a, "")
  {
    assert Rest(bytes, 0) == bytes && "" + Encoded(bytes, a) == Encoded(bytes, a);
  }

  lemma AllEncoded(bytes: seq<byte>, pos: nat, a: Alphabet, ret: string)
    requires |a.chars| == 64 && pos >= |bytes| && UpTo(bytes, pos, a, ret)
    ensures ret == Encoded(bytes, a)
  {
    assert Rest(bytes, pos) == [] && ret + "" == ret;
  }

  lemma NextEncoded(bytes: seq<byte>, pos: nat, a: Alphabet, before: string, ret: string)
    requires pos < |bytes| && |a.chars| == 64 && UpTo(bytes, pos, a, before)
    requires ret == before + Group(Rest(bytes, pos), a)
    ensures UpTo(bytes, pos + 3, a, ret)
  {
    var rest := Rest(bytes, pos);
    var g := Group(rest, a);
    var more := Encoded(Rest(rest, 3), a);
    assert Rest(rest, 3) == Rest(bytes, pos + 3);
    assert Encoded(rest, a) == g + more;
    Associative(before, g, more);
  }

  lemma Associative(x: string, y: string, z: string)
    ensures x + (y + z) == (x + y) + z
  {
  }

  /** Four characters for every three bytes, the last group included. */
  lemma {:induction false} EncodedLength(bytes: seq<byte>, a: Alphabet)
    requires |a.chars| == 64
    ensures |Encoded(bytes, a)| == 4 * ((|bytes| + 2) / 3)
    decreases |bytes|
  {
    if bytes != [] {
      EncodedLength(Rest(bytes, 3), a);
      assert |Encoded(bytes, a)| == 4 + |Encoded(Rest(bytes, 3), a)|;
      Groups(|bytes|);
    }
  }

  lemma Groups(n: nat)
    requires n > 0
    ensures 4 * ((n + 2) / 3) == 4 + 4 * (((if n >= 3 then n - 3 else 0) + 2) / 3)
  {
  }

  /** The four sextets of a full group are its 24 bits, most significant first (RFC 4648, section 4). */
  lemma GroupBits(b: seq<byte>, a: Alphabet)
    requires |b| >= 3 && Legible(a)
    ensures forall k :: 0 <= k < 4 ==> PosOfChar(Group(b, a)[k]).Some?
    ensures var g := Group(b, a);
            (b[0] as int) * 65536 + (b[1] as int) * 256 + b[2] as int
            == PosOfChar(g[0]).value * 262144 + PosOfChar(g[1]).value * 4096 + PosOfChar(g[2]).value * 64 + PosOfChar(g[3]).value
  {
  }

  // ---------------------------------------------------------------- decoding

  /** The one to three bytes of the first four characters. */
  function Ungroup(s: string): (r: Outcome<seq<byte>>) {
    if |s| < 2 then Failed(OutOfRange) else
    var p1, p0 := PosOfChar(s[1]), PosOfChar(s[0]);
    if p1.None? || p0.None? then Failed(BadChar) else
    var b0: byte := p0.value * 4 + p1.value / 16;
    if |s| == 2 || IsPadding(s[2]) then Done([b0]) else
    var p2 := PosOfChar(s[2]);
    if p2.None? then Failed(BadChar) else
    var b1: byte := p1.value % 16 * 16 + p2.value / 4;
    if |s| == 3 || IsPadding(s[3]) then Done([b0, b1]) else
    var p3 := PosOfChar(s[3]);
    if p3.None? then Failed(BadChar) else
    Done([b0, b1, p2.value % 4 * 64 + p3.value])
  }

  function Decoded(s: string): Outcome<seq<byte>>
    decreases |s|
  {
    if s == "" then Done([]) else
    match Ungroup(s)
    case Failed(f) => Failed(f)
    case Done(bytes) =>
      match Decoded(Rest(s, 4))
      case Failed(f) => Failed(f)
      case Done(more) => Done(bytes + more)
  }

  function Prefixed(ret: seq<byte>, o: Outcome<seq<byte>>): Outcome<seq<byte>> {
    match o
    case Failed(f) => Failed(f)
    case Done(more) => Done(ret + more)
  }

  lemma PrefixedNone(o: Outcome<seq<byte>>)
    ensures Prefixed([], o) == o
  {
    match o
    case Failed(_) =>
    case Done(more) => assert [] + more == more;
  }

  lemma OneGroup(s: string)
    requires s != "" && Ungroup(s).Done?
    ensures Decoded(s) == Prefixed(Ungroup(s).value, Decoded(Rest(s, 4)))
  {
  }

  lemma PrefixedTwice(u: seq<byte>, m: seq<byte>, o: Outcome<seq<byte>>)
    ensures Prefixed(u, Prefixed(m, o)) == Prefixed(u + m, o)
  {
    if o.Done? { assert u + (m + o.value) == (u + m) + o.value; }
  }

  /** One round of the loop of `decode` (base64.cpp:209-237). */
  method AppendBytes(s: string, pos: nat, before: seq<byte>) returns (r: Outcome<seq<byte>>)
    requires pos < |s|
    ensures r == Prefixed(before, Ungroup(Rest(s, pos)))
  {
    if pos + 1 >= |s| {
      return Failed(OutOfRange);
    }
    var pos1 := PosOfChar(s[pos + 1]);
    var pos0 := PosOfChar(s[pos]);
    if pos1.None? || pos0.None? {
      return Failed(BadChar);
    }
    var ret := before + [pos0.value * 4 + pos1.value / 16];
    if pos + 2 < |s| && s[pos + 2] != '=' && s[pos + 2] != '.' {
      var pos2 := PosOfChar(s[pos + 2]);
      if pos2.None? {
        return Failed(BadChar);
      }
      ret := ret + [pos1.value % 16 * 16 + pos2.value / 4];
      if pos + 3 < |s| && s[pos + 3] != '=' && s[pos + 3] != '.' {
        var pos3 := PosOfChar(s[pos + 3]);
        if pos3.None? {
          return Failed(BadChar);
        }
        ret := ret + [pos2.value % 4 * 64 + pos3.value];
      }
    }
    assert ret == before + Ungroup(Rest(s, pos)).value;
    return Done(ret);
  }

  /** `decode` without removal of line breaks. */
  method DecodePlain(s: string) returns (r: Outcome<seq<byte>>)
    ensures r == Decoded(s)
  {
    var ret: seq<byte> := [];
    var pos := 0;
    assert Rest(s, 0) == s;
    PrefixedNone(Decoded(s));
    while pos < |s|
      invariant Prefixed(ret, Decoded(Rest(s, pos))) == Decoded(s)
      decreases |s| - pos
    {
      r := AppendBytes(s, pos, ret);
      NextGroup(s, pos, ret);
      if r.Failed? {
        return;
      }
      ret := r.value;
      pos := pos + 4;
    }
    assert ret + [] == ret;
    return Done(ret);
  }

  lemma NextGroup(s: string, pos: nat, before: seq<byte>)
    requires pos < |s| && Prefixed(before, Decoded(Rest(s, pos))) == Decoded(s)
    ensures var u := Ungroup(Rest(s, pos));
            Decoded(s) == if u.Failed? then u else Prefixed(before + u.value, Decoded(Rest(s, pos + 4)))
  {
    var rest := Rest(s, pos);
    if Ungroup(rest).Done? {
      OneGroup(rest);
      assert Rest(rest, 4) == Rest(s, pos + 4);
      PrefixedTwice(before, Ungroup(rest).value, Decoded(Rest(s, pos + 4)));
    }
  }

  // ---------------------------------------------------------------- line breaks

  /** `std::remove` of line breaks. */
  function WithoutBreaks(s: string): string {
    if s == "" then "" else (if s[0] == '\n' then "" else [s[0]]) + WithoutBreaks(s[1..])
  }

  lemma NextChar(s: string, i: nat, copy: string)
    requires i < |s|
    ensures copy + WithoutBreaks(s[i..]) == (if s[i] == '\n' then copy else copy + [s[i]]) + WithoutBreaks(s[i + 1..])
  {
    assert s[i..][1..] == s[i + 1..];
    if s[i] == '\n' {
      assert "" + WithoutBreaks(s[i + 1..]) == WithoutBreaks(s[i + 1..]);
    } else {
      Associative(copy, [s[i]], WithoutBreaks(s[i + 1..]));
    }
  }

  method RemoveBreaks(s: string) returns (copy: string)
    ensures copy == WithoutBreaks(s)
  {
    copy := "";
    assert s[0..] == s;
    for i := 0 to |s|
      invariant copy + WithoutBreaks(s[i..]) == WithoutBreaks(s)
    {
      NextChar(s, i, copy);
      if s[i] != '\n' {
        copy := copy + [s[i]];
      }
    }
    assert copy + "" == copy;
  }

  /** `base64_decode` */
  method Decode(s: string, removeLinebreaks: bool) returns (r: Outcome<seq<byte>>)
    ensures r == Decoded(if removeLinebreaks then WithoutBreaks(s) else s)
  {
    if removeLinebreaks {
      var copy := RemoveBreaks(s);
      r := DecodePlain(copy);
    } else {
      r := DecodePlain(s);
    }
  }

  /** Lines of `distance` characters, the last one with what is left. */
  function Wrapped(s: string, distance: nat): string
    requires distance > 0
  {
    if |s| <= distance then s else s[..distance] + "\n" + Wrapped(s[distance..], distance)
  }

  /** A line break after the first line of what is left; the places before it stay. */
  lemma NextLine(done: string, rest: string, distance: nat)
    requires 0 < distance < |rest|
    ensures var str := done + rest; var pos := |done| + distance;
            str[..pos] + "\n" + str[pos..] == (done + rest[..distance] + "\n") + rest[distance..]
    ensures (done + rest[..distance] + "\n") + Wrapped(rest[distance..], distance) == done + Wrapped(rest, distance)
  {
    var str, pos := done + rest, |done| + distance;
    assert str[..pos] == done + rest[..distance] && str[pos..] == rest[distance..];
    Associative(done, rest[..distance] + "\n", Wrapped(rest[distance..], distance));
    Associative(done, rest[..distance], "\n");
  }

  /** `insert_linebreaks` */
  method InsertLinebreaks(s: string, distance: nat) returns (str: string)
    requires distance > 0
    ensures str == Wrapped(s, distance)
  {
    if s == "" {
      return "";
    }
    str := s;
    var pos := distance;
    ghost var done := "";
    ghost var rest := s;
    while pos < |str|
      invariant str == done + rest && pos == |done| + distance
      invariant done + Wrapped(rest, distance) == Wrapped(s, distance)
      decreases |rest|
    {
      NextLine(done, rest, distance);
      str := str[..pos] + "\n" + str[pos..];
      done := done + rest[..distance] + "\n";
      rest := rest[distance..];
      pos := pos + distance + 1;
    }
  }

  lemma Larger(a: int, b: int, n: nat)
    requires a > b
    ensures a * n >= b * n + n
  {
    assert a * n == b * n + (a - b) * n && (a - b - 1) * n >= 0;
  }

  lemma Quotient(q: int, r: nat, n: nat)
    requires r < n
    ensures (q * n + r) / n == q && (q * n + r) % n == r
  {
    var x := q * n + r;
    var p := x / n;
    assert x == p * n + x % n;
    if p > q { Larger(p, q, n); }
    if p < q { Larger(q, p, n); }
  }

  lemma OneMore(x: nat, n: nat)
    requires n > 0
    ensures (x + n) / n == x / n + 1 && (x + n) % n == x % n
  {
    assert x + n == (x / n + 1) * n + x % n;
    Quotient(x / n + 1, x % n, n);
  }

  lemma Small(i: nat, n: nat)
    requires i < n
    ensures i / n == 0 && i % n == i
  {
    assert i == 0 * n + i;
    Quotient(0, i, n);
  }

  /** The length of the text with its line breaks. */
  function WrappedLength(len: nat, distance: nat): nat
    requires distance > 0
  {
    if len == 0 then 0 else len + (len - 1) / distance
  }

  lemma LengthBehind(len: nat, distance: nat)
    requires 0 < distance < len
    ensures WrappedLength(len, distance) == distance + 1 + WrappedLength(len - distance, distance)
  {
    OneMore(len - distance - 1, distance);
  }

  /** Every place of wrapped text: a line break after each full line, and the text in between. */
  ghost predicate InLines(r: string, s: string, distance: nat)
    requires distance > 0
  {
    && |r| == WrappedLength(|s|, distance)
    && forall i {:trigger r[i]} :: 0 <= i < |r| ==> LineAt(r, s, distance, i)
  }

  ghost predicate LineAt(r: string, s: string, distance: nat, i: nat)
    requires distance > 0 && i < |r|
  {
    CharIs(r[i], s, distance, i, i / (distance + 1), i % (distance + 1))
  }

  lemma {:induction false} WrappedIs(s: string, distance: nat)
    requires distance > 0
    ensures InLines(Wrapped(s, distance), s, distance)
    decreases |s|
  {
    var r := Wrapped(s, distance);
    if |s| <= distance {
      if s != "" { Small(|s| - 1, distance); }
      forall i | 0 <= i < |r| ensures LineAt(r, s, distance, i) { Small(i, distance + 1); }
    } else {
      var rest := s[distance..];
      WrappedIs(rest, distance);
      LengthBehind(|s|, distance);
      var line, more := s[..distance] + "\n", Wrapped(rest, distance);
      assert r == line + more;
      forall i | 0 <= i < |r| ensures LineAt(r, s, distance, i) {
        if i <= distance {
          FirstLine(line, more, s, distance, i);
        } else {
          var k := i - (distance + 1);
          assert r[i] == more[k] && LineAt(more, rest, distance, k);
          LaterLine(r, more, s, distance, k);
        }
      }
    }
  }

  lemma FirstLine(line: string, more: string, s: string, distance: nat, i: nat)
    requires 0 < distance < |s| && line == s[..distance] + "\n" && i <= distance
    ensures LineAt(line + more, s, distance, i)
  {
    Small(i, distance + 1);
    assert (line + more)[i] == line[i];
  }

  lemma LaterLine(r: string, more: string, s: string, distance: nat, k: nat)
    requires 0 < distance < |s| && k + (distance + 1) < |r| && k < |more| && r[k + (distance + 1)] == more[k]
    requires LineAt(more, s[distance..], distance, k)
    ensures LineAt(r, s, distance, k + (distance + 1))
  {
    OneMore(k, distance + 1);
    NextLineAt(r, more, s, distance, k, k / (distance + 1), k % (distance + 1));
  }

  /** The same for a given line `q` and place `c` in it. */
  ghost predicate CharIs(x: char, s: string, distance: nat, i: int, q: int, c: int) {
    if c == distance then x == '\n' else 0 <= i - q < |s| && x == s[i - q]
  }

  lemma NextLineAt(r: string, more: string, s: string, distance: nat, k: nat, q: int, c: int)
    requires 0 < distance < |s| && k + (distance + 1) < |r| && k < |more| && r[k + (distance + 1)] == more[k]
    requires CharIs(more[k], s[distance..], distance, k, q, c)
    ensures CharIs(r[k + (distance + 1)], s, distance, k + (distance + 1), q + 1, c)
  {
  }

  /** The output of `encode_with_line_breaks`: each place is a line break or a character of the standard encoding. */
  ghost predicate IsWrappedText(r: string, bytes: seq<byte>, width: nat)
    requires width > 0
  {
    && |r| == WrappedLength(4 * ((|bytes| + 2) / 3), width)
    && forall i {:trigger r[i]} :: 0 <= i < |r| ==>
         r[i] == if i % (width + 1) == width then '\n' else CharAt(bytes, false, i - i / (width + 1))
  }

  lemma WrappedText(r: string, s: string, bytes: seq<byte>, width: nat)
    requires width > 0 && InLines(r, s, width) && IsText(s, bytes, false)
    ensures IsWrappedText(r, bytes, width)
    ensures forall c :: c in r ==> c !in "-_."
  {
    forall i | 0 <= i < |r|
      ensures r[i] == if i % (width + 1) == width then '\n' else CharAt(bytes, false, i - i / (width + 1))
    {
      assert LineAt(r, s, width, i);
    }
  }

  /** `encode_with_line_breaks` */
  method EncodeWrapped(bytes: seq<byte>, width: nat) returns (r: string)
    requires |bytes| < TWO32 && width in {64, 76}
    ensures |AlphabetOf(false).chars| == 64 && r == Wrapped(Encoded(bytes, AlphabetOf(false)), width)
    ensures IsWrappedText(r, bytes, width)
    ensures forall c :: c in r ==> c !in "-_."
  {
    var s := Encode(bytes, false);
    r := InsertLinebreaks(s, width);
    WrappedIs(s, width);
    WrappedText(r, s, bytes, width);
  }

  /** `encode_pem` */
  method EncodePem(bytes: seq<byte>) returns (r: string)
    requires |bytes| < TWO32
    ensures IsWrappedText(r, bytes, 64)
  {
    r := EncodeWrapped(bytes, 64);
  }

  /** `encode_mime` */
  method EncodeMime(bytes: seq<byte>) returns (r: string)
    requires |bytes| < TWO32
    ensures IsWrappedText(r, bytes, 76)
  {
    r := EncodeWrapped(bytes, 76);
  }
}
