/**
 What encoding and decoding promise together: decoding gives the bytes back, from either alphabet,
 padded or stripped of padding, in one line or wrapped; and the shape of wrapped output.
 */
module Base64RoundTrips {
  import opened Sequences
  import opened Base64Codec

  // ---------------------------------------------------------------- groups

  function Front(bytes: seq<byte>): seq<byte> {
    if |bytes| <= 3 then bytes else bytes[..3]
  }

  /** What follows the first four characters does not matter to them. */
  lemma SameGroup(s: string, n: nat)
    requires 4 <= n <= |s|
    ensures Ungroup(s[..n]) == Ungroup(s) && Rest(s[..n], 4) == s[4..][..n - 4] && Rest(s, 4) == s[4..]
  {
    var f := s[..n];
    assert f[0] == s[0] && f[1] == s[1] && f[2] == s[2] && f[3] == s[3];
  }

  /** Decoding a group gives its bytes, whatever follows. */
  lemma GroupBack(bytes: seq<byte>, a: Alphabet, more: string)
    requires bytes != [] && Legible(a)
    ensures Ungroup(Group(bytes, a) + more) == Done(Front(bytes))
  {
    SameGroup(Group(bytes, a) + more, 4);
    assert (Group(bytes, a) + more)[..4] == Group(bytes, a);
    AloneBack(bytes, a);
  }

  lemma AloneBack(bytes: seq<byte>, a: Alphabet)
    requires bytes != [] && Legible(a)
    ensures Ungroup(Group(bytes, a)) == Done(Front(bytes))
  {
    if |bytes| == 1 {
      OneAlone(bytes, a);
    } else if |bytes| == 2 {
      TwoAlone(bytes, a);
    } else {
      ThreeAlone(bytes, a);
      assert Front(bytes) == bytes[..3];
    }
  }

  lemma OneAlone(bytes: seq<byte>, a: Alphabet)
    requires |bytes| == 1 && Legible(a)
    ensures Ungroup(Group(bytes, a)) == Done(bytes)
  {
    var b := bytes[0];
    OneBack(b);
    assert bytes == [b] && Ungroup(Group(bytes, a)) == Done([b]);
  }

  lemma TwoAlone(bytes: seq<byte>, a: Alphabet)
    requires |bytes| == 2 && Legible(a)
    ensures Ungroup(Group(bytes, a)) == Done(bytes)
  {
    var b, c, g := bytes[0], bytes[1], Group(bytes, a);
    assert PosOfChar(g[0]) == Some(b / 4) && PosOfChar(g[1]) == Some(b % 4 * 16 + c / 16) && PosOfChar(g[2]) == Some(c % 16 * 4);
    assert !IsPadding(g[2]) && IsPadding(g[3]);
    TwoBack(b, c);
    assert bytes == [b, c] && Ungroup(g) == Done([b, c]);
  }

  lemma ThreeAlone(bytes: seq<byte>, a: Alphabet)
    requires |bytes| >= 3 && Legible(a)
    ensures Ungroup(Group(bytes, a)) == Done(bytes[..3])
  {
    var b, c, d, g := bytes[0], bytes[1], bytes[2], Group(bytes, a);
    assert PosOfChar(g[0]) == Some(b / 4) && PosOfChar(g[1]) == Some(b % 4 * 16 + c / 16);
    assert PosOfChar(g[2]) == Some(c % 16 * 4 + d / 64) && PosOfChar(g[3]) == Some(d % 64);
    assert !IsPadding(g[2]) && !IsPadding(g[3]);
    ThreeBack(b, c, d);
    assert bytes[..3] == [b, c, d] && Ungroup(g) == Done([b, c, d]);
  }

  lemma OneBack(b: byte)
    ensures b / 4 * 4 + b % 4 * 16 / 16 == b
  {
  }

  lemma TwoBack(b: byte, c: byte)
    ensures b / 4 * 4 + (b % 4 * 16 + c / 16) / 16 == b
    ensures (b % 4 * 16 + c / 16) % 16 * 16 + c % 16 * 4 / 4 == c
  {
  }

  lemma ThreeBack(b: byte, c: byte, d: byte)
    ensures b / 4 * 4 + (b % 4 * 16 + c / 16) / 16 == b
    ensures (b % 4 * 16 + c / 16) % 16 * 16 + (c % 16 * 4 + d / 64) / 4 == c
    ensures (c % 16 * 4 + d / 64) % 4 * 64 + d % 64 == d
  {
  }

  lemma FrontRest(bytes: seq<byte>)
    ensures Front(bytes) + Rest(bytes, 3) == bytes
  {
  }

  // ---------------------------------------------------------------- round trips

  /** Decoding an encoding gives the bytes back, for both alphabets. */
  lemma {:induction false} RoundTrip(bytes: seq<byte>, a: Alphabet)
    requires Legible(a)
    ensures Decoded(Encoded(bytes, a)) == Done(bytes)
    decreases |bytes|
  {
    if bytes != [] {
      var g, more := Group(bytes, a), Encoded(Rest(bytes, 3), a);
      var s := Encoded(bytes, a);
      assert s == g + more && s != "" && Rest(s, 4) == more;
      GroupBack(bytes, a, more);
      RoundTrip(Rest(bytes, 3), a);
      FrontRest(bytes);
    }
  }

  /** `s` without the padding at its end. */
  function Stripped(s: string): string {
    if s != "" && IsPadding(s[|s| - 1]) then Stripped(s[..|s| - 1]) else s
  }

  lemma {:induction false} StrippedRear(x: string, y: string)
    requires Stripped(y) != ""
    ensures Stripped(x + y) == x + Stripped(y)
    decreases |y|
  {
    var s := x + y;
    assert s[|s| - 1] == y[|y| - 1];
    if IsPadding(y[|y| - 1]) {
      assert s[..|s| - 1] == x + y[..|y| - 1];
      StrippedRear(x, y[..|y| - 1]);
    }
  }

  /** How many characters of a group are not padding. */
  function Kept(bytes: seq<byte>): nat {
    if |bytes| == 1 then 2 else if |bytes| == 2 then 3 else 4
  }

  lemma StrippedGroup(bytes: seq<byte>, a: Alphabet)
    requires 0 < |bytes| <= 3 && Legible(a)
    ensures Stripped(Group(bytes, a)) == Group(bytes, a)[..Kept(bytes)]
    ensures Ungroup(Group(bytes, a)[..Kept(bytes)]) == Done(bytes)
  {
    var g := Group(bytes, a);
    GroupBack(bytes, a, "");
    assert g + "" == g;
    if |bytes| == 1 {
      assert g[..3][..2] == g[..2];
      assert Stripped(g[..2]) == g[..2];
      assert Stripped(g[..3]) == Stripped(g[..3][..2]);
    } else if |bytes| == 3 {
      assert g[..4] == g;
    }
  }

  /** Padding may be stripped before decoding. */
  lemma {:induction false} StrippedRoundTrip(bytes: seq<byte>, a: Alphabet)
    requires Legible(a)
    ensures Decoded(Stripped(Encoded(bytes, a))) == Done(bytes)
    ensures bytes != [] ==> Stripped(Encoded(bytes, a)) != ""
    decreases |bytes|
  {
    if bytes == [] {
    } else if |bytes| <= 3 {
      var g := Group(bytes, a);
      assert Encoded(bytes, a) == g + "" == g;
      StrippedGroup(bytes, a);
      assert Rest(Stripped(g), 4) == "";
      assert bytes + [] == bytes;
    } else {
      var g, more := Group(bytes, a), Encoded(Rest(bytes, 3), a);
      StrippedRoundTrip(Rest(bytes, 3), a);
      StrippedRear(g, more);
      var s := Stripped(g + more);
      assert s == g + Stripped(more) && Rest(s, 4) == Stripped(more);
      GroupBack(bytes, a, Stripped(more));
      FrontRest(bytes);
    }
  }

  // ---------------------------------------------------------------- line breaks

  lemma NoBreakInGroup(bytes: seq<byte>, a: Alphabet)
    requires bytes != [] && Legible(a)
    ensures '\n' !in Group(bytes, a)
  {
    var g := Group(bytes, a);
    assert g[0] != '\n' && g[1] != '\n' && g[2] != '\n' && g[3] != '\n';
  }

  lemma {:induction false} EncodedHasNoBreaks(bytes: seq<byte>, a: Alphabet)
    requires Legible(a)
    ensures '\n' !in Encoded(bytes, a)
    decreases |bytes|
  {
    if bytes != [] {
      EncodedHasNoBreaks(Rest(bytes, 3), a);
      NoBreakInGroup(bytes, a);
    }
  }

  lemma {:induction false} NothingToRemove(s: string)
    requires '\n' !in s
    ensures WithoutBreaks(s) == s
    decreases |s|
  {
    if s != "" {
      assert s == [s[0]] + s[1..];
      NothingToRemove(s[1..]);
    }
  }

  lemma {:induction false} RemoveFirstBreak(x: string, y: string)
    requires '\n' !in x
    ensures WithoutBreaks(x + "\n" + y) == x + WithoutBreaks(y)
    decreases |x|
  {
    var s := x + "\n" + y;
    if x == "" {
      assert s[1..] == y;
    } else {
      assert s[1..] == x[1..] + "\n" + y;
      RemoveFirstBreak(x[1..], y);
    }
  }

  /** Removing the line breaks undoes the wrapping. */
  lemma {:induction false} UnwrapWrapped(s: string, width: nat)
    requires width > 0 && '\n' !in s
    ensures WithoutBreaks(Wrapped(s, width)) == s
    decreases |s|
  {
    if |s| <= width {
      NothingToRemove(s);
    } else {
      UnwrapWrapped(s[width..], width);
      RemoveFirstBreak(s[..width], Wrapped(s[width..], width));
    }
  }

  /** PEM and MIME output, decoded with removal of line breaks, gives the bytes back. */
  lemma WrappedRoundTrip(bytes: seq<byte>, a: Alphabet, width: nat)
    requires Legible(a) && width > 0
    ensures Decoded(WithoutBreaks(Wrapped(Encoded(bytes, a), width))) == Done(bytes)
  {
    EncodedHasNoBreaks(bytes, a);
    UnwrapWrapped(Encoded(bytes, a), width);
    RoundTrip(bytes, a);
  }

  /** The lines of a text. */
  function Lines(s: string): (l: seq<string>)
    ensures |l| > 0
  {
    if s == "" then [""] else
    var l := Lines(s[1..]);
    if s[0] == '\n' then [""] + l else [[s[0]] + l[0]] + l[1..]
  }

  lemma {:induction false} FirstLine(x: string, y: string)
    requires '\n' !in x
    ensures Lines(x + "\n" + y) == [x] + Lines(y)
    ensures Lines(x) == [x]
    decreases |x|
  {
    var s := x + "\n" + y;
    if x == "" {
      assert s == "\n" + y && s[1..] == y;
    } else {
      assert s[1..] == x[1..] + "\n" + y;
      FirstLine(x[1..], y);
      assert x == [x[0]] + x[1..];
    }
  }

  /** Every line but the last has exactly the width; the last has at most that, and is not empty. */
  lemma {:induction false} LineWidths(s: string, width: nat)
    requires width > 0 && '\n' !in s
    ensures var l := Lines(Wrapped(s, width));
            && (forall k :: 0 <= k < |l| - 1 ==> |l[k]| == width)
            && |l[|l| - 1]| <= width && (s != "" ==> |l[|l| - 1]| > 0)
    decreases |s|
  {
    if |s| <= width {
      FirstLine(s, "");
    } else {
      var x, y := s[..width], s[width..];
      LineWidths(y, width);
      FirstLine(x, Wrapped(y, width));
      assert Lines(Wrapped(s, width)) == [x] + Lines(Wrapped(y, width));
    }
  }

  // ---------------------------------------------------------------- which input is accepted

  /** Only characters of the alphabets. */
  ghost predicate Readable(s: string) {
    forall k :: 0 <= k < |s| ==> PosOfChar(s[k]).Some?
  }

  /** Input without padding decodes exactly when its last group is not a single character. */
  lemma {:induction false} UnpaddedDecodes(s: string)
    requires Readable(s)
    ensures Decoded(s).Done? <==> |s| % 4 != 1
    ensures Decoded(s).Done? ==> |Decoded(s).value| == |s| * 3 / 4
    ensures Decoded(s).Failed? ==> Decoded(s).fault == OutOfRange
    decreases |s|
  {
    if s != "" {
      assert Readable(Rest(s, 4));
      UnpaddedDecodes(Rest(s, 4));
      NoPaddingReadable(s);
      FourthsOf(|s|);
    }
  }

  lemma FourthsOf(n: nat)
    ensures n >= 4 ==> (n - 4) * 3 / 4 + 3 == n * 3 / 4 && (n - 4) % 4 == n % 4
  {
  }

  lemma NoPaddingReadable(s: string)
    requires Readable(s)
    ensures forall k :: 0 <= k < |s| ==> !IsPadding(s[k])
    ensures |s| >= 2 ==> Ungroup(s).Done? && |Ungroup(s).value| == if |s| == 2 then 1 else if |s| == 3 then 2 else 3
  {
  }

  /** The groups before place `4 * k` decode by themselves. */
  lemma {:induction false} GroupsBefore(s: string, k: nat)
    requires 4 * k <= |s| && Decoded(s[..4 * k]).Done?
    ensures Decoded(s) == Prefixed(Decoded(s[..4 * k]).value, Decoded(s[4 * k..]))
    decreases k
  {
    if k == 0 {
      assert s[..0] == "" && s[0..] == s;
      PrefixedNone(Decoded(s));
    } else {
      SameGroup(s, 4 * k);
      OneGroup(s[..4 * k]);
      OneGroup(s);
      GroupsBefore(s[4..], k - 1);
      assert s[4..][4 * (k - 1)..] == s[4 * k..];
      PrefixedTwice(Ungroup(s).value, Decoded(s[4..][..4 * (k - 1)]).value, Decoded(s[4 * k..]));
    }
  }

  lemma BadGroup(s: string)
    requires |s| >= 2 && (IsPadding(s[0]) || IsPadding(s[1]))
    ensures Decoded(s) == Failed(BadChar)
  {
    assert Ungroup(s) == Failed(BadChar);
  }

  /**
   A padding character in the first two places of a group, after groups that decode, is what the source
   says cannot happen (`ExpectUnreachable`).
   */
  lemma EarlyPaddingFails(s: string, k: nat)
    requires 4 * k + 1 < |s| && Decoded(s[..4 * k]).Done? && (IsPadding(s[4 * k]) || IsPadding(s[4 * k + 1]))
    ensures Decoded(s) == Failed(BadChar)
  {
    GroupsBefore(s, k);
    BadGroup(s[4 * k..]);
  }

  // ---------------------------------------------------------------- encoding what was decoded

  /** Only characters of one alphabet. */
  ghost predicate Of(s: string, a: Alphabet)
    requires |a.chars| == 64
  {
    forall k {:trigger s[k]} :: 0 <= k < |s| ==> PosOfChar(s[k]).Some? && a.chars[PosOfChar(s[k]).value] == s[k]
  }

  /** How many low bits of the last character carry nothing, as a power of two. */
  function Unused(len: nat): nat {
    if len % 4 == 2 then 16 else if len % 4 == 3 then 4 else 1
  }

  /** The unused bits of the last character are zero. */
  predicate Canonical(s: string) {
    s != "" && PosOfChar(s[|s| - 1]).Some? ==> PosOfChar(s[|s| - 1]).value % Unused(|s|) == 0
  }

  /** The last group: it is encoded as it was exactly if its unused bits are zero. */
  lemma LastGroupBack(s: string, a: Alphabet)
    requires Legible(a) && Of(s, a) && 2 <= |s| <= 4
    ensures Ungroup(s).Done? && |Ungroup(s).value| == |s| - 1
    ensures Group(Ungroup(s).value, a)[..|s|] == s <==> Canonical(s)
  {
    if |s| == 2 {
      TwoLeft(s, a);
    } else if |s| == 3 {
      ThreeLeft(s, a);
    } else {
      FourLeft(s, a);
    }
  }

  lemma TwoLeft(s: string, a: Alphabet)
    requires Legible(a) && Of(s, a) && |s| == 2
    ensures Ungroup(s).Done? && |Ungroup(s).value| == 1
    ensures Group(Ungroup(s).value, a)[..2] == s <==> Canonical(s)
  {
    var p0, p1 := PosOfChar(s[0]).value, PosOfChar(s[1]).value;
    var g := Group(Ungroup(s).value, a);
    Sextets(p0, p1);
    LastSextet(p1, 16, a);
    assert g[0] == s[0] && g[1] == a.chars[p1 / 16 * 16];
    assert g[..2] == s <==> g[1] == s[1];
  }

  lemma ThreeLeft(s: string, a: Alphabet)
    requires Legible(a) && Of(s, a) && |s| == 3
    ensures Ungroup(s).Done? && |Ungroup(s).value| == 2
    ensures Group(Ungroup(s).value, a)[..3] == s <==> Canonical(s)
  {
    var p0, p1, p2 := PosOfChar(s[0]).value, PosOfChar(s[1]).value, PosOfChar(s[2]).value;
    assert !IsPadding(s[2]);
    assert Ungroup(s) == Done([p0 * 4 + p1 / 16, p1 % 16 * 16 + p2 / 4]);
    var g := Group(Ungroup(s).value, a);
    Sextets(p0, p1);
    Sextets(p1, p2);
    LastSextet(p2, 4, a);
    assert g[0] == s[0] && g[1] == s[1] && g[2] == a.chars[p2 / 4 * 4];
    assert g[..3] == s <==> g[2] == s[2];
  }

  /** The three bytes of four sextets give the sextets back. */
  lemma Recombined(p: nat, q: nat, r: nat, t: nat)
    requires p < 64 && q < 64 && r < 64 && t < 64
    ensures var b, c, d := p * 4 + q / 16, q % 16 * 16 + r / 4, r % 4 * 64 + t;
            && b < 256 && c < 256 && d < 256
            && b / 4 == p && b % 4 * 16 + c / 16 == q && c % 16 * 4 + d / 64 == r && d % 64 == t
  {
    Sextets(p, q);
    Sextets(q, r);
    Sextets(r, t);
  }

  /** A full group has no unused bits. */
  lemma FourLeft(s: string, a: Alphabet)
    requires Legible(a) && Of(s, a) && |s| >= 4
    ensures Ungroup(s).Done? && |Ungroup(s).value| == 3
    ensures Group(Ungroup(s).value, a) == s[..4]
  {
    assert s[..4] == [s[0], s[1], s[2], s[3]];
    FourChars(s[0], s[1], s[2], s[3], s, a);
  }

  lemma FourChars(w: char, x: char, y: char, z: char, s: string, a: Alphabet)
    requires Legible(a) && Of([w, x, y, z], a) && |s| >= 4 && s[..4] == [w, x, y, z]
    ensures Ungroup(s).Done? && |Ungroup(s).value| == 3
    ensures Group(Ungroup(s).value, a) == [w, x, y, z]
  {
    var v := [w, x, y, z];
    assert PosOfChar(v[0]).Some? && PosOfChar(v[1]).Some? && PosOfChar(v[2]).Some? && PosOfChar(v[3]).Some?;
    var p0, p1, p2, p3 := PosOfChar(w).value, PosOfChar(x).value, PosOfChar(y).value, PosOfChar(z).value;
    assert s[0] == v[0] && s[1] == v[1] && s[2] == v[2] && s[3] == v[3];
    FourRead(s, p0, p1, p2, p3);
    FourWritten(p0, p1, p2, p3, a);
  }

  lemma FourRead(s: string, p: nat, q: nat, r: nat, t: nat)
    requires |s| >= 4 && PosOfChar(s[0]) == Some(p) && PosOfChar(s[1]) == Some(q) && PosOfChar(s[2]) == Some(r) && PosOfChar(s[3]) == Some(t)
    ensures Ungroup(s) == Done([p * 4 + q / 16, q % 16 * 16 + r / 4, r % 4 * 64 + t])
  {
  }

  lemma FourWritten(p: nat, q: nat, r: nat, t: nat, a: Alphabet)
    requires p < 64 && q < 64 && r < 64 && t < 64 && |a.chars| == 64
    ensures Group([p * 4 + q / 16, q % 16 * 16 + r / 4, r % 4 * 64 + t], a) == [a.chars[p], a.chars[q], a.chars[r], a.chars[t]]
  {
    Recombined(p, q, r, t);
  }

  lemma Sextets(p: nat, q: nat)
    requires p < 64 && q < 64
    ensures (p * 4 + q / 16) / 4 == p && (p * 4 + q / 16) % 4 * 16 == q / 16 * 16
    ensures (p % 16 * 16 + q / 4) / 16 == p % 16 && (p % 16 * 16 + q / 4) % 16 * 4 == q / 4 * 4
    ensures p / 16 * 16 + p % 16 == p && p / 4 * 4 + p % 4 == p && (p % 4 * 64 + q) / 64 == p % 4 && (p % 4 * 64 + q) % 64 == q
  {
  }

  lemma LastSextet(p: nat, unused: nat, a: Alphabet)
    requires Legible(a) && p < 64 && (unused == 4 || unused == 16)
    ensures a.chars[p / unused * unused] == a.chars[p] <==> p % unused == 0
  {
    assert PosOfChar(a.chars[p]) == Some(p);
    assert PosOfChar(a.chars[p / unused * unused]) == Some(p / unused * unused);
  }

  /** Decoding and encoding the rest of a text, behind its first four characters. */
  lemma EncodeBehind(s: string, a: Alphabet)
    requires Legible(a) && Of(s, a) && |s| > 4 && Decoded(s[4..]).Done? && Decoded(s[4..]).value != []
    ensures Decoded(s).Done?
    ensures Stripped(Encoded(Decoded(s).value, a)) == s[..4] + Stripped(Encoded(Decoded(s[4..]).value, a))
  {
    FourLeft(s, a);
    var u, m := Ungroup(s).value, Decoded(s[4..]).value;
    assert Rest(s, 4) == s[4..];
    OneGroup(s);
    assert Rest(u + m, 3) == m;
    FirstGroup(u, m, a);
    StrippedRoundTrip(m, a);
    StrippedRear(Group(u, a), Encoded(m, a));
  }

  lemma FirstGroup(u: seq<byte>, m: seq<byte>, a: Alphabet)
    requires |u| == 3 && |a.chars| == 64
    ensures Encoded(u + m, a) == Group(u, a) + Encoded(m, a)
  {
    assert Rest(u + m, 3) == m;
    assert Group(u + m, a) == Group(u, a);
  }

  lemma ShortBack(s: string, a: Alphabet)
    requires Legible(a) && Of(s, a) && 2 <= |s| <= 4
    ensures Decoded(s).Done? && Stripped(Encoded(Decoded(s).value, a)) == s <==> Canonical(s)
  {
    LastGroupBack(s, a);
    OneGroup(s);
    var v := Ungroup(s).value;
    assert Rest(s, 4) == "" && v + [] == v && Decoded(s).value == v;
    StrippedGroup(v, a);
    assert Encoded(v, a) == Group(v, a) + "" == Group(v, a);
  }

  lemma RestOf(s: string, a: Alphabet)
    requires |a.chars| == 64 && Of(s, a) && |s| > 4
    ensures Of(s[4..], a) && Readable(s) && Readable(s[4..]) && (Canonical(s) <==> Canonical(s[4..]))
  {
    var rest := s[4..];
    forall k | 0 <= k < |rest| ensures PosOfChar(rest[k]).Some? && a.chars[PosOfChar(rest[k]).value] == rest[k] {
      assert rest[k] == s[4 + k];
    }
    assert rest[|rest| - 1] == s[|s| - 1] && |rest| % 4 == |s| % 4;
  }

  /**
   Text of one alphabet without padding, decoded and encoded again, is the same text if and only if
   the unused bits of its last character are zero.
   */
  lemma {:induction false} DecodeEncode(s: string, a: Alphabet)
    requires Legible(a) && Of(s, a) && Decoded(s).Done?
    ensures Stripped(Encoded(Decoded(s).value, a)) == s <==> Canonical(s)
    decreases |s|
  {
    if 0 < |s| <= 4 {
      ShortBack(s, a);
    } else if |s| > 4 {
      var rest := s[4..];
      RestOf(s, a);
      UnpaddedDecodes(s);
      UnpaddedDecodes(rest);
      EncodeBehind(s, a);
      DecodeEncode(rest, a);
      SameFront(s, 4, Stripped(Encoded(Decoded(rest).value, a)));
    }
  }

  lemma SameFront(s: string, n: nat, y: string)
    requires n <= |s|
    ensures s[..n] + y == s <==> y == s[n..]
  {
    assert s == s[..n] + s[n..];
    if s[..n] + y == s {
      assert y == (s[..n] + y)[n..] == s[n..];
    }
  }

  /** Two texts that decode to the same byte; the first is the canonical one. */
  lemma SameByte()
    ensures Decoded("QQ") == Decoded("QR") == Done([65])
    ensures Canonical("QQ") && !Canonical("QR")
  {
    assert Rest("QQ", 4) == "" && Rest("QR", 4) == "";
    var a: seq<byte> := [65];
    assert Ungroup("QQ") == Done(a) && Ungroup("QR") == Done(a) && a + [] == a;
    OneGroup("QQ");
    OneGroup("QR");
  }

  // ---------------------------------------------------------------- which texts decode

  /** The decoder reads the characters of both alphabets, each as its place in them, and no others. */
  lemma ReadIs(c: char, v: nat)
    ensures PosOfChar(c) == Some(v) <==> v < 64 && (c == Symbol(false, v) || c == Symbol(true, v))
  {
  }

  ghost predicate InAlphabet(c: char) {
    exists v: nat :: v < 64 && (c == Symbol(false, v) || c == Symbol(true, v))
  }

  lemma ReadsIf(c: char)
    ensures InAlphabet(c) <==> PosOfChar(c).Some?
  {
    if PosOfChar(c).Some? { ReadIs(c, PosOfChar(c).value); }
    if InAlphabet(c) {
      var v: nat :| v < 64 && (c == Symbol(false, v) || c == Symbol(true, v));
      ReadIs(c, v);
    }
  }

  /** A place of the second half of a group is readable, or the text or the data of the group ends there. */
  ghost predicate EndsAt(s: string, k: nat) {
    k >= |s| || s[k] == '=' || s[k] == '.'
  }

  /** The group that begins at `k`: two characters, and two more as far as it goes. */
  ghost predicate GoodGroup(s: string, k: nat) {
    && k + 1 < |s| && InAlphabet(s[k]) && InAlphabet(s[k + 1])
    && (EndsAt(s, k + 2) || (InAlphabet(s[k + 2]) && (EndsAt(s, k + 3) || InAlphabet(s[k + 3]))))
  }

  lemma FirstIsGood(s: string)
    requires s != ""
    ensures Ungroup(s).Done? <==> GoodGroup(s, 0)
  {
    ReadsIf(s[0]);
    if |s| > 1 { ReadsIf(s[1]); }
    if |s| > 2 { ReadsIf(s[2]); }
    if |s| > 3 { ReadsIf(s[3]); }
  }

  lemma GoodBehind(s: string, k: nat)
    ensures GoodGroup(Rest(s, 4), k) <==> GoodGroup(s, k + 4)
  {
  }

  /** What a place of a group adds to its 24 bits: nothing where its data has ended. */
  function Place(s: string, k: nat): nat {
    if k < |s| && PosOfChar(s[k]).Some? then PosOfChar(s[k]).value else 0
  }

  /** A good group gives as many bytes as its characters hold in full, from the most significant bits on. */
  lemma GroupGives(s: string)
    requires s != "" && GoodGroup(s, 0)
    ensures Ungroup(s).Done?
    ensures var v := Ungroup(s).value;
            var more := if EndsAt(s, 2) then 0 else Place(s, 2);
            var last := if EndsAt(s, 2) || EndsAt(s, 3) then 0 else Place(s, 3);
            var n := Place(s, 0) * 262144 + Place(s, 1) * 4096 + more * 64 + last;
            && |v| == (if EndsAt(s, 2) then 1 else if EndsAt(s, 3) then 2 else 3)
            && v[0] == n / 65536 && (|v| > 1 ==> v[1] == n / 256 % 256) && (|v| > 2 ==> v[2] == n % 256)
  {
    FirstIsGood(s);
    ReadsIf(s[0]);
    ReadsIf(s[1]);
    var more := if EndsAt(s, 2) then 0 else Place(s, 2);
    var last := if EndsAt(s, 2) || EndsAt(s, 3) then 0 else Place(s, 3);
    BytesOf(Place(s, 0), Place(s, 1), more, last);
  }

  lemma BytesOf(w: nat, x: nat, y: nat, z: nat)
    requires w < 64 && x < 64 && y < 64 && z < 64
    ensures var n := w * 262144 + x * 4096 + y * 64 + z;
            n / 65536 == w * 4 + x / 16 && n / 256 % 256 == x % 16 * 16 + y / 4 && n % 256 == y % 4 * 64 + z
  {
    var a, b, c := w * 4 + x / 16, x % 16 * 16 + y / 4, y % 4 * 64 + z;
    assert x == x / 16 * 16 + x % 16 && y == y / 4 * 4 + y % 4;
    assert w * 262144 + x * 4096 + y * 64 + z == (a * 256 + b) * 256 + c;
    ThreeBytes(a, b, c);
  }

  lemma ThreeBytes(a: nat, b: nat, c: nat)
    requires b < 256 && c < 256
    ensures var n := (a * 256 + b) * 256 + c; n / 65536 == a && n / 256 % 256 == b && n % 256 == c
  {
    assert ((a * 256 + b) * 256 + c) / 256 == a * 256 + b;
  }

  /** A text decodes if and only if all its groups are good. */
  lemma {:induction false} DecodesIff(s: string)
    ensures Decoded(s).Done? <==> forall k: nat :: k < |s| && k % 4 == 0 ==> GoodGroup(s, k)
    decreases |s|
  {
    if s != "" {
      FirstIsGood(s);
      var rest := Rest(s, 4);
      DecodesIff(rest);
      forall k: nat | 4 <= k < |s| && k % 4 == 0 ensures GoodGroup(s, k) <==> GoodGroup(rest, k - 4) { GoodBehind(s, k - 4); }
      if k: nat :| k < |rest| && k % 4 == 0 && !GoodGroup(rest, k) {
        assert (k + 4) % 4 == 0 && k + 4 < |s| && !GoodGroup(s, k + 4);
      }
      assert forall k: nat :: k < |s| && k % 4 == 0 && k > 0 ==> k >= 4;
      if (forall k: nat :: k < |rest| && k % 4 == 0 ==> GoodGroup(rest, k)) && GoodGroup(s, 0) {
        forall k: nat | k < |s| && k % 4 == 0 ensures GoodGroup(s, k) {
          if k > 0 { assert (k - 4) % 4 == 0 && GoodGroup(rest, k - 4); }
        }
      }
    }
  }
}
