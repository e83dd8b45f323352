/** The web GUI's base64 decoder and the basic-auth check built on it. */
module Base64 {
  import opened Prelude

  const COLON: Byte := 58
  const BASIC: seq<Byte> := [66, 97, 115, 105, 99, 32]

  // ----- the alphabet of section 4 of RFC 4648 -----

  /** The character of a sextet: A-Z, a-z, 0-9, '+', '/'. */
  function Digit(v: int): Byte
    requires 0 <= v < 64
  {
    if v < 26 then 65 + v else if v < 52 then 97 + v - 26 else if v < 62 then 48 + v - 52 else if v == 62 then 43 else 47
  }

  /** The sextet of a character, -1 outside the alphabet. */
  function Value(c: Byte): int {
    if 65 <= c <= 90 then c - 65 else if 97 <= c <= 122 then c - 97 + 26 else if 48 <= c <= 57 then c - 48 + 52
    else if c == 43 then 62 else if c == 47 then 63 else -1
  }

  lemma ValueOfDigit(v: int)
    requires 0 <= v < 64
    ensures Value(Digit(v)) == v
  {
  }

  const PAD: Byte := 61

  // The characters of three bytes, two bytes and one byte.

  function Group3(x: Byte, y: Byte, z: Byte): seq<Byte> {
    [Digit(x / 4), Digit(x % 4 * 16 + y / 16), Digit(y % 16 * 4 + z / 64), Digit(z % 64)]
  }

  function Group2(x: Byte, y: Byte): seq<Byte> {
    [Digit(x / 4), Digit(x % 4 * 16 + y / 16), Digit(y % 16 * 4), PAD]
  }

  function Group1(x: Byte): seq<Byte> {
    [Digit(x / 4), Digit(x % 4 * 16), PAD, PAD]
  }

  /** The standard encoder, with padding. */
  function Encode(b: seq<Byte>): seq<Byte> {
    if |b| == 0 then []
    else if |b| == 1 then Group1(b[0])
    else if |b| == 2 then Group2(b[0], b[1])
    else Group3(b[0], b[1], b[2]) + Encode(b[3..])
  }

  // ----- what the decoder computes -----

  /** The sextets of the longest prefix inside the alphabet. */
  function Sextets(input: seq<Byte>): (s: seq<int>)
    ensures forall i :: 0 <= i < |s| ==> 0 <= s[i] < 64
  {
    if input == [] || Value(input[0]) == -1 then [] else [Value(input[0])] + Sextets(input[1..])
  }

  /** Byte k of a sextet stream spans two neighbouring sextets. */
  function ByteAt(s: seq<int>, k: nat): Byte
    requires 4 * k / 3 + 1 < |s| && forall i :: 0 <= i < |s| ==> 0 <= s[i] < 64
  {
    var i := 4 * k / 3;
    if k % 3 == 0 then s[i] * 4 + s[i + 1] / 16
    else if k % 3 == 1 then s[i] % 16 * 16 + s[i + 1] / 4
    else s[i] % 4 * 64 + s[i + 1]
  }

  function Bytes(s: seq<int>): seq<Byte>
    requires forall i :: 0 <= i < |s| ==> 0 <= s[i] < 64
  {
    seq(3 * |s| / 4, k requires 0 <= k < 3 * |s| / 4 => ByteAt(s, k))
  }

  function Decoded(input: seq<Byte>): seq<Byte> {
    Bytes(Sextets(input))
  }

  // ----- the decoder -----

  /** A 32-bit signed value, wrapped around. */
  function Wrap(x: int): int {
    (x + 0x8000_0000) % 0x1_0000_0000 - 0x8000_0000
  }

  lemma WrapKeepsLowBits(x: int)
    ensures Wrap(x) % 4096 == x % 4096
  {
    var q := (x + 0x8000_0000) / 0x1_0000_0000;
    assert Wrap(x) == x - 4096 * (0x10_0000 * q);
    AddMultiple(x, -(0x10_0000 * q), 4096);
  }

  lemma AddMultiple(x: int, q: int, m: int)
    requires m > 0
    ensures (x + m * q) % m == x % m
  {
    var r := x % m;
    assert x == m * (x / m) + r;
    assert x + m * q == m * (x / m + q) + r;
    QuotientUnique(x + m * q, m, x / m + q, r);
  }

  lemma ProductAtLeast(m: int, d: int)
    requires m > 0 && d >= 1
    ensures m * d >= m
  {
  }

  lemma QuotientUnique(a: int, m: int, q: int, r: int)
    requires m > 0 && 0 <= r < m && a == m * q + r
    ensures a / m == q && a % m == r
  {
    var d := a / m - q;
    assert m * d == r - a % m;
    if d > 0 { ProductAtLeast(m, d); }
    if d < 0 { ProductAtLeast(m, -d); }
  }

  /** The accumulator is never masked; only its low twelve bits are ever looked at. */
  function Shifted(val: int, valb: int): Byte
    requires valb == 0 || valb == 2 || valb == 4
  {
    (if valb == 0 then val else if valb == 2 then val / 4 else val / 16) % 256
  }

  lemma ShiftedLowBits(val: int, valb: int)
    requires valb == 0 || valb == 2 || valb == 4
    ensures Shifted(val, valb) == Shifted(val % 4096, valb)
  {
    var q, low := val / 4096, val % 4096;
    assert val == 4096 * q + low;
    var p := if valb == 0 then 1 else if valb == 2 then 4 else 16;
    var c := 4096 / p;
    assert val == p * (c * q + low / p) + low % p by {
      assert low == p * (low / p) + low % p;
      assert p * (c * q) == 4096 * q;
    }
    QuotientUnique(val, p, c * q + low / p, low % p);
    var k := c / 256;
    assert c * q == 256 * (k * q);
    AddMultiple(low / p, k * q, 256);
  }

  method Base64Decode(input: seq<Byte>) returns (out: seq<Byte>)
    ensures out == Decoded(input)
  {
    var T := BuildTable();
    out := [];
    var val, valb := 0, -8;
    ghost var s: seq<int> := [];
    for i := 0 to |input|
      invariant |s| == i && forall j :: 0 <= j < i ==> 0 <= s[j] < 64
      invariant s + Sextets(input[i..]) == Sextets(input)
      invariant |out| == 3 * i / 4 && valb == 6 * i - 8 * |out| - 8
      invariant i >= 1 ==> val % 64 == s[i - 1]
      invariant out == Bytes(s)
    {
      var c := input[i];
      assert input[i..] == [c] + input[i + 1..];
      if T[c] == -1 {
        assert Sextets(input[i..]) == [];
        assert s + [] == s;
        return;
      }
      SextetsCons(T[c], c, input[i + 1..]);
      AccumulatorStep(val, T[c]);
      val := Wrap(val * 64 + T[c]);
      valb := valb + 6;
      ghost var s1 := s + [T[c]];
      AppendAssociates(s, [T[c]], Sextets(input[i + 1..]));
      OneMoreSextet(s, T[c], val, valb);
      if valb >= 0 {
        out := out + [Shifted(val, valb)];
        valb := valb - 8;
      }
      s := s1;
    }
    assert s + [] == s;
  }

  lemma AccumulatorStep(val: int, t: int)
    requires 0 <= t < 64
    ensures Wrap(val * 64 + t) % 64 == t
    ensures Wrap(val * 64 + t) % 4096 == val % 64 * 64 + t
  {
    WrapKeepsLowBits(val * 64 + t);
    assert val == 64 * (val / 64) + val % 64;
    QuotientUnique(val * 64 + t, 4096, val / 64, val % 64 * 64 + t);
    var w := Wrap(val * 64 + t);
    QuotientUnique(w, 64, 64 * (w / 4096) + val % 64, t);
  }

  /** A further sextet completes a byte when the bit count says so; the byte depends on the last two
      sextets alone. */
  lemma OneMoreSextet(s: seq<int>, t: int, val: int, valb: int)
    requires 0 <= t < 64 && forall i :: 0 <= i < |s| ==> 0 <= s[i] < 64
    requires valb == 6 * |s| - 8 * (3 * |s| / 4) - 2
    requires |s| >= 1 ==> val % 4096 == s[|s| - 1] * 64 + t
    ensures valb >= 0 ==> (valb == 0 || valb == 2 || valb == 4) && Bytes(s + [t]) == Bytes(s) + [Shifted(val, valb)]
    ensures valb < 0 ==> Bytes(s + [t]) == Bytes(s)
    ensures 3 * (|s| + 1) / 4 == 3 * |s| / 4 + if valb >= 0 then 1 else 0
  {
    var m, k, s1 := |s|, 3 * |s| / 4, s + [t];
    BitCount(m, k, valb);
    forall j | 0 <= j < k ensures Bytes(s1)[j] == Bytes(s)[j] {
      assert ByteAt(s1, j) == ByteAt(s, j);
    }
    if valb >= 0 {
      ShiftedLowBits(val, valb);
      ShiftedPair(s[m - 1], t, valb);
      assert Bytes(s1)[k] == ByteAt(s1, k);
    }
  }

  lemma BitCount(m: nat, k: nat, valb: int)
    requires k == 3 * m / 4 && valb == 6 * m - 8 * k - 2
    ensures 3 * (m + 1) / 4 == k + if valb >= 0 then 1 else 0
    ensures valb >= 0 ==> m >= 1 && 4 * k / 3 == m - 1 && valb == 4 - 2 * (k % 3)
  {
  }

  lemma ShiftedPair(p: int, t: int, valb: int)
    requires 0 <= p < 64 && 0 <= t < 64
    ensures valb == 4 ==> Shifted(p * 64 + t, valb) == p * 4 + t / 16
    ensures valb == 2 ==> Shifted(p * 64 + t, valb) == p % 16 * 16 + t / 4
    ensures valb == 0 ==> Shifted(p * 64 + t, valb) == p % 4 * 64 + t
  {
    var low := p * 64 + t;
    QuotientUnique(low, 16, p * 4 + t / 16, t % 16);
    QuotientUnique(low, 4, p * 16 + t / 4, t % 4);
    QuotientUnique(p * 4 + t / 16, 256, 0, p * 4 + t / 16);
    QuotientUnique(p * 16 + t / 4, 256, p / 16, p % 16 * 16 + t / 4);
    QuotientUnique(low, 256, p / 4, p % 4 * 64 + t);
  }

  lemma SextetsCons(v: int, c: Byte, rest: seq<Byte>)
    requires Value(c) == v != -1
    ensures Sextets([c] + rest) == [v] + Sextets(rest)
  {
    assert ([c] + rest)[1..] == rest;
  }

  /** The loop over the alphabet. */
  method BuildTable() returns (T: seq<int>)
    ensures |T| == 256 && forall c: Byte :: T[c] == Value(c)
  {
    T := seq(256, _ => -1);
    for i := 0 to 64
      invariant |T| == 256
      invariant forall c: Byte :: T[c] == if Value(c) < i then Value(c) else -1
    {
      ValueOfDigit(i);
      T := T[Digit(i) := i];
    }
  }

  // ----- round trip -----

  lemma BytesOfGroup(g: seq<int>, s: seq<int>)
    requires |g| == 4 && (forall i :: 0 <= i < 4 ==> 0 <= g[i] < 64) && forall i :: 0 <= i < |s| ==> 0 <= s[i] < 64
    ensures Bytes(g + s) == [g[0] * 4 + g[1] / 16, g[1] % 16 * 16 + g[2] / 4, g[2] % 4 * 64 + g[3]] + Bytes(s)
  {
    var all := Bytes(g + s);
    assert |all| == 3 + |Bytes(s)|;
    forall k | 3 <= k < |all| ensures all[k] == Bytes(s)[k - 3] {
      assert 4 * k / 3 == 4 + 4 * (k - 3) / 3 && k % 3 == (k - 3) % 3;
      assert ByteAt(g + s, k) == ByteAt(s, k - 3);
    }
    assert ByteAt(g + s, 0) == g[0] * 4 + g[1] / 16;
    assert ByteAt(g + s, 1) == g[1] % 16 * 16 + g[2] / 4;
    assert ByteAt(g + s, 2) == g[2] % 4 * 64 + g[3];
  }

  /** The decoder inverts the standard encoder on every byte string. */
  lemma {:induction false} DecodeInvertsEncode(b: seq<Byte>)
    ensures Decoded(Encode(b)) == b
    decreases |b|
  {
    if |b| == 1 {
      OneByte(b[0]);
      assert b == [b[0]];
    } else if |b| == 2 {
      TwoBytes(b[0], b[1]);
      assert b == [b[0], b[1]];
    } else if |b| >= 3 {
      DecodeInvertsEncode(b[3..]);
      ThreeBytes(b[0], b[1], b[2], Encode(b[3..]));
      assert b == [b[0], b[1], b[2]] + b[3..];
    }
  }

  /** The decoder stops at the first character outside the alphabet, whatever follows. */
  lemma {:induction false} DecodeStops(a: seq<Byte>, c: Byte, rest: seq<Byte>)
    requires forall b :: b in a ==> Value(b) != -1
    requires !(65 <= c <= 90) && !(97 <= c <= 122) && !(48 <= c <= 57) && c != 43 && c != 47
    ensures Decoded(a + [c] + rest) == Decoded(a)
  {
    SextetsStop(a, c, rest);
  }

  lemma {:induction false} SextetsStop(a: seq<Byte>, c: Byte, rest: seq<Byte>)
    requires Value(c) == -1 && forall b :: b in a ==> Value(b) != -1
    ensures Sextets(a + [c] + rest) == Sextets(a)
    decreases |a|
  {
    if a != [] {
      assert (a + [c] + rest)[1..] == a[1..] + [c] + rest;
      SextetsStop(a[1..], c, rest);
    }
  }

  lemma DigitCons(v: int, rest: seq<Byte>)
    requires 0 <= v < 64
    ensures Sextets([Digit(v)] + rest) == [v] + Sextets(rest)
  {
    ValueOfDigit(v);
    SextetsCons(v, Digit(v), rest);
  }

  lemma Regroup(x: Byte, y: Byte, z: Byte)
    ensures x / 4 * 4 + (x % 4 * 16 + y / 16) / 16 == x
    ensures (x % 4 * 16 + y / 16) % 16 * 16 + (y % 16 * 4 + z / 64) / 4 == y
    ensures (y % 16 * 4 + z / 64) % 4 * 64 + z % 64 == z
  {
  }

  lemma TwoDigits(p: int, q: int, rest: seq<Byte>)
    requires 0 <= p < 64 && 0 <= q < 64
    ensures Sextets([Digit(p), Digit(q)] + rest) == [p, q] + Sextets(rest)
  {
    DigitCons(q, rest);
    DigitCons(p, [Digit(q)] + rest);
    assert [Digit(p), Digit(q)] + rest == [Digit(p)] + ([Digit(q)] + rest);
  }

  lemma FourDigits(p: int, q: int, r: int, t: int, rest: seq<Byte>)
    requires 0 <= p < 64 && 0 <= q < 64 && 0 <= r < 64 && 0 <= t < 64
    ensures Sextets([Digit(p), Digit(q), Digit(r), Digit(t)] + rest) == [p, q, r, t] + Sextets(rest)
  {
    var tail := [Digit(r), Digit(t)] + rest;
    TwoDigits(r, t, rest);
    TwoDigits(p, q, tail);
    assert [Digit(p), Digit(q), Digit(r), Digit(t)] + rest == [Digit(p), Digit(q)] + tail;
  }

  lemma FourDecoded(p: int, q: int, r: int, t: int, rest: seq<Byte>)
    requires 0 <= p < 64 && 0 <= q < 64 && 0 <= r < 64 && 0 <= t < 64
    ensures Decoded([Digit(p), Digit(q), Digit(r), Digit(t)] + rest)
         == [p * 4 + q / 16, q % 16 * 16 + r / 4, r % 4 * 64 + t] + Decoded(rest)
  {
    FourDigits(p, q, r, t, rest);
    BytesOfGroup([p, q, r, t], Sextets(rest));
  }

  lemma ThreeBytes(x: Byte, y: Byte, z: Byte, rest: seq<Byte>)
    ensures Decoded(Group3(x, y, z) + rest) == [x, y, z] + Decoded(rest)
  {
    Regroup(x, y, z);
    FourDecoded(x / 4, x % 4 * 16 + y / 16, y % 16 * 4 + z / 64, z % 64, rest);
  }

  lemma ThreeDigits(p: int, q: int, r: int)
    requires 0 <= p < 64 && 0 <= q < 64 && 0 <= r < 64
    ensures Sextets([Digit(p), Digit(q), Digit(r), PAD]) == [p, q, r]
  {
    DigitCons(r, [PAD]);
    DigitCons(q, [Digit(r)] + [PAD]);
    DigitCons(p, [Digit(q)] + ([Digit(r)] + [PAD]));
    assert [Digit(p), Digit(q), Digit(r), PAD] == [Digit(p)] + ([Digit(q)] + ([Digit(r)] + [PAD]));
    assert [p] + ([q] + ([r] + [])) == [p, q, r];
  }

  lemma TwoBytes(x: Byte, y: Byte)
    ensures Decoded(Group2(x, y)) == [x, y]
  {
    var p, q, r := x / 4, x % 4 * 16 + y / 16, y % 16 * 4;
    Regroup(x, y, 0);
    ThreeDigits(p, q, r);
    assert Bytes([p, q, r]) == [ByteAt([p, q, r], 0), ByteAt([p, q, r], 1)];
  }

  lemma OneByte(x: Byte)
    ensures Decoded(Group1(x)) == [x]
  {
    var p, q := x / 4, x % 4 * 16;
    Regroup(x, 0, 0);
    DigitCons(q, [PAD, PAD]);
    DigitCons(p, [Digit(q)] + [PAD, PAD]);
    assert [Digit(p), Digit(q), PAD, PAD] == [Digit(p)] + ([Digit(q)] + [PAD, PAD]);
    assert [p] + ([q] + []) == [p, q];
    assert Bytes([p, q]) == [ByteAt([p, q], 0)];
  }

  // ----- basic auth -----

  function FindColon(s: seq<Byte>): nat {
    if s == [] || s[0] == COLON then 0 else 1 + FindColon(s[1..])
  }

  lemma {:induction false} FirstColon(user: seq<Byte>, pass: seq<Byte>)
    ensures FindColon(user + [COLON] + pass) <= |user|
    ensures COLON !in user <==> FindColon(user + [COLON] + pass) == |user|
    ensures FindColon(user + [COLON] + pass) < |user| ==> user[FindColon(user + [COLON] + pass)] == COLON
    decreases |user|
  {
    if user != [] && user[0] != COLON {
      assert (user + [COLON] + pass)[1..] == user[1..] + [COLON] + pass;
      FirstColon(user[1..], pass);
    }
  }

  /** isAuthOk on the value of the authorization header. */
  method IsAuthOk(auth: seq<Byte>, expectedUser: seq<Byte>, expectedPass: seq<Byte>) returns (ok: bool)
    ensures ok <==> Accepts(auth, expectedUser, expectedPass)
  {
    ok := false;
    if |auth| >= 6 && auth[..6] == BASIC {
      var decoded := Base64Decode(auth[6..]);
      var sep := FindColon(decoded);
      FindColonBound(decoded);
      if sep < |decoded| {
        ok := decoded[..sep] == expectedUser && decoded[sep + 1..] == expectedPass;
      }
    }
  }

  lemma FindColonBound(s: seq<Byte>)
    ensures FindColon(s) <= |s|
  {
  }

  /** The text splits at its first colon into the expected pair. */
  predicate SplitsInto(decoded: seq<Byte>, expectedUser: seq<Byte>, expectedPass: seq<Byte>) {
    FindColonBound(decoded);
    var sep := FindColon(decoded);
    sep < |decoded| && decoded[..sep] == expectedUser && decoded[sep + 1..] == expectedPass
  }

  predicate Accepts(auth: seq<Byte>, expectedUser: seq<Byte>, expectedPass: seq<Byte>) {
    |auth| >= 6 && auth[..6] == BASIC && SplitsInto(Decoded(auth[6..]), expectedUser, expectedPass)
  }

  lemma SplitsExactly(user: seq<Byte>, pass: seq<Byte>, expectedUser: seq<Byte>, expectedPass: seq<Byte>)
    ensures SplitsInto(user + [COLON] + pass, expectedUser, expectedPass)
       <==> user + [COLON] + pass == expectedUser + [COLON] + expectedPass && COLON !in expectedUser
  {
    var joined := user + [COLON] + pass;
    FirstColon(user, pass);
    var sep := FindColon(joined);
    assert joined[sep] == COLON;
    assert joined == joined[..sep] + [COLON] + joined[sep + 1..];
    FirstColon(joined[..sep], joined[sep + 1..]);
    if joined == expectedUser + [COLON] + expectedPass && COLON !in expectedUser {
      FirstColon(expectedUser, expectedPass);
      assert joined[..sep] == expectedUser;
    }
  }

  /** For every header value: it is accepted exactly when it starts with "Basic " and what follows decodes to
      the configured user, a colon and the configured password, the user having no colon. */
  lemma AcceptsIff(auth: seq<Byte>, expectedUser: seq<Byte>, expectedPass: seq<Byte>)
    ensures Accepts(auth, expectedUser, expectedPass)
       <==> && |auth| >= 6 && auth[..6] == [66, 97, 115, 105, 99, 32]
            && Decoded(auth[6..]) == expectedUser + [COLON] + expectedPass && COLON !in expectedUser
  {
    if |auth| >= 6 && auth[..6] == BASIC {
      var decoded := Decoded(auth[6..]);
      FindColonBound(decoded);
      var sep := FindColon(decoded);
      if SplitsInto(decoded, expectedUser, expectedPass) {
        FoundColon(decoded);
        assert decoded == decoded[..sep] + [COLON] + decoded[sep + 1..];
        SplitsExactly(decoded[..sep], decoded[sep + 1..], expectedUser, expectedPass);
      } else if decoded == expectedUser + [COLON] + expectedPass && COLON !in expectedUser {
        SplitsExactly(expectedUser, expectedPass, expectedUser, expectedPass);
      }
    }
  }

  lemma {:induction false} FoundColon(s: seq<Byte>)
    ensures FindColon(s) <= |s| && (FindColon(s) < |s| ==> s[FindColon(s)] == COLON)
    decreases |s|
  {
    if s != [] && s[0] != COLON {
      FoundColon(s[1..]);
    }
  }

  /** For all pairs: what section 2 of RFC 7617 sends for (user, pass) is accepted exactly when the
      joined strings agree and the configured user has no colon; the password may have any. */
  lemma AcceptsExactly(user: seq<Byte>, pass: seq<Byte>, expectedUser: seq<Byte>, expectedPass: seq<Byte>)
    ensures Accepts(BASIC + Encode(user + [COLON] + pass), expectedUser, expectedPass)
       <==> user + [COLON] + pass == expectedUser + [COLON] + expectedPass && COLON !in expectedUser
  {
    var text := Encode(user + [COLON] + pass);
    assert (BASIC + text)[..6] == BASIC && (BASIC + text)[6..] == text;
    DecodeInvertsEncode(user + [COLON] + pass);
    SplitsExactly(user, pass, expectedUser, expectedPass);
  }

  /** A user name without a colon: accepted exactly when both parts match. */
  lemma AcceptsMatchingPair(user: seq<Byte>, pass: seq<Byte>, expectedUser: seq<Byte>, expectedPass: seq<Byte>)
    requires COLON !in user
    ensures Accepts(BASIC + Encode(user + [COLON] + pass), expectedUser, expectedPass)
       <==> user == expectedUser && pass == expectedPass
  {
    AcceptsExactly(user, pass, expectedUser, expectedPass);
    var joined := user + [COLON] + pass;
    if joined == expectedUser + [COLON] + expectedPass && COLON !in expectedUser {
      FirstColon(user, pass);
      FirstColon(expectedUser, expectedPass);
      assert user == joined[..|user|] && pass == joined[|user| + 1..];
      assert expectedUser == joined[..|user|] && expectedPass == joined[|user| + 1..];
    }
  }
}
