/** The base64url decoder and the token payload extraction of include/globals.h, against section 5 of
    RFC 4648 and section 7.1 of RFC 7515. */
module Base64Url {
  import opened Text
  import opened Machine

  type Sextet = n: int | 0 <= n < 64

  const UPPER: string := "ABCDEFGHIJKLMNOPQRSTUVWXYZ"
  const LOWER: string := "abcdefghijklmnopqrstuvwxyz"
  const DIGITS: string := "0123456789+/"
  const BASE64_CHARS := UPPER + LOWER + DIGITS

  // ---------- alphabet ----------

  function Letter(n: Sextet): char {
    if n < 26 then 'A' + n as char
    else if n < 52 then 'a' + (n - 26) as char
    else if n < 62 then '0' + (n - 52) as char
    else if n == 62 then '+' else '/'
  }

  /** The value of a character of the standard alphabet, -1 for any other. */
  function Value(c: char): (v: int)
    ensures -1 <= v < 64
    ensures v >= 0 ==> Letter(v) == c
  {
    if 'A' <= c <= 'Z' then c as int - 'A' as int
    else if 'a' <= c <= 'z' then c as int - 'a' as int + 26
    else if '0' <= c <= '9' then c as int - '0' as int + 52
    else if c == '+' then 62 else if c == '/' then 63 else -1
  }

  lemma ValueOfLetter(n: Sextet)
    ensures Value(Letter(n)) == n
  {
  }

  lemma UpperTable()
    ensures |UPPER| == 26 && forall n :: 0 <= n < 26 ==> UPPER[n] == Letter(n)
  {
  }

  lemma LowerTable()
    ensures |LOWER| == 26 && forall n :: 0 <= n < 26 ==> LOWER[n] == Letter(n + 26)
  {
  }

  lemma AlphabetTable()
    ensures |BASE64_CHARS| == 64
    ensures forall n :: 0 <= n < 64 ==> BASE64_CHARS[n] == Letter(n)
  {
    UpperTable();
    LowerTable();
    assert |DIGITS| == 12 && forall n :: 0 <= n < 12 ==> DIGITS[n] == Letter(n + 52);
  }

  // ---------- what is to be computed ----------

  /** `-` and `_` stand for `+` and `/`. */
  function Standard(input: string): string {
    Replace(Replace(input, '-', '+'), '_', '/')
  }

  /** The values of the longest prefix of alphabet characters. */
  function Sextets(s: string): seq<Sextet> {
    if s == "" || Value(s[0]) < 0 then [] else [Value(s[0])] + Sextets(s[1..])
  }

  /** The byte across the boundary between two neighbouring characters of a group, the second one
      being at the given position. */
  function Join6(a: int, b: int, position: int): Byte
    requires 0 <= a < 64 && 0 <= b < 64 && 1 <= position < 4
  {
    if position == 1 then a * 4 + b / 16
    else if position == 2 then (a % 16) * 16 + b / 4
    else (a % 4) * 64 + b
  }

  /** Groups of four characters carry three bytes; a last group of three or two carries two or one. */
  function Bytes(ts: seq<Sextet>): seq<Byte> {
    if |ts| < 2 then []
    else if |ts| == 2 then [Join6(ts[0], ts[1], 1)]
    else if |ts| == 3 then [Join6(ts[0], ts[1], 1), Join6(ts[1], ts[2], 2)]
    else [Join6(ts[0], ts[1], 1), Join6(ts[1], ts[2], 2), Join6(ts[2], ts[3], 3)] + Bytes(ts[4..])
  }

  function Decoded(input: string): seq<Byte> {
    Bytes(Sextets(Standard(input)))
  }

  // ---------- the accumulator: unbounded, and in 32 bits ----------

  datatype Accumulator = Accumulator(val: int, valb: int, output: seq<Byte>)

  const START := Accumulator(0, -8, [])

  function Pow2(n: nat): (p: int)
    ensures p > 0
  {
    if n == 0 then 1 else 2 * Pow2(n - 1)
  }

  /** `char((val >> valb) & 0xFF)` */
  function LowByte(val: int, shift: nat): Byte {
    (val / Pow2(shift)) % 256
  }

  function Push(a: Accumulator, val: int): Accumulator {
    var valb := a.valb + 6;
    if valb >= 0 then Accumulator(val, valb - 8, a.output + [LowByte(val, valb)])
    else Accumulator(val, valb, a.output)
  }

  function Unbounded(ts: seq<Sextet>): Accumulator {
    if ts == [] then START
    else
      var a := Unbounded(ts[..|ts| - 1]);
      Push(a, a.val * 64 + ts[|ts| - 1])
  }

  function Wrapped(ts: seq<Sextet>): Accumulator {
    if ts == [] then START
    else
      var a := Wrapped(ts[..|ts| - 1]);
      Push(a, Wrap32(Wrap32(a.val * 64) + ts[|ts| - 1]))
  }

  /** `valb` between characters. */
  function Phase(n: nat): int {
    -8 + [0, 6, 4, 2][n % 4]
  }

  predicate Congruent(x: int, y: int) {
    (x - y) % 0x1_0000_0000 == 0
  }

  lemma ZeroCongruent()
    ensures Congruent(0, 0)
  {
  }

  lemma WrapCongruent(x: int, y: int, t: int)
    requires Congruent(x, y)
    ensures Congruent(Wrap32(Wrap32(x * 64) + t), y * 64 + t)
  {
    var k := (x - y) / 0x1_0000_0000;
    assert x == y + k * 0x1_0000_0000;
    var u := Wrap32(x * 64);
    assert Congruent(u, x * 64);
    var j := (u - x * 64) / 0x1_0000_0000;
    assert u == x * 64 + j * 0x1_0000_0000;
    assert Congruent(Wrap32(u + t), u + t);
    var i := (Wrap32(u + t) - (u + t)) / 0x1_0000_0000;
    assert Wrap32(u + t) == y * 64 + t + (i + j + 64 * k) * 0x1_0000_0000;
  }

  lemma LowByteOf(val: int)
    ensures LowByte(val, 0) == val % 256
    ensures LowByte(val, 2) == (val / 4) % 256
    ensures LowByte(val, 4) == (val / 16) % 256
  {
    assert Pow2(1) == 2 && Pow2(2) == 4 && Pow2(3) == 8 && Pow2(4) == 16;
  }

  lemma AddMultiple(m: int, j: int)
    ensures (m + j * 256) % 256 == m % 256
  {
  }

  lemma ShiftMultiple(y: int, k: int)
    ensures (y + k * 0x1_0000_0000) % 256 == y % 256
    ensures (y + k * 0x1_0000_0000) / 4 == y / 4 + (k * 0x40_0000) * 256
    ensures (y + k * 0x1_0000_0000) / 16 == y / 16 + (k * 0x10_0000) * 256
  {
    AddMultiple(y, k * 0x100_0000);
  }

  lemma LowByteCongruent(x: int, y: int, shift: nat)
    requires Congruent(x, y) && (shift == 0 || shift == 2 || shift == 4)
    ensures LowByte(x, shift) == LowByte(y, shift)
  {
    hide LowByte;
    LowByteOf(x);
    LowByteOf(y);
    var k := (x - y) / 0x1_0000_0000;
    assert x == y + k * 0x1_0000_0000;
    ShiftMultiple(y, k);
    if shift == 2 {
      AddMultiple(y / 4, k * 0x40_0000);
    } else if shift == 4 {
      AddMultiple(y / 16, k * 0x10_0000);
    }
  }

  /** For every input the wrapping accumulator emits what an unbounded one would: only low bits of
      `val` are ever read, because `valb` stays in {-8, -2, -4, -6} between characters. */
  lemma {:induction false} WrappedRefinesUnbounded(ts: seq<Sextet>)
    ensures Wrapped(ts).output == Unbounded(ts).output
    ensures Wrapped(ts).valb == Unbounded(ts).valb == Phase(|ts|)
    ensures Congruent(Wrapped(ts).val, Unbounded(ts).val)
  {
    hide LowByte, Wrap32, Congruent;
    if ts == [] {
      ZeroCongruent();
    } else {
      var init, t := ts[..|ts| - 1], ts[|ts| - 1];
      WrappedRefinesUnbounded(init);
      var w, u := Wrapped(init), Unbounded(init);
      WrapCongruent(w.val, u.val, t);
      var shift := u.valb + 6;
      if shift >= 0 {
        LowByteCongruent(Wrap32(Wrap32(w.val * 64) + t), u.val * 64 + t, shift);
      }
    }
  }

  // ---------- the accumulator decodes ----------

  lemma BytesOfFew(a: Sextet, b: Sextet, c: Sextet, d: Sextet)
    ensures Bytes([a]) == []
    ensures Bytes([a, b]) == [Join6(a, b, 1)]
    ensures Bytes([a, b, c]) == [Join6(a, b, 1), Join6(b, c, 2)]
    ensures Bytes([a, b, c, d]) == [Join6(a, b, 1), Join6(b, c, 2), Join6(c, d, 3)]
  {
    hide Join6;
    assert [a, b, c, d][4..] == [];
  }

  /** What the character `t` adds behind the characters `ts`. */
  function Added(ts: seq<Sextet>, t: Sextet): seq<Byte> {
    if |ts| % 4 == 0 then [] else [Join6(ts[|ts| - 1], t, |ts| % 4)]
  }

  lemma AddedToFew(a: Sextet, b: Sextet, c: Sextet, t: Sextet)
    ensures Bytes([t]) == Bytes([]) + Added([], t)
    ensures Bytes([a, t]) == Bytes([a]) + Added([a], t)
    ensures Bytes([a, b, t]) == Bytes([a, b]) + Added([a, b], t)
    ensures Bytes([a, b, c, t]) == Bytes([a, b, c]) + Added([a, b, c], t)
  {
    hide Join6;
    BytesOfFew(a, b, c, t);
    BytesOfFew(a, b, t, t);
    BytesOfFew(a, t, t, t);
    BytesOfFew(t, t, t, t);
    NoBytes();
  }

  lemma BytesOfShort(ts: seq<Sextet>, t: Sextet)
    requires |ts| < 4
    ensures Bytes(ts + [t]) == Bytes(ts) + Added(ts, t)
  {
    hide *;
    if |ts| == 0 {
      AddedToFew(t, t, t, t);
      assert ts == [] && ts + [t] == [t];
    } else if |ts| == 1 {
      AddedToFew(ts[0], t, t, t);
      assert ts == [ts[0]] && ts + [t] == [ts[0], t];
    } else if |ts| == 2 {
      AddedToFew(ts[0], ts[1], t, t);
      assert ts == [ts[0], ts[1]] && ts + [t] == [ts[0], ts[1], t];
    } else {
      AddedToFew(ts[0], ts[1], ts[2], t);
      assert ts == [ts[0], ts[1], ts[2]] && ts + [t] == [ts[0], ts[1], ts[2], t];
    }
  }

  lemma BytesOfGroup(ts: seq<Sextet>)
    requires |ts| >= 4
    ensures Bytes(ts) == [Join6(ts[0], ts[1], 1), Join6(ts[1], ts[2], 2), Join6(ts[2], ts[3], 3)] + Bytes(ts[4..])
  {
  }

  /** One more character yields one more byte, except at the start of a group. */
  lemma {:induction false} BytesOfOneMore(ts: seq<Sextet>, t: Sextet)
    ensures Bytes(ts + [t]) == Bytes(ts) + Added(ts, t)
  {
    hide Join6, Bytes;
    if |ts| < 4 {
      BytesOfShort(ts, t);
    } else {
      BytesOfGroup(ts);
      BytesOfGroup(ts + [t]);
      assert (ts + [t])[4..] == ts[4..] + [t];
      BytesOfOneMore(ts[4..], t);
      assert |ts[4..]| % 4 == |ts| % 4;
    }
  }

  lemma FirstByte(k: int, prev: int, t: int)
    requires 0 <= prev < 64 && 0 <= t < 64
    ensures (((64 * k + prev) * 64 + t) / 16) % 256 == Join6(prev, t, 1)
  {
    var byte := Join6(prev, t, 1);
    assert ((64 * k + prev) * 64 + t) / 16 == byte + k * 256;
    AddMultiple(byte, k);
  }

  lemma SecondByte(k: int, prev: int, t: int)
    requires 0 <= prev < 64 && 0 <= t < 64
    ensures (((64 * k + prev) * 64 + t) / 4) % 256 == Join6(prev, t, 2)
  {
    var byte := Join6(prev, t, 2);
    assert ((64 * k + prev) * 64 + t) / 4 == byte + (k * 4 + prev / 16) * 256;
    AddMultiple(byte, k * 4 + prev / 16);
  }

  lemma ThirdByte(k: int, prev: int, t: int)
    requires 0 <= prev < 64 && 0 <= t < 64
    ensures ((64 * k + prev) * 64 + t) % 256 == Join6(prev, t, 3)
  {
    var byte := Join6(prev, t, 3);
    assert (64 * k + prev) * 64 + t == byte + (k * 16 + prev / 4) * 256;
    AddMultiple(byte, k * 16 + prev / 4);
  }

  lemma LowByteIsJoin6(val: int, prev: int, t: int, position: int)
    requires 0 <= prev < 64 && 0 <= t < 64 && val % 64 == prev && 1 <= position < 4
    ensures LowByte(val * 64 + t, 6 - 2 * position) == Join6(prev, t, position)
  {
    hide LowByte, Join6;
    var k := val / 64;
    assert val == 64 * k + prev;
    LowByteOf(val * 64 + t);
    if position == 1 {
      FirstByte(k, prev, t);
    } else if position == 2 {
      SecondByte(k, prev, t);
    } else {
      ThirdByte(k, prev, t);
    }
  }

  /** `valb` follows from the position in the group. */
  lemma PhaseAt(n: nat, position: nat)
    requires position == n % 4
    ensures position == 0 ==> Phase(n) == -8 && Phase(n + 1) == -2
    ensures position > 0 ==> Phase(n) == -2 * position && Phase(n + 1) == -2 * position - 2
  {
  }

  lemma LastSextet(val: int, t: Sextet)
    ensures (val * 64 + t) % 64 == t
  {
  }

  lemma PushNext(a: Accumulator, prev: Sextet, t: Sextet, position: nat)
    requires 1 <= position < 4 && a.valb == -2 * position && a.val % 64 == prev
    ensures Push(a, a.val * 64 + t)
         == Accumulator(a.val * 64 + t, -2 * position - 2, a.output + [Join6(prev, t, position)])
  {
    hide LowByte, Join6;
    LowByteIsJoin6(a.val, prev, t, position);
  }

  lemma PushStart(a: Accumulator, t: Sextet)
    requires a.valb == -8
    ensures Push(a, a.val * 64 + t) == Accumulator(a.val * 64 + t, -2, a.output)
  {
  }

  lemma AddedAt(ts: seq<Sextet>, t: Sextet, position: nat)
    requires position == |ts| % 4
    ensures position == 0 ==> Added(ts, t) == []
    ensures position > 0 ==> Added(ts, t) == [Join6(ts[|ts| - 1], t, position)]
  {
    hide Join6;
  }

  lemma PushDecodes(a: Accumulator, ts: seq<Sextet>, t: Sextet)
    requires a.output == Bytes(ts) && a.valb == Phase(|ts|) && (ts != [] ==> a.val % 64 == ts[|ts| - 1])
    ensures var b := Push(a, a.val * 64 + t);
            b.output == Bytes(ts) + Added(ts, t) && b.valb == Phase(|ts| + 1) && b.val % 64 == t
  {
    hide *;
    var position := |ts| % 4;
    PhaseAt(|ts|, position);
    AddedAt(ts, t, position);
    LastSextet(a.val, t);
    if position == 0 {
      PushStart(a, t);
      assert Bytes(ts) + [] == Bytes(ts);
    } else {
      PushNext(a, ts[|ts| - 1], t, position);
    }
  }

  lemma {:induction false} UnboundedDecodes(ts: seq<Sextet>)
    ensures Unbounded(ts).output == Bytes(ts)
    ensures Unbounded(ts).valb == Phase(|ts|)
    ensures ts != [] ==> Unbounded(ts).val % 64 == ts[|ts| - 1]
  {
    hide LowByte, Join6, Bytes, Push, Added;
    if ts == [] {
      NoBytes();
    } else {
      var init, t := ts[..|ts| - 1], ts[|ts| - 1];
      UnboundedDecodes(init);
      BytesOfOneMore(init, t);
      assert ts == init + [t];
      PushDecodes(Unbounded(init), init, t);
    }
  }

  lemma NoBytes()
    ensures Bytes([]) == []
  {
  }

  // ---------- the code ----------

  predicate ByteString(s: string) {
    forall i :: 0 <= i < |s| ==> s[i] as int < 256
  }

  lemma OnlyLetter(n: Sextet)
    ensures Letter(n) as int < 256
    ensures forall c: char :: Value(c) == n <==> c == Letter(n)
  {
    ValueOfLetter(n);
  }

  method BuildTable() returns (table: array<int>)
    ensures fresh(table) && table.Length == 256
    ensures forall k :: 0 <= k < 256 ==> table[k] == Value(k as char)
  {
    hide Value, Letter, BASE64_CHARS;
    AlphabetTable();
    table := new int[256](_ => -1);
    for i := 0 to 64
      invariant forall k :: 0 <= k < 256 ==> table[k] == if 0 <= Value(k as char) < i then Value(k as char) else -1
    {
      OnlyLetter(i);
      table[BASE64_CHARS[i] as int] := i;
    }
  }

  method Base64UrlDecode(text: string) returns (output: seq<Byte>)
    requires ByteString(text)
    ensures output == Decoded(text)
  {
    hide Replace, Sextets, Wrapped, Unbounded, Bytes;
    StandardBytes(text);
    var input := Replace(text, '-', '+');
    input := Replace(input, '_', '/');
    input := AddPadding(input);
    var table := BuildTable();
    output := [];
    var val, valb := 0, -8;
    var n := 0;
    NoSextets();
    while n < |input| && table[input[n] as int] != -1
      invariant n <= |input|
      invariant AllLetters(input[..n])
      invariant forall k :: 0 <= k < 256 ==> table[k] == Value(k as char)
      invariant Accumulator(val, valb, output) == Wrapped(Sextets(input[..n]))
    {
      var c := input[n];
      assert input[..n + 1] == input[..n] + [c];
      WrappedOfOneMore(input[..n], c);
      WrappedRefinesUnbounded(Sextets(input[..n]));
      val := Wrap32(Wrap32(val * 64) + table[c as int]);
      valb := valb + 6;
      if valb >= 0 {
        output := output + [LowByte(val, valb)];
        valb := valb - 8;
      }
      n := n + 1;
    }
    SextetsOfPrefix(input, n);
    WrappedRefinesUnbounded(Sextets(input));
    UnboundedDecodes(Sextets(input));
  }

  lemma PadStep(s: string, n: nat)
    requires ByteString(s)
    ensures s + Pads(0) == s
    ensures s + Pads(n) + "=" == s + Pads(n + 1)
    ensures ByteString(s + Pads(n)) ==> ByteString(s + Pads(n) + "=")
  {
    var t := s + Pads(n);
    assert forall i :: 0 <= i < |t| ==> (t + "=")[i] == t[i];
  }

  method AddPadding(s: string) returns (input: string)
    requires ByteString(s)
    ensures ByteString(input) && Sextets(input) == Sextets(s)
  {
    hide Sextets, Pads, ByteString;
    input := s;
    ghost var pads := 0;
    PadStep(s, 0);
    while |input| % 4 != 0
      invariant ByteString(input) && input == s + Pads(pads)
      decreases (4 - |input| % 4) % 4
    {
      PadStep(s, pads);
      input := input + "=";
      pads := pads + 1;
    }
    PaddingIgnored(s, pads);
  }

  lemma NoSextets()
    ensures Wrapped(Sextets("")) == START
  {
  }

  lemma WrappedOfOneMore(s: string, c: char)
    requires AllLetters(s) && Value(c) >= 0
    ensures AllLetters(s + [c])
    ensures var a := Wrapped(Sextets(s));
            Wrapped(Sextets(s + [c])) == Push(a, Wrap32(Wrap32(a.val * 64) + Value(c)))
  {
    hide Push, Wrap32;
    SextetsOfOneMore(s, c);
    var ts := Sextets(s) + [Value(c)];
    assert ts[..|ts| - 1] == Sextets(s);
  }

  predicate AllLetters(s: string) {
    forall c :: c in s ==> Value(c) >= 0
  }

  lemma {:induction false} SextetsConcat(a: string, b: string)
    requires AllLetters(a)
    ensures Sextets(a + b) == Sextets(a) + Sextets(b)
    ensures |Sextets(a)| == |a|
  {
    hide Value;
    if a == "" {
      assert a + b == b;
    } else {
      assert a[0] in a;
      assert (a + b)[1..] == a[1..] + b;
      SextetsConcat(a[1..], b);
    }
  }

  lemma SextetsOfOneMore(s: string, c: char)
    requires AllLetters(s) && Value(c) >= 0
    ensures Sextets(s + [c]) == Sextets(s) + [Value(c)] && AllLetters(s + [c])
  {
    SextetsConcat(s, [c]);
  }

  lemma SextetsOfPrefix(s: string, n: nat)
    requires n <= |s| && AllLetters(s[..n]) && (n < |s| ==> Value(s[n]) < 0)
    ensures Sextets(s) == Sextets(s[..n])
  {
    assert s == s[..n] + s[n..];
    SextetsConcat(s[..n], s[n..]);
  }

  lemma {:induction false} StandardBytes(s: string)
    requires ByteString(s)
    ensures ByteString(Standard(s))
  {
    ReplaceBytes(s, '-', '+');
    ReplaceBytes(Replace(s, '-', '+'), '_', '/');
  }

  lemma {:induction false} ReplaceBytes(s: string, c: char, d: char)
    requires ByteString(s) && d as int < 256
    ensures ByteString(Replace(s, c, d))
  {
    if s != "" {
      ReplaceBytes(s[1..], c, d);
    }
  }

  // ---------- properties for every input ----------

  function Pads(n: nat): string {
    if n == 0 then "" else Pads(n - 1) + "="
  }

  lemma {:induction false} PaddingIgnored(s: string, n: nat)
    ensures Sextets(s + Pads(n)) == Sextets(s)
  {
    if s == "" {
      if n > 0 {
        PadsStart(n);
      }
    } else {
      assert (s + Pads(n))[1..] == s[1..] + Pads(n);
      PaddingIgnored(s[1..], n);
    }
  }

  lemma {:induction false} PadsStart(n: nat)
    requires n > 0
    ensures Pads(n)[0] == '='
  {
    if n > 1 {
      PadsStart(n - 1);
    }
  }

  lemma {:induction false} StandardConcat(a: string, b: string)
    ensures Standard(a + b) == Standard(a) + Standard(b)
  {
    if a == "" {
      assert a + b == b;
    } else {
      assert (a + b)[1..] == a[1..] + b;
      assert Replace(a, '-', '+')[1..] == Replace(a[1..], '-', '+');
      assert Replace(a + b, '-', '+')[1..] == Replace(a[1..] + b, '-', '+');
      StandardConcat(a[1..], b);
    }
  }

  lemma {:induction false} StandardPads(n: nat)
    ensures Standard(Pads(n)) == Pads(n)
  {
    if n > 0 {
      StandardPads(n - 1);
      StandardConcat(Pads(n - 1), "=");
      assert "="[1..] == "";
      assert Standard("=") == "=";
    }
  }

  /** Explicit padding changes nothing, whatever the input. */
  lemma PaddingInvariance(s: string, n: nat)
    ensures Decoded(s + Pads(n)) == Decoded(s)
  {
    StandardConcat(s, Pads(n));
    StandardPads(n);
    PaddingIgnored(Standard(s), n);
  }

  function Plain(c: char): char {
    if c == '-' then '+' else if c == '_' then '/' else c
  }

  lemma {:induction false} StandardAt(s: string)
    ensures |Standard(s)| == |s|
    ensures forall i :: 0 <= i < |s| ==> Standard(s)[i] == Plain(s[i])
  {
    if s != "" {
      assert s == [s[0]] + s[1..];
      StandardConcat([s[0]], s[1..]);
      assert [s[0]][1..] == "" && [Plain(s[0])][1..] == "";
      assert Standard([s[0]]) == [Plain(s[0])];
      StandardAt(s[1..]);
    }
  }

  /** Either alphabet may be used, character by character. */
  lemma AlphabetInvariance(s: string, t: string)
    requires |s| == |t| && forall i :: 0 <= i < |s| ==> Plain(s[i]) == Plain(t[i])
    ensures Decoded(s) == Decoded(t)
  {
    StandardAt(s);
    StandardAt(t);
    assert Standard(s) == Standard(t);
  }

  predicate InAlphabet(c: char) {
    Value(Plain(c)) >= 0
  }

  lemma {:induction false} BytesLength(ts: seq<Sextet>)
    ensures |Bytes(ts)| == 6 * |ts| / 8
  {
    if |ts| >= 4 {
      BytesLength(ts[4..]);
    }
  }

  /** Every input yields floor(6n/8) bytes, `n` being the length of its longest prefix of alphabet
      characters. */
  lemma DecodedLength(s: string, n: nat)
    requires n <= |s| && (forall i :: 0 <= i < n ==> InAlphabet(s[i])) && (n < |s| ==> !InAlphabet(s[n]))
    ensures |Decoded(s)| == 6 * n / 8
  {
    StandardAt(s);
    var p := Standard(s)[..n];
    assert AllLetters(p) by {
      forall c | c in p
        ensures Value(c) >= 0
      {
        var i :| 0 <= i < n && p[i] == c;
        assert InAlphabet(s[i]);
      }
    }
    SextetsOfPrefix(Standard(s), n);
    SextetsConcat(p, "");
    BytesLength(Sextets(p));
  }

  // ---------- encoding (section 5 of RFC 4648, without padding) ----------

  /** The character between two neighbouring bytes of a group of three. */
  function Cut8(a: int, b: int, position: int): Sextet
    requires 0 <= a < 256 && 0 <= b < 256 && 0 <= position < 4
  {
    if position == 0 then b / 4
    else if position == 1 then (a % 4) * 16 + b / 16
    else if position == 2 then (a % 16) * 4 + b / 64
    else a % 64
  }

  function Split6(bs: seq<Byte>): seq<Sextet> {
    if bs == [] then []
    else if |bs| == 1 then [Cut8(0, bs[0], 0), Cut8(bs[0], 0, 1)]
    else if |bs| == 2 then [Cut8(0, bs[0], 0), Cut8(bs[0], bs[1], 1), Cut8(bs[1], 0, 2)]
    else [Cut8(0, bs[0], 0), Cut8(bs[0], bs[1], 1), Cut8(bs[1], bs[2], 2), Cut8(bs[2], 0, 3)] + Split6(bs[3..])
  }

  function UrlLetter(t: Sextet): char {
    if t == 62 then '-' else if t == 63 then '_' else Letter(t)
  }

  function UrlText(ts: seq<Sextet>): string {
    if ts == [] then "" else [UrlLetter(ts[0])] + UrlText(ts[1..])
  }

  function Encoded(bs: seq<Byte>): string {
    UrlText(Split6(bs))
  }

  lemma JoinGroup(x: int, y: int, z: int)
    requires 0 <= x < 256 && 0 <= y < 256 && 0 <= z < 256
    ensures Join6(Cut8(0, x, 0), Cut8(x, y, 1), 1) == x
    ensures Join6(Cut8(x, y, 1), Cut8(y, z, 2), 2) == y
    ensures Join6(Cut8(y, z, 2), Cut8(z, 0, 3), 3) == z
  {
  }

  lemma {:induction false} BytesOfSplit(bs: seq<Byte>)
    ensures Bytes(Split6(bs)) == bs
  {
    hide Join6, Cut8;
    if bs != [] {
      JoinGroup(bs[0], if |bs| > 1 then bs[1] else 0, if |bs| > 2 then bs[2] else 0);
    }
    if |bs| >= 3 {
      BytesOfSplit(bs[3..]);
      var ts := Split6(bs);
      assert ts[4..] == Split6(bs[3..]);
      assert Bytes(ts) == [bs[0], bs[1], bs[2]] + Bytes(ts[4..]);
    }
  }

  lemma {:induction false} SextetsOfUrlText(ts: seq<Sextet>)
    ensures Sextets(Standard(UrlText(ts))) == ts
  {
    if ts != [] {
      var c, rest := UrlLetter(ts[0]), UrlText(ts[1..]);
      StandardAt([c]);
      assert Standard([c]) == [Plain(c)];
      StandardConcat([c], rest);
      ValueOfLetter(ts[0]);
      assert Plain(c) == Letter(ts[0]);
      assert ([Plain(c)] + Standard(rest))[1..] == Standard(rest);
      SextetsOfUrlText(ts[1..]);
    }
  }

  /** Decoding undoes unpadded base64url encoding, for byte sequences of every length. */
  lemma DecodeOfEncode(bs: seq<Byte>)
    ensures Decoded(Encoded(bs)) == bs
  {
    SextetsOfUrlText(Split6(bs));
    BytesOfSplit(bs);
  }

  /** No dangling character, and the unused low bits of the last one are zero. */
  predicate CanonicalSextets(ts: seq<Sextet>) {
    && |ts| % 4 != 1
    && (|ts| % 4 == 2 ==> ts[|ts| - 1] % 16 == 0)
    && (|ts| % 4 == 3 ==> ts[|ts| - 1] % 4 == 0)
  }

  lemma SplitGroup(a: int, b: int, c: int, d: int)
    requires 0 <= a < 64 && 0 <= b < 64 && 0 <= c < 64 && 0 <= d < 64
    ensures Cut8(0, Join6(a, b, 1), 0) == a
    ensures Cut8(Join6(a, b, 1), Join6(b, c, 2), 1) == b
    ensures Cut8(Join6(b, c, 2), Join6(c, d, 3), 2) == c
    ensures Cut8(Join6(c, d, 3), 0, 3) == d
  {
  }

  lemma LastOfTwo(a: int, b: int)
    requires 0 <= a < 64 && 0 <= b < 64
    ensures Cut8(Join6(a, b, 1), 0, 1) == b <==> b % 16 == 0
  {
    assert Cut8(Join6(a, b, 1), 0, 1) == (Join6(a, b, 1) % 4) * 16 == b / 16 * 16;
  }

  lemma LastOfThree(b: int, c: int)
    requires 0 <= b < 64 && 0 <= c < 64
    ensures Cut8(Join6(b, c, 2), 0, 2) == c <==> c % 4 == 0
  {
    assert Cut8(Join6(b, c, 2), 0, 2) == (Join6(b, c, 2) % 16) * 4 == c / 4 * 4;
  }

  lemma BytesCons(a: Sextet, b: Sextet, c: Sextet, d: Sextet, rest: seq<Sextet>)
    ensures Bytes([a, b, c, d] + rest) == [Join6(a, b, 1), Join6(b, c, 2), Join6(c, d, 3)] + Bytes(rest)
  {
    hide Join6;
    assert ([a, b, c, d] + rest)[4..] == rest;
  }

  lemma Split6Cons(x: Byte, y: Byte, z: Byte, rest: seq<Byte>)
    ensures Split6([x, y, z] + rest)
         == [Cut8(0, x, 0), Cut8(x, y, 1), Cut8(y, z, 2), Cut8(z, 0, 3)] + Split6(rest)
  {
    hide Cut8;
    assert ([x, y, z] + rest)[3..] == rest;
  }

  lemma SplitOfGroup(a: Sextet, b: Sextet, c: Sextet, d: Sextet, rest: seq<Sextet>)
    ensures Split6(Bytes([a, b, c, d] + rest)) == [a, b, c, d] + Split6(Bytes(rest))
  {
    hide Join6, Cut8, Bytes, Split6;
    SplitGroup(a, b, c, d);
    BytesCons(a, b, c, d, rest);
    Split6Cons(Join6(a, b, 1), Join6(b, c, 2), Join6(c, d, 3), Bytes(rest));
  }

  lemma SplitOfTwo(a: Sextet, b: Sextet)
    ensures Split6(Bytes([a, b])) == [a, b] <==> b % 16 == 0
  {
    hide Join6, Cut8;
    SplitGroup(a, b, 0, 0);
    LastOfTwo(a, b);
    assert Bytes([a, b]) == [Join6(a, b, 1)];
    assert Split6([Join6(a, b, 1)]) == [a, Cut8(Join6(a, b, 1), 0, 1)];
  }

  lemma SplitOfThree(a: Sextet, b: Sextet, c: Sextet)
    ensures Split6(Bytes([a, b, c])) == [a, b, c] <==> c % 4 == 0
  {
    hide Join6, Cut8;
    SplitGroup(a, b, c, 0);
    LastOfThree(b, c);
    assert Bytes([a, b, c]) == [Join6(a, b, 1), Join6(b, c, 2)];
    assert Split6([Join6(a, b, 1), Join6(b, c, 2)]) == [a, b, Cut8(Join6(b, c, 2), 0, 2)];
  }

  lemma SplitOfShort(ts: seq<Sextet>)
    requires |ts| < 2
    ensures Split6(Bytes(ts)) == []
  {
  }

  lemma SplitOfEnd(ts: seq<Sextet>)
    requires |ts| < 4
    ensures Split6(Bytes(ts)) == ts <==> CanonicalSextets(ts)
  {
    hide Split6, Bytes;
    if |ts| < 2 {
      SplitOfShort(ts);
    } else if |ts| == 2 {
      assert ts == [ts[0], ts[1]];
      SplitOfTwo(ts[0], ts[1]);
    } else {
      assert ts == [ts[0], ts[1], ts[2]];
      SplitOfThree(ts[0], ts[1], ts[2]);
    }
  }

  lemma {:induction false} SplitOfBytes(ts: seq<Sextet>)
    ensures Split6(Bytes(ts)) == ts <==> CanonicalSextets(ts)
  {
    hide Split6, Bytes;
    if |ts| < 4 {
      SplitOfEnd(ts);
    } else {
      var head, rest := [ts[0], ts[1], ts[2], ts[3]], ts[4..];
      assert ts == head + rest;
      SplitOfGroup(ts[0], ts[1], ts[2], ts[3], rest);
      SplitOfBytes(rest);
      SamePrefix(head, Split6(Bytes(rest)), rest);
    }
  }

  predicate UrlAlphabet(s: string) {
    forall c :: c in s ==> InAlphabet(c) && c != '+' && c != '/'
  }

  lemma SextetsOfCons(c: char, rest: string)
    ensures Sextets(Standard([c] + rest))
         == if InAlphabet(c) then [Value(Plain(c))] + Sextets(Standard(rest)) else []
  {
    hide Replace;
    StandardConcat([c], rest);
    StandardAt([c]);
    assert Standard([c]) == [Plain(c)];
    assert ([Plain(c)] + Standard(rest))[1..] == Standard(rest);
  }

  lemma UrlTextOfCons(t: Sextet, ts: seq<Sextet>)
    ensures UrlText([t] + ts) == [UrlLetter(t)] + UrlText(ts)
  {
    assert ([t] + ts)[1..] == ts;
  }

  lemma UrlLetterOfChar(c: char)
    requires InAlphabet(c)
    ensures UrlLetter(Value(Plain(c))) == c <==> c != '+' && c != '/'
  {
  }

  lemma UrlAlphabetCons(c: char, rest: string)
    ensures UrlAlphabet([c] + rest) <==> InAlphabet(c) && c != '+' && c != '/' && UrlAlphabet(rest)
  {
    var s := [c] + rest;
    assert s[0] == c && s[1..] == rest;
    if UrlAlphabet(s) {
      assert c in s;
      assert forall d :: d in rest ==> d in s;
    }
  }

  lemma {:induction false} UrlTextOfSextets(s: string)
    ensures UrlText(Sextets(Standard(s))) == s <==> UrlAlphabet(s)
  {
    if s == "" {
      assert Standard(s) == "";
    } else {
      hide UrlText, Sextets, Standard, UrlAlphabet, InAlphabet, UrlLetter, Value, Plain;
      var c, rest := s[0], s[1..];
      assert s == [c] + rest;
      SextetsOfCons(c, rest);
      UrlAlphabetCons(c, rest);
      UrlTextOfSextets(rest);
      if InAlphabet(c) {
        UrlCons(c, rest);
      } else {
        NoUrlText();
      }
    }
  }

  lemma NoUrlText()
    ensures UrlText([]) == ""
  {
  }

  lemma UrlCons(c: char, rest: string)
    requires InAlphabet(c)
    ensures var ts := Sextets(Standard(rest));
            UrlText([Value(Plain(c))] + ts) == [c] + rest <==> c != '+' && c != '/' && UrlText(ts) == rest
  {
    hide UrlText, UrlLetter, Plain, Sextets, Standard;
    var ts := Sextets(Standard(rest));
    var t: Sextet := Value(Plain(c));
    UrlTextOfCons(t, ts);
    UrlLetterOfChar(c);
    ConsInjective(UrlLetter(t), UrlText(ts), c, rest);
    assert UrlText([Value(Plain(c))] + ts) == [UrlLetter(t)] + UrlText(ts);
    assert UrlLetter(t) == c <==> c != '+' && c != '/';
  }

  lemma ConsInjective(a: char, s: string, b: char, t: string)
    ensures [a] + s == [b] + t <==> a == b && s == t
  {
    assert ([a] + s)[0] == a && ([a] + s)[1..] == s;
    assert ([b] + t)[0] == b && ([b] + t)[1..] == t;
  }

  /** Re-encoding gives back the text exactly when it is a canonical base64url text. */
  lemma EncodeOfDecode(s: string)
    ensures Encoded(Decoded(s)) == s <==> UrlAlphabet(s) && CanonicalSextets(Sextets(Standard(s)))
  {
    var ts := Sextets(Standard(s));
    SplitOfBytes(ts);
    UrlTextOfSextets(s);
    if Encoded(Decoded(s)) == s {
      SextetsOfUrlText(Split6(Bytes(ts)));
    }
  }

  // ---------- the payload of a token ----------

  /** `None` when the code throws "Invalid JWT format". */
  function Payload(jwt: string): Option<string> {
    var firstDot := IndexOf(jwt, '.');
    var secondDot := IndexFrom(jwt, '.', if firstDot == |jwt| then 0 else firstDot + 1);
    if firstDot == |jwt| || secondDot == |jwt| then None
    else Some(jwt[firstDot + 1..secondDot])
  }

  /** What `get_token_expiry` hands to the JSON parser. */
  method TokenPayload(jwt: string) returns (decoded: Option<seq<Byte>>)
    requires ByteString(jwt)
    ensures decoded == var p := Payload(jwt); if p.None? then None else Some(Decoded(p.value))
  {
    var payload := Payload(jwt);
    if payload.None? {
      return None;
    }
    var bytes := Base64UrlDecode(payload.value);
    decoded := Some(bytes);
  }

  /** The payload is the text between the first two dots. */
  lemma PayloadBetweenDots(header: string, payload: string, signature: string)
    requires '.' !in header && '.' !in payload
    ensures Payload(header + "." + payload + "." + signature) == Some(payload)
  {
    var rest := payload + "." + signature;
    var jwt := header + "." + payload + "." + signature;
    assert jwt == header + ['.'] + rest;
    IndexOfAfter(header, '.', rest);
    var n := |header| + 1 + |payload|;
    assert jwt[n] == '.';
    assert forall i :: |header| < i < n ==> jwt[i] == payload[i - |header| - 1];
    IndexFromIsFirst(jwt, '.', |header| + 1);
    assert IndexFrom(jwt, '.', |header| + 1) == n;
    assert jwt[|header| + 1..n] == payload;
  }

  /** A token is rejected exactly when it has fewer than two dots. */
  lemma RejectedTokens(jwt: string)
    ensures Payload(jwt).None? <==> Count(jwt, '.') < 2
  {
    hide Count;
    var i := IndexOf(jwt, '.');
    CountAbsent(jwt, '.');
    if i < |jwt| {
      var a, b := jwt[..i], jwt[i + 1..];
      assert jwt == a + ("." + b);
      DotsAfterFirst(a, b);
      SecondDot(jwt, i);
    }
  }

  lemma SecondDot(jwt: string, i: nat)
    requires i < |jwt|
    ensures '.' in jwt[i + 1..] <==> IndexFrom(jwt, '.', i + 1) < |jwt|
  {
    var j, b := IndexFrom(jwt, '.', i + 1), jwt[i + 1..];
    IndexFromIsFirst(jwt, '.', i + 1);
    assert forall k :: 0 <= k < |b| ==> b[k] == jwt[i + 1 + k];
    if j < |jwt| {
      assert b[j - i - 1] == '.';
    }
  }

  lemma DotsAfterFirst(a: string, b: string)
    requires '.' !in a
    ensures Count(a + ("." + b), '.') < 2 <==> '.' !in b
  {
    CountConcat(a, "." + b, '.');
    CountConcat(".", b, '.');
    CountAbsent(a, '.');
    CountAbsent(b, '.');
    assert "."[..0] == "";
    assert Count(".", '.') == 1;
  }

  lemma {:induction false} UrlTextHasNoDot(ts: seq<Sextet>)
    ensures '.' !in UrlText(ts)
  {
    if ts != [] {
      UrlTextHasNoDot(ts[1..]);
    }
  }

  /** For every header, payload bytes and signature: the decoded text is the payload that was encoded. */
  lemma TokenRoundTrip(header: string, bs: seq<Byte>, signature: string)
    requires '.' !in header
    ensures var p := Payload(header + "." + Encoded(bs) + "." + signature);
            p.Some? && Decoded(p.value) == bs
  {
    UrlTextHasNoDot(Split6(bs));
    PayloadBetweenDots(header, Encoded(bs), signature);
    DecodeOfEncode(bs);
  }
}
