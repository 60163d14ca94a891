/** Base64 as the management API writes and reads it: sections 4 and 5 of RFC 4648. */
module Base64 {
  import opened Bytes
  import opened Arithmetic

  type Sextet = x: int | 0 <= x < 64

  function Digit(v: Sextet, url: bool): char {
    if v < 26 then 'A' + v as char
    else if v < 52 then 'a' + (v - 26) as char
    else if v < 62 then '0' + (v - 52) as char
    else if v == 62 then (if url then '-' else '+')
    else (if url then '_' else '/')
  }

  /** A digit's value, or minus one. */
  function Value(c: char, url: bool): int {
    if 'A' <= c <= 'Z' then (c - 'A') as int
    else if 'a' <= c <= 'z' then (c - 'a') as int + 26
    else if '0' <= c <= '9' then (c - '0') as int + 52
    else if c == (if url then '-' else '+') then 62
    else if c == (if url then '_' else '/') then 63
    else -1
  }

  /** Tables 1 and 2 of RFC 4648: A to Z, a to z, 0 to 9 and two more, in this order, and no other characters. */
  lemma Alphabet(v: Sextet, c: char, url: bool)
    ensures v in {0, 26, 52} ==> Digit(v, url) == if v == 0 then 'A' else if v == 26 then 'a' else '0'
    ensures v !in {0, 26, 52, 62, 63} ==> Digit(v, url) as int == Digit(v - 1, url) as int + 1
    ensures v >= 62 ==> Digit(v, url) == if url then (if v == 62 then '-' else '_') else if v == 62 then '+' else '/'
    ensures Value(c, url) == v <==> c == Digit(v, url)
  {
    if Value(c, url) == v { ValueDigit(c, url); }
    DigitValue(v, url);
  }

  lemma DigitValue(v: Sextet, url: bool)
    ensures Value(Digit(v, url), url) == v && Digit(v, url) != '='
  {
  }

  lemma ValueDigit(c: char, url: bool)
    requires Value(c, url) >= 0
    ensures Value(c, url) < 64 && Digit(Value(c, url), url) == c
  {
  }

  // ---- encoding ----

  /** The sextet of a 24-bit word that starts `shift` bits up. */
  function Sext(x: nat, at: nat): Sextet
    requires at < 4
  {
    if at == 0 then x / 0x40000 % 64 else if at == 1 then x / 0x1000 % 64 else if at == 2 then x / 64 % 64 else x % 64
  }

  /** Up to three bytes as one 24-bit word, the first byte uppermost. */
  function Word(s: Bytes): nat { 0x10000 * At(s, 0) + 0x100 * At(s, 1) + At(s, 2) }

  function At(s: Bytes, i: nat): nat { if i < |s| then s[i] else 0 }

  /** The text of one to three bytes; what is missing is left out or, in the padded form, filled up. */
  function Group(s: Bytes, url: bool, padded: bool): string
    requires 0 < |s| <= 3
  {
    var x := Word(s);
    [Digit(Sext(x, 0), url), Digit(Sext(x, 1), url)]
    + (if |s| > 1 then [Digit(Sext(x, 2), url)] else if padded then "=" else "")
    + (if |s| > 2 then [Digit(Sext(x, 3), url)] else if padded then "=" else "")
  }

  function Head(s: Bytes): Bytes { if |s| <= 3 then s else s[..3] }

  function Encode(s: Bytes, url: bool, padded: bool): string {
    if s == [] then "" else Group(Head(s), url, padded) + Encode(s[|Head(s)|..], url, padded)
  }

  /** Write the text of a byte string, three bytes at a time. */
  method EncodeText(s: Bytes, url: bool, padded: bool) returns (text: string)
    ensures text == Encode(s, url, padded)
  {
    hide Group;
    text := "";
    var i := 0;
    while i < |s|
      invariant text + Encode(s[if i <= |s| then i else |s|..], url, padded) == Encode(s, url, padded)
    {
      var part := s[i..if i + 3 <= |s| then i + 3 else |s|];
      assert Head(s[i..]) == part && s[i..][|part|..] == s[i + |part|..];
      text := text + Group(part, url, padded);
      i := i + 3;
    }
  }

  lemma GroupVectors(url: bool)
    ensures Group([102], url, true) == "Zg==" && Group([102], url, false) == "Zg"
    ensures Group([102, 111], url, true) == "Zm8=" && Group([102, 111], url, false) == "Zm8"
    ensures Group([102, 111, 111], url, true) == "Zm9v" && Group([98, 97, 114], url, true) == "YmFy"
  {
    assert Word([102]) == 0x66_0000 && Word([102, 111]) == 0x66_6f00;
    assert Word([102, 111, 111]) == 0x66_6f6f && Word([98, 97, 114]) == 0x62_6172;
    assert Sext(0x66_0000, 0) == 25 && Sext(0x66_0000, 1) == 32;
    assert Sext(0x66_6f00, 0) == 25 && Sext(0x66_6f00, 1) == 38 && Sext(0x66_6f00, 2) == 60;
    assert Sext(0x66_6f6f, 0) == 25 && Sext(0x66_6f6f, 1) == 38 && Sext(0x66_6f6f, 2) == 61;
    assert Sext(0x66_6f6f, 3) == 47;
    assert Sext(0x62_6172, 0) == 24 && Sext(0x62_6172, 1) == 38 && Sext(0x62_6172, 2) == 5;
    assert Sext(0x62_6172, 3) == 50;
    hide Word, Sext;
    assert Digit(25, url) == 'Z' && Digit(32, url) == 'g' && Digit(38, url) == 'm' && Digit(60, url) == '8';
    assert Digit(61, url) == '9' && Digit(47, url) == 'v' && Digit(24, url) == 'Y' && Digit(5, url) == 'F';
    assert Digit(50, url) == 'y';
  }

  lemma OneGroup(s: Bytes, url: bool, padded: bool)
    requires 0 < |s| <= 3
    ensures Encode(s, url, padded) == Group(s, url, padded)
  {
    hide Group;
    assert s[|s|..] == [];
  }

  /** Section 10 of RFC 4648: "f", "fo", "foo" and "foobar". */
  lemma Vectors(url: bool)
    ensures Encode([102], url, true) == "Zg==" && Encode([102], url, false) == "Zg"
    ensures Encode([102, 111], url, true) == "Zm8=" && Encode([102, 111], url, false) == "Zm8"
    ensures Encode([102, 111, 111], url, true) == "Zm9v"
    ensures Encode([102, 111, 111, 98, 97, 114], url, true) == "Zm9vYmFy"
  {
    hide Group;
    GroupVectors(url);
    OneGroup([102], url, true);
    OneGroup([102], url, false);
    OneGroup([102, 111], url, true);
    OneGroup([102, 111], url, false);
    OneGroup([102, 111, 111], url, true);
    OneGroup([98, 97, 114], url, true);
    var all := [102, 111, 111, 98, 97, 114];
    assert Head(all) == [102, 111, 111] && all[3..] == [98, 97, 114];
  }

  // ---- decoding ----

  datatype State = State(out: Bytes, bits: nat, acc: u32, pad: nat)

  /** Shift a digit in; a full byte leaves, unless there is no room for it. Never more than seven bits are left
      over, so one digit completes at most one byte. */
  function Take(st: State, v: Sextet, cap: nat): Option<State> {
    var acc := (st.acc * 64 + v) % 0x1_0000_0000;
    if st.bits + 6 < 8 then Some(st.(acc := acc, bits := st.bits + 6))
    else if |st.out| >= cap then None
    else Some(State(st.out + [Shifted(acc, st.bits - 2) % 256], st.bits - 2, acc, st.pad))
  }

  function Shifted(acc: nat, bits: int): nat {
    if bits <= 0 then acc else Shifted(acc / 2, bits - 1)
  }

  function Run(text: string, st: State, url: bool, cap: nat): Option<State>
    decreases |text|
  {
    if text == "" then Some(st)
    else if text[0] == '=' then
      if url || st.pad + 1 > 2 || (|text| > 1 && text[1] != '=') then None
      else Run(text[1..], st.(pad := st.pad + 1), url, cap)
    else if st.pad != 0 || Value(text[0], url) < 0 || Value(text[0], url) > 63 then None
    else
      var next := Take(st, Value(text[0], url), cap);
      if next.None? then None else Run(text[1..], next.value, url, cap)
  }

  const START := State([], 0, 0, 0)

  /** Which leftovers may end a text: none, or those of a padded or shortened last group. */
  predicate Ends(st: State, url: bool) {
    if url then st.bits == 0 || st.bits == 2 || st.bits == 4
    else (st.pad == 0 && st.bits == 0) || (st.pad == 1 && st.bits == 2) || (st.pad == 2 && st.bits == 4)
  }

  function Decode(text: string, url: bool, cap: nat): Option<Bytes> {
    if !url && |text| % 4 != 0 then None
    else
      var end := Run(text, START, url, cap);
      if end.Some? && Ends(end.value, url) then Some(end.value.out) else None
  }

  /** Read a text digit by digit into a buffer of `cap` bytes. */
  method DecodeText(text: string, url: bool, cap: nat) returns (r: Option<Bytes>)
    ensures r == Decode(text, url, cap)
  {
    if !url && |text| % 4 != 0 { return None; }
    var out: Bytes, bits: nat, acc: u32, pad: nat := [], 0, 0, 0;
    var i := 0;
    while i < |text|
      invariant i <= |text| && bits < 8
      invariant Run(text[i..], State(out, bits, acc, pad), url, cap) == Run(text, START, url, cap)
    {
      var c := text[i];
      assert text[i..][0] == c && text[i..][1..] == text[i + 1..];
      if c == '=' {
        if url || pad + 1 > 2 || (i + 1 < |text| && text[i + 1] != '=') { return None; }
        pad := pad + 1;
      } else {
        if pad != 0 { return None; }
        var v := Value(c, url);
        if v < 0 { return None; }
        ghost var was := State(out, bits, acc, pad);
        acc := (acc * 64 + v) % 0x1_0000_0000;
        bits := bits + 6;
        if bits >= 8 {
          bits := bits - 8;
          if |out| >= cap { return None; }
          var b := ShiftRight(acc, bits);
          out := out + [b % 256];
        }
        assert Take(was, v, cap) == Some(State(out, bits, acc, pad));
      }
      i := i + 1;
    }
    if Ends(State(out, bits, acc, pad), url) { r := Some(out); } else { r := None; }
  }

  method ShiftRight(acc: nat, bits: nat) returns (r: nat)
    ensures r == Shifted(acc, bits)
  {
    r := acc;
    var n := bits;
    while n > 0
      invariant Shifted(r, n) == Shifted(acc, bits)
    {
      r, n := r / 2, n - 1;
    }
  }

  // ---- what the leftover bits are ----

  /** The bits not yet written out. */
  function Low(st: State): nat
    requires st.bits <= 6
  {
    st.acc % (if st.bits == 0 then 1 else if st.bits == 2 then 4 else if st.bits == 4 then 16 else 64)
  }

  /** Dropping the bits above 32 does not reach the low ones. */
  lemma Wrap(x: nat, m: nat, k: nat)
    requires m > 0 && m * k == 0x1_0000_0000
    ensures x % 0x1_0000_0000 % m == x % m
  {
    var q, y := x / 0x1_0000_0000, x % 0x1_0000_0000;
    assert q * 0x1_0000_0000 == (q * k) * m;
    ModAdd(q * k, y, m);
  }

  /** The low bits after a digit is shifted in. */
  lemma ShiftIn(acc: nat, v: Sextet)
    ensures var y := (acc * 64 + v) % 0x1_0000_0000;
      && y % 64 == v && y % 256 == acc % 4 * 64 + v && y % 1024 == acc % 16 * 64 + v && y % 4096 == acc % 64 * 64 + v
  {
    var x := acc * 64 + v;
    Wrap(x, 64, 0x400_0000);
    Wrap(x, 256, 0x100_0000);
    Wrap(x, 1024, 0x40_0000);
    Wrap(x, 4096, 0x10_0000);
    DivMod(acc, v, 64);
    DivMod(acc / 4, acc % 4 * 64 + v, 256);
    DivMod(acc / 16, acc % 16 * 64 + v, 1024);
    DivMod(acc / 64, acc % 64 * 64 + v, 4096);
  }

  lemma Halves(y: nat)
    ensures y / 2 / 2 == y / 4 && y / 2 / 2 / 2 / 2 == y / 16
  {
  }

  lemma Shift2(y: nat)
    ensures Shifted(y, 2) % 256 == y % 1024 / 4 && y % 4 == y % 1024 % 4
  {
    assert Shifted(y, 2) == Shifted(y / 2, 1) == Shifted(y / 2 / 2, 0);
    Halves(y);
    Slice2(y);
  }

  lemma Shift4(y: nat)
    ensures Shifted(y, 4) % 256 == y % 4096 / 16 && y % 16 == y % 4096 % 16
  {
    assert Shifted(y, 4) == Shifted(y / 2, 3) == Shifted(y / 2 / 2, 2);
    assert Shifted(y / 2 / 2, 2) == Shifted(y / 2 / 2 / 2, 1) == Shifted(y / 2 / 2 / 2 / 2, 0);
    Halves(y);
    Slice4(y);
  }

  /** The byte above the lowest two bits. */
  lemma Slice2(y: nat)
    ensures y / 4 % 256 == y % 1024 / 4 && y % 4 == y % 1024 % 4
  {
    var q, z := y / 1024, y % 1024;
    DivMod(256 * q + z / 4, z % 4, 4);
    DivMod(q, z / 4, 256);
  }

  /** The byte above the lowest four bits. */
  lemma Slice4(y: nat)
    ensures y / 16 % 256 == y % 4096 / 16 && y % 16 == y % 4096 % 16
  {
    var q, z := y / 4096, y % 4096;
    DivMod(256 * q + z / 16, z % 16, 16);
    DivMod(q, z / 16, 256);
  }

  /** What one more digit does to the bytes written and the bits left. */
  lemma TakeIs(st: State, v: Sextet, cap: nat)
    requires st.bits == 0 || st.bits == 2 || st.bits == 4 || st.bits == 6
    ensures var r, t := 64 * Low(st) + v, Take(st, v, cap);
      && (st.bits == 0 ==> t.Some? && t.value.out == st.out && t.value.bits == 6 && Low(t.value) == v)
      && (st.bits != 0 ==> (t.Some? <==> |st.out| < cap))
      && (st.bits == 6 && t.Some? ==> t.value.out == st.out + [r / 16] && t.value.bits == 4 && Low(t.value) == r % 16)
      && (st.bits == 4 && t.Some? ==> t.value.out == st.out + [r / 4] && t.value.bits == 2 && Low(t.value) == r % 4)
      && (st.bits == 2 && t.Some? ==> t.value.out == st.out + [r] && t.value.bits == 0)
      && (t.Some? ==> t.value.pad == st.pad)
  {
    hide Shifted;
    var acc := (st.acc * 64 + v) % 0x1_0000_0000;
    ShiftIn(st.acc, v);
    Shift2(acc);
    Shift4(acc);
    ShiftNone(acc);
  }

  lemma ShiftNone(y: nat)
    ensures Shifted(y, 0) == y
  {
  }

  // ---- reading digits back ----

  lemma StepDigit(v: Sextet, more: string, st: State, url: bool, cap: nat)
    requires st.pad == 0
    ensures var t := Take(st, v, cap);
      Run([Digit(v, url)] + more, st, url, cap) == if t.None? then None else Run(more, t.value, url, cap)
  {
    hide Take;
    DigitValue(v, url);
    assert ([Digit(v, url)] + more)[1..] == more;
  }

  lemma LowBits(low: nat, v: Sextet)
    ensures (64 * low + v) % 16 == v % 16 && (64 * low + v) % 4 == v % 4
  {
    DivMod(4 * low + v / 16, v % 16, 16);
    DivMod(16 * low + v / 4, v % 4, 4);
  }

  /** Two digits from a byte boundary write one byte and leave four bits. */
  lemma TwoDigits(a: Sextet, b: Sextet, more: string, st: State, url: bool, cap: nat) returns (t: Option<State>)
    requires st.pad == 0 && st.bits == 0
    ensures Run([Digit(a, url), Digit(b, url)] + more, st, url, cap)
       == if t.None? then None else Run(more, t.value, url, cap)
    ensures t.Some? <==> |st.out| < cap
    ensures t.Some? ==> t.value.out == st.out + [(64 * a + b) / 16] && t.value.bits == 4 && t.value.pad == 0
    ensures t.Some? ==> Low(t.value) == b % 16
  {
    hide Run, Take, Digit, Low;
    var x := [Digit(b, url)] + more;
    assert [Digit(a, url), Digit(b, url)] + more == [Digit(a, url)] + x;
    StepDigit(a, x, st, url, cap);
    TakeIs(st, a, cap);
    var u := Take(st, a, cap).value;
    StepDigit(b, more, u, url, cap);
    TakeIs(u, b, cap);
    t := Take(u, b, cap);
    LowBits(a, b);
  }

  /** A third digit writes a second byte and leaves two bits. */
  lemma ThirdDigit(v: Sextet, more: string, st: State, url: bool, cap: nat) returns (t: Option<State>)
    requires st.pad == 0 && st.bits == 4
    ensures Run([Digit(v, url)] + more, st, url, cap) == if t.None? then None else Run(more, t.value, url, cap)
    ensures t.Some? <==> |st.out| < cap
    ensures t.Some? ==> t.value.out == st.out + [(64 * Low(st) + v) / 4] && t.value.bits == 2 && t.value.pad == 0
    ensures t.Some? ==> Low(t.value) == v % 4
  {
    hide Run, Take, Digit, Low;
    StepDigit(v, more, st, url, cap);
    TakeIs(st, v, cap);
    t := Take(st, v, cap);
    LowBits(Low(st), v);
  }

  /** A fourth digit writes a third byte and leaves nothing. */
  lemma FourthDigit(v: Sextet, more: string, st: State, url: bool, cap: nat) returns (t: Option<State>)
    requires st.pad == 0 && st.bits == 2
    ensures Run([Digit(v, url)] + more, st, url, cap) == if t.None? then None else Run(more, t.value, url, cap)
    ensures t.Some? <==> |st.out| < cap
    ensures t.Some? ==> t.value.out == st.out + [64 * Low(st) + v] && t.value.bits == 0 && t.value.pad == 0
  {
    hide Run, Take, Digit, Low;
    StepDigit(v, more, st, url, cap);
    TakeIs(st, v, cap);
    t := Take(st, v, cap);
  }

  /** The digits of a word give back its bytes. */
  lemma WordBytes(s: Bytes)
    requires |s| <= 3
    ensures var x := Word(s); var a, b, c, d := Sext(x, 0), Sext(x, 1), Sext(x, 2), Sext(x, 3);
      && (64 * a + b) / 16 == At(s, 0) && (64 * (b % 16) + c) / 4 == At(s, 1) && 64 * (c % 4) + d == At(s, 2)
      && (|s| < 2 ==> b % 16 == 0) && (|s| < 3 ==> c % 4 == 0)
  {
    hide Sext;
    SextIs(At(s, 0), At(s, 1), At(s, 2));
    Regroup(At(s, 0), At(s, 1), At(s, 2));
  }

  lemma Regroup(p: byte, q: byte, r: byte)
    ensures (64 * (p / 4) + (p % 4 * 16 + q / 16)) / 16 == p && (p % 4 * 16 + q / 16) % 16 == q / 16
    ensures (64 * (q / 16) + (q % 16 * 4 + r / 64)) / 4 == q && (q % 16 * 4 + r / 64) % 4 == r / 64
    ensures 64 * (r / 64) + r % 64 == r
  {
    DivMod(p, q / 16, 16);
    DivMod(p % 4, q / 16, 16);
    DivMod(q, r / 64, 4);
    DivMod(q % 16, r / 64, 4);
  }

  lemma SextIs(p: byte, q: byte, r: byte)
    ensures var x := 0x10000 * p + 0x100 * q + r;
      Sext(x, 0) == p / 4 && Sext(x, 1) == p % 4 * 16 + q / 16
      && Sext(x, 2) == q % 16 * 4 + r / 64 && Sext(x, 3) == r % 64
  {
    var x := 0x10000 * p + 0x100 * q + r;
    DivMod(p / 4, p % 4 * 0x10000 + 0x100 * q + r, 0x40000);
    DivMod(p * 16 + q / 16, q % 16 * 0x100 + r, 0x1000);
    DivMod(p * 1024 + q * 4 + r / 64, r % 64, 64);
    DivMod(p / 4, p % 4 * 16 + q / 16, 64);
    DivMod(p * 16 + q / 16, q % 16 * 4 + r / 64, 64);
  }

  // ---- round trips ----

  /** Reading a whole group gives its three bytes. */
  lemma ReadGroup(s: Bytes, more: string, st: State, url: bool, padded: bool, cap: nat) returns (t: Option<State>)
    requires |s| == 3 && st.pad == 0 && st.bits == 0
    ensures Run(Group(s, url, padded) + more, st, url, cap) == if t.None? then None else Run(more, t.value, url, cap)
    ensures t.Some? <==> |st.out| + 3 <= cap
    ensures t.Some? ==> t.value.out == st.out + s && t.value.bits == 0 && t.value.pad == 0
  {
    hide Run, Digit, Low, Sext, Word;
    var x := Word(s);
    var a, b, c, d := Sext(x, 0), Sext(x, 1), Sext(x, 2), Sext(x, 3);
    WordBytes(s);
    var z := [Digit(d, url)] + more;
    var y := [Digit(c, url)] + z;
    assert Group(s, url, padded) + more == [Digit(a, url), Digit(b, url)] + y;
    t := TwoDigits(a, b, y, st, url, cap);
    if t.Some? {
      t := ThirdDigit(c, z, t.value, url, cap);
      if t.Some? { t := FourthDigit(d, more, t.value, url, cap); }
    }
    assert s == [s[0]] + [s[1]] + [s[2]];
  }

  /** Reading a last, short group gives its bytes and a leftover of zero bits that may end a text. */
  lemma ReadTail(s: Bytes, st: State, url: bool, cap: nat) returns (t: Option<State>)
    requires 0 < |s| < 3 && st.pad == 0 && st.bits == 0
    ensures Run(Group(s, url, !url), st, url, cap) == t
    ensures t.Some? <==> |st.out| + |s| <= cap
    ensures t.Some? ==> t.value.out == st.out + s && Ends(t.value, url)
  {
    hide Run, Digit, Low, Sext, Word;
    var x := Word(s);
    var a, b, c := Sext(x, 0), Sext(x, 1), Sext(x, 2);
    WordBytes(s);
    var fill := if url then "" else if |s| == 1 then "==" else "=";
    if |s| == 1 {
      assert Group(s, url, !url) == [Digit(a, url), Digit(b, url)] + fill;
      t := TwoDigits(a, b, fill, st, url, cap);
    } else {
      var y := [Digit(c, url)] + fill;
      assert Group(s, url, !url) == [Digit(a, url), Digit(b, url)] + y;
      t := TwoDigits(a, b, y, st, url, cap);
      if t.Some? { t := ThirdDigit(c, fill, t.value, url, cap); }
      assert s == [s[0]] + [s[1]];
    }
    if t.Some? { t := ReadFill(|s|, t.value, url, cap); }
  }

  lemma ReadFill(n: nat, st: State, url: bool, cap: nat) returns (t: Option<State>)
    requires 0 < n < 3 && st.pad == 0
    ensures Run(if url then "" else if n == 1 then "==" else "=", st, url, cap) == t
    ensures t == Some(st.(pad := if url then 0 else 3 - n))
  {
    t := Some(st.(pad := if url then 0 else 3 - n));
    if !url && n == 1 { assert "=="[1..] == "="; }
  }

  lemma {:induction false} ReadBack(s: Bytes, st: State, url: bool, cap: nat)
    requires st.pad == 0 && st.bits == 0
    ensures var t := Run(Encode(s, url, !url), st, url, cap);
      && (t.Some? <==> |st.out| + |s| <= cap || s == [])
      && (t.Some? ==> t.value.out == st.out + s && Ends(t.value, url))
    decreases |s|
  {
    hide Group;
    if s == [] {
      assert st.out + s == st.out;
    } else if |s| < 3 {
      assert s[|Head(s)|..] == [];
      assert Encode(s, url, !url) == Group(s, url, !url);
      var t := ReadTail(s, st, url, cap);
    } else {
      var rest := s[3..];
      var t := ReadGroup(s[..3], Encode(rest, url, !url), st, url, !url, cap);
      assert Head(s) == s[..3] && s[..3] + rest == s;
      if t.Some? {
        ReadBack(rest, t.value, url, cap);
        assert (st.out + s[..3]) + rest == st.out + s;
      }
    }
  }

  lemma {:induction false} PaddedLength(s: Bytes)
    ensures |Encode(s, false, true)| % 4 == 0
    decreases |s|
  {
    hide Group;
    if s != [] {
      GroupLength(Head(s));
      PaddedLength(s[|Head(s)|..]);
    }
  }

  lemma GroupLength(s: Bytes)
    requires 0 < |s| <= 3
    ensures |Group(s, false, true)| == 4
  {
    hide Digit, Sext;
  }

  /** Decoding undoes encoding, padded standard or unpadded URL-safe, just when the bytes fit the buffer. */
  lemma DecodeEncode(s: Bytes, url: bool, cap: nat)
    ensures Decode(Encode(s, url, !url), url, cap) == if |s| <= cap then Some(s) else None
  {
    hide Run, Encode;
    ReadBack(s, START, url, cap);
    assert [] + s == s;
    if !url { PaddedLength(s); }
  }

  // ---- which texts are written by the encoder ----

  /** The bits of a shortened URL-safe text's last digit that belong to no byte. */
  function Spare(text: string): int {
    if |text| % 4 == 2 then Value(text[|text| - 1], true) % 16
    else if |text| % 4 == 3 then Value(text[|text| - 1], true) % 4
    else 0
  }

  /** The first digit of a text that is accepted. */
  lemma FirstDigit(text: string, st: State, cap: nat) returns (v: Sextet)
    requires text != "" && Run(text, st, true, cap).Some? && st.pad == 0
    ensures text[0] == Digit(v, true) && v == Value(text[0], true) && text == [Digit(v, true)] + text[1..]
    ensures Take(st, v, cap).Some? && Run(text, st, true, cap) == Run(text[1..], Take(st, v, cap).value, true, cap)
  {
    hide Take;
    v := Value(text[0], true);
    ValueDigit(text[0], true);
  }

  /** Three bytes read from four digits are written as those digits. */
  lemma Rewritten(a: Sextet, b: Sextet, c: Sextet, d: Sextet)
    ensures var p, q, r := (64 * a + b) / 16, (64 * (b % 16) + c) / 4, 64 * (c % 4) + d;
      && 0 <= p < 256 && 0 <= q < 256 && 0 <= r < 256
      && p / 4 == a && p % 4 * 16 + q / 16 == b && q % 16 * 4 + r / 64 == c && r % 64 == d
  {
    DivMod(4 * a + b / 16, b % 16, 16);
    DivMod(a, b / 16, 4);
    DivMod(16 * (b % 16) + c / 4, c % 4, 4);
    DivMod(b % 16, c / 4, 16);
    DivMod(c % 4, d, 64);
  }

  /** One byte read from two digits is written as them just when the spare bits are zero; likewise two from three. */
  lemma TailRewritten(a: Sextet, b: Sextet, c: Sextet)
    ensures (64 * a + b) % 16 == b % 16 && (64 * (b % 16) + c) % 4 == c % 4
    ensures var p := (64 * a + b) / 16;
      0 <= p < 256 && p / 4 == a && p % 4 == b / 16 && (p % 4 * 16 == b <==> b % 16 == 0)
    ensures var q := (64 * (b % 16) + c) / 4;
      0 <= q < 256 && q / 16 == b % 16 && q % 16 == c / 4 && (q % 16 * 4 == c <==> c % 4 == 0)
  {
    DivMod(4 * a + b / 16, b % 16, 16);
    DivMod(a, b / 16, 4);
    DivMod(16 * (b % 16) + c / 4, c % 4, 4);
    DivMod(b % 16, c / 4, 16);
  }

  lemma DigitsDiffer(a: Sextet, b: Sextet)
    ensures Digit(a, true) == Digit(b, true) <==> a == b
  {
    hide Digit, Value;
    DigitValue(a, true);
    DigitValue(b, true);
  }

  lemma WriteTail(p: byte, q: byte)
    ensures Encode([p], true, false) == [Digit(p / 4, true), Digit(p % 4 * 16, true)]
    ensures Encode([p, q], true, false)
       == [Digit(p / 4, true), Digit(p % 4 * 16 + q / 16, true), Digit(q % 16 * 4, true)]
  {
    hide Digit, Sext;
    SextIs(p, 0, 0);
    SextIs(p, q, 0);
    assert [p][1..] == [] && [p, q][2..] == [];
    assert Encode([p], true, false) == Group([p], true, false);
    assert Encode([p, q], true, false) == Group([p, q], true, false);
  }

  lemma WriteThree(p: byte, q: byte, r: byte, rest: Bytes)
    ensures Encode([p, q, r] + rest, true, false)
      == [Digit(p / 4, true), Digit(p % 4 * 16 + q / 16, true), Digit(q % 16 * 4 + r / 64, true), Digit(r % 64, true)]
         + Encode(rest, true, false)
  {
    hide Digit, Sext;
    SextIs(p, q, r);
    var s := [p, q, r] + rest;
    assert Head(s) == [p, q, r] && s[3..] == rest;
  }

  /** The byte completed by a digit after `low` leftover bits. */
  function Byte(low: int, v: int, drop: int): int
    requires drop > 0
  {
    (64 * low + v) / drop
  }

  /** A URL-safe text that is accepted is the encoding of what it decodes to just when its spare bits are zero. */
  lemma {:induction false} Reencode(text: string, st: State, cap: nat)
    requires st.pad == 0 && st.bits == 0 && Run(text, st, true, cap).Some? && Ends(Run(text, st, true, cap).value, true)
    ensures st.out <= Run(text, st, true, cap).value.out
    ensures Encode(Run(text, st, true, cap).value.out[|st.out|..], true, false) == text <==> Spare(text) == 0
    decreases |text|
  {
    hide Run, Take, Digit, Encode, Low, Value;
    if text == "" {
      RunNone(st, cap);
      EncodeNone();
      assert st.out[|st.out|..] == [] && Spare(text) == 0;
    } else {
      var a := FirstDigit(text, st, cap);
      TakeIs(st, a, cap);
      var t := Take(st, a, cap).value;
      RunNone(t, cap);
      assert text[1..] != "";
      var b := FirstDigit(text[1..], t, cap);
      TakeIs(t, b, cap);
      var u := Take(t, b, cap).value;
      TailRewritten(a, b, 0);
      var p: byte := Byte(a, b, 16);
      if |text| == 2 {
        RunNone(u, cap);
        assert u.out[|st.out|..] == [p];
        WriteTail(p, 0);
        DigitsDiffer(p % 4 * 16, b);
        assert text == [Digit(a, true), Digit(b, true)];
      } else {
        ReencodeMore(text, st, cap, a, b, u, p);
      }
    }
  }

  lemma RunNone(st: State, cap: nat)
    ensures Run("", st, true, cap) == Some(st)
  {
  }

  lemma EncodeNone()
    ensures Encode([], true, false) == ""
  {
  }

  lemma {:induction false} ReencodeMore(text: string, st: State, cap: nat, a: Sextet, b: Sextet, u: State, p: byte)
    requires |text| > 2 && st.bits == 0 && text[0] == Digit(a, true) && text[1] == Digit(b, true)
    requires p / 4 == a && p % 4 == b / 16 && p == (64 * a + b) / 16
    requires u.out == st.out + [p] && u.bits == 4 && u.pad == 0 && Low(u) == b % 16
    requires Run(text, st, true, cap) == Run(text[2..], u, true, cap) && Run(text[2..], u, true, cap).Some?
    requires Ends(Run(text, st, true, cap).value, true)
    ensures st.out <= Run(text, st, true, cap).value.out
    ensures Encode(Run(text, st, true, cap).value.out[|st.out|..], true, false) == text <==> Spare(text) == 0
    decreases |text|, 0
  {
    hide Run, Take, Digit, Encode, Low, Value;
    var c := FirstDigit(text[2..], u, cap);
    TakeIs(u, c, cap);
    var w := Take(u, c, cap).value;
    TailRewritten(a, b, c);
    var q: byte := Byte(b % 16, c, 4);
    if |text| == 3 {
      RunNone(w, cap);
      assert w.out[|st.out|..] == [p, q];
      WriteTail(p, q);
      DigitsDiffer(q % 16 * 4, c);
      DivMod(b / 16, b % 16, 16);
      assert text == [Digit(a, true), Digit(b, true), Digit(c, true)];
    } else {
      var d := FirstDigit(text[3..], w, cap);
      TakeIs(w, d, cap);
      var z := Take(w, d, cap).value;
      Rewritten(a, b, c, d);
      var r: byte := Byte(c % 4, d, 1);
      assert z.out == st.out + [p, q, r];
      Reencode(text[4..], z, cap);
      WriteFour(text, st.out, Run(text, st, true, cap).value.out, p, q, r);
    }
  }

  /** A text of four digits and more is rewritten just when the rest of it is. */
  lemma WriteFour(text: string, before: Bytes, out: Bytes, p: byte, q: byte, r: byte)
    requires |text| >= 4 && before + [p, q, r] <= out
    requires text[..4] == [Digit(p / 4, true), Digit(p % 4 * 16 + q / 16, true),
                        Digit(q % 16 * 4 + r / 64, true), Digit(r % 64, true)]
    ensures before <= out
    ensures Encode(out[|before|..], true, false) == text <==> Encode(out[|before| + 3..], true, false) == text[4..]
    ensures Spare(text) == Spare(text[4..])
  {
    hide Digit, Encode, Value;
    var s := out[|before| + 3..];
    assert out[|before|..] == [p, q, r] + s;
    WriteThree(p, q, r, s);
    assert text == text[..4] + text[4..];
    SameTail(text[..4], Encode(s, true, false), text[4..]);
  }

  lemma SameTail(front: string, x: string, y: string)
    ensures front + x == front + y <==> x == y
  {
    if front + x == front + y {
      assert x == (front + x)[|front|..];
      assert y == (front + y)[|front|..];
    }
  }

  /** So an identifier has one text exactly when the spare bits are zero. */
  lemma CanonicalIff(text: string, cap: nat)
    requires Decode(text, true, cap).Some?
    ensures Encode(Decode(text, true, cap).value, true, false) == text <==> Spare(text) == 0
  {
    hide Run, Encode, Spare;
    Reencode(text, START, cap);
    var out := Run(text, START, true, cap).value.out;
    assert out[0..] == out;
  }

  /** Two texts, one identifier. */
  lemma TwoTexts()
    ensures Decode("QQ", true, 1) == Decode("QR", true, 1) == Some([65]) && Spare("QR") == 1
  {
    hide Shifted;
    assert "QQ" == [Digit(16, true), Digit(16, true)] + "" && "QR" == [Digit(16, true), Digit(17, true)] + "";
    var t := TwoDigits(16, 16, "", START, true, 1);
    var u := TwoDigits(16, 17, "", START, true, 1);
    assert [] + [65] == [65];
  }
}
