/** One digest worked out word by word and round by round: the hash of "abc", as in the examples of FIPS 180. */
module Sha256Vector {
  import opened Bytes
  import opened BlockStream
  import opened Sha256

  const ABC: Bytes := [97, 98, 99]

  /** The message, the one bit, the zeros and its length of 24 bits. */
  function AbcBlock(): Block {
    [97, 98, 99, 0x80] + Zeros(52) + [0, 0, 0, 0, 0, 0, 0, 24]
  }

  lemma AbcPadded()
    ensures ABC + Padding(3) == AbcBlock()
  {
    assert ZerosFrom(4) == 52;
    assert BE64(24) == [0, 0, 0, 0, 0, 0, 0, 24];
  }

  // ---- the message schedule ----

  function W(t: nat): Word
    requires t < 64
  {
    Schedule(AbcBlock(), 64)[t]
  }

  lemma FirstWord(block: Block)
    requires block[0] == 97 && block[1] == 98 && block[2] == 99 && block[3] == 0x80
    ensures BlockWord(block, 0) == 0x61626380
  {
    assert (97 as Word) == 0x61 && (98 as Word) == 0x62 && (99 as Word) == 0x63 && (0x80 as Word) == 0x80;
  }

  lemma ZeroWord(block: Block, i: nat)
    requires i < 16 && block[i * 4] == 0 && block[i * 4 + 1] == 0 && block[i * 4 + 2] == 0 && block[i * 4 + 3] == 0
    ensures BlockWord(block, i) == 0
  {
    assert (0 as Word) == 0;
  }

  lemma LastWord(block: Block)
    requires block[60] == 0 && block[61] == 0 && block[62] == 0 && block[63] == 24
    ensures BlockWord(block, 15) == 24
  {
    assert (0 as Word) == 0 && (24 as Word) == 24;
  }

  lemma {:induction false} SchedulePrefix(block: Block, m: nat, n: nat)
    requires m <= n
    ensures Schedule(block, m) == Schedule(block, n)[..m]
  {
    hide BlockWord, NextWord;
    if m < n { SchedulePrefix(block, m, n - 1); }
  }

  lemma ScheduleAt(block: Block, t: nat)
    requires t < 64
    ensures Schedule(block, 64)[t]
         == if t < 16 then BlockWord(block, t) else NextWord(Schedule(block, 64)[..t])
  {
    hide BlockWord, NextWord;
    SchedulePrefix(block, t, 64);
    SchedulePrefix(block, t + 1, 64);
    assert Schedule(block, 64)[..t + 1][t] == Schedule(block, 64)[t];
  }

  lemma BlockWords(t: nat)
    requires t < 16
    ensures W(t) == if t == 0 then 0x61626380 else if t == 15 then 24 else 0
  {
    hide BlockWord, NextWord, Schedule;
    var b := AbcBlock();
    ScheduleAt(b, t);
    if t == 0 {
      FirstWord(b);
    } else if t == 15 {
      LastWord(b);
    } else {
      forall i | 4 <= i < 60 ensures b[i] == 0 { if i < 56 { ZerosAreZero(52, i - 4); } }
      ZeroWord(b, t);
    }
  }

  lemma Words0()
    ensures W(0) == 0x61626380 && W(1) == 0 && W(2) == 0 && W(3) == 0 && W(4) == 0 && W(5) == 0 && W(6) == 0
    ensures W(7) == 0 && W(8) == 0 && W(9) == 0 && W(10) == 0 && W(11) == 0 && W(12) == 0 && W(13) == 0
    ensures W(14) == 0 && W(15) == 24
  {
    hide W;
    forall t | 0 <= t < 16 ensures W(t) == if t == 0 then 0x61626380 else if t == 15 then 24 else 0 { BlockWords(t); }
    assert W(0) == 0x61626380;
  }

  /** What a word of the schedule is made of. */
  function Mix(w16: Word, w15: Word, w7: Word, w2: Word): Word {
    w16 + SmallSigma0(w15) + w7 + SmallSigma1(w2)
  }

  lemma NextIsMix(w: seq<Word>)
    requires |w| >= 16
    ensures NextWord(w) == Mix(w[|w| - 16], w[|w| - 15], w[|w| - 7], w[|w| - 2])
  {
    hide SmallSigma0, SmallSigma1;
  }

  lemma Extends(t: nat)
    requires 16 <= t < 64
    ensures W(t) == Mix(W(t - 16), W(t - 15), W(t - 7), W(t - 2))
  {
    hide Mix, NextWord, Schedule, AbcBlock;
    ScheduleAt(AbcBlock(), t);
    NextIsMix(Schedule(AbcBlock(), 64)[..t]);
  }

  lemma Mixes16()
    ensures Mix(0x61626380, 0x00000000, 0x00000000, 0x00000000) == 0x61626380
    ensures Mix(0x00000000, 0x00000000, 0x00000000, 0x00000018) == 0x000f0000
    ensures Mix(0x00000000, 0x00000000, 0x00000000, 0x61626380) == 0x7da86405
    ensures Mix(0x00000000, 0x00000000, 0x00000000, 0x000f0000) == 0x600003c6
    ensures Mix(0x00000000, 0x00000000, 0x00000000, 0x7da86405) == 0x3e9d7b78
    ensures Mix(0x00000000, 0x00000000, 0x00000000, 0x600003c6) == 0x0183fc00
    ensures Mix(0x00000000, 0x00000000, 0x00000018, 0x3e9d7b78) == 0x12dcbfdb
    ensures Mix(0x00000000, 0x00000000, 0x61626380, 0x0183fc00) == 0xe2e2c38e
  {
  }

  lemma Mixes24()
    ensures Mix(0x00000000, 0x00000000, 0x000f0000, 0x12dcbfdb) == 0xc8215c1a
    ensures Mix(0x00000000, 0x00000000, 0x7da86405, 0xe2e2c38e) == 0xb73679a2
    ensures Mix(0x00000000, 0x00000000, 0x600003c6, 0xc8215c1a) == 0xe5bc3909
    ensures Mix(0x00000000, 0x00000000, 0x3e9d7b78, 0xb73679a2) == 0x32663c5b
    ensures Mix(0x00000000, 0x00000000, 0x0183fc00, 0xe5bc3909) == 0x9d209d67
    ensures Mix(0x00000000, 0x00000000, 0x12dcbfdb, 0x32663c5b) == 0xec8726cb
    ensures Mix(0x00000000, 0x00000018, 0xe2e2c38e, 0x9d209d67) == 0x702138a4
    ensures Mix(0x00000018, 0x61626380, 0xc8215c1a, 0xec8726cb) == 0xd3b7973b
  {
  }

  lemma Words16()
    ensures W(16) == 0x61626380 && W(17) == 0x000f0000 && W(18) == 0x7da86405 && W(19) == 0x600003c6
    ensures W(20) == 0x3e9d7b78 && W(21) == 0x0183fc00 && W(22) == 0x12dcbfdb && W(23) == 0xe2e2c38e
    ensures W(24) == 0xc8215c1a && W(25) == 0xb73679a2 && W(26) == 0xe5bc3909 && W(27) == 0x32663c5b
    ensures W(28) == 0x9d209d67 && W(29) == 0xec8726cb && W(30) == 0x702138a4 && W(31) == 0xd3b7973b
  {
    hide W, Mix;
    Words0();
    Mixes16();
    Mixes24();
    Extends(16); Extends(17); Extends(18); Extends(19); Extends(20); Extends(21); Extends(22); Extends(23);
    Extends(24); Extends(25); Extends(26); Extends(27); Extends(28); Extends(29); Extends(30); Extends(31);
  }

  lemma Mixes32()
    ensures Mix(0x61626380, 0x000f0000, 0xb73679a2, 0x702138a4) == 0x93f5997f
    ensures Mix(0x000f0000, 0x7da86405, 0xe5bc3909, 0xd3b7973b) == 0x3b68ba73
    ensures Mix(0x7da86405, 0x600003c6, 0x32663c5b, 0x93f5997f) == 0xaff4ffc1
    ensures Mix(0x600003c6, 0x3e9d7b78, 0x9d209d67, 0x3b68ba73) == 0xf10a5c62
    ensures Mix(0x3e9d7b78, 0x0183fc00, 0xec8726cb, 0xaff4ffc1) == 0x0a8b3996
    ensures Mix(0x0183fc00, 0x12dcbfdb, 0x702138a4, 0xf10a5c62) == 0x72af830a
    ensures Mix(0x12dcbfdb, 0xe2e2c38e, 0xd3b7973b, 0x0a8b3996) == 0x9409e33e
    ensures Mix(0xe2e2c38e, 0xc8215c1a, 0x93f5997f, 0x72af830a) == 0x24641522
  {
  }

  lemma Mixes40()
    ensures Mix(0xc8215c1a, 0xb73679a2, 0x3b68ba73, 0x9409e33e) == 0x9f47bf94
    ensures Mix(0xb73679a2, 0xe5bc3909, 0xaff4ffc1, 0x24641522) == 0xf0a64f5a
    ensures Mix(0xe5bc3909, 0x32663c5b, 0xf10a5c62, 0x9f47bf94) == 0x3e246a79
    ensures Mix(0x32663c5b, 0x9d209d67, 0x0a8b3996, 0xf0a64f5a) == 0x27333ba3
    ensures Mix(0x9d209d67, 0xec8726cb, 0x72af830a, 0x3e246a79) == 0x0c4763f2
    ensures Mix(0xec8726cb, 0x702138a4, 0x9409e33e, 0x27333ba3) == 0x840abf27
    ensures Mix(0x702138a4, 0xd3b7973b, 0x24641522, 0x0c4763f2) == 0x7a290d5d
    ensures Mix(0xd3b7973b, 0x93f5997f, 0x9f47bf94, 0x840abf27) == 0x065c43da
  {
  }

  lemma Words32()
    ensures W(32) == 0x93f5997f && W(33) == 0x3b68ba73 && W(34) == 0xaff4ffc1 && W(35) == 0xf10a5c62
    ensures W(36) == 0x0a8b3996 && W(37) == 0x72af830a && W(38) == 0x9409e33e && W(39) == 0x24641522
    ensures W(40) == 0x9f47bf94 && W(41) == 0xf0a64f5a && W(42) == 0x3e246a79 && W(43) == 0x27333ba3
    ensures W(44) == 0x0c4763f2 && W(45) == 0x840abf27 && W(46) == 0x7a290d5d && W(47) == 0x065c43da
  {
    hide W, Mix;
    Words16();
    Mixes32();
    Mixes40();
    Extends(32); Extends(33); Extends(34); Extends(35); Extends(36); Extends(37); Extends(38); Extends(39);
    Extends(40); Extends(41); Extends(42); Extends(43); Extends(44); Extends(45); Extends(46); Extends(47);
  }

  lemma Mixes48()
    ensures Mix(0x93f5997f, 0x3b68ba73, 0xf0a64f5a, 0x7a290d5d) == 0xfb3e89cb
    ensures Mix(0x3b68ba73, 0xaff4ffc1, 0x3e246a79, 0x065c43da) == 0xcc7617db
    ensures Mix(0xaff4ffc1, 0xf10a5c62, 0x27333ba3, 0xfb3e89cb) == 0xb9e66c34
    ensures Mix(0xf10a5c62, 0x0a8b3996, 0x0c4763f2, 0xcc7617db) == 0xa9993667
    ensures Mix(0x0a8b3996, 0x72af830a, 0x840abf27, 0xb9e66c34) == 0x84badedd
    ensures Mix(0x72af830a, 0x9409e33e, 0x7a290d5d, 0xa9993667) == 0xc21462bc
    ensures Mix(0x9409e33e, 0x24641522, 0x065c43da, 0x84badedd) == 0x1487472c
    ensures Mix(0x24641522, 0x9f47bf94, 0xfb3e89cb, 0xc21462bc) == 0xb20f7a99
  {
  }

  lemma Mixes56()
    ensures Mix(0x9f47bf94, 0xf0a64f5a, 0xcc7617db, 0x1487472c) == 0xef57b9cd
    ensures Mix(0xf0a64f5a, 0x3e246a79, 0xb9e66c34, 0xb20f7a99) == 0xebe6b238
    ensures Mix(0x3e246a79, 0x27333ba3, 0xa9993667, 0xef57b9cd) == 0x9fe3095e
    ensures Mix(0x27333ba3, 0x0c4763f2, 0x84badedd, 0xebe6b238) == 0x78bc8d4b
    ensures Mix(0x0c4763f2, 0x840abf27, 0xc21462bc, 0x9fe3095e) == 0xa43fcf15
    ensures Mix(0x840abf27, 0x7a290d5d, 0x1487472c, 0x78bc8d4b) == 0x668b2ff8
    ensures Mix(0x7a290d5d, 0x065c43da, 0xb20f7a99, 0xa43fcf15) == 0xeeaba2cc
    ensures Mix(0x065c43da, 0xfb3e89cb, 0xef57b9cd, 0x668b2ff8) == 0x12b1edeb
  {
  }

  lemma Words48()
    ensures W(48) == 0xfb3e89cb && W(49) == 0xcc7617db && W(50) == 0xb9e66c34 && W(51) == 0xa9993667
    ensures W(52) == 0x84badedd && W(53) == 0xc21462bc && W(54) == 0x1487472c && W(55) == 0xb20f7a99
    ensures W(56) == 0xef57b9cd && W(57) == 0xebe6b238 && W(58) == 0x9fe3095e && W(59) == 0x78bc8d4b
    ensures W(60) == 0xa43fcf15 && W(61) == 0x668b2ff8 && W(62) == 0xeeaba2cc && W(63) == 0x12b1edeb
  {
    hide W, Mix;
    Words32();
    Mixes48();
    Mixes56();
    Extends(48); Extends(49); Extends(50); Extends(51); Extends(52); Extends(53); Extends(54); Extends(55);
    Extends(56); Extends(57); Extends(58); Extends(59); Extends(60); Extends(61); Extends(62); Extends(63);
  }

  // ---- the rounds ----

  lemma Turns(n: nat)
    requires n < 64
    ensures Rounds(IV, AbcBlock(), n + 1) == Round(Rounds(IV, AbcBlock(), n), K(n), W(n))
  {
    hide Round, AbcBlock, Schedule, K;
  }

  lemma Keys0()
    ensures K(0) == 0x428a2f98 && K(1) == 0x71374491 && K(2) == 0xb5c0fbcf && K(3) == 0xe9b5dba5
    ensures K(4) == 0x3956c25b && K(5) == 0x59f111f1 && K(6) == 0x923f82a4 && K(7) == 0xab1c5ed5
  {
  }

  lemma Keys8()
    ensures K(8) == 0xd807aa98 && K(9) == 0x12835b01 && K(10) == 0x243185be && K(11) == 0x550c7dc3
    ensures K(12) == 0x72be5d74 && K(13) == 0x80deb1fe && K(14) == 0x9bdc06a7 && K(15) == 0xc19bf174
  {
  }

  lemma Keys16()
    ensures K(16) == 0xe49b69c1 && K(17) == 0xefbe4786 && K(18) == 0x0fc19dc6 && K(19) == 0x240ca1cc
    ensures K(20) == 0x2de92c6f && K(21) == 0x4a7484aa && K(22) == 0x5cb0a9dc && K(23) == 0x76f988da
  {
  }

  lemma Keys24()
    ensures K(24) == 0x983e5152 && K(25) == 0xa831c66d && K(26) == 0xb00327c8 && K(27) == 0xbf597fc7
    ensures K(28) == 0xc6e00bf3 && K(29) == 0xd5a79147 && K(30) == 0x06ca6351 && K(31) == 0x14292967
  {
  }

  lemma Keys32()
    ensures K(32) == 0x27b70a85 && K(33) == 0x2e1b2138 && K(34) == 0x4d2c6dfc && K(35) == 0x53380d13
    ensures K(36) == 0x650a7354 && K(37) == 0x766a0abb && K(38) == 0x81c2c92e && K(39) == 0x92722c85
  {
  }

  lemma Keys40()
    ensures K(40) == 0xa2bfe8a1 && K(41) == 0xa81a664b && K(42) == 0xc24b8b70 && K(43) == 0xc76c51a3
    ensures K(44) == 0xd192e819 && K(45) == 0xd6990624 && K(46) == 0xf40e3585 && K(47) == 0x106aa070
  {
  }

  lemma Keys48()
    ensures K(48) == 0x19a4c116 && K(49) == 0x1e376c08 && K(50) == 0x2748774c && K(51) == 0x34b0bcb5
    ensures K(52) == 0x391c0cb3 && K(53) == 0x4ed8aa4a && K(54) == 0x5b9cca4f && K(55) == 0x682e6ff3
  {
  }

  lemma Keys56()
    ensures K(56) == 0x748f82ee && K(57) == 0x78a5636f && K(58) == 0x84c87814 && K(59) == 0x8cc70208
    ensures K(60) == 0x90befffa && K(61) == 0xa4506ceb && K(62) == 0xbef9a3f7 && K(63) == 0xc67178f2
  {
  }

  lemma Steps0()
    ensures T1(0x510e527f, 0x9b05688c, 0x1f83d9ab, 0x5be0cd19, 0x428a2f98, 0x61626380) == 0x54da50e8
    ensures T2(0x6a09e667, 0xbb67ae85, 0x3c6ef372) == 0x08909ae5
    ensures T1(0xfa2a4622, 0x510e527f, 0x9b05688c, 0x1f83d9ab, 0x71374491, 0x00000000) == 0x3c5f8617
    ensures T2(0x5d6aebcd, 0x6a09e667, 0xbb67ae85) == 0x1e0b5396
    ensures T1(0x78ce7989, 0xfa2a4622, 0x510e527f, 0x9b05688c, 0xb5c0fbcf, 0x00000000) == 0x3dc18b66
    ensures T2(0x5a6ad9ad, 0x5d6aebcd, 0x6a09e667) == 0x8b01bc41
    ensures T1(0xf92939eb, 0x78ce7989, 0xfa2a4622, 0x510e527f, 0xe9b5dba5, 0x00000000) == 0xbad621e9
    ensures T2(0xc8c347a7, 0x5a6ad9ad, 0x5d6aebcd) == 0x1a7ad47d
    ensures T1(0x24e00850, 0xf92939eb, 0x78ce7989, 0xfa2a4622, 0x3956c25b, 0x00000000) == 0xe642b678
    ensures T2(0xd550f666, 0xc8c347a7, 0x5a6ad9ad) == 0x1dfde3f2
    ensures T1(0x43ada245, 0x24e00850, 0xf92939eb, 0x78ce7989, 0x59f111f1, 0x00000000) == 0x16d78700
    ensures T2(0x04409a6a, 0xd550f666, 0xc8c347a7) == 0x146a82f5
    ensures T1(0x714260ad, 0x43ada245, 0x24e00850, 0xf92939eb, 0x923f82a4, 0x00000000) == 0xd2645c5a
    ensures T2(0x2b4209f5, 0x04409a6a, 0xd550f666) == 0x129ea726
    ensures T1(0x9b27a401, 0x714260ad, 0x43ada245, 0x24e00850, 0xab1c5ed5, 0x00000000) == 0x37148413
    ensures T2(0xe5030380, 0x2b4209f5, 0x04409a6a) == 0x4e8bf74c
  {
  }

  lemma Steps8()
    ensures T1(0x0c657a79, 0x9b27a401, 0x714260ad, 0x43ada245, 0xd807aa98, 0x00000000) == 0x2e899322
    ensures T2(0x85a07b5f, 0xe5030380, 0x2b4209f5) == 0x5f7b5997
    ensures T1(0x32ca2d8c, 0x0c657a79, 0x9b27a401, 0x714260ad, 0x12835b01, 0x00000000) == 0xf1871ba1
    ensures T2(0x8e04ecb9, 0x85a07b5f, 0xe5030380) == 0x9b0018ca
    ensures T1(0x1cc92596, 0x32ca2d8c, 0x0c657a79, 0x9b27a401, 0x243185be, 0x00000000) == 0x5e682068
    ensures T2(0x8c87346b, 0x8e04ecb9, 0x85a07b5f) == 0xe930838c
    ensures T1(0x436b23e8, 0x1cc92596, 0x32ca2d8c, 0x0c657a79, 0x550c7dc3, 0x00000000) == 0xfbcf5b8a
    ensures T2(0x4798a3f4, 0x8c87346b, 0x8e04ecb9) == 0xfb506a1f
    ensures T1(0x816fd6e9, 0x436b23e8, 0x1cc92596, 0x32ca2d8c, 0x72be5d74, 0x00000000) == 0x9052955f
    ensures T2(0xf71fc5a9, 0x4798a3f4, 0x8c87346b) == 0xf73e9431
    ensures T1(0x1e578218, 0x816fd6e9, 0x436b23e8, 0x1cc92596, 0x80deb1fe, 0x00000000) == 0xe7d31473
    ensures T2(0x87912990, 0xf71fc5a9, 0x4798a3f4) == 0xf15fd6a3
    ensures T1(0x745a48de, 0x1e578218, 0x816fd6e9, 0x436b23e8, 0x9bdc06a7, 0x00000000) == 0xc3fa4e18
    ensures T2(0xd932eb16, 0x87912990, 0xf71fc5a9) == 0xfc6a11c6
    ensures T1(0x0b92f20c, 0x745a48de, 0x1e578218, 0x816fd6e9, 0xc19bf174, 0x00000018) == 0x10394824
    ensures T2(0xc0645fde, 0xd932eb16, 0x87912990) == 0xa0c0db6a
  {
  }

  lemma Steps16()
    ensures T1(0x07590dcd, 0x0b92f20c, 0x745a48de, 0x1e578218, 0xe49b69c1, 0x61626380) == 0xf8a2f90c
    ensures T2(0xb0fa238e, 0xc0645fde, 0xd932eb16) == 0x2937a18f
    ensures T1(0x8034229c, 0x07590dcd, 0x0b92f20c, 0x745a48de, 0xefbe4786, 0x000f0000) == 0xab3bf93e
    ensures T2(0x21da9a9b, 0xb0fa238e, 0xc0645fde) == 0x17bfe093
    ensures T1(0x846ee454, 0x8034229c, 0x07590dcd, 0x0b92f20c, 0x0fc19dc6, 0x7da86405) == 0x0c253983
    ensures T2(0xc2fbd9d1, 0x21da9a9b, 0xb0fa238e) == 0xf252423c
    ensures T1(0xcc899961, 0x846ee454, 0x8034229c, 0x07590dcd, 0x240ca1cc, 0x600003c6) == 0xff695deb
    ensures T2(0xfe777bbf, 0xc2fbd9d1, 0x21da9a9b) == 0xe288ae48
    ensures T1(0xb0638179, 0xcc899961, 0x846ee454, 0x8034229c, 0x2de92c6f, 0x3e9d7b78) == 0x68ffee95
    ensures T2(0xe1f20c33, 0xfe777bbf, 0xc2fbd9d1) == 0x34c69cce
    ensures T1(0x8ada8930, 0xb0638179, 0xcc899961, 0x846ee454, 0x4a7484aa, 0x0183fc00) == 0x1e299f9f
    ensures T2(0x9dc68b63, 0xe1f20c33, 0xfe777bbf) == 0xa436cdce
    ensures T1(0xe1257970, 0x8ada8930, 0xb0638179, 0xcc899961, 0x5cb0a9dc, 0x12dcbfdb) == 0x4b7d958b
    ensures T2(0xc2606d6d, 0x9dc68b63, 0xe1f20c33) == 0x5c25ccb4
    ensures T1(0x49f5114a, 0xe1257970, 0x8ada8930, 0xb0638179, 0x76f988da, 0xe2e2c38e) == 0xc855b714
    ensures T2(0xa7a3623f, 0xc2606d6d, 0x9dc68b63) == 0xfd7f8679
  {
  }

  lemma Steps24()
    ensures T1(0xaa47c347, 0x49f5114a, 0xe1257970, 0x8ada8930, 0x983e5152, 0xc8215c1a) == 0x8a5d642e
    ensures T2(0xc5d53d8d, 0xa7a3623f, 0xc2606d6d) == 0x91cec40a
    ensures T1(0x2823ef91, 0xaa47c347, 0x49f5114a, 0xe1257970, 0xa831c66d, 0xb73679a2) == 0x51d7d021
    ensures T2(0x1c2c2838, 0xc5d53d8d, 0xa7a3623f) == 0x7c10335c
    ensures T1(0x14383d8e, 0x2823ef91, 0xaa47c347, 0x49f5114a, 0xb00327c8, 0xe5bc3909) == 0x1fa902d7
    ensures T2(0xcde8037d, 0x1c2c2838, 0xc5d53d8d) == 0x9685c1e5
    ensures T1(0xc74c6516, 0x14383d8e, 0x2823ef91, 0xaa47c347, 0xbf597fc7, 0x32663c5b) == 0x282a826b
    ensures T2(0xb62ec4bc, 0xcde8037d, 0x1c2c2838) == 0x4fa8f2bd
    ensures T1(0xedffbff8, 0xc74c6516, 0x14383d8e, 0x2823ef91, 0xc6e00bf3, 0x9d209d67) == 0x44e67b7f
    ensures T2(0x77d37528, 0xb62ec4bc, 0xcde8037d) == 0xf14e074a
    ensures T1(0x6112a3b7, 0xedffbff8, 0xc74c6516, 0x14383d8e, 0xd5a79147, 0xec8726cb) == 0xdfff90ba
    ensures T2(0x363482c9, 0x77d37528, 0xb62ec4bc) == 0xc0067a76
    ensures T1(0xade79437, 0x6112a3b7, 0xedffbff8, 0xc74c6516, 0x06ca6351, 0x702138a4) == 0x4adae67e
    ensures T2(0xa0060b30, 0x363482c9, 0x77d37528) == 0x9fbe43a4
    ensures T1(0x0109ab3a, 0xade79437, 0x6112a3b7, 0xedffbff8, 0x14292967, 0xd3b7973b) == 0x42859bea
    ensures T2(0xea992a22, 0xa0060b30, 0x363482c9) == 0x312da00b
  {
  }

  lemma Steps32()
    ensures T1(0xba591112, 0x0109ab3a, 0xade79437, 0x6112a3b7, 0x27b70a85, 0x93f5997f) == 0x66a5732d
    ensures T2(0x73b33bf5, 0xea992a22, 0xa0060b30) == 0x323bb1da
    ensures T1(0x9cd9f5f6, 0xba591112, 0x0109ab3a, 0xade79437, 0x2e1b2138, 0x3b68ba73) == 0xb91e92a3
    ensures T2(0x98e12507, 0x73b33bf5, 0xea992a22) == 0x4541bb52
    ensures T1(0x59249dd3, 0x9cd9f5f6, 0xba591112, 0x0109ab3a, 0x4d2c6dfc, 0xaff4ffc1) == 0x1dc60e11
    ensures T2(0xfe604df5, 0x98e12507, 0x73b33bf5) == 0x8be1657b
    ensures T1(0x085f3833, 0x59249dd3, 0x9cd9f5f6, 0xba591112, 0x53380d13, 0xf10a5c62) == 0x80fcc6e1
    ensures T2(0xa9a7738c, 0xfe604df5, 0x98e12507) == 0xe4a40903
    ensures T1(0xf4b002d6, 0x085f3833, 0x59249dd3, 0x9cd9f5f6, 0x650a7354, 0x0a8b3996) == 0x6e917d64
    ensures T2(0x65a0cfe4, 0xa9a7738c, 0xfe604df5) == 0xd314df4d
    ensures T1(0x0772a26b, 0xf4b002d6, 0x085f3833, 0x59249dd3, 0x766a0abb, 0x72af830a) == 0xa6a75748
    ensures T2(0x41a65cb1, 0x65a0cfe4, 0xa9a7738c) == 0x8e37bebc
    ensures T1(0xa507a53d, 0x0772a26b, 0xf4b002d6, 0x085f3833, 0x81c2c92e, 0x9409e33e) == 0x46d0a83c
    ensures T2(0x34df1604, 0x41a65cb1, 0x65a0cfe4) == 0x26f4d24e
    ensures T1(0xf0781bc8, 0xa507a53d, 0x0772a26b, 0xf4b002d6, 0x92722c85, 0x24641522) == 0xb95af0bc
    ensures T2(0x6dc57a8a, 0x34df1604, 0x41a65cb1) == 0xc08f77be
  {
  }

  lemma Steps40()
    ensures T1(0x1efbc0a0, 0xf0781bc8, 0xa507a53d, 0x0772a26b, 0xa2bfe8a1, 0x9f47bf94) == 0xe48ed0b2
    ensures T2(0x79ea687a, 0x6dc57a8a, 0x34df1604) == 0xf1d836b4
    ensures T1(0x26352d63, 0x1efbc0a0, 0xf0781bc8, 0xa507a53d, 0xa81a664b, 0xf0a64f5a) == 0x4eac110d
    ensures T2(0xd6670766, 0x79ea687a, 0x6dc57a8a) == 0x909a5422
    ensures T1(0x838b2711, 0x26352d63, 0x1efbc0a0, 0xf0781bc8, 0xc24b8b70, 0x3e246a79) == 0x7107cc8b
    ensures T2(0xdf46652f, 0xd6670766, 0x79ea687a) == 0xa6a24173
    ensures T1(0xdecd4715, 0x838b2711, 0x26352d63, 0x1efbc0a0, 0xc76c51a3, 0x27333ba3) == 0x83b7e3b4
    ensures T2(0x17aa0dfe, 0xdf46652f, 0xd6670766) == 0x1993cbdf
    ensures T1(0xfda24c2e, 0xdecd4715, 0x838b2711, 0x26352d63, 0xd192e819, 0x0c4763f2) == 0xd1a80a8a
    ensures T2(0x9d4baf93, 0x17aa0dfe, 0xdf46652f) == 0x54ba7d8b
    ensures T1(0xa80f11f0, 0xfda24c2e, 0xdecd4715, 0x838b2711, 0xd6990624, 0x840abf27) == 0xd82ef872
    ensures T2(0x26628815, 0x9d4baf93, 0x17aa0dfe) == 0x9a7c531f
    ensures T1(0xb7755da1, 0xa80f11f0, 0xfda24c2e, 0xdecd4715, 0xf40e3585, 0x7a290d5d) == 0xbdd186ab
    ensures T2(0x72ab4b91, 0x26628815, 0x9d4baf93) == 0xe37a8e05
    ensures T1(0xd57b94a9, 0xb7755da1, 0xa80f11f0, 0xfda24c2e, 0x106aa070, 0x065c43da) == 0x61835c33
    ensures T2(0xa14c14b0, 0x72ab4b91, 0x26628815) == 0xdfeed65a
  {
  }

  lemma Steps48()
    ensures T1(0xfecf0bc6, 0xd57b94a9, 0xb7755da1, 0xa80f11f0, 0x19a4c116, 0xfb3e89cb) == 0x970eb823
    ensures T2(0x4172328d, 0xa14c14b0, 0x72ab4b91) == 0x6e66c4c8
    ensures T1(0xbd714038, 0xfecf0bc6, 0xd57b94a9, 0xb7755da1, 0x1e376c08, 0xcc7617db) == 0xfbb0ed7b
    ensures T2(0x05757ceb, 0x4172328d, 0xa14c14b0) == 0xf56b0d2d
    ensures T1(0x6e5c390c, 0xbd714038, 0xfecf0bc6, 0xd57b94a9, 0x2748774c, 0xb9e66c34) == 0xb1a5b847
    ensures T2(0xf11bfaa8, 0x05757ceb, 0x4172328d) == 0xc85f505a
    ensures T1(0x52f1ccf7, 0x6e5c390c, 0xbd714038, 0xfecf0bc6, 0x34b0bcb5, 0xa9993667) == 0x07b0e991
    ensures T2(0x7a0508a1, 0xf11bfaa8, 0x05757ceb) == 0x80bd9091
    ensures T1(0x49231c1e, 0x52f1ccf7, 0x6e5c390c, 0xbd714038, 0x391c0cb3, 0x84badedd) == 0x4d290015
    ensures T2(0x886e7a22, 0x7a0508a1, 0xf11bfaa8) == 0xc2f6d27a
    ensures T1(0x529e7d00, 0x49231c1e, 0x52f1ccf7, 0x6e5c390c, 0x4ed8aa4a, 0xc21462bc) == 0xae2b8d1b
    ensures T2(0x101fd28f, 0x886e7a22, 0x7a0508a1) == 0x4744a2c0
    ensures T1(0x9f4787c3, 0x529e7d00, 0x49231c1e, 0x52f1ccf7, 0x5b9cca4f, 0x1487472c) == 0x6b0912ae
    ensures T2(0xf5702fdb, 0x101fd28f, 0x886e7a22) == 0xd3bb4a2d
    ensures T1(0xe50e1b4f, 0x9f4787c3, 0x529e7d00, 0x49231c1e, 0x682e6ff3, 0xb20f7a99) == 0xcc5cac49
    ensures T2(0x3ec45cdb, 0xf5702fdb, 0x101fd28f) == 0x6c6fecca
  {
  }

  lemma Steps56()
    ensures T1(0x54cb266b, 0xe50e1b4f, 0x9f4787c3, 0x529e7d00, 0x748f82ee, 0xef57b9cd) == 0x8b3ebddd
    ensures T2(0x38cc9913, 0x3ec45cdb, 0xf5702fdb) == 0x7192ca9e
    ensures T1(0x9b5e906c, 0x54cb266b, 0xe50e1b4f, 0x9f4787c3, 0x78a5636f, 0xebe6b238) == 0x88d3d0b3
    ensures T2(0xfcd1887b, 0x38cc9913, 0x3ec45cdb) == 0x378f03bc
    ensures T1(0x7e44008e, 0x9b5e906c, 0x54cb266b, 0xe50e1b4f, 0x84c87814, 0x9fe3095e) == 0x2ebf62eb
    ensures T2(0xc062d46f, 0xfcd1887b, 0x38cc9913) == 0xd0f7a187
    ensures T1(0x6d83bfc6, 0x7e44008e, 0x9b5e906c, 0x54cb266b, 0x8cc70208, 0x78bc8d4b) == 0x794f142a
    ensures T2(0xffb70472, 0xc062d46f, 0xfcd1887b) == 0x3d5f7bd5
    ensures T1(0xb21bad3d, 0x6d83bfc6, 0x7e44008e, 0x9b5e906c, 0x90befffa, 0xa43fcf15) == 0x994dc019
    ensures T2(0xb6ae8fff, 0xffb70472, 0xc062d46f) == 0x1f106cd0
    ensures T1(0x961f4894, 0xb21bad3d, 0x6d83bfc6, 0x7e44008e, 0xa4506ceb, 0x668b2ff8) == 0xd42a5147
    ensures T2(0xb85e2ce9, 0xb6ae8fff, 0xffb70472) == 0x30a7fc25
    ensures T1(0x948d25b6, 0x961f4894, 0xb21bad3d, 0x6d83bfc6, 0xbef9a3f7, 0xeeaba2cc) == 0xfb5b0d9e
    ensures T2(0x04d24d6c, 0xb85e2ce9, 0xb6ae8fff) == 0xd83f13c7
    ensures T1(0xfb121210, 0x948d25b6, 0x961f4894, 0xb21bad3d, 0xc67178f2, 0x12b1edeb) == 0xa8467f25
    ensures T2(0xd39a2165, 0x04d24d6c, 0xb85e2ce9) == 0xa827b133
  {
  }

  lemma Rounds8()
    ensures Rounds(IV, AbcBlock(), 8)
         == Regs(0x85a07b5f, 0xe5030380, 0x2b4209f5, 0x04409a6a, 0x0c657a79, 0x9b27a401, 0x714260ad, 0x43ada245)
  {
    hide W, Rounds, AbcBlock, Schedule, K, T1, T2;
    NoRounds();
    Words0();
    Keys0();
    Steps0();
    Turns(0); Turns(1); Turns(2); Turns(3); Turns(4); Turns(5); Turns(6); Turns(7);
  }

  lemma Rounds16()
    ensures Rounds(IV, AbcBlock(), 16)
         == Regs(0xb0fa238e, 0xc0645fde, 0xd932eb16, 0x87912990, 0x07590dcd, 0x0b92f20c, 0x745a48de, 0x1e578218)
  {
    hide W, Rounds, AbcBlock, Schedule, K, T1, T2;
    Rounds8();
    Words0();
    Keys8();
    Steps8();
    Turns(8); Turns(9); Turns(10); Turns(11); Turns(12); Turns(13); Turns(14); Turns(15);
  }

  lemma Rounds24()
    ensures Rounds(IV, AbcBlock(), 24)
         == Regs(0xc5d53d8d, 0xa7a3623f, 0xc2606d6d, 0x9dc68b63, 0xaa47c347, 0x49f5114a, 0xe1257970, 0x8ada8930)
  {
    hide W, Rounds, AbcBlock, Schedule, K, T1, T2;
    Rounds16();
    Words16();
    Keys16();
    Steps16();
    Turns(16); Turns(17); Turns(18); Turns(19); Turns(20); Turns(21); Turns(22); Turns(23);
  }

  lemma Rounds32()
    ensures Rounds(IV, AbcBlock(), 32)
         == Regs(0x73b33bf5, 0xea992a22, 0xa0060b30, 0x363482c9, 0xba591112, 0x0109ab3a, 0xade79437, 0x6112a3b7)
  {
    hide W, Rounds, AbcBlock, Schedule, K, T1, T2;
    Rounds24();
    Words16();
    Keys24();
    Steps24();
    Turns(24); Turns(25); Turns(26); Turns(27); Turns(28); Turns(29); Turns(30); Turns(31);
  }

  lemma Rounds40()
    ensures Rounds(IV, AbcBlock(), 40)
         == Regs(0x79ea687a, 0x6dc57a8a, 0x34df1604, 0x41a65cb1, 0x1efbc0a0, 0xf0781bc8, 0xa507a53d, 0x0772a26b)
  {
    hide W, Rounds, AbcBlock, Schedule, K, T1, T2;
    Rounds32();
    Words32();
    Keys32();
    Steps32();
    Turns(32); Turns(33); Turns(34); Turns(35); Turns(36); Turns(37); Turns(38); Turns(39);
  }

  lemma Rounds48()
    ensures Rounds(IV, AbcBlock(), 48)
         == Regs(0x4172328d, 0xa14c14b0, 0x72ab4b91, 0x26628815, 0xfecf0bc6, 0xd57b94a9, 0xb7755da1, 0xa80f11f0)
  {
    hide W, Rounds, AbcBlock, Schedule, K, T1, T2;
    Rounds40();
    Words32();
    Keys40();
    Steps40();
    Turns(40); Turns(41); Turns(42); Turns(43); Turns(44); Turns(45); Turns(46); Turns(47);
  }

  lemma Rounds56()
    ensures Rounds(IV, AbcBlock(), 56)
         == Regs(0x38cc9913, 0x3ec45cdb, 0xf5702fdb, 0x101fd28f, 0x54cb266b, 0xe50e1b4f, 0x9f4787c3, 0x529e7d00)
  {
    hide W, Rounds, AbcBlock, Schedule, K, T1, T2;
    Rounds48();
    Words48();
    Keys48();
    Steps48();
    Turns(48); Turns(49); Turns(50); Turns(51); Turns(52); Turns(53); Turns(54); Turns(55);
  }

  lemma Rounds64()
    ensures Rounds(IV, AbcBlock(), 64)
         == Regs(0x506e3058, 0xd39a2165, 0x04d24d6c, 0xb85e2ce9, 0x5ef50f24, 0xfb121210, 0x948d25b6, 0x961f4894)
  {
    hide W, Rounds, AbcBlock, Schedule, K, T1, T2;
    Rounds56();
    Words48();
    Keys56();
    Steps56();
    Turns(56); Turns(57); Turns(58); Turns(59); Turns(60); Turns(61); Turns(62); Turns(63);
  }

  lemma NoRounds()
    ensures Rounds(IV, AbcBlock(), 0)
         == Regs(0x6a09e667, 0xbb67ae85, 0x3c6ef372, 0xa54ff53a, 0x510e527f, 0x9b05688c, 0x1f83d9ab, 0x5be0cd19)
  {
  }

  lemma AbcCompressed()
    ensures Compress(IV, AbcBlock())
         == Regs(0xba7816bf, 0x8f01cfea, 0x414140de, 0x5dae2223, 0xb00361a3, 0x96177a9c, 0xb410ff61, 0xf20015ad)
  {
    hide Rounds, AbcBlock;
    Rounds64();
  }

  lemma OneBlock(data: Block)
    ensures Fold(Compress, IV, data) == Compress(IV, data)
  {
    hide Compress;
    assert data[..0] == [] && data[0..] == data;
    assert Fold(Compress, IV, data[..0]) == IV;
  }

  lemma Spelled(w: Word, x: u32, s: Bytes)
    requires w as nat == x && BigEndian32(x) == s
    ensures WordBytes(w) == s
  {
  }

  lemma Spell0()
    ensures TwoWords(0xba7816bf, 0x8f01cfea) == [0xba, 0x78, 0x16, 0xbf, 0x8f, 0x01, 0xcf, 0xea]
  {
    Spelled(0xba7816bf, 0xba7816bf, [0xba, 0x78, 0x16, 0xbf]);
    Spelled(0x8f01cfea, 0x8f01cfea, [0x8f, 0x01, 0xcf, 0xea]);
  }

  lemma Spell2()
    ensures TwoWords(0x414140de, 0x5dae2223) == [0x41, 0x41, 0x40, 0xde, 0x5d, 0xae, 0x22, 0x23]
  {
    Spelled(0x414140de, 0x414140de, [0x41, 0x41, 0x40, 0xde]);
    Spelled(0x5dae2223, 0x5dae2223, [0x5d, 0xae, 0x22, 0x23]);
  }

  lemma Spell4()
    ensures TwoWords(0xb00361a3, 0x96177a9c) == [0xb0, 0x03, 0x61, 0xa3, 0x96, 0x17, 0x7a, 0x9c]
  {
    Spelled(0xb00361a3, 0xb00361a3, [0xb0, 0x03, 0x61, 0xa3]);
    Spelled(0x96177a9c, 0x96177a9c, [0x96, 0x17, 0x7a, 0x9c]);
  }

  lemma Spell6()
    ensures TwoWords(0xb410ff61, 0xf20015ad) == [0xb4, 0x10, 0xff, 0x61, 0xf2, 0x00, 0x15, 0xad]
  {
    Spelled(0xb410ff61, 0xb410ff61, [0xb4, 0x10, 0xff, 0x61]);
    Spelled(0xf20015ad, 0xf20015ad, [0xf2, 0x00, 0x15, 0xad]);
  }

  /** The hash of "abc". */
  lemma HashAbc()
    ensures Hash(ABC)
         == [0xba, 0x78, 0x16, 0xbf, 0x8f, 0x01, 0xcf, 0xea]
          + [0x41, 0x41, 0x40, 0xde, 0x5d, 0xae, 0x22, 0x23]
          + [0xb0, 0x03, 0x61, 0xa3, 0x96, 0x17, 0x7a, 0x9c]
          + [0xb4, 0x10, 0xff, 0x61, 0xf2, 0x00, 0x15, 0xad]
  {
    hide Compress, AbcBlock, TwoWords, Padding;
    AbcPadded();
    OneBlock(AbcBlock());
    AbcCompressed();
    Spell0();
    Spell2();
    Spell4();
    Spell6();
  }
}
