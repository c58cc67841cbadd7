/** The worked example of FIPS 180-4 for SHA-256: the message "abc". It goes through every constant, every word
    of the schedule and every round. */
module Sha256Abc {
  import opened Words
  import opened Sha256

  const ABC: seq<byte> := [0x61, 0x62, 0x63]

  /** The message schedule of the one padded block. */
  function Plan(): (w: seq<bv32>)
    ensures |w| == 64
  {
    [0x61626380, 0x00000000, 0x00000000, 0x00000000, 0x00000000, 0x00000000, 0x00000000, 0x00000000] +
    [0x00000000, 0x00000000, 0x00000000, 0x00000000, 0x00000000, 0x00000000, 0x00000000, 0x00000018] +
    [0x61626380, 0x000f0000, 0x7da86405, 0x600003c6, 0x3e9d7b78, 0x0183fc00, 0x12dcbfdb, 0xe2e2c38e] +
    [0xc8215c1a, 0xb73679a2, 0xe5bc3909, 0x32663c5b, 0x9d209d67, 0xec8726cb, 0x702138a4, 0xd3b7973b] +
    [0x93f5997f, 0x3b68ba73, 0xaff4ffc1, 0xf10a5c62, 0x0a8b3996, 0x72af830a, 0x9409e33e, 0x24641522] +
    [0x9f47bf94, 0xf0a64f5a, 0x3e246a79, 0x27333ba3, 0x0c4763f2, 0x840abf27, 0x7a290d5d, 0x065c43da] +
    [0xfb3e89cb, 0xcc7617db, 0xb9e66c34, 0xa9993667, 0x84badedd, 0xc21462bc, 0x1487472c, 0xb20f7a99] +
    [0xef57b9cd, 0xebe6b238, 0x9fe3095e, 0x78bc8d4b, 0xa43fcf15, 0x668b2ff8, 0xeeaba2cc, 0x12b1edeb]
  }

  ghost predicate Planned(b: seq<byte>, n: nat) {
    |b| == BLOCK && n <= 64 && forall t: nat | t < n :: Schedule(b, t) == Plan()[t]
  }

  lemma AbcBlock(b: seq<byte>)
    requires b == Padded(ABC)
    ensures |b| == BLOCK && b[..4] == [0x61, 0x62, 0x63, 0x80] && b[63] == 0x18
    ensures forall i | 4 <= i < 63 :: b[i] == 0
  {
    EightBytes();
    assert b == ABC + [0x80] + seq(52, _ => 0) + Bytes(8, 24);
  }

  lemma EightBytes()
    ensures Bytes(8, 24) == [0, 0, 0, 0, 0, 0, 0, 24]
  {
    assert Bytes(4, 0) == [0, 0, 0, 0];
    assert Bytes(7, 0) == [0, 0, 0, 0, 0, 0, 0];
  }

  lemma BytesToWord(b: seq<byte>, t: nat, p: byte, q: byte, r: byte, s: byte)
    requires |b| == BLOCK && t < 16 && b[4 * t] == p && b[4 * t + 1] == q && b[4 * t + 2] == r && b[4 * t + 3] == s
    ensures Schedule(b, t) ==
              ((p as bv32) << 24) | ((q as bv32) << 16) | ((r as bv32) << 8) | (s as bv32)
  {
  }

  lemma FirstWords(b: seq<byte>)
    requires b == Padded(ABC)
    ensures |b| == BLOCK && Schedule(b, 0) == 0x61626380 && Schedule(b, 15) == 0x18
    ensures forall t: nat | 0 < t < 15 :: Schedule(b, t) == 0
  {
    hide Schedule, Padded;
    AbcBlock(b);
    assert b[0] == b[..4][0] && b[1] == b[..4][1] && b[2] == b[..4][2] && b[3] == b[..4][3];
    BytesToWord(b, 0, 0x61, 0x62, 0x63, 0x80);
    BytesToWord(b, 15, 0, 0, 0, 0x18);
    forall t: nat | 0 < t < 15 ensures Schedule(b, t) == 0 { BytesToWord(b, t, 0, 0, 0, 0); }
  }

  lemma Planned16(b: seq<byte>)
    requires b == Padded(ABC)
    ensures Planned(b, 16)
  {
    hide Schedule, Padded;
    FirstWords(b);
    forall t: nat | t < 16 ensures Schedule(b, t) == Plan()[t] {
      assert Plan()[..16] == [0x61626380] + seq(14, _ => 0) + [0x18];
      assert Plan()[t] == Plan()[..16][t];
    }
  }

  lemma PlanNext(b: seq<byte>, t: nat)
    requires 16 <= t < 64 && Planned(b, t)
    ensures Schedule(b, t) == Mix(Plan()[t - 2], Plan()[t - 7], Plan()[t - 15], Plan()[t - 16])
    ensures Schedule(b, t) == Plan()[t] ==> Planned(b, t + 1)
  {
    hide Plan, Mix;
  }

  lemma PlanRow0()
    ensures Plan()[0] == 0x61626380 && Plan()[1] == 0x00000000 && Plan()[2] == 0x00000000 && Plan()[3] == 0x00000000
    ensures Plan()[4] == 0x00000000 && Plan()[5] == 0x00000000 && Plan()[6] == 0x00000000 && Plan()[7] == 0x00000000
  {
  }

  lemma PlanRow1()
    ensures Plan()[8] == 0x00000000 && Plan()[9] == 0x00000000 && Plan()[10] == 0x00000000 && Plan()[11] == 0x00000000
    ensures Plan()[12] == 0x00000000 && Plan()[13] == 0x00000000 && Plan()[14] == 0x00000000 && Plan()[15] == 0x00000018
  {
  }

  lemma PlanRow2()
    ensures Plan()[16] == 0x61626380 && Plan()[17] == 0x000f0000 && Plan()[18] == 0x7da86405 && Plan()[19] == 0x600003c6
    ensures Plan()[20] == 0x3e9d7b78 && Plan()[21] == 0x0183fc00 && Plan()[22] == 0x12dcbfdb && Plan()[23] == 0xe2e2c38e
  {
  }

  lemma PlanRow3()
    ensures Plan()[24] == 0xc8215c1a && Plan()[25] == 0xb73679a2 && Plan()[26] == 0xe5bc3909 && Plan()[27] == 0x32663c5b
    ensures Plan()[28] == 0x9d209d67 && Plan()[29] == 0xec8726cb && Plan()[30] == 0x702138a4 && Plan()[31] == 0xd3b7973b
  {
  }

  lemma PlanRow4()
    ensures Plan()[32] == 0x93f5997f && Plan()[33] == 0x3b68ba73 && Plan()[34] == 0xaff4ffc1 && Plan()[35] == 0xf10a5c62
    ensures Plan()[36] == 0x0a8b3996 && Plan()[37] == 0x72af830a && Plan()[38] == 0x9409e33e && Plan()[39] == 0x24641522
  {
  }

  lemma PlanRow5()
    ensures Plan()[40] == 0x9f47bf94 && Plan()[41] == 0xf0a64f5a && Plan()[42] == 0x3e246a79 && Plan()[43] == 0x27333ba3
    ensures Plan()[44] == 0x0c4763f2 && Plan()[45] == 0x840abf27 && Plan()[46] == 0x7a290d5d && Plan()[47] == 0x065c43da
  {
  }

  lemma PlanRow6()
    ensures Plan()[48] == 0xfb3e89cb && Plan()[49] == 0xcc7617db && Plan()[50] == 0xb9e66c34 && Plan()[51] == 0xa9993667
    ensures Plan()[52] == 0x84badedd && Plan()[53] == 0xc21462bc && Plan()[54] == 0x1487472c && Plan()[55] == 0xb20f7a99
  {
  }

  lemma PlanRow7()
    ensures Plan()[56] == 0xef57b9cd && Plan()[57] == 0xebe6b238 && Plan()[58] == 0x9fe3095e && Plan()[59] == 0x78bc8d4b
    ensures Plan()[60] == 0xa43fcf15 && Plan()[61] == 0x668b2ff8 && Plan()[62] == 0xeeaba2cc && Plan()[63] == 0x12b1edeb
  {
  }

  lemma Planned24(b: seq<byte>)
    requires Planned(b, 16)
    ensures Planned(b, 24)
  {
    hide Schedule, Plan, Planned;
    PlanRow0();
    PlanRow1();
    PlanRow2();
    PlanNext(b, 16);
    PlanNext(b, 17);
    PlanNext(b, 18);
    PlanNext(b, 19);
    PlanNext(b, 20);
    PlanNext(b, 21);
    PlanNext(b, 22);
    PlanNext(b, 23);
  }

  lemma Planned32(b: seq<byte>)
    requires Planned(b, 24)
    ensures Planned(b, 32)
  {
    hide Schedule, Plan, Planned;
    PlanRow1();
    PlanRow2();
    PlanRow3();
    PlanNext(b, 24);
    PlanNext(b, 25);
    PlanNext(b, 26);
    PlanNext(b, 27);
    PlanNext(b, 28);
    PlanNext(b, 29);
    PlanNext(b, 30);
    PlanNext(b, 31);
  }

  lemma Planned40(b: seq<byte>)
    requires Planned(b, 32)
    ensures Planned(b, 40)
  {
    hide Schedule, Plan, Planned;
    PlanRow2();
    PlanRow3();
    PlanRow4();
    PlanNext(b, 32);
    PlanNext(b, 33);
    PlanNext(b, 34);
    PlanNext(b, 35);
    PlanNext(b, 36);
    PlanNext(b, 37);
    PlanNext(b, 38);
    PlanNext(b, 39);
  }

  lemma Planned48(b: seq<byte>)
    requires Planned(b, 40)
    ensures Planned(b, 48)
  {
    hide Schedule, Plan, Planned;
    PlanRow3();
    PlanRow4();
    PlanRow5();
    PlanNext(b, 40);
    PlanNext(b, 41);
    PlanNext(b, 42);
    PlanNext(b, 43);
    PlanNext(b, 44);
    PlanNext(b, 45);
    PlanNext(b, 46);
    PlanNext(b, 47);
  }

  lemma Planned56(b: seq<byte>)
    requires Planned(b, 48)
    ensures Planned(b, 56)
  {
    hide Schedule, Plan, Planned;
    PlanRow4();
    PlanRow5();
    PlanRow6();
    PlanNext(b, 48);
    PlanNext(b, 49);
    PlanNext(b, 50);
    PlanNext(b, 51);
    PlanNext(b, 52);
    PlanNext(b, 53);
    PlanNext(b, 54);
    PlanNext(b, 55);
  }

  lemma Planned64(b: seq<byte>)
    requires Planned(b, 56)
    ensures Planned(b, 64)
  {
    hide Schedule, Plan, Planned;
    PlanRow5();
    PlanRow6();
    PlanRow7();
    PlanNext(b, 56);
    PlanNext(b, 57);
    PlanNext(b, 58);
    PlanNext(b, 59);
    PlanNext(b, 60);
    PlanNext(b, 61);
    PlanNext(b, 62);
    PlanNext(b, 63);
  }

  // The working variables after each round.

  lemma ConstantRow0()
    ensures Constants()[0] == 0x428a2f98 && Constants()[1] == 0x71374491 && Constants()[2] == 0xb5c0fbcf
    ensures Constants()[3] == 0xe9b5dba5 && Constants()[4] == 0x3956c25b && Constants()[5] == 0x59f111f1
    ensures Constants()[6] == 0x923f82a4 && Constants()[7] == 0xab1c5ed5
  {
  }

  lemma ConstantRow1()
    ensures Constants()[8] == 0xd807aa98 && Constants()[9] == 0x12835b01 && Constants()[10] == 0x243185be
    ensures Constants()[11] == 0x550c7dc3 && Constants()[12] == 0x72be5d74 && Constants()[13] == 0x80deb1fe
    ensures Constants()[14] == 0x9bdc06a7 && Constants()[15] == 0xc19bf174
  {
  }

  lemma ConstantRow2()
    ensures Constants()[16] == 0xe49b69c1 && Constants()[17] == 0xefbe4786 && Constants()[18] == 0x0fc19dc6
    ensures Constants()[19] == 0x240ca1cc && Constants()[20] == 0x2de92c6f && Constants()[21] == 0x4a7484aa
    ensures Constants()[22] == 0x5cb0a9dc && Constants()[23] == 0x76f988da
  {
  }

  lemma ConstantRow3()
    ensures Constants()[24] == 0x983e5152 && Constants()[25] == 0xa831c66d && Constants()[26] == 0xb00327c8
    ensures Constants()[27] == 0xbf597fc7 && Constants()[28] == 0xc6e00bf3 && Constants()[29] == 0xd5a79147
    ensures Constants()[30] == 0x06ca6351 && Constants()[31] == 0x14292967
  {
  }

  lemma ConstantRow4()
    ensures Constants()[32] == 0x27b70a85 && Constants()[33] == 0x2e1b2138 && Constants()[34] == 0x4d2c6dfc
    ensures Constants()[35] == 0x53380d13 && Constants()[36] == 0x650a7354 && Constants()[37] == 0x766a0abb
    ensures Constants()[38] == 0x81c2c92e && Constants()[39] == 0x92722c85
  {
  }

  lemma ConstantRow5()
    ensures Constants()[40] == 0xa2bfe8a1 && Constants()[41] == 0xa81a664b && Constants()[42] == 0xc24b8b70
    ensures Constants()[43] == 0xc76c51a3 && Constants()[44] == 0xd192e819 && Constants()[45] == 0xd6990624
    ensures Constants()[46] == 0xf40e3585 && Constants()[47] == 0x106aa070
  {
  }

  lemma ConstantRow6()
    ensures Constants()[48] == 0x19a4c116 && Constants()[49] == 0x1e376c08 && Constants()[50] == 0x2748774c
    ensures Constants()[51] == 0x34b0bcb5 && Constants()[52] == 0x391c0cb3 && Constants()[53] == 0x4ed8aa4a
    ensures Constants()[54] == 0x5b9cca4f && Constants()[55] == 0x682e6ff3
  {
  }

  lemma ConstantRow7()
    ensures Constants()[56] == 0x748f82ee && Constants()[57] == 0x78a5636f && Constants()[58] == 0x84c87814
    ensures Constants()[59] == 0x8cc70208 && Constants()[60] == 0x90befffa && Constants()[61] == 0xa4506ceb
    ensures Constants()[62] == 0xbef9a3f7 && Constants()[63] == 0xc67178f2
  {
  }

  lemma RoundNext(b: seq<byte>, t: nat)
    requires t < 64 && Planned(b, 64)
    ensures Rounds(INITIAL, b, 0) == INITIAL
    ensures Rounds(INITIAL, b, t + 1) == Round(Rounds(INITIAL, b, t), Constants()[t], Plan()[t])
  {
    hide Plan, Round, Constants, Schedule;
  }

  lemma Rounds8(b: seq<byte>)
    requires Planned(b, 64) && |b| == BLOCK
    ensures Rounds(INITIAL, b, 8) ==
      Vars(0x85a07b5f, 0xe5030380, 0x2b4209f5, 0x04409a6a, 0x0c657a79, 0x9b27a401, 0x714260ad, 0x43ada245)
  {
    hide Schedule, Planned, Rounds, Plan, Constants;
    PlanRow0();
    ConstantRow0();
    RoundNext(b, 0);
    RoundNext(b, 1);
    RoundNext(b, 2);
    RoundNext(b, 3);
    RoundNext(b, 4);
    RoundNext(b, 5);
    RoundNext(b, 6);
    RoundNext(b, 7);
  }

  lemma Rounds16(b: seq<byte>)
    requires Planned(b, 64) && |b| == BLOCK
    requires Rounds(INITIAL, b, 8) ==
      Vars(0x85a07b5f, 0xe5030380, 0x2b4209f5, 0x04409a6a, 0x0c657a79, 0x9b27a401, 0x714260ad, 0x43ada245)
    ensures Rounds(INITIAL, b, 16) ==
      Vars(0xb0fa238e, 0xc0645fde, 0xd932eb16, 0x87912990, 0x07590dcd, 0x0b92f20c, 0x745a48de, 0x1e578218)
  {
    hide Schedule, Planned, Rounds, Plan, Constants;
    PlanRow1();
    ConstantRow1();
    RoundNext(b, 8);
    RoundNext(b, 9);
    RoundNext(b, 10);
    RoundNext(b, 11);
    RoundNext(b, 12);
    RoundNext(b, 13);
    RoundNext(b, 14);
    RoundNext(b, 15);
  }

  lemma Rounds24(b: seq<byte>)
    requires Planned(b, 64) && |b| == BLOCK
    requires Rounds(INITIAL, b, 16) ==
      Vars(0xb0fa238e, 0xc0645fde, 0xd932eb16, 0x87912990, 0x07590dcd, 0x0b92f20c, 0x745a48de, 0x1e578218)
    ensures Rounds(INITIAL, b, 24) ==
      Vars(0xc5d53d8d, 0xa7a3623f, 0xc2606d6d, 0x9dc68b63, 0xaa47c347, 0x49f5114a, 0xe1257970, 0x8ada8930)
  {
    hide Schedule, Planned, Rounds, Plan, Constants;
    PlanRow2();
    ConstantRow2();
    RoundNext(b, 16);
    RoundNext(b, 17);
    RoundNext(b, 18);
    RoundNext(b, 19);
    RoundNext(b, 20);
    RoundNext(b, 21);
    RoundNext(b, 22);
    RoundNext(b, 23);
  }

  lemma Rounds32(b: seq<byte>)
    requires Planned(b, 64) && |b| == BLOCK
    requires Rounds(INITIAL, b, 24) ==
      Vars(0xc5d53d8d, 0xa7a3623f, 0xc2606d6d, 0x9dc68b63, 0xaa47c347, 0x49f5114a, 0xe1257970, 0x8ada8930)
    ensures Rounds(INITIAL, b, 32) ==
      Vars(0x73b33bf5, 0xea992a22, 0xa0060b30, 0x363482c9, 0xba591112, 0x0109ab3a, 0xade79437, 0x6112a3b7)
  {
    hide Schedule, Planned, Rounds, Plan, Constants;
    PlanRow3();
    ConstantRow3();
    RoundNext(b, 24);
    RoundNext(b, 25);
    RoundNext(b, 26);
    RoundNext(b, 27);
    RoundNext(b, 28);
    RoundNext(b, 29);
    RoundNext(b, 30);
    RoundNext(b, 31);
  }

  lemma Rounds40(b: seq<byte>)
    requires Planned(b, 64) && |b| == BLOCK
    requires Rounds(INITIAL, b, 32) ==
      Vars(0x73b33bf5, 0xea992a22, 0xa0060b30, 0x363482c9, 0xba591112, 0x0109ab3a, 0xade79437, 0x6112a3b7)
    ensures Rounds(INITIAL, b, 40) ==
      Vars(0x79ea687a, 0x6dc57a8a, 0x34df1604, 0x41a65cb1, 0x1efbc0a0, 0xf0781bc8, 0xa507a53d, 0x0772a26b)
  {
    hide Schedule, Planned, Rounds, Plan, Constants;
    PlanRow4();
    ConstantRow4();
    RoundNext(b, 32);
    RoundNext(b, 33);
    RoundNext(b, 34);
    RoundNext(b, 35);
    RoundNext(b, 36);
    RoundNext(b, 37);
    RoundNext(b, 38);
    RoundNext(b, 39);
  }

  lemma Rounds48(b: seq<byte>)
    requires Planned(b, 64) && |b| == BLOCK
    requires Rounds(INITIAL, b, 40) ==
      Vars(0x79ea687a, 0x6dc57a8a, 0x34df1604, 0x41a65cb1, 0x1efbc0a0, 0xf0781bc8, 0xa507a53d, 0x0772a26b)
    ensures Rounds(INITIAL, b, 48) ==
      Vars(0x4172328d, 0xa14c14b0, 0x72ab4b91, 0x26628815, 0xfecf0bc6, 0xd57b94a9, 0xb7755da1, 0xa80f11f0)
  {
    hide Schedule, Planned, Rounds, Plan, Constants;
    PlanRow5();
    ConstantRow5();
    RoundNext(b, 40);
    RoundNext(b, 41);
    RoundNext(b, 42);
    RoundNext(b, 43);
    RoundNext(b, 44);
    RoundNext(b, 45);
    RoundNext(b, 46);
    RoundNext(b, 47);
  }

  lemma Rounds56(b: seq<byte>)
    requires Planned(b, 64) && |b| == BLOCK
    requires Rounds(INITIAL, b, 48) ==
      Vars(0x4172328d, 0xa14c14b0, 0x72ab4b91, 0x26628815, 0xfecf0bc6, 0xd57b94a9, 0xb7755da1, 0xa80f11f0)
    ensures Rounds(INITIAL, b, 56) ==
      Vars(0x38cc9913, 0x3ec45cdb, 0xf5702fdb, 0x101fd28f, 0x54cb266b, 0xe50e1b4f, 0x9f4787c3, 0x529e7d00)
  {
    hide Schedule, Planned, Rounds, Plan, Constants;
    PlanRow6();
    ConstantRow6();
    RoundNext(b, 48);
    RoundNext(b, 49);
    RoundNext(b, 50);
    RoundNext(b, 51);
    RoundNext(b, 52);
    RoundNext(b, 53);
    RoundNext(b, 54);
    RoundNext(b, 55);
  }

  lemma Rounds64(b: seq<byte>)
    requires Planned(b, 64) && |b| == BLOCK
    requires Rounds(INITIAL, b, 56) ==
      Vars(0x38cc9913, 0x3ec45cdb, 0xf5702fdb, 0x101fd28f, 0x54cb266b, 0xe50e1b4f, 0x9f4787c3, 0x529e7d00)
    ensures Rounds(INITIAL, b, 64) ==
      Vars(0x506e3058, 0xd39a2165, 0x04d24d6c, 0xb85e2ce9, 0x5ef50f24, 0xfb121210, 0x948d25b6, 0x961f4894)
  {
    hide Schedule, Planned, Rounds, Plan, Constants;
    PlanRow7();
    ConstantRow7();
    RoundNext(b, 56);
    RoundNext(b, 57);
    RoundNext(b, 58);
    RoundNext(b, 59);
    RoundNext(b, 60);
    RoundNext(b, 61);
    RoundNext(b, 62);
    RoundNext(b, 63);
  }

  /** The digest of the standard's example. */
  lemma AbcDigest()
    ensures Fold(INITIAL, Padded(ABC)) ==
      Vars(0xba7816bf, 0x8f01cfea, 0x414140de, 0x5dae2223, 0xb00361a3, 0x96177a9c, 0xb410ff61, 0xf20015ad)
  {
    hide Rounds, Schedule, Padded, Planned;
    var b := Padded(ABC);
    AbcBlock(b);
    Planned16(b);
    Planned24(b);
    Planned32(b);
    Planned40(b);
    Planned48(b);
    Planned56(b);
    Planned64(b);
    Rounds8(b);
    Rounds16(b);
    Rounds24(b);
    Rounds32(b);
    Rounds40(b);
    Rounds48(b);
    Rounds56(b);
    Rounds64(b);
    FoldOne(INITIAL, b);
  }

  method HashAbc() returns (out: seq<bv8>)
    ensures out == [0xba, 0x78, 0x16, 0xbf, 0x8f, 0x01, 0xcf, 0xea, 0x41, 0x41, 0x40, 0xde, 0x5d, 0xae, 0x22, 0x23,
                    0xb0, 0x03, 0x61, 0xa3, 0x96, 0x17, 0x7a, 0x9c, 0xb4, 0x10, 0xff, 0x61, 0xf2, 0x00, 0x15, 0xad]
  {
    hide Fold, Padded, Compress;
    AbcDigest();
    out := Hash(ABC);
  }
}
