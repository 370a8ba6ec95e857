/**
 Known values of the hashes. Those of CityHash and of the low-level hash of more
 than 32 bytes are rows of the repository's own tables, at least one for every
 case of the length dispatch. Their inputs, which `city.rs` generates and
 `low_level.rs` lists, are written as little-endian words.
 */
module KnownValues {
  import opened Words
  import opened Reads
  import opened City
  import CityHash32
  import CityHash64
  import opened LowLevel
  import opened Streaming

  /** The bytes of some words. */
  function FromWords(ws: seq<U64>): (p: seq<Byte>)
    ensures |p| == 8 * |ws|
  {
    if ws == [] then [] else FromWords(ws[..|ws| - 1]) + Bytes64(ws[|ws| - 1])
  }

  lemma {:induction false} WordAt(ws: seq<U64>, i: nat)
    requires i < |ws|
    ensures Load64(FromWords(ws), 8 * i) == ws[i]
  {
    hide Load64, Bytes64;
    var last := |ws| - 1;
    if i == last {
      LoadBetween(FromWords(ws[..last]), ws[last], []);
      assert FromWords(ws) == FromWords(ws[..last]) + Bytes64(ws[last]) + [];
    } else {
      WordAt(ws[..last], i);
      LoadSlice64(FromWords(ws), 0, 8 * last, 8 * i);
      assert FromWords(ws)[0..8 * last] == FromWords(ws[..last]);
    }
  }

  /** All of the words at once. */
  lemma WordsAt(ws: seq<U64>)
    ensures forall i :: 0 <= i < |ws| ==> Load64(FromWords(ws), 8 * i) == ws[i]
  {
    hide Load64;
    forall i | 0 <= i < |ws|
      ensures Load64(FromWords(ws), 8 * i) == ws[i]
    {
      WordAt(ws, i);
    }
  }

  lemma Four(ws: seq<U64>, i: nat)
    requires i + 4 <= |ws|
    ensures Load64(FromWords(ws), 8 * i) == ws[i] && Load64(FromWords(ws), 8 * i + 8) == ws[i + 1]
    ensures Load64(FromWords(ws), 8 * i + 16) == ws[i + 2] && Load64(FromWords(ws), 8 * i + 24) == ws[i + 3]
  {
    hide Load64, FromWords;
    WordAt(ws, i);
    WordAt(ws, i + 1);
    WordAt(ws, i + 2);
    WordAt(ws, i + 3);
  }

  function FromWords32(ws: seq<U32>): (p: seq<Byte>)
    ensures |p| == 4 * |ws|
  {
    if ws == [] then [] else FromWords32(ws[..|ws| - 1]) + Bytes32(ws[|ws| - 1])
  }

  lemma {:induction false} Word32At(ws: seq<U32>, i: nat)
    requires i < |ws|
    ensures Load32(FromWords32(ws), 4 * i) == ws[i]
  {
    hide Load32, Bytes32;
    var last := |ws| - 1;
    var p, w := FromWords32(ws), Bytes32(ws[last]);
    if i == last {
      assert p[4 * last..4 * last + 4] == w == w[0..4];
      LoadSlice32(p, 4 * last, 4 * last + 4, 0);
      StoreLoad32(ws[last]);
    } else {
      Word32At(ws[..last], i);
      LoadSlice32(p, 0, 4 * last, 4 * i);
      assert p[0..4 * last] == FromWords32(ws[..last]);
    }
  }

  lemma Two(ws: seq<U32>, i: nat)
    requires i + 2 <= |ws|
    ensures Load32(FromWords32(ws), 4 * i) == ws[i] && Load32(FromWords32(ws), 4 * i + 4) == ws[i + 1]
  {
    hide Load32;
    Word32At(ws, i);
    Word32At(ws, i + 1);
  }

  // ---------- hash32 ----------

  lemma Hash32Of8()
    ensures CityHash32.Hash32(FromWords32([0x6024411f, 0xa0f8cdc1])) == 0xc87f95de
  {
    hide Load32, CityHash32.Mix5To12;
    Two([0x6024411f, 0xa0f8cdc1], 0);
    Mix8();
  }

  lemma Mix8()
    ensures CityHash32.Mix5To12(8, 0x6024411f, 0xa0f8cdc1, 0xa0f8cdc1) == 0xc87f95de
  {
    Length32Of8();
    hide Len32;
  }

  lemma Length32Of8() ensures Len32(8) == 8 {}

  const D24: seq<U32> := [0x745f5bfa, 0x7f9980b9, 0xb5c302f8, 0x574792cb, 0x8f04b761, 0x85bdee26]

  lemma Hash32Of24()
    ensures CityHash32.Hash32(FromWords32(D24)) == 0x45177e0b
  {
    hide Load32, CityHash32.Mix13To24;
    Two(D24, 0);
    Two(D24, 2);
    Two(D24, 4);
    Mix24();
  }

  lemma Mix24()
    ensures CityHash32.Mix13To24(24, 0xb5c302f8, 0x7f9980b9, 0x8f04b761, 0x574792cb, 0x745f5bfa, 0x85bdee26)
            == 0x45177e0b
  {
    Length32Of24();
    hide Len32;
  }

  lemma Length32Of24() ensures Len32(24) == 24 {}

  const D40: seq<U32> := [
      0xd6ae72ff, 0xa7d026b4, 0x1259ba24, 0xe24eb354, 0xf489e0c0,
      0x4ce5dbc5, 0xec590245, 0xb6846356, 0x0552b4e7, 0x49926941
  ]

  lemma Hash32Of40()
    ensures CityHash32.Hash32(FromWords32(D40)) == 0x72c39bea
  {
    hide Load32, CityHash32.StartWords, CityHash32.RoundWords, CityHash32.Finish;
    var p := FromWords32(D40);
    Two(D40, 0);
    Two(D40, 2);
    Two(D40, 4);
    Two(D40, 6);
    Two(D40, 8);
    CityHash32.BlockLoads(p, 0);
    CityHash32.BlockLoads(p, 20);
    assert p[20..] == p[20..40] && p[..20] == p[0..20];
    Start40();
    Round40();
    Finish40();
  }

  lemma Start40()
    ensures CityHash32.StartWords(40, 0x4ce5dbc5, 0xec590245, 0xb6846356, 0x0552b4e7, 0x49926941)
            == CityHash32.Lanes(0x4511ec4e, 0x0a89772c, 0xbb1ae619)
  {
    Length32Of40();
    hide Len32;
  }

  lemma Length32Of40() ensures Len32(40) == 40 {}

  lemma Round40()
    ensures CityHash32.RoundWords(CityHash32.Lanes(0x4511ec4e, 0x0a89772c, 0xbb1ae619),
              0xd6ae72ff, 0xa7d026b4, 0x1259ba24, 0xe24eb354, 0xf489e0c0)
            == CityHash32.Lanes(0x086acb6c, 0xa965d205, 0xa2bdabab)
  {
  }

  lemma Finish40()
    ensures CityHash32.Finish(CityHash32.Lanes(0x086acb6c, 0xa965d205, 0xa2bdabab)) == 0x72c39bea
  {
  }

  lemma Hash32Of2()
    ensures CityHash32.Hash32([0x3b, 0xe7]) == 0x4252edb7
  {
    Length32Of2();
    Accumulate2();
    hide Len32, CityHash32.Accumulate;
  }

  lemma Accumulate2()
    ensures CityHash32.Accumulate([0x3b, 0xe7]) == (0x28747192, 0x287471a0)
  {
    var one: seq<Byte>, two: seq<Byte> := [0x3b], [0x3b, 0xe7];
    assert two[..1] == one && one[..0] == [];
    assert CityHash32.Accumulate(one) == (0x0000003b, 0x00000032);
  }

  lemma Length32Of2() ensures Len32(2) == 2 {}

  // ---------- hash64 and its seeds ----------

  lemma Hash64OfNothing()
    ensures CityHash64.Hash64([]) == 0x9ae16a3b2f90404f
    ensures CityHash64.Hash64WithSeed([], 1234567) == 0x75106db890237a4a
    ensures CityHash64.Hash64WithSeeds([], 1234567, K0) == 0x3feac5f636039766
  {
  }

  lemma Hash64Of3()
    ensures CityHash64.Hash64([0xaa, 0xb0, 0xce]) == 0xef923a7a1af78eab
  {
    hide CityHash64.Mix1To3;
    Mix3();
  }

  lemma Mix3()
    ensures CityHash64.Mix1To3(3, 0xaa, 0xb0, 0xce) == 0xef923a7a1af78eab
  {
    Length32Of3();
    hide Len32;
  }

  lemma Length32Of3() ensures Len32(3) == 3 {}

  const D6: seq<Byte> := [0xee, 0xe8, 0x84, 0x54, 0x99, 0x9e]

  lemma Hash64Of6()
    ensures CityHash64.Hash64(D6) == 0x3eca803e70304894
  {
    hide CityHash64.Mix4To7;
    assert Load32(D6, 0) == 0x5484e8ee && Load32(D6, 2) == 0x9e995484;
    Mix6();
  }

  lemma Mix6()
    ensures CityHash64.Mix4To7(6, 0x5484e8ee, 0x9e995484) == 0x3eca803e70304894
  {
    Length64Of6();
    hide Len64;
  }

  lemma Length64Of6() ensures Len64(6) == 6 {}

  const E16: seq<U64> := [0x1f48b199068bfe08, 0x7aae377e8711d2cd]

  lemma Hash64Of16()
    ensures CityHash64.Hash64(FromWords(E16)) == 0x03ead5f21d344056
  {
    hide Load64, CityHash64.Mix8To16;
    WordsAt(E16);
    Mix8To16Value();
  }

  lemma Mix8To16Value()
    ensures CityHash64.Mix8To16(16,
              0x1f48b199068bfe08, 0x7aae377e8711d2cd)
            == 0x03ead5f21d344056
  {
    Length64Of16();
    hide Len64;
  }

  lemma Length64Of16() ensures Len64(16) == 16 {}

  const E32: seq<U64> := [0xf6f43980ccb77c68, 0xfdf276a953193735, 0xbc26c049e995a244, 0xcaf387e94ffc2b1b]

  lemma Hash64Of32()
    ensures CityHash64.Hash64(FromWords(E32)) == 0x0782fa1b08b475e7
  {
    hide Load64, CityHash64.Mix17To32;
    Four(E32, 0);
    Mix17To32Value();
  }

  lemma Mix17To32Value()
    ensures CityHash64.Mix17To32(32,
              0xf6f43980ccb77c68, 0xfdf276a953193735, 0xcaf387e94ffc2b1b, 0xbc26c049e995a244)
            == 0x0782fa1b08b475e7
  {
    Length64Of32();
    hide Len64;
  }

  lemma Length64Of32() ensures Len64(32) == 32 {}

  const E64: seq<U64> := [
      0x2a4e7d938f25043e, 0x0ffa951ca10c38b1, 0x9cef7e8050a6d016, 0x46e2db8046db32cd,
      0x5f3a485ff33fb7ae, 0xaf95f6d3448bf7dd, 0xa88f8a9a7e9f4b31, 0x33fa206459cd9cad
  ]

  lemma Hash64Of64()
    ensures CityHash64.Hash64(FromWords(E64)) == 0xe88419922b87176f
  {
    hide Load64, CityHash64.Mix33To64;
    Four(E64, 0);
    Four(E64, 4);
    Mix33To64Value();
  }

  lemma Mix33To64Value()
    ensures CityHash64.Mix33To64(64,
              0x2a4e7d938f25043e, 0x0ffa951ca10c38b1, 0xaf95f6d3448bf7dd, 0x5f3a485ff33fb7ae,
              0x9cef7e8050a6d016, 0x46e2db8046db32cd, 0x33fa206459cd9cad, 0xa88f8a9a7e9f4b31)
            == 0xe88419922b87176f
  {
    Length64Of64();
    hide Len64;
  }

  lemma Length64Of64() ensures Len64(64) == 64 {}

  const E72: seq<U64> := [
      0x5a0abfdae0b97b6d, 0xe0af5473b70cfbac, 0x7e696e05c531a8d8, 0x699ec3889b863953,
      0x4eb97218ad7f53e2, 0xf97cc464038d3bcb, 0xe377aa8b48b02536, 0x5dfcdaf86d481913,
      0xec51269ca00c7335
  ]

  const START72: CityHash64.Lanes := CityHash64.Lanes(
    0x935be3ccb867cdf3, 0xdc6648fe3279c1eb, 0xe83cc094ad6c1d3e,
    (0x1770f81ac5443201, 0x0439717ec5428ffb), (0xb83b6ff24aa4a1a7, 0x7d8a7380deb0e8de))

  const ROUND72: CityHash64.Lanes := CityHash64.Lanes(
    0x7a39ce297bb63c19, 0x4d7c87b522363047, 0x99cf85a8974a3f60,
    (0x42e57e7f48884d05, 0xede50a4d297e090a), (0x816efdaac16bf2ed, 0x24fb5183a9ac62df))

  lemma Hash64Of72()
    ensures CityHash64.Hash64(FromWords(E72)) == 0xb0c48df14275265a
  {
    hide Load64, CityHash64.StartWords, CityHash64.RoundWords, CityHash64.Finish, FromWords;
    var p := FromWords(E72);
    WordsAt(E72);
    CityHash64.BlockLoads(p, 0);
    CityHash64.BlockLoads(p, 8);
    assert p[8..] == p[8..72] && p[..64] == p[0..64];
    Loads72(p);
    Start72();
    Round72();
    Finish72();
  }

  lemma Loads72(p: seq<Byte>)
    requires |p| == 72 && forall i :: 0 <= i < 9 ==> Load64(p, 8 * i) == E72[i]
    ensures Load64(p, 0) == E72[0]
    ensures CityHash64.Load256(p, 0) == (E72[0], E72[1], E72[2], E72[3])
    ensures CityHash64.Load256(p, 32) == (E72[4], E72[5], E72[6], E72[7])
    ensures CityHash64.Load256(p, 8) == (E72[1], E72[2], E72[3], E72[4])
    ensures CityHash64.Load256(p, 40) == (E72[5], E72[6], E72[7], E72[8])
  {
    hide Load64;
  }

  lemma Start72()
    ensures CityHash64.StartWords(72, E72[0], (E72[1], E72[2], E72[3], E72[4]), (E72[5], E72[6], E72[7], E72[8]))
            == START72
  {
    Length64Of72();
    hide Len64;
  }

  lemma Length64Of72() ensures Len64(72) == 72 {}

  lemma Round72()
    ensures CityHash64.RoundWords(START72, (E72[0], E72[1], E72[2], E72[3]), (E72[4], E72[5], E72[6], E72[7]))
            == ROUND72
  {
  }

  lemma Finish72()
    ensures CityHash64.Finish(ROUND72) == 0xb0c48df14275265a
  {
  }

  // ---------- the low-level hash ----------

  const G64: seq<U64> := [
      0x446737c2958513d8, 0xf71ed24fbdd40e58, 0x4f0a8a9d535e6822, 0xf36fa31b09fee479,
      0x84bdf02c7988f4b7, 0x864460644d4291fe, 0xa6b5e32d66d9a2c9, 0x0ed51f57e2b0b3c7
  ]

  lemma LowLevelOf64()
    ensures Combine(On64, 0xe2ccb09ac0f5b4b6, FromWords(G64)) == 0x55acccdf9a80f155
  {
    hide Load64, MixWords32, Seeded, FromWords;
    Four(G64, 0);
    Four(G64, 4);
    Seeded64();
    First64();
    Last64();
  }

  /** The loads of the first block. */
  lemma BlockIs(p: seq<Byte>)
    requires |p| >= 64
    ensures forall l ::
              ( Round(l, p[0..64])
                == RoundWords(l, Load64(p, 0), Load64(p, 8), Load64(p, 16), Load64(p, 24),
                              Load64(p, 32), Load64(p, 40), Load64(p, 48), Load64(p, 56)))
  {
    hide Load64, RoundWords;
    LoadSlice64(p, 0, 64, 0);
    LoadSlice64(p, 0, 64, 8);
    LoadSlice64(p, 0, 64, 16);
    LoadSlice64(p, 0, 64, 24);
    LoadSlice64(p, 0, 64, 32);
    LoadSlice64(p, 0, 64, 40);
    LoadSlice64(p, 0, 64, 48);
    LoadSlice64(p, 0, 64, 56);
  }

  lemma Seeded64()
    ensures Seeded(0xe2ccb09ac0f5b4b6, 64) == 0xc6f3da124556bc25
  {
    Length64Of64();
    hide Len64;
  }

  lemma First64()
    ensures MixWords32(0x446737c2958513d8, 0xf71ed24fbdd40e58, 0x4f0a8a9d535e6822, 0xf36fa31b09fee479,
                       0xc6f3da124556bc25) == 0x156828921bc3eab7
  {
  }

  lemma Last64()
    ensures MixWords32(0x84bdf02c7988f4b7, 0x864460644d4291fe, 0xa6b5e32d66d9a2c9, 0x0ed51f57e2b0b3c7,
                       0x156828921bc3eab7) == 0x55acccdf9a80f155
  {
  }

  const G96: seq<U64> := [
      0x11dcfab1479b9ba2, 0x437bf7023ed63afb, 0x5db0907c46e53624, 0xa86365064f013b14,
      0xf4c2ccf9b1effe00, 0xb54cad9009329906, 0xd5bdacc160fb31e4, 0x23958723ed24bee7,
      0x577397517fd48586, 0x3775ac53c060a630, 0x0473541d9e9771dd, 0xa558871f35f29712
  ]

  lemma LowLevelOf96()
    ensures Combine(On64, 0xff1ae05c98089c3f, FromWords(G96)) == 0x8d8b0c05520569f6
  {
    hide Load64, MixWords32, Seeded, FromWords, RoundWords, Merge;
    var p := FromWords(G96);
    Four(G96, 0);
    Four(G96, 4);
    Four(G96, 8);
    BlockIs(p);
    assert p[..64] == p[0..64];
    Seeded96();
    Round96();
    Merge96();
    Last96();
  }

  lemma Seeded96()
    ensures Seeded(0xff1ae05c98089c3f, 96) == 0xdb258ad41dab948c
  {
    Length64Of96();
    hide Len64;
  }

  lemma Length64Of96() ensures Len64(96) == 96 {}

  lemma Round96()
    ensures RoundWords(LowLevel.Lanes(0xdb258ad41dab948c, 0xdb258ad41dab948c,
                                     0xdb258ad41dab948c, 0xdb258ad41dab948c),
              0x11dcfab1479b9ba2, 0x437bf7023ed63afb, 0x5db0907c46e53624, 0xa86365064f013b14,
              0xf4c2ccf9b1effe00, 0xb54cad9009329906, 0xd5bdacc160fb31e4, 0x23958723ed24bee7)
            == LowLevel.Lanes(0x2343c1972890338e, 0x168d6f53feea081d,
                              0x8b1dc1af96e134f2, 0xaec8b832c519361b)
  {
  }

  lemma Merge96()
    ensures Merge(LowLevel.Lanes(0x2343c1972890338e, 0x168d6f53feea081d,
                                 0x8b1dc1af96e134f2, 0xaec8b832c519361b))
            == 0x0c28d7268d80509e
  {
  }

  lemma Last96()
    ensures MixWords32(0x577397517fd48586, 0x3775ac53c060a630, 0x0473541d9e9771dd, 0xa558871f35f29712,
                       0x0c28d7268d80509e) == 0x8d8b0c05520569f6
  {
  }

  const G128: seq<U64> := [
      0xc994c4c3a5e5727f, 0xc9579cab43dba42c, 0xfba968c4ead93a65, 0x1e81349ea3a56245,
      0x5733572b69c366a6, 0x1070f1aaa69a0efb, 0xf7eba3b2f0fa492c, 0x6bc21cc5a49b9005,
      0xd80508dcaed58583, 0xbcd1ee90c17e9f16, 0x74e1986eeaadcb38, 0x1c59da99ee187c29,
      0x4d13cf363bca2e5f, 0xb8bbdf80fe0e926e, 0x298c840018a268aa, 0xddb5717e9917a400
  ]

  lemma LowLevelOf128()
    ensures Combine(On64, 0xc9ae5c8759b4877a, FromWords(G128)) == 0x3114c056f9c5a676
  {
    hide Load64, MixWords32, Seeded, FromWords, RoundWords, Merge;
    var p := FromWords(G128);
    Four(G128, 0);
    Four(G128, 4);
    Four(G128, 8);
    Four(G128, 12);
    BlockIs(p);
    assert p[..64] == p[0..64];
    Seeded128();
    Round128();
    Merge128();
    Rest128();
    Last128();
  }

  lemma Seeded128()
    ensures Seeded(0xc9ae5c8759b4877a, 128) == 0xed91360fdc178f29
  {
    Length64Of128();
    hide Len64;
  }

  lemma Length64Of128() ensures Len64(128) == 128 {}

  lemma Round128()
    ensures RoundWords(LowLevel.Lanes(0xed91360fdc178f29, 0xed91360fdc178f29,
                                     0xed91360fdc178f29, 0xed91360fdc178f29),
              0xc994c4c3a5e5727f, 0xc9579cab43dba42c, 0xfba968c4ead93a65, 0x1e81349ea3a56245,
              0x5733572b69c366a6, 0x1070f1aaa69a0efb, 0xf7eba3b2f0fa492c, 0x6bc21cc5a49b9005)
            == LowLevel.Lanes(0x75a6cdf930b9d284, 0x742471ef9ad7315f,
                              0x0fd2e58e02c3f466, 0x619f5f5c81ebc22f)
  {
  }

  lemma Merge128()
    ensures Merge(LowLevel.Lanes(0x75a6cdf930b9d284, 0x742471ef9ad7315f,
                                 0x0fd2e58e02c3f466, 0x619f5f5c81ebc22f))
            == 0x70f0f8fc2ec1554e
  {
  }

  lemma Rest128()
    ensures MixWords32(0xd80508dcaed58583, 0xbcd1ee90c17e9f16, 0x74e1986eeaadcb38, 0x1c59da99ee187c29,
                       0x70f0f8fc2ec1554e) == 0x8a22ad1ce93b39b3
  {
  }

  lemma Last128()
    ensures MixWords32(0x4d13cf363bca2e5f, 0xb8bbdf80fe0e926e, 0x298c840018a268aa, 0xddb5717e9917a400,
                       0x8a22ad1ce93b39b3) == 0x3114c056f9c5a676
  {
  }

  // ---------- short inputs, worked out from the source's constants ----------

  lemma CombineOf3()
    ensures Combine(On64, 0, [1, 2, 3]) == Combine(On32, 0, [1, 2, 3]) == 0xf7a23d8646b600e0
  {
    hide Precombine, CombineRaw;
    var p: seq<Byte> := [1, 2, 3];
    assert SmallWord(p) == 0x10203;
    Precombine3();
    Raw3();
  }

  lemma Precombine3()
    ensures Precombine(0, 3) == 0x707344243f6a8885
  {
    hide Load64;
    RandomBytesAre();
    Load3();
  }

  lemma Load3()
    ensures Load64(RandomTable(), 3) == 0x707344243f6a8885
  {
  }

  lemma Raw3() ensures CombineRaw(0x707344243f6a8885, 0x10203) == 0xf7a23d8646b600e0 {}

  lemma CombineOf8()
    ensures Combine(On64, 0, Bytes64(0x9ae16a3b2f90404f)) == Combine(On32, 0, Bytes64(0x9ae16a3b2f90404f))
            == 0x7f5a02c4c70bcf0c
  {
    hide Precombine, CombineRaw, Load32, Bytes32;
    var low, high: U32 := 0x2f90404f, 0x9ae16a3b;
    Halves8();
    LoadHalves(low, high);
    assert Pair(high, low) == 0x2f90404f9ae16a3b;
    Precombine8();
    Raw8();
  }

  lemma Halves8()
    ensures Bytes64(0x9ae16a3b2f90404f) == Bytes32(0x2f90404f) + Bytes32(0x9ae16a3b)
  {
    hide Bytes32;
  }

  lemma LoadHalves(low: U32, high: U32)
    ensures Load32(Bytes32(low) + Bytes32(high), 0) == low && Load32(Bytes32(low) + Bytes32(high), 4) == high
  {
    hide Load32, Bytes32;
    var p := Bytes32(low) + Bytes32(high);
    LoadTail32(Bytes32(low), Bytes32(high));
    StoreLoad32(low);
    StoreLoad32(high);
    assert p[0..4] == Bytes32(low) == Bytes32(low)[0..4];
    Load32Injective(p, Bytes32(low), 0);
  }

  lemma Precombine8()
    ensures Precombine(0, 8) == 0x13198a2e03707344
  {
    hide Load64;
    RandomWord(1);
  }

  lemma Raw8() ensures CombineRaw(0x13198a2e03707344, 0x2f90404f9ae16a3b) == 0x7f5a02c4c70bcf0c {}

  const G16: seq<U64> := [0x9ae16a3b2f90404f, 0x2718281828459045]

  lemma CombineOf16()
    ensures Combine(On64, 0, FromWords(G16)) == 0xab3cec55ce739f9c
  {
    hide Precombine, Load64, Mix, Xor64, FromWords;
    WordAt(G16, 0);
    WordAt(G16, 1);
    Precombine16();
    Mixed16();
  }

  lemma Precombine16()
    ensures Precombine(0, 16) == 0xa4093822299f31d0
  {
    hide Load64;
    RandomWord(2);
  }

  lemma Mixed16()
    ensures Mix(Xor64(0xa4093822299f31d0, G16[0]), Xor64(LowLevel.MUL, G16[1])) == 0xab3cec55ce739f9c
  {
  }

  const G32: seq<U64> := [0x9ae16a3b2f90404f, 0x2718281828459045, 0x3141592653589793, 0xb492b66fbe98f273]

  lemma CombineOf32()
    ensures Combine(On64, 0, FromWords(G32)) == 0x98c4ad987b074a8d
  {
    hide Precombine, Load64, MixTwice, FromWords;
    Four(G32, 0);
    Precombine32();
    Mixed32();
  }

  lemma Precombine32()
    ensures Precombine(0, 32) == 0x452821e638d01377
  {
    hide Load64;
    RandomWord(4);
  }

  lemma Mixed32()
    ensures MixTwice(G32[0], G32[1], G32[2], G32[3], 0x452821e638d01377) == 0x98c4ad987b074a8d
  {
  }

  /** On 32 bits already 24 bytes are a block. */
  lemma CombineOf24On32()
    ensures Combine(On32, 1, FromWords32(D24)) == 0xf11a6fdf7a68a5a8
  {
    hide CityHash32.Hash32, CombineRaw;
    Hash32Of24();
    Length64Of24();
    hide Len64;
    Raw24();
  }

  lemma Raw24() ensures CombineRaw(Add64(1, 24), Widen(0x45177e0b)) == 0xf11a6fdf7a68a5a8 {}

  lemma Length64Of24() ensures Len64(24) == 24 {}
}
