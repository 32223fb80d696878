/** Certificates for the primes of the hash table, down to primes small enough for the solver to try every divisor. */
module PrimeCertificates {
  import opened Primes
  import opened PrimeTable

  lemma ProductOf1(a: nat)
    ensures Product([a]) == a
  {
  }

  lemma ProductOf2(a: nat, b: nat)
    ensures Product([a, b]) == a * b
  {
    ProductOf1(b);
    assert [a, b][1..] == [b];
  }

  lemma ProductOf3(a: nat, b: nat, c: nat)
    ensures Product([a, b, c]) == a * b * c
  {
    ProductOf2(b, c);
    assert [a, b, c][1..] == [b, c];
    assert a * (b * c) == a * b * c;
  }

  lemma ProductOf4(a: nat, b: nat, c: nat, d: nat)
    ensures Product([a, b, c, d]) == a * b * c * d
  {
    ProductOf3(b, c, d);
    assert [a, b, c, d][1..] == [b, c, d];
    assert a * (b * c * d) == a * b * c * d;
  }

  lemma Prime2()
    ensures IsPrime(2)
  {
  }

  lemma Prime3()
    ensures IsPrime(3)
  {
  }

  lemma Prime5()
    ensures IsPrime(5)
  {
  }

  lemma Prime7()
    ensures IsPrime(7)
  {
  }

  lemma Prime13()
    ensures IsPrime(13)
  {
  }

  lemma Prime19()
    ensures IsPrime(19)
  {
  }

  lemma Prime23()
    ensures IsPrime(23)
  {
  }

  lemma Prime29()
    ensures IsPrime(29)
  {
  }

  lemma Prime31()
    ensures IsPrime(31)
  {
  }

  lemma Prime41()
    ensures IsPrime(41)
  {
  }

  lemma Prime47()
    ensures IsPrime(47)
  {
  }

  lemma Prime61()
    ensures IsPrime(61)
  {
  }

  lemma Prime73()
    ensures IsPrime(73)
  {
    RootPrime(73, 8);
  }

  lemma Prime127()
    ensures IsPrime(127)
  {
    RootPrime(127, 11);
  }

  lemma Prime151()
    ensures IsPrime(151)
  {
    RootPrime(151, 12);
  }

  lemma Prime181()
    ensures IsPrime(181)
  {
    RootPrime(181, 13);
  }

  lemma Prime251()
    ensures IsPrime(251)
  {
    RootPrime(251, 15);
  }

  lemma Prime257()
    ensures IsPrime(257)
  {
    RootPrime(257, 16);
  }

  lemma Prime331()
    ensures IsPrime(331)
  {
    RootPrime(331, 18);
  }

  lemma Prime467()
    ensures IsPrime(467)
  {
    RootPrime(467, 21);
  }

  lemma Prime509()
    ensures IsPrime(509)
  {
    RootPrime(509, 22);
  }

  lemma Prime683()
    ensures IsPrime(683)
  {
    RootPrime(683, 26);
  }

  lemma Prime1021()
    ensures IsPrime(1021)
  {
    RootPrime(1021, 31);
  }

  lemma Prime2039()
    ensures IsPrime(2039)
  {
    RootPrime(2039, 45);
  }

  lemma Prime2371()
    ensures IsPrime(2371)
  {
    RootPrime(2371, 48);
  }

  lemma Prime2473()
    ensures IsPrime(2473)
  {
    RootPrime(2473, 49);
  }

  lemma Prime2729()
    ensures IsPrime(2729)
  {
    RootPrime(2729, 52);
  }

  lemma Power4093At4092()
    ensures PowMod(2, 4092, 4093) == 1
  {
    hide PowMod;
    PowZero(2, 4093);
    Digit(2, 4093, 0, 1, 1, 1, 1, 7, 128, 128);
    Digit(2, 4093, 7, 128, 12, 144, 271, 7, 128, 1944);
    Digit(2, 4093, 63, 1944, 1297, 4079, 196, 7, 128, 530);
    Digit(2, 4093, 511, 530, 2576, 1023, 2814, 4, 16, 1);
  }

  lemma Power4093At1364()
    ensures PowMod(2, 1364, 4093) == 902
  {
    hide PowMod;
    PowZero(2, 4093);
    Digit(2, 4093, 0, 1, 1, 1, 1, 2, 4, 4);
    Digit(2, 4093, 2, 4, 16, 256, 48, 5, 32, 1536);
    Digit(2, 4093, 21, 1536, 1728, 2187, 2345, 2, 4, 1194);
    Digit(2, 4093, 170, 1194, 1272, 1249, 568, 4, 16, 902);
  }

  lemma Power4093At132()
    ensures PowMod(2, 132, 4093) == 1148
  {
    hide PowMod;
    PowZero(2, 4093);
    Digit(2, 4093, 0, 1, 1, 1, 1, 2, 4, 4);
    Digit(2, 4093, 2, 4, 16, 256, 48, 0, 1, 48);
    Digit(2, 4093, 16, 48, 2304, 3888, 1095, 4, 16, 1148);
  }

  /** 4093 - 1 is divisible by 3 * 31. */
  lemma Prime4093()
    ensures IsPrime(4093)
  {
    hide PowMod, IsPrime, Product;
    Power4093At4092();
    Power4093At1364();
    Power4093At132();
    Prime3();
    Prime31();
    ProductOf2(3, 31);
    Pocklington(2, 4093, [3, 31], [1063, 1877]);
  }

  lemma Power6917At6916()
    ensures PowMod(2, 6916, 6917) == 1
  {
    hide PowMod;
    PowZero(2, 6917);
    Digit(2, 6917, 0, 1, 1, 1, 1, 1, 2, 2);
    Digit(2, 6917, 1, 2, 4, 16, 256, 5, 32, 1275);
    Digit(2, 6917, 13, 1275, 130, 3066, 153, 4, 16, 2448);
    Digit(2, 6917, 108, 2448, 2582, 5653, 6786, 0, 1, 6786);
    Digit(2, 6917, 864, 6786, 3327, 1729, 1297, 4, 16, 1);
  }

  lemma Power6917At988()
    ensures PowMod(2, 988, 6917) == 4032
  {
    hide PowMod;
    PowZero(2, 6917);
    Digit(2, 6917, 0, 1, 1, 1, 1, 1, 2, 2);
    Digit(2, 6917, 1, 2, 4, 16, 256, 7, 128, 5100);
    Digit(2, 6917, 15, 5100, 2080, 3275, 4275, 3, 8, 6532);
    Digit(2, 6917, 123, 6532, 2968, 3683, 252, 4, 16, 4032);
  }

  lemma Power6917At532()
    ensures PowMod(2, 532, 6917) == 1747
  {
    hide PowMod;
    PowZero(2, 6917);
    Digit(2, 6917, 0, 1, 1, 1, 1, 1, 2, 2);
    Digit(2, 6917, 1, 2, 4, 16, 256, 0, 1, 256);
    Digit(2, 6917, 8, 256, 3283, 1403, 3981, 2, 4, 2090);
    Digit(2, 6917, 66, 2090, 3473, 5398, 4000, 4, 16, 1747);
  }

  /** 6917 - 1 is divisible by 7 * 13. */
  lemma Prime6917()
    ensures IsPrime(6917)
  {
    hide PowMod, IsPrime, Product;
    Power6917At6916();
    Power6917At988();
    Power6917At532();
    Prime7();
    Prime13();
    ProductOf2(7, 13);
    Pocklington(2, 6917, [7, 13], [3679, 5162]);
  }

  lemma Power8191At8190()
    ensures PowMod(3, 8190, 8191) == 1
  {
    hide PowMod;
    PowZero(3, 8191);
    Digit(3, 8191, 0, 1, 1, 1, 1, 1, 3, 3);
    Digit(3, 8191, 1, 3, 9, 81, 6561, 7, 2187, 6466);
    Digit(3, 8191, 15, 6466, 2292, 2833, 6900, 7, 2187, 2478);
    Digit(3, 8191, 127, 2478, 5425, 362, 8179, 7, 2187, 6520);
    Digit(3, 8191, 1023, 6520, 7301, 5764, 1000, 6, 729, 1);
  }

  lemma Power8191At1170()
    ensures PowMod(3, 1170, 8191) == 6763
  {
    hide PowMod;
    PowZero(3, 8191);
    Digit(3, 8191, 0, 1, 1, 1, 1, 2, 9, 9);
    Digit(3, 8191, 2, 9, 81, 6561, 3016, 2, 9, 2571);
    Digit(3, 8191, 18, 2571, 8095, 1025, 2177, 2, 9, 3211);
    Digit(3, 8191, 146, 3211, 6243, 2271, 5302, 2, 9, 6763);
  }

  lemma Power8191At630()
    ensures PowMod(3, 630, 8191) == 4096
  {
    hide PowMod;
    PowZero(3, 8191);
    Digit(3, 8191, 0, 1, 1, 1, 1, 1, 3, 3);
    Digit(3, 8191, 1, 3, 9, 81, 6561, 1, 3, 3301);
    Digit(3, 8191, 9, 3301, 2571, 8095, 1025, 6, 729, 1844);
    Digit(3, 8191, 78, 1844, 1071, 301, 500, 6, 729, 4096);
  }

  /** 8191 - 1 is divisible by 7 * 13. */
  lemma Prime8191()
    ensures IsPrime(8191)
  {
    hide PowMod, IsPrime, Product;
    Power8191At8190();
    Power8191At1170();
    Power8191At630();
    Prime7();
    Prime13();
    ProductOf2(7, 13);
    Pocklington(3, 8191, [7, 13], [5646, 8189]);
  }

  lemma Power15101At15100()
    ensures PowMod(2, 15100, 15101) == 1
  {
    hide PowMod;
    PowZero(2, 15101);
    Digit(2, 15101, 0, 1, 1, 1, 1, 3, 8, 8);
    Digit(2, 15101, 3, 8, 64, 4096, 5, 5, 32, 160);
    Digit(2, 15101, 29, 160, 10499, 6802, 12841, 3, 8, 12122);
    Digit(2, 15101, 235, 12122, 10154, 9189, 8030, 7, 128, 972);
    Digit(2, 15101, 1887, 972, 8522, 3775, 10382, 4, 16, 1);
  }

  lemma Power15101At100()
    ensures PowMod(2, 100, 15101) == 10000
  {
    hide PowMod;
    PowZero(2, 15101);
    Digit(2, 15101, 0, 1, 1, 1, 1, 1, 2, 2);
    Digit(2, 15101, 1, 2, 4, 16, 256, 4, 16, 4096);
    Digit(2, 15101, 12, 4096, 5, 25, 625, 4, 16, 10000);
  }

  /** 15101 - 1 is divisible by 151. */
  lemma Prime15101()
    ensures IsPrime(15101)
  {
    hide PowMod, IsPrime, Product;
    Power15101At15100();
    Power15101At100();
    Prime151();
    ProductOf1(151);
    Pocklington(2, 15101, [151], [7219]);
  }

  lemma Power16381At16380()
    ensures PowMod(2, 16380, 16381) == 1
  {
    hide PowMod;
    PowZero(2, 16381);
    Digit(2, 16381, 0, 1, 1, 1, 1, 3, 8, 8);
    Digit(2, 16381, 3, 8, 64, 4096, 3072, 7, 128, 72);
    Digit(2, 16381, 31, 72, 5184, 9016, 5734, 7, 128, 13188);
    Digit(2, 16381, 255, 13188, 6267, 10032, 12541, 7, 128, 16291);
    Digit(2, 16381, 2047, 16291, 8100, 4095, 11262, 4, 16, 1);
  }

  lemma Power16381At8190()
    ensures PowMod(2, 8190, 16381) == 16380
  {
    hide PowMod;
    PowZero(2, 16381);
    Digit(2, 16381, 0, 1, 1, 1, 1, 1, 2, 2);
    Digit(2, 16381, 1, 2, 4, 16, 256, 7, 128, 6);
    Digit(2, 16381, 15, 6, 36, 1296, 8754, 7, 128, 6604);
    Digit(2, 16381, 127, 6604, 6594, 5662, 627, 7, 128, 14732);
    Digit(2, 16381, 1023, 14732, 16336, 2025, 5375, 6, 64, 16380);
  }

  lemma Power16381At3276()
    ensures PowMod(2, 3276, 16381) == 6303
  {
    hide PowMod;
    PowZero(2, 16381);
    Digit(2, 16381, 0, 1, 1, 1, 1, 6, 64, 64);
    Digit(2, 16381, 6, 64, 4096, 3072, 1728, 3, 8, 13824);
    Digit(2, 16381, 51, 13824, 2230, 9457, 10970, 1, 2, 5559);
    Digit(2, 16381, 409, 5559, 7915, 6281, 5513, 4, 16, 6303);
  }

  lemma Power16381At1260()
    ensures PowMod(2, 1260, 16381) == 1510
  {
    hide PowMod;
    PowZero(2, 16381);
    Digit(2, 16381, 0, 1, 1, 1, 1, 2, 4, 4);
    Digit(2, 16381, 2, 4, 16, 256, 12, 3, 8, 96);
    Digit(2, 16381, 19, 96, 9216, 15552, 15620, 5, 32, 8410);
    Digit(2, 16381, 157, 8410, 11323, 12623, 2142, 4, 16, 1510);
  }

  /** 16381 - 1 is divisible by 2 * 5 * 13. */
  lemma Prime16381()
    ensures IsPrime(16381)
  {
    hide PowMod, IsPrime, Product, Witness;
    Power16381At16380();
    Power16381At8190();
    Prime2();
    WitnessOf(2, 16381, 2, 8190, 16380, 8190);
    Power16381At3276();
    Prime5();
    WitnessOf(2, 16381, 5, 3276, 6303, 6241);
    Power16381At1260();
    Prime13();
    WitnessOf(2, 16381, 13, 1260, 1510, 5786);
    ProductOf3(2, 5, 13);
    Pocklington(2, 16381, [2, 5, 13], [8190, 6241, 5786]);
  }

  lemma Power32749At32748()
    ensures PowMod(2, 32748, 32749) == 1
  {
    hide PowMod;
    PowZero(2, 32749);
    Digit(2, 32749, 0, 1, 1, 1, 1, 7, 128, 128);
    Digit(2, 32749, 7, 128, 16384, 24652, 30660, 7, 128, 27349);
    Digit(2, 32749, 63, 27349, 13390, 24074, 31172, 7, 128, 27387);
    Digit(2, 32749, 511, 27387, 30171, 30786, 21736, 5, 32, 7823);
    Digit(2, 32749, 4093, 7823, 24197, 8187, 22515, 4, 16, 1);
  }

  lemma Power32749At12()
    ensures PowMod(2, 12, 32749) == 4096
  {
    hide PowMod;
    PowZero(2, 32749);
    Digit(2, 32749, 0, 1, 1, 1, 1, 1, 2, 2);
    Digit(2, 32749, 1, 2, 4, 16, 256, 4, 16, 4096);
  }

  /** 32749 - 1 is divisible by 2729. */
  lemma Prime32749()
    ensures IsPrime(32749)
  {
    hide PowMod, IsPrime, Product;
    Power32749At32748();
    Power32749At12();
    Prime2729();
    ProductOf1(2729);
    Pocklington(2, 32749, [2729], [20841]);
  }

  lemma Power65521At65520()
    ensures PowMod(5, 65520, 65521) == 1
  {
    hide PowMod;
    PowZero(5, 65521);
    Digit(5, 65521, 0, 1, 1, 1, 1, 1, 5, 5);
    Digit(5, 65521, 1, 5, 25, 625, 63020, 7, 78125, 58518);
    Digit(5, 65521, 15, 58518, 32301, 63718, 40280, 7, 78125, 32412);
    Digit(5, 65521, 127, 32412, 39551, 33247, 23739, 7, 78125, 37470);
    Digit(5, 65521, 1023, 37470, 16912, 16579, 2646, 6, 15625, 65520);
    Digit(5, 65521, 8190, 65520, 1, 1, 1, 0, 1, 1);
  }

  lemma Power65521At21840()
    ensures PowMod(5, 21840, 65521) == 16673
  {
    hide PowMod;
    PowZero(5, 65521);
    Digit(5, 65521, 0, 1, 1, 1, 1, 5, 3125, 3125);
    Digit(5, 65521, 5, 3125, 2996, 65160, 64800, 2, 25, 47496);
    Digit(5, 65521, 42, 47496, 47507, 44204, 26354, 5, 3125, 61874);
    Digit(5, 65521, 341, 61874, 65367, 23716, 16392, 2, 25, 16674);
    Digit(5, 65521, 2730, 16674, 16673, 48847, 16673, 0, 1, 16673);
  }

  lemma Power65521At9360()
    ensures PowMod(5, 9360, 65521) == 60413
  {
    hide PowMod;
    PowZero(5, 65521);
    Digit(5, 65521, 0, 1, 1, 1, 1, 2, 25, 25);
    Digit(5, 65521, 2, 25, 625, 63020, 30506, 2, 25, 41919);
    Digit(5, 65521, 18, 41919, 60383, 59602, 46347, 2, 25, 44818);
    Digit(5, 65521, 146, 44818, 41348, 17651, 5446, 2, 25, 5108);
    Digit(5, 65521, 1170, 5108, 14306, 39553, 60413, 0, 1, 60413);
  }

  lemma Power65521At5040()
    ensures PowMod(5, 5040, 65521) == 62293
  {
    hide PowMod;
    PowZero(5, 65521);
    Digit(5, 65521, 0, 1, 1, 1, 1, 1, 5, 5);
    Digit(5, 65521, 1, 5, 25, 625, 63020, 1, 5, 53016);
    Digit(5, 65521, 9, 53016, 41919, 60383, 59602, 6, 15625, 31277);
    Digit(5, 65521, 78, 31277, 22199, 12160, 50224, 6, 15625, 4983);
    Digit(5, 65521, 630, 4983, 63351, 56909, 62293, 0, 1, 62293);
  }

  /** 65521 - 1 is divisible by 3 * 7 * 13. */
  lemma Prime65521()
    ensures IsPrime(65521)
  {
    hide PowMod, IsPrime, Product, Witness;
    Power65521At65520();
    Power65521At21840();
    Prime3();
    WitnessOf(5, 65521, 3, 21840, 16673, 16282);
    Power65521At9360();
    Prime7();
    WitnessOf(5, 65521, 7, 9360, 60413, 25521);
    Power65521At5040();
    Prime13();
    WitnessOf(5, 65521, 13, 5040, 62293, 48253);
    ProductOf3(3, 7, 13);
    Pocklington(5, 65521, [3, 7, 13], [16282, 25521, 48253]);
  }

  lemma Power70051At70050()
    ensures PowMod(2, 70050, 70051) == 1
  {
    hide PowMod;
    PowZero(2, 70051);
    Digit(2, 70051, 0, 1, 1, 1, 1, 2, 4, 4);
    Digit(2, 70051, 2, 4, 16, 256, 65536, 1, 2, 61021);
    Digit(2, 70051, 17, 61021, 1536, 47613, 7307, 0, 1, 7307);
    Digit(2, 70051, 136, 7307, 13387, 21311, 18088, 6, 64, 36816);
    Digit(2, 70051, 1094, 36816, 1057, 66484, 44258, 4, 16, 7618);
    Digit(2, 70051, 8756, 7618, 31696, 35025, 17513, 2, 4, 1);
  }

  lemma Power70051At150()
    ensures PowMod(2, 150, 70051) == 729
  {
    hide PowMod;
    PowZero(2, 70051);
    Digit(2, 70051, 0, 1, 1, 1, 1, 2, 4, 4);
    Digit(2, 70051, 2, 4, 16, 256, 65536, 2, 4, 51991);
    Digit(2, 70051, 18, 51991, 6144, 61298, 49266, 6, 64, 729);
  }

  /** 70051 - 1 is divisible by 467. */
  lemma Prime70051()
    ensures IsPrime(70051)
  {
    hide PowMod, IsPrime, Product;
    Power70051At70050();
    Power70051At150();
    Prime467();
    ProductOf1(467);
    Pocklington(2, 70051, [467], [63604]);
  }

  lemma Power131071At131070()
    ensures PowMod(3, 131070, 131071) == 1
  {
    hide PowMod;
    PowZero(3, 131071);
    Digit(3, 131071, 0, 1, 1, 1, 1, 3, 27, 27);
    Digit(3, 131071, 3, 27, 729, 7157, 104959, 7, 2187, 40012);
    Digit(3, 131071, 31, 40012, 58950, 17077, 122025, 7, 2187, 8119);
    Digit(3, 131071, 255, 8119, 120519, 65425, 44978, 7, 2187, 63636);
    Digit(3, 131071, 2047, 63636, 101951, 76101, 121137, 7, 2187, 32128);
    Digit(3, 131071, 16383, 32128, 24259, 121362, 24632, 6, 729, 1);
  }

  lemma Power131071At65535()
    ensures PowMod(3, 65535, 131071) == 131070
  {
    hide PowMod;
    PowZero(3, 131071);
    Digit(3, 131071, 0, 1, 1, 1, 1, 1, 3, 3);
    Digit(3, 131071, 1, 3, 9, 81, 6561, 7, 2187, 62168);
    Digit(3, 131071, 15, 62168, 100718, 6550, 42283, 7, 2187, 67866);
    Digit(3, 131071, 127, 67866, 90087, 13391, 13753, 7, 2187, 62552);
    Digit(3, 131071, 1023, 62552, 21212, 113272, 5794, 7, 2187, 88662);
    Digit(3, 131071, 8191, 88662, 98090, 119203, 79170, 7, 2187, 131070);
  }

  lemma Power131071At510()
    ensures PowMod(3, 510, 131071) == 120519
  {
    hide PowMod;
    PowZero(3, 131071);
    Digit(3, 131071, 0, 1, 1, 1, 1, 7, 2187, 2187);
    Digit(3, 131071, 7, 2187, 64413, 113135, 51862, 7, 2187, 45779);
    Digit(3, 131071, 63, 45779, 22622, 53700, 128000, 6, 729, 120519);
  }

  /** 131071 - 1 is divisible by 2 * 257. */
  lemma Prime131071()
    ensures IsPrime(131071)
  {
    hide PowMod, IsPrime, Product;
    Power131071At131070();
    Power131071At65535();
    Power131071At510();
    Prime2();
    Prime257();
    ProductOf2(2, 257);
    Pocklington(3, 131071, [2, 257], [65535, 53581]);
  }

  lemma Power262139At262138()
    ensures PowMod(2, 262138, 262139) == 1
  {
    hide PowMod;
    PowZero(2, 262139);
    Digit(2, 262139, 0, 1, 1, 1, 1, 7, 128, 128);
    Digit(2, 262139, 7, 128, 16384, 5120, 500, 7, 128, 64000);
    Digit(2, 262139, 63, 64000, 78125, 133288, 6636, 7, 128, 62991);
    Digit(2, 262139, 511, 62991, 130177, 75674, 127821, 7, 128, 108470);
    Digit(2, 262139, 4095, 108470, 156163, 91399, 193688, 7, 128, 150998);
    Digit(2, 262139, 32767, 150998, 70062, 131069, 65535, 2, 4, 1);
  }

  lemma Power262139At106()
    ensures PowMod(2, 106, 262139) == 69441
  {
    hide PowMod;
    PowZero(2, 262139);
    Digit(2, 262139, 0, 1, 1, 1, 1, 1, 2, 2);
    Digit(2, 262139, 1, 2, 4, 16, 256, 5, 32, 8192);
    Digit(2, 262139, 13, 8192, 1280, 65566, 82895, 2, 4, 69441);
  }

  /** 262139 - 1 is divisible by 2473. */
  lemma Prime262139()
    ensures IsPrime(262139)
  {
    hide PowMod, IsPrime, Product;
    Power262139At262138();
    Power262139At106();
    Prime2473();
    ProductOf1(2473);
    Pocklington(2, 262139, [2473], [63349]);
  }

  lemma Power262657At262656()
    ensures PowMod(5, 262656, 262657) == 1
  {
    hide PowMod;
    PowZero(5, 262657);
    Digit(5, 262657, 0, 1, 1, 1, 1, 1, 5, 5);
    Digit(5, 262657, 1, 5, 25, 625, 127968, 0, 1, 127968);
    Digit(5, 262657, 8, 127968, 195702, 205006, 238780, 0, 1, 238780);
    Digit(5, 262657, 64, 238780, 145439, 209197, 783, 1, 5, 3915);
    Digit(5, 262657, 513, 3915, 93119, 52620, 196963, 0, 1, 196963);
    Digit(5, 262657, 4104, 196963, 247126, 92835, 35741, 0, 1, 35741);
    Digit(5, 262657, 32832, 35741, 118090, 262656, 1, 0, 1, 1);
  }

  lemma Power262657At87552()
    ensures PowMod(5, 87552, 262657) == 262144
  {
    hide PowMod;
    PowZero(5, 262657);
    Digit(5, 262657, 0, 1, 1, 1, 1, 2, 25, 25);
    Digit(5, 262657, 2, 25, 625, 127968, 195702, 5, 3125, 103254);
    Digit(5, 262657, 21, 103254, 140886, 138163, 154437, 3, 125, 130664);
    Digit(5, 262657, 171, 130664, 113239, 156381, 74519, 0, 1, 74519);
    Digit(5, 262657, 1368, 74519, 249724, 212637, 192475, 0, 1, 192475);
    Digit(5, 262657, 10944, 192475, 169060, 262145, 262144, 0, 1, 262144);
  }

  lemma Power262657At13824()
    ensures PowMod(5, 13824, 262657) == 241048
  {
    hide PowMod;
    PowZero(5, 262657);
    Digit(5, 262657, 0, 1, 1, 1, 1, 3, 125, 125);
    Digit(5, 262657, 3, 125, 15625, 132272, 36557, 3, 125, 104456);
    Digit(5, 262657, 27, 104456, 21499, 193338, 76603, 0, 1, 76603);
    Digit(5, 262657, 216, 76603, 262229, 183184, 107507, 0, 1, 107507);
    Digit(5, 262657, 1728, 107507, 59078, 23868, 241048, 0, 1, 241048);
  }

  /** 262657 - 1 is divisible by 3 * 3 * 3 * 19. */
  lemma Prime262657()
    ensures IsPrime(262657)
  {
    hide PowMod, IsPrime, Product, Witness;
    Power262657At262656();
    Power262657At87552();
    Prime3();
    WitnessOf(5, 262657, 3, 87552, 262144, 175275);
    Power262657At13824();
    Prime19();
    WitnessOf(5, 262657, 19, 13824, 241048, 35892);
    ProductOf4(3, 3, 3, 19);
    Pocklington(5, 262657, [3, 3, 3, 19], [175275, 175275, 175275, 35892]);
  }

  lemma Power524287At524286()
    ensures PowMod(3, 524286, 524287) == 1
  {
    hide PowMod;
    PowZero(3, 524287);
    Digit(3, 524287, 0, 1, 1, 1, 1, 1, 3, 3);
    Digit(3, 524287, 1, 3, 9, 81, 6561, 7, 2187, 193158);
    Digit(3, 524287, 15, 193158, 177183, 34216, 1785, 7, 2187, 233786);
    Digit(3, 524287, 127, 233786, 22620, 484575, 511935, 7, 2187, 249100);
    Digit(3, 524287, 1023, 249100, 394976, 249430, 283758, 7, 2187, 347225);
    Digit(3, 524287, 8191, 347225, 162105, 242298, 235405, 7, 2187, 505188);
    Digit(3, 524287, 65535, 505188, 392336, 19418, 96371, 6, 729, 1);
  }

  lemma Power524287At27594()
    ensures PowMod(3, 27594, 524287) == 256
  {
    hide PowMod;
    PowZero(3, 524287);
    Digit(3, 524287, 0, 1, 1, 1, 1, 6, 729, 729);
    Digit(3, 524287, 6, 729, 7154, 323877, 113891, 5, 243, 412589);
    Digit(3, 524287, 53, 412589, 509752, 502851, 226684, 7, 2187, 306693);
    Digit(3, 524287, 431, 306693, 362727, 5305, 355814, 1, 3, 18868);
    Digit(3, 524287, 3449, 18868, 10551, 174757, 291299, 2, 9, 256);
  }

  lemma Power524287At7182()
    ensures PowMod(3, 7182, 524287) == 117005
  {
    hide PowMod;
    PowZero(3, 524287);
    Digit(3, 524287, 0, 1, 1, 1, 1, 1, 3, 3);
    Digit(3, 524287, 1, 3, 9, 81, 6561, 6, 729, 64386);
    Digit(3, 524287, 14, 64386, 19687, 129876, 414012, 0, 1, 414012);
    Digit(3, 524287, 112, 414012, 262947, 252397, 229387, 1, 3, 163874);
    Digit(3, 524287, 897, 163874, 183449, 77358, 48346, 6, 729, 117005);
  }

  /** 524287 - 1 is divisible by 19 * 73. */
  lemma Prime524287()
    ensures IsPrime(524287)
  {
    hide PowMod, IsPrime, Product;
    Power524287At524286();
    Power524287At27594();
    Power524287At7182();
    Prime19();
    Prime73();
    ProductOf2(19, 73);
    Pocklington(3, 524287, [19, 73], [374197, 130543]);
  }

  lemma Power581029At581028()
    ensures PowMod(2, 581028, 581029) == 1
  {
    hide PowMod;
    PowZero(2, 581029);
    Digit(2, 581029, 0, 1, 1, 1, 1, 2, 4, 4);
    Digit(2, 581029, 2, 4, 16, 256, 65536, 1, 2, 131072);
    Digit(2, 581029, 17, 131072, 3712, 415277, 350268, 5, 32, 169025);
    Digit(2, 581029, 141, 169025, 254695, 560320, 63279, 6, 64, 563682);
    Digit(2, 581029, 1134, 563682, 526416, 157912, 178151, 6, 64, 362113);
    Digit(2, 581029, 9078, 362113, 362107, 83990, 47011, 4, 16, 171147);
    Digit(2, 581029, 72628, 171147, 461661, 145257, 108943, 4, 16, 1);
  }

  lemma Power581029At84()
    ensures PowMod(2, 84, 581029) == 195112
  {
    hide PowMod;
    PowZero(2, 581029);
    Digit(2, 581029, 0, 1, 1, 1, 1, 1, 2, 2);
    Digit(2, 581029, 1, 2, 4, 16, 256, 2, 4, 1024);
    Digit(2, 581029, 10, 1024, 467547, 237568, 302709, 4, 16, 195112);
  }

  /** 581029 - 1 is divisible by 6917. */
  lemma Prime581029()
    ensures IsPrime(581029)
  {
    hide PowMod, IsPrime, Product;
    Power581029At581028();
    Power581029At84();
    Prime6917();
    ProductOf1(6917);
    Pocklington(2, 581029, [6917], [528245]);
  }

  lemma Power1048571At1048570()
    ensures PowMod(2, 1048570, 1048571) == 1
  {
    hide PowMod;
    PowZero(2, 1048571);
    Digit(2, 1048571, 0, 1, 1, 1, 1, 3, 8, 8);
    Digit(2, 1048571, 3, 8, 64, 4096, 80, 7, 128, 10240);
    Digit(2, 1048571, 31, 10240, 500, 250000, 974116, 7, 128, 955470);
    Digit(2, 1048571, 255, 955470, 308315, 983791, 67258, 7, 128, 220456);
    Digit(2, 1048571, 2047, 220456, 630657, 28494, 314082, 7, 128, 356798);
    Digit(2, 1048571, 16383, 356798, 953407, 727740, 606917, 7, 128, 91122);
    Digit(2, 1048571, 131071, 91122, 633706, 524285, 262143, 2, 4, 1);
  }

  lemma Power1048571At45590()
    ensures PowMod(2, 45590, 1048571) == 770651
  {
    hide PowMod;
    PowZero(2, 1048571);
    Digit(2, 1048571, 0, 1, 1, 1, 1, 1, 2, 2);
    Digit(2, 1048571, 1, 2, 4, 16, 256, 3, 8, 2048);
    Digit(2, 1048571, 11, 2048, 20, 400, 160000, 1, 2, 320000);
    Digit(2, 1048571, 89, 320000, 750424, 75655, 578507, 0, 1, 578507);
    Digit(2, 1048571, 712, 578507, 40121, 138156, 990994, 2, 4, 818263);
    Digit(2, 1048571, 5698, 818263, 859400, 36153, 519943, 6, 64, 770651);
  }

  lemma Power1048571At22310()
    ensures PowMod(2, 22310, 1048571) == 649940
  {
    hide PowMod;
    PowZero(2, 1048571);
    Digit(2, 1048571, 0, 1, 1, 1, 1, 5, 32, 32);
    Digit(2, 1048571, 5, 32, 1024, 5, 25, 3, 8, 200);
    Digit(2, 1048571, 43, 200, 40000, 929225, 727823, 4, 16, 110887);
    Digit(2, 1048571, 348, 110887, 383223, 159182, 190909, 4, 16, 957402);
    Digit(2, 1048571, 2788, 957402, 812815, 337110, 75691, 6, 64, 649940);
  }

  /** 1048571 - 1 is divisible by 23 * 47. */
  lemma Prime1048571()
    ensures IsPrime(1048571)
  {
    hide PowMod, IsPrime, Product;
    Power1048571At1048570();
    Power1048571At45590();
    Power1048571At22310();
    Prime23();
    Prime47();
    ProductOf2(23, 47);
    Pocklington(2, 1048571, [23, 47], [446041, 391941]);
  }

  lemma Power1048573At1048572()
    ensures PowMod(2, 1048572, 1048573) == 1
  {
    hide PowMod;
    PowZero(2, 1048573);
    Digit(2, 1048573, 0, 1, 1, 1, 1, 3, 8, 8);
    Digit(2, 1048573, 3, 8, 64, 4096, 48, 7, 128, 6144);
    Digit(2, 1048573, 31, 6144, 108, 11664, 782979, 7, 128, 606877);
    Digit(2, 1048573, 255, 606877, 1009755, 37723, 111168, 7, 128, 598055);
    Digit(2, 1048573, 2047, 598055, 484152, 956392, 749742, 7, 128, 546833);
    Digit(2, 1048573, 16383, 546833, 573187, 250317, 72301, 7, 128, 865944);
    Digit(2, 1048573, 131071, 865944, 341657, 262143, 720894, 4, 16, 1);
  }

  lemma Power1048573At55188()
    ensures PowMod(2, 55188, 1048573) == 937692
  {
    hide PowMod;
    PowZero(2, 1048573);
    Digit(2, 1048573, 0, 1, 1, 1, 1, 1, 2, 2);
    Digit(2, 1048573, 1, 2, 4, 16, 256, 5, 32, 8192);
    Digit(2, 1048573, 13, 8192, 192, 36864, 3888, 3, 8, 31104);
    Digit(2, 1048573, 107, 31104, 674510, 498276, 1002955, 6, 64, 226167);
    Digit(2, 1048573, 862, 226167, 23803, 353389, 838167, 2, 4, 206949);
    Digit(2, 1048573, 6898, 206949, 1021562, 835886, 320749, 4, 16, 937692);
  }

  lemma Power1048573At14364()
    ensures PowMod(2, 14364, 1048573) == 119273
  {
    hide PowMod;
    PowZero(2, 1048573);
    Digit(2, 1048573, 0, 1, 1, 1, 1, 3, 8, 8);
    Digit(2, 1048573, 3, 8, 64, 4096, 48, 4, 16, 768);
    Digit(2, 1048573, 28, 768, 589824, 995328, 737206, 0, 1, 737206);
    Digit(2, 1048573, 224, 737206, 446255, 638011, 948948, 3, 8, 251573);
    Digit(2, 1048573, 1795, 251573, 253768, 87029, 204062, 4, 16, 119273);
  }

  /** 1048573 - 1 is divisible by 19 * 73. */
  lemma Prime1048573()
    ensures IsPrime(1048573)
  {
    hide PowMod, IsPrime, Product;
    Power1048573At1048572();
    Power1048573At55188();
    Power1048573At14364();
    Prime19();
    Prime73();
    ProductOf2(19, 73);
    Pocklington(2, 1048573, [19, 73], [367306, 185139]);
  }

  lemma Power2097143At2097142()
    ensures PowMod(2, 2097142, 2097143) == 1
  {
    hide PowMod;
    PowZero(2, 2097143);
    Digit(2, 2097143, 0, 1, 1, 1, 1, 7, 128, 128);
    Digit(2, 2097143, 7, 128, 16384, 1152, 1327104, 7, 128, 729);
    Digit(2, 2097143, 63, 729, 531441, 997242, 1230248, 7, 128, 186019);
    Digit(2, 2097143, 511, 186019, 208861, 245778, 718312, 7, 128, 1766787);
    Digit(2, 2097143, 4095, 1766787, 1862159, 1802209, 767002, 7, 128, 1707678);
    Digit(2, 2097143, 32767, 1707678, 827321, 796130, 1350867, 6, 64, 472625);
    Digit(2, 2097143, 262142, 472625, 1398266, 262143, 1867768, 6, 64, 1);
  }

  lemma Power2097143At2()
    ensures PowMod(2, 2, 2097143) == 4
  {
    hide PowMod;
    PowZero(2, 2097143);
    Digit(2, 2097143, 0, 1, 1, 1, 1, 2, 4, 4);
  }

  /** 2097143 - 1 is divisible by 1048571. */
  lemma Prime2097143()
    ensures IsPrime(2097143)
  {
    hide PowMod, IsPrime, Product;
    Power2097143At2097142();
    Power2097143At2();
    Prime1048571();
    ProductOf1(1048571);
    Pocklington(2, 2097143, [1048571], [699048]);
  }

  lemma Power4194301At4194300()
    ensures PowMod(2, 4194300, 4194301) == 1
  {
    hide PowMod;
    PowZero(2, 4194301);
    Digit(2, 4194301, 0, 1, 1, 1, 1, 1, 2, 2);
    Digit(2, 4194301, 1, 2, 4, 16, 256, 7, 128, 32768);
    Digit(2, 4194301, 15, 32768, 768, 589824, 248832, 7, 128, 2490389);
    Digit(2, 4194301, 127, 2490389, 4174340, 4177227, 2114707, 7, 128, 2247232);
    Digit(2, 4194301, 1023, 2247232, 11697, 2602177, 3661919, 7, 128, 3158221);
    Digit(2, 4194301, 8191, 3158221, 1728567, 3532808, 2537224, 7, 128, 1803495);
    Digit(2, 4194301, 65535, 1803495, 1869846, 887427, 530268, 7, 128, 765488);
    Digit(2, 4194301, 524287, 765488, 2862638, 1048575, 2883582, 4, 16, 1);
  }

  lemma Power4194301At2097150()
    ensures PowMod(2, 2097150, 4194301) == 4194300
  {
    hide PowMod;
    PowZero(2, 4194301);
    Digit(2, 4194301, 0, 1, 1, 1, 1, 7, 128, 128);
    Digit(2, 4194301, 7, 128, 16384, 192, 36864, 7, 128, 524291);
    Digit(2, 4194301, 63, 524291, 3342345, 1043585, 2620371, 7, 128, 4057709);
    Digit(2, 4194301, 511, 4057709, 1123616, 3148650, 3046218, 7, 128, 4040212);
    Digit(2, 4194301, 4095, 4040212, 3676261, 1480717, 2317951, 7, 128, 3096658);
    Digit(2, 4194301, 32767, 3096658, 2998898, 2564612, 317608, 7, 128, 2905115);
    Digit(2, 4194301, 262143, 2905115, 382744, 2812810, 1376255, 6, 64, 4194300);
  }

  lemma Power4194301At135300()
    ensures PowMod(2, 135300, 4194301) == 3333049
  {
    hide PowMod;
    PowZero(2, 4194301);
    Digit(2, 4194301, 0, 1, 1, 1, 1, 4, 16, 16);
    Digit(2, 4194301, 4, 16, 256, 65536, 3072, 1, 2, 6144);
    Digit(2, 4194301, 33, 6144, 27, 729, 531441, 0, 1, 531441);
    Digit(2, 4194301, 264, 531441, 2084345, 3548817, 315819, 2, 4, 1263276);
    Digit(2, 4194301, 2114, 1263276, 1830492, 3916495, 1035236, 0, 1, 1035236);
    Digit(2, 4194301, 16912, 1035236, 2561380, 600414, 994747, 4, 16, 3333049);
  }

  lemma Power4194301At102300()
    ensures PowMod(2, 102300, 4194301) == 3526505
  {
    hide PowMod;
    PowZero(2, 4194301);
    Digit(2, 4194301, 0, 1, 1, 1, 1, 3, 8, 8);
    Digit(2, 4194301, 3, 8, 64, 4096, 12, 0, 1, 12);
    Digit(2, 4194301, 24, 12, 144, 20736, 2162994, 7, 128, 39366);
    Digit(2, 4194301, 199, 39366, 1984887, 2364653, 1763871, 6, 64, 3835918);
    Digit(2, 4194301, 1598, 3835918, 489467, 3665270, 676134, 3, 8, 1214771);
    Digit(2, 4194301, 12787, 1214771, 244514, 1529742, 1006838, 4, 16, 3526505);
  }

  /** 4194301 - 1 is divisible by 2 * 31 * 41. */
  lemma Prime4194301()
    ensures IsPrime(4194301)
  {
    hide PowMod, IsPrime, Product, Witness;
    Power4194301At4194300();
    Power4194301At2097150();
    Prime2();
    WitnessOf(2, 4194301, 2, 2097150, 4194300, 2097150);
    Power4194301At135300();
    Prime31();
    WitnessOf(2, 4194301, 31, 135300, 3333049, 944658);
    Power4194301At102300();
    Prime41();
    WitnessOf(2, 4194301, 41, 102300, 3526505, 1342264);
    ProductOf3(2, 31, 41);
    Pocklington(2, 4194301, [2, 31, 41], [2097150, 944658, 1342264]);
  }

  lemma Power8388593At8388592()
    ensures PowMod(2, 8388592, 8388593) == 1
  {
    hide PowMod;
    PowZero(2, 8388593);
    Digit(2, 8388593, 0, 1, 1, 1, 1, 3, 8, 8);
    Digit(2, 8388593, 3, 8, 64, 4096, 30, 7, 128, 3840);
    Digit(2, 8388593, 31, 3840, 6357007, 2924722, 7889103, 7, 128, 3174024);
    Digit(2, 8388593, 255, 3174024, 4983145, 5641471, 7419329, 7, 128, 1763103);
    Digit(2, 8388593, 2047, 1763103, 4834971, 7862312, 5515880, 7, 128, 1390828);
    Digit(2, 8388593, 16383, 1390828, 1368377, 4216227, 699881, 7, 128, 5698838);
    Digit(2, 8388593, 131071, 5698838, 6372803, 40679, 2228220, 6, 64, 8388592);
    Digit(2, 8388593, 1048574, 8388592, 1, 1, 1, 0, 1, 1);
  }

  lemma Power8388593At16()
    ensures PowMod(2, 16, 8388593) == 65536
  {
    hide PowMod;
    PowZero(2, 8388593);
    Digit(2, 8388593, 0, 1, 1, 1, 1, 2, 4, 4);
    Digit(2, 8388593, 2, 4, 16, 256, 65536, 0, 1, 65536);
  }

  /** 8388593 - 1 is divisible by 524287. */
  lemma Prime8388593()
    ensures IsPrime(8388593)
  {
    hide PowMod, IsPrime, Product;
    Power8388593At8388592();
    Power8388593At16();
    Prime524287();
    ProductOf1(524287);
    Pocklington(2, 8388593, [524287], [3340589]);
  }

  lemma Power16777213At16777212()
    ensures PowMod(2, 16777212, 16777213) == 1
  {
    hide PowMod;
    PowZero(2, 16777213);
    Digit(2, 16777213, 0, 1, 1, 1, 1, 7, 128, 128);
    Digit(2, 16777213, 7, 128, 16384, 48, 2304, 7, 128, 294912);
    Digit(2, 16777213, 63, 294912, 15552, 6983722, 8149504, 7, 128, 2949306);
    Digit(2, 16777213, 511, 2949306, 8143591, 16310036, 16362625, 7, 128, 14041588);
    Digit(2, 16777213, 4095, 14041588, 509845, 12563016, 4642511, 7, 128, 7038953);
    Digit(2, 16777213, 32767, 7038953, 8028710, 1212049, 16453695, 7, 128, 8921335);
    Digit(2, 16777213, 262143, 8921335, 8902514, 6614420, 9616632, 7, 128, 6192347);
    Digit(2, 16777213, 2097151, 6192347, 2196259, 4194303, 11534334, 4, 16, 1);
  }

  lemma Power16777213At729444()
    ensures PowMod(2, 729444, 16777213) == 13096181
  {
    hide PowMod;
    PowZero(2, 16777213);
    Digit(2, 16777213, 0, 1, 1, 1, 1, 2, 4, 4);
    Digit(2, 16777213, 2, 4, 16, 256, 65536, 6, 64, 4194304);
    Digit(2, 16777213, 22, 4194304, 3145728, 1769472, 559872, 2, 4, 2239488);
    Digit(2, 16777213, 178, 2239488, 10333989, 5831741, 13955503, 0, 1, 13955503);
    Digit(2, 16777213, 1424, 13955503, 1464625, 8713658, 8173088, 5, 32, 9880621);
    Digit(2, 16777213, 11397, 9880621, 1789789, 4277579, 618690, 4, 16, 9899040);
    Digit(2, 16777213, 91180, 9899040, 6185453, 15325590, 8158542, 4, 16, 13096181);
  }

  lemma Power16777213At24564()
    ensures PowMod(2, 24564, 16777213) == 2934999
  {
    hide PowMod;
    PowZero(2, 16777213);
    Digit(2, 16777213, 0, 1, 1, 1, 1, 5, 32, 32);
    Digit(2, 16777213, 5, 32, 1024, 1048576, 196608, 7, 128, 8388611);
    Digit(2, 16777213, 47, 8388611, 12582930, 11534744, 7180502, 7, 128, 13134754);
    Digit(2, 16777213, 383, 13134754, 3640216, 9605653, 4961941, 6, 64, 15574390);
    Digit(2, 16777213, 3070, 15574390, 206274, 1950908, 13814923, 4, 16, 2934999);
  }

  /** 16777213 - 1 is divisible by 23 * 683. */
  lemma Prime16777213()
    ensures IsPrime(16777213)
  {
    hide PowMod, IsPrime, Product;
    Power16777213At16777212();
    Power16777213At729444();
    Power16777213At24564();
    Prime23();
    Prime683();
    ProductOf2(23, 683);
    Pocklington(2, 16777213, [23, 683], [12189860, 8149381]);
  }

  lemma Power22605091At22605090()
    ensures PowMod(2, 22605090, 22605091) == 1
  {
    hide PowMod;
    PowZero(2, 22605091);
    Digit(2, 22605091, 0, 1, 1, 1, 1, 1, 2, 2);
    Digit(2, 22605091, 1, 2, 4, 16, 256, 2, 4, 1024);
    Digit(2, 22605091, 10, 1024, 1048576, 1536, 2359296, 6, 64, 15364398);
    Digit(2, 22605091, 86, 15364398, 9245405, 1417176, 15899990, 1, 2, 9194889);
    Digit(2, 22605091, 689, 9194889, 4720491, 21617649, 16313261, 6, 64, 4214518);
    Digit(2, 22605091, 5518, 4214518, 8273255, 2077940, 13606599, 6, 64, 11828878);
    Digit(2, 22605091, 44150, 11828878, 6161624, 20906511, 18436797, 4, 16, 1122569);
    Digit(2, 22605091, 353204, 1122569, 17756875, 17869218, 15648112, 4, 16, 1713791);
    Digit(2, 22605091, 2825636, 1713791, 118051, 11302545, 5651273, 2, 4, 1);
  }

  lemma Power22605091At124890()
    ensures PowMod(2, 124890, 22605091) == 13954217
  {
    hide PowMod;
    PowZero(2, 22605091);
    Digit(2, 22605091, 0, 1, 1, 1, 1, 3, 8, 8);
    Digit(2, 22605091, 3, 8, 64, 4096, 16777216, 6, 64, 11302547);
    Digit(2, 22605091, 30, 11302547, 5651275, 7064096, 13156895, 3, 8, 14834796);
    Digit(2, 22605091, 243, 14834796, 9688937, 15845892, 5988048, 7, 128, 20502141);
    Digit(2, 22605091, 1951, 20502141, 6514533, 3288324, 19869490, 3, 8, 720283);
    Digit(2, 22605091, 15611, 720283, 20761639, 1525910, 9139827, 2, 4, 13954217);
  }

  /** 22605091 - 1 is divisible by 181 * 181. */
  lemma Prime22605091()
    ensures IsPrime(22605091)
  {
    hide PowMod, IsPrime, Product;
    Power22605091At22605090();
    Power22605091At124890();
    Prime181();
    ProductOf2(181, 181);
    Pocklington(2, 22605091, [181, 181], [19569746, 19569746]);
  }

  lemma Power33554393At33554392()
    ensures PowMod(2, 33554392, 33554393) == 1
  {
    hide PowMod;
    PowZero(2, 33554393);
    Digit(2, 33554393, 0, 1, 1, 1, 1, 1, 2, 2);
    Digit(2, 33554393, 1, 2, 4, 16, 256, 7, 128, 32768);
    Digit(2, 33554393, 15, 32768, 1248, 1557504, 3868081, 7, 128, 25352866);
    Digit(2, 33554393, 127, 25352866, 29877921, 32224131, 5410610, 7, 128, 21470220);
    Digit(2, 33554393, 1023, 21470220, 28705614, 584352, 17756736, 7, 128, 24717877);
    Digit(2, 33554393, 8191, 24717877, 23275065, 22191755, 22674220, 7, 128, 16622362);
    Digit(2, 33554393, 65535, 16622362, 7497190, 21767582, 2782984, 7, 128, 20678022);
    Digit(2, 33554393, 524287, 20678022, 17283247, 25146969, 33544980, 3, 8, 33479089);
    Digit(2, 33554393, 4194299, 33479089, 33554392, 1, 1, 0, 1, 1);
  }

  lemma Power33554393At1157048()
    ensures PowMod(2, 1157048, 33554393) == 27144614
  {
    hide PowMod;
    PowZero(2, 33554393);
    Digit(2, 33554393, 0, 1, 1, 1, 1, 4, 16, 16);
    Digit(2, 33554393, 4, 16, 256, 65536, 4992, 3, 8, 39936);
    Digit(2, 33554393, 35, 39936, 17827625, 22539995, 15224721, 2, 4, 27344491);
    Digit(2, 33554393, 282, 27344491, 26932852, 18078227, 20618447, 3, 8, 30730004);
    Digit(2, 33554393, 2259, 30730004, 18940287, 26899493, 22440339, 6, 64, 26897190);
    Digit(2, 33554393, 18078, 26897190, 11498346, 1914112, 20576874, 7, 128, 16597218);
    Digit(2, 33554393, 144631, 16597218, 3882619, 16591195, 27144614, 0, 1, 27144614);
  }

  lemma Power33554393At14152()
    ensures PowMod(2, 14152, 33554393) == 793138
  {
    hide PowMod;
    PowZero(2, 33554393);
    Digit(2, 33554393, 0, 1, 1, 1, 1, 3, 8, 8);
    Digit(2, 33554393, 3, 8, 64, 4096, 16777216, 3, 8, 156);
    Digit(2, 33554393, 27, 156, 24336, 21816215, 16131068, 5, 32, 12878281);
    Digit(2, 33554393, 221, 12878281, 17928429, 30020137, 7135356, 1, 2, 14270712);
    Digit(2, 33554393, 1769, 14270712, 49966, 13576074, 793138, 0, 1, 793138);
  }

  /** 33554393 - 1 is divisible by 29 * 2371. */
  lemma Prime33554393()
    ensures IsPrime(33554393)
  {
    hide PowMod, IsPrime, Product;
    Power33554393At33554392();
    Power33554393At1157048();
    Power33554393At14152();
    Prime29();
    Prime2371();
    ProductOf2(29, 2371);
    Pocklington(2, 33554393, [29, 2371], [21645771, 14138428]);
  }

  lemma Power67108859At67108858()
    ensures PowMod(2, 67108858, 67108859) == 1
  {
    hide PowMod;
    PowZero(2, 67108859);
    Digit(2, 67108859, 0, 1, 1, 1, 1, 3, 8, 8);
    Digit(2, 67108859, 3, 8, 64, 4096, 16777216, 7, 128, 160);
    Digit(2, 67108859, 31, 160, 25600, 51380269, 56183116, 7, 128, 10790935);
    Digit(2, 67108859, 255, 10790935, 5936080, 62953552, 3714421, 7, 128, 5683875);
    Digit(2, 67108859, 2047, 5683875, 28966448, 24981040, 33210405, 7, 128, 23073723);
    Digit(2, 67108859, 16383, 23073723, 35819118, 36230172, 38972247, 7, 128, 22392050);
    Digit(2, 67108859, 131071, 22392050, 63184000, 15130726, 16707231, 7, 128, 58150939);
    Digit(2, 67108859, 1048575, 58150939, 53427753, 13834926, 41248895, 7, 128, 45367558);
    Digit(2, 67108859, 8388607, 45367558, 35125164, 33554429, 16777215, 2, 4, 1);
  }

  lemma Power67108859At958()
    ensures PowMod(2, 958, 67108859) == 51047135
  {
    hide PowMod;
    PowZero(2, 67108859);
    Digit(2, 67108859, 0, 1, 1, 1, 1, 1, 2, 2);
    Digit(2, 67108859, 1, 2, 4, 16, 256, 6, 64, 16384);
    Digit(2, 67108859, 14, 16384, 20, 400, 160000, 7, 128, 20480000);
    Digit(2, 67108859, 119, 20480000, 31250000, 20976156, 20720554, 6, 64, 51047135);
  }

  /** 67108859 - 1 is divisible by 70051. */
  lemma Prime67108859()
    ensures IsPrime(67108859)
  {
    hide PowMod, IsPrime, Product;
    Power67108859At67108858();
    Power67108859At958();
    Prime70051();
    ProductOf1(70051);
    Pocklington(2, 67108859, [70051], [48625567]);
  }

  lemma Power134217689At134217688()
    ensures PowMod(2, 134217688, 134217689) == 1
  {
    hide PowMod;
    PowZero(2, 134217689);
    Digit(2, 134217689, 0, 1, 1, 1, 1, 7, 128, 128);
    Digit(2, 134217689, 7, 128, 16384, 78, 6084, 7, 128, 778752);
    Digit(2, 134217689, 63, 778752, 59158602, 125497437, 18410597, 7, 128, 74855703);
    Digit(2, 134217689, 511, 74855703, 88258207, 19628316, 120680557, 7, 128, 12077061);
    Digit(2, 134217689, 4095, 12077061, 100237598, 125833660, 125278206, 7, 128, 63705377);
    Digit(2, 134217689, 32767, 63705377, 34037678, 56061287, 53587636, 7, 128, 14115269);
    Digit(2, 134217689, 262143, 14115269, 28329421, 80642851, 2290918, 7, 128, 24802126);
    Digit(2, 134217689, 2097151, 24802126, 15636588, 130842712, 85573544, 3, 8, 13499907);
    Digit(2, 134217689, 16777211, 13499907, 134217688, 1, 1, 0, 1, 1);
  }

  lemma Power134217689At8888()
    ensures PowMod(2, 8888, 134217689) == 112768753
  {
    hide PowMod;
    PowZero(2, 134217689);
    Digit(2, 134217689, 0, 1, 1, 1, 1, 2, 4, 4);
    Digit(2, 134217689, 2, 4, 16, 256, 65536, 1, 2, 131072);
    Digit(2, 134217689, 17, 131072, 4992, 24920064, 46230709, 2, 4, 50705147);
    Digit(2, 134217689, 138, 50705147, 24597616, 108286576, 52590109, 7, 128, 20649502);
    Digit(2, 134217689, 1111, 20649502, 119520966, 92820187, 112768753, 0, 1, 112768753);
  }

  /** 134217689 - 1 is divisible by 15101. */
  lemma Prime134217689()
    ensures IsPrime(134217689)
  {
    hide PowMod, IsPrime, Product;
    Power134217689At134217688();
    Power134217689At8888();
    Prime15101();
    ProductOf1(15101);
    Pocklington(2, 134217689, [15101], [115029190]);
  }

  lemma Power268435399At268435398()
    ensures PowMod(2, 268435398, 268435399) == 1
  {
    hide PowMod;
    PowZero(2, 268435399);
    Digit(2, 268435399, 0, 1, 1, 1, 1, 1, 2, 2);
    Digit(2, 268435399, 1, 2, 4, 16, 256, 7, 128, 32768);
    Digit(2, 268435399, 15, 32768, 228, 51984, 17982266, 7, 128, 154246856);
    Digit(2, 268435399, 127, 154246856, 137079206, 201582695, 263402799, 7, 128, 161133397);
    Digit(2, 268435399, 1023, 161133397, 42022161, 8098271, 3988953, 7, 128, 242150585);
    Digit(2, 268435399, 8191, 242150585, 201694967, 54321533, 210624385, 7, 128, 116381380);
    Digit(2, 268435399, 65535, 116381380, 26337873, 43824102, 252325418, 7, 128, 85405624);
    Digit(2, 268435399, 524287, 85405624, 138843298, 48243959, 252419019, 7, 128, 97386552);
    Digit(2, 268435399, 4194303, 97386552, 36266288, 116057609, 228716999, 0, 1, 228716999);
    Digit(2, 268435399, 33554424, 228716999, 213607037, 33554425, 37748728, 6, 64, 1);
  }

  lemma Power268435399At462()
    ensures PowMod(2, 462, 268435399) == 79975169
  {
    hide PowMod;
    PowZero(2, 268435399);
    Digit(2, 268435399, 0, 1, 1, 1, 1, 7, 128, 128);
    Digit(2, 268435399, 7, 128, 16384, 57, 3249, 1, 2, 6498);
    Digit(2, 268435399, 57, 6498, 42224004, 197995312, 38998340, 6, 64, 79975169);
  }

  /** 268435399 - 1 is divisible by 581029. */
  lemma Prime268435399()
    ensures IsPrime(268435399)
  {
    hide PowMod, IsPrime, Product;
    Power268435399At268435398();
    Power268435399At462();
    Prime581029();
    ProductOf1(581029);
    Pocklington(2, 268435399, [581029], [79985965]);
  }

  lemma Power536870909At536870908()
    ensures PowMod(2, 536870908, 536870909) == 1
  {
    hide PowMod;
    PowZero(2, 536870909);
    Digit(2, 536870909, 0, 1, 1, 1, 1, 3, 8, 8);
    Digit(2, 536870909, 3, 8, 64, 4096, 16777216, 7, 128, 12);
    Digit(2, 536870909, 31, 12, 144, 20736, 429981696, 7, 128, 276824370);
    Digit(2, 536870909, 255, 276824370, 193425784, 458308123, 171696019, 7, 128, 502254072);
    Digit(2, 536870909, 2047, 502254072, 7096574, 186918731, 281213837, 7, 128, 25020233);
    Digit(2, 536870909, 16383, 25020233, 178385747, 474345474, 487110305, 7, 128, 73093596);
    Digit(2, 536870909, 131071, 73093596, 240943171, 398525539, 473908717, 7, 128, 530773968);
    Digit(2, 536870909, 1048575, 530773968, 284689230, 36273226, 343668055, 7, 128, 502967411);
    Digit(2, 536870909, 8388607, 502967411, 118016096, 125415993, 422737673, 7, 128, 423331244);
    Digit(2, 536870909, 67108863, 423331244, 381975119, 134217727, 369098750, 4, 16, 1);
  }

  lemma Power536870909At2044()
    ensures PowMod(2, 2044, 536870909) == 62781759
  {
    hide PowMod;
    PowZero(2, 536870909);
    Digit(2, 536870909, 0, 1, 1, 1, 1, 3, 8, 8);
    Digit(2, 536870909, 3, 8, 64, 4096, 16777216, 7, 128, 12);
    Digit(2, 536870909, 31, 12, 144, 20736, 429981696, 7, 128, 276824370);
    Digit(2, 536870909, 255, 276824370, 193425784, 458308123, 171696019, 4, 16, 62781759);
  }

  /** 536870909 - 1 is divisible by 262657. */
  lemma Prime536870909()
    ensures IsPrime(536870909)
  {
    hide PowMod, IsPrime, Product;
    Power536870909At536870908();
    Power536870909At2044();
    Prime262657();
    ProductOf1(262657);
    Pocklington(2, 536870909, [262657], [292186085]);
  }

  lemma Power1073741789At1073741788()
    ensures PowMod(2, 1073741788, 1073741789) == 1
  {
    hide PowMod;
    PowZero(2, 1073741789);
    Digit(2, 1073741789, 0, 1, 1, 1, 1, 7, 128, 128);
    Digit(2, 1073741789, 7, 128, 16384, 268435456, 201326662, 7, 128, 9800);
    Digit(2, 1073741789, 63, 9800, 96040000, 188071053, 1073354070, 7, 128, 1024113757);
    Digit(2, 1073741789, 511, 1024113757, 160777347, 990694977, 623601664, 7, 128, 364120606);
    Digit(2, 1073741789, 4095, 364120606, 674161380, 101668252, 150870398, 7, 128, 1057800531);
    Digit(2, 1073741789, 32767, 1057800531, 163678145, 1057763955, 479062494, 7, 128, 116717259);
    Digit(2, 1073741789, 262143, 116717259, 1062897922, 766974932, 184970165, 7, 128, 53861762);
    Digit(2, 1073741789, 2097151, 53861762, 153134994, 62883845, 627713036, 7, 128, 890376222);
    Digit(2, 1073741789, 16777215, 890376222, 897552234, 481615678, 75901852, 3, 8, 607214816);
    Digit(2, 1073741789, 134217723, 607214816, 1003397867, 268435447, 738197480, 4, 16, 1);
  }

  lemma Power1073741789At153391684()
    ensures PowMod(2, 153391684, 1073741789) == 1069776153
  {
    hide PowMod;
    PowZero(2, 1073741789);
    Digit(2, 1073741789, 0, 1, 1, 1, 1, 1, 2, 2);
    Digit(2, 1073741789, 1, 2, 4, 16, 256, 1, 2, 512);
    Digit(2, 1073741789, 9, 512, 262144, 2240, 5017600, 1, 2, 10035200);
    Digit(2, 1073741789, 73, 10035200, 70391479, 589329967, 1058556525, 1, 2, 1043371261);
    Digit(2, 1073741789, 585, 1043371261, 78186637, 1045671023, 344485528, 1, 2, 688971056);
    Digit(2, 1073741789, 4681, 688971056, 526173519, 616731667, 1030775394, 1, 2, 987808999);
    Digit(2, 1073741789, 37449, 987808999, 1065436189, 450125695, 597636803, 1, 2, 121531817);
    Digit(2, 1073741789, 299593, 121531817, 663200887, 934805084, 236151725, 1, 2, 472303450);
    Digit(2, 1073741789, 2396745, 472303450, 727440384, 690899864, 274665010, 0, 1, 274665010);
    Digit(2, 1073741789, 19173960, 274665010, 477644735, 443416178, 268187595, 4, 16, 1069776153);
  }

  lemma Power1073741789At65548()
    ensures PowMod(2, 65548, 1073741789) == 569480547
  {
    hide PowMod;
    PowZero(2, 1073741789);
    Digit(2, 1073741789, 0, 1, 1, 1, 1, 2, 4, 4);
    Digit(2, 1073741789, 2, 4, 16, 256, 65536, 0, 1, 65536);
    Digit(2, 1073741789, 16, 65536, 140, 19600, 384160000, 0, 1, 384160000);
    Digit(2, 1073741789, 128, 384160000, 861653270, 974485725, 643109388, 0, 1, 643109388);
    Digit(2, 1073741789, 1024, 643109388, 818734586, 728241212, 549161942, 1, 2, 24582095);
    Digit(2, 1073741789, 8193, 24582095, 64317394, 563621533, 102701396, 4, 16, 569480547);
  }

  /** 1073741789 - 1 is divisible by 7 * 16381. */
  lemma Prime1073741789()
    ensures IsPrime(1073741789)
  {
    hide PowMod, IsPrime, Product;
    Power1073741789At1073741788();
    Power1073741789At153391684();
    Power1073741789At65548();
    Prime7();
    Prime16381();
    ProductOf2(7, 16381);
    Pocklington(2, 1073741789, [7, 16381], [170516923, 113594666]);
  }

  lemma Power2147483647At2147483646()
    ensures PowMod(3, 2147483646, 2147483647) == 1
  {
    hide PowMod;
    PowZero(3, 2147483647);
    Digit(3, 2147483647, 0, 1, 1, 1, 1, 1, 3, 3);
    Digit(3, 2147483647, 1, 3, 9, 81, 6561, 7, 2187, 14348907);
    Digit(3, 2147483647, 15, 14348907, 1137438524, 1419893101, 1941516910, 7, 2187, 522312051);
    Digit(3, 2147483647, 127, 522312051, 703371248, 1785218982, 459443012, 7, 2187, 1927004095);
    Digit(3, 2147483647, 1023, 1927004095, 595162961, 839075877, 1287480779, 7, 2187, 369402456);
    Digit(3, 2147483647, 8191, 369402456, 494736953, 644022528, 1367610667, 7, 2187, 1667292105);
    Digit(3, 2147483647, 65535, 1667292105, 1452908823, 561191148, 1194514920, 7, 2187, 1064015288);
    Digit(3, 2147483647, 524287, 1064015288, 785118734, 1070515870, 607101712, 7, 2187, 586550298);
    Digit(3, 2147483647, 4194303, 586550298, 873923080, 849794569, 1588215036, 7, 2187, 945226533);
    Digit(3, 2147483647, 33554431, 945226533, 1811693887, 163756984, 2101665511, 7, 2187, 727467977);
    Digit(3, 2147483647, 268435455, 727467977, 1095327379, 1511192196, 659857801, 6, 729, 1);
  }

  lemma Power2147483647At14221746()
    ensures PowMod(3, 14221746, 2147483647) == 556613938
  {
    hide PowMod;
    PowZero(3, 2147483647);
    Digit(3, 2147483647, 0, 1, 1, 1, 1, 6, 729, 729);
    Digit(3, 2147483647, 6, 729, 531441, 1109178724, 1179079857, 6, 729, 555756953);
    Digit(3, 2147483647, 54, 555756953, 1760675082, 176622910, 1357972371, 2, 9, 1484333104);
    Digit(3, 2147483647, 434, 1484333104, 781387745, 2039900750, 1863041409, 0, 1, 1863041409);
    Digit(3, 2147483647, 3472, 1863041409, 1907369905, 1082220771, 1777528049, 0, 1, 1777528049);
    Digit(3, 2147483647, 27776, 1777528049, 1554224294, 885019232, 1077872613, 6, 729, 1937603722);
    Digit(3, 2147483647, 222214, 1937603722, 1066266930, 1340179608, 1505167168, 6, 729, 2050205502);
    Digit(3, 2147483647, 1777718, 2050205502, 480280235, 47433441, 1970720346, 2, 9, 556613938);
  }

  lemma Power2147483647At6487866()
    ensures PowMod(3, 6487866, 2147483647) == 272122089
  {
    hide PowMod;
    PowZero(3, 2147483647);
    Digit(3, 2147483647, 0, 1, 1, 1, 1, 3, 27, 27);
    Digit(3, 2147483647, 3, 27, 729, 531441, 1109178724, 0, 1, 1109178724);
    Digit(3, 2147483647, 24, 1109178724, 1179079857, 147377859, 1749597544, 5, 243, 2097924733);
    Digit(3, 2147483647, 197, 2097924733, 319850908, 676282893, 1908567812, 7, 2187, 1477078723);
    Digit(3, 2147483647, 1583, 1477078723, 599163311, 175941830, 1743809770, 7, 2187, 1928493565);
    Digit(3, 2147483647, 12671, 1928493565, 397334698, 1322849687, 1348608396, 4, 81, 1863097726);
    Digit(3, 2147483647, 101372, 1863097726, 1225501801, 1355977929, 1128634941, 7, 2187, 865905564);
    Digit(3, 2147483647, 810983, 865905564, 1442406291, 1734575918, 746063670, 2, 9, 272122089);
  }

  /** 2147483647 - 1 is divisible by 151 * 331. */
  lemma Prime2147483647()
    ensures IsPrime(2147483647)
  {
    hide PowMod, IsPrime, Product;
    Power2147483647At2147483646();
    Power2147483647At14221746();
    Power2147483647At6487866();
    Prime151();
    Prime331();
    ProductOf2(151, 331);
    Pocklington(3, 2147483647, [151, 331], [2069584139, 411595504]);
  }

  lemma Power4294967291At4294967290()
    ensures PowMod(2, 4294967290, 4294967291) == 1
  {
    hide PowMod;
    PowZero(2, 4294967291);
    Digit(2, 4294967291, 0, 1, 1, 1, 1, 3, 8, 8);
    Digit(2, 4294967291, 3, 8, 64, 4096, 16777216, 7, 128, 2147483648);
    Digit(2, 4294967291, 31, 2147483648, 1073741829, 3489660963, 754976245, 7, 128, 2147678958);
    Digit(2, 4294967291, 255, 2147678958, 566008860, 4136434452, 2808117898, 7, 128, 2956805791);
    Digit(2, 4294967291, 2047, 2956805791, 3118917028, 464288231, 3513342979, 7, 128, 3031303048);
    Digit(2, 4294967291, 16383, 3031303048, 2324058250, 2828530922, 562159660, 7, 128, 3236959824);
    Digit(2, 4294967291, 131071, 3236959824, 2935940660, 2756637766, 2198325709, 7, 128, 2212816837);
    Digit(2, 4294967291, 1048575, 2212816837, 2592175875, 2526667099, 2216855884, 7, 128, 289711946);
    Digit(2, 4294967291, 8388607, 289711946, 645174409, 3141060412, 434787436, 7, 128, 4113184316);
    Digit(2, 4294967291, 67108863, 4113184316, 1159625725, 178803809, 1901573919, 7, 128, 2883293336);
    Digit(2, 4294967291, 536870911, 2883293336, 110536630, 2147483645, 1073741823, 2, 4, 1);
  }

  lemma Power4294967291At190()
    ensures PowMod(2, 190, 4294967291) == 1073745729
  {
    hide PowMod;
    PowZero(2, 4294967291);
    Digit(2, 4294967291, 0, 1, 1, 1, 1, 2, 4, 4);
    Digit(2, 4294967291, 2, 4, 16, 256, 65536, 7, 128, 8388608);
    Digit(2, 4294967291, 23, 8388608, 81920, 2415919109, 889192508, 6, 64, 1073745729);
  }

  /** 4294967291 - 1 is divisible by 22605091. */
  lemma Prime4294967291()
    ensures IsPrime(4294967291)
  {
    hide PowMod, IsPrime, Product;
    Power4294967291At4294967290();
    Power4294967291At190();
    Prime22605091();
    ProductOf1(22605091);
    Pocklington(2, 4294967291, [22605091], [1771216906]);
  }

  /** Every table size is prime. */
  lemma TablePrime(i: nat)
    requires i < |PRIME_TAB|
    ensures IsPrime(PRIME_TAB[i].prime)
  {
    hide IsPrime;
    Prime7();
    Prime13();
    Prime31();
    Prime61();
    Prime127();
    Prime251();
    Prime509();
    Prime1021();
    Prime2039();
    Prime4093();
    Prime8191();
    Prime16381();
    Prime32749();
    Prime65521();
    Prime131071();
    Prime262139();
    Prime524287();
    Prime1048573();
    Prime2097143();
    Prime4194301();
    Prime8388593();
    Prime16777213();
    Prime33554393();
    Prime67108859();
    Prime134217689();
    Prime268435399();
    Prime536870909();
    Prime1073741789();
    Prime2147483647();
    Prime4294967291();
  }
}
