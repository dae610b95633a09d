/**
  The numbers behind the symbols of RFC 1951: which length, distance and repetition each code and
  its extra bits stand for.
*/
module DeflateCodes {
  import opened Numbers
  import opened Deflate

  lemma Powers()
    ensures Pow2(0) == 1 && Pow2(1) == 2 && Pow2(2) == 4 && Pow2(3) == 8 && Pow2(4) == 16 && Pow2(5) == 32
    ensures Pow2(6) == 64 && Pow2(7) == 128 && Pow2(8) == 256 && Pow2(9) == 512 && Pow2(10) == 1024
    ensures Pow2(11) == 2048 && Pow2(12) == 4096 && Pow2(13) == 8192
  {
    assert Pow2(4) == 16;
    assert Pow2(8) == 256;
    assert Pow2(12) == 4096;
  }

  // ---- Lengths ----

  /** Length code c with extra bits x stands for length n. */
  predicate WritesLength(c: nat, x: nat, n: nat) {
    c <= 28 && x < Pow2(LengthExtra(c)) && n == LengthBase(c) + x
  }

  lemma LengthRow(c: nat)
    requires c <= 28
    ensures c < 8 ==> Pow2(LengthExtra(c)) == 1 && LengthBase(c) == 3 + c
    ensures 8 <= c < 12 ==> Pow2(LengthExtra(c)) == 2 && LengthBase(c) == 11 + 2 * (c - 8)
    ensures 12 <= c < 16 ==> Pow2(LengthExtra(c)) == 4 && LengthBase(c) == 19 + 4 * (c - 12)
    ensures 16 <= c < 20 ==> Pow2(LengthExtra(c)) == 8 && LengthBase(c) == 35 + 8 * (c - 16)
    ensures 20 <= c < 24 ==> Pow2(LengthExtra(c)) == 16 && LengthBase(c) == 67 + 16 * (c - 20)
    ensures 24 <= c < 28 ==> Pow2(LengthExtra(c)) == 32 && LengthBase(c) == 131 + 32 * (c - 24)
    ensures c == 28 ==> Pow2(LengthExtra(c)) == 1 && LengthBase(c) == 258
  {
    if 8 <= c < 28 {
      var e := c / 4 - 1;
      assert LengthExtra(c) == e && LengthBase(c) == 3 + Shl(4 + c % 4, e);
      QuarterRow(c % 4, e);
      Powers();
      hide Shl, Pow2, LengthBase, LengthExtra;
    }
  }

  lemma {:induction false} QuarterRow(r: nat, e: nat)
    requires r < 4
    ensures Shl(4 + r, e) ==
            if r == 0 then 4 * Pow2(e) else if r == 1 then 5 * Pow2(e) else if r == 2 then 6 * Pow2(e) else 7 * Pow2(e)
  {
    if e > 0 {
      QuarterRow(r, e - 1);
    }
  }

  /** Every length from 3 to 258 and no other can be written; 258 in two ways, each other length in
      exactly one. */
  lemma LengthCodes(c: nat, x: nat, n: nat)
    ensures WritesLength(c, x, n) <==>
            || (3 <= n <= 10 && c == n - 3 && x == 0)
            || (11 <= n <= 18 && c == 8 + (n - 11) / 2 && x == (n - 11) % 2)
            || (19 <= n <= 34 && c == 12 + (n - 19) / 4 && x == (n - 19) % 4)
            || (35 <= n <= 66 && c == 16 + (n - 35) / 8 && x == (n - 35) % 8)
            || (67 <= n <= 130 && c == 20 + (n - 67) / 16 && x == (n - 67) % 16)
            || (131 <= n <= 258 && c == 24 + (n - 131) / 32 && x == (n - 131) % 32)
            || (n == 258 && c == 28 && x == 0)
  {
    hide Pow2, LengthBase, LengthExtra;
    if c <= 28 {
      LengthRow(c);
    }
  }

  // ---- Distances ----

  predicate WritesDistance(c: nat, x: nat, n: nat) {
    c <= 29 && x < Pow2(DistanceExtra(c)) && n == DistanceBase(c) + x
  }

  lemma {:induction false} ShlDouble(y: nat, n: nat)
    ensures Shl(2 * y, n) == 2 * Shl(y, n) && Shl(3 * y, n) == 3 * Shl(y, n)
  {
    if n > 0 {
      ShlDouble(y, n - 1);
    }
  }

  /** Two codes for each number of extra bits, one after the other. */
  lemma DistanceRow(c: nat, e: nat, w: nat)
    requires 2 <= c && e == c / 2 - 1 && w == Pow2(e)
    ensures Pow2(DistanceExtra(c)) == w && DistanceBase(c) == 1 + 2 * w + if c % 2 == 0 then 0 else w
  {
    Pow2IsShl(e);
    ShlDouble(1, e);
  }

  lemma NearestCodes(c: nat, x: nat, n: nat)
    requires c < 8
    ensures WritesDistance(c, x, n) <==>
            || (1 <= n <= 4 && c == n - 1 && x == 0)
            || (5 <= n <= 8 && c == 4 + (n - 5) / 2 && x == (n - 5) % 2)
            || (9 <= n <= 16 && c == 6 + (n - 9) / 4 && x == (n - 9) % 4)
  {
    if c >= 2 {
      DistanceRow(c, c / 2 - 1, Pow2(c / 2 - 1));
    }
    Powers();
    hide Pow2;
  }

  lemma NearCodes(c: nat, x: nat, n: nat)
    requires 8 <= c < 14
    ensures WritesDistance(c, x, n) <==>
            || (17 <= n <= 32 && c == 8 + (n - 17) / 8 && x == (n - 17) % 8)
            || (33 <= n <= 64 && c == 10 + (n - 33) / 16 && x == (n - 33) % 16)
            || (65 <= n <= 128 && c == 12 + (n - 65) / 32 && x == (n - 65) % 32)
  {
    DistanceRow(c, c / 2 - 1, Pow2(c / 2 - 1));
    hide DistanceBase, DistanceExtra;
    Powers();
    hide Pow2;
  }

  lemma MiddleCodes(c: nat, x: nat, n: nat)
    requires 14 <= c < 20
    ensures WritesDistance(c, x, n) <==>
            || (129 <= n <= 256 && c == 14 + (n - 129) / 64 && x == (n - 129) % 64)
            || (257 <= n <= 512 && c == 16 + (n - 257) / 128 && x == (n - 257) % 128)
            || (513 <= n <= 1024 && c == 18 + (n - 513) / 256 && x == (n - 513) % 256)
  {
    DistanceRow(c, c / 2 - 1, Pow2(c / 2 - 1));
    hide DistanceBase, DistanceExtra;
    Powers();
    hide Pow2;
  }

  lemma FarCodes(c: nat, x: nat, n: nat)
    requires 20 <= c < 26
    ensures WritesDistance(c, x, n) <==>
            || (1025 <= n <= 2048 && c == 20 + (n - 1025) / 512 && x == (n - 1025) % 512)
            || (2049 <= n <= 4096 && c == 22 + (n - 2049) / 1024 && x == (n - 2049) % 1024)
            || (4097 <= n <= 8192 && c == 24 + (n - 4097) / 2048 && x == (n - 4097) % 2048)
  {
    DistanceRow(c, c / 2 - 1, Pow2(c / 2 - 1));
    hide DistanceBase, DistanceExtra;
    Powers();
    hide Pow2;
  }

  lemma FarthestCodes(c: nat, x: nat, n: nat)
    requires 26 <= c < 30
    ensures WritesDistance(c, x, n) <==>
            || (8193 <= n <= 16384 && c == 26 + (n - 8193) / 4096 && x == (n - 8193) % 4096)
            || (16385 <= n <= 32768 && c == 28 + (n - 16385) / 8192 && x == (n - 16385) % 8192)
  {
    DistanceRow(c, c / 2 - 1, Pow2(c / 2 - 1));
    hide DistanceBase, DistanceExtra;
    Powers();
    hide Pow2;
  }

  /** Every distance from 1 to 32768 and no other can be written, in exactly one way. */
  lemma DistanceCodes(c: nat, x: nat, n: nat)
    ensures WritesDistance(c, x, n) <==>
            || (1 <= n <= 4 && c == n - 1 && x == 0)
            || (5 <= n <= 8 && c == 4 + (n - 5) / 2 && x == (n - 5) % 2)
            || (9 <= n <= 16 && c == 6 + (n - 9) / 4 && x == (n - 9) % 4)
            || (17 <= n <= 32 && c == 8 + (n - 17) / 8 && x == (n - 17) % 8)
            || (33 <= n <= 64 && c == 10 + (n - 33) / 16 && x == (n - 33) % 16)
            || (65 <= n <= 128 && c == 12 + (n - 65) / 32 && x == (n - 65) % 32)
            || (129 <= n <= 256 && c == 14 + (n - 129) / 64 && x == (n - 129) % 64)
            || (257 <= n <= 512 && c == 16 + (n - 257) / 128 && x == (n - 257) % 128)
            || (513 <= n <= 1024 && c == 18 + (n - 513) / 256 && x == (n - 513) % 256)
            || (1025 <= n <= 2048 && c == 20 + (n - 1025) / 512 && x == (n - 1025) % 512)
            || (2049 <= n <= 4096 && c == 22 + (n - 2049) / 1024 && x == (n - 2049) % 1024)
            || (4097 <= n <= 8192 && c == 24 + (n - 4097) / 2048 && x == (n - 4097) % 2048)
            || (8193 <= n <= 16384 && c == 26 + (n - 8193) / 4096 && x == (n - 8193) % 4096)
            || (16385 <= n <= 32768 && c == 28 + (n - 16385) / 8192 && x == (n - 16385) % 8192)
  {
    hide WritesDistance;
    if c < 8 {
      NearestCodes(c, x, n);
    } else if c < 14 {
      NearCodes(c, x, n);
    } else if c < 20 {
      MiddleCodes(c, x, n);
    } else if c < 26 {
      FarCodes(c, x, n);
    } else if c < 30 {
      FarthestCodes(c, x, n);
    } else {
      NoCode(c, x, n);
    }
  }

  lemma NoCode(c: nat, x: nat, n: nat)
    requires c > 29
    ensures !WritesDistance(c, x, n)
  {
  }

  // ---- Repetitions ----

  /** Code length symbol s with extra bits x stands for k code lengths. */
  predicate WritesRun(s: nat, x: nat, k: nat) {
    s < 19 && x < Pow2(RunExtra(s)) && k == RunLeast(s) + x
  }

  lemma RunCodes(s: nat, x: nat, k: nat)
    ensures WritesRun(s, x, k) <==>
            || (s <= 15 && x == 0 && k == 1)
            || (s == 16 && 3 <= k <= 6 && x == k - 3)
            || (s == 17 && 3 <= k <= 10 && x == k - 3)
            || (s == 18 && 11 <= k <= 138 && x == k - 11)
  {
    if s < 19 {
      Powers();
    }
  }
}
