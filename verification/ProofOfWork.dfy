/** Proof of work: the test on leading zero bits, byte by byte with a mask, against the comparison of the
    hash as one large number with a power of two. */
module ProofOfWork {
  import opened Options
  import opened Encoding

  const HASH_BYTES: nat := 32
  const HASH_BITS: nat := 8 * HASH_BYTES

  function Pow2(n: nat): (p: nat)
    ensures p > 0
  {
    if n == 0 then 1 else 2 * Pow2(n - 1)
  }

  const MAX_NONCE: nat := 0x100_0000_0000 // two to the fortieth

  /** The bitwise and of two numbers. */
  function And(x: nat, y: nat): nat
    decreases x
  {
    if x == 0 || y == 0 then 0 else x % 2 * (y % 2) + 2 * And(x / 2, y / 2)
  }

  /** Shifting left. */
  function Shl(x: nat, s: nat): nat {
    if s == 0 then x else 2 * Shl(x, s - 1)
  }

  /** A hash read as one number, most significant byte first. */
  function Number(h: Bytes): nat {
    if h == [] then 0 else 256 * Number(h[..|h| - 1]) + h[|h| - 1]
  }

  /** One shifted left; a negative shift goes right and leaves nothing. */
  function ShiftedOne(n: int): nat {
    if n >= 0 then Pow2(n) else 0
  }

  /** The numeric test. */
  predicate BelowTarget(h: Bytes, difficulty: int) {
    Number(h) < ShiftedOne(HASH_BITS - difficulty)
  }

  /** Remainder and quotient as the source computes them: the quotient is rounded down, the remainder
      has the sign of the difficulty. */
  function ZeroBytes(difficulty: int): int {
    difficulty / 8
  }

  function RemainingBits(difficulty: int): int {
    if difficulty >= 0 then difficulty % 8 else -((-difficulty) % 8)
  }

  /** A byte beyond the end of the hash differs from zero but masks to zero. */
  predicate ZeroAt(h: Bytes, i: nat) {
    i < |h| && h[i] == 0
  }

  predicate MaskedZeroAt(h: Bytes, i: int, mask: nat) {
    0 <= i < |h| ==> And(h[i], mask) == 0
  }

  /** The byte-and-mask test. */
  predicate LeadingZeros(h: Bytes, difficulty: int) {
    && (forall i :: 0 <= i < ZeroBytes(difficulty) ==> ZeroAt(h, i))
    && (RemainingBits(difficulty) > 0 ==>
          MaskedZeroAt(h, ZeroBytes(difficulty), Shl(0xFF, 8 - RemainingBits(difficulty))))
  }

  // ------------------------------------------------------------------- masks

  function Halved(x: nat, s: nat): nat {
    if s == 0 then x else Halved(x / 2, s - 1)
  }

  lemma AndDouble(x: nat, y: nat)
    ensures And(x, 2 * y) == 2 * And(x / 2, y)
  {
    assert 2 * y % 2 == 0 && 2 * y / 2 == y;
  }

  lemma {:induction false} AndShifted(x: nat, m: nat, s: nat)
    ensures And(x, Shl(m, s)) == 0 <==> And(Halved(x, s), m) == 0
  {
    if s > 0 {
      AndDouble(x, Shl(m, s - 1));
      AndShifted(x / 2, m, s - 1);
    }
  }

  lemma {:induction false} HalvedZero(x: nat, s: nat)
    ensures Halved(x, s) <= x && (Halved(x, s) == 0 <==> x < Pow2(s))
  {
    if s > 0 {
      HalvedZero(x / 2, s - 1);
    }
  }

  lemma {:induction false} AndOnes(x: nat, k: nat)
    requires x < Pow2(k)
    ensures And(x, Pow2(k) - 1) == x
  {
    if x > 0 {
      AndOnes(x / 2, k - 1);
      assert (Pow2(k) - 1) % 2 == 1 && (Pow2(k) - 1) / 2 == Pow2(k - 1) - 1;
    }
  }

  lemma EightBits(k: nat)
    ensures Pow2(k + 8) == 256 * Pow2(k)
  {
    assert Pow2(k + 2) == 4 * Pow2(k);
    assert Pow2(k + 4) == 4 * Pow2(k + 2);
    assert Pow2(k + 6) == 4 * Pow2(k + 4);
    assert Pow2(k + 8) == 4 * Pow2(k + 6);
  }

  /** A byte passes the mask of its highest bits exactly when it is below the corresponding power of two. */
  lemma MaskIsBound(b: Byte, bits: nat)
    requires 0 < bits < 8
    ensures And(b, Shl(0xFF, 8 - bits)) == 0 <==> b < Pow2(8 - bits)
  {
    AndShifted(b, 0xFF, 8 - bits);
    HalvedZero(b, 8 - bits);
    EightBits(0);
    AndOnes(Halved(b, 8 - bits), 8);
  }

  // --------------------------------------------------------------- agreement

  lemma {:induction false} NumberBound(h: Bytes)
    ensures Number(h) < Pow2(8 * |h|)
  {
    if h != [] {
      NumberBound(h[..|h| - 1]);
      EightBits(8 * (|h| - 1));
    }
  }

  /** The first `q` bytes are zero, and so are the highest `r` bits of the next one. */
  predicate LeadingBitsZero(h: Bytes, q: nat, r: nat)
    requires r < 8 && q <= |h| && (r > 0 ==> q < |h|)
  {
    && (forall i :: 0 <= i < q ==> h[i] == 0)
    && (r > 0 ==> h[q] < Pow2(8 - r))
  }

  lemma BitsOfFront(h: Bytes, q: nat, r: nat)
    requires h != [] && r < 8 && q <= |h| && (r > 0 ==> q < |h|)
    ensures r > 0 && q == |h| - 1 ==>
      (LeadingBitsZero(h, q, r) <==> LeadingBitsZero(h[..|h| - 1], q, 0) && h[|h| - 1] < Pow2(8 - r))
    ensures q == |h| ==> (LeadingBitsZero(h, q, r) <==> LeadingBitsZero(h[..|h| - 1], q - 1, 0) && h[|h| - 1] == 0)
    ensures q < |h| - 1 || (q == |h| - 1 && r == 0) ==>
      (LeadingBitsZero(h, q, r) <==> LeadingBitsZero(h[..|h| - 1], q, r))
  {
    var front := h[..|h| - 1];
    assert forall i :: 0 <= i < |front| ==> front[i] == h[i];
  }

  /** For as many bits as there are, the number is below the power of two exactly when the leading bits
      are zero. */
  lemma {:induction false} NumberBelow(h: Bytes, q: nat, r: nat)
    requires r < 8 && q <= |h| && (r > 0 ==> q < |h|)
    ensures Number(h) < Pow2(8 * |h| - 8 * q - r) <==> LeadingBitsZero(h, q, r)
  {
    if h != [] {
      var front := h[..|h| - 1];
      BitsOfFront(h, q, r);
      if q < |front| || (q == |front| && r == 0) {
        NumberBelow(front, q, r);
        EightBits(8 * |front| - 8 * q - r);
      } else {
        NumberBelow(front, |front|, 0);
        EightBits(0);
        PowGrows(8 - r, 8);
      }
    }
  }

  lemma {:induction false} PowGrows(a: nat, b: nat)
    requires a <= b
    ensures Pow2(a) <= Pow2(b)
    decreases b
  {
    if a < b {
      PowGrows(a, b - 1);
    }
  }

  predicate AllZero(h: Bytes) {
    forall i :: 0 <= i < |h| ==> h[i] == 0
  }

  /** For every hash and every difficulty the two tests agree, except that for difficulties 257 to 263 the
      mask test still lets the hash of zeros through. */
  lemma TestsAgree(h: Bytes, difficulty: int)
    requires |h| == HASH_BYTES
    ensures LeadingZeros(h, difficulty) == BelowTarget(h, difficulty)
       <==> !(HASH_BITS < difficulty < HASH_BITS + 8 && AllZero(h))
  {
    if difficulty < 0 {
      NumberBound(h);
      PowGrows(HASH_BITS, HASH_BITS - difficulty);
    } else if difficulty <= HASH_BITS {
      NumberBelow(h, difficulty / 8, difficulty % 8);
      if difficulty % 8 > 0 {
        MaskIsBound(h[difficulty / 8], difficulty % 8);
      }
      assert forall i :: 0 <= i < difficulty / 8 ==> (ZeroAt(h, i) <==> h[i] == 0);
    } else if difficulty < HASH_BITS + 8 {
      assert ZeroBytes(difficulty) == HASH_BYTES;
      assert LeadingZeros(h, difficulty) <==> AllZero(h) by {
        assert forall i :: 0 <= i < |h| ==> (ZeroAt(h, i) <==> h[i] == 0);
      }
    } else {
      assert !ZeroAt(h, HASH_BYTES);
    }
  }

  // ------------------------------------------------------------ counting bits

  /** Bit `j` of a byte, counted from the most significant one. */
  function Bit(b: Byte, j: nat): nat
    requires j < 8
  {
    Halved(b, 7 - j) % 2
  }

  /** Bit `i` of a hash, the most significant bit of the first byte being bit 0. */
  function BitAt(h: Bytes, i: nat): nat
    requires i < 8 * |h|
  {
    Bit(h[i / 8], i % 8)
  }

  predicate ZeroBits(h: Bytes, n: nat)
    requires n <= 8 * |h|
  {
    forall i :: 0 <= i < n ==> BitAt(h, i) == 0
  }

  lemma {:induction false} HalvedBelowTwo(x: nat, s: nat)
    requires x < Pow2(s + 1)
    ensures Halved(x, s) < 2
  {
    if s > 0 {
      HalvedBelowTwo(x / 2, s - 1);
    }
  }

  predicate TopZero(b: Byte, r: nat)
    requires r <= 8
  {
    forall j :: 0 <= j < r ==> Bit(b, j) == 0
  }

  lemma {:induction false} TopBits(b: Byte, r: nat)
    requires r <= 8
    ensures TopZero(b, r) <==> b < Pow2(8 - r)
  {
    if r == 0 {
      EightBits(0);
    } else {
      TopBits(b, r - 1);
      HalvedZero(b, 8 - r);
      if b < Pow2(9 - r) {
        HalvedBelowTwo(b, 8 - r);
      }
      assert TopZero(b, r) <==> TopZero(b, r - 1) && Bit(b, r - 1) == 0;
    }
  }

  lemma ByteBits(h: Bytes, n: nat, i: nat, r: nat)
    requires n <= 8 * |h| && ZeroBits(h, n) && i < |h| && r <= 8 && 8 * i + r <= n
    ensures h[i] < Pow2(8 - r)
  {
    forall j | 0 <= j < r ensures Bit(h[i], j) == 0 {
      assert BitAt(h, 8 * i + j) == 0;
    }
    TopBits(h[i], r);
  }

  lemma BitsFromBytes(h: Bytes, q: nat, r: nat, i: nat)
    requires r < 8 && q <= |h| && (r > 0 ==> q < |h|) && LeadingBitsZero(h, q, r) && i < 8 * q + r
    ensures BitAt(h, i) == 0
  {
    var k := i / 8;
    if k < q {
      TopBits(h[k], 8);
      assert TopZero(h[k], 8);
    } else {
      TopBits(h[q], r);
      assert TopZero(h[q], r);
    }
  }

  /** A hash is below the target exactly when it starts with as many zero bits as the difficulty says. */
  lemma BelowTargetIsZeroBits(h: Bytes, difficulty: nat)
    requires |h| == HASH_BYTES && difficulty <= HASH_BITS
    ensures BelowTarget(h, difficulty) <==> ZeroBits(h, difficulty)
  {
    var q, r := difficulty / 8, difficulty % 8;
    NumberBelow(h, q, r);
    if LeadingBitsZero(h, q, r) {
      forall i | 0 <= i < difficulty ensures BitAt(h, i) == 0 {
        BitsFromBytes(h, q, r, i);
      }
    }
    if ZeroBits(h, difficulty) {
      forall i | 0 <= i < q ensures h[i] == 0 {
        ByteBits(h, difficulty, i, 8);
      }
      if r > 0 {
        ByteBits(h, difficulty, q, r);
      }
    }
  }

  // ---------------------------------------------------------------- the search

  function Input(messageHash: string, nonce: string): string {
    messageHash + ":" + nonce
  }

  /** The hashed text is bound to the message: for message hashes without a colon, as hexadecimal ones are,
      two texts are equal only if message and nonce are. */
  lemma InputBinds(messageHash: string, nonce: string, messageHash': string, nonce': string)
    requires ':' !in messageHash && ':' !in messageHash'
    ensures Input(messageHash, nonce) == Input(messageHash', nonce') <==> messageHash == messageHash' && nonce == nonce'
  {
    if Input(messageHash, nonce) == Input(messageHash', nonce') {
      ColonSplit(messageHash, nonce, messageHash', nonce');
    }
  }

  /** The loop of the search: it counts up from zero and gives up past the limit. */
  method FirstAccepted(accepts: nat -> bool, limit: nat) returns (found: Option<nat>)
    ensures found.Some? ==>
      found.value <= limit && accepts(found.value) && forall n: nat :: n < found.value ==> !accepts(n)
    ensures found.None? ==> forall n: nat :: n <= limit ==> !accepts(n)
  {
    var nonce := 0;
    while true
      invariant nonce <= limit
      invariant forall n: nat :: n < nonce ==> !accepts(n)
      decreases limit - nonce
    {
      if accepts(nonce) {
        return Some(nonce);
      }
      nonce := nonce + 1;
      if nonce > limit {
        return None;
      }
    }
  }

  /** The search returns the least nonce that the verification accepts, or gives up when none up to two to
      the fortieth is accepted. */
  method ComputeProofOfWork(hash: string -> Bytes, messageHash: string, difficulty: int) returns (found: Option<nat>)
    ensures found.Some? ==>
      && found.value <= 1_099_511_627_776
      && BelowTarget(hash(messageHash + ":" + Decimal(found.value)), difficulty)
      && forall n: nat :: n < found.value ==> !BelowTarget(hash(messageHash + ":" + Decimal(n)), difficulty)
    ensures found.None? ==>
      forall n: nat :: n <= 1_099_511_627_776 ==> !BelowTarget(hash(messageHash + ":" + Decimal(n)), difficulty)
  {
    var target := ShiftedOne(HASH_BITS - difficulty);
    var accepts := (n: nat) => Number(hash(Input(messageHash, Decimal(n)))) < target;
    forall n: nat ensures accepts(n) == BelowTarget(hash(messageHash + ":" + Decimal(n)), difficulty) {
      assert Input(messageHash, Decimal(n)) == messageHash + ":" + Decimal(n);
    }
    found := FirstAccepted(accepts, MAX_NONCE);
  }

  /** A proof is accepted exactly when its hash starts with as many zero bits as the difficulty says; any
      hash will do for a difficulty of zero or less, none for one beyond the length of the hash. */
  method VerifyProofOfWork(hash: string -> Bytes, messageHash: string, nonce: string, difficulty: int)
    returns (valid: bool)
    ensures var h := hash(messageHash + ":" + nonce);
            && (valid <==> BelowTarget(h, difficulty))
            && (|h| == HASH_BYTES ==>
                  (valid <==> difficulty <= 0 || (difficulty <= HASH_BITS && ZeroBits(h, difficulty))))
  {
    var target := ShiftedOne(HASH_BITS - difficulty);
    var h := hash(Input(messageHash, nonce));
    valid := Number(h) < target;
    if |h| == HASH_BYTES {
      if 0 <= difficulty <= HASH_BITS {
        BelowTargetIsZeroBits(h, difficulty);
      } else if difficulty < 0 {
        NumberBound(h);
        PowGrows(HASH_BITS, HASH_BITS - difficulty);
      }
    }
  }

  // ------------------------------------------------------------- the limiter

  datatype Challenge = Challenge(challenge: string, senderId: string, expiresAt: nat)

  datatype Verdict = Valid | ChallengeExpired | InsufficientWork

  const MIN_DIFFICULTY: nat := 8

  function Reduction(baseDifficulty: nat, share: real): int {
    (baseDifficulty as real * share * 0.5).Floor
  }

  /** Half of the reputation's share of the base difficulty is taken off, down to eight bits. */
  function Difficulty(baseDifficulty: nat, reputation: real): int {
    var reduced := baseDifficulty - Reduction(baseDifficulty, reputation / 100.0);
    if reduced > MIN_DIFFICULTY then reduced else MIN_DIFFICULTY
  }

  lemma ReductionGrows(baseDifficulty: nat, low: real, high: real)
    requires low <= high
    ensures Reduction(baseDifficulty, low) <= Reduction(baseDifficulty, high)
  {
    assert baseDifficulty as real * (high - low) >= 0.0;
    assert baseDifficulty as real * high == baseDifficulty as real * low + baseDifficulty as real * (high - low);
  }

  lemma ReductionEnds(baseDifficulty: nat)
    ensures Reduction(baseDifficulty, 0.0) == 0 && 2 * Reduction(baseDifficulty, 1.0) <= baseDifficulty
  {
    assert baseDifficulty as real * 1.0 * 0.5 == baseDifficulty as real * 0.5;
  }

  /** The difficulty is the least number of bits that is at least eight and not below the base less half the
      reputation's share of it. */
  lemma DifficultyExactly(baseDifficulty: nat, reputation: real, d: int)
    requires d == Difficulty(baseDifficulty, reputation)
    ensures var eased := baseDifficulty as real - baseDifficulty as real * (reputation / 100.0) * 0.5;
            d >= 8 && d as real >= eased && (d == 8 || (d - 1) as real < eased)
  {
  }

  /** More reputation never makes the work harder; it stays between eight bits and the base, and full
      reputation halves the base at most. */
  lemma DifficultyEases(baseDifficulty: nat, low: real, high: real)
    requires 0.0 <= low <= high <= 100.0
    ensures MIN_DIFFICULTY <= Difficulty(baseDifficulty, high) <= Difficulty(baseDifficulty, low)
    ensures Difficulty(baseDifficulty, low)
         <= if baseDifficulty > MIN_DIFFICULTY then baseDifficulty else MIN_DIFFICULTY
    ensures 2 * Difficulty(baseDifficulty, high) >= baseDifficulty
  {
    ReductionEnds(baseDifficulty);
    ReductionGrows(baseDifficulty, 0.0, low / 100.0);
    ReductionGrows(baseDifficulty, low / 100.0, high / 100.0);
    ReductionGrows(baseDifficulty, high / 100.0, 1.0);
  }

  function ChallengeInput(c: Challenge, nonce: string): string {
    c.challenge + ":" + c.senderId + ":" + nonce
  }

  /** The solution of a challenge is bound to challenge, sender and nonce: for challenges and nonces without
      a colon two texts are equal only if all three are, whatever the senders' names. */
  lemma ChallengeBinds(c: Challenge, nonce: string, c': Challenge, nonce': string)
    requires ':' !in c.challenge && ':' !in c'.challenge && ':' !in nonce && ':' !in nonce'
    ensures ChallengeInput(c, nonce) == ChallengeInput(c', nonce')
       <==> c.challenge == c'.challenge && c.senderId == c'.senderId && nonce == nonce'
  {
    if ChallengeInput(c, nonce) == ChallengeInput(c', nonce') {
      LastColonSplit(c.challenge + ":" + c.senderId, nonce, c'.challenge + ":" + c'.senderId, nonce');
      ColonSplit(c.challenge, c.senderId, c'.challenge, c'.senderId);
    }
  }

  /** With a colon in the nonce one text serves two senders. */
  lemma ColonInNonceUnbinds(challenge: string, a: string, b: string, nonce: string, expiresAt: nat)
    ensures ChallengeInput(Challenge(challenge, a + ":" + b, expiresAt), nonce)
         == ChallengeInput(Challenge(challenge, a, expiresAt), b + ":" + nonce)
  {
  }

  /** The loop over the leading bytes. */
  method CheckLeadingZeros(h: Bytes, difficulty: int) returns (valid: bool)
    ensures valid <==> LeadingZeros(h, difficulty)
  {
    var requiredZeroBytes := ZeroBytes(difficulty);
    var remainingBits := RemainingBits(difficulty);
    var i := 0;
    while i < requiredZeroBytes
      invariant 0 <= i && forall k :: 0 <= k < i ==> ZeroAt(h, k)
    {
      if i >= |h| || h[i] != 0 {
        assert !ZeroAt(h, i);
        return false;
      }
      i := i + 1;
    }
    if remainingBits > 0 {
      var mask := Shl(0xFF, 8 - remainingBits);
      if 0 <= requiredZeroBytes < |h| && And(h[requiredZeroBytes], mask) != 0 {
        return false;
      }
    }
    valid := true;
  }

  /** The verification is run without a reputation, so at the base difficulty or eight bits. For hashes of
      32 bytes its answer is that of the numeric test unless the difficulty is one of 257 to 263. */
  method VerifyProof(hash: string -> Bytes, baseDifficulty: nat, c: Challenge, nonce: string, now: nat)
    returns (v: Verdict)
    ensures v == ChallengeExpired <==> now > c.expiresAt
    ensures now <= c.expiresAt ==>
      var h := hash(c.challenge + ":" + c.senderId + ":" + nonce);
      var difficulty := if baseDifficulty > 8 then baseDifficulty else 8;
      && (v == Valid <==> LeadingZeros(h, difficulty))
      && (|h| == HASH_BYTES && difficulty <= HASH_BITS ==> (v == Valid <==> BelowTarget(h, difficulty)))
  {
    if now > c.expiresAt {
      return ChallengeExpired;
    }
    var h := hash(ChallengeInput(c, nonce));
    var difficulty := Difficulty(baseDifficulty, 0.0);
    if |h| == HASH_BYTES {
      TestsAgree(h, difficulty);
    }
    var enough := CheckLeadingZeros(h, difficulty);
    v := if enough then Valid else InsufficientWork;
  }
}
