/** The part size of a multipart upload, in the 64-bit arithmetic of the source. */
module PartSize {

  const WORD: nat := 0x1_0000_0000_0000_0000
  const AWS_MINIMUM_PART_SIZE: nat := 5242880

  function Max(a: nat, b: nat): nat {
    if a >= b then a else b
  }

  function Minimum(maxFileSize: nat, maxParts: nat): nat
    requires maxParts >= 1
  {
    Max(AWS_MINIMUM_PART_SIZE, maxFileSize / maxParts)
  }

  /** The minimum rounded up to a block multiple; the addition wraps around. */
  function PartSize(maxFileSize: nat, maxParts: nat, block: nat): int
    requires maxParts >= 1 && block >= 1
  {
    (Minimum(maxFileSize, maxParts) + block - 1) % WORD / block * block
  }

  /** The addition in the rounding does not leave 64 bits. */
  predicate Fits(maxFileSize: nat, maxParts: nat, block: nat)
    requires maxParts >= 1
  {
    Minimum(maxFileSize, maxParts) + block - 1 < WORD
  }

  lemma ProductGrows(a: nat, b: nat, k: nat)
    requires a <= b
    ensures a * k <= b * k
  {
  }

  lemma NextProduct(q: nat, k: nat)
    ensures (q + 1) * k == q * k + k
  {
  }

  /** Euclid: quotient and remainder are determined by the equation. */
  lemma Division(n: nat, block: nat, q: nat, r: nat)
    requires n == q * block + r && r < block
    ensures n / block == q && n % block == r
  {
    var d := n / block;
    assert n == d * block + n % block;
    if d < q {
      ProductGrows(d + 1, q, block);
      NextProduct(d, block);
    } else if q < d {
      ProductGrows(q + 1, d, block);
      NextProduct(q, block);
    }
  }

  lemma RoundUp(n: nat, block: nat)
    requires block >= 1
    ensures var r := (n + block - 1) / block * block;
      r % block == 0 && n <= r < n + block && (r == n <==> n % block == 0)
  {
    var k, rest := n / block, n % block;
    assert n == k * block + rest;
    NextProduct(k, block);
    if rest == 0 {
      Division(n + block - 1, block, k, block - 1);
      Division(k * block, block, k, 0);
    } else {
      Division(n + block - 1, block, k + 1, rest - 1);
      Division((k + 1) * block, block, k + 1, 0);
    }
  }

  /** The part size is a block multiple of at least 5 MiB if and only if the rounding fits into
      64 bits; otherwise it is zero. */
  lemma PartSizeIsLegal(maxFileSize: nat, maxParts: nat, block: nat)
    requires maxParts >= 1 && block >= 1 && maxFileSize < WORD && block < WORD
    ensures var p := PartSize(maxFileSize, maxParts, block);
      && p % block == 0
      && (p >= AWS_MINIMUM_PART_SIZE <==> Fits(maxFileSize, maxParts, block))
      && (!Fits(maxFileSize, maxParts, block) ==> p == 0)
      && (Fits(maxFileSize, maxParts, block) ==>
            && AWS_MINIMUM_PART_SIZE <= p && maxFileSize / maxParts <= p
            && (p < AWS_MINIMUM_PART_SIZE + block || p < maxFileSize / maxParts + block)
            && Minimum(maxFileSize, maxParts) <= p < Minimum(maxFileSize, maxParts) + block)
  {
    var n := Minimum(maxFileSize, maxParts);
    QuotientAtMost(maxFileSize, maxParts);
    var sum := n + block - 1;
    if sum < WORD {
      Division(sum, WORD, 0, sum);
      RoundUp(n, block);
    } else {
      Division(sum, WORD, 1, sum - WORD);
      Division(sum - WORD, block, 0, sum - WORD);
      Division(0, block, 0, 0);
    }
  }

  lemma QuotientAtMost(a: nat, b: nat)
    requires b >= 1
    ensures a / b <= a
  {
  }

  /** The parts together reach the maximum file size, as the assertion in the source demands,
      except when floor(max / parts) is at least 5 MiB and a block multiple already and the
      division leaves a remainder. Even then fewer than `maxParts` bytes are missing. */
  lemma PartsCoverFile(maxFileSize: nat, maxParts: nat, block: nat)
    requires maxParts >= 1 && block >= 1 && maxFileSize < WORD && block < WORD
    requires Fits(maxFileSize, maxParts, block)
    ensures var p, required := PartSize(maxFileSize, maxParts, block), maxFileSize / maxParts;
      && p * maxParts > maxFileSize - maxParts
      && (p * maxParts >= maxFileSize <==>
          !(required >= AWS_MINIMUM_PART_SIZE && required % block == 0 && maxFileSize % maxParts != 0))
  {
    var p, required := PartSize(maxFileSize, maxParts, block), maxFileSize / maxParts;
    PartSizeIsLegal(maxFileSize, maxParts, block);
    RoundUp(Minimum(maxFileSize, maxParts), block);
    var least, rest := required * maxParts, maxFileSize % maxParts;
    assert maxFileSize == least + rest;
    ProductGrows(required, p, maxParts);
    if p > required {
      ProductGrows(required + 1, p, maxParts);
      assert (required + 1) * maxParts == least + maxParts;
    }
  }

  /** The assertion does fail for sizes a user can set: 50000 MiB and one
      byte, say, in 10000 parts. */
  lemma AssertionFails()
    ensures var maxFileSize, maxParts, block := 52428800001, 10000, 262144;
      Fits(maxFileSize, maxParts, block) && PartSize(maxFileSize, maxParts, block) * maxParts < maxFileSize
  {
  }

  /** And the part size is zero for the largest file size in one part. */
  lemma PartSizeVanishes()
    ensures PartSize(WORD - 1, 1, 262144) == 0
  {
  }
}
