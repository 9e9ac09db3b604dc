/** Fill chunks: what the script's inner loop leaves in the place of one, and when that is what is meant.

    The loop writes whole words, back to back, `blk_sz // 4` of them for every block, into a place that was
    zero.  What is meant is that every block of the chunk starts the word afresh and is filled to its end.
    The two agree byte by byte when a block holds whole words.  When it does not, they agree exactly when
    the bytes that fall out of place, or are left zero, were to be zero. */
module SparseFills {
  import opened ByteFile
  import opened Sparse

  /** What is meant: every block starts the fill word afresh. */
  function FillBlocks(word: seq<byte>, blkSz: nat, blocks: nat): (s: seq<byte>)
    requires |word| == 4
    ensures |s| == blocks * blkSz
  {
    if blkSz == 0 then []
    else seq(blocks * blkSz, j requires 0 <= j < blocks * blkSz => word[j % blkSz % 4])
  }

  /** What the script leaves: whole words only, back to back, in a place that was zero. */
  function FillLeft(word: seq<byte>, blkSz: nat, blocks: nat): (s: seq<byte>)
    ensures |s| == blocks * blkSz
  {
    Resize(FillBytes(word, blkSz, blocks), blocks * blkSz)
  }

  predicate ZeroBefore(word: seq<byte>, n: nat)
    requires n <= |word|
  {
    forall k :: 0 <= k < n ==> word[k] == 0
  }

  /** A block of whole words, or only zeros where the words do not fall into place: at the end of the
      only block, in blocks shorter than a word, and otherwise everywhere. */
  predicate FillCompletes(word: seq<byte>, blkSz: nat, blocks: nat)
    requires |word| == 4
  {
    || blkSz % 4 == 0 || blocks == 0
    || ZeroBefore(word, if blocks == 1 || blkSz < 4 then blkSz % 4 else 4)
  }

  // ----- Byte by byte

  lemma {:induction false} RepeatIndex(s: seq<byte>, n: nat, j: nat)
    requires j < |s| * n
    ensures |s| > 0 && Repeat(s, n)[j] == s[j % |s|]
  {
    assert n > 0;
    assert |s| * n == |s| * (n - 1) + |s|;
    if j < |s| * (n - 1) {
      RepeatIndex(s, n - 1, j);
    } else {
      Remainder(j, |s|, n - 1);
    }
  }

  lemma Remainder(j: nat, m: nat, q: nat)
    requires m * q <= j < m * q + m
    ensures j % m == j - m * q
  {
    var d := Quotient(j, m);
    if d < q {
      Gap(m, d, q);
    } else if q < d {
      Gap(m, q, d);
    }
  }

  lemma Quotient(j: nat, m: nat) returns (d: nat)
    requires m > 0
    ensures j == m * d + j % m && 0 <= j % m < m
  {
    d := j / m;
  }

  lemma Gap(m: nat, a: nat, b: nat)
    requires a < b
    ensures m * a + m <= m * b
  {
    Distribute(m, a, 1);
    Distribute(m, a + 1, b - a - 1);
    assert a + 1 + (b - a - 1) == b;
  }

  lemma Distribute(m: nat, a: nat, b: nat)
    ensures m * (a + b) == m * a + m * b
  {
  }

  lemma Commute(a: nat, b: nat)
    ensures a * b == b * a
  {
  }

  lemma WordOfWords(j: nat, n: nat, q: nat)
    requires n == 4 * q && q > 0
    ensures j % n % 4 == j % 4
  {
    var d := Quotient(j, n);
    FourTimes(n, q, d);
    WordsAside(j, q * d, j % n);
  }

  lemma FourTimes(n: nat, q: nat, d: nat)
    requires n == 4 * q
    ensures n * d == 4 * (q * d)
  {
  }

  lemma WordsAside(j: nat, m: nat, t: nat)
    requires j == 4 * m + t
    ensures j % 4 == t % 4
  {
  }

  /** How far the whole words reach. */
  function Reach(blkSz: nat, blocks: nat): nat {
    (4 * (blkSz / 4)) * blocks
  }

  lemma FilledAt(word: seq<byte>, blkSz: nat, blocks: nat, j: nat)
    requires |word| == 4 && j < blocks * blkSz
    ensures FillLeft(word, blkSz, blocks)[j] == if j < Reach(blkSz, blocks) then word[j % 4] else 0
  {
    var q := blkSz / 4;
    var block := Repeat(word, q);
    var n := |block|;
    assert n == 4 * q && |FillBytes(word, blkSz, blocks)| == Reach(blkSz, blocks);
    if j < Reach(blkSz, blocks) {
      RepeatIndex(block, blocks, j);
      RepeatIndex(word, q, j % n);
      WordOfWords(j, n, q);
    }
  }

  lemma MeantAt(word: seq<byte>, blkSz: nat, blocks: nat, b: nat, o: nat)
    requires |word| == 4 && b < blocks && o < blkSz
    ensures b * blkSz + o < blocks * blkSz
    ensures FillBlocks(word, blkSz, blocks)[b * blkSz + o] == word[o % 4]
  {
    Position(b, o, blkSz, blocks);
  }

  lemma Position(b: nat, o: nat, blkSz: nat, blocks: nat)
    requires b < blocks && o < blkSz
    ensures b * blkSz + o < blocks * blkSz && (b * blkSz + o) % blkSz == o
  {
    Gap(blkSz, b, blocks);
    Commute(blkSz, b);
    Commute(blkSz, blocks);
    Remainder(b * blkSz + o, blkSz, b);
  }

  /** The whole words do not reach beyond the chunk. */
  lemma FillNoLonger(word: seq<byte>, blkSz: nat, blocks: nat)
    requires |word| == 4
    ensures |FillBytes(word, blkSz, blocks)| <= blocks * blkSz
  {
    assert |Repeat(word, blkSz / 4)| == 4 * (blkSz / 4);
    Distribute(blocks, 4 * (blkSz / 4), blkSz % 4);
    Commute(blocks, 4 * (blkSz / 4));
  }

  // ----- When the script fills as is meant

  lemma CompletesAt(word: seq<byte>, blkSz: nat, blocks: nat, j: nat)
    requires |word| == 4 && FillCompletes(word, blkSz, blocks) && j < blocks * blkSz
    ensures FillLeft(word, blkSz, blocks)[j] == FillBlocks(word, blkSz, blocks)[j]
  {
    FilledAt(word, blkSz, blocks, j);
    NonZero(blocks, blkSz);
    if blkSz % 4 == 0 {
      WholeWords(j, blkSz, blocks);
    } else if blocks == 1 {
      OnlyBlock(j, blkSz);
    } else if blkSz < 4 {
      ShortBlock(j, blkSz, blocks);
    }
  }

  lemma WholeWords(j: nat, blkSz: nat, blocks: nat)
    requires j < blocks * blkSz && blkSz > 0 && blkSz % 4 == 0
    ensures j < Reach(blkSz, blocks) && j % blkSz % 4 == j % 4
  {
    Commute(blkSz, blocks);
    WordOfWords(j, blkSz, blkSz / 4);
  }

  lemma OnlyBlock(j: nat, blkSz: nat)
    requires j < blkSz
    ensures j % blkSz % 4 == j % 4 && (j >= Reach(blkSz, 1) ==> j % 4 < blkSz % 4)
  {
    Remainder(j, blkSz, 0);
  }

  lemma NonZero(a: nat, b: nat)
    ensures a == 0 || b == 0 ==> a * b == 0
  {
  }

  lemma ShortBlock(j: nat, blkSz: nat, blocks: nat)
    requires 0 < blkSz < 4
    ensures Reach(blkSz, blocks) == 0 && j % blkSz % 4 < blkSz
  {
    assert blkSz / 4 == 0;
    NonZero(0, blocks);
  }

  /** The zeros that a block of broken words calls for. */
  lemma NeedsZeros(word: seq<byte>, blkSz: nat, blocks: nat)
    requires |word| == 4 && blkSz % 4 != 0 && blocks > 0
    requires FillLeft(word, blkSz, blocks) == FillBlocks(word, blkSz, blocks)
    ensures ZeroBefore(word, if blocks == 1 || blkSz < 4 then blkSz % 4 else 4)
  {
    var q, r := blkSz / 4, blkSz % 4;
    forall k | 0 <= k < r
      ensures word[k] == 0
    {
      ZeroInLastBlock(word, blkSz, blocks, 4 * q + k);
    }
    if blocks > 1 && q > 0 {
      Gap(r, 0, blocks - 1);
      ZeroInLastBlock(word, blkSz, blocks, 4 * q - 1);
      if r == 1 {
        SameInSecondBlock(word, blkSz, blocks, 0);
        SameInSecondBlock(word, blkSz, blocks, 1);
      } else {
        ZeroInLastBlock(word, blkSz, blocks, 4 * q - 2);
      }
    }
  }

  lemma ZeroInLastBlock(word: seq<byte>, blkSz: nat, blocks: nat, o: nat)
    requires |word| == 4 && blocks > 0 && o < blkSz
    requires FillLeft(word, blkSz, blocks) == FillBlocks(word, blkSz, blocks)
    requires 4 * (blkSz / 4) <= (blkSz % 4) * (blocks - 1) + o
    ensures word[o % 4] == 0
  {
    BeyondReach(blkSz, blocks, o);
    MeantAt(word, blkSz, blocks, blocks - 1, o);
    ZeroBeyondReach(word, blkSz, blocks, (blocks - 1) * blkSz + o);
  }

  lemma ZeroBeyondReach(word: seq<byte>, blkSz: nat, blocks: nat, j: nat)
    requires |word| == 4 && Reach(blkSz, blocks) <= j < blocks * blkSz
    ensures FillLeft(word, blkSz, blocks)[j] == 0
  {
    FilledAt(word, blkSz, blocks, j);
  }

  lemma BeyondReach(blkSz: nat, blocks: nat, o: nat)
    requires blocks > 0 && 4 * (blkSz / 4) <= (blkSz % 4) * (blocks - 1) + o
    ensures Reach(blkSz, blocks) <= (blocks - 1) * blkSz + o
  {
    SplitBlocks(4 * (blkSz / 4), blkSz % 4, blkSz, blocks - 1);
  }

  lemma SplitBlocks(whole: nat, r: nat, blkSz: nat, b: nat)
    requires blkSz == whole + r
    ensures b * blkSz == whole * b + r * b && whole * (b + 1) == whole * b + whole
  {
    Distribute(whole, b, 1);
    Distribute(b, whole, r);
    Commute(b, whole);
    Commute(b, r);
  }

  lemma SameInSecondBlock(word: seq<byte>, blkSz: nat, blocks: nat, o: nat)
    requires |word| == 4 && blocks > 1 && blkSz % 4 == 1 && blkSz >= 4 && o < 2
    requires FillLeft(word, blkSz, blocks) == FillBlocks(word, blkSz, blocks)
    ensures word[o + 1] == word[o]
  {
    var q := blkSz / 4;
    MeantAt(word, blkSz, blocks, 1, o);
    FilledAt(word, blkSz, blocks, blkSz + o);
    Gap(4 * q, 1, blocks);
  }

  /** The script fills a chunk as is meant exactly when its words fall into place or are zero where they do not. */
  lemma FillsRightIff(word: seq<byte>, blkSz: nat, blocks: nat)
    requires |word| == 4
    ensures FillLeft(word, blkSz, blocks) == FillBlocks(word, blkSz, blocks) <==> FillCompletes(word, blkSz, blocks)
  {
    if FillCompletes(word, blkSz, blocks) {
      forall j | 0 <= j < blocks * blkSz
        ensures FillLeft(word, blkSz, blocks)[j] == FillBlocks(word, blkSz, blocks)[j]
      {
        CompletesAt(word, blkSz, blocks, j);
      }
    } else if FillLeft(word, blkSz, blocks) == FillBlocks(word, blkSz, blocks) {
      NeedsZeros(word, blkSz, blocks);
    }
  }
}
