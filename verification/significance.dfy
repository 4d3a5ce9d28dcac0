/**
  The one-sided exact binomial test the trial engine reports after each
  guess: the probability, if the listener were guessing at random (each
  answer right with probability 1/2), of at least `correct` right answers in
  `tries` rounds. Kept as an exact rational instead of a float.
 */
module Significance {
  import opened Binomial
  import opened GuessRecords

  /** A share of `whole` lies in (0, 1] when the part is at least 1 and at most the whole. */
  lemma ShareBounds(part: nat, whole: nat)
    requires 1 <= part <= whole
    ensures 0.0 < part as real / whole as real <= 1.0
  {
  }

  /** Dividing by the same positive whole keeps strict order. */
  lemma ShareLess(lo: nat, hi: nat, whole: nat)
    requires lo < hi && 1 <= whole
    ensures lo as real / whole as real < hi as real / whole as real
  {
  }

  /** P(K >= correct) for K ~ Binomial(tries, 1/2). */
  function PValue(correct: nat, tries: nat): (p: real)
    requires correct <= tries
    ensures 0.0 < p <= 1.0
  {
    TailBounds(tries, correct);
    ShareBounds(Tail(tries, correct), Pow2(tries));
    Tail(tries, correct) as real / Pow2(tries) as real
  }

  /** The p-value is the share, among the 2^tries equally likely records of
      right and wrong answers (all of them, none twice), of those with at
      least `correct` right answers. */
  lemma PValueIsShareOfRecords(correct: nat, tries: nat)
    requires correct <= tries
    ensures Distinct(Records(tries))
    ensures forall s :: s in Records(tries) <==> |s| == tries
    ensures |Records(tries)| == Pow2(tries)
    ensures PValue(correct, tries) == CountAtLeast(Records(tries), correct) as real / |Records(tries)| as real
  {
    RecordsDistinct(tries);
    forall s
      ensures s in Records(tries) <==> |s| == tries
    {
      RecordsExact(tries, s);
    }
    TailCountsRecords(tries, correct);
    RecordsCount(tries);
  }

  /** With no right answers the p-value is 1, whatever the number of tries;
      in particular before the first guess. */
  lemma PValueNoneCorrect(tries: nat)
    ensures PValue(0, tries) == 1.0
  {
    TailFromZero(tries);
    var whole := Pow2(tries) as real;
    assert PValue(0, tries) == whole / whole;
  }

  /** With every answer right the p-value is 1 / 2^tries. */
  lemma PValueAllCorrect(tries: nat)
    ensures PValue(tries, tries) == 1.0 / Pow2(tries) as real
  {
    TailAtTop(tries);
  }

  /** Each further right answer in a perfect run halves the p-value. */
  lemma PValuePerfectRunHalves(tries: nat)
    ensures PValue(tries + 1, tries + 1) == PValue(tries, tries) / 2.0
    ensures PValue(tries + 1, tries + 1) < PValue(tries, tries)
  {
    PValueAllCorrect(tries);
    PValueAllCorrect(tries + 1);
  }

  /** For a fixed number of tries, one more right answer gives a strictly
      smaller p-value. */
  lemma PValueDecreasesWithCorrect(correct: nat, tries: nat)
    requires correct < tries
    ensures PValue(correct + 1, tries) < PValue(correct, tries)
  {
    TailStep(tries, correct);
    ShareLess(Tail(tries, correct + 1), Tail(tries, correct), Pow2(tries));
  }

  /** Worked values: 1/2 after one right answer in one try, 1/32 after five
      out of five. */
  lemma PValuePerfectExamples()
    ensures PValue(1, 1) == 0.5
    ensures PValue(5, 5) == 0.03125
  {
    PValueAllCorrect(1);
    PValueAllCorrect(5);
    assert Pow2(5) == 32;
  }

  /** A worked value off the extremes: 3/4 after one right answer in two tries. */
  lemma PValueOneOfTwo()
    ensures PValue(1, 2) == 0.75
  {
    assert Choose(2, 1) == 2 && Choose(2, 2) == 1;
    assert Tail(2, 1) == 3;
    assert Pow2(2) == 4;
  }
}
