/**
  An independent reading of the binomial tail: under the null hypothesis each
  of n rounds is guessed right or wrong with probability 1/2, so the 2^n
  records of right/wrong answers are equally likely. Records(n) lists them
  all, once each, and CountAtLeast counts those with at least c right answers.
 */
module GuessRecords {
  import opened Binomial

  /** Number of right answers (true entries) in a record. */
  function Hits(s: seq<bool>): (h: nat)
    ensures h <= |s|
  {
    if |s| == 0 then 0 else Hits(s[..|s| - 1]) + (if s[|s| - 1] then 1 else 0)
  }

  /** Every record of ss with one more round, answered b, appended. */
  function Extend(ss: seq<seq<bool>>, b: bool): (r: seq<seq<bool>>)
    ensures |r| == |ss|
  {
    if ss == [] then [] else [ss[0] + [b]] + Extend(ss[1..], b)
  }

  /** All records of n rounds: the records of n - 1 rounds ending in a wrong
      answer, then those ending in a right answer. */
  function Records(n: nat): seq<seq<bool>>
  {
    if n == 0 then [[]] else Extend(Records(n - 1), false) + Extend(Records(n - 1), true)
  }

  /** How many records of ss have at least c right answers. */
  function CountAtLeast(ss: seq<seq<bool>>, c: int): (k: nat)
    ensures k <= |ss|
  {
    if ss == [] then 0
    else (if Hits(ss[0]) >= c then 1 else 0) + CountAtLeast(ss[1..], c)
  }

  ghost predicate Distinct(ss: seq<seq<bool>>)
  {
    forall i, j :: 0 <= i < j < |ss| ==> ss[i] != ss[j]
  }

  lemma HitsAppend(s: seq<bool>, b: bool)
    ensures Hits(s + [b]) == Hits(s) + (if b then 1 else 0)
  {
    assert (s + [b])[..|s|] == s;
  }

  lemma {:induction false} ExtendAt(ss: seq<seq<bool>>, b: bool, i: nat)
    requires i < |ss|
    ensures Extend(ss, b)[i] == ss[i] + [b]
  {
    if i > 0 {
      ExtendAt(ss[1..], b, i - 1);
    }
  }

  lemma {:induction false} CountConcat(a: seq<seq<bool>>, b: seq<seq<bool>>, c: int)
    ensures CountAtLeast(a + b, c) == CountAtLeast(a, c) + CountAtLeast(b, c)
  {
    if a != [] {
      assert (a + b)[0] == a[0];
      assert (a + b)[1..] == a[1..] + b;
      CountConcat(a[1..], b, c);
    } else {
      assert a + b == b;
    }
  }

  /** Appending a right answer lowers every record's distance to the threshold by one. */
  lemma {:induction false} CountExtend(ss: seq<seq<bool>>, b: bool, c: int)
    ensures CountAtLeast(Extend(ss, b), c) == CountAtLeast(ss, if b then c - 1 else c)
  {
    if ss != [] {
      HitsAppend(ss[0], b);
      CountExtend(ss[1..], b, c);
    }
  }

  lemma {:induction false} CountAll(ss: seq<seq<bool>>, c: int)
    requires c <= 0
    ensures CountAtLeast(ss, c) == |ss|
  {
    if ss != [] {
      CountAll(ss[1..], c);
    }
  }

  /** There are 2^n records of n rounds. */
  lemma {:induction false} RecordsCount(n: nat)
    ensures |Records(n)| == Pow2(n)
  {
    if n > 0 {
      RecordsCount(n - 1);
    }
  }

  /** Every record has n rounds, and every sequence of n answers is a record. */
  lemma {:induction false} RecordsExact(n: nat, s: seq<bool>)
    ensures s in Records(n) <==> |s| == n
  {
    if n == 0 {
    } else {
      var r := Records(n - 1);
      if s in Records(n) {
        var i :| 0 <= i < |Records(n)| && Records(n)[i] == s;
        var b := i >= |r|;
        var j := if b then i - |r| else i;
        ExtendAt(r, b, j);
        RecordsExact(n - 1, r[j]);
      }
      if |s| == n {
        var t := s[..n - 1];
        assert s == t + [s[n - 1]];
        RecordsExact(n - 1, t);
        var j :| 0 <= j < |r| && r[j] == t;
        ExtendAt(r, s[n - 1], j);
        if s[n - 1] {
          assert Records(n)[|r| + j] == s;
        } else {
          assert Records(n)[j] == s;
        }
      }
    }
  }

  lemma {:induction false} ExtendDistinct(ss: seq<seq<bool>>, b: bool)
    requires Distinct(ss)
    ensures Distinct(Extend(ss, b))
  {
    forall i, j | 0 <= i < j < |ss|
      ensures Extend(ss, b)[i] != Extend(ss, b)[j]
    {
      ExtendAt(ss, b, i);
      ExtendAt(ss, b, j);
      var x, y := ss[i] + [b], ss[j] + [b];
      assert x[..|x| - 1] == ss[i];
      assert y[..|y| - 1] == ss[j];
    }
  }

  /** No record is listed twice, so each is one of 2^n equally likely outcomes. */
  lemma {:induction false} RecordsDistinct(n: nat)
    ensures Distinct(Records(n))
  {
    if n > 0 {
      var r := Records(n - 1);
      RecordsDistinct(n - 1);
      ExtendDistinct(r, false);
      ExtendDistinct(r, true);
      var lo, hi := Extend(r, false), Extend(r, true);
      forall i, j | 0 <= i < |r| && 0 <= j < |r|
        ensures lo[i] != hi[j]
      {
        ExtendAt(r, false, i);
        ExtendAt(r, true, j);
        RecordsExact(n - 1, r[i]);
        RecordsExact(n - 1, r[j]);
        assert lo[i][n - 1] != hi[j][n - 1];
      }
      forall i, j | 0 <= i < j < |Records(n)|
        ensures Records(n)[i] != Records(n)[j]
      {
        if j < |r| {
          assert Records(n)[i] == lo[i] && Records(n)[j] == lo[j];
        } else if i >= |r| {
          assert Records(n)[i] == hi[i - |r|] && Records(n)[j] == hi[j - |r|];
        } else {
          assert Records(n)[i] == lo[i] && Records(n)[j] == hi[j - |r|];
        }
      }
    }
  }

  /** A record of n + 1 rounds with at least c right answers is one of n rounds
      with at least c followed by a wrong answer, or with at least c - 1
      followed by a right one. */
  lemma CountRecordsStep(n: nat, c: int)
    ensures CountAtLeast(Records(n + 1), c) == CountAtLeast(Records(n), c) + CountAtLeast(Records(n), c - 1)
  {
    var r := Records(n);
    assert Records(n + 1) == Extend(r, false) + Extend(r, true);
    CountConcat(Extend(r, false), Extend(r, true), c);
    CountExtend(r, false, c);
    CountExtend(r, true, c);
  }

  lemma CountRecordsZero(c: nat)
    ensures CountAtLeast(Records(0), c) == Tail(0, c)
  {
    var r := Records(0);
    assert r == [[]];
    assert r[1..] == [];
    assert Hits(r[0]) == 0;
  }

  /** Every one of the 2^n records has at least zero right answers. */
  lemma CountRecordsAll(n: nat)
    ensures CountAtLeast(Records(n), 0) == Tail(n, 0)
  {
    RecordsCount(n);
    CountAll(Records(n), 0);
    TailFromZero(n);
  }

  /** The counting meaning of the tail: Tail(n, c) is the number of records of
      n rounds with at least c right answers. */
  lemma {:induction false} TailCountsRecords(n: nat, c: nat)
    ensures CountAtLeast(Records(n), c) == Tail(n, c)
  {
    if n == 0 {
      CountRecordsZero(c);
    } else if c == 0 {
      CountRecordsAll(n);
    } else {
      var m := n - 1;
      TailCountsRecords(m, c);
      TailCountsRecords(m, c - 1);
      CountRecordsStep(m, c);
      TailPascal(m, c);
      assert CountAtLeast(Records(n), c) == CountAtLeast(Records(m), c) + CountAtLeast(Records(m), c - 1);
      assert Tail(n, c) == Tail(m, c) + Tail(m, c - 1);
    }
  }
}
