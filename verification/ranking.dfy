/**
  Ranking the detector's scores and picking the boxes to draw.

  Every score is paired with its row index, the pairs are sorted by score,
  highest first, with a stable sort (pairs with equal scores keep their
  index order), and the first four pairs are walked, stopping at the first
  score below 0.8. Scores are plain ordered keys here.
*/
module Ranking {

  /** A row index of the detector output with its score. */
  datatype Scored = Scored(index: nat, score: real)

  /** Score below which the walk over the ranked list stops. */
  const ScoreThreshold: real := 0.8
  /** How many ranked entries are looked at, at most. */
  const MaxDrawn: nat := 4

  /** The scores paired with their positions, in position order. */
  function Enumerate(scores: seq<real>): seq<Scored>
  {
    seq(|scores|, i requires 0 <= i < |scores| => Scored(i, scores[i]))
  }

  /**
    `x` comes before `y` in the ranking: a higher score, or an equal score
    and a lower index (what a stable sort makes of position-ordered input).
  */
  predicate Precedes(x: Scored, y: Scored)
  {
    x.score > y.score || (x.score == y.score && x.index < y.index)
  }

  /** Every earlier entry of `s` precedes every later one. */
  predicate Ranked(s: seq<Scored>)
  {
    forall p, q | 0 <= p < q < |s| :: Precedes(s[p], s[q])
  }

  /** `ranked` is the stably sorted, highest-first rearrangement of the enumerated scores. */
  predicate IsRanking(scores: seq<real>, ranked: seq<Scored>)
  {
    && |ranked| == |scores|
    && multiset(ranked) == multiset(Enumerate(scores))
    && Ranked(ranked)
  }

  /**
    Pairs each score with its index and sorts the pairs in place, highest
    score first; the insertion sort used here is stable, like the source's.
  */
  method RankScores(scores: seq<real>) returns (ranked: seq<Scored>)
    ensures IsRanking(scores, ranked)
  {
    var a := new Scored[|scores|](i requires 0 <= i < |scores| => Scored(i, scores[i]));
    assert a[..] == Enumerate(scores);
    for i := 0 to a.Length
      invariant Ranked(a[..i])
      invariant forall p | 0 <= p < i :: a[p].index < i
      invariant forall p | i <= p < a.Length :: a[p] == Scored(p, scores[p])
      invariant multiset(a[..]) == multiset(Enumerate(scores))
    {
      InsertLast(a, i, Scored(i, scores[i]));
    }
    assert a[..a.Length] == a[..];
    ranked := a[..];
  }

  /** One insertion step: moves `a[i]`, whose index `i` exceeds every index before it, into place in `a[..i]`. */
  method InsertLast(a: array<Scored>, i: nat, x: Scored)
    requires i < a.Length && a[i] == x && x.index == i
    requires Ranked(a[..i])
    requires forall p | 0 <= p < i :: a[p].index < i
    modifies a
    ensures Ranked(a[..i + 1])
    ensures forall p | 0 <= p <= i :: a[p].index <= i
    ensures forall p | i < p < a.Length :: a[p] == old(a[p])
    ensures multiset(a[..]) == old(multiset(a[..]))
  {
    var j := i;
    while j > 0 && a[j - 1].score < x.score
      invariant 0 <= j <= i
      invariant a[j] == x
      invariant forall p, q | 0 <= p < q <= i && p != j && q != j :: Precedes(a[p], a[q])
      invariant forall q | j < q <= i :: Precedes(x, a[q])
      invariant forall p | 0 <= p <= i && p != j :: a[p].index < i
      invariant forall p | i < p < a.Length :: a[p] == old(a[p])
      invariant multiset(a[..]) == old(multiset(a[..]))
    {
      Swap(a, j - 1);
      j := j - 1;
    }
    forall p, q | 0 <= p < q <= i
      ensures Precedes(a[p], a[q])
    {
      if q == j && p < j {
        assert Precedes(a[p], a[j - 1]) || p == j - 1;
      }
    }
  }

  /** Exchanges `a[j]` and `a[j + 1]`. */
  method Swap(a: array<Scored>, j: nat)
    requires j + 1 < a.Length
    modifies a
    ensures a[j] == old(a[j + 1]) && a[j + 1] == old(a[j])
    ensures forall p | 0 <= p < a.Length && p != j && p != j + 1 :: a[p] == old(a[p])
    ensures multiset(a[..]) == old(multiset(a[..]))
  {
    a[j], a[j + 1] := a[j + 1], a[j];
  }

  /** Each ranked entry is some row's index with that row's score. */
  lemma RankedEntries(scores: seq<real>, ranked: seq<Scored>)
    requires IsRanking(scores, ranked)
    ensures forall k | 0 <= k < |ranked| :: ranked[k].index < |scores| && ranked[k].score == scores[ranked[k].index]
  {
    forall k | 0 <= k < |ranked|
      ensures ranked[k].index < |scores| && ranked[k].score == scores[ranked[k].index]
    {
      assert ranked[k] in multiset(ranked);
      var e := Enumerate(scores);
      assert ranked[k] in e;
      var i :| 0 <= i < |e| && e[i] == ranked[k];
    }
  }

  /** Each row appears in the ranking, with its score. */
  lemma EveryRowRanked(scores: seq<real>, ranked: seq<Scored>, i: nat)
    requires IsRanking(scores, ranked)
    requires i < |scores|
    ensures exists k :: 0 <= k < |ranked| && ranked[k] == Scored(i, scores[i])
  {
    var e := Enumerate(scores);
    assert e[i] == Scored(i, scores[i]);
    assert e[i] in multiset(ranked);
  }

  /** No row is ranked twice. */
  lemma RankedRowsDistinct(scores: seq<real>, ranked: seq<Scored>)
    requires IsRanking(scores, ranked)
    ensures forall p, q | 0 <= p < q < |ranked| :: ranked[p].index != ranked[q].index
  {
    RankedEntries(scores, ranked);
  }

  /** A row whose score beats the entry at rank `p` is ranked before `p`. */
  lemma HigherScoreRankedEarlier(scores: seq<real>, ranked: seq<Scored>, p: nat, i: nat)
    requires IsRanking(scores, ranked)
    requires p < |ranked| && i < |scores|
    requires scores[i] > ranked[p].score
    ensures exists q :: 0 <= q < p && ranked[q].index == i
  {
    EveryRowRanked(scores, ranked, i);
    var q :| 0 <= q < |ranked| && ranked[q] == Scored(i, scores[i]);
    assert q < p;
  }

  /** Two ranked sequences with the same elements start with the same element. */
  lemma SameHead(s: seq<Scored>, t: seq<Scored>)
    requires Ranked(s) && Ranked(t)
    requires multiset(s) == multiset(t)
    requires s != []
    ensures t != [] && t[0] == s[0]
  {
    assert s[0] in multiset(t);
    var k :| 0 <= k < |t| && t[k] == s[0];
    assert t[0] in multiset(s);
    var m :| 0 <= m < |s| && s[m] == t[0];
    // Neither head can come after the other, so they coincide.
    var x, y := s[0], t[0];
    assert x == t[k] && y == s[m];
    assert y == x || Precedes(y, x);
    assert x == y || Precedes(x, y);
  }

  /**
    Two ranked sequences with the same elements are equal. So the ranking of
    a list of scores is unique, whatever stable sort produced it.
  */
  lemma {:induction false} RankedUnique(s: seq<Scored>, t: seq<Scored>)
    requires Ranked(s) && Ranked(t)
    requires multiset(s) == multiset(t)
    ensures s == t
  {
    if s == [] {
      assert |t| == |multiset(t)| == 0;
    } else {
      SameHead(s, t);
      assert s == [s[0]] + s[1..] && t == [t[0]] + t[1..];
      assert multiset(s[1..]) == multiset(s) - multiset{s[0]} == multiset(t[1..]);
      RankedTail(s);
      RankedTail(t);
      RankedUnique(s[1..], t[1..]);
    }
  }

  /** Dropping the head of a ranked sequence leaves it ranked. */
  lemma RankedTail(s: seq<Scored>)
    requires Ranked(s) && s != []
    ensures Ranked(s[1..])
  {
    forall p, q | 0 <= p < q < |s| - 1
      ensures Precedes(s[1..][p], s[1..][q])
    {
      assert s[1..][p] == s[p + 1] && s[1..][q] == s[q + 1];
    }
  }

  /** The ranking of a list of scores is determined by the scores alone. */
  lemma RankingUnique(scores: seq<real>, r1: seq<Scored>, r2: seq<Scored>)
    requires IsRanking(scores, r1) && IsRanking(scores, r2)
    ensures r1 == r2
  {
    RankedUnique(r1, r2);
  }

  /**
    `count` is how many ranked entries the walk accepts: the longest prefix
    of the first four entries whose scores are all at least 0.8.
  */
  predicate IsSelection(ranked: seq<Scored>, count: nat)
  {
    && count <= MaxDrawn
    && count <= |ranked|
    && (forall k | 0 <= k < count :: ranked[k].score >= ScoreThreshold)
    && (count < MaxDrawn ==> count < |ranked| && ranked[count].score < ScoreThreshold)
  }

  /** The walk accepts one well-defined number of entries. */
  lemma SelectionUnique(ranked: seq<Scored>, c1: nat, c2: nat)
    requires IsSelection(ranked, c1) && IsSelection(ranked, c2)
    ensures c1 == c2
  {
  }

  /** When fewer than four entries are accepted, every row scoring at least 0.8 is among them. */
  lemma ConfidentRowsAccepted(scores: seq<real>, ranked: seq<Scored>, count: nat, i: nat)
    requires IsRanking(scores, ranked) && IsSelection(ranked, count)
    requires count < MaxDrawn
    requires i < |scores| && scores[i] >= ScoreThreshold
    ensures exists k :: 0 <= k < count && ranked[k].index == i
  {
    HigherScoreRankedEarlier(scores, ranked, count, i);
  }

  /** No row left out of the accepted entries scores higher than any accepted one. */
  lemma AcceptedOutscoreRest(scores: seq<real>, ranked: seq<Scored>, count: nat, i: nat, k: nat)
    requires IsRanking(scores, ranked) && IsSelection(ranked, count)
    requires i < |scores| && k < count
    requires forall q | 0 <= q < count :: ranked[q].index != i
    ensures scores[i] <= ranked[k].score
  {
    if scores[i] > ranked[k].score {
      HigherScoreRankedEarlier(scores, ranked, k, i);
    }
  }

  /**
    When exactly one row scores at least 0.8, exactly one entry is accepted,
    and it is that row.
  */
  lemma OnlyConfidentRowAccepted(scores: seq<real>, ranked: seq<Scored>, count: nat, i: nat)
    requires IsRanking(scores, ranked) && IsSelection(ranked, count)
    requires i < |scores| && scores[i] >= ScoreThreshold
    requires forall j | 0 <= j < |scores| && j != i :: scores[j] < ScoreThreshold
    ensures count == 1 && ranked[0] == Scored(i, scores[i])
  {
    RankedEntries(scores, ranked);
    RankedRowsDistinct(scores, ranked);
    EveryRowRanked(scores, ranked, i);
    assert ranked[0].score >= scores[i];
    assert count >= 1;
    assert ranked[0].index == i;
    // The runner-up is some other row, so it scores below 0.8.
    assert 1 < |ranked| ==> ranked[1].index != i && ranked[1].score < ScoreThreshold;
  }
}
