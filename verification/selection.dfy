/** Which question is shown next (app.js `loadQuestion`, the selection half).

    A question is identified by its position in the pool. The pool is first
    gated to its first ten positions, the unseen questions among those left
    are preferred, and one candidate is drawn at random.
 */
module Selection {
  import opened Domain

  /** How many leading positions the gate keeps. */
  const FirstTen: nat := 10

  /** Positions lo, lo+1, ..., hi-1, in order. */
  function Range(lo: nat, hi: nat): (r: seq<nat>)
    ensures |r| == if lo <= hi then hi - lo else 0
    ensures forall k :: 0 <= k < |r| ==> r[k] == lo + k
    decreases hi - lo
  {
    if lo >= hi then [] else [lo] + Range(lo + 1, hi)
  }

  /** The positions of `ps` below `bound`, in their original order: the
      source's filter on a question's index in its pool. */
  function KeepBelow(ps: seq<nat>, bound: nat): (r: seq<nat>)
    ensures forall x :: x in r <==> x in ps && x < bound
    ensures |r| <= |ps|
  {
    if ps == [] then []
    else (if ps[0] < bound then [ps[0]] else []) + KeepBelow(ps[1..], bound)
  }

  /** The accuracy test: right answers divided by the number of seen ids
      (by one while none is seen) is below 0.8, stated in integers. */
  predicate AccuracyLow(p: Progress) {
    var denominator := if |p.seen| == 0 then 1 else |p.seen|;
    5 * p.correct < 4 * denominator
  }

  /** Whether the learner is held to the first ten questions. */
  predicate Gated(p: Progress) {
    |p.seen| < FirstTen || AccuracyLow(p)
  }

  /** The available positions of a pool of `n` questions: the two filters of
      the source applied one after the other. */
  function Available(n: nat, p: Progress): seq<nat> {
    var all := Range(0, n);
    var first := if |p.seen| < FirstTen then KeepBelow(all, FirstTen) else all;
    if AccuracyLow(p) then KeepBelow(first, FirstTen) else first
  }

  /** The positions of `ps` whose question id has not been seen, in order. */
  function KeepUnseen(pool: seq<Question>, ps: seq<nat>, seen: seq<QuestionId>): (r: seq<nat>)
    requires forall k :: 0 <= k < |ps| ==> ps[k] < |pool|
    ensures forall k :: 0 <= k < |r| ==> r[k] < |pool|
    ensures forall x :: x in r <==> x in ps && pool[x].id !in seen
  {
    if ps == [] then []
    else
      (if pool[ps[0]].id !in seen then [ps[0]] else [])
      + KeepUnseen(pool, ps[1..], seen)
  }

  /** When every position's id is seen, no position is kept. */
  lemma {:induction false} KeepUnseenAllSeen(pool: seq<Question>, ps: seq<nat>, seen: seq<QuestionId>)
    requires forall k :: 0 <= k < |ps| ==> ps[k] < |pool| && pool[ps[k]].id in seen
    ensures KeepUnseen(pool, ps, seen) == []
  {
    if ps != [] {
      KeepUnseenAllSeen(pool, ps[1..], seen);
    }
  }

  /** The list the random draw is made from: the unseen available positions
      when there are any, otherwise all available positions. */
  function Candidates(pool: seq<Question>, p: Progress): (c: seq<nat>)
    ensures |pool| > 0 ==> |c| > 0
    ensures forall k :: 0 <= k < |c| ==> c[k] < |pool| && c[k] in Available(|pool|, p)
    ensures (exists k :: k in Available(|pool|, p) && pool[k].id !in p.seen)
      ==> forall k :: 0 <= k < |c| ==> pool[c[k]].id !in p.seen
  {
    var available := Available(|pool|, p);
    AvailableInPool(|pool|, p);
    var unseen := KeepUnseen(pool, available, p.seen);
    AvailableExactly(|pool|, p, 0);
    if |unseen| > 0 then unseen else available
  }

  /** The position of the next question, or None while the pool is empty. */
  function Select(pool: seq<Question>, p: Progress, draw: Fraction): (r: Option<nat>)
    ensures r.None? <==> |pool| == 0
    ensures r.Some? ==> r.value < |pool|
    ensures r.Some? && Gated(p) ==> r.value < FirstTen
    ensures r.Some? ==> r.value in Available(|pool|, p)
    ensures (r.Some? && exists k :: k in Available(|pool|, p) && pool[k].id !in p.seen)
      ==> pool[r.value].id !in p.seen
  {
    if |pool| == 0 then None
    else
      var candidates := Candidates(pool, p);
      var k := candidates[Scale(draw, |candidates|)];
      AvailableExactly(|pool|, p, k);
      Some(k)
  }

  /** Filtering a run of consecutive positions by a bound leaves a shorter
      run from the same start. */
  lemma {:induction false} KeepBelowRange(lo: nat, hi: nat, bound: nat)
    requires lo <= bound
    ensures KeepBelow(Range(lo, hi), bound) == Range(lo, if hi < bound then hi else bound)
    decreases hi - lo
  {
    if lo < hi {
      var r := Range(lo, hi);
      assert r[0] == lo && r[1..] == Range(lo + 1, hi);
      if lo < bound {
        KeepBelowRange(lo + 1, hi, bound);
      } else {
        assert lo == bound;
        KeepBelowNone(r, bound);
      }
    }
  }

  lemma {:induction false} KeepBelowNone(ps: seq<nat>, bound: nat)
    requires forall k :: 0 <= k < |ps| ==> ps[k] >= bound
    ensures KeepBelow(ps, bound) == []
  {
    if ps != [] {
      KeepBelowNone(ps[1..], bound);
    }
  }

  /** The two filters together keep exactly a prefix of the pool: the first
      ten positions while gated, every position otherwise. */
  lemma AvailableIsPrefix(n: nat, p: Progress)
    ensures Available(n, p) == Range(0, if Gated(p) && FirstTen < n then FirstTen else n)
  {
    var limited := if n < FirstTen then n else FirstTen;
    KeepBelowRange(0, n, FirstTen);
    KeepBelowRange(0, limited, FirstTen);
  }

  lemma AvailableInPool(n: nat, p: Progress)
    ensures forall k :: 0 <= k < |Available(n, p)| ==> Available(n, p)[k] < n
  {
    AvailableIsPrefix(n, p);
  }

  /** A position is available exactly when it is in the pool and, while the
      learner is gated, among the first ten. */
  lemma AvailableExactly(n: nat, p: Progress, k: nat)
    ensures k in Available(n, p) <==> k < n && (Gated(p) ==> k < FirstTen)
  {
    AvailableIsPrefix(n, p);
    var r := Available(n, p);
    if k < n && (Gated(p) ==> k < FirstTen) {
      assert r[k] == k;
    }
  }

  /** Only when at least ten ids are seen at 80% accuracy or better is the
      whole pool available. */
  lemma WholePoolOpensOnlyWhenProficient(n: nat, p: Progress)
    requires n > FirstTen
    ensures (forall k: nat :: k < n ==> k in Available(n, p))
        <==> |p.seen| >= FirstTen && 5 * p.correct >= 4 * |p.seen|
  {
    AvailableExactly(n, p, FirstTen);
    if !Gated(p) {
      forall k: nat | k < n ensures k in Available(n, p) {
        AvailableExactly(n, p, k);
      }
    }
  }

  /** Every candidate can be the one drawn: the selection can reach each of
      them, and it reaches nothing else. */
  lemma SelectReachesEveryCandidate(pool: seq<Question>, p: Progress, k: nat)
    requires k in Candidates(pool, p)
    ensures exists draw: Fraction :: Select(pool, p, draw) == Some(k)
  {
    var candidates := Candidates(pool, p);
    var j :| 0 <= j < |candidates| && candidates[j] == k;
    ScaleReaches(j, |candidates|);
    var draw: Fraction := j as real / |candidates| as real;
    assert Select(pool, p, draw) == Some(k);
  }

  lemma SelectStaysInCandidates(pool: seq<Question>, p: Progress, draw: Fraction)
    requires |pool| > 0
    ensures Select(pool, p, draw).value in Candidates(pool, p)
  {
  }

  /** With an unseen question available, the draw is among the unseen ones
      and can land on any of them. */
  lemma UnseenPreferred(pool: seq<Question>, p: Progress, k: nat)
    requires k in Available(|pool|, p) && pool[k].id !in p.seen
    ensures exists draw: Fraction :: Select(pool, p, draw) == Some(k)
  {
    AvailableInPool(|pool|, p);
    assert k in KeepUnseen(pool, Available(|pool|, p), p.seen);
    SelectReachesEveryCandidate(pool, p, k);
  }

  /** Once every available question is seen, every available question can
      be drawn again. */
  lemma RepeatsWhenAllSeen(pool: seq<Question>, p: Progress, k: nat)
    requires forall j :: j in Available(|pool|, p) ==> pool[j].id in p.seen
    requires k in Available(|pool|, p)
    ensures exists draw: Fraction :: Select(pool, p, draw) == Some(k)
  {
    AvailableInPool(|pool|, p);
    KeepUnseenAllSeen(pool, Available(|pool|, p), p.seen);
    SelectReachesEveryCandidate(pool, p, k);
  }
}
