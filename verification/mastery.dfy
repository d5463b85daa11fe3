/** What the engine promises a learner who always answers right, when
    question ids are unique within the pool and, after the first pass, every
    question has at least two answers: every round brings a question not yet
    seen in this pass, so the pass completes after exactly as many answers as
    the pool has questions. A later-pass question with a single answer fails
    to load and cannot be answered, so a pass that reaches it never ends.
 */
module Mastery {
  import opened Domain
  import opened Selection
  import opened Recording
  import Session

  /** Question ids are unique within a pool. */
  predicate DistinctIds(pool: seq<Question>) {
    forall i, j :: 0 <= i < j < |pool| ==> pool[i].id != pool[j].id
  }

  /** A record in which every answer so far was right. */
  predicate Perfect(p: Progress) {
    p.correct == |p.seen| && NoDuplicates(p.seen)
  }

  /** One round: the next question is loaded and its right answer given. */
  function PerfectRound(pool: seq<Question>, p: Progress, draw: Fraction): Progress
    requires |pool| > 0 && AllWellFormed(pool)
  {
    var i := Select(pool, p, draw).value;
    Record(p, pool[i], CorrectAnswer(pool[i]), |pool|).next
  }

  /** The perfect round on a fixed pool, as a step from record to record. */
  function PerfectStep(pool: seq<Question>): (Progress, Fraction) --> Progress {
    (p: Progress, draw: Fraction) requires |pool| > 0 && AllWellFormed(pool) => PerfectRound(pool, p, draw)
  }

  /** A step applied once per draw, in order. */
  function Run(step: (Progress, Fraction) --> Progress, p: Progress, draws: seq<Fraction>): Progress
    requires forall q, d :: step.requires(q, d)
    decreases |draws|
  {
    if draws == [] then p
    else Run(step, step(p, draws[0]), draws[1..])
  }

  /** One perfect round per draw. */
  function PerfectRun(pool: seq<Question>, p: Progress, draws: seq<Fraction>): Progress
    requires |pool| > 0 && AllWellFormed(pool)
  {
    Run(PerfectStep(pool), p, draws)
  }

  /** What a perfect round does to a perfect record, in a pool of `n`: one
      more id and one more right answer, or the start of the next pass on
      the round that covers the pool. */
  predicate AdvancesOnce(p: Progress, r: Progress, n: nat) {
    if |p.seen| + 1 < n then Perfect(r) && r.pass == p.pass && |r.seen| == |p.seen| + 1
    else r == Fresh(p.pass + 1)
  }

  /** `a` with its first occurrence of `y` removed. */
  function Without(a: seq<QuestionId>, y: QuestionId): (r: seq<QuestionId>)
    ensures y in a ==> |r| == |a| - 1
    ensures forall x :: x != y ==> (x in r <==> x in a)
  {
    if a == [] then []
    else if a[0] == y then a[1..]
    else [a[0]] + Without(a[1..], y)
  }

  /** Fewer ids than a duplicate-free list cannot cover it. */
  lemma {:induction false} PigeonHole(a: seq<QuestionId>, b: seq<QuestionId>)
    requires NoDuplicates(b) && |a| < |b|
    ensures exists x :: x in b && x !in a
    decreases |b|
  {
    var y := b[0];
    if y in a {
      var rest := b[1..];
      assert NoDuplicates(rest) by {
        forall i, j | 0 <= i < j < |rest| ensures rest[i] != rest[j] {
          assert rest[i] == b[i + 1] && rest[j] == b[j + 1];
        }
      }
      PigeonHole(Without(a, y), rest);
      var x :| x in rest && x !in Without(a, y);
      assert x != y by {
        var k :| 0 <= k < |rest| && rest[k] == x;
        assert b[k + 1] == x && b[0] == y;
      }
      assert x in b;
    } else {
      assert y in b;
    }
  }

  /** Among the first `m` positions of a pool with unique ids, fewer than `m`
      seen ids leave some position unseen. */
  lemma UnseenPosition(pool: seq<Question>, m: nat, seen: seq<QuestionId>) returns (j: nat)
    requires DistinctIds(pool) && |seen| < m <= |pool|
    ensures j < m && pool[j].id !in seen
  {
    var ids := seq(m, i requires 0 <= i < m => pool[i].id);
    assert NoDuplicates(ids);
    PigeonHole(seen, ids);
    var x :| x in ids && x !in seen;
    var k :| 0 <= k < m && ids[k] == x;
    j := k;
  }

  /** A perfect learner is offered an unseen question whenever the pass is
      not yet complete: below ten seen ids the first ten cannot all be seen,
      and from ten on the accuracy keeps the whole pool open. */
  lemma PerfectRoundPicksUnseen(pool: seq<Question>, p: Progress, draw: Fraction)
    requires |pool| > 0 && AllWellFormed(pool) && DistinctIds(pool)
    requires Perfect(p) && |p.seen| < |pool|
    ensures pool[Select(pool, p, draw).value].id !in p.seen
  {
    var m := if Gated(p) && FirstTen < |pool| then FirstTen else |pool|;
    if |p.seen| >= FirstTen {
      assert !AccuracyLow(p);
    }
    var j := UnseenPosition(pool, m, p.seen);
    AvailableExactly(|pool|, p, j);
  }

  /** Each perfect round adds one id and one right answer, and the round
      that reaches the pool size starts the next pass. */
  lemma PerfectRoundStep(pool: seq<Question>, p: Progress, draw: Fraction)
    requires |pool| > 0 && AllWellFormed(pool) && DistinctIds(pool)
    requires Perfect(p) && |p.seen| < |pool|
    ensures AdvancesOnce(p, PerfectRound(pool, p, draw), |pool|)
  {
    PerfectRoundPicksUnseen(pool, p, draw);
    var i := Select(pool, p, draw).value;
    var outcome := Record(p, pool[i], CorrectAnswer(pool[i]), |pool|);
    assert outcome.isCorrect && |outcome.saved.seen| == |p.seen| + 1;
  }

  /** Any step that advances every perfect record once carries a perfect
      record through one new id per draw, up to the start of the next pass. */
  lemma {:induction false} RunProgress(step: (Progress, Fraction) --> Progress, n: nat, p: Progress, draws: seq<Fraction>)
    requires forall q, d :: step.requires(q, d)
    requires forall q, d :: Perfect(q) && |q.seen| < n ==> AdvancesOnce(q, step(q, d), n)
    requires Perfect(p) && |p.seen| + |draws| <= n && |p.seen| < n
    ensures var r := Run(step, p, draws);
      if |p.seen| + |draws| < n
      then Perfect(r) && r.pass == p.pass && |r.seen| == |p.seen| + |draws|
      else r == Fresh(p.pass + 1)
    decreases |draws|
  {
    if draws != [] {
      var next := step(p, draws[0]);
      assert AdvancesOnce(p, next, n);
      if |p.seen| + 1 < n {
        RunProgress(step, n, next, draws[1..]);
      } else {
        assert draws[1..] == [];
      }
    }
  }

  lemma PerfectRunProgress(pool: seq<Question>, p: Progress, draws: seq<Fraction>)
    requires |pool| > 0 && AllWellFormed(pool) && DistinctIds(pool)
    requires Perfect(p) && |p.seen| + |draws| <= |pool| && |p.seen| < |pool|
    ensures var r := PerfectRun(pool, p, draws);
      if |p.seen| + |draws| < |pool|
      then Perfect(r) && r.pass == p.pass && |r.seen| == |p.seen| + |draws|
      else r == Fresh(p.pass + 1)
  {
    var step := PerfectStep(pool);
    forall q, d | Perfect(q) && |q.seen| < |pool|
      ensures AdvancesOnce(q, step(q, d), |pool|)
    {
      PerfectRoundStep(pool, q, d);
    }
    RunProgress(step, |pool|, p, draws);
  }

  /** From the start of a pass, a perfect learner has seen exactly k questions
      after k answers, and the pass completes with the answer that covers
      the pool, whatever the random draws. */
  lemma PerfectPass(pool: seq<Question>, pass: int, draws: seq<Fraction>)
    requires |pool| > 0 && AllWellFormed(pool) && DistinctIds(pool)
    requires |draws| == |pool|
    ensures PerfectRun(pool, Fresh(pass), draws) == Fresh(pass + 1)
    ensures forall k :: 0 <= k < |pool| ==>
      PerfectRun(pool, Fresh(pass), draws[..k]).pass == pass
      && |PerfectRun(pool, Fresh(pass), draws[..k]).seen| == k
  {
    PerfectRunProgress(pool, Fresh(pass), draws);
    forall k | 0 <= k < |pool|
      ensures PerfectRun(pool, Fresh(pass), draws[..k]).pass == pass
      ensures |PerfectRun(pool, Fresh(pass), draws[..k]).seen| == k
    {
      PerfectRunProgress(pool, Fresh(pass), draws[..k]);
    }
  }

  /** A perfect round is what the application does: when the options can be
      built, loading a question shows them, and answering it with its right
      answer changes the current category's record exactly as `PerfectRound`
      does. */
  lemma RoundIsLoadThenAnswer(s: Session.State, pick: Fraction, distractor: Fraction, swap: bool)
    requires Session.Valid(s) && |s.bank[s.exam]| > 0
    requires s.store[s.exam].pass <= 1
      || forall i :: 0 <= i < |s.bank[s.exam]| ==> |s.bank[s.exam][i].answers| >= 2
    ensures Session.Load(s, pick, distractor, swap).shown.Presented?
    ensures var loaded := Session.Load(s, pick, distractor, swap).state;
      var q := loaded.current.value;
      WellFormed(q)
      && Session.Answer(loaded, CorrectAnswer(q)).value.state.store[s.exam]
         == PerfectRound(s.bank[s.exam], s.store[s.exam], pick)
  {
  }
}
