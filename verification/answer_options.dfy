/** The answer buttons shown for a question (app.js `loadQuestion`, the option
    half): the right answer alone on the first pass, and from the second pass
    on the right answer and one randomly drawn wrong answer in random order.
 */
module AnswerOptions {
  import opened Domain

  /** Indices of `answers` from `from` on, other than `correct`, in order:
      the source pairs each answer with its index and drops the right one. */
  function IncorrectFrom(answers: seq<string>, correct: int, from: nat): (r: seq<nat>)
    ensures forall k :: 0 <= k < |r| ==> from <= r[k] < |answers| && r[k] != correct
    ensures forall i :: from <= i < |answers| && i != correct ==> i in r
    ensures forall j, k :: 0 <= j < k < |r| ==> r[j] < r[k]
    decreases |answers| - from
  {
    if from >= |answers| then []
    else if from == correct then IncorrectFrom(answers, correct, from + 1)
    else [from] + IncorrectFrom(answers, correct, from + 1)
  }

  /** The indices of the wrong answers of a question, in authored order. */
  function Incorrect(q: Question): (r: seq<nat>)
    ensures forall i :: i in r <==> 0 <= i < |q.answers| && i != q.correct
    ensures WellFormed(q) ==> |r| == |q.answers| - 1
  {
    assert WellFormed(q) ==> |IncorrectFrom(q.answers, q.correct, 0)| == |q.answers| - 1 by {
      if WellFormed(q) {
        IncorrectCount(q.answers, q.correct, 0);
      }
    }
    IncorrectFrom(q.answers, q.correct, 0)
  }

  lemma {:induction false} IncorrectCount(answers: seq<string>, correct: int, from: nat)
    requires 0 <= correct < |answers| && from <= |answers|
    ensures |IncorrectFrom(answers, correct, from)| == |answers| - from - (if from <= correct then 1 else 0)
    decreases |answers| - from
  {
    if from < |answers| {
      IncorrectCount(answers, correct, from + 1);
    }
  }

  /** The options shown for `q` on pass `pass`. `distractor` is the random draw
      picking the wrong answer and `swap` is the outcome of the two-element
      shuffle. With no wrong answer to draw, a later pass fails, as the source
      does when it reads the answer text of a missing element. */
  function BuildOptions(q: Question, pass: int, distractor: Fraction, swap: bool): (r: Result<seq<string>>)
    requires WellFormed(q)
    ensures r.Err? <==> pass > 1 && |q.answers| < 2
    ensures r.Err? ==> r.fault == NoIncorrectOption
    ensures r.Ok? && pass <= 1 ==> r.value == [CorrectAnswer(q)]
    ensures r.Ok? && pass > 1 ==>
      |r.value| == 2 && CorrectAnswer(q) in r.value
      && exists i :: 0 <= i < |q.answers| && i != q.correct
           && multiset(r.value) == multiset{CorrectAnswer(q), q.answers[i]}
  {
    var right := CorrectAnswer(q);
    if pass > 1 then
      var wrong := Incorrect(q);
      if |wrong| == 0 then Err(NoIncorrectOption)
      else
        var i := wrong[Scale(distractor, |wrong|)];
        assert i in wrong;
        var shown := [right, q.answers[i]];
        if swap then Ok([shown[1], shown[0]]) else Ok(shown)
    else
      Ok([right])
  }

  /** On a later pass every wrong answer can be offered, in either order. */
  lemma EveryDistractorReachable(q: Question, pass: int, i: nat, swap: bool)
    requires WellFormed(q) && pass > 1
    requires i < |q.answers| && i != q.correct
    ensures exists distractor: Fraction ::
      BuildOptions(q, pass, distractor, swap)
        == Ok(if swap then [q.answers[i], CorrectAnswer(q)] else [CorrectAnswer(q), q.answers[i]])
  {
    var wrong := Incorrect(q);
    assert i in wrong;
    var j :| 0 <= j < |wrong| && wrong[j] == i;
    ScaleReaches(j, |wrong|);
    var distractor: Fraction := j as real / |wrong| as real;
    assert BuildOptions(q, pass, distractor, swap).Ok?;
  }

  /** The shuffle only reorders: both outcomes show the same two answers. */
  lemma ShuffleOnlyPermutes(q: Question, pass: int, distractor: Fraction)
    requires WellFormed(q) && pass > 1 && |q.answers| >= 2
    ensures multiset(BuildOptions(q, pass, distractor, true).value)
         == multiset(BuildOptions(q, pass, distractor, false).value)
    ensures BuildOptions(q, pass, distractor, true).value
         == [BuildOptions(q, pass, distractor, false).value[1], BuildOptions(q, pass, distractor, false).value[0]]
  {
  }
}
