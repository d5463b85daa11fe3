/** Recording an answer (app.js `checkAnswer`): the question joins the seen
    list once, a right answer is counted, the store is persisted, and a
    category whose seen list covers its pool starts its next pass.
 */
module Recording {
  import opened Domain

  predicate NoDuplicates(s: seq<QuestionId>) {
    forall i, j :: 0 <= i < j < |s| ==> s[i] != s[j]
  }

  /** The outcome of one answer on one category: whether it was right, the
      record as persisted, and the record after the pass check. */
  datatype Recorded = Recorded(isCorrect: bool, saved: Progress, next: Progress)

  /** Whether a record's seen list covers a pool of `poolSize` questions. */
  predicate PassComplete(p: Progress, poolSize: nat) {
    |p.seen| >= poolSize
  }

  function Record(p: Progress, q: Question, selected: string, poolSize: nat): (r: Recorded)
    requires WellFormed(q)
    ensures r.isCorrect <==> selected == CorrectAnswer(q)
    ensures forall x :: x in r.saved.seen <==> x in p.seen || x == q.id
    ensures p.seen <= r.saved.seen
    ensures |r.saved.seen| == |p.seen| + (if q.id in p.seen then 0 else 1)
    ensures NoDuplicates(p.seen) ==> NoDuplicates(r.saved.seen)
    ensures r.saved.correct == p.correct + (if r.isCorrect then 1 else 0)
    ensures r.saved.pass == p.pass
    ensures PassComplete(r.saved, poolSize) ==> r.next == Fresh(p.pass + 1)
    ensures !PassComplete(r.saved, poolSize) ==> r.next == r.saved
  {
    var seen := if q.id in p.seen then p.seen else p.seen + [q.id];
    var isCorrect := selected == CorrectAnswer(q);
    var saved := Progress(p.pass, if isCorrect then p.correct + 1 else p.correct, seen);
    var next := if |saved.seen| >= poolSize then Progress(saved.pass + 1, 0, []) else saved;
    Recorded(isCorrect, saved, next)
  }

  /** The pass number never goes down, and goes up by one exactly when the
      seen list reaches the pool size. */
  lemma PassNeverDecreases(p: Progress, q: Question, selected: string, poolSize: nat)
    requires WellFormed(q)
    ensures Record(p, q, selected, poolSize).next.pass >= p.pass
    ensures Record(p, q, selected, poolSize).next.pass == p.pass + 1
        <==> |p.seen| + (if q.id in p.seen then 0 else 1) >= poolSize
  {
  }

  /** Answering an already seen question again does not count it again. */
  lemma RepeatNotCountedTwice(p: Progress, q: Question, selected: string, poolSize: nat)
    requires WellFormed(q) && q.id in p.seen
    ensures Record(p, q, selected, poolSize).saved.seen == p.seen
  {
  }

  /** Right answers to a repeated question keep counting while the seen list
      does not grow, so the count of right answers can exceed the number of
      seen ids. */
  lemma CorrectMayExceedSeen()
    ensures var q := Question("T1A01", "prompt", ["yes", "no"], 0, "");
            var once := Record(Fresh(1), q, "yes", 2).next;
            var twice := Record(once, q, "yes", 2).next;
            twice == Progress(1, 2, ["T1A01"]) && twice.correct > |twice.seen|
  {
  }

  /** What one answer does to the whole store. */
  datatype StoreUpdate = StoreUpdate(isCorrect: bool, persisted: Store, store: Store)

  /** `checkAnswer` on the store: the persisted snapshot carries the counts
      before the pass check, the live store the counts after it, and no other
      category changes. */
  function RecordInStore(store: Store, exam: Exam, q: Question, selected: string, poolSize: nat): (r: StoreUpdate)
    requires exam in store && WellFormed(q)
    ensures r.persisted.Keys == store.Keys && r.store.Keys == store.Keys
    ensures forall e :: e in store && e != exam ==> r.persisted[e] == store[e] && r.store[e] == store[e]
    ensures r.isCorrect <==> selected == CorrectAnswer(q)
    ensures r.persisted[exam] == Record(store[exam], q, selected, poolSize).saved
    ensures r.store[exam] == Record(store[exam], q, selected, poolSize).next
  {
    var outcome := Record(store[exam], q, selected, poolSize);
    StoreUpdate(outcome.isCorrect, store[exam := outcome.saved], store[exam := outcome.next])
  }
}
