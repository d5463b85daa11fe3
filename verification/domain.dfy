/** The data the study engine works on: exam categories, question records,
    the per-category progress record and the random draws the engine makes.
 */
module Domain {

  /** The three fixed exam categories, each with its own question pool. */
  datatype Exam = Technician | General | Extra

  type QuestionId = string

  /** One parsed question record. `correct` is the index of the right answer
      in `answers`; `refs` is the study reference shown under the prompt. */
  datatype Question = Question(
    id: QuestionId,
    prompt: string,
    answers: seq<string>,
    correct: int,
    refs: string)

  /** The answer text a record marks as right exists. */
  predicate WellFormed(q: Question) {
    0 <= q.correct < |q.answers|
  }

  predicate AllWellFormed(pool: seq<Question>) {
    forall i :: 0 <= i < |pool| ==> WellFormed(pool[i])
  }

  function CorrectAnswer(q: Question): string
    requires WellFormed(q)
  {
    q.answers[q.correct]
  }

  /** Per-category learner state: the pass number, the number of correct
      answers in this pass, and the ids seen in this pass, in order. */
  datatype Progress = Progress(pass: int, correct: nat, seen: seq<QuestionId>)

  type Store = map<Exam, Progress>
  type Bank = map<Exam, seq<Question>>

  /** Every category has an entry. */
  predicate Complete<V>(m: map<Exam, V>) {
    forall e: Exam :: e in m
  }

  /** A map with an entry for each category. */
  function PerExam<V>(technician: V, general: V, extra: V): (m: map<Exam, V>)
    ensures Complete(m)
    ensures m[Technician] == technician && m[General] == general && m[Extra] == extra
  {
    var m := map[Technician := technician, General := general, Extra := extra];
    ThreeKeysComplete(m);
    m
  }

  lemma ThreeKeysComplete<V>(m: map<Exam, V>)
    requires Technician in m && General in m && Extra in m
    ensures Complete(m)
  {
    forall e: Exam ensures e in m {
      if e.Technician? {
      } else if e.General? {
      } else {
      }
    }
  }

  /** The record a pass starts with: nothing counted, nothing seen. */
  function Fresh(pass: int): Progress
  {
    Progress(pass, 0, [])
  }

  /** The store the application starts from: the persisted one when there is
      one, otherwise every category on pass 1 with nothing seen. */
  function InitialStore(persisted: Option<Store>): (s: Store)
    ensures persisted.None? ==> Complete(s)
    ensures persisted.None? ==> forall e :: e in s ==> s[e] == Progress(1, 0, [])
    ensures persisted.Some? ==> s == persisted.value
  {
    match persisted
    case Some(stored) => stored
    case None => PerExam(Fresh(1), Fresh(1), Fresh(1))
  }

  datatype Option<T> = None | Some(value: T)

  /** The ways the source's code paths end in a thrown error. */
  datatype Fault =
    | NoIncorrectOption   // a later-pass question offers no wrong answer to draw
    | NoActiveQuestion    // an answer arrives before any question was loaded

  datatype Result<T> = Ok(value: T) | Err(fault: Fault)

  /** A value of `Math.random()`: a real in [0, 1). */
  type Fraction = u: real | 0.0 <= u < 1.0 witness 0.0

  /** The index a random draw `u` picks among `n` items: the floor of u * n. */
  function Scale(u: Fraction, n: nat): (i: nat)
    requires n > 0
    ensures i < n
    ensures i as real <= u * n as real < i as real + 1.0
  {
    ScaleBounds(u, n);
    (u * n as real).Floor
  }

  lemma ScaleBounds(u: Fraction, n: nat)
    requires n > 0
    ensures 0.0 <= u * n as real < n as real
  {
  }

  /** Every index can be drawn: the draw k/n lands on k. */
  lemma ScaleReaches(k: nat, n: nat)
    requires k < n
    ensures 0.0 <= k as real / n as real < 1.0
    ensures Scale(k as real / n as real, n) == k
  {
  }
}
