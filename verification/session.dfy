/** The application state and its two operations: loading the next question
    of the current category (app.js `loadQuestion`) and answering it (app.js
    `checkAnswer`). Rendering is replaced by the value each call shows.
 */
module Session {
  import opened Domain
  import Selection
  import AnswerOptions
  import Recording

  /** The question bank, the progress store, the current category and the
      question last loaded, if any. */
  datatype State = State(bank: Bank, store: Store, exam: Exam, current: Option<Question>)

  /** What a load shows: the placeholder while the pool is empty, the answer
      options, or the error that ends the call. */
  datatype Shown = StillLoading | Presented(options: seq<string>) | Failed(fault: Fault)

  datatype Loaded = Loaded(state: State, shown: Shown)

  /** What an answer reports: whether it was right, the state after it and
      the store as persisted by it. */
  datatype Answered = Answered(isCorrect: bool, state: State, persisted: Store)

  /** The shape every state of the application keeps. */
  predicate Valid(s: State) {
    && Complete(s.bank) && Complete(s.store)
    && (forall e :: e in s.bank ==> AllWellFormed(s.bank[e]))
    && (forall e :: e in s.store ==> Recording.NoDuplicates(s.store[e].seen))
    && (s.current.Some? ==> WellFormed(s.current.value))
  }

  /** The state the application starts in, before any pool is fetched. */
  function Initial(persisted: Option<Store>): (s: State)
    requires persisted.Some? ==> Complete(persisted.value)
    requires persisted.Some? ==> forall e :: e in persisted.value ==> Recording.NoDuplicates(persisted.value[e].seen)
    ensures Valid(s)
    ensures s.store == InitialStore(persisted)
    ensures s.exam == Technician && s.current.None?
    ensures forall e :: e in s.bank ==> s.bank[e] == []
  {
    State(PerExam([], [], []), InitialStore(persisted), Technician, None)
  }

  /** Load the next question of the current category. `pick` and
      `distractor` are the random draws and `swap` the shuffle's outcome. */
  function Load(s: State, pick: Fraction, distractor: Fraction, swap: bool): (r: Loaded)
    requires s.exam in s.bank && s.exam in s.store && AllWellFormed(s.bank[s.exam])
    ensures r.state.bank == s.bank && r.state.store == s.store && r.state.exam == s.exam
    ensures r.shown.StillLoading? <==> s.bank[s.exam] == []
    ensures r.shown.StillLoading? ==> r.state == s
    ensures !r.shown.StillLoading? ==>
      exists i :: 0 <= i < |s.bank[s.exam]|
        && r.state.current == Some(s.bank[s.exam][i])
        && (Selection.Gated(s.store[s.exam]) ==> i < Selection.FirstTen)
    ensures r.shown.Presented? ==>
      (r.state.current.Some? && WellFormed(r.state.current.value)
       && CorrectAnswer(r.state.current.value) in r.shown.options)
    ensures r.shown.Failed? ==> r.shown.fault == NoIncorrectOption && s.store[s.exam].pass > 1
    ensures (!r.shown.StillLoading?
             && exists k :: k in Selection.Available(|s.bank[s.exam]|, s.store[s.exam])
                            && s.bank[s.exam][k].id !in s.store[s.exam].seen)
      ==> r.state.current.value.id !in s.store[s.exam].seen
    ensures r.shown.Presented? && s.store[s.exam].pass <= 1 ==>
      r.shown.options == [CorrectAnswer(r.state.current.value)]
    ensures r.shown.Presented? && s.store[s.exam].pass > 1 ==> |r.shown.options| == 2
    ensures r.shown.Presented? && s.store[s.exam].pass > 1 ==>
      var q := r.state.current.value;
      exists i :: 0 <= i < |q.answers| && i != q.correct
        && multiset(r.shown.options) == multiset{CorrectAnswer(q), q.answers[i]}
    ensures !r.shown.StillLoading? ==>
      (r.shown.Failed? <==> s.store[s.exam].pass > 1 && |r.state.current.value.answers| < 2)
  {
    match Choose(s.bank[s.exam], s.store[s.exam], pick)
    case None => Loaded(s, StillLoading)
    case Some(q) => Loaded(s.(current := Some(q)), Present(q, s.store[s.exam].pass, distractor, swap))
  }

  /** The question the draw `pick` selects from `pool`, or None while the
      pool is empty. */
  function Choose(pool: seq<Question>, p: Progress, pick: Fraction): (r: Option<Question>)
    requires AllWellFormed(pool)
    ensures r.None? <==> pool == []
    ensures r.Some? ==> WellFormed(r.value)
    ensures r.Some? ==>
      exists i :: 0 <= i < |pool| && r.value == pool[i] && (Selection.Gated(p) ==> i < Selection.FirstTen)
    ensures (r.Some? && exists k :: k in Selection.Available(|pool|, p) && pool[k].id !in p.seen)
      ==> r.value.id !in p.seen
  {
    match Selection.Select(pool, p, pick)
    case None => None
    case Some(i) => Some(pool[i])
  }

  /** What is shown for a loaded question: its options, or the error
      building them ends in. */
  function Present(q: Question, pass: int, distractor: Fraction, swap: bool): (shown: Shown)
    requires WellFormed(q)
    ensures !shown.StillLoading?
    ensures shown.Failed? <==> pass > 1 && |q.answers| < 2
    ensures shown.Failed? ==> shown.fault == NoIncorrectOption
    ensures shown.Presented? ==> CorrectAnswer(q) in shown.options
    ensures shown.Presented? && pass <= 1 ==> shown.options == [CorrectAnswer(q)]
    ensures shown.Presented? && pass > 1 ==> |shown.options| == 2
    ensures shown.Presented? && pass > 1 ==>
      exists i :: 0 <= i < |q.answers| && i != q.correct
        && multiset(shown.options) == multiset{CorrectAnswer(q), q.answers[i]}
  {
    match AnswerOptions.BuildOptions(q, pass, distractor, swap)
    case Ok(options) => Presented(options)
    case Err(fault) => Failed(fault)
  }

  /** Answer the question last loaded with the option text `selected`. */
  function Answer(s: State, selected: string): (r: Result<Answered>)
    requires s.exam in s.bank && s.exam in s.store
    requires s.current.Some? ==> WellFormed(s.current.value)
    ensures r.Err? <==> s.current.None?
    ensures r.Err? ==> r.fault == NoActiveQuestion
    ensures r.Ok? ==>
      (r.value.state.bank == s.bank && r.value.state.exam == s.exam
       && r.value.state.current == s.current)
    ensures r.Ok? ==> (r.value.isCorrect <==> selected == CorrectAnswer(s.current.value))
    ensures r.Ok? ==>
      (r.value.state.store.Keys == s.store.Keys && r.value.persisted.Keys == s.store.Keys
       && forall e :: e in s.store && e != s.exam ==> r.value.state.store[e] == s.store[e])
    ensures r.Ok? ==> forall e :: e in s.store && e != s.exam ==> r.value.persisted[e] == s.store[e]
    ensures r.Ok? ==> s.current.value.id in r.value.persisted[s.exam].seen
    ensures r.Ok? ==>
      (r.value.persisted[s.exam].correct
       == s.store[s.exam].correct + (if r.value.isCorrect then 1 else 0))
    ensures r.Ok? ==>
      (r.value.persisted[s.exam]
       == Recording.Record(s.store[s.exam], s.current.value, selected, |s.bank[s.exam]|).saved)
    ensures r.Ok? ==>
      (r.value.state.store[s.exam]
       == Recording.Record(s.store[s.exam], s.current.value, selected, |s.bank[s.exam]|).next)
    ensures r.Ok? && !Recording.PassComplete(r.value.persisted[s.exam], |s.bank[s.exam]|) ==>
      r.value.state.store[s.exam] == r.value.persisted[s.exam]
    ensures r.Ok? ==> r.value.state.store[s.exam].pass >= s.store[s.exam].pass
  {
    match s.current
    case None => Err(NoActiveQuestion)
    case Some(q) =>
      var update := Recording.RecordInStore(s.store, s.exam, q, selected, |s.bank[s.exam]|);
      Ok(Answered(update.isCorrect, s.(store := update.store), update.persisted))
  }

  lemma LoadPreservesValid(s: State, pick: Fraction, distractor: Fraction, swap: bool)
    requires Valid(s)
    ensures Valid(Load(s, pick, distractor, swap).state)
  {
  }

  /** Answering keeps every seen list free of duplicates, and the other
      categories and the question bank untouched. */
  lemma AnswerPreservesValid(s: State, selected: string)
    requires Valid(s) && s.current.Some?
    ensures Valid(Answer(s, selected).value.state)
  {
  }

  /** The persisted snapshot is taken before the pass check: it holds the
      counts including this answer even when the live record rolls over. */
  lemma SnapshotBeforeRollover(s: State, selected: string)
    requires Valid(s) && s.current.Some?
    requires var p := s.store[s.exam];
      |p.seen| + (if s.current.value.id in p.seen then 0 else 1) >= |s.bank[s.exam]|
    ensures var r := Answer(s, selected).value;
      && r.state.store[s.exam] == Fresh(s.store[s.exam].pass + 1)
      && r.persisted[s.exam].pass == s.store[s.exam].pass
      && |r.persisted[s.exam].seen| >= |s.bank[s.exam]|
  {
  }
}
