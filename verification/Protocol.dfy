/** The concurrent part of a query: one worker per planned segment under an error group.

    The model is a transition system.  A run is a sequence of steps, and any enabled step may
    come next, so every interleaving of the workers, of the group's cancellation and of the
    caller's own cancellation or deadline is a run.  The error group, the contexts and their
    sticky cancellation follow their documented behaviour: the first error is kept, it is
    stored before the shared context is cancelled, and a context's error never changes. */
module Protocol {
  import opened Wrappers
  import opened Errors

  datatype Worker<D> =
    | NotStarted                                // group.Go not yet reached
    | Started                                   // before the repository lookup
    | Calling                                   // inside the repository
    | Returned(outcome: Result<D, Error>)       // before the observer is told
    | Observed(outcome: Result<D, Error>)       // before the slot is written or the error reported
    | Cancelling                                // stored the first error, about to cancel
    | Exited

  datatype Parent = Live | ParentCanceled | ParentExpired

  datatype First = First(worker: nat, error: Error)

  /** A query's fixed surroundings: for each segment whether its repository exists and the
      label its errors are wrapped in; what a repository may return, given what its context's
      Err() shows at that moment; and how the answers are merged. */
  datatype Config<!D> = Config(
    present: seq<bool>,
    labels: seq<string>,
    may: (nat, Result<D, Error>, Option<Error>) -> bool,
    merge: seq<D> -> Result<D, Error>,
    zero: D)
  {
    ghost predicate Valid() { |labels| == |present| }
  }

  datatype State<D> = State(
    workers: seq<Worker<D>>,
    slots: seq<Option<D>>,
    answers: seq<Option<Result<D, Error>>>,     // what each repository has returned
    spawned: nat,
    first: Option<First>,
    parent: Parent,
    ctx: Option<Error>,                         // the shared context's Err()
    reply: Option<Result<D, Error>>)

  datatype Step<D> =
    | Spawn
    | Lookup(i: nat)
    | Return(i: nat, out: Result<D, Error>)
    | Observe(i: nat)
    | Write(i: nat)
    | Report(i: nat)
    | Cancel(i: nat)
    | ParentEnds(how: Parent)
    | Propagate
    | Finish

  function Initial<D>(c: Config<D>): State<D> {
    State(seq(|c.present|, i => NotStarted), seq(|c.present|, i => None), seq(|c.present|, i => None),
          0, None, Live, None, None)
  }

  /** The error worker i hands to the group for an outcome that failed. */
  function Reported<D>(c: Config<D>, i: nat, e: Error): Error
    requires i < |c.present| == |c.labels|
  {
    if c.present[i] then Wrapped(c.labels[i], e) else e
  }

  /** The parts as the merge loop reads them; an unwritten slot would read as the zero part. */
  function Parts<D>(c: Config<D>, slots: seq<Option<D>>): (parts: seq<D>)
    ensures |parts| == |slots|
  {
    seq(|slots|, i requires 0 <= i < |slots| => if slots[i].Some? then slots[i].value else c.zero)
  }

  predicate Sized<D>(c: Config<D>, s: State<D>) {
    |s.workers| == |s.slots| == |s.answers| == |c.present| == |c.labels|
  }

  /** When a step can happen. */
  predicate Enabled<D>(c: Config<D>, s: State<D>, step: Step<D>) {
    Sized(c, s) && s.reply.None? &&
    match step
    case Spawn => s.spawned < |s.workers|
    case Lookup(i) => i < |s.workers| && s.workers[i].Started?
    case Return(i, out) => i < |s.workers| && s.workers[i].Calling? && c.may(i, out, s.ctx)
    case Observe(i) => i < |s.workers| && s.workers[i].Returned?
    case Write(i) => i < |s.workers| && s.workers[i].Observed? && s.workers[i].outcome.Success?
    case Report(i) => i < |s.workers| && s.workers[i].Observed? && s.workers[i].outcome.Failure?
    case Cancel(i) => i < |s.workers| && s.workers[i].Cancelling?
    case ParentEnds(how) => s.parent == Live && how != Live
    case Propagate => s.parent != Live && s.ctx.None?
    case Finish => s.spawned == |s.workers| && forall i :: 0 <= i < |s.workers| ==> s.workers[i].Exited?
  }

  function Apply<D>(c: Config<D>, s: State<D>, step: Step<D>): State<D>
    requires Enabled(c, s, step)
  {
    match step
    case Spawn =>
      s.(workers := s.workers[s.spawned := Started], spawned := s.spawned + 1)
    case Lookup(i) =>
      s.(workers := s.workers[i := if c.present[i] then Calling else Returned(Failure(InvalidArgument))])
    case Return(i, out) =>
      s.(workers := s.workers[i := Returned(out)], answers := s.answers[i := Some(out)])
    case Observe(i) =>
      s.(workers := s.workers[i := Observed(s.workers[i].outcome)])
    case Write(i) =>
      s.(workers := s.workers[i := Exited], slots := s.slots[i := Some(s.workers[i].outcome.value)])
    case Report(i) =>
      if s.first.None? then
        s.(workers := s.workers[i := Cancelling],
           first := Some(First(i, Reported(c, i, s.workers[i].outcome.error))))
      else
        s.(workers := s.workers[i := Exited])
    case Cancel(i) =>
      s.(workers := s.workers[i := Exited], ctx := if s.ctx.None? then Some(Canceled) else s.ctx)
    case ParentEnds(how) =>
      s.(parent := how)
    case Propagate =>
      s.(ctx := Some(if s.parent == ParentExpired then DeadlineExceeded else Canceled))
    case Finish =>
      s.(reply := Some(if s.first.Some? then Failure(s.first.value.error) else c.merge(Parts(c, s.slots))))
  }

  // ----- Runs -----

  /** The state after a sequence of steps, if each was enabled in turn. */
  function After<D>(c: Config<D>, steps: seq<Step<D>>): Option<State<D>> {
    if steps == [] then Some(Initial(c))
    else
      match After(c, steps[..|steps| - 1])
      case Some(s) =>
        var step := steps[|steps| - 1];
        if Enabled(c, s, step) then Some(Apply(c, s, step)) else None
      case None => None
  }

  // ----- The invariant -----

  /** How far worker i has come, and what its slot and answer must then be. */
  ghost predicate WorkerOk<D>(c: Config<D>, s: State<D>, i: nat)
    requires Sized(c, s) && i < |s.workers|
  {
    && (i >= s.spawned <==> s.workers[i].NotStarted?)
    && (s.answers[i].Some? <==>
          c.present[i] && !s.workers[i].NotStarted? && !s.workers[i].Started? && !s.workers[i].Calling?)
    && (s.workers[i].Calling? ==> c.present[i])
    && (s.workers[i].Returned? || s.workers[i].Observed? ==>
          s.workers[i].outcome == if c.present[i] then s.answers[i].value else Failure(InvalidArgument))
    && (s.slots[i].Some? <==> s.workers[i].Exited? && c.present[i] && s.answers[i].value.Success?)
    && (s.slots[i].Some? ==> s.slots[i].value == s.answers[i].value.value)
    && (s.workers[i].Cancelling? ==> Failed(c, s, i) && s.first.Some?)
    && (s.workers[i].Exited? && Failed(c, s, i) ==> s.first.Some?)
  }

  /** Worker i found no repository, or its repository has returned an error. */
  predicate Failed<D>(c: Config<D>, s: State<D>, i: nat)
    requires Sized(c, s) && i < |s.workers|
  {
    if c.present[i] then s.answers[i].Some? && s.answers[i].value.Failure?
    else s.workers[i].Returned? || s.workers[i].Observed? || s.workers[i].Cancelling? || s.workers[i].Exited?
  }

  /** The stored error is the report of a worker that failed, and when that worker is done the
      shared context is cancelled. */
  ghost predicate FirstOk<D>(c: Config<D>, s: State<D>)
    requires Sized(c, s)
  {
    s.first.Some? ==>
      var w := s.first.value.worker;
      && w < |s.workers|
      && (s.workers[w].Cancelling? || s.workers[w].Exited?)
      && Failed(c, s, w)
      && (s.workers[w].Exited? ==> s.ctx.Some?)
      && s.first.value.error == Reported(c, w, if c.present[w] then s.answers[w].value.error else InvalidArgument)
  }

  /** What the caller's own end shows in every context below it. */
  function CallerError(parent: Parent): Option<Error> {
    match parent
    case Live => None
    case ParentCanceled => Some(Canceled)
    case ParentExpired => Some(DeadlineExceeded)
  }

  /** The shared context is done only after an error was stored or the caller ended; until an
      error is stored it shows how the caller ended, and after that nothing but that or the
      group's cancellation. */
  ghost predicate ContextOk<D>(s: State<D>) {
    && (s.ctx.Some? ==> s.first.Some? || s.parent != Live)
    && (s.ctx.Some? && s.first.None? ==> s.ctx == CallerError(s.parent))
    && (s.ctx.Some? ==> s.ctx == Some(Canceled) || s.ctx == CallerError(s.parent))
  }

  ghost predicate ReplyOk<D>(c: Config<D>, s: State<D>)
    requires Sized(c, s)
  {
    s.reply.Some? ==>
      && (forall i :: 0 <= i < |s.workers| ==> s.workers[i].Exited?)
      && s.reply.value == if s.first.Some? then Failure(s.first.value.error) else c.merge(Parts(c, s.slots))
  }

  ghost predicate Inv<D>(c: Config<D>, s: State<D>) {
    && Sized(c, s)
    && s.spawned <= |s.workers|
    && (forall i: nat :: i < |s.workers| ==> WorkerOk(c, s, i))
    && FirstOk(c, s)
    && ContextOk(s)
    && ReplyOk(c, s)
  }

  lemma InitialInv<D>(c: Config<D>)
    requires c.Valid()
    ensures Inv(c, Initial(c))
  {
  }

  lemma StepKeepsWorker<D>(c: Config<D>, s: State<D>, step: Step<D>, i: nat)
    requires Inv(c, s) && Enabled(c, s, step) && i < |s.workers|
    ensures WorkerOk(c, Apply(c, s, step), i)
  {
    assert WorkerOk(c, s, i);
  }

  lemma StepKeepsInv<D>(c: Config<D>, s: State<D>, step: Step<D>)
    requires Inv(c, s) && Enabled(c, s, step)
    ensures Inv(c, Apply(c, s, step))
  {
    forall i: nat | i < |s.workers|
      ensures WorkerOk(c, Apply(c, s, step), i)
    {
      StepKeepsWorker(c, s, step, i);
    }
    StepKeepsFirst(c, s, step);
    if step.Cancel? {
      assert WorkerOk(c, s, step.i);
    }
  }

  /** What has happened stays: the caller's end, the first stored error, the shared context's
      error, answers and slots. */
  lemma StepsUndoNothing<D>(c: Config<D>, s: State<D>, step: Step<D>)
    requires Inv(c, s) && Enabled(c, s, step)
    ensures var t := Apply(c, s, step);
            && (s.parent != Live ==> t.parent == s.parent)
            && (s.first.Some? ==> t.first == s.first)
            && (s.ctx.Some? ==> t.ctx == s.ctx)
            && |t.slots| == |s.slots| && |t.answers| == |s.answers|
            && (forall i :: 0 <= i < |s.answers| && s.answers[i].Some? ==> t.answers[i] == s.answers[i])
            && (forall i :: 0 <= i < |s.slots| && s.slots[i].Some? ==> t.slots[i] == s.slots[i])
  {
    if step.Return? || step.Write? {
      assert WorkerOk(c, s, step.i);
    }
  }

  lemma StepKeepsFirst<D>(c: Config<D>, s: State<D>, step: Step<D>)
    requires Inv(c, s) && Enabled(c, s, step)
    ensures FirstOk(c, Apply(c, s, step))
  {
    if s.first.Some? {
      assert WorkerOk(c, s, s.first.value.worker);
    }
    if step.Report? {
      assert WorkerOk(c, s, step.i);
    }
  }

  /** Every state of every run satisfies the invariant. */
  lemma {:induction false} RunsKeepInv<D>(c: Config<D>, steps: seq<Step<D>>)
    requires c.Valid() && After(c, steps).Some?
    ensures Inv(c, After(c, steps).value)
    decreases |steps|
  {
    if steps == [] {
      InitialInv(c);
    } else {
      var before := steps[..|steps| - 1];
      RunsKeepInv(c, before);
      StepKeepsInv(c, After(c, before).value, steps[|steps| - 1]);
    }
  }

  // ----- No partial data -----

  /** Every repository has answered with data. */
  predicate AllAnswered<D>(s: State<D>) {
    forall i :: 0 <= i < |s.answers| ==> s.answers[i].Some? && s.answers[i].value.Success?
  }

  /** The segments' data in plan order. */
  function Data<D>(s: State<D>): (data: seq<D>)
    requires AllAnswered(s)
    ensures |data| == |s.answers|
    ensures forall i :: 0 <= i < |data| ==> data[i] == s.answers[i].value.value
  {
    seq(|s.answers|, i requires 0 <= i < |s.answers| => s.answers[i].value.value)
  }

  /** A run's reply is the merge, in plan order, of what every repository answered, or the
      report of one worker that failed; nothing in between.  In particular no unwritten slot
      reaches the merge. */
  lemma ReplyIsWholeOrError<D>(c: Config<D>, steps: seq<Step<D>>)
    requires c.Valid() && After(c, steps).Some? && After(c, steps).value.reply.Some?
    ensures var s := After(c, steps).value;
            if AllAnswered(s) then
              s.reply.value == c.merge(Data(s))
            else
              exists i: nat, e ::
                && i < |c.present|
                && (if c.present[i] then s.answers[i] == Some(Failure(e)) else e == InvalidArgument)
                && s.reply.value == Failure(Reported(c, i, e))
  {
    RunsKeepInv(c, steps);
    var s := After(c, steps).value;
    forall i: nat | i < |c.present|
      ensures WorkerOk(c, s, i) && s.workers[i].Exited?
    {
    }
    if AllAnswered(s) {
      AllAnsweredMeansNoError(c, s);
      forall i: nat | i < |c.present|
        ensures s.slots[i] == Some(s.answers[i].value.value)
      {
        assert WorkerOk(c, s, i);
      }
      assert Parts(c, s.slots) == Data(s);
    } else {
      var j: nat :| j < |c.present| && !(s.answers[j].Some? && s.answers[j].value.Success?);
      assert WorkerOk(c, s, j);
      assert s.first.Some?;
      var w := s.first.value.worker;
      assert WorkerOk(c, s, w);
      var e := if c.present[w] then s.answers[w].value.error else InvalidArgument;
      assert c.present[w] ==> s.answers[w] == Some(Failure(e));
      assert s.reply.value == Failure(Reported(c, w, e));
    }
  }

  lemma AllAnsweredMeansNoError<D>(c: Config<D>, s: State<D>)
    requires Inv(c, s) && AllAnswered(s)
    ensures s.first.None?
    ensures forall i :: 0 <= i < |c.present| ==> c.present[i]
  {
    forall i: nat | i < |c.present|
      ensures c.present[i] && !Failed(c, s, i)
    {
      assert WorkerOk(c, s, i) && s.answers[i].Some?;
    }
  }

  /** Segment i's repository may answer with d at some moment. */
  ghost predicate MayAnswer<D>(c: Config<D>, i: nat, d: D) {
    exists ctx: Option<Error> :: c.may(i, Success(d), ctx)
  }

  /** A reply with data merges, in plan order, data that each segment's repository returned. */
  lemma SuccessMergesAnswers<D>(c: Config<D>, steps: seq<Step<D>>)
    requires c.Valid() && After(c, steps).Some? && After(c, steps).value.reply.Some?
    requires After(c, steps).value.reply.value.Success?
    ensures var s := After(c, steps).value;
            && AllAnswered(s) && |s.answers| == |c.present|
            && s.reply.value == c.merge(Data(s))
            && forall i :: 0 <= i < |c.present| ==> MayAnswer(c, i, Data(s)[i])
  {
    ReplyIsWholeOrError(c, steps);
    RunsKeepInv(c, steps);
    var s := After(c, steps).value;
    assert AllAnswered(s);
    hide After;
    forall i | 0 <= i < |c.present|
      ensures MayAnswer(c, i, Data(s)[i])
    {
      AnswersAreAllowed(c, steps, i);
      var ctx: Option<Error> :| c.may(i, s.answers[i].value, ctx);
      assert c.may(i, Success(Data(s)[i]), ctx);
    }
  }

  /** Whatever data a repository returns for segment i is truth[i]. */
  ghost predicate Faithful<D(!new)>(c: Config<D>, truth: seq<D>) {
    && |truth| == |c.present|
    && forall i: nat, out: Result<D, Error>, ctx: Option<Error> ::
         i < |truth| && c.may(i, out, ctx) && out.Success? ==> out.value == truth[i]
  }

  lemma {:induction false} AnswersAreAllowed<D>(c: Config<D>, steps: seq<Step<D>>, i: nat)
    requires c.Valid() && After(c, steps).Some?
    requires i < |c.present| && After(c, steps).value.answers[i].Some?
    ensures exists ctx: Option<Error> :: c.may(i, After(c, steps).value.answers[i].value, ctx)
    decreases |steps|
  {
    if steps != [] {
      var before := steps[..|steps| - 1];
      var (s, step) := (After(c, before).value, steps[|steps| - 1]);
      RunsKeepInv(c, before);
      if step.Return? && step.i == i {
        assert c.may(i, step.out, s.ctx);
      } else {
        AnswersAreAllowed(c, before, i);
      }
    }
  }

  /** With faithful repositories, a run that fails nowhere replies with the merge of the true
      data, whatever its schedule; so any two such runs reply alike. */
  lemma SuccessIsTruth<D(!new)>(c: Config<D>, steps: seq<Step<D>>, truth: seq<D>)
    requires c.Valid() && After(c, steps).Some? && After(c, steps).value.reply.Some?
    requires Faithful(c, truth)
    ensures var s := After(c, steps).value;
            && (s.first.None? ==> s.reply.value == c.merge(truth))
            && (s.reply.value.Success? ==> s.reply.value == c.merge(truth))
  {
    ReplyIsWholeOrError(c, steps);
    RunsKeepInv(c, steps);
    var s := After(c, steps).value;
    forall i: nat | i < |c.present|
      ensures WorkerOk(c, s, i) && s.workers[i].Exited?
    {
    }
    if s.first.None? || s.reply.value.Success? {
      forall i: nat | i < |c.present|
        ensures s.answers[i].Some? && s.answers[i].value.Success? && s.answers[i].value.value == truth[i]
      {
        assert WorkerOk(c, s, i);
        AnswersAreAllowed(c, steps, i);
      }
      assert Data(s) == truth;
    }
  }

  /** Two runs over the same faithful repositories that both meet no failure reply alike,
      however differently they were scheduled. */
  lemma ScheduleDoesNotMatter<D(!new)>(c: Config<D>, a: seq<Step<D>>, b: seq<Step<D>>, truth: seq<D>)
    requires c.Valid() && Faithful(c, truth)
    requires After(c, a).Some? && After(c, a).value.reply.Some? && After(c, a).value.first.None?
    requires After(c, b).Some? && After(c, b).value.reply.Some? && After(c, b).value.first.None?
    ensures After(c, a).value.reply == After(c, b).value.reply
  {
    hide After, Faithful;
    SuccessIsTruth(c, a, truth);
    SuccessIsTruth(c, b, truth);
  }

  // ----- Slots and the observer -----

  /** A slot changes only when its own worker writes it, and then only once. */
  lemma SlotWrittenOnceByItsWorker<D>(c: Config<D>, s: State<D>, step: Step<D>, i: nat)
    requires Inv(c, s) && Enabled(c, s, step) && i < |s.slots|
    requires Apply(c, s, step).slots[i] != s.slots[i]
    ensures step == Write(i) && s.slots[i].None?
    ensures s.answers[i].Some? && s.answers[i].value.Success?
    ensures Apply(c, s, step).slots[i] == Some(s.answers[i].value.value)
    ensures Apply(c, s, step).workers[i].Exited?
  {
    assert WorkerOk(c, s, i);
  }

  /** The slots are read only by the last step, after which nothing happens.  By then every
      worker has exited, and unless an error was stored every slot holds its own repository's
      answer. */
  lemma NoReadBeforeAllExit<D>(c: Config<D>, steps: seq<Step<D>>, more: Step<D>)
    requires c.Valid() && After(c, steps).Some?
    ensures Sized(c, After(c, steps).value)
    ensures Enabled(c, After(c, steps).value, more) && more.Finish? ==> ReadyToRead(After(c, steps).value)
    ensures After(c, steps).value.reply.Some? ==> After(c, steps + [more]).None?
  {
    assert (steps + [more])[..|steps|] == steps;
    RunsKeepInv(c, steps);
    var s := After(c, steps).value;
    if Enabled(c, s, more) && more.Finish? {
      ExitedMeansWritten(c, s);
    }
  }

  ghost predicate ReadyToRead<D>(s: State<D>) {
    && (forall i :: 0 <= i < |s.workers| ==> s.workers[i].Exited?)
    && (s.first.None? ==> AllAnswered(s) && |s.slots| == |s.answers|)
    && (s.first.None? ==> forall i :: 0 <= i < |s.slots| ==> s.slots[i] == Some(s.answers[i].value.value))
  }

  lemma ExitedMeansWritten<D>(c: Config<D>, s: State<D>)
    requires Inv(c, s) && forall i :: 0 <= i < |s.workers| ==> s.workers[i].Exited?
    ensures ReadyToRead(s)
  {
    forall i: nat | i < |s.workers| && s.first.None?
      ensures s.answers[i].Some? && s.answers[i].value.Success? && s.slots[i] == Some(s.answers[i].value.value)
    {
      assert WorkerOk(c, s, i);
    }
  }

  /** How often segment i's observer has been called. */
  function Observations<D>(steps: seq<Step<D>>, i: nat): nat {
    if steps == [] then 0
    else
      var last := steps[|steps| - 1];
      Observations(steps[..|steps| - 1], i) + (if last.Observe? && last.i == i then 1 else 0)
  }

  predicate PastObserver<D>(w: Worker<D>) {
    w.Observed? || w.Cancelling? || w.Exited?
  }

  /** Only its own observer call takes a worker past the observer. */
  lemma StepObserves<D>(c: Config<D>, s: State<D>, step: Step<D>, i: nat)
    requires Inv(c, s) && Enabled(c, s, step) && i < |s.workers|
    ensures |Apply(c, s, step).workers| == |s.workers|
    ensures PastObserver(Apply(c, s, step).workers[i])
       <==> PastObserver(s.workers[i]) || step == Observe(i)
    ensures step == Observe(i) ==> !PastObserver(s.workers[i])
  {
    assert WorkerOk(c, s, i);
  }

  lemma {:induction false} ObservationsCount<D>(c: Config<D>, steps: seq<Step<D>>, i: nat)
    requires c.Valid() && After(c, steps).Some? && i < |c.present|
    ensures |After(c, steps).value.workers| == |c.present|
    ensures Observations(steps, i) == if PastObserver(After(c, steps).value.workers[i]) then 1 else 0
    decreases |steps|
  {
    if steps != [] {
      var before := steps[..|steps| - 1];
      ObservationsCount(c, before, i);
      RunsKeepInv(c, before);
      hide Apply, Inv, PastObserver;
      StepObserves(c, After(c, before).value, steps[|steps| - 1], i);
    }
  }

  /** By the time a query replies, the observer has been called exactly once per segment. */
  lemma ObservedExactlyOnce<D>(c: Config<D>, steps: seq<Step<D>>, i: nat)
    requires c.Valid() && After(c, steps).Some? && After(c, steps).value.reply.Some?
    requires i < |c.present|
    ensures Observations(steps, i) == 1
  {
    ObservationsCount(c, steps, i);
    RunsKeepInv(c, steps);
    assert After(c, steps).value.workers[i].Exited?;
  }

  // ----- The reported error is a root cause -----

  /** Worker i's answer is one its repository gives under a live context or under one that shows
      how the caller ended, or there is no repository to answer. */
  ghost predicate AnsweredOnItsOwn<D>(c: Config<D>, s: State<D>, i: nat)
    requires Sized(c, s) && i < |s.workers|
  {
    c.present[i] ==>
      s.answers[i].Some?
      && (c.may(i, s.answers[i].value, None)
          || (s.parent != Live && c.may(i, s.answers[i].value, CallerError(s.parent))))
  }

  /** Everything answered before an error was stored was answered free of the group's own
      cancellation, and so was the error that was stored. */
  ghost predicate RootCause<D>(c: Config<D>, s: State<D>)
    requires Sized(c, s)
  {
    && (s.first.None? ==> forall i: nat :: i < |s.workers| && s.answers[i].Some? ==> AnsweredOnItsOwn(c, s, i))
    && (s.first.Some? ==> s.first.value.worker < |s.workers| && AnsweredOnItsOwn(c, s, s.first.value.worker))
  }

  lemma StepKeepsRootCause<D>(c: Config<D>, s: State<D>, step: Step<D>)
    requires Inv(c, s) && Enabled(c, s, step) && RootCause(c, s)
    ensures RootCause(c, Apply(c, s, step))
  {
    if step.Return? {
      assert WorkerOk(c, s, step.i);
    }
    if step.Report? {
      assert WorkerOk(c, s, step.i);
    }
  }

  lemma {:induction false} RunsKeepRootCause<D>(c: Config<D>, steps: seq<Step<D>>)
    requires c.Valid() && After(c, steps).Some?
    ensures Sized(c, After(c, steps).value) && RootCause(c, After(c, steps).value)
    decreases |steps|
  {
    if steps != [] {
      var before := steps[..|steps| - 1];
      RunsKeepRootCause(c, before);
      RunsKeepInv(c, before);
      hide Enabled, Apply, Inv, RootCause;
      StepKeepsRootCause(c, After(c, before).value, steps[|steps| - 1]);
    }
    RunsKeepInv(c, steps);
  }

  /** A stored error is what the query replies with, and it reports a missing repository or a
      failure answered under a live context or, when the caller cancelled or timed out, under
      one that showed just that.  So nothing that the group's own cancellation induced in a
      sibling, under whatever name, is ever reported. */
  lemma ErrorIsRootCause<D>(c: Config<D>, steps: seq<Step<D>>)
    requires c.Valid()
    requires After(c, steps).Some? && After(c, steps).value.reply.Some?
    requires After(c, steps).value.first.Some?
    ensures var s := After(c, steps).value;
            var (w, e) := (s.first.value.worker, s.first.value.error);
            && s.reply.value == Failure(e)
            && w < |c.present| == |c.labels| == |s.answers|
            && (c.present[w] ==>
                  exists cause ::
                    && s.answers[w] == Some(Failure(cause)) && e == Wrapped(c.labels[w], cause)
                    && (c.may(w, Failure(cause), None)
                        || (s.parent != Live && c.may(w, Failure(cause), CallerError(s.parent)))))
            && (!c.present[w] ==> e == InvalidArgument)
  {
    RunsKeepRootCause(c, steps);
    RunsKeepInv(c, steps);
    var s := After(c, steps).value;
    var w := s.first.value.worker;
    if c.present[w] {
      assert s.answers[w] == Some(Failure(s.answers[w].value.error));
    }
  }

  /** A repository reports a cancellation only once its context is done. */
  ghost predicate HonestCancellation<D(!new)>(c: Config<D>) {
    forall i: nat, out: Result<D, Error> ::
      c.may(i, out, None) && out.Failure? ==> !Is(out.error, Canceled)
  }

  /** So with such repositories no cancellation is reported while the caller stays. */
  lemma NoInducedCancellation<D(!new)>(c: Config<D>, steps: seq<Step<D>>)
    requires c.Valid() && HonestCancellation(c)
    requires After(c, steps).Some? && After(c, steps).value.reply.Some?
    requires After(c, steps).value.first.Some? && After(c, steps).value.parent == Live
    ensures After(c, steps).value.reply.value.Failure?
    ensures !Is(After(c, steps).value.reply.value.error, Canceled)
  {
    ErrorIsRootCause(c, steps);
    var s := After(c, steps).value;
    var w := s.first.value.worker;
    if c.present[w] {
      WrappingKeepsClass(c.labels[w], s.answers[w].value.error);
    }
  }

  /** A repository fails only when its context is done. */
  ghost predicate FailsOnlyWhenDone<D(!new)>(c: Config<D>) {
    forall i: nat, out: Result<D, Error> :: c.may(i, out, None) ==> out.Success?
  }

  /** Repositories that are all there and fail only with their contexts make no query fail
      while the caller stays: every such run replies with the merge of the true data. */
  lemma CallerStaysMeansTruth<D(!new)>(c: Config<D>, steps: seq<Step<D>>, truth: seq<D>)
    requires c.Valid() && FailsOnlyWhenDone(c) && Faithful(c, truth)
    requires forall i :: 0 <= i < |c.present| ==> c.present[i]
    requires After(c, steps).Some? && After(c, steps).value.reply.Some?
    requires After(c, steps).value.parent == Live
    ensures After(c, steps).value.reply.value == c.merge(truth)
  {
    if After(c, steps).value.first.Some? {
      ErrorIsRootCause(c, steps);
      assert false;
    }
    SuccessIsTruth(c, steps, truth);
  }

  /** A repository fails only with the error its context shows. */
  ghost predicate FailsWithContext<D(!new)>(c: Config<D>) {
    forall i: nat, out: Result<D, Error>, ctx: Option<Error> ::
      c.may(i, out, ctx) && out.Failure? ==> ctx == Some(out.error)
  }

  /** The caller's own end and nothing else: a timeout is reported as a deadline and maps to 504,
      a cancellation as one and maps to 500. */
  predicate ReportsCaller(parent: Parent, e: Error) {
    match parent
    case Live => false
    case ParentCanceled => Is(e, Canceled) && !Is(e, DeadlineExceeded) && MapDomainError(e) == Internal500
    case ParentExpired => Is(e, DeadlineExceeded) && !Is(e, Canceled) && MapDomainError(e) == GatewayTimeout504
  }

  lemma WrappedCallerError(text: string, parent: Parent)
    requires parent != Live
    ensures ReportsCaller(parent, Wrapped(text, CallerError(parent).value))
  {
    WrappingKeepsClass(text, CallerError(parent).value);
  }

  /** Repositories that are all there and fail only with their contexts leave two ways for a
      query to end: with the merge of the true data or, when its caller timed out or cancelled,
      with a failure that says exactly that. */
  lemma OnlyCallersEndQueries<D(!new)>(c: Config<D>, steps: seq<Step<D>>, truth: seq<D>)
    requires c.Valid() && FailsWithContext(c) && Faithful(c, truth)
    requires forall i :: 0 <= i < |c.present| ==> c.present[i]
    requires After(c, steps).Some? && After(c, steps).value.reply.Some?
    ensures var s := After(c, steps).value;
            || s.reply.value == c.merge(truth)
            || (s.reply.value.Failure? && ReportsCaller(s.parent, s.reply.value.error))
  {
    var s := After(c, steps).value;
    if s.first.Some? {
      ErrorIsRootCause(c, steps);
      var w := s.first.value.worker;
      if s.parent == Live {
        assert false;
      } else {
        WrappedCallerError(c.labels[w], s.parent);
      }
    } else {
      SuccessIsTruth(c, steps, truth);
    }
  }

  /** Callers may cancel or time out at any moment before the reply, and then the shared context
      may follow. */
  lemma CallersEndAnyTime<D>(c: Config<D>, s: State<D>, how: Parent)
    requires Inv(c, s) && s.reply.None? && s.parent == Live && how != Live
    ensures Enabled(c, s, ParentEnds(how))
    ensures s.ctx.None? ==> Enabled(c, Apply(c, s, ParentEnds(how)), Propagate)
    ensures s.ctx.None? ==> Apply(c, Apply(c, s, ParentEnds(how)), Propagate).ctx == CallerError(how)
  {
  }

  lemma OneStep<D>(c: Config<D>, steps: seq<Step<D>>, step: Step<D>, s: State<D>)
    requires After(c, steps) == Some(s) && Enabled(c, s, step)
    ensures After(c, steps + [step]) == Some(Apply(c, s, step))
  {
    assert (steps + [step])[..|steps|] == steps;
  }

  /** A run of one segment whose caller ends while the repository is at work, and whose
      repository then gives up with what its context shows: the reply is just that. */
  lemma CallersEndIsReported<D>(c: Config<D>, how: Parent) returns (steps: seq<Step<D>>)
    requires c.Valid() && c.present == [true] && how != Live
    requires c.may(0, Failure(CallerError(how).value), CallerError(how))
    ensures After(c, steps).Some? && After(c, steps).value.parent == how
    ensures After(c, steps).value.reply == Some(Failure(Wrapped(c.labels[0], CallerError(how).value)))
  {
    hide After;
    var e := CallerError(how).value;
    steps := [];
    AtStart(c);
    var s := Alone(NotStarted, None, 0, None, Live, None);
    steps, s := Take(c, steps, s, Spawn, Alone(Started, None, 1, None, Live, None));
    steps, s := Take(c, steps, s, Lookup(0), Alone(Calling, None, 1, None, Live, None));
    steps, s := Take(c, steps, s, ParentEnds(how), Alone(Calling, None, 1, None, how, None));
    steps, s := Take(c, steps, s, Propagate, Alone(Calling, None, 1, None, how, Some(e)));
    steps, s := Take(c, steps, s, Return(0, Failure(e)),
                     Alone(Returned(Failure(e)), Some(Failure(e)), 1, None, how, Some(e)));
    steps, s := Take(c, steps, s, Observe(0), Alone(Observed(Failure(e)), Some(Failure(e)), 1, None, how, Some(e)));
    var first := Some(First(0, Wrapped(c.labels[0], e)));
    steps, s := Take(c, steps, s, Report(0), Alone(Cancelling, Some(Failure(e)), 1, first, how, Some(e)));
    steps, s := Take(c, steps, s, Cancel(0), Alone(Exited, Some(Failure(e)), 1, first, how, Some(e)));
    LastStep(c, steps, s, first.value);
    steps := steps + [Finish];
  }

  /** The state of a query of one segment that has written no slot and not replied. */
  function Alone<D>(w: Worker<D>, answer: Option<Result<D, Error>>, spawned: nat, first: Option<First>,
                    parent: Parent, ctx: Option<Error>): State<D>
  {
    State([w], [None], [answer], spawned, first, parent, ctx, None)
  }

  lemma Take<D>(c: Config<D>, steps: seq<Step<D>>, s: State<D>, step: Step<D>, t: State<D>)
    returns (more: seq<Step<D>>, next: State<D>)
    requires After(c, steps) == Some(s) && Reaches(c, s, step, t)
    ensures more == steps + [step] && next == t && After(c, more) == Some(t)
  {
    OneStep(c, steps, step, s);
    more, next := steps + [step], t;
  }

  ghost predicate Reaches<D>(c: Config<D>, s: State<D>, step: Step<D>, t: State<D>) {
    Enabled(c, s, step) && Apply(c, s, step) == t
  }

  lemma LastStep<D>(c: Config<D>, steps: seq<Step<D>>, s: State<D>, first: First)
    requires After(c, steps) == Some(s) && c.Valid() && |c.present| == 1
    requires s.workers == [Exited] && |s.slots| == |s.answers| == 1 && s.spawned == 1 && s.first == Some(first)
    requires s.reply.None?
    ensures After(c, steps + [Finish]) == Some(s.(reply := Some(Failure(first.error))))
  {
    OneStep(c, steps, Finish, s);
  }

  lemma AtStart<D>(c: Config<D>)
    requires |c.present| == 1
    ensures After(c, []) == Some(Alone(NotStarted, None, 0, None, Live, None))
  {
    assert Initial(c).workers == [NotStarted] && Initial(c).slots == [None] && Initial(c).answers == [None];
  }

  // ----- Every run ends -----

  /** Steps a worker still has before it. */
  function Remaining<D>(w: Worker<D>): nat {
    match w
    case NotStarted => 6
    case Started => 5
    case Calling => 4
    case Returned(_) => 3
    case Observed(_) => 2
    case Cancelling => 1
    case Exited => 0
  }

  function RemainingAll<D>(workers: seq<Worker<D>>): nat {
    if workers == [] then 0
    else RemainingAll(workers[..|workers| - 1]) + Remaining(workers[|workers| - 1])
  }

  lemma {:induction false} RemainingUpdate<D>(workers: seq<Worker<D>>, i: nat, w: Worker<D>)
    requires i < |workers|
    ensures RemainingAll(workers[i := w]) == RemainingAll(workers) - Remaining(workers[i]) + Remaining(w)
    decreases |workers|
  {
    var n := |workers| - 1;
    if i < n {
      RemainingUpdate(workers[..n], i, w);
      assert workers[i := w][..n] == workers[..n][i := w];
    } else {
      assert workers[i := w][..n] == workers[..n];
    }
  }

  lemma {:induction false} RemainingAtStart<D>(workers: seq<Worker<D>>)
    requires forall i :: 0 <= i < |workers| ==> workers[i].NotStarted?
    ensures RemainingAll(workers) == 6 * |workers|
    decreases |workers|
  {
    if workers != [] {
      RemainingAtStart(workers[..|workers| - 1]);
    }
  }

  function Rank<D>(s: State<D>): nat {
    RemainingAll(s.workers) + (if s.parent == Live then 1 else 0)
      + (if s.ctx.None? then 1 else 0) + (if s.reply.None? then 1 else 0)
  }

  lemma StepLowersRank<D>(c: Config<D>, s: State<D>, step: Step<D>)
    requires Inv(c, s) && Enabled(c, s, step)
    ensures Rank(Apply(c, s, step)) < Rank(s)
  {
    match step
    case Spawn =>
      assert WorkerOk(c, s, s.spawned);
      RemainingUpdate(s.workers, s.spawned, Started);
    case ParentEnds(_) =>
    case Propagate =>
    case Finish =>
    case Lookup(i) => RemainingUpdate(s.workers, i, Apply(c, s, step).workers[i]);
    case Return(i, _) => RemainingUpdate(s.workers, i, Apply(c, s, step).workers[i]);
    case Observe(i) => RemainingUpdate(s.workers, i, Apply(c, s, step).workers[i]);
    case Write(i) => RemainingUpdate(s.workers, i, Exited);
    case Report(i) => RemainingUpdate(s.workers, i, Apply(c, s, step).workers[i]);
    case Cancel(i) => RemainingUpdate(s.workers, i, Exited);
  }

  lemma {:induction false} RunsAreBounded<D>(c: Config<D>, steps: seq<Step<D>>)
    requires c.Valid() && After(c, steps).Some?
    ensures |steps| + Rank(After(c, steps).value) <= 6 * |c.present| + 3
    decreases |steps|
  {
    if steps == [] {
      RemainingAtStart(Initial(c).workers);
    } else {
      var before := steps[..|steps| - 1];
      RunsAreBounded(c, before);
      RunsKeepInv(c, before);
      StepLowersRank(c, After(c, before).value, steps[|steps| - 1]);
    }
  }

  /** Each repository has something to return at any time. */
  ghost predicate Responsive<D(!new)>(c: Config<D>) {
    forall i: nat, ctx: Option<Error> :: i < |c.present| ==> MayRespond(c, i, ctx)
  }

  ghost predicate MayRespond<D(!new)>(c: Config<D>, i: nat, ctx: Option<Error>) {
    exists out: Result<D, Error> :: c.may(i, out, ctx)
  }

  /** A query never gets stuck: as long as each repository called has something to return, a
      run without a reply can go on, and no run is longer than 6 steps a segment and 3. */
  lemma RunsNeverStick<D(!new)>(c: Config<D>, steps: seq<Step<D>>)
    requires c.Valid() && After(c, steps).Some? && Responsive(c)
    ensures |steps| <= 6 * |c.present| + 3
    ensures After(c, steps).value.reply.None? ==>
              exists step: Step<D> :: !step.ParentEnds? && After(c, steps + [step]).Some?
  {
    RunsAreBounded(c, steps);
    RunsKeepInv(c, steps);
    var s := After(c, steps).value;
    if s.reply.None? {
      var step := SomeStep(c, s);
      assert (steps + [step])[..|steps|] == steps;
      assert !step.ParentEnds? && After(c, steps + [step]).Some?;
    }
  }

  lemma SomeStep<D(!new)>(c: Config<D>, s: State<D>) returns (step: Step<D>)
    requires Inv(c, s) && s.reply.None? && Responsive(c)
    ensures Enabled(c, s, step) && !step.ParentEnds?
  {
    if i: nat :| i < |s.workers| && !s.workers[i].Exited? {
      assert WorkerOk(c, s, i);
      match s.workers[i]
      case NotStarted => step := Spawn;
      case Started => step := Lookup(i);
      case Calling =>
        assert MayRespond(c, i, s.ctx);
        var out: Result<D, Error> :| c.may(i, out, s.ctx);
        step := Return(i, out);
      case Returned(_) => step := Observe(i);
      case Observed(out) => step := if out.Success? then Write(i) else Report(i);
      case Cancelling => step := Cancel(i);
    } else {
      if |s.workers| > 0 {
        assert WorkerOk(c, s, |s.workers| - 1);
      }
      step := Finish;
    }
  }
}
