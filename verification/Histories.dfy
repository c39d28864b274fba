/** What has happened to a job: its state follows from steps of threads that have dealt with it. */
module Histories {
  import opened Jobs

  /** Steps after which the job isn't running: the client knows that it has finished, its thread has ended or couldn't
      be created, or its process is found to have exited. */
  predicate Ends(s: State, a: Action, id: Id)
    requires Enabled(s, a)
  {
    || a == MarkFinished(id)
    || a == TaskEnds(id)
    || (a == StartTask(false) && s.starting.id == id)
    || (a == CheckStatus(true) && s.main.todo[0] == id)
  }

  predicate HasEnded(run: Run, id: Id)
    requires IsRun(run)
  {
    run.Step? && (HasEnded(run.before, id) || Ends(After(run.before), run.action, id))
  }

  /** The step that makes the job. */
  predicate Adds(a: Action, id: Id) {
    a.AddBackgroundJob? && a.id == id
  }

  predicate HasErrorStream(run: Run, id: Id) {
    run.Step? && if Adds(run.action, id) then run.action.hasErrors else HasErrorStream(run.before, id)
  }

  predicate IsCommand(run: Run, id: Id) {
    run.Step? && if Adds(run.action, id) then run.action.command else IsCommand(run.before, id)
  }

  predicate Exists(run: Run, id: Id) {
    run.Step? && (Adds(run.action, id) || Exists(run.before, id))
  }

  /** Whether the job has a thread. */
  predicate HasThread(run: Run, id: Id)
    requires IsRun(run)
  {
    run.Step? &&
    var s, a := After(run.before), run.action;
    if a.StartTask? && s.starting.id == id then a.started
    else a != TaskEnds(id) && HasThread(run.before, id)
  }

  /** The error thread starts to read the stream of the job. */
  predicate Imports(s: State, a: Action, id: Id)
    requires Enabled(s, a)
  {
    a.PrependNext? && s.errorThread.imported != [] && s.errorThread.imported[0] == id
  }

  /** Whether reading of the stream has come to its end. */
  predicate IsDrained(run: Run, id: Id)
    requires IsRun(run)
  {
    run.Step? &&
    var s, a := After(run.before), run.action;
    if Adds(a, id) then a.garbage
    else a == ReadEnd(id) || (!Imports(s, a, id) && IsDrained(run.before, id))
  }

  /** The error thread looks at the job while dropping those it's done with. */
  predicate LooksAt(s: State, a: Action, id: Id)
    requires Enabled(s, a)
  {
    a.FreeDrainedStep? && s.errorThread.pos < |s.errJobs| && s.errJobs[s.errorThread.pos] == id
  }

  /** Whether the error thread is done with the job. */
  predicate IsDropped(run: Run, id: Id)
    requires IsRun(run)
  {
    run.Step?
    && (IsDropped(run.before, id)
        || (LooksAt(After(run.before), run.action, id) && IsDrained(run.before, id)))
  }

  /** What had been written by the time errors of the job were last taken to be shown. */
  function TakenText(run: Run, id: Id): Text
    requires IsRun(run)
  {
    match run
    case Start => ""
    case Step(before, a) =>
      if a.TakeErrors? && After(before).main.todo[0] == id then Written(before, id) else TakenText(before, id)
  }

  /** The function that was set last is to be called unless it already has been. */
  predicate HasCallback(run: Run, id: Id)
    requires IsRun(run)
  {
    run.Step? &&
    var a := run.action;
    if a.SetExitCallback? && a.id == id then a.some
    else !(a.CallbackReturns? && After(run.before).main.todo[0] == id) && HasCallback(run.before, id)
  }

  lemma ShowingIsRecorded(s: State, a: Action, id: Id)
    requires Enabled(s, a) && id in s.jobs
    ensures id in Next(s, a).jobs
    ensures Next(s, a).jobs[id].shown
            == s.jobs[id].shown + if a.TakeErrors? && s.main.todo[0] == id then s.jobs[id].newErrors else ""
  {
    hide State.MayUse, State.ClientRuns, State.Calling;
    assert s.jobs[id].shown + "" == s.jobs[id].shown;
    match a
    case TakeErrors(_) =>
    case _ =>
  }

  lemma CallbackIsRecorded(s: State, a: Action, id: Id)
    requires Enabled(s, a) && id in s.jobs
    ensures id in Next(s, a).jobs
    ensures Next(s, a).jobs[id].callback
            == if a.SetExitCallback? && a.id == id then a.some
               else !(a.CallbackReturns? && s.main.todo[0] == id) && s.jobs[id].callback
  {
    hide State.MayUse, State.ClientRuns;
    match a
    case SetExitCallback(_, _) =>
    case CallbackReturns =>
    case _ =>
  }

  lemma NewJobHasNothing(s: State, a: Action, id: Id)
    requires Enabled(s, a) && id !in s.jobs
    ensures id in Next(s, a).jobs ==> Next(s, a).jobs[id].shown == "" && !Next(s, a).jobs[id].callback
    ensures !(a.SetExitCallback? && a.id == id)
    ensures !((a.TakeErrors? || a.CallbackReturns?) && s.main.todo[0] == id)
  {
  }

  lemma OthersDontEnd(s: State, a: Action, id: Id)
    requires Enabled(s, a) && id in s.jobs
    requires !a.StartTask? && !a.MarkFinished? && !a.TaskEnds? && !a.CheckStatus?
    ensures id in Next(s, a).jobs && Next(s, a).jobs[id].running == s.jobs[id].running
  {
    hide State.MayUse, State.ClientRuns, State.Calling;
  }

  lemma StartAndCheckEnd(s: State, a: Action, id: Id)
    requires Enabled(s, a) && id in s.jobs && (a.StartTask? || a.CheckStatus?)
    ensures id in Next(s, a).jobs && Next(s, a).jobs[id].running == (s.jobs[id].running && !Ends(s, a, id))
  {
    match a
    case StartTask(_) =>
    case CheckStatus(_) =>
  }

  lemma EndIsRecorded(s: State, a: Action, id: Id)
    requires Enabled(s, a) && id in s.jobs
    ensures id in Next(s, a).jobs && Next(s, a).jobs[id].running == (s.jobs[id].running && !Ends(s, a, id))
  {
    hide Next, Enabled;
    match a
    case StartTask(_) => StartAndCheckEnd(s, a, id);
    case CheckStatus(_) => StartAndCheckEnd(s, a, id);
    case MarkFinished(_) => ClientEnds(s, a, id);
    case TaskEnds(_) => ClientEnds(s, a, id);
    case _ => OthersDontEnd(s, a, id);
  }

  lemma ClientEnds(s: State, a: Action, id: Id)
    requires Enabled(s, a) && id in s.jobs && (a.MarkFinished? || a.TaskEnds?)
    ensures id in Next(s, a).jobs && Next(s, a).jobs[id].running == (s.jobs[id].running && !Ends(s, a, id))
  {
    match a
    case MarkFinished(_) =>
    case TaskEnds(_) =>
  }

  lemma ThreadIsRecorded(s: State, a: Action, id: Id)
    requires Enabled(s, a) && id in s.jobs
    ensures id in Next(s, a).jobs
    ensures Next(s, a).jobs[id].task
            == if a.StartTask? && s.starting.id == id then a.started else a != TaskEnds(id) && s.jobs[id].task
  {
    hide State.MayUse, State.ClientRuns, State.Calling;
    match a
    case StartTask(_) =>
    case TaskEnds(_) =>
    case _ =>
  }

  lemma JobsExist(s: State, a: Action, id: Id)
    requires Enabled(s, a) && id in s.jobs
    ensures id in Next(s, a).jobs && !Adds(a, id)
  {
  }

  lemma KindIsRecorded(s: State, a: Action, id: Id)
    requires Enabled(s, a) && id in s.jobs && id in Next(s, a).jobs && !Adds(a, id)
    ensures Next(s, a).jobs[id].command == s.jobs[id].command
    ensures Next(s, a).jobs[id].hasErrors == s.jobs[id].hasErrors
  {
    hide State.MayUse, State.ClientRuns, State.Calling, NewJob;
  }

  lemma EndOfStreamIsRecorded(s: State, a: Action, id: Id)
    requires Enabled(s, a) && id in s.jobs
    ensures id in Next(s, a).jobs
    ensures Next(s, a).jobs[id].drained == (a == ReadEnd(id) || (!Imports(s, a, id) && s.jobs[id].drained))
  {
    hide State.MayUse, State.ClientRuns, State.Calling;
    match a
    case PrependNext =>
    case ReadEnd(_) =>
    case _ =>
  }

  lemma DropIsRecorded(s: State, a: Action, id: Id)
    requires Enabled(s, a) && id in s.jobs
    ensures id in Next(s, a).jobs
    ensures Next(s, a).jobs[id].erroring == (s.jobs[id].erroring && !(LooksAt(s, a, id) && s.jobs[id].drained))
  {
    hide State.MayUse, State.ClientRuns, State.Calling;
    match a
    case FreeDrainedStep =>
    case _ =>
  }

  lemma NewJobIs(s: State, a: Action, id: Id)
    requires Enabled(s, a) && id !in s.jobs
    ensures id in Next(s, a).jobs <==> Adds(a, id)
    ensures Adds(a, id) ==>
              var job := Next(s, a).jobs[id];
              && job.running && !job.task && job.command == a.command && job.hasErrors == job.erroring == a.hasErrors
              && job.drained == a.garbage
  {
    hide State.ClientRuns;
  }

  lemma NobodyUsesUnknown(s: State, a: Action, id: Id)
    requires Enabled(s, a) && id !in s.jobs
    ensures !Ends(s, a, id) && !(a.StartTask? && s.starting.id == id) && a != TaskEnds(id) && a != ReadEnd(id)
    ensures !Imports(s, a, id) && !LooksAt(s, a, id)
  {
    hide Next;
  }

  /** A job is running until one of the steps that end it, has a thread since a successful start until its end, and is
      of interest to the error thread until everything has been read from the stream and then noticed. */
  lemma {:induction false} StateIsRecorded(run: Run, id: Id)
    requires IsRun(run)
    ensures id in After(run).jobs <==> Exists(run, id)
    ensures id in After(run).jobs ==>
              var job := After(run).jobs[id];
              && job.running == !HasEnded(run, id)
              && job.task == HasThread(run, id)
              && job.command == IsCommand(run, id)
              && job.hasErrors == HasErrorStream(run, id)
              && job.drained == IsDrained(run, id)
              && job.erroring == (HasErrorStream(run, id) && !IsDropped(run, id))
    ensures id !in After(run).jobs ==>
              && !HasEnded(run, id) && !HasThread(run, id) && !IsCommand(run, id) && !HasErrorStream(run, id)
              && !IsDrained(run, id) && !IsDropped(run, id)
  {
    hide Next, Enabled, Careful, Ends, Imports, LooksAt, Adds;
    if run.Step? {
      var s, a := After(run.before), run.action;
      StateIsRecorded(run.before, id);
      if id in s.jobs {
        EndIsRecorded(s, a, id);
        ThreadIsRecorded(s, a, id);
        JobsExist(s, a, id);
        KindIsRecorded(s, a, id);
        EndOfStreamIsRecorded(s, a, id);
        DropIsRecorded(s, a, id);
      } else {
        NewJobIs(s, a, id);
        NobodyUsesUnknown(s, a, id);
      }
    }
  }

  /** Text is shown up to what had been written when it was taken, and the function to call is the last one. */
  lemma {:induction false} OutputIsRecorded(run: Run, id: Id)
    requires IsRun(run)
    ensures id in After(run).jobs ==>
              After(run).jobs[id].shown == TakenText(run, id) && After(run).jobs[id].callback == HasCallback(run, id)
    ensures id !in After(run).jobs ==> TakenText(run, id) == "" && !HasCallback(run, id)
  {
    hide Next, Enabled, Careful, Written;
    if run.Step? {
      var s, a := After(run.before), run.action;
      OutputIsRecorded(run.before, id);
      if id in s.jobs {
        TextIsKept(run.before, id);
        ShowingIsRecorded(s, a, id);
        CallbackIsRecorded(s, a, id);
      } else {
        NewJobHasNothing(s, a, id);
      }
    }
  }

  /** Numbers of references are known as well. */
  lemma UsesAreRecorded(run: Run, id: Id)
    requires IsRun(run) && Exists(run, id)
    ensures id in After(run).jobs
    ensures After(run).jobs[id].useCount
            == References(run, id) + if HasErrorStream(run, id) && !IsDropped(run, id) then 1 else 0
  {
    hide Next, Enabled, State.MainList, State.ErrorList, After, IsRun, References, HasErrorStream, IsDropped,
      IsForgotten, HasEnded, HasThread, IsCommand, IsDrained, Exists;
    StateIsRecorded(run, id);
    HistoryIsRecorded(run, id);
    JobsAreSafe(run, id);
  }

  /** A job is freed only after it has ended, all references were dropped and the error thread was done with it. */
  lemma FreedHasEnded(run: Run, id: Id)
    requires IsRun(run) && Freed(run, id) > 0
    ensures Exists(run, id) && HasEnded(run, id) && References(run, id) == 0
    ensures HasErrorStream(run, id) ==> IsDropped(run, id)
  {
    hide Next, Enabled, State.MainList, State.ErrorList, After, IsRun, References, HasErrorStream, IsDropped,
      IsForgotten, HasEnded, HasThread, IsCommand, IsDrained, Exists, Freed;
    StateIsRecorded(run, id);
    FreedOnce(run, id);
    UsesAreRecorded(run, id);
    JobsAreSafe(run, id);
    HistoryIsRecorded(run, id);
  }

  /** Functions are called only for jobs that have ended. */
  lemma CalledHasEnded(run: Run)
    requires IsRun(run) && Enabled(After(run), CallBack)
    ensures HasEnded(run, After(run).main.todo[0]) && Freed(run, After(run).main.todo[0]) == 0
  {
    hide Next, State.MainList, State.ErrorList, IsRun, References, HasErrorStream, IsDropped, HasEnded, HasThread,
      IsCommand, IsDrained, Exists, Freed;
    var id := After(run).main.todo[0];
    CalledAfterExit(run);
    StateIsRecorded(run, id);
    HistoryIsRecorded(run, id);
  }
}
