/** A check of background jobs that isn't interrupted by other threads. */
module Checks {
  import opened Histories
  import opened Jobs

  /** What a check learns of a job. */
  function Learn(s: State, exited: bool): (t: State)
    requires IsChecking(s) && s.main.phase.ShowErrors?
    requires exited ==> s.jobs[s.main.todo[0]].command
    ensures IsChecking(t) && t.main.phase.Decided?
  {
    Next(Next(Next(s, SkipErrors), CheckStatus(exited)), DecideFate)
  }

  /** What a check does with what it has learned. */
  function Act(s: State): State
    requires IsChecking(s) && s.main.phase.Decided?
  {
    Next(Call(s), RemoveOrKeep)
  }

  lemma Learns(s: State, exited: bool)
    requires IsChecking(s) && s.main.phase.ShowErrors?
    requires exited ==> s.jobs[s.main.todo[0]].command
    ensures var id := s.main.todo[0];
            var job := s.jobs[id].(running := s.jobs[id].running && !exited);
            Learn(s, exited)
            == s.With(id, job).(main := s.main.(phase := Decided(job.running, !job.running && job.useCount == 0)))
  {
  }

  function Acted(job: Job, running: bool, canRemove: bool): Job {
    job.(callback := job.callback && running,
         called := job.called + (if job.callback && !running then 1 else 0),
         freed := job.freed || canRemove)
  }

  lemma LastCounts(s: State, id: Id, first: Job, last: Job, main: Main)
    ensures s.With(id, first).(main := main).With(id, last) == s.With(id, last).(main := main)
  {
    assert s.jobs[id := first][id := last] == s.jobs[id := last];
  }

  function Call(s: State): (t: State)
    requires IsChecking(s) && s.main.phase.Decided?
    ensures IsChecking(t) && t.main.phase.Remove?
  {
    if Enabled(s, CallBack) then Next(Next(s, CallBack), CallbackReturns) else Next(s, NoCallback)
  }

  lemma CallsBack(s: State)
    requires Enabled(s, CallBack)
    ensures var id, phase, job := s.main.todo[0], s.main.phase, s.jobs[s.main.todo[0]];
            Next(Next(s, CallBack), CallbackReturns)
            == s.With(id, job.(called := job.called + 1, callback := false))
                .(main := s.main.(phase := Remove(phase.canRemove)))
  {
    var id, job := s.main.todo[0], s.jobs[s.main.todo[0]];
    var calling := s.main.(phase := InCallback(s.main.phase.canRemove));
    LastCounts(s, id, job.(called := job.called + 1), job.(called := job.called + 1, callback := false), calling);
  }

  lemma Calls(s: State)
    requires IsChecking(s) && s.main.phase.Decided?
    ensures var id, phase, job := s.main.todo[0], s.main.phase, s.jobs[s.main.todo[0]];
            Call(s) == s.With(id, Acted(job, phase.running, false)).(main := s.main.(phase := Remove(phase.canRemove)))
  {
    var id, job := s.main.todo[0], s.jobs[s.main.todo[0]];
    if Enabled(s, CallBack) {
      CallsBack(s);
    } else {
      assert Acted(job, s.main.phase.running, false) == job;
      assert s.jobs == s.jobs[id := job];
    }
  }

  lemma Removes(s: State)
    requires IsChecking(s) && s.main.phase.Remove?
    ensures var id, remove, job := s.main.todo[0], s.main.phase.canRemove, s.jobs[s.main.todo[0]];
            Next(s, RemoveOrKeep)
            == s.With(id, job.(freed := job.freed || remove))
                .(main := Checking(s.main.done + (if remove then [] else [id]), s.main.todo[1..], ShowErrors))
  {
    var id, job := s.main.todo[0], s.jobs[s.main.todo[0]];
    assert s.main.done + [] == s.main.done;
    assert job == job.(freed := job.freed || false);
    assert s.jobs == s.jobs[id := job];
  }

  lemma Acts(s: State)
    requires IsChecking(s) && s.main.phase.Decided?
    ensures var id, phase := s.main.todo[0], s.main.phase;
            Act(s) == s.With(id, Acted(s.jobs[id], phase.running, phase.canRemove))
                       .(main := Checking(s.main.done + (if phase.canRemove then [] else [id]),
                                          s.main.todo[1..], ShowErrors))
  {
    hide Next, Call;
    var id, phase, job := s.main.todo[0], s.main.phase, s.jobs[s.main.todo[0]];
    var main := s.main.(phase := Remove(phase.canRemove));
    Calls(s);
    Removes(s.With(id, Acted(job, phase.running, false)).(main := main));
    LastCounts(s, id, Acted(job, phase.running, false), Acted(job, phase.running, phase.canRemove), main);
  }

  function IsFinished(job: Job, exited: bool): bool {
    !job.running || exited
  }

  /** What a check does to a job. */
  function Checked(job: Job, exited: bool): Job {
    var finished := IsFinished(job, exited);
    job.(running := !finished,
         callback := job.callback && !finished,
         called := job.called + (if job.callback && finished then 1 else 0),
         freed := job.freed || (finished && job.useCount == 0))
  }

  /** What remains of the list after a check. */
  function Left(jobs: map<Id, Job>, ids: seq<Id>, exited: set<Id>): seq<Id>
    requires forall id :: id in ids ==> id in jobs
  {
    if ids == [] then []
    else
      (if IsFinished(jobs[ids[0]], ids[0] in exited) && jobs[ids[0]].useCount == 0 then [] else [ids[0]])
      + Left(jobs, ids[1..], exited)
  }

  lemma FirstIsLeft(jobs: map<Id, Job>, ids: seq<Id>, exited: set<Id>)
    requires ids != [] && ids[0] in jobs
    ensures Left(jobs, ids[..1], exited)
            == if IsFinished(jobs[ids[0]], ids[0] in exited) && jobs[ids[0]].useCount == 0 then [] else [ids[0]]
  {
    assert ids[..1] == [ids[0]];
    assert Left(jobs, [], exited) == [];
  }

  function AfterFirst(s: State, exited: set<Id>): State
    requires IsChecking(s)
  {
    var id, todo := s.main.todo[0], s.main.todo;
    s.With(id, Checked(s.jobs[id], id in exited))
     .(main := Checking(s.main.done + Left(s.jobs, todo[..1], exited), todo[1..], ShowErrors))
  }

  lemma FirstIsChecked(s: State, exited: set<Id>)
    requires IsChecking(s) && s.main.phase.ShowErrors?
    requires s.main.todo[0] in exited ==> s.jobs[s.main.todo[0]].command
    ensures Act(Learn(s, s.main.todo[0] in exited)) == AfterFirst(s, exited)
  {
    hide Act, Next, Enabled, Learn, Left;
    var id := s.main.todo[0];
    var t := Learn(s, id in exited);
    Learns(s, id in exited);
    Acts(t);
    FirstIsLeft(s.jobs, s.main.todo, exited);
    assert Acted(t.jobs[id], t.main.phase.running, t.main.phase.canRemove) == Checked(s.jobs[id], id in exited);
    LastCounts(s, id, t.jobs[id], Checked(s.jobs[id], id in exited), t.main);
  }

  lemma {:induction false} SameLeft(was: map<Id, Job>, now: map<Id, Job>, ids: seq<Id>, exited: set<Id>)
    requires forall id :: id in ids ==> id in was && id in now && was[id] == now[id]
    ensures Left(was, ids, exited) == Left(now, ids, exited)
  {
    if ids != [] {
      SameLeft(was, now, ids[1..], exited);
    }
  }

  lemma LeftIsSplit(was: map<Id, Job>, now: map<Id, Job>, ids: seq<Id>, exited: set<Id>)
    requires ids != [] && ids[0] in was
    requires forall id :: id in ids[1..] ==> id in was && id in now && was[id] == now[id]
    ensures Left(was, ids, exited) == Left(was, ids[..1], exited) + Left(now, ids[1..], exited)
  {
    FirstIsLeft(was, ids, exited);
    SameLeft(was, now, ids[1..], exited);
  }

  predicate CanCheck(s: State, exited: set<Id>) {
    && s.main.Checking? && s.main.phase.ShowErrors? && s.starting.NotStarting?
    && forall id :: id in s.main.todo ==> id in s.jobs && (id in exited ==> s.jobs[id].command)
  }

  /** The rest of a check which isn't interrupted by other threads. */
  function CheckAll(s: State, exited: set<Id>): State
    requires CanCheck(s, exited)
    decreases if s.main.Checking? then |s.main.todo| else 0
  {
    if s.main.todo == [] then Next(s, EndCheck)
    else
      FirstIsChecked(s, exited);
      CheckAll(Act(Learn(s, s.main.todo[0] in exited)), exited)
  }

  predicate Distinct(ids: seq<Id>) {
    forall i, j :: 0 <= i < j < |ids| ==> ids[i] != ids[j]
  }

  /** The check frees exactly those of listed jobs that have finished and aren't used by anyone, after calling functions
      of the finished ones.  The rest of the jobs stay in the list in the same order. */
  ghost predicate AreChecked(s: State, t: State, exited: set<Id>)
    requires CanCheck(s, exited)
  {
    && t.main.Idle?
    && t.bgJobs == s.main.done + Left(s.jobs, s.main.todo, exited)
    && t.jobs.Keys == s.jobs.Keys && t.lost == s.lost + Ids(s.bgJobs)
    && forall id :: id in s.jobs ==>
         t.jobs[id] == if id in s.main.todo then Checked(s.jobs[id], id in exited) else s.jobs[id]
  }

  lemma RestIsChecked(s: State, t: State, exited: set<Id>)
    requires CanCheck(s, exited) && s.main.todo != [] && Distinct(s.main.todo)
    requires CanCheck(AfterFirst(s, exited), exited) && AreChecked(AfterFirst(s, exited), t, exited)
    ensures AreChecked(s, t, exited)
  {
    hide Left, Checked;
    var todo, next := s.main.todo, AfterFirst(s, exited);
    assert todo == [todo[0]] + todo[1..];
    assert todo[0] !in todo[1..];
    LeftIsSplit(s.jobs, next.jobs, todo, exited);
  }

  lemma NoneIsChecked(s: State, exited: set<Id>)
    requires CanCheck(s, exited) && s.main.todo == []
    ensures AreChecked(s, Next(s, EndCheck), exited)
  {
  }

  lemma FirstLeaves(s: State, exited: set<Id>)
    requires CanCheck(s, exited) && s.main.todo != [] && Distinct(s.main.todo)
    ensures CanCheck(AfterFirst(s, exited), exited)
    ensures AfterFirst(s, exited).main.todo == s.main.todo[1..] && Distinct(s.main.todo[1..])
  {
    hide Left;
  }

  lemma {:induction false} CheckIsExact(s: State, exited: set<Id>)
    requires CanCheck(s, exited) && Distinct(s.main.todo)
    ensures AreChecked(s, CheckAll(s, exited), exited)
    decreases |s.main.todo|
  {
    hide Enabled, Act, Learn, Checked, AfterFirst, AreChecked;
    if s.main.todo == [] {
      NoneIsChecked(s, exited);
    } else {
      FirstIsChecked(s, exited);
      FirstLeaves(s, exited);
      CheckIsExact(AfterFirst(s, exited), exited);
      RestIsChecked(s, CheckAll(s, exited), exited);
    }
  }

  lemma CountedAreDistinct(ids: seq<Id>)
    requires forall id :: Count(ids, id) <= 1
    ensures Distinct(ids)
  {
    forall i, j | 0 <= i < j < |ids| ensures ids[i] != ids[j] {
      assert ids == ids[..j] + ids[j..];
      assert ids[..j][i] in multiset(ids[..j]) && ids[j..][0] in multiset(ids[j..]);
      assert Count(ids, ids[i]) <= 1;
    }
  }

  lemma JobsAreDistinct(s: State)
    requires JobsOk(s) && ListsOk(s) && s.main.Idle? && s.starting.NotStarting?
    ensures Distinct(s.bgJobs) && forall id :: id in s.bgJobs ==> id in s.jobs
  {
    assert s.MainList() == s.bgJobs;
    forall i ensures Count(s.bgJobs, i) <= 1 {
      if i in s.jobs {
        JobIsOk(s, i);
      } else {
        assert i !in s.MainList();
      }
    }
    CountedAreDistinct(s.bgJobs);
  }

  lemma LinkedWhileLive(s: State, id: Id)
    requires JobsOk(s) && s.main.Idle? && s.starting.NotStarting? && s.Live(id)
    ensures id in s.bgJobs <==> id !in s.lost
  {
    JobIsOk(s, id);
  }

  lemma Begins(s: State)
    requires s.main.Idle? && s.starting.NotStarting?
    ensures Enabled(s, BeginCheck)
    ensures Next(s, BeginCheck) == s.(bgJobs := [], main := Checking([], s.bgJobs, ShowErrors))
  {
  }

  /** However jobs were used before, an uninterrupted bg_check() frees exactly finished jobs that nobody needs, except
      for forgotten ones which it doesn't touch. */
  lemma CheckFreesUnused(run: Run, exited: set<Id>, id: Id)
    requires IsRun(run) && After(run).main.Idle? && After(run).starting.NotStarting?
    requires forall i :: i in After(run).bgJobs && i in exited ==> i in After(run).jobs && After(run).jobs[i].command
    requires After(run).Live(id)
    ensures CanCheck(Next(After(run), BeginCheck), exited)
    ensures var s, t := After(run), CheckAll(Next(After(run), BeginCheck), exited);
            && id in t.jobs && t.main.Idle? && t.lost == s.lost
            && t.jobs[id] == (if IsForgotten(run, id) then s.jobs[id] else Checked(s.jobs[id], id in exited))
            && t.bgJobs == Left(s.jobs, s.bgJobs, exited)
  {
    hide Checked, Left, After, IsRun, JobsOk, ListsOk, MainOk, Distinct, CheckAll, IsForgotten, Next, Enabled;
    var s := After(run);
    RunKeepsInv(run);
    LostAreForgotten(run, id);
    JobsAreDistinct(s);
    LinkedWhileLive(s, id);
    Begins(s);
    CheckIsExact(Next(s, BeginCheck), exited);
  }

  // Checks with anything happening in the meantime.

  predicate IsUnused(s: State, id: Id) {
    id in s.jobs && !s.jobs[id].running && s.jobs[id].useCount == 0
  }

  /** The job was listed, finished and unused when the current check began. */
  predicate WasUnused(run: Run, id: Id)
    requires IsRun(run)
  {
    run.Step? &&
    if run.action.BeginCheck? then IsUnused(After(run.before), id) && id in After(run.before).bgJobs
    else WasUnused(run.before, id)
  }

  predicate IsDecided(phase: Phase) {
    phase.Decided? || phase.InCallback? || phase.Remove?
  }

  /** The check is about to free the job unless it already has. */
  predicate IsDoomed(s: State, id: Id) {
    && IsUnused(s, id) && s.main.Checking?
    && (s.jobs[id].freed || id in s.main.todo)
    && (s.main.todo != [] && s.main.todo[0] == id && IsDecided(s.main.phase) ==> s.main.phase.canRemove)
  }

  lemma UnusedHasNoReferences(s: State, id: Id)
    requires JobsOk(s) && IsUnused(s, id)
    ensures s.jobs[id].clients == 0 && id !in s.ErrorList()
    ensures Count(s.MainList(), id) <= 1 && (s.jobs[id].freed ==> Count(s.MainList(), id) == 0)
  {
    JobIsOk(s, id);
    hide JobsOk, State.ErrorList, State.MainList, State.Calling;
  }

  lemma DoomedIsApart(s: State, id: Id)
    requires JobsOk(s) && MainOk(s) && IsDoomed(s, id)
    ensures s.jobs[id].clients == 0 && s.starting != Created(id)
    ensures id !in s.ErrorList()
  {
    UnusedHasNoReferences(s, id);
    hide JobsOk, JobOk, PhaseOk, State.ErrorList, State.Calling;
    CountTogether(s.bgJobs, s.main.done + s.main.todo);
    CountTogether(s.main.done, s.main.todo);
    assert s.starting.Created? ==> s.MainList() == s.bgJobs + (s.main.done + s.main.todo);
  }

  lemma StaysFinished(s: State, a: Action, id: Id)
    requires Enabled(s, a) && id in s.jobs && !s.jobs[id].running
    ensures id in Next(s, a).jobs && !Next(s, a).jobs[id].running
  {
    match a
    case StartTask(_) =>
    case _ =>
  }

  lemma StaysUnused(s: State, a: Action, id: Id)
    requires Enabled(s, a) && Careful(s, a) && (s.Calling(id) ==> s.main.phase.canRemove)
    requires id in s.jobs && s.jobs[id].useCount == 0 && s.jobs[id].clients == 0
    requires s.starting != Created(id) && id !in s.ErrorList()
    ensures id in Next(s, a).jobs && Next(s, a).jobs[id].useCount == 0
  {
    match a
    case IncRef(_) =>
    case DecRef(_) =>
    case FreeDrainedStep =>
    case _ =>
  }

  lemma DoomedIsNext(s: State, a: Action, id: Id)
    requires Enabled(s, a) && IsDoomed(s, id) && !a.EndCheck?
    ensures var t := Next(s, a);
            && t.main.Checking? && (id in t.main.todo || (id in t.jobs && t.jobs[id].freed) || s.jobs[id].freed)
            && (t.main.todo != [] && t.main.todo[0] == id && IsDecided(t.main.phase) ==> t.main.phase.canRemove)
  {
    hide State.MayUse, State.ClientRuns, State.Calling;
    match a
    case DecideFate =>
    case RemoveOrKeep =>
      assert s.main.todo == [s.main.todo[0]] + s.main.todo[1..];
    case _ =>
  }

  lemma DoomedStays(s: State, a: Action, id: Id)
    requires Inv(s) && Enabled(s, a) && Careful(s, a)
    requires IsDoomed(s, id) && !a.EndCheck?
    ensures IsDoomed(Next(s, a), id)
  {
    hide Next, Enabled, Careful, JobsOk, ListsOk;
    DoomedIsApart(s, id);
    StaysFinished(s, a, id);
    StaysUnused(s, a, id);
    ReferencesAreRecorded(s, a, id);
    DoomedIsNext(s, a, id);
  }

  lemma CheckBegins(s: State, id: Id)
    requires Enabled(s, BeginCheck) && IsUnused(s, id) && id in s.bgJobs
    ensures IsDoomed(Next(s, BeginCheck), id)
  {
  }

  lemma {:induction false} UnusedIsDoomed(run: Run, id: Id)
    requires IsRun(run) && After(run).main.Checking? && WasUnused(run, id)
    ensures IsDoomed(After(run), id)
  {
    hide Inv, Next, Enabled, Careful, IsDoomed, IsUnused;
    var s, a := After(run.before), run.action;
    ChecksAreNoted(s, a);
    if a.BeginCheck? {
      CheckBegins(s, id);
    } else {
      UnusedIsDoomed(run.before, id);
      RunKeepsInv(run.before);
      DoomedStays(s, a, id);
    }
  }

  /** Whatever all threads do during a check, it frees each job that was finished and unused when the check began. */
  lemma UnusedIsFreed(run: Run, id: Id)
    requires IsRun(run) && WasUnused(run, id) && Enabled(After(run), EndCheck)
    ensures var t := Next(After(run), EndCheck); id in t.jobs && t.jobs[id].freed
  {
    hide Inv, After, IsRun, WasUnused;
    UnusedIsDoomed(run, id);
  }

  /** The job has ended and nobody needs it: clients dropped as many references as they took and the error thread is
      done with it.  The latter makes no difference for tasks, they don't have an error stream. */
  predicate IsDone(run: Run, id: Id)
    requires IsRun(run)
  {
    && HasEnded(run, id) && References(run, id) == 0 && (HasErrorStream(run, id) ==> IsDropped(run, id))
    && !IsForgotten(run, id) && Freed(run, id) == 0
  }

  /** That was so when the current check began. */
  predicate WasDone(run: Run, id: Id)
    requires IsRun(run)
  {
    run.Step? && if run.action.BeginCheck? then IsDone(run.before, id) else WasDone(run.before, id)
  }

  lemma ListIsMainList(s: State)
    requires Enabled(s, BeginCheck)
    ensures s.MainList() == s.bgJobs
  {
  }

  lemma DoneIsUnused(run: Run, id: Id)
    requires IsRun(run) && IsDone(run, id) && Enabled(After(run), BeginCheck)
    ensures IsUnused(After(run), id) && id in After(run).bgJobs
  {
    hide After, IsRun, HasEnded, References, HasErrorStream, IsDropped, IsForgotten, Freed, Enabled, State.MainList,
      State.ErrorList, Exists, HasThread, IsCommand, IsDrained;
    StateIsRecorded(run, id);
    HistoryIsRecorded(run, id);
    UsesAreRecorded(run, id);
    JobsAreSafe(run, id);
    ListIsMainList(After(run));
  }

  lemma {:induction false} DoneWasUnused(run: Run, id: Id)
    requires IsRun(run) && WasDone(run, id)
    ensures WasUnused(run, id)
  {
    hide IsDone, IsUnused, Enabled, Careful, Next;
    if run.action.BeginCheck? {
      DoneIsUnused(run.before, id);
    } else {
      DoneWasUnused(run.before, id);
    }
  }

  lemma EndKeepsJobs(s: State)
    requires Enabled(s, EndCheck)
    ensures Next(s, EndCheck).jobs == s.jobs
  {
  }

  /** By the end of a check all jobs that had ended and weren't in use when it began are freed, whatever threads do in
      the meantime. */
  lemma DoneIsFreed(run: Run, id: Id)
    requires IsRun(run) && WasDone(run, id) && Enabled(After(run), EndCheck)
    ensures Freed(run, id) == 1
  {
    hide After, IsRun, WasDone, WasUnused, Freed, References, Next, Enabled;
    DoneWasUnused(run, id);
    UnusedIsFreed(run, id);
    EndKeepsJobs(After(run));
    HistoryIsRecorded(run, id);
  }
}
