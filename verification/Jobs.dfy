/** Background jobs as a system of threads: the main thread, the thread that reads error streams and
    threads of tasks.  Every step is what a thread does under a lock or with its own data. */
module Jobs {
  type Id = nat
  type Text = string

  datatype Job = Job(
    command: bool,      // is an external command rather than a task of its own thread
    hasErrors: bool,    // there is an error stream to be read
    running: bool,
    erroring: bool,     // is being handled by the error thread
    useCount: int,
    drained: bool,      // nothing else is expected from the error stream
    callback: bool,     // there is a function to call on exit
    newErrors: Text,    // errors that haven't been shown yet
    errors: Text,       // all errors
    // the rest is not stored in a job
    clients: nat,       // references to the job that are owned by clients
    task: bool,         // there is a thread that executes the job
    shown: Text,        // errors that have been taken to be shown
    provided: nat,      // how many functions to call on exit were set...
    dropped: nat,       // ...replaced or cleared before being called...
    called: nat,        // ...or called
    freed: bool)

  /** Where bg_check() is with the first of the jobs that are left to check. */
  datatype Phase =
    | ShowErrors
    | Prompting      // errors are displayed until they are dismissed, everything else goes on in the meantime
    | UpdateStatus
    | Decide
    | Decided(running: bool, canRemove: bool)
    | InCallback(canRemove: bool)
    | Remove(canRemove: bool)

  datatype Main =
    | Idle
    | Checking(done: seq<Id>, todo: seq<Id>, phase: Phase)   // the list is taken from bg_jobs

  /** Start of a job, which is possible in the middle of a check. */
  datatype Starting =
    | NotStarting
    | Published(id: Id)   // the job is known only to the error thread
    | Created(id: Id)     // the job is about to be given to a client

  datatype ErrorThread =
    | FreeDrained(pos: nat)
    | Import
    | Prepend(imported: seq<Id>)
    | Read

  datatype State = State(
    jobs: map<Id, Job>,
    bgJobs: seq<Id>,
    newErrJobs: seq<Id>,
    errJobs: seq<Id>,   // the list of the error thread
    main: Main,
    starting: Starting,
    errorThread: ErrorThread,
    lost: set<Id>)      // jobs that were in bg_jobs when it was overwritten
  {
    predicate Live(id: Id) {
      id in jobs && !jobs[id].freed
    }

    /** Jobs the main thread works with. */
    function MainList(): seq<Id> {
      (if starting.Published? then [starting.id] else []) + bgJobs
      + (if main.Checking? then main.done + main.todo else [])
    }

    /** Jobs that are at some stage of their processing by the error thread. */
    function ErrorList(): seq<Id> {
      newErrJobs + (if errorThread.Prepend? then errorThread.imported else []) + errJobs
    }

    function With(id: Id, job: Job): State {
      this.(jobs := jobs[id := job])
    }

    /** Code of clients is executed: on its own, while errors are displayed or by an exit callback. */
    predicate ClientRuns() {
      || starting.Created?
      || (starting.NotStarting?
          && (main.Idle? || (main.todo != [] && (main.phase.Prompting? || main.phase.InCallback?))))
    }

    /** Whether exit callback of the job is being executed. */
    predicate Calling(id: Id) {
      main.Checking? && main.todo != [] && main.phase.InCallback? && main.todo[0] == id
    }

    /** Whether the client which is being executed has the right to use the job. */
    predicate MayUse(id: Id) {
      && ClientRuns()
      && id in jobs
      && (jobs[id].clients > 0 || starting == Created(id) || Calling(id))
    }
  }

  datatype Action =
    // main thread
    | AddBackgroundJob(id: Id, command: bool, hasErrors: bool, garbage: bool)
    | Link
    | StartTask(started: bool)
    | Return
    | IncRef(id: Id)
    | DecRef(id: Id)
    | SetExitCallback(id: Id, some: bool)
    | MarkFinished(id: Id)
    | BeginCheck
    | TakeErrors(prompts: bool)
    | ClosePrompt
    | SkipErrors
    | CheckStatus(exited: bool)
    | DecideFate
    | CallBack
    | CallbackReturns
    | NoCallback
    | RemoveOrKeep
    | EndCheck
    // threads of tasks
    | TaskFails(id: Id, text: Text)
    | TaskEnds(id: Id)
    // error thread
    | FreeDrainedStep
    | ImportNew
    | PrependNext
    | ReadText(id: Id, text: Text)
    | ReadEnd(id: Id)
    | StartUpdate

  const START := State(map[], [], [], [], Idle, NotStarting, FreeDrained(0), {})

  /** Whether there is a job being checked. */
  predicate IsChecking(s: State) {
    s.main.Checking? && s.main.todo != [] && s.main.todo[0] in s.jobs && s.starting.NotStarting?
  }

  /** Which steps are possible. */
  predicate Enabled(s: State, a: Action) {
    match a
    case AddBackgroundJob(id, command, hasErrors, _) =>
      s.starting.NotStarting? && s.ClientRuns() && id !in s.jobs && (hasErrors ==> command)
    case Link => s.starting.Published?
    case StartTask(_) =>
      s.starting.Created? && s.starting.id in s.jobs
      && var job := s.jobs[s.starting.id]; !job.command && !job.task && job.running
    case Return => s.starting.Created?
    case IncRef(id) => s.MayUse(id)
    case DecRef(id) => s.MayUse(id) && s.jobs[id].clients > 0
    case SetExitCallback(id, _) => s.MayUse(id)
    case MarkFinished(id) =>
      id in s.jobs && s.jobs[id].command
      && (s.MayUse(id) || (s.main.Idle? && s.starting.NotStarting? && id in s.bgJobs))
    case BeginCheck => s.main.Idle? && s.starting.NotStarting?
    case TakeErrors(_) => IsChecking(s) && s.main.phase.ShowErrors?
    case ClosePrompt => IsChecking(s) && s.main.phase.Prompting?
    case SkipErrors => IsChecking(s) && s.main.phase.ShowErrors?
    case CheckStatus(exited) =>
      IsChecking(s) && s.main.phase.UpdateStatus? && (exited ==> s.jobs[s.main.todo[0]].command)
    case DecideFate => IsChecking(s) && s.main.phase.Decide?
    case CallBack =>
      IsChecking(s) && s.main.phase.Decided? && !s.main.phase.running && s.jobs[s.main.todo[0]].callback
    case CallbackReturns => IsChecking(s) && s.main.phase.InCallback?
    case NoCallback =>
      IsChecking(s) && s.main.phase.Decided? && (s.main.phase.running || !s.jobs[s.main.todo[0]].callback)
    case RemoveOrKeep => IsChecking(s) && s.main.phase.Remove?
    case EndCheck => s.main.Checking? && s.main.todo == [] && s.starting.NotStarting?
    case TaskFails(id, _) => id in s.jobs && s.jobs[id].task
    case TaskEnds(id) => id in s.jobs && s.jobs[id].task
    case FreeDrainedStep =>
      && s.errorThread.FreeDrained?
      && s.errorThread.pos <= |s.errJobs|
      && (s.errorThread.pos < |s.errJobs| ==> s.errJobs[s.errorThread.pos] in s.jobs)
    case ImportNew => s.errorThread.Import? && (s.errJobs != [] || s.newErrJobs != [])
    case PrependNext => s.errorThread.Prepend? && (s.errorThread.imported != [] ==> s.errorThread.imported[0] in s.jobs)
    case ReadText(id, _) => s.errorThread.Read? && id in s.errJobs && id in s.jobs && !s.jobs[id].drained
    case ReadEnd(id) => s.errorThread.Read? && id in s.errJobs && id in s.jobs && !s.jobs[id].drained
    case StartUpdate => s.errorThread.Read?
  }

  /** The function called on exit of a job must not keep that job when its removal is already decided on. */
  predicate Careful(s: State, a: Action) {
    a.IncRef? && s.Calling(a.id) ==> !s.main.phase.canRemove
  }

  function NewJob(command: bool, hasErrors: bool, garbage: bool): Job {
    Job(command, hasErrors, true, hasErrors, if hasErrors then 1 else 0, garbage, false, "", "", 0, false, "",
        0, 0, 0, false)
  }

  function Ids(list: seq<Id>): set<Id> {
    set id | id in list
  }

  function Append(job: Job, text: Text): Job {
    job.(errors := job.errors + text, newErrors := job.newErrors + text)
  }

  function ChangeRef(job: Job, change: int): Job
    requires job.clients + change >= 0
  {
    job.(useCount := job.useCount + change, clients := job.clients + change)
  }

  /** A function that is set from within the callback is forgotten after the callback. */
  function SetCallback(job: Job, some: bool, calling: bool): Job {
    job.(callback := some,
         provided := job.provided + (if some then 1 else 0),
         dropped := job.dropped + (if (if calling then some else job.callback) then 1 else 0))
  }

  /** Effects of steps. */
  function Next(s: State, a: Action): State
    requires Enabled(s, a)
  {
    match a
    case AddBackgroundJob(id, command, hasErrors, garbage) =>
      s.With(id, NewJob(command, hasErrors, garbage))
       .(newErrJobs := if hasErrors then [id] + s.newErrJobs else s.newErrJobs, starting := Published(id))
    case Link => s.(bgJobs := [s.starting.id] + s.bgJobs, starting := Created(s.starting.id))
    case StartTask(started) =>
      s.With(s.starting.id, s.jobs[s.starting.id].(task := started, running := started))
    case Return => s.(starting := NotStarting)
    case IncRef(id) => s.With(id, ChangeRef(s.jobs[id], 1))
    case DecRef(id) => s.With(id, ChangeRef(s.jobs[id], -1))
    case SetExitCallback(id, some) => s.With(id, SetCallback(s.jobs[id], some, s.Calling(id)))
    case MarkFinished(id) => s.With(id, s.jobs[id].(running := false))
    case BeginCheck => s.(bgJobs := [], main := Checking([], s.bgJobs, ShowErrors))
    case TakeErrors(prompts) =>
      var id, job := s.main.todo[0], s.jobs[s.main.todo[0]];
      if job.newErrors == "" then s.(main := s.main.(phase := UpdateStatus))
      else s.With(id, job.(newErrors := "", shown := job.shown + job.newErrors))
            .(main := s.main.(phase := if prompts then Prompting else ShowErrors))
    case ClosePrompt => s.(main := s.main.(phase := ShowErrors))
    case SkipErrors => s.(main := s.main.(phase := UpdateStatus))
    case CheckStatus(exited) =>
      var id, job := s.main.todo[0], s.jobs[s.main.todo[0]];
      s.With(id, job.(running := job.running && !exited)).(main := s.main.(phase := Decide))
    case DecideFate =>
      var job := s.jobs[s.main.todo[0]];
      s.(main := s.main.(phase := Decided(job.running, !job.running && job.useCount == 0)))
    case CallBack =>
      var id, job := s.main.todo[0], s.jobs[s.main.todo[0]];
      s.With(id, job.(called := job.called + 1)).(main := s.main.(phase := InCallback(s.main.phase.canRemove)))
    case CallbackReturns =>
      var id, job := s.main.todo[0], s.jobs[s.main.todo[0]];
      s.With(id, job.(callback := false)).(main := s.main.(phase := Remove(s.main.phase.canRemove)))
    case NoCallback => s.(main := s.main.(phase := Remove(s.main.phase.canRemove)))
    case RemoveOrKeep =>
      var id, rest := s.main.todo[0], s.main.todo[1..];
      if s.main.phase.canRemove then
        s.With(id, s.jobs[id].(freed := true)).(main := Checking(s.main.done, rest, ShowErrors))
      else
        s.(main := Checking(s.main.done + [id], rest, ShowErrors))
    case EndCheck => s.(bgJobs := s.main.done, main := Idle, lost := s.lost + Ids(s.bgJobs))
    case TaskFails(id, text) => s.With(id, Append(s.jobs[id], text))
    case TaskEnds(id) => s.With(id, s.jobs[id].(running := false, task := false))
    case FreeDrainedStep =>
      var pos := s.errorThread.pos;
      if pos == |s.errJobs| then s.(errorThread := Import)
      else
        var id := s.errJobs[pos];
        if s.jobs[id].drained then
          s.With(id, s.jobs[id].(useCount := s.jobs[id].useCount - 1, erroring := false))
           .(errJobs := s.errJobs[..pos] + s.errJobs[pos + 1..])
        else
          s.(errorThread := FreeDrained(pos + 1))
    case ImportNew => s.(newErrJobs := [], errorThread := Prepend(s.newErrJobs))
    case PrependNext =>
      if s.errorThread.imported == [] then s.(errorThread := Read)
      else
        var id := s.errorThread.imported[0];
        s.With(id, s.jobs[id].(drained := false))
         .(errJobs := [id] + s.errJobs, errorThread := Prepend(s.errorThread.imported[1..]))
    case ReadText(id, text) => s.With(id, Append(s.jobs[id], text))
    case ReadEnd(id) => s.With(id, s.jobs[id].(drained := true))
    case StartUpdate => s.(errorThread := FreeDrained(0))
  }

  function Count(ids: seq<Id>, id: Id): nat {
    multiset(ids)[id]
  }

  /** What is known of a job which is linked to lists the given number of times. */
  predicate JobOk(job: Job, inMain: nat, inError: nat, calling: bool, lost: bool) {
    && inMain == (if job.freed || lost then 0 else 1)
    && !(job.freed && lost)
    && inError == (if job.erroring then 1 else 0)
    && job.useCount == job.clients + inError
    && (job.erroring ==> job.hasErrors)
    && (job.hasErrors ==> job.command)
    && (job.task ==> job.running && !job.command)
    && job.shown + job.newErrors == job.errors
    && job.provided == job.called + job.dropped + (if job.callback && !calling then 1 else 0)
    && (job.freed ==> !job.running && job.useCount == 0 && !job.callback)
  }

  ghost predicate JobsOk(s: State) {
    forall id :: id in s.jobs ==>
      JobOk(s.jobs[id], Count(s.MainList(), id), Count(s.ErrorList(), id), s.Calling(id), id in s.lost)
  }

  ghost predicate ListsOk(s: State) {
    && (forall id :: id in s.MainList() ==> id in s.jobs)
    && (forall id :: id in s.ErrorList() ==> id in s.jobs)
    && s.lost <= s.jobs.Keys
  }

  /** What the main thread knows of the job it checks. */
  predicate PhaseOk(phase: Phase, job: Job) {
    && (phase.Decided? && !phase.running ==> !job.running)
    && (phase.InCallback? ==> !job.running)
    && ((phase.Decided? || phase.InCallback? || phase.Remove?) && phase.canRemove ==>
          !job.running && job.clients == 0 && job.useCount == 0)
    && (phase.Decided? && phase.canRemove ==> !phase.running)
    && (phase.Remove? && phase.canRemove ==> !job.callback)
  }

  predicate MainOk(s: State) {
    && (s.starting.Created? ==> s.starting.id in s.bgJobs)
    && (s.main.Checking? && !s.starting.NotStarting? ==>
          s.main.todo != [] && (s.main.phase.Prompting? || s.main.phase.InCallback?))
    && (s.main.Checking? ==>
          if s.main.todo == [] then s.main.phase.ShowErrors?
          else s.main.todo[0] in s.jobs && PhaseOk(s.main.phase, s.jobs[s.main.todo[0]]))
  }

  ghost predicate Inv(s: State) {
    && JobsOk(s)
    && ListsOk(s)
    && MainOk(s)
    && (s.errorThread.FreeDrained? ==> s.errorThread.pos <= |s.errJobs|)
  }

  /** A step that deals with a single job needs to be checked only for that job. */
  lemma OneJobChanges(s: State, t: State, id: Id)
    requires JobsOk(s) && ListsOk(s)
    requires t.jobs.Keys == s.jobs.Keys + {id} && t.lost == s.lost
    requires forall i :: i in s.jobs && i != id ==> t.jobs[i] == s.jobs[i]
    requires forall i :: i != id ==> Count(t.MainList(), i) == Count(s.MainList(), i)
    requires forall i :: i != id ==> Count(t.ErrorList(), i) == Count(s.ErrorList(), i)
    requires forall i :: i != id ==> t.Calling(i) == s.Calling(i)
    requires JobOk(t.jobs[id], Count(t.MainList(), id), Count(t.ErrorList(), id), t.Calling(id), id in t.lost)
    ensures JobsOk(t) && ListsOk(t)
  {
    hide JobOk, State.Calling, State.MainList, State.ErrorList;
    forall i | i in t.MainList() || i in t.ErrorList() ensures i in t.jobs {
      if i != id {
        assert Count(t.MainList(), i) == Count(s.MainList(), i);
        assert Count(t.ErrorList(), i) == Count(s.ErrorList(), i);
      }
    }
  }

  lemma JobIsOk(s: State, id: Id)
    requires JobsOk(s) && id in s.jobs
    ensures JobOk(s.jobs[id], Count(s.MainList(), id), Count(s.ErrorList(), id), s.Calling(id), id in s.lost)
  {
  }

  /** Jobs of any list aren't freed. */
  lemma LinkedIsLive(s: State, id: Id)
    requires JobsOk(s) && ListsOk(s)
    requires id in s.MainList() || id in s.ErrorList()
    ensures s.Live(id)
  {
    hide State.MainList, State.ErrorList;
    JobIsOk(s, id);
  }

  /** And so aren't the ones clients can use. */
  lemma UsedIsLive(s: State, id: Id)
    requires Inv(s) && s.MayUse(id)
    ensures s.Live(id)
  {
    if s.jobs[id].clients > 0 {
      hide JobsOk, ListsOk, Count, State.MainList, State.ErrorList;
      JobIsOk(s, id);
    } else {
      LinkedIsLive(s, id);
    }
  }

  lemma SameLists(s: State, t: State)
    requires t.main == s.main && t.starting == s.starting && t.bgJobs == s.bgJobs
    requires t.errJobs == s.errJobs
    requires t.newErrJobs + (if t.errorThread.Prepend? then t.errorThread.imported else [])
             == s.newErrJobs + (if s.errorThread.Prepend? then s.errorThread.imported else [])
    ensures t.MainList() == s.MainList() && t.ErrorList() == s.ErrorList()
  {
  }

  /** A step that moves no job between lists. */
  lemma JobChanges(s: State, id: Id, job: Job, main: Main)
    requires JobsOk(s) && ListsOk(s) && id in s.jobs
    requires s.main == main || (s.main.Checking? && main.Checking? && s.main.todo != [] && s.main.todo[0] == id
                                && main == s.main.(phase := main.phase))
    requires var t := s.With(id, job).(main := main);
             JobOk(job, Count(s.MainList(), id), Count(s.ErrorList(), id), t.Calling(id), id in s.lost)
    ensures var t := s.With(id, job).(main := main);
            JobsOk(t) && ListsOk(t)
  {
    hide JobOk, JobsOk, ListsOk, Count;
    var t := s.With(id, job).(main := main);
    assert t.MainList() == s.MainList() && t.ErrorList() == s.ErrorList();
    OneJobChanges(s, t, id);
  }

  lemma ClientKeepsInv(s: State, a: Action)
    requires Inv(s) && Enabled(s, a) && Careful(s, a)
    requires a.IncRef? || a.DecRef? || a.SetExitCallback? || a.MarkFinished?
    ensures Inv(Next(s, a))
  {
    hide JobsOk, ListsOk, Count, State.MainList, State.ErrorList;
    if !a.MarkFinished? {
      UsedIsLive(s, a.id);
    }
    JobIsOk(s, a.id);
    JobChanges(s, a.id, Next(s, a).jobs[a.id], s.main);
  }

  lemma TaskKeepsInv(s: State, a: Action)
    requires Inv(s) && Enabled(s, a)
    requires a.StartTask? || a.TaskFails? || a.TaskEnds? || a.ReadText? || a.ReadEnd?
    ensures Inv(Next(s, a))
  {
    hide JobsOk, ListsOk, Count, State.MainList, State.ErrorList;
    var id := if a.StartTask? then s.starting.id else a.id;
    JobIsOk(s, id);
    JobChanges(s, id, Next(s, a).jobs[id], s.main);
  }

  lemma CheckKeepsInv(s: State, a: Action)
    requires Inv(s) && Enabled(s, a)
    requires a.TakeErrors? || a.ClosePrompt? || a.SkipErrors? || a.CheckStatus? || a.DecideFate? || a.CallBack?
             || a.CallbackReturns? || a.NoCallback?
    ensures Inv(Next(s, a))
  {
    hide JobsOk, ListsOk, Count, State.MainList, State.ErrorList;
    var id, t := s.main.todo[0], Next(s, a);
    JobIsOk(s, id);
    JobChanges(s, id, t.jobs[id], t.main);
    assert t == s.With(id, t.jobs[id]).(main := t.main);
  }

  lemma CountAdded(id: Id, ids: seq<Id>)
    ensures forall i :: Count([id] + ids, i) == Count(ids, i) + if i == id then 1 else 0
  {
  }

  lemma ListsGrow(s: State, a: Action)
    requires Enabled(s, a) && a.AddBackgroundJob?
    ensures var t := Next(s, a);
            && (forall i :: Count(t.MainList(), i) == Count(s.MainList(), i) + if i == a.id then 1 else 0)
            && (forall i :: Count(t.ErrorList(), i)
                            == Count(s.ErrorList(), i) + if i == a.id && a.hasErrors then 1 else 0)
  {
    hide Count;
    var t := Next(s, a);
    CountAdded(a.id, s.MainList());
    CountAdded(a.id, s.ErrorList());
    assert t.MainList() == [a.id] + s.MainList();
    assert t.ErrorList() == if a.hasErrors then [a.id] + s.ErrorList() else s.ErrorList();
  }

  lemma AddingKeepsInv(s: State, a: Action)
    requires Inv(s) && Enabled(s, a) && a.AddBackgroundJob?
    ensures Inv(Next(s, a))
  {
    hide JobsOk, State.MainList, State.ErrorList;
    ListsGrow(s, a);
    assert Count(s.MainList(), a.id) == Count(s.ErrorList(), a.id) == 0;
    OneJobChanges(s, Next(s, a), a.id);
  }

  predicate Moves(s: State, a: Action)
    requires Enabled(s, a)
  {
    a.Link? || a.Return? || a.BeginCheck? || (a.RemoveOrKeep? && !s.main.phase.canRemove)
  }

  lemma ListsStay(s: State, a: Action)
    requires Enabled(s, a) && Moves(s, a)
    ensures Next(s, a).MainList() == s.MainList()
    ensures Next(s, a).ErrorList() == s.ErrorList()
    ensures Next(s, a).jobs == s.jobs && Next(s, a).lost == s.lost
    ensures forall id :: Next(s, a).Calling(id) == s.Calling(id)
  {
    if a.RemoveOrKeep? {
      assert s.main.todo == [s.main.todo[0]] + s.main.todo[1..];
    }
  }

  lemma JobsStay(s: State, t: State)
    requires JobsOk(s) && ListsOk(s)
    requires t.MainList() == s.MainList() && t.ErrorList() == s.ErrorList() && t.jobs == s.jobs && t.lost == s.lost
    requires forall id :: t.Calling(id) == s.Calling(id)
    ensures JobsOk(t) && ListsOk(t)
  {
    hide JobOk, Count, State.MainList, State.ErrorList, State.Calling;
  }

  lemma FirstLeftIsJob(s: State)
    requires ListsOk(s) && s.main.Checking? && s.main.todo != []
    ensures s.main.todo[0] in s.jobs
  {
    assert s.main.todo[0] in s.MainList();
  }

  /** The main thread moves jobs from one of its lists to another. */
  lemma MovingKeepsInv(s: State, a: Action)
    requires Inv(s) && Enabled(s, a) && Moves(s, a)
    ensures Inv(Next(s, a))
  {
    hide JobsOk, ListsOk, State.MainList, State.ErrorList;
    var t := Next(s, a);
    ListsStay(s, a);
    JobsStay(s, t);
    if t.main.Checking? && t.main.todo != [] {
      FirstLeftIsJob(t);
    }
  }

  lemma CountTogether(a: seq<Id>, b: seq<Id>)
    ensures forall id :: Count(a + b, id) == Count(a, id) + Count(b, id)
    ensures forall id :: id in a <==> Count(a, id) > 0
  {
  }

  lemma EndedLists(s: State)
    requires Enabled(s, EndCheck)
    ensures var t := Next(s, EndCheck);
            && s.MainList() == s.bgJobs + t.MainList()
            && t.ErrorList() == s.ErrorList() && t.jobs == s.jobs && t.lost == s.lost + Ids(s.bgJobs)
            && t.starting.NotStarting? && t.main.Idle? && t.errorThread == s.errorThread && t.errJobs == s.errJobs
            && forall id :: !t.Calling(id) && !s.Calling(id)
  {
  }

  lemma JobIsLost(job: Job, inNew: nat, inMain: nat, inError: nat, lost: bool)
    requires JobOk(job, inNew + inMain, inError, false, lost)
    ensures JobOk(job, inMain, inError, false, lost || inNew > 0)
  {
  }

  /** Jobs that were started during a check are lost. */
  lemma EndingKeepsInv(s: State)
    requires Inv(s) && Enabled(s, EndCheck)
    ensures Inv(Next(s, EndCheck))
  {
    hide JobOk, Count, State.MainList, State.ErrorList, State.Calling, Next, Enabled;
    EndedLists(s);
    CountTogether(s.bgJobs, Next(s, EndCheck).MainList());
    forall id | id in s.jobs
      ensures var t := Next(s, EndCheck);
              JobOk(t.jobs[id], Count(t.MainList(), id), Count(t.ErrorList(), id), t.Calling(id), id in t.lost)
    {
      JobIsOk(s, id);
      JobIsLost(s.jobs[id], Count(s.bgJobs, id), Count(Next(s, EndCheck).MainList(), id), Count(s.ErrorList(), id),
                id in s.lost);
    }
  }

  lemma ListShrinks(s: State)
    requires Enabled(s, RemoveOrKeep) && s.main.phase.canRemove
    ensures var t := Next(s, RemoveOrKeep);
            && t.ErrorList() == s.ErrorList()
            && (forall i :: Count(s.MainList(), i) == Count(t.MainList(), i) + if i == s.main.todo[0] then 1 else 0)
  {
    assert s.main.todo == [s.main.todo[0]] + s.main.todo[1..];
  }

  lemma RemovingKeepsInv(s: State, a: Action)
    requires Inv(s) && Enabled(s, a)
    requires a.RemoveOrKeep? && s.main.phase.canRemove
    ensures Inv(Next(s, a))
  {
    hide JobsOk, ListsOk, State.MainList, State.ErrorList, Count;
    var t := Next(s, a);
    ListShrinks(s);
    JobIsOk(s, s.main.todo[0]);
    OneJobChanges(s, t, s.main.todo[0]);
    if t.main.todo != [] {
      FirstLeftIsJob(t);
    }
  }

  lemma CountWithout(before: seq<Id>, ids: seq<Id>, pos: nat)
    requires pos < |ids|
    ensures forall i :: Count(before + ids, i)
                        == Count(before + (ids[..pos] + ids[pos + 1..]), i) + if i == ids[pos] then 1 else 0
  {
    assert ids == ids[..pos] + [ids[pos]] + ids[pos + 1..];
  }

  lemma DrainedLeaves(s: State)
    requires Enabled(s, FreeDrainedStep) && s.errorThread.pos < |s.errJobs|
    requires s.jobs[s.errJobs[s.errorThread.pos]].drained
    ensures var t := Next(s, FreeDrainedStep);
            && t.MainList() == s.MainList()
            && (forall i :: Count(s.ErrorList(), i)
                            == Count(t.ErrorList(), i) + if i == s.errJobs[s.errorThread.pos] then 1 else 0)
  {
    hide Count;
    CountWithout(s.newErrJobs + [], s.errJobs, s.errorThread.pos);
  }

  lemma CountMoved(before: seq<Id>, moved: seq<Id>, ids: seq<Id>)
    requires moved != []
    ensures forall i :: Count(before + moved + ids, i) == Count(before + moved[1..] + ([moved[0]] + ids), i)
  {
    assert moved == [moved[0]] + moved[1..];
  }

  lemma ImportedMoves(s: State)
    requires Enabled(s, PrependNext) && s.errorThread.imported != []
    ensures var t := Next(s, PrependNext);
            && t.MainList() == s.MainList()
            && (forall i :: Count(s.ErrorList(), i) == Count(t.ErrorList(), i))
  {
    hide Count;
    CountMoved(s.newErrJobs, s.errorThread.imported, s.errJobs);
  }

  lemma ImportKeepsInv(s: State)
    requires Inv(s) && Enabled(s, PrependNext) && s.errorThread.imported != []
    ensures Inv(Next(s, PrependNext))
  {
    hide JobsOk, ListsOk, State.MainList, State.ErrorList, Count;
    var id := s.errorThread.imported[0];
    ImportedMoves(s);
    JobIsOk(s, id);
    OneJobChanges(s, Next(s, PrependNext), id);
  }

  lemma DropKeepsInv(s: State)
    requires Inv(s) && Enabled(s, FreeDrainedStep) && s.errorThread.pos < |s.errJobs|
    requires s.jobs[s.errJobs[s.errorThread.pos]].drained
    ensures Inv(Next(s, FreeDrainedStep))
  {
    hide JobsOk, ListsOk, State.MainList, State.ErrorList, Count;
    var id := s.errJobs[s.errorThread.pos];
    DrainedLeaves(s);
    JobIsOk(s, id);
    OneJobChanges(s, Next(s, FreeDrainedStep), id);
  }

  lemma ErrorThreadKeepsInv(s: State, a: Action)
    requires Inv(s) && Enabled(s, a)
    requires a.FreeDrainedStep? || a.ImportNew? || a.PrependNext? || a.StartUpdate?
    ensures Inv(Next(s, a))
  {
    hide JobsOk, ListsOk, State.MainList, State.ErrorList, Count;
    if a.PrependNext? && s.errorThread.imported != [] {
      ImportKeepsInv(s);
    } else if a.FreeDrainedStep? && s.errorThread.pos < |s.errJobs| && s.jobs[s.errJobs[s.errorThread.pos]].drained {
      DropKeepsInv(s);
    } else {
      SameLists(s, Next(s, a));
      JobsStay(s, Next(s, a));
    }
  }

  lemma NextKeepsInv(s: State, a: Action)
    requires Inv(s) && Enabled(s, a) && Careful(s, a)
    ensures Inv(Next(s, a))
  {
    hide Inv, Careful, Next;
    match a
    case IncRef(_) => ClientKeepsInv(s, a);
    case DecRef(_) => ClientKeepsInv(s, a);
    case SetExitCallback(_, _) => ClientKeepsInv(s, a);
    case MarkFinished(_) => ClientKeepsInv(s, a);
    case StartTask(_) => TaskKeepsInv(s, a);
    case TaskFails(_, _) => TaskKeepsInv(s, a);
    case TaskEnds(_) => TaskKeepsInv(s, a);
    case ReadText(_, _) => TaskKeepsInv(s, a);
    case ReadEnd(_) => TaskKeepsInv(s, a);
    case AddBackgroundJob(_, _, _, _) => AddingKeepsInv(s, a);
    case Link => MovingKeepsInv(s, a);
    case Return => MovingKeepsInv(s, a);
    case BeginCheck => MovingKeepsInv(s, a);
    case RemoveOrKeep =>
      if s.main.phase.canRemove {
        RemovingKeepsInv(s, a);
      } else {
        MovingKeepsInv(s, a);
      }
    case EndCheck => EndingKeepsInv(s);
    case FreeDrainedStep => ErrorThreadKeepsInv(s, a);
    case ImportNew => ErrorThreadKeepsInv(s, a);
    case PrependNext => ErrorThreadKeepsInv(s, a);
    case StartUpdate => ErrorThreadKeepsInv(s, a);
    case _ => CheckKeepsInv(s, a);
  }

  lemma StartIsSafe()
    ensures Inv(START)
  {
  }

  /** Jobs whose memory is accessed by a step, except for memory of a job that's just been allocated. */
  function Accessed(s: State, a: Action): set<Id>
    requires Enabled(s, a)
  {
    match a
    case StartTask(_) => {s.starting.id}
    case IncRef(id) => {id}
    case DecRef(id) => {id}
    case SetExitCallback(id, _) => {id}
    case MarkFinished(id) => {id}
    case TakeErrors(_) => {s.main.todo[0]}
    case CheckStatus(_) => {s.main.todo[0]}
    case DecideFate => {s.main.todo[0]}
    case CallBack => {s.main.todo[0]}
    case CallbackReturns => {s.main.todo[0]}
    case NoCallback => {s.main.todo[0]}
    case RemoveOrKeep => {s.main.todo[0]} + (if s.main.done == [] then {} else {s.main.done[|s.main.done| - 1]})
    case TaskFails(id, _) => {id}
    case TaskEnds(id) => {id}
    case FreeDrainedStep =>
      var pos := s.errorThread.pos;
      (if pos < |s.errJobs| then {s.errJobs[pos]} else {}) + (if pos > 0 then {s.errJobs[pos - 1]} else {})
    case PrependNext => if s.errorThread.imported == [] then {} else {s.errorThread.imported[0]}
    case ReadText(id, _) => {id}
    case ReadEnd(id) => {id}
    case _ => {}
  }

  /** No thread uses a job after it's freed, hence a job isn't freed twice. */
  lemma AccessedAreLive(s: State, a: Action, id: Id)
    requires Inv(s) && Enabled(s, a)
    requires id in Accessed(s, a)
    ensures s.Live(id)
  {
    hide JobsOk, ListsOk, Count;
    if a.TaskFails? || a.TaskEnds? {
      JobIsOk(s, id);
    } else if s.MayUse(id) {
      UsedIsLive(s, id);
    } else {
      assert id in s.MainList() || id in s.ErrorList();
      LinkedIsLive(s, id);
    }
  }

  /** Jobs that are linked to lists are always there, so no thread gets stuck because of them. */
  lemma LinkedExist(s: State)
    requires Inv(s)
    ensures s.starting.Created? ==> s.Live(s.starting.id)
    ensures s.main.Checking? && s.main.todo != [] ==> s.Live(s.main.todo[0])
    ensures forall id :: id in s.errJobs ==> s.Live(id) && s.jobs[id].erroring
    ensures s.errorThread.Prepend? && s.errorThread.imported != [] ==> s.Live(s.errorThread.imported[0])
  {
    hide JobsOk, ListsOk;
    if s.starting.Created? {
      LinkedIsLive(s, s.starting.id);
    }
    if s.main.Checking? && s.main.todo != [] {
      LinkedIsLive(s, s.main.todo[0]);
    }
    forall id | id in s.errJobs ensures s.Live(id) && s.jobs[id].erroring {
      assert id in s.ErrorList();
      LinkedIsLive(s, id);
      JobIsOk(s, id);
    }
    if s.errorThread.Prepend? && s.errorThread.imported != [] {
      LinkedIsLive(s, s.errorThread.imported[0]);
    }
  }

  // Whole runs.

  datatype Run = Start | Step(before: Run, action: Action)

  predicate IsRun(run: Run)
    decreases run, 0
  {
    run.Step? ==> IsRun(run.before) && Enabled(After(run.before), run.action)
                  && Careful(After(run.before), run.action)
  }

  function After(run: Run): State
    requires IsRun(run)
    decreases run, 1
  {
    if run.Start? then START else Next(After(run.before), run.action)
  }

  lemma {:induction false} RunKeepsInv(run: Run)
    requires IsRun(run)
    ensures Inv(After(run))
  {
    hide Inv, Next, Enabled, Careful;
    if run.Start? {
      StartIsSafe();
    } else {
      RunKeepsInv(run.before);
      NextKeepsInv(After(run.before), run.action);
    }
  }

  /** The job was started since the current check has begun. */
  predicate IsStartedInCheck(run: Run, id: Id)
    requires IsRun(run)
  {
    run.Step? &&
    if run.action.AddBackgroundJob? && run.action.id == id then After(run.before).main.Checking?
    else !run.action.BeginCheck? && IsStartedInCheck(run.before, id)
  }

  /** The job was started during a check which has ended since then. */
  predicate IsForgotten(run: Run, id: Id)
    requires IsRun(run)
  {
    run.Step? && (IsForgotten(run.before, id) || (run.action.EndCheck? && IsStartedInCheck(run.before, id)))
  }

  /** Where jobs that have been started during the check are. */
  predicate IsNew(s: State, id: Id) {
    id in s.bgJobs || s.starting == Published(id)
  }

  lemma ChecksAreNoted(s: State, a: Action)
    requires Enabled(s, a)
    ensures Next(s, a).main.Checking? <==> if s.main.Checking? then !a.EndCheck? else a.BeginCheck?
    ensures Next(s, a).lost == s.lost + if a.EndCheck? then Ids(s.bgJobs) else {}
    ensures a.EndCheck? ==> s.main.Checking?
  {
    match a
    case EndCheck =>
    case _ =>
  }

  lemma StartsAreNoted(s: State, a: Action, id: Id)
    requires Enabled(s, a)
    ensures var t := Next(s, a);
            && (a.BeginCheck? ==> !IsNew(t, id))
            && (a.EndCheck? ==> (IsNew(s, id) <==> id in s.bgJobs))
            && (s.main.Checking? && !a.EndCheck? ==>
                  (IsNew(t, id) <==> IsNew(s, id) || (a.AddBackgroundJob? && a.id == id)))
  {
    match a
    case AddBackgroundJob(_, _, _, _) =>
    case Link =>
    case Return =>
    case BeginCheck =>
    case EndCheck =>
    case _ =>
  }

  /** Jobs get lost in no other way. */
  lemma {:induction false} LostAreForgotten(run: Run, id: Id)
    requires IsRun(run)
    ensures id in After(run).lost <==> IsForgotten(run, id)
    ensures After(run).main.Checking? ==> (IsNew(After(run), id) <==> IsStartedInCheck(run, id))
  {
    hide Next, Enabled, Careful, IsNew;
    if run.Step? {
      LostAreForgotten(run.before, id);
      ChecksAreNoted(After(run.before), run.action);
      StartsAreNoted(After(run.before), run.action, id);
    }
  }

  /** What is promised of every job at every moment. */
  lemma JobsAreSafe(run: Run, id: Id)
    requires IsRun(run) && id in After(run).jobs
    ensures var s, job := After(run), After(run).jobs[id];
            && job.useCount == job.clients + (if id in s.ErrorList() then 1 else 0)
            && (job.erroring <==> id in s.ErrorList())
            && (!job.freed <==> id in s.MainList() || IsForgotten(run, id))
            && (id in s.MainList() ==> !IsForgotten(run, id))
            && (job.freed ==> !job.running && job.useCount == 0)
            && Count(s.MainList(), id) <= 1 && Count(s.ErrorList(), id) <= 1
  {
    hide Next, Enabled, State.MainList, State.ErrorList;
    RunKeepsInv(run);
    JobIsOk(After(run), id);
    LostAreForgotten(run, id);
  }

  /** A forgotten job stays in memory forever: longer runs don't free it either. */
  lemma ForgottenIsNotFreed(run: Run, id: Id)
    requires IsRun(run) && IsForgotten(run, id)
    ensures After(run).Live(id) && id !in After(run).MainList()
    ensures Freed(run, id) == 0
  {
    hide Next, Enabled, State.MainList, State.ErrorList;
    RunKeepsInv(run);
    LostAreForgotten(run, id);
    JobIsOk(After(run), id);
    HistoryIsRecorded(run, id);
  }

  /** Jobs are started only when there is no check. */
  predicate StartsOutsideOfChecks(run: Run)
    requires IsRun(run)
  {
    run.Step? ==>
      && StartsOutsideOfChecks(run.before)
      && (run.action.AddBackgroundJob? ==> !After(run.before).main.Checking?)
  }

  lemma {:induction false} NoneIsForgotten(run: Run, id: Id)
    requires IsRun(run) && StartsOutsideOfChecks(run)
    ensures !IsForgotten(run, id)
    ensures After(run).main.Checking? ==> !IsStartedInCheck(run, id)
  {
    hide Next, Enabled, Careful;
    if run.Step? {
      NoneIsForgotten(run.before, id);
      ChecksAreNoted(After(run.before), run.action);
      StartsAreNoted(After(run.before), run.action, id);
    }
  }

  /** Then a job is in the list for as long as it exists. */
  lemma JobsStayListed(run: Run, id: Id)
    requires IsRun(run) && StartsOutsideOfChecks(run) && id in After(run).jobs
    ensures !After(run).jobs[id].freed <==> id in After(run).MainList()
  {
    hide Next, Enabled, State.MainList, State.ErrorList, IsForgotten;
    NoneIsForgotten(run, id);
    JobsAreSafe(run, id);
  }

  /** Everything that was written to the error stream of the job or reported by its thread. */
  function Written(run: Run, id: Id): Text {
    match run
    case Start => ""
    case Step(before, a) =>
      Written(before, id) + (if (a.ReadText? || a.TaskFails?) && a.id == id then a.text else "")
  }

  /** How many functions to call on exit were set. */
  function Provided(run: Run, id: Id): nat {
    match run
    case Start => 0
    case Step(before, a) => Provided(before, id) + if a.SetExitCallback? && a.id == id && a.some then 1 else 0
  }

  /** How many times such functions were called. */
  function Called(run: Run, id: Id): nat
    requires IsRun(run)
  {
    match run
    case Start => 0
    case Step(before, a) =>
      Called(before, id) + if a.CallBack? && After(before).main.todo[0] == id then 1 else 0
  }

  /** How many times the job was freed. */
  function Freed(run: Run, id: Id): nat
    requires IsRun(run)
  {
    match run
    case Start => 0
    case Step(before, a) =>
      var s := After(before);
      Freed(before, id) + if a.RemoveOrKeep? && s.main.phase.canRemove && s.main.todo[0] == id then 1 else 0
  }

  /** How many references clients own: taken ones without dropped ones. */
  function References(run: Run, id: Id): int {
    match run
    case Start => 0
    case Step(before, a) =>
      References(before, id) + (if a.IncRef? && a.id == id then 1 else if a.DecRef? && a.id == id then -1 else 0)
  }

  lemma TextIsRecorded(s: State, a: Action, id: Id)
    requires Enabled(s, a) && id in s.jobs
    ensures id in Next(s, a).jobs
    ensures Next(s, a).jobs[id].errors
            == s.jobs[id].errors + (if (a.ReadText? || a.TaskFails?) && a.id == id then a.text else "")
  {
    match a
    case ReadText(_, _) =>
    case TaskFails(_, _) =>
    case _ => assert s.jobs[id].errors + "" == s.jobs[id].errors;
  }

  lemma CallbacksAreRecorded(s: State, a: Action, id: Id)
    requires Enabled(s, a) && id in s.jobs
    ensures id in Next(s, a).jobs
    ensures Next(s, a).jobs[id].provided
            == s.jobs[id].provided + (if a.SetExitCallback? && a.id == id && a.some then 1 else 0)
    ensures Next(s, a).jobs[id].called
            == s.jobs[id].called + (if a.CallBack? && s.main.todo[0] == id then 1 else 0)
  {
    match a
    case SetExitCallback(_, _) =>
    case CallBack =>
    case _ =>
  }

  lemma ReferencesAreRecorded(s: State, a: Action, id: Id)
    requires Enabled(s, a) && id in s.jobs
    ensures id in Next(s, a).jobs
    ensures Next(s, a).jobs[id].clients
            == s.jobs[id].clients + (if a.IncRef? && a.id == id then 1 else if a.DecRef? && a.id == id then -1 else 0)
    ensures Next(s, a).jobs[id].freed
            <==> s.jobs[id].freed || (a.RemoveOrKeep? && s.main.phase.canRemove && s.main.todo[0] == id)
  {
    match a
    case IncRef(_) =>
    case DecRef(_) =>
    case RemoveOrKeep =>
    case _ =>
  }

  lemma NewIsRecorded(s: State, a: Action, id: Id)
    requires Enabled(s, a) && id !in s.jobs
    ensures id in Next(s, a).jobs ==>
              a.AddBackgroundJob? && a.id == id && var job := Next(s, a).jobs[id];
              job.errors == "" && job.provided == job.called == job.clients == 0 && !job.freed
    ensures !((a.ReadText? || a.TaskFails? || a.SetExitCallback? || a.IncRef? || a.DecRef?) && a.id == id)
    ensures !((a.CallBack? || a.RemoveOrKeep?) && s.main.todo[0] == id)
  {
  }

  lemma FreedIsLive(s: State)
    requires Inv(s) && Enabled(s, RemoveOrKeep)
    ensures s.Live(s.main.todo[0])
  {
    hide JobsOk, ListsOk;
    LinkedIsLive(s, s.main.todo[0]);
  }

  lemma {:induction false} HistoryIsRecorded(run: Run, id: Id)
    requires IsRun(run)
    ensures id in After(run).jobs ==>
              var job := After(run).jobs[id];
              && job.errors == Written(run, id)
              && job.provided == Provided(run, id)
              && job.called == Called(run, id)
              && job.clients == References(run, id)
              && Freed(run, id) == if job.freed then 1 else 0
    ensures id !in After(run).jobs ==>
              && Written(run, id) == ""
              && Provided(run, id) == Called(run, id) == References(run, id) == Freed(run, id) == 0
  {
    hide Inv, Next, Enabled, Careful;
    if run.Step? {
      var s, a := After(run.before), run.action;
      HistoryIsRecorded(run.before, id);
      if id in s.jobs {
        TextIsRecorded(s, a, id);
        CallbacksAreRecorded(s, a, id);
        ReferencesAreRecorded(s, a, id);
      } else {
        NewIsRecorded(s, a, id);
      }
      if a.RemoveOrKeep? {
        RunKeepsInv(run.before);
        FreedIsLive(s);
      }
    }
  }

  /** No error is lost or repeated: what was taken to be shown is followed by what waits for it. */
  lemma TextIsKept(run: Run, id: Id)
    requires IsRun(run) && id in After(run).jobs
    ensures var job := After(run).jobs[id]; job.shown + job.newErrors == Written(run, id)
  {
    hide Next, Enabled, State.MainList, State.ErrorList;
    HistoryIsRecorded(run, id);
    RunKeepsInv(run);
    JobIsOk(After(run), id);
  }

  /** Each provided function is called at most once, and by the time the job is freed all of them that weren't replaced
      or cleared have been called. */
  lemma CallbacksAreCalled(run: Run, id: Id)
    requires IsRun(run) && id in After(run).jobs
    ensures var job := After(run).jobs[id];
            && Called(run, id) + job.dropped <= Provided(run, id) <= Called(run, id) + job.dropped + 1
            && (job.freed ==> Called(run, id) + job.dropped == Provided(run, id))
  {
    hide Next, Enabled, State.MainList, State.ErrorList;
    HistoryIsRecorded(run, id);
    RunKeepsInv(run);
    JobIsOk(After(run), id);
  }

  /** Functions are called only for jobs that aren't running anymore and aren't freed yet. */
  lemma CalledAfterExit(run: Run)
    requires IsRun(run) && Enabled(After(run), CallBack)
    ensures var s := After(run); s.Live(s.main.todo[0]) && !s.jobs[s.main.todo[0]].running
  {
    hide Next, State.MainList, State.ErrorList;
    RunKeepsInv(run);
    LinkedExist(After(run));
  }

  /** A job is freed at most once, only after it has finished and all references to it are dropped. */
  lemma FreedOnce(run: Run, id: Id)
    requires IsRun(run)
    ensures Freed(run, id) <= 1
    ensures Freed(run, id) == 1 ==>
              id in After(run).jobs && !After(run).jobs[id].running && References(run, id) == 0 && !After(run).Live(id)
  {
    hide Next, Enabled, State.MainList, State.ErrorList;
    HistoryIsRecorded(run, id);
    if id in After(run).jobs {
      RunKeepsInv(run);
      JobIsOk(After(run), id);
    }
  }

  /** The main thread goes on to free the job whose callback has just been called even though it's used by a client. */
  predicate FreesUsed(s: State, id: Id) {
    && s.starting.NotStarting?
    && Enabled(s, CallbackReturns)
    && Enabled(Next(s, CallbackReturns), RemoveOrKeep)
    && var t := Next(Next(s, CallbackReturns), RemoveOrKeep);
       id in t.jobs && t.jobs[id].freed && t.jobs[id].useCount == t.jobs[id].clients == 1
  }

  /** Being careful is necessary: removal is decided on before the function is called, so if it takes a reference to its
      job, the job is freed with the reference still there. */
  lemma KeptInCallbackIsFreed(s: State, a: Action)
    requires Inv(s) && Enabled(s, a) && !Careful(s, a)
    ensures var t := Next(s, a); FreesUsed(if s.starting.Created? then Next(t, Return) else t, a.id)
  {
    hide JobsOk, ListsOk, State.MainList, State.ErrorList;
  }

  lemma StartIsRun()
    ensures IsRun(Start) && After(Start) == START
  {
  }

  lemma ExtendRun(run: Run, a: Action)
    requires IsRun(run) && Enabled(After(run), a) && Careful(After(run), a)
    ensures IsRun(Step(run, a)) && After(Step(run, a)) == Next(After(run), a)
  {
  }

  /** A command that has finished while nobody but its callback is interested in it. */
  lemma UnusedIsReachable() returns (run: Run)
    ensures IsRun(run)
    ensures var s := After(run);
            && s.main.Idle? && s.starting.NotStarting? && s.bgJobs == [0] && 0 in s.jobs
            && s.jobs[0].callback && !s.jobs[0].running && s.jobs[0].useCount == 0
  {
    hide IsRun, After;
    run := Start;
    StartIsRun();
    ExtendRun(run, AddBackgroundJob(0, true, false, false));
    run := Step(run, AddBackgroundJob(0, true, false, false));
    ExtendRun(run, Link);
    run := Step(run, Link);
    ExtendRun(run, SetExitCallback(0, true));
    run := Step(run, SetExitCallback(0, true));
    ExtendRun(run, Return);
    run := Step(run, Return);
    ExtendRun(run, MarkFinished(0));
    run := Step(run, MarkFinished(0));
  }

  /** Not being careful is possible: that callback can take a reference. */
  lemma CarelessIsReachable()
    ensures exists run, a :: IsRun(run) && Enabled(After(run), a) && !Careful(After(run), a)
  {
    hide IsRun, After;
    var run := UnusedIsReachable();
    ExtendRun(run, BeginCheck);
    run := Step(run, BeginCheck);
    ExtendRun(run, SkipErrors);
    run := Step(run, SkipErrors);
    ExtendRun(run, CheckStatus(false));
    run := Step(run, CheckStatus(false));
    ExtendRun(run, DecideFate);
    run := Step(run, DecideFate);
    ExtendRun(run, CallBack);
    run := Step(run, CallBack);
    assert Enabled(After(run), IncRef(0)) && !Careful(After(run), IncRef(0));
  }

  /** A command whose error stream is being read. */
  const COMMAND := NewJob(true, true, false).(drained := false)

  lemma CommandIsReachable() returns (run: Run)
    ensures IsRun(run)
    ensures After(run)
            == State(map[0 := NewJob(true, true, false)], [0], [0], [], Idle, NotStarting, FreeDrained(0), {})
  {
    hide IsRun, After;
    run := Start;
    StartIsRun();
    ExtendRun(run, AddBackgroundJob(0, true, true, false));
    run := Step(run, AddBackgroundJob(0, true, true, false));
    ExtendRun(run, Link);
    run := Step(run, Link);
    ExtendRun(run, Return);
    run := Step(run, Return);
  }

  lemma ReadingIsReachable() returns (run: Run)
    ensures IsRun(run)
    ensures After(run) == State(map[0 := COMMAND], [0], [], [0], Idle, NotStarting, Read, {})
  {
    hide IsRun, After;
    run := CommandIsReachable();
    ExtendRun(run, FreeDrainedStep);
    run := Step(run, FreeDrainedStep);
    ExtendRun(run, ImportNew);
    run := Step(run, ImportNew);
    assert After(run).errorThread == Prepend([0]);
    ExtendRun(run, PrependNext);
    run := Step(run, PrependNext);
    ExtendRun(run, PrependNext);
    run := Step(run, PrependNext);
  }

  /** Errors of the command are displayed. */
  lemma PromptIsReachable() returns (run: Run)
    ensures IsRun(run)
    ensures After(run) == State(map[0 := COMMAND.(errors := "error", shown := "error")],
                                [], [], [0], Checking([], [0], Prompting), NotStarting, Read, {})
  {
    hide IsRun, After;
    run := ReadingIsReachable();
    ExtendRun(run, ReadText(0, "error"));
    run := Step(run, ReadText(0, "error"));
    assert "" + "error" == "error";
    assert After(run).jobs == map[0 := COMMAND.(errors := "error", newErrors := "error")];
    ExtendRun(run, BeginCheck);
    run := Step(run, BeginCheck);
    ExtendRun(run, TakeErrors(true));
    run := Step(run, TakeErrors(true));
    assert After(run).jobs == map[0 := COMMAND.(errors := "error", shown := "error")];
  }

  /** Another command is started in the meantime. */
  lemma StartedInPromptIsReachable() returns (run: Run)
    ensures IsRun(run)
    ensures After(run) == State(map[0 := COMMAND.(errors := "error", shown := "error"),
                                    1 := NewJob(true, false, false)],
                                [1], [], [0], Checking([], [0], Prompting), Created(1), Read, {})
  {
    hide IsRun, After;
    run := PromptIsReachable();
    ExtendRun(run, AddBackgroundJob(1, true, false, false));
    run := Step(run, AddBackgroundJob(1, true, false, false));
    ExtendRun(run, Link);
    run := Step(run, Link);
  }

  /** It finishes and nobody needs it. */
  lemma UnusedInPromptIsReachable() returns (run: Run)
    ensures IsRun(run)
    ensures After(run) == State(map[0 := COMMAND.(errors := "error", shown := "error"),
                                    1 := NewJob(true, false, false).(running := false)],
                                [1], [], [0], Checking([], [0], Prompting), NotStarting, Read, {})
  {
    hide IsRun, After;
    run := StartedInPromptIsReachable();
    ghost var jobs := After(run).jobs;
    ExtendRun(run, IncRef(1));
    run := Step(run, IncRef(1));
    ExtendRun(run, Return);
    run := Step(run, Return);
    assert After(run).jobs == jobs[1 := ChangeRef(jobs[1], 1)];
    ExtendRun(run, MarkFinished(1));
    run := Step(run, MarkFinished(1));
    ExtendRun(run, DecRef(1));
    run := Step(run, DecRef(1));
    assert After(run).jobs == jobs[1 := jobs[1].(running := false)];
  }

  lemma CheckEndIsReachable() returns (run: Run)
    ensures IsRun(run)
    ensures After(run) == State(map[0 := COMMAND.(errors := "error", shown := "error"),
                                    1 := NewJob(true, false, false).(running := false)],
                                [0], [], [0], Idle, NotStarting, Read, {1})
  {
    hide IsRun, After;
    run := UnusedInPromptIsReachable();
    ghost var jobs := After(run).jobs;
    ExtendRun(run, ClosePrompt);
    run := Step(run, ClosePrompt);
    ExtendRun(run, TakeErrors(true));
    run := Step(run, TakeErrors(true));
    ExtendRun(run, CheckStatus(false));
    run := Step(run, CheckStatus(false));
    assert After(run).jobs == jobs;
    ExtendRun(run, DecideFate);
    run := Step(run, DecideFate);
    ExtendRun(run, NoCallback);
    run := Step(run, NoCallback);
    ExtendRun(run, RemoveOrKeep);
    run := Step(run, RemoveOrKeep);
    ExtendRun(run, EndCheck);
    run := Step(run, EndCheck);
  }

  /** Finished, not used by anyone and yet in none of the lists. */
  predicate IsForgottenUnused(run: Run, id: Id)
    requires IsRun(run)
  {
    var s := After(run);
    && IsForgotten(run, id) && s.main.Idle? && s.starting.NotStarting?
    && s.Live(id) && !s.jobs[id].running && s.jobs[id].useCount == 0
    && id !in s.MainList() && id !in s.ErrorList()
  }

  /** Jobs do get forgotten. */
  lemma ForgottenIsReachable()
    ensures exists run :: IsRun(run) && IsForgottenUnused(run, 1)
  {
    hide IsRun, After, IsForgotten;
    var run := CheckEndIsReachable();
    LostAreForgotten(run, 1);
    assert IsForgottenUnused(run, 1);
  }
}
