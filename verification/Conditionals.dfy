/** Structured meaning of conditional statements and its agreement with processing of commands one
    by one. */
module Conditionals {
  import opened Scopes

  datatype Block = Nothing | Stmts(stmt: Stmt, rest: Block)

  datatype Stmt =
    | Command(cmd: string)
    | Source(body: Block)
    | Finish
    | IfElse(cond: Condition, body: Block, branches: Branches)

  datatype Branches =
    | NoMore
    | ElseIf(cond: Condition, body: Block, next: Branches)
    | Else(body: Block)

  // ---- commands of a block, which are followed by `k` ----

  function Commands(b: Block, k: Script): Script {
    match b
    case Nothing => k
    case Stmts(stmt, rest) => StmtCommands(stmt, Commands(rest, k))
  }

  function StmtCommands(s: Stmt, k: Script): Script {
    match s
    case Command(cmd) => Then(OtherCmd(cmd), k)
    case Source(body) => Then(SourceCmd(Commands(body, End)), k)
    case Finish => Then(FinishCmd, k)
    case IfElse(cond, body, branches) => Then(IfCmd(cond), Commands(body, BranchCommands(branches, k)))
  }

  function BranchCommands(br: Branches, k: Script): Script {
    match br
    case NoMore => Then(EndIfCmd, k)
    case ElseIf(cond, body, next) => Then(ElseIfCmd(cond), Commands(body, BranchCommands(next, k)))
    case Else(body) => Then(ElseCmd, Commands(body, Then(EndIfCmd, k)))
  }

  // ---- what has to happen: the new log and whether the script is finished ----

  type Result = (seq<Event>, bool)

  function Evaluate(log: seq<Event>, cond: Condition, w: World): seq<Event> {
    log + [Evaluated(cond, w(log, cond))]
  }

  function Exec(b: Block, log: seq<Event>, w: World): Result {
    match b
    case Nothing => (log, false)
    case Stmts(stmt, rest) =>
      var r := ExecStmt(stmt, log, w);
      if r.1 then r else Exec(rest, r.0, w)
  }

  function ExecStmt(s: Stmt, log: seq<Event>, w: World): Result {
    match s
    case Command(cmd) => (log + [Ran(cmd)], false)
    case Source(body) => (Exec(body, log, w).0, false)
    case Finish => (log, true)
    case IfElse(cond, body, branches) =>
      match w(log, cond)
      case True => Exec(body, Evaluate(log, cond, w), w)
      case False => ExecBranches(branches, Evaluate(log, cond, w), w)
      case Fails => (Evaluate(log, cond, w), false)
  }

  /** No branch has been taken yet. */
  function ExecBranches(br: Branches, log: seq<Event>, w: World): Result {
    match br
    case NoMore => (log, false)
    case ElseIf(cond, body, next) =>
      (match w(log, cond)
       case True => Exec(body, Evaluate(log, cond, w), w)
       case False => ExecBranches(next, Evaluate(log, cond, w), w)
       case Fails => (Evaluate(log, cond, w), false))
    case Else(body) => Exec(body, log, w)
  }

  // ---- agreement ----

  lemma RunStep(s: State, t: Token, k: Script, w: World)
    ensures var (process, s') := ShouldBeProcessed(s, t);
            Run(s, Then(t, k), w) ==
            if !process then Run(s', k, w)
            else if Process(s', t, w).1 then Process(s', t, w).0
            else Run(Process(s', t, w).0, k, w)
  {
  }

  /** Commands of a block that isn't executed change nothing, including the counter. */
  lemma {:induction false} SkipBlock(b: Block, k: Script, s: State, w: World)
    requires !s.IsAtBottom()
    ensures Run(s, Commands(b, k), w) == Run(s, k, w)
    decreases b
  {
    hide Run, Process;
    if b.Stmts? {
      SkipStmt(b.stmt, Commands(b.rest, k), s, w);
      SkipBlock(b.rest, k, s, w);
    }
  }

  lemma {:induction false} SkipStmt(stmt: Stmt, k: Script, s: State, w: World)
    requires !s.IsAtBottom()
    ensures Run(s, StmtCommands(stmt, k), w) == Run(s, k, w)
    decreases stmt
  {
    hide Run, Process;
    match stmt
    case Command(cmd) => RunStep(s, OtherCmd(cmd), k, w);
    case Source(body) => RunStep(s, SourceCmd(Commands(body, End)), k, w);
    case Finish => RunStep(s, FinishCmd, k, w);
    case IfElse(cond, body, branches) =>
      var s' := s.(skipped := s.skipped + 1);
      RunStep(s, IfCmd(cond), Commands(body, BranchCommands(branches, k)), w);
      SkipBlock(body, BranchCommands(branches, k), s', w);
      SkipBranches(branches, k, s', w);
  }

  lemma {:induction false} SkipBranches(br: Branches, k: Script, s: State, w: World)
    requires !s.IsAtBottom() && s.skipped > 0
    ensures Run(s, BranchCommands(br, k), w) == Run(s.(skipped := s.skipped - 1), k, w)
    decreases br
  {
    hide Run, Process;
    match br
    case NoMore => RunStep(s, EndIfCmd, k, w);
    case ElseIf(cond, body, next) =>
      RunStep(s, ElseIfCmd(cond), Commands(body, BranchCommands(next, k)), w);
      SkipBlock(body, BranchCommands(next, k), s, w);
      SkipBranches(next, k, s, w);
    case Else(body) =>
      RunStep(s, ElseCmd, Commands(body, Then(EndIfCmd, k)), w);
      SkipBlock(body, Then(EndIfCmd, k), s, w);
      RunStep(s, EndIfCmd, k, w);
  }

  /** What follows a taken branch is skipped without evaluation of any conditions. */
  lemma {:induction false} AfterTaken(br: Branches, k: Script, s: State, base: seq<Frame>, w: World)
    requires s.skipped == 0 && (s.levels == base + [Match, ActiveScope] || s.levels == base + [AfterMatch])
    ensures Run(s, BranchCommands(br, k), w) == Run(s.(levels := base), k, w)
    decreases br
  {
    hide Run;
    var skipping := s.(levels := base + [AfterMatch]);
    match br
    case NoMore =>
      RunStep(s, EndIfCmd, k, w);
      LeaveBranch(s, base);
    case ElseIf(cond, body, next) =>
      RunStep(s, ElseIfCmd(cond), Commands(body, BranchCommands(next, k)), w);
      LeaveBranch(s, base);
      SkipBlock(body, BranchCommands(next, k), skipping, w);
      AfterTaken(next, k, skipping, base, w);
    case Else(body) =>
      var finishing := s.(levels := base + [FinishFrame]);
      RunStep(s, ElseCmd, Commands(body, Then(EndIfCmd, k)), w);
      LeaveBranch(s, base);
      SkipBlock(body, Then(EndIfCmd, k), finishing, w);
      RunStep(finishing, EndIfCmd, k, w);
      assert finishing.Pop() == s.(levels := base);
  }

  lemma LeaveBranch(s: State, base: seq<Frame>)
    requires s.levels == base + [Match, ActiveScope] || s.levels == base + [AfterMatch]
    ensures ScopedElseIf(s, false) == s.(levels := base + [AfterMatch])
    ensures ScopedElse(s) == s.(levels := base + [FinishFrame])
    ensures ScopedEndIf(s) == s.(levels := base)
  {
    if s.levels == base + [Match, ActiveScope] {
      assert s.levels[..|s.levels| - 1] == base + [Match];
      assert (base + [Match])[|base| := AfterMatch] == base + [AfterMatch];
      assert (base + [Match])[|base| := FinishFrame] == base + [FinishFrame];
      assert (base + [Match])[..|base|] == base;
    } else {
      assert (base + [AfterMatch])[|base| := AfterMatch] == base + [AfterMatch];
      assert (base + [AfterMatch])[|base| := FinishFrame] == base + [FinishFrame];
      assert (base + [AfterMatch])[..|base|] == base;
    }
  }

  /** The state after a block and what follows it. */
  function Continue(s: State, r: Result, k: Script, w: World): State {
    if r.1 then ScopeEscape(s).(log := r.0) else Run(s.(log := r.0), k, w)
  }

  /** Escape from nested statements. */
  lemma {:induction false} EscapeThrough(levels: seq<Frame>, more: seq<Frame>)
    requires ScopeGuard !in more
    ensures GuardEnd(levels + more) == GuardEnd(levels)
  {
    if more == [] {
      assert levels + more == levels;
    } else {
      var all := levels + more;
      assert all[..|all| - 1] == levels + more[..|more| - 1];
      assert all[|all| - 1] in more;
      EscapeThrough(levels, more[..|more| - 1]);
    }
  }

  lemma SameEscape(s: State, more: seq<Frame>)
    requires ScopeGuard !in more
    ensures ScopeEscape(s.(levels := s.levels + more)) == ScopeEscape(s)
  {
    EscapeThrough(s.levels, more);
    var n := GuardEnd(s.levels);
    assert (s.levels + more)[..n] == s.levels[..n];
  }

  /** Processing of commands of a block in a branch that is being executed has the effect of the
      block. */
  lemma {:induction false} RunBlock(b: Block, k: Script, s: State, w: World)
    requires s.levels != [] && s.IsAtBottom() && s.skipped == 0
    ensures Run(s, Commands(b, k), w) == Continue(s, Exec(b, s.log, w), k, w)
    decreases b, 0
  {
    hide Run, Process;
    if b.Stmts? {
      RunStmt(b.stmt, Commands(b.rest, k), s, w);
      var r := ExecStmt(b.stmt, s.log, w);
      if !r.1 {
        RunBlock(b.rest, k, s.(log := r.0), w);
      }
    }
  }

  lemma {:induction false} RunStmt(stmt: Stmt, k: Script, s: State, w: World)
    requires s.levels != [] && s.IsAtBottom() && s.skipped == 0
    ensures Run(s, StmtCommands(stmt, k), w) == Continue(s, ExecStmt(stmt, s.log, w), k, w)
    decreases stmt
  {
    hide Run;
    match stmt
    case Command(cmd) => RunStep(s, OtherCmd(cmd), k, w);
    case Finish => RunStep(s, FinishCmd, k, w);
    case Source(body) =>
      RunStep(s, SourceCmd(Commands(body, End)), k, w);
      SourceBlock(body, s, w);
    case IfElse(cond, body, branches) =>
      var k' := BranchCommands(branches, k);
      RunStep(s, IfCmd(cond), Commands(body, k'), w);
      var log' := Evaluate(s.log, cond, w);
      match w(s.log, cond) {
        case True =>
          RunTaken(body, branches, k, s.(log := log'), w);
          assert s.levels + [Match] + [ActiveScope] == s.levels + [Match, ActiveScope];
        case False =>
          var s' := s.(levels := s.levels + [BeforeMatch], log := log');
          SkipBlock(body, k', s', w);
          RunBranches(branches, k, s', s.levels, w);
        case Fails =>
          var s' := s.(levels := s.levels + [AfterMatch], log := log');
          SkipBlock(body, k', s', w);
          AfterTaken(branches, k, s', s.levels, w);
      }
  }

  /** A branch whose condition is true. */
  lemma {:induction false} RunTaken(body: Block, branches: Branches, k: Script, s: State, w: World)
    requires s.levels != [] && s.skipped == 0
    ensures var s' := s.(levels := s.levels + [Match, ActiveScope]);
            Run(s', Commands(body, BranchCommands(branches, k)), w) == Continue(s, Exec(body, s.log, w), k, w)
    decreases body, 1
  {
    hide Run, Process;
    var s' := s.(levels := s.levels + [Match, ActiveScope]);
    var r := Exec(body, s.log, w);
    RunBlock(body, BranchCommands(branches, k), s', w);
    if r.1 {
      SameEscape(s, [Match, ActiveScope]);
    } else {
      AfterTaken(branches, k, s'.(log := r.0), s.levels, w);
    }
  }

  lemma {:induction false} RunBranches(br: Branches, k: Script, s: State, base: seq<Frame>, w: World)
    requires base != [] && s.levels == base + [BeforeMatch] && s.skipped == 0
    ensures Run(s, BranchCommands(br, k), w) == Continue(s.(levels := base), ExecBranches(br, s.log, w), k, w)
    decreases br
  {
    hide Run;
    match br
    case NoMore =>
      RunStep(s, EndIfCmd, k, w);
      assert (base + [BeforeMatch])[..|base|] == base;
    case ElseIf(cond, body, next) =>
      var k', log' := BranchCommands(next, k), Evaluate(s.log, cond, w);
      RunStep(s, ElseIfCmd(cond), Commands(body, k'), w);
      assert s.levels[|base| := AfterMatch] == base + [AfterMatch];
      assert s.levels[|base| := Match] + [ActiveScope] == base + [Match, ActiveScope];
      assert s.levels[|base| := BeforeMatch] == s.levels;
      match w(s.log, cond) {
        case True =>
          RunTaken(body, next, k, s.(levels := base, log := log'), w);
        case False =>
          SkipBlock(body, k', s.(log := log'), w);
          RunBranches(next, k, s.(log := log'), base, w);
        case Fails =>
          var s' := s.(levels := base + [AfterMatch], log := log');
          SkipBlock(body, k', s', w);
          AfterTaken(next, k, s', base, w);
      }
    case Else(body) =>
      RunElse(body, k, s, base, w);
  }

  lemma {:induction false} RunElse(body: Block, k: Script, s: State, base: seq<Frame>, w: World)
    requires base != [] && s.levels == base + [BeforeMatch] && s.skipped == 0
    ensures Run(s, BranchCommands(Else(body), k), w) ==
            Continue(s.(levels := base), Exec(body, s.log, w), k, w)
    decreases body, 1
  {
    hide Run;
    var s' := s.(levels := base + [ElseFrame, ActiveScope]);
    RunStep(s, ElseCmd, Commands(body, Then(EndIfCmd, k)), w);
    assert s.levels[|base| := ElseFrame] + [ActiveScope] == base + [ElseFrame, ActiveScope];
    RunBlock(body, Then(EndIfCmd, k), s', w);
    var r := Exec(body, s.log, w);
    if r.1 {
      SameEscape(s.(levels := base), [ElseFrame, ActiveScope]);
    } else {
      RunStep(s'.(log := r.0), EndIfCmd, k, w);
      assert (base + [ElseFrame, ActiveScope])[..|base| + 1] == base + [ElseFrame];
      assert (base + [ElseFrame])[..|base|] == base;
    }
  }

  /** A sourced script leaves the stack and the counter as they were. */
  lemma {:induction false} SourceBlock(body: Block, s: State, w: World)
    requires s.skipped == 0
    ensures RunScript(s, Commands(body, End), w) == s.(log := Exec(body, s.log, w).0)
    decreases body, 1
  {
    var s' := s.Push(ScopeGuard);
    var r := Exec(body, s.log, w);
    RunBlock(body, End, s', w);
    assert s'.levels[..|s'.levels|] == s'.levels;
    assert s'.levels[..|s'.levels| - 1] == s.levels;
  }

  // ---- scripts that are not well-nested ----

  /** Frames of the outer scopes are intact and a branch is executed only inside of a statement. */
  predicate InScope(s: State, outer: seq<Frame>) {
    && |outer| < |s.levels| && s.levels[..|outer|] == outer && s.levels[|outer|] == ScopeGuard
    && forall k | |outer| < k < |s.levels| ::
         && s.levels[k] != ScopeGuard
         && (s.levels[k] == ActiveScope ==> s.levels[k - 1] == Match || s.levels[k - 1] == ElseFrame)
  }

  lemma {:induction false} ScopeEnds(levels: seq<Frame>, n: nat)
    requires n < |levels| && levels[n] == ScopeGuard && forall k | n < k < |levels| :: levels[k] != ScopeGuard
    ensures GuardEnd(levels) == n + 1
  {
    if n + 1 < |levels| {
      ScopeEnds(levels[..|levels| - 1], n);
    }
  }

  lemma PushInScope(s: State, frame: Frame, outer: seq<Frame>)
    requires InScope(s, outer) && frame != ScopeGuard && (frame == ActiveScope ==> s.TopIs(Match) || s.TopIs(ElseFrame))
    ensures InScope(s.Push(frame), outer)
  {
  }

  lemma SetTopInScope(s: State, frame: Frame, outer: seq<Frame>)
    requires InScope(s, outer) && !s.IsAtGuard() && frame != ScopeGuard && frame != ActiveScope
    ensures InScope(s.SetTop(frame), outer)
  {
  }

  lemma PopInScope(s: State, outer: seq<Frame>)
    requires InScope(s, outer) && !s.IsAtGuard()
    ensures InScope(s.Pop(), outer)
  {
  }

  lemma LeaveInScope(s: State, outer: seq<Frame>)
    requires InScope(s, outer)
    ensures InScope(s.LeaveActive(), outer) && !s.LeaveActive().TopIs(ActiveScope)
    ensures s.TopIs(ActiveScope) ==> !s.LeaveActive().IsAtGuard()
  {
  }

  lemma EscapeInScope(s: State, outer: seq<Frame>)
    requires InScope(s, outer)
    ensures InScope(ScopeEscape(s), outer) && ScopeEscape(s).IsAtGuard()
    ensures ScopeFinish(s).levels == outer
  {
    ScopeEnds(s.levels, |outer|);
    assert s.levels[..|outer| + 1][..|outer|] == outer;
  }

  lemma ErrorInScope(s: State, outer: seq<Frame>)
    requires InScope(s, outer)
    ensures InScope(ScopedError(s), outer)
  {
    hide InScope;
    NonEmpty(s, outer);
    if s.IsAtBottom() { PushInScope(s, AfterMatch, outer); } else { SetTopInScope(s, AfterMatch, outer); }
  }

  lemma NonEmpty(s: State, outer: seq<Frame>)
    requires InScope(s, outer)
    ensures s.levels != []
  {
  }

  lemma IfInScope(s: State, cond: bool, outer: seq<Frame>)
    requires InScope(s, outer)
    ensures InScope(ScopedIf(s, cond), outer)
  {
    hide InScope;
    PushInScope(s, if cond then Match else BeforeMatch, outer);
    if cond { PushInScope(s.Push(Match), ActiveScope, outer); }
  }

  lemma ElseIfInScope(s: State, cond: bool, outer: seq<Frame>)
    requires InScope(s, outer) && (cond ==> s.TopIs(BeforeMatch) || s.IsAtGuard())
    ensures InScope(ScopedElseIf(s, cond), outer)
  {
    var s' := s.LeaveActive();
    LeaveInScope(s, outer);
    if !s.IsAtGuard() && !s'.TopIs(ElseFrame) && !s'.TopIs(FinishFrame) {
      var frame := if !s'.TopIs(BeforeMatch) then AfterMatch else if cond then Match else BeforeMatch;
      SetTopInScope(s', frame, outer);
      if cond { PushInScope(s'.SetTop(frame), ActiveScope, outer); }
    }
  }

  lemma ElseInScope(s: State, outer: seq<Frame>)
    requires InScope(s, outer)
    ensures InScope(ScopedElse(s), outer)
  {
    var s' := s.LeaveActive();
    LeaveInScope(s, outer);
    if s'.TopIs(BeforeMatch) {
      SetTopInScope(s', ElseFrame, outer);
      PushInScope(s'.SetTop(ElseFrame), ActiveScope, outer);
    } else if !s'.IsAtBottom() {
      SetTopInScope(s', FinishFrame, outer);
    }
  }

  lemma EndIfInScope(s: State, outer: seq<Frame>)
    requires InScope(s, outer)
    ensures InScope(ScopedEndIf(s), outer)
  {
    LeaveInScope(s, outer);
    if !s.LeaveActive().IsAtBottom() { PopInScope(s.LeaveActive(), outer); }
  }

  /** Whatever a script is, it doesn't affect frames of the scopes around it. */
  lemma {:induction false} ScriptIsIsolated(s: State, script: Script, w: World)
    ensures RunScript(s, script, w).levels == s.levels
    decreases script, 2
  {
    hide InScope, Run;
    var s' := s.Push(ScopeGuard);
    assert InScope(s', s.levels) by { StartsInScope(s); }
    RunInScope(s', script, s.levels, w);
    EscapeInScope(Run(s', script, w), s.levels);
    NonEmpty(Run(s', script, w), s.levels);
  }

  lemma StartsInScope(s: State)
    ensures InScope(s.Push(ScopeGuard), s.levels)
  {
  }

  lemma {:induction false} RunInScope(s: State, script: Script, outer: seq<Frame>, w: World)
    requires InScope(s, outer)
    ensures InScope(Run(s, script, w), outer)
    decreases script, 1
  {
    hide InScope, Process;
    if script.Then? {
      var (process, s') := ShouldBeProcessed(s, script.token);
      assert InScope(s', outer) by { SkippedInScope(s, s'.skipped, outer); }
      if process {
        ProcessInScope(s', script.token, outer, w);
        RunInScope(Process(s', script.token, w).0, script.rest, outer, w);
      } else {
        RunInScope(s', script.rest, outer, w);
      }
    }
  }

  lemma SkippedInScope(s: State, skipped: nat, outer: seq<Frame>)
    requires InScope(s, outer)
    ensures InScope(s.(skipped := skipped), outer)
  {
  }

  lemma LogInScope(s: State, log: seq<Event>, outer: seq<Frame>)
    requires InScope(s, outer)
    ensures InScope(s.(log := log), outer)
  {
  }

  lemma {:induction false} ProcessInScope(s: State, t: Token, outer: seq<Frame>, w: World)
    requires InScope(s, outer)
    ensures InScope(Process(s, t, w).0, outer)
    decreases t, 0
  {
    hide InScope, ScopedElseIf, ScopedElse, ScopedEndIf, ScopedError, ScopedIf, ScopeEscape, RunScript;
    match t
    case IfCmd(cond) =>
      var (x, s') := EvalCondition(s, false, cond, w);
      LogInScope(s, s'.log, outer);
      if x.Fails? { ErrorInScope(s', outer); } else { IfInScope(s', x.True?, outer); }
    case ElseIfCmd(cond) =>
      var (x, s') := EvalCondition(s, true, cond, w);
      LogInScope(s, s'.log, outer);
      NonEmpty(s, outer);
      if x.Fails? { ErrorInScope(s', outer); } else { ElseIfInScope(s', x.True?, outer); }
    case ElseCmd => ElseInScope(s, outer);
    case EndIfCmd => EndIfInScope(s, outer);
    case FinishCmd => EscapeInScope(s, outer);
    case SourceCmd(script) =>
      var r := RunScript(s, script, w);
      ScriptIsIsolated(s, script, w);
      LogInScope(s, r.log, outer);
      SkippedInScope(s.(log := r.log), r.skipped, outer);
    case OtherCmd(cmd) => LogInScope(s, s.Report(Ran(cmd)).log, outer);
  }

  /** The largest number of statements that can be left open by a script after `n` of them.  Apart from :if, a misplaced
      :elseif opens a statement when evaluation of its condition fails.  At the top level :finish is always the end. */
  function Opened(script: Script, n: nat): nat {
    match script
    case End => n
    case Then(t, rest) => if t.FinishCmd? && n == 0 then 0 else Opened(rest, OpenedAfter(t, n))
  }

  function OpenedAfter(t: Token, n: nat): nat {
    match t
    case IfCmd(_) => n + 1
    case ElseIfCmd(_) => if n == 0 then 1 else n
    case EndIfCmd => if n == 0 then 0 else n - 1
    case _ => n
  }

  /** Neither the script nor any of the scripts it sources can leave more than one statement open. */
  predicate Tidy(script: Script)
    decreases script, 1
  {
    Opened(script, 0) <= 1 && SourcesTidy(script)
  }

  predicate SourcesTidy(script: Script)
    decreases script, 0
  {
    script.Then? ==>
      && SourcesTidy(script.rest)
      && (script.token.SourceCmd? ==> Tidy(script.token.script))
  }

  /** Number of statements of the current scope that have a frame. */
  function Depth(levels: seq<Frame>): nat {
    if levels == [] then 0
    else
      match levels[|levels| - 1]
      case ScopeGuard => 0
      case ActiveScope => Depth(levels[..|levels| - 1])
      case _ => Depth(levels[..|levels| - 1]) + 1
  }

  /** Every active branch of the current scope belongs to a statement. */
  predicate Formed(levels: seq<Frame>) {
    levels == [] || levels[|levels| - 1] == ScopeGuard ||
    (&& Formed(levels[..|levels| - 1])
     && (levels[|levels| - 1] == ActiveScope ==>
           |levels| > 1 && levels[|levels| - 2] != ScopeGuard && levels[|levels| - 2] != ActiveScope))
  }

  /** Statements are counted only while they are skipped, and frames together with the counter are within the bound. */
  predicate CounterFits(s: State, n: nat) {
    && Formed(s.levels)
    && Depth(s.levels) + s.skipped <= n
    && (s.skipped > 0 ==> !s.IsAtBottom())
  }

  lemma PushFrame(s: State, frame: Frame)
    ensures var levels := s.Push(frame).levels;
            && Depth(levels) == (match frame case ScopeGuard => 0 case ActiveScope => Depth(s.levels)
                                             case _ => Depth(s.levels) + 1)
            && (Formed(s.levels) && frame != ActiveScope ==> Formed(levels))
            && (Formed(s.levels) && s.levels != [] && !s.IsAtBottom() ==> Formed(levels))
  {
    assert s.Push(frame).levels[..|s.levels|] == s.levels;
  }

  lemma SetTopFrame(s: State, frame: Frame)
    requires s.levels != [] && Formed(s.levels) && !s.IsAtBottom() && frame != ActiveScope && frame != ScopeGuard
    ensures Depth(s.SetTop(frame).levels) == Depth(s.levels) && Formed(s.SetTop(frame).levels)
    ensures !s.SetTop(frame).IsAtBottom()
  {
    assert s.SetTop(frame).levels[..|s.levels| - 1] == s.levels[..|s.levels| - 1];
  }

  lemma LeaveFrame(s: State)
    requires Formed(s.levels)
    ensures Formed(s.LeaveActive().levels) && Depth(s.LeaveActive().levels) == Depth(s.levels)
    ensures s.TopIs(ActiveScope) ==> s.LeaveActive().levels != [] && !s.LeaveActive().IsAtBottom()
    ensures !s.IsAtBottom() || s.TopIs(ActiveScope) ==> Depth(s.levels) > 0
  {
  }

  lemma GuardFrame(s: State)
    ensures s.IsAtGuard() ==> Depth(s.levels) == 0
  {
  }

  lemma FailedFits(s: State, n: nat)
    requires CounterFits(s, n) && s.skipped == 0
    ensures s.IsAtBottom() ==> CounterFits(ScopedError(s), Depth(s.levels) + 1)
    ensures !s.IsAtBottom() ==> CounterFits(ScopedError(s), n)
  {
    hide Depth, Formed;
    if s.levels != [] {
      if s.IsAtBottom() {
        PushFrame(s, AfterMatch);
      } else {
        SetTopFrame(s, AfterMatch);
      }
    }
  }

  lemma IfFits(s: State, cond: bool, n: nat)
    requires CounterFits(s, n) && s.skipped == 0
    ensures CounterFits(ScopedIf(s, cond), n + 1)
  {
    hide Depth, Formed;
    PushFrame(s, Match);
    PushFrame(s.Push(Match), ActiveScope);
    PushFrame(s, BeforeMatch);
  }

  lemma ElseIfFits(s: State, cond: bool, n: nat)
    requires CounterFits(s, n) && s.skipped == 0
    ensures CounterFits(ScopedElseIf(s, cond), n)
  {
    hide Depth, Formed;
    LeaveFrame(s);
    var s' := s.LeaveActive();
    if s'.levels != [] && !s'.IsAtBottom() {
      var frame := if !s'.TopIs(BeforeMatch) then AfterMatch else if cond then Match else BeforeMatch;
      SetTopFrame(s', frame);
      PushFrame(s'.SetTop(frame), ActiveScope);
    }
  }

  lemma ElseFits(s: State, n: nat)
    requires CounterFits(s, n) && s.skipped == 0
    ensures CounterFits(ScopedElse(s), n)
  {
    hide Depth, Formed;
    LeaveFrame(s);
    var s' := s.LeaveActive();
    if s'.levels != [] && !s'.IsAtBottom() {
      SetTopFrame(s', ElseFrame);
      SetTopFrame(s', FinishFrame);
      PushFrame(s'.SetTop(ElseFrame), ActiveScope);
    }
  }

  lemma EndIfFits(s: State, n: nat)
    requires CounterFits(s, n) && s.skipped == 0
    ensures CounterFits(ScopedEndIf(s), if n == 0 then 0 else n - 1)
  {
    LeaveFrame(s);
  }

  lemma {:induction false} ProcessFits(s: State, t: Token, n: nat, w: World)
    requires CounterFits(s, n) && s.skipped == 0 && (t.SourceCmd? ==> Tidy(t.script))
    requires !s.IsAtBottom() ==> t.ElseIfCmd? || t.ElseCmd? || t.EndIfCmd?
    ensures Process(s, t, w).1 <==> t.FinishCmd?
    ensures t.FinishCmd? ==> Process(s, t, w).0.skipped == 0
    ensures !t.FinishCmd? ==> CounterFits(Process(s, t, w).0, OpenedAfter(t, n))
    decreases t, 0
  {
    hide Depth, Formed;
    match t
    case IfCmd(cond) =>
      var (x, s') := EvalCondition(s, false, cond, w);
      FailedFits(s', n);
      IfFits(s', x.True?, n);
    case ElseIfCmd(cond) =>
      var (x, s') := EvalCondition(s, true, cond, w);
      FailedFits(s', n);
      ElseIfFits(s', x.True?, n);
      GuardFrame(s);
      LeaveFrame(s);
    case ElseCmd => ElseFits(s, n);
    case EndIfCmd => EndIfFits(s, n);
    case SourceCmd(script) =>
      CounterOfScript(s, script, w);
      ScriptIsIsolated(s, script, w);
    case _ =>
  }

  lemma {:induction false} CounterOfRun(s: State, script: Script, n: nat, w: World)
    requires CounterFits(s, n) && SourcesTidy(script)
    ensures var s' := Run(s, script, w);
            s'.skipped > 0 ==> !s'.IsAtBottom() && s'.skipped < Opened(script, n)
    decreases script, 1
  {
    hide Process, Depth, Formed;
    if script.Then? {
      var t := script.token;
      var (process, s') := ShouldBeProcessed(s, t);
      LeaveFrame(s);
      if !process {
        CounterOfRun(s', script.rest, OpenedAfter(t, n), w);
      } else {
        ProcessFits(s', t, n, w);
        if !t.FinishCmd? {
          CounterOfRun(Process(s', t, w).0, script.rest, OpenedAfter(t, n), w);
        }
      }
    } else {
      LeaveFrame(s);
    }
  }

  lemma {:induction false} CounterOfScript(s: State, script: Script, w: World)
    requires s.skipped == 0 && Tidy(script)
    ensures RunScript(s, script, w).skipped == 0
    decreases script, 2
  {
    CounterOfRun(s.Push(ScopeGuard), script, 0, w);
  }

  /** When the counter isn't left at zero, lack of :endif is reported. */
  lemma LeftCounterIsReported(s: State, script: Script, w: World)
    requires s.skipped == 0 && SourcesTidy(script)
    ensures var s' := RunScript(s, script, w);
            s'.skipped > 0 ==> s'.log != [] && s'.log[|s'.log| - 1] == MissingEndif
  {
    hide Run, InScope;
    CounterOfRun(s.Push(ScopeGuard), script, 0, w);
    StartsInScope(s);
    RunInScope(s.Push(ScopeGuard), script, s.levels, w);
    NonEmpty(Run(s.Push(ScopeGuard), script, w), s.levels);
  }

  // ---- the worst case: evaluation of every condition fails ----

  const FAILURE: World := (log, cond) => Fails

  /** The only frame of the scope is of a statement that is skipped up to its end. */
  predicate IsFailing(s: State, outer: seq<Frame>, n: nat) {
    if n == 0 then s.levels == outer + [ScopeGuard] && s.skipped == 0
    else s.levels in {outer + [ScopeGuard, AfterMatch], outer + [ScopeGuard, FinishFrame]} && s.skipped == n - 1
  }

  /** A failing step keeps track of open statements, :finish is noticed only when nothing is skipped. */
  predicate IsFailingStep(s: State, t: Token, outer: seq<Frame>, n: nat) {
    var (process, s') := ShouldBeProcessed(s, t);
    && (Process(s', t, FAILURE).1 <==> t.FinishCmd?)
    && (process && t.FinishCmd? <==> n == 0 && t.FinishCmd?)
    && (t.FinishCmd? && n == 0 ==> Process(s', t, FAILURE).0.skipped == 0)
    && (!(t.FinishCmd? && n == 0) ==>
          IsFailing(if process then Process(s', t, FAILURE).0 else s', outer, OpenedAfter(t, n)))
  }

  lemma FailingFirst(s: State, t: Token, outer: seq<Frame>)
    requires IsFailing(s, outer, 0) && (t.SourceCmd? ==> Tidy(t.script))
    ensures IsFailingStep(s, t, outer, 0)
  {
    hide RunScript;
    assert forall frame :: s.Push(frame).levels == outer + [ScopeGuard, frame];
    match t
    case SourceCmd(script) =>
      CounterOfScript(s, script, FAILURE);
      ScriptIsIsolated(s, script, FAILURE);
    case _ =>
  }

  lemma FailingNext(s: State, t: Token, outer: seq<Frame>, n: nat)
    requires IsFailing(s, outer, n) && n > 0
    ensures IsFailingStep(s, t, outer, n)
  {
    hide RunScript;
    assert s.Pop().levels == outer + [ScopeGuard];
    assert forall frame :: s.SetTop(frame).levels == outer + [ScopeGuard, frame];
  }

  lemma {:induction false} FailingRun(s: State, script: Script, outer: seq<Frame>, n: nat)
    requires IsFailing(s, outer, n) && SourcesTidy(script)
    ensures Run(s, script, FAILURE).skipped == if Opened(script, n) == 0 then 0 else Opened(script, n) - 1
    decreases script
  {
    hide Process, ShouldBeProcessed, OpenedAfter;
    if script.Then? {
      var t := script.token;
      var (process, s') := ShouldBeProcessed(s, t);
      if n == 0 {
        FailingFirst(s, t, outer);
      } else {
        FailingNext(s, t, outer, n);
      }
      if !(t.FinishCmd? && n == 0) {
        FailingRun(if process then Process(s', t, FAILURE).0 else s', script.rest, outer, OpenedAfter(t, n));
      }
    }
  }

  // ---- when the counter is left at zero ----

  /** However conditions are evaluated and wherever the script is run from, the counter is zero afterwards. */
  ghost predicate LeavesZero(script: Script) {
    forall s: State, w: World :: s.skipped == 0 ==> RunScript(s, script, w).skipped == 0
  }

  /** The same for the script and all scripts that are sourced by it, directly or not. */
  ghost predicate AllLeaveZero(script: Script)
    decreases script, 1
  {
    LeavesZero(script) && SourcesLeaveZero(script)
  }

  ghost predicate SourcesLeaveZero(script: Script)
    decreases script, 0
  {
    script.Then? ==>
      && SourcesLeaveZero(script.rest)
      && (script.token.SourceCmd? ==> AllLeaveZero(script.token.script))
  }

  /** If sourced scripts are fine, then leaving at most one statement open is what makes the script fine. */
  lemma LeavesZeroIff(script: Script)
    requires SourcesTidy(script)
    ensures LeavesZero(script) <==> Opened(script, 0) <= 1
  {
    if Opened(script, 0) <= 1 {
      forall s: State, w: World | s.skipped == 0 ensures RunScript(s, script, w).skipped == 0 {
        CounterOfScript(s, script, w);
      }
    } else {
      var s := State([], 0, []);
      FailingRun(s.Push(ScopeGuard), script, [], 0);
      assert RunScript(s, script, FAILURE).skipped > 0;
    }
  }

  /** The counter is zero at the end of each scope for all outcomes of conditions if and only if no script leaves more
      than one statement open. */
  lemma {:induction false} CounterIsZeroIff(script: Script)
    ensures AllLeaveZero(script) <==> Tidy(script)
    decreases script, 1
  {
    SourcesAreZeroIff(script);
    if SourcesTidy(script) {
      LeavesZeroIff(script);
    }
  }

  lemma {:induction false} SourcesAreZeroIff(script: Script)
    ensures SourcesLeaveZero(script) <==> SourcesTidy(script)
    decreases script, 0
  {
    if script.Then? {
      SourcesAreZeroIff(script.rest);
      if script.token.SourceCmd? {
        CounterIsZeroIff(script.token.script);
      }
    }
  }

  /** Two :if commands without :endif are enough when evaluation of the first condition fails, and so is a misplaced
      :elseif which is followed by :if.  A single :if is harmless. */
  lemma CounterIsLeft(a: Condition, b: Condition)
    ensures !LeavesZero(Then(IfCmd(a), Then(IfCmd(b), End)))
    ensures !LeavesZero(Then(ElseIfCmd(a), Then(IfCmd(b), End)))
    ensures LeavesZero(Then(IfCmd(a), End))
  {
    LeavesZeroIff(Then(IfCmd(a), Then(IfCmd(b), End)));
    LeavesZeroIff(Then(ElseIfCmd(a), Then(IfCmd(b), End)));
    LeavesZeroIff(Then(IfCmd(a), End));
    assert Opened(Then(IfCmd(b), End), 1) == Opened(End, 2) == 2;
    assert Opened(Then(IfCmd(a), End), 0) == Opened(End, 1) == 1;
    assert Opened(Then(IfCmd(a), Then(IfCmd(b), End)), 0) == Opened(Then(IfCmd(b), End), 1);
    assert Opened(Then(ElseIfCmd(a), Then(IfCmd(b), End)), 0) == Opened(Then(IfCmd(b), End), 1);
  }
}
