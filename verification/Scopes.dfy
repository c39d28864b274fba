/** Conditional statements of scripts: a stack of frames and a counter of skipped statements that
    process one command at a time. */
module Scopes {
  /** Values of the if_levels stack. */
  datatype Frame =
    | ScopeGuard  // start of a scope, levels of different scopes do not mix
    | ActiveScope // branch that is being executed
    | BeforeMatch // no condition has been true yet
    | Match       // the condition of the current branch was true
    | AfterMatch  // past the branch whose condition was true
    | ElseFrame   // else branch that is being executed
    | FinishFrame // else branch that is being skipped

  type Condition = string

  datatype Outcome = True | False | Fails

  /** What is visible from outside. */
  datatype Event =
    | Ran(cmd: string)
    | Evaluated(cond: Condition, outcome: Outcome)
    | Misplaced(cmd: string)
    | MissingEndif

  /** Conditions depend on everything that has happened before their evaluation. */
  type World = (seq<Event>, Condition) -> Outcome

  datatype Token =
    | IfCmd(cond: Condition)
    | ElseIfCmd(cond: Condition)
    | ElseCmd
    | EndIfCmd
    | FinishCmd
    | SourceCmd(script: Script)
    | OtherCmd(cmd: string)

  datatype Script = End | Then(token: Token, rest: Script)

  /** The state of the interpreter. */
  datatype State = State(levels: seq<Frame>, skipped: nat, log: seq<Event>)
  {
    predicate TopIs(frame: Frame) {
      levels != [] && levels[|levels| - 1] == frame
    }

    predicate IsAtGuard() {
      levels == [] || TopIs(ScopeGuard)
    }

    predicate IsAtBottom() {
      IsAtGuard() || TopIs(ActiveScope)
    }

    function Push(frame: Frame): State {
      this.(levels := levels + [frame])
    }

    function Pop(): State
      requires levels != []
    {
      this.(levels := levels[..|levels| - 1])
    }

    function SetTop(frame: Frame): State
      requires levels != []
    {
      this.(levels := levels[|levels| - 1 := frame])
    }

    /** Leaves the branch that is being executed. */
    function LeaveActive(): State {
      if TopIs(ActiveScope) then Pop() else this
    }

    function Report(e: Event): State {
      this.(log := log + [e])
    }
  }

  /** cmd_should_be_processed() */
  function ShouldBeProcessed(s: State, t: Token): (bool, State) {
    if s.IsAtBottom() then (true, s)
    else match t
      case IfCmd(_) => (false, s.(skipped := s.skipped + 1))
      case ElseIfCmd(_) => (s.skipped == 0, s)
      case ElseCmd => (s.skipped == 0, s)
      case EndIfCmd => if s.skipped > 0 then (false, s.(skipped := s.skipped - 1)) else (true, s)
      case _ => (false, s)
  }

  /** cmds_scoped_should_eval() */
  predicate ShouldEval(s: State, elseif: bool) {
    s.levels == []
    || (!(elseif && s.TopIs(ActiveScope))
        && (s.TopIs(BeforeMatch) || s.TopIs(ScopeGuard) || s.TopIs(ActiveScope)))
  }

  /** eval_if_condition() */
  function EvalCondition(s: State, elseif: bool, cond: Condition, w: World): (Outcome, State) {
    if !ShouldEval(s, elseif) then (False, s)
    else (w(s.log, cond), s.Report(Evaluated(cond, w(s.log, cond))))
  }

  /** cmds_scoped_error() */
  function ScopedError(s: State): State {
    if s.levels == [] then s
    else if s.IsAtBottom() then s.Push(AfterMatch)
    else s.SetTop(AfterMatch)
  }

  /** cmds_scoped_if() */
  function ScopedIf(s: State, cond: bool): State {
    if cond then s.Push(Match).Push(ActiveScope) else s.Push(BeforeMatch)
  }

  /** cmds_scoped_elseif() and the error that is reported after it. */
  function ScopedElseIf(s: State, cond: bool): State {
    if s.IsAtGuard() then s.Report(Misplaced("elseif"))
    else
      var s' := s.LeaveActive();
      if s'.levels == [] || s'.TopIs(ElseFrame) || s'.TopIs(FinishFrame) then s'.Report(Misplaced("elseif"))
      else
        var s'' := s'.SetTop(if !s'.TopIs(BeforeMatch) then AfterMatch else if cond then Match else BeforeMatch);
        if cond then s''.Push(ActiveScope) else s''
  }

  /** cmds_scoped_else() */
  function ScopedElse(s: State): State {
    var s' := s.LeaveActive();
    if s'.IsAtBottom() || s'.TopIs(ElseFrame) || s'.TopIs(FinishFrame) then s'.Report(Misplaced("else"))
    else if s'.TopIs(BeforeMatch) then s'.SetTop(ElseFrame).Push(ActiveScope)
    else s'.SetTop(FinishFrame)
  }

  /** cmds_scoped_endif() */
  function ScopedEndIf(s: State): State {
    var s' := s.LeaveActive();
    if s'.IsAtBottom() then s'.Report(Misplaced("endif")) else s'.Pop()
  }

  /** Number of frames up to the last guard, including it (0 if there is none). */
  function GuardEnd(levels: seq<Frame>): (n: nat)
    ensures n <= |levels|
  {
    if levels == [] || levels[|levels| - 1] == ScopeGuard then |levels|
    else GuardEnd(levels[..|levels| - 1])
  }

  /** cmds_scope_escape() */
  function ScopeEscape(s: State): State {
    s.(levels := s.levels[..GuardEnd(s.levels)])
  }

  /** cmds_scope_finish() and the error that is reported by it. */
  function ScopeFinish(s: State): State
    requires s.levels != []
  {
    var n := GuardEnd(s.levels);
    var s' := s.(levels := s.levels[..if n == 0 then 0 else n - 1]);
    if s.IsAtGuard() then s' else s'.Report(MissingEndif)
  }

  /** Handlers of commands, the flag says that the rest of the script is not executed. */
  function Process(s: State, t: Token, w: World): (State, bool)
    decreases t, 0
  {
    match t
    case IfCmd(cond) =>
      var (x, s') := EvalCondition(s, false, cond, w);
      (if x.Fails? then ScopedError(s') else ScopedIf(s', x.True?), false)
    case ElseIfCmd(cond) =>
      var (x, s') := EvalCondition(s, true, cond, w);
      (if x.Fails? then ScopedError(s') else ScopedElseIf(s', x.True?), false)
    case ElseCmd => (ScopedElse(s), false)
    case EndIfCmd => (ScopedEndIf(s), false)
    case FinishCmd => (ScopeEscape(s), true)
    case SourceCmd(script) => (RunScript(s, script, w), false)
    case OtherCmd(cmd) => (s.Report(Ran(cmd)), false)
  }

  /** Commands of a script until its end or :finish. */
  function Run(s: State, script: Script, w: World): State
    decreases script, 1
  {
    match script
    case End => s
    case Then(t, rest) =>
      var (process, s') := ShouldBeProcessed(s, t);
      if !process then Run(s', rest, w)
      else
        var (s'', finished) := Process(s', t, w);
        if finished then s'' else Run(s'', rest, w)
  }

  /** A script in a scope of its own. */
  function RunScript(s: State, script: Script, w: World): State
    decreases script, 2
  {
    var s' := Run(s.Push(ScopeGuard), script, w);
    if s'.levels == [] then s' else ScopeFinish(s')
  }

  /** The interpreter: a stack and a counter that are updated by handlers of commands. */
  class Interpreter {
    var ifLevels: seq<Frame>
    var skippedNestedIfStmts: nat
    var log: seq<Event>

    ghost function St(): State
      reads this
    {
      State(ifLevels, skippedNestedIfStmts, log)
    }

    function TopIs(frame: Frame): (r: bool)
      reads this
    {
      ifLevels != [] && ifLevels[|ifLevels| - 1] == frame
    }

    function IsAtScopeGuard(): bool
      reads this
    {
      ifLevels == [] || TopIs(ScopeGuard)
    }

    function IsAtScopeBottom(): bool
      reads this
    {
      IsAtScopeGuard() || TopIs(ActiveScope)
    }

    method PushFrame(frame: Frame)
      modifies this`ifLevels
      ensures ifLevels == old(ifLevels) + [frame]
    {
      ifLevels := ifLevels + [frame];
    }

    method PopFrame()
      requires ifLevels != []
      modifies this`ifLevels
      ensures ifLevels == old(ifLevels[..|ifLevels| - 1])
    {
      ifLevels := ifLevels[..|ifLevels| - 1];
    }

    method SetTop(frame: Frame)
      requires ifLevels != []
      modifies this`ifLevels
      ensures ifLevels == old(ifLevels[|ifLevels| - 1 := frame])
    {
      ifLevels := ifLevels[|ifLevels| - 1 := frame];
    }

    method CmdShouldBeProcessed(t: Token) returns (process: bool)
      modifies this
      ensures (process, St()) == ShouldBeProcessed(old(St()), t)
    {
      if IsAtScopeBottom() {
        return true;
      }
      if t.IfCmd? {
        skippedNestedIfStmts := skippedNestedIfStmts + 1;
        return false;
      }
      if t.ElseIfCmd? {
        return skippedNestedIfStmts == 0;
      }
      if t.ElseCmd? || t.EndIfCmd? {
        if skippedNestedIfStmts > 0 {
          if t.EndIfCmd? {
            skippedNestedIfStmts := skippedNestedIfStmts - 1;
          }
          return false;
        }
        return true;
      }
      return false;
    }

    method CmdsScopeStart()
      modifies this
      ensures St() == old(St()).Push(ScopeGuard)
    {
      PushFrame(ScopeGuard);
    }

    method CmdsScopeEscape()
      modifies this
      ensures St() == ScopeEscape(old(St()))
    {
      assert ifLevels[..|ifLevels|] == ifLevels;
      while !IsAtScopeGuard()
        invariant |ifLevels| <= old(|ifLevels|) && ifLevels == old(ifLevels)[..|ifLevels|]
        invariant GuardEnd(ifLevels) == old(GuardEnd(ifLevels))
        invariant skippedNestedIfStmts == old(skippedNestedIfStmts) && log == old(log)
        decreases |ifLevels|
      {
        PopFrame();
      }
    }

    /** int_stack_pop_seq() for frames of the current scope. */
    method PopScope()
      requires ifLevels != [] && !TopIs(ScopeGuard)
      modifies this`ifLevels
      ensures var n := old(GuardEnd(ifLevels)); ifLevels == old(ifLevels)[..if n == 0 then 0 else n - 1]
    {
      var top := |ifLevels| - 1;
      assert ifLevels[..|ifLevels|] == ifLevels;
      while top > 0 && ifLevels[top] != ScopeGuard
        invariant 0 <= top < |ifLevels|
        invariant GuardEnd(ifLevels[..top + 1]) == GuardEnd(ifLevels)
        decreases top
      {
        assert ifLevels[..top + 1][..top] == ifLevels[..top];
        top := top - 1;
      }
      assert ifLevels[..top + 1][..top] == ifLevels[..top];
      ifLevels := ifLevels[..top];
    }

    method CmdsScopeFinish()
      requires ifLevels != []
      modifies this
      ensures St() == ScopeFinish(old(St()))
    {
      if !IsAtScopeGuard() {
        log := log + [MissingEndif];
        PopScope();
      } else {
        PopFrame();
      }
    }

    method CmdsScopedError()
      modifies this
      ensures St() == ScopedError(old(St()))
    {
      if ifLevels == [] {
        return;
      }
      if IsAtScopeBottom() {
        PushFrame(AfterMatch);
      } else {
        SetTop(AfterMatch);
      }
    }

    function CmdsScopedShouldEval(elseif: bool): (r: bool)
      reads this
      ensures r == ShouldEval(St(), elseif)
    {
      if ifLevels == [] then true
      else if TopIs(ActiveScope) && elseif then false
      else TopIs(BeforeMatch) || TopIs(ScopeGuard) || TopIs(ActiveScope)
    }

    method EvalIfCondition(elseif: bool, cond: Condition, w: World) returns (r: Outcome)
      modifies this
      ensures (r, St()) == EvalCondition(old(St()), elseif, cond, w)
    {
      if !CmdsScopedShouldEval(elseif) {
        return False;
      }
      r := w(log, cond);
      log := log + [Evaluated(cond, r)];
    }

    method CmdsScopedIf(cond: bool)
      modifies this
      ensures St() == ScopedIf(old(St()), cond)
    {
      PushFrame(if cond then Match else BeforeMatch);
      if cond {
        PushFrame(ActiveScope);
      }
    }

    method CmdsScopedElseIf(cond: bool) returns (misplaced: bool)
      modifies this
      ensures var s := St(); (if misplaced then s.Report(Misplaced("elseif")) else s) == ScopedElseIf(old(St()), cond)
    {
      if IsAtScopeGuard() {
        return true;
      }
      if TopIs(ActiveScope) {
        PopFrame();
      }
      if ifLevels == [] || TopIs(ElseFrame) || TopIs(FinishFrame) {
        return true;
      }
      SetTop(if TopIs(BeforeMatch) then (if cond then Match else BeforeMatch) else AfterMatch);
      if cond {
        PushFrame(ActiveScope);
      }
      return false;
    }

    method CmdsScopedElse() returns (misplaced: bool)
      modifies this
      ensures var s := St(); (if misplaced then s.Report(Misplaced("else")) else s) == ScopedElse(old(St()))
    {
      if TopIs(ActiveScope) {
        PopFrame();
      }
      if IsAtScopeBottom() {
        return true;
      }
      if TopIs(ElseFrame) || TopIs(FinishFrame) {
        return true;
      }
      var beforeMatch := TopIs(BeforeMatch);
      SetTop(if beforeMatch then ElseFrame else FinishFrame);
      if beforeMatch {
        PushFrame(ActiveScope);
      }
      return false;
    }

    method CmdsScopedEndIf() returns (misplaced: bool)
      modifies this
      ensures var s := St(); (if misplaced then s.Report(Misplaced("endif")) else s) == ScopedEndIf(old(St()))
    {
      if TopIs(ActiveScope) {
        PopFrame();
      }
      if IsAtScopeBottom() {
        return true;
      }
      PopFrame();
      return false;
    }

    /** if_cmd(), elseif_cmd(), else_cmd(), endif_cmd() and other handlers. */
    method Handle(t: Token, w: World) returns (finished: bool)
      modifies this
      ensures (St(), finished) == Process(old(St()), t, w)
      decreases t, 0
    {
      finished := false;
      match t {
        case IfCmd(cond) =>
          var x := EvalIfCondition(false, cond, w);
          if x.Fails? {
            CmdsScopedError();
          } else {
            CmdsScopedIf(x.True?);
          }
        case ElseIfCmd(cond) =>
          var x := EvalIfCondition(true, cond, w);
          if x.Fails? {
            CmdsScopedError();
          } else {
            var misplaced := CmdsScopedElseIf(x.True?);
            if misplaced {
              log := log + [Misplaced("elseif")];
            }
          }
        case ElseCmd =>
          var misplaced := CmdsScopedElse();
          if misplaced {
            log := log + [Misplaced("else")];
          }
        case EndIfCmd =>
          var misplaced := CmdsScopedEndIf();
          if misplaced {
            log := log + [Misplaced("endif")];
          }
        case FinishCmd =>
          CmdsScopeEscape();
          finished := true;
        case SourceCmd(script) =>
          SourceScript(script, w);
        case OtherCmd(cmd) =>
          log := log + [Ran(cmd)];
      }
    }

    /** Executes commands of a script in a scope of its own. */
    method SourceScript(script: Script, w: World)
      modifies this
      ensures St() == RunScript(old(St()), script, w)
      decreases script, 2
    {
      CmdsScopeStart();
      var rest := script;
      while rest.Then?
        invariant rest == script || rest < script
        invariant Run(St(), rest, w) == Run(old(St()).Push(ScopeGuard), script, w)
        decreases rest
      {
        var process := CmdShouldBeProcessed(rest.token);
        if process {
          var finished := Handle(rest.token, w);
          if finished {
            break;
          }
        }
        rest := rest.rest;
      }
      if ifLevels != [] {
        CmdsScopeFinish();
      }
    }
  }
}
