/** Which errors are reported for statements that aren't well-nested. */
module Reports {
  import opened Conditionals
  import opened Scopes

  // ---- no :endif ----

  lemma FinishReports(s: State, frames: seq<Frame>)
    requires frames != [] && ScopeGuard !in frames
    ensures ScopeFinish(s.(levels := s.levels + [ScopeGuard] + frames)) == s.Report(MissingEndif)
    ensures ScopeFinish(s.Push(ScopeGuard)) == s
  {
    var levels := s.levels + [ScopeGuard] + frames;
    EscapeThrough(s.levels + [ScopeGuard], frames);
    assert levels[..|s.levels|] == s.levels;
    assert s.Push(ScopeGuard).levels[..|s.levels|] == s.levels;
    assert levels[|levels| - 1] == frames[|frames| - 1];
    assert frames[|frames| - 1] in frames;
  }

  lemma RunEnd(s: State, w: World)
    ensures Run(s, End, w) == s
  {
  }

  /** The state at the end of a script whose last :if command isn't closed and the branch isn't taken. */
  lemma OpenIsSkipped(s: State, cond: Condition, body: Block, w: World)
    requires s.levels != [] && s.IsAtBottom() && s.skipped == 0 && !w(s.log, cond).True?
    ensures Run(s, Then(IfCmd(cond), Commands(body, End)), w)
            == s.(levels := s.levels + [if w(s.log, cond).Fails? then AfterMatch else BeforeMatch],
                  log := Evaluate(s.log, cond, w))
  {
    hide Run;
    RunStep(s, IfCmd(cond), Commands(body, End), w);
    var s' := s.(levels := s.levels + [if w(s.log, cond).Fails? then AfterMatch else BeforeMatch],
                 log := Evaluate(s.log, cond, w));
    SkipBlock(body, End, s', w);
    RunEnd(s', w);
  }

  lemma OpenIsTaken(s: State, cond: Condition, body: Block, w: World)
    requires s.levels != [] && s.IsAtBottom() && s.skipped == 0 && w(s.log, cond).True?
    ensures var r := Exec(body, Evaluate(s.log, cond, w), w);
            Run(s, Then(IfCmd(cond), Commands(body, End)), w)
            == if r.1 then ScopeEscape(s).(log := r.0)
               else s.(levels := s.levels + [Match, ActiveScope], log := r.0)
  {
    hide Run;
    var log := Evaluate(s.log, cond, w);
    var s' := s.(levels := s.levels + [Match, ActiveScope], log := log);
    RunStep(s, IfCmd(cond), Commands(body, End), w);
    assert s.levels + [Match] + [ActiveScope] == s'.levels;
    RunBlock(body, End, s', w);
    var r := Exec(body, log, w);
    if r.1 {
      SameEscape(s, [Match, ActiveScope]);
    } else {
      RunEnd(s'.(log := r.0), w);
    }
  }

  /** A script that ends inside of a statement does what it should and gets the error reported, unless the end is
      because of :finish. */
  lemma OpenIfIsReported(s: State, cond: Condition, body: Block, w: World)
    requires s.skipped == 0
    ensures var log := Evaluate(s.log, cond, w);
            var r := if w(s.log, cond).True? then Exec(body, log, w) else (log, false);
            RunScript(s, Then(IfCmd(cond), Commands(body, End)), w)
            == s.(log := if r.1 then r.0 else r.0 + [MissingEndif])
  {
    hide Run, ScopeFinish;
    var inside := s.Push(ScopeGuard);
    var log := Evaluate(s.log, cond, w);
    if w(s.log, cond).True? {
      var r := Exec(body, log, w);
      OpenIsTaken(inside, cond, body, w);
      assert inside.levels[..|inside.levels|] == inside.levels;
      FinishReports(s.(log := r.0), [Match, ActiveScope]);
      assert inside.levels + [Match, ActiveScope] == s.levels + [ScopeGuard] + [Match, ActiveScope];
    } else {
      OpenIsSkipped(inside, cond, body, w);
      FinishReports(s.(log := log), [if w(s.log, cond).Fails? then AfterMatch else BeforeMatch]);
    }
  }

  // ---- no :if ----

  /** Commands that need a statement which isn't there are reported and ignored.  Condition of :elseif is evaluated
      nevertheless. */
  lemma LoneIsReported(s: State, k: Script, cond: Condition, w: World)
    requires s.levels != [] && s.IsAtGuard()
    ensures Run(s, Then(EndIfCmd, k), w) == Run(s.Report(Misplaced("endif")), k, w)
    ensures Run(s, Then(ElseCmd, k), w) == Run(s.Report(Misplaced("else")), k, w)
    ensures !w(s.log, cond).Fails? ==>
              Run(s, Then(ElseIfCmd(cond), k), w)
              == Run(s.Report(Evaluated(cond, w(s.log, cond))).Report(Misplaced("elseif")), k, w)
  {
    hide Run;
    RunStep(s, EndIfCmd, k, w);
    RunStep(s, ElseCmd, k, w);
    RunStep(s, ElseIfCmd(cond), k, w);
  }

  // ---- something after :else ----

  predicate IsInElse(s: State, base: seq<Frame>) {
    s.skipped == 0 && (s.levels == base + [FinishFrame] || s.levels == base + [ElseFrame, ActiveScope])
  }

  function NameOf(t: Token): string {
    if t.ElseCmd? then "else" else "elseif"
  }

  lemma ProcessedInElse(s: State, t: Token, base: seq<Frame>, w: World)
    requires IsInElse(s, base) && (t.ElseCmd? || t.ElseIfCmd?)
    ensures ShouldBeProcessed(s, t) == (true, s)
    ensures var frame := if s.levels == base + [FinishFrame] then FinishFrame else ElseFrame;
            Process(s, t, w) == (s.(levels := base + [frame], log := s.log + [Misplaced(NameOf(t))]), false)
  {
    if s.levels == base + [ElseFrame, ActiveScope] {
      assert s.levels[..|base| + 1] == base + [ElseFrame];
    }
  }

  /** Another branch after the last one is reported and skipped. */
  lemma BranchIsReported(s: State, t: Token, body: Block, k: Script, base: seq<Frame>, w: World)
    requires IsInElse(s, base) && (t.ElseCmd? || t.ElseIfCmd?)
    ensures Run(s, Then(t, Commands(body, Then(EndIfCmd, k))), w)
            == Run(s.(levels := base, log := s.log + [Misplaced(NameOf(t))]), k, w)
  {
    hide Run;
    RunStep(s, t, Commands(body, Then(EndIfCmd, k)), w);
    ProcessedInElse(s, t, base, w);
    var s' := Process(s, t, w).0;
    SkipBlock(body, Then(EndIfCmd, k), s', w);
    RunStep(s', EndIfCmd, k, w);
    assert s'.levels[..|base|] == base;
  }

  lemma SkipsElse(s: State, last: Block, k: Script, base: seq<Frame>, w: World)
    requires s.skipped == 0 && (s.levels == base + [Match, ActiveScope] || s.levels == base + [AfterMatch])
    ensures Run(s, Then(ElseCmd, Commands(last, k)), w) == Run(s.(levels := base + [FinishFrame]), k, w)
  {
    hide Run;
    RunStep(s, ElseCmd, Commands(last, k), w);
    LeaveBranch(s, base);
    SkipBlock(last, k, s.(levels := base + [FinishFrame]), w);
  }

  lemma TakesElse(s: State, last: Block, k: Script, base: seq<Frame>, w: World)
    requires s.skipped == 0 && s.levels == base + [BeforeMatch]
    ensures var s' := s.(levels := base + [ElseFrame, ActiveScope]);
            Run(s, Then(ElseCmd, Commands(last, k)), w) == Continue(s', Exec(last, s.log, w), k, w)
  {
    hide Run;
    RunStep(s, ElseCmd, Commands(last, k), w);
    assert s.levels[|base| := ElseFrame] + [ActiveScope] == base + [ElseFrame, ActiveScope];
    RunBlock(last, k, s.(levels := base + [ElseFrame, ActiveScope]), w);
  }

  lemma TakenThenElse(s: State, body: Block, last: Block, k: Script, w: World)
    requires s.levels != [] && s.skipped == 0
    ensures var r := Exec(body, s.log, w);
            Run(s.(levels := s.levels + [Match, ActiveScope]), Commands(body, Then(ElseCmd, Commands(last, k))), w)
            == if r.1 then ScopeEscape(s).(log := r.0)
               else Run(s.(levels := s.levels + [FinishFrame], log := r.0), k, w)
  {
    hide Run;
    var s' := s.(levels := s.levels + [Match, ActiveScope]);
    RunBlock(body, Then(ElseCmd, Commands(last, k)), s', w);
    var r := Exec(body, s.log, w);
    if r.1 {
      SameEscape(s, [Match, ActiveScope]);
    } else {
      SkipsElse(s'.(log := r.0), last, k, s.levels, w);
    }
  }

  /** Where the last branch of a statement ends, unless the script is finished before that. */
  lemma GetsToElse(s: State, cond: Condition, body: Block, last: Block, k: Script, w: World)
    returns (levels: seq<Frame>)
    requires s.levels != [] && s.IsAtBottom() && s.skipped == 0
    ensures IsInElse(s.(levels := levels), s.levels)
    ensures var r := ExecStmt(IfElse(cond, body, Else(last)), s.log, w);
            Run(s, Then(IfCmd(cond), Commands(body, Then(ElseCmd, Commands(last, k)))), w)
            == if r.1 then ScopeEscape(s).(log := r.0) else Run(s.(levels := levels, log := r.0), k, w)
  {
    hide Run;
    var log, rest := Evaluate(s.log, cond, w), Then(ElseCmd, Commands(last, k));
    var outcome := w(s.log, cond);
    levels := s.levels + if outcome.False? then [ElseFrame, ActiveScope] else [FinishFrame];
    RunStep(s, IfCmd(cond), Commands(body, rest), w);
    match outcome
    case True =>
      assert s.levels + [Match] + [ActiveScope] == s.levels + [Match, ActiveScope];
      TakenThenElse(s.(log := log), body, last, k, w);
    case Fails =>
      var s' := s.(levels := s.levels + [AfterMatch], log := log);
      SkipBlock(body, rest, s', w);
      SkipsElse(s', last, k, s.levels, w);
    case False =>
      var s' := s.(levels := s.levels + [BeforeMatch], log := log);
      SkipBlock(body, rest, s', w);
      TakesElse(s', last, k, s.levels, w);
      if Exec(last, log, w).1 {
        SameEscape(s, [ElseFrame, ActiveScope]);
      }
  }

  /** A statement with one more branch after :else has the effect of the statement without it plus the error. */
  lemma SecondElseIsReported(s: State, cond: Condition, body: Block, last: Block, t: Token, extra: Block, k: Script,
                             w: World)
    requires s.levels != [] && s.IsAtBottom() && s.skipped == 0 && (t.ElseCmd? || t.ElseIfCmd?)
    ensures var script := Then(IfCmd(cond), Commands(body, Then(ElseCmd, Commands(last,
                            Then(t, Commands(extra, Then(EndIfCmd, k)))))));
            var r := ExecStmt(IfElse(cond, body, Else(last)), s.log, w);
            Run(s, script, w) == Continue(s, (if r.1 then r.0 else r.0 + [Misplaced(NameOf(t))], r.1), k, w)
  {
    hide Run;
    var rest := Then(t, Commands(extra, Then(EndIfCmd, k)));
    var r := ExecStmt(IfElse(cond, body, Else(last)), s.log, w);
    var levels := GetsToElse(s, cond, body, last, rest, w);
    if !r.1 {
      BranchIsReported(s.(levels := levels, log := r.0), t, extra, k, s.levels, w);
    }
  }
}
