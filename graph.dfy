/**
 * The workflow graph of `agents/langgraph_agent.py`: its edge table, the
 * runner that `app.invoke` provides, and `debug_tool_issue_v2`.
 *
 * The table as written has no edge out of `agent`, so a run ends after the
 * first node. The intended table adds `agent -> verify_patch`; the rest of
 * the model runs on it.
 */
module Graph {
  import opened Wrappers
  import opened Text
  import opened Json
  import opened Nodes

  datatype Node = Agent | BugFixer | VerifyPatch | SimulatePaths | RankSeverity | GenerateTests | Summarize

  /** The edges the graph is built with; `None` ends the run. */
  function WrittenSuccessor(n: Node, s: State): Option<Node> {
    match n
    case Agent => None
    case VerifyPatch => if s.retry then Some(BugFixer) else Some(SimulatePaths)
    case BugFixer => Some(Agent)
    case SimulatePaths => Some(RankSeverity)
    case RankSeverity => Some(GenerateTests)
    case GenerateTests => Some(Summarize)
    case Summarize => None
  }

  /** The intended edges: the written ones and `agent -> verify_patch`. */
  function Successor(n: Node, s: State): Option<Node> {
    if n == Agent then Some(VerifyPatch) else WrittenSuccessor(n, s)
  }

  datatype Table = AsWritten | Intended

  function NextNode(t: Table, n: Node, s: State): Option<Node> {
    if t == AsWritten then WrittenSuccessor(n, s) else Successor(n, s)
  }

  /** The nodes after the patch check. */
  predicate Downstream(n: Node) {
    n == SimulatePaths || n == RankSeverity || n == GenerateTests || n == Summarize
  }

  /**
   * The retry edge is the only way into `bug_fixer`, `bug_fixer` is the only
   * way back to `agent`, and once past the patch check the run never
   * returns: it goes `simulate_paths -> rank_severity -> generate_tests ->
   * summarize` and ends.
   */
  lemma Routing(n: Node, s: State)
    ensures Successor(n, s) == Some(BugFixer) <==> n == VerifyPatch && s.retry
    ensures Successor(n, s) == Some(Agent) <==> n == BugFixer
    ensures n == VerifyPatch && !s.retry ==> Successor(n, s) == Some(SimulatePaths)
    ensures Downstream(n) && Successor(n, s).Some? ==> Downstream(Successor(n, s).value)
    ensures Successor(n, s).None? <==> n == Summarize
  {
  }

  /** One node; `calls` counts the agent calls made so far. */
  function Step(env: Env, n: Node, s: State, calls: nat): NodeResult {
    match n
    case Agent => AgentNode(env, calls, s)
    case BugFixer => Next(BugFixerNode(s))
    case VerifyPatch => VerifyPatchNode(env, s)
    case SimulatePaths => SimulatePathsNode(env, s)
    case RankSeverity => RankSeverityNode(env, s)
    case GenerateTests => GenerateTestsNode(env, s)
    case Summarize => Next(SummarizeNode(s))
  }

  /** What running one node does: the node, the state, the agent calls so far. */
  type Stepper = (Node, State, nat) -> NodeResult

  /** The graph's own nodes. */
  function Steps(env: Env): Stepper {
    (n: Node, s: State, calls: nat) => Step(env, n, s, calls)
  }

  datatype RunOutcome = Finished(state: State) | Failed(failure: Failure) | OutOfSteps

  /**
   * `app.invoke`: run node `n`, then follow the edge table, for at most
   * `fuel` nodes. Nothing in the graph bounds the retry loop; the runner's
   * step limit is `fuel`.
   */
  function Run(step: Stepper, t: Table, fuel: nat, n: Node, s: State, calls: nat): RunOutcome
    decreases fuel
  {
    if fuel == 0 then OutOfSteps
    else match step(n, s, calls)
      case Raised(e) => Failed(e)
      case Next(s') =>
        var calls' := if n == Agent then calls + 1 else calls;
        match NextNode(t, n, s')
        case None => Finished(s')
        case Some(m) => Run(step, t, fuel - 1, m, s', calls')
  }

  const NoOutput := "\U{26A0}\U{FE0F} No output."

  datatype Answer = Answer(text: string) | Error(failure: Failure)

  function Initial(input: string): State {
    State([Message(Human, input)], false)
  }

  /** The answer of a finished run: its last message, or the fixed notice when there is none. */
  function Reply(o: RunOutcome): Answer {
    match o
    case Finished(s) => Answer(if |s.messages| > 0 then Last(s.messages).content else NoOutput)
    case Failed(e) => Error(e)
    case OutOfSteps => Error(TooManySteps)
  }

  /**
   * `debug_tool_issue_v2`: run the graph from the user's description and
   * return the last message. `limit` is the runner's step limit.
   */
  function DebugToolIssue(env: Env, t: Table, limit: nat, input: string): Answer {
    Reply(Run(Steps(env), t, limit, Agent, Initial(input), 0))
  }

  /* ------------------------------------------------------------------ */
  /* Unfolding the runner                                                */
  /* ------------------------------------------------------------------ */

  lemma RunNext(step: Stepper, t: Table, fuel: nat, n: Node, s: State, calls: nat, s': State)
    requires fuel > 0 && step(n, s, calls) == Next(s') && NextNode(t, n, s').Some?
    ensures Run(step, t, fuel, n, s, calls)
              == Run(step, t, fuel - 1, NextNode(t, n, s').value, s', if n == Agent then calls + 1 else calls)
  {
  }

  lemma RunEnd(step: Stepper, t: Table, fuel: nat, n: Node, s: State, calls: nat, s': State)
    requires fuel > 0 && step(n, s, calls) == Next(s') && NextNode(t, n, s').None?
    ensures Run(step, t, fuel, n, s, calls) == Finished(s')
  {
  }

  lemma RunRaised(step: Stepper, t: Table, fuel: nat, n: Node, s: State, calls: nat, e: Failure)
    requires fuel > 0 && step(n, s, calls) == Raised(e)
    ensures Run(step, t, fuel, n, s, calls) == Failed(e)
  {
  }

  /** Each node of the graph, as the runner sees it. */
  lemma AgentStep(env: Env, s: State, calls: nat)
    requires |s.messages| > 0
    ensures Steps(env)(Agent, s, calls)
              == Next(State(s.messages + [Message(AI, AgentReply(env, calls, Last(s.messages).content))], false))
  {
  }

  lemma VerifyStep(env: Env, s: State, calls: nat)
    ensures Steps(env)(VerifyPatch, s, calls) == VerifyPatchNode(env, s)
  {
  }

  lemma FixerStep(env: Env, s: State, calls: nat)
    ensures Steps(env)(BugFixer, s, calls) == Next(BugFixerNode(s))
  {
  }

  lemma AnalysisStep(env: Env, n: Node, s: State, calls: nat)
    requires n == SimulatePaths || n == RankSeverity || n == GenerateTests
    ensures Steps(env)(n, s, calls)
              == if n == SimulatePaths then SimulatePathsNode(env, s)
                 else if n == RankSeverity then RankSeverityNode(env, s)
                 else GenerateTestsNode(env, s)
  {
  }

  lemma SummarizeStep(env: Env, s: State, calls: nat)
    ensures Steps(env)(Summarize, s, calls) == Next(SummarizeNode(s))
  {
  }

  /* ------------------------------------------------------------------ */
  /* The table as written                                                */
  /* ------------------------------------------------------------------ */

  /**
   * With the edges as written, every run stops after `agent`: the answer is
   * the agent's JSON reply, and the patch check, the analysis nodes and the
   * summary never run.
   */
  lemma AsWrittenStopsAfterAgent(env: Env, limit: nat, input: string)
    requires limit >= 1
    ensures DebugToolIssue(env, AsWritten, limit, input) == Answer(AgentReply(env, 0, input))
  {
    var s1 := State(Initial(input).messages + [Message(AI, AgentReply(env, 0, input))], false);
    AgentStep(env, Initial(input), 0);
    RunEnd(Steps(env), AsWritten, limit, Agent, Initial(input), 0, s1);
  }

  /* ------------------------------------------------------------------ */
  /* The workflow invariant                                              */
  /* ------------------------------------------------------------------ */

  /** The last message is a reply the agent wrote. */
  ghost predicate AgentWrote(s: State) {
    |s.messages| > 0 && exists v :: VerdictWellFormed(v) && Last(s.messages).content == Encode(VerdictObject(v))
  }

  /**
   * What holds whenever node `n` is about to run on `s` in a run started
   * from `input`: the first message is still the user's description; the
   * patch check sees an agent reply; the fixer sees the failure status.
   */
  ghost predicate Inv(input: string, n: Node, s: State) {
    && |s.messages| > 0 && s.messages[0] == Message(Human, input)
    && (n == VerifyPatch ==> AgentWrote(s))
    && (n == BugFixer ==> Last(s.messages).content == PatchFailed)
  }

  lemma InitialInv(input: string)
    ensures Inv(input, Agent, Initial(input))
  {
  }

  lemma AgentKeepsInv(env: Env, input: string, s: State, calls: nat)
    requires ParserYieldsJson(env) && Inv(input, Agent, s)
    ensures var r := Step(env, Agent, s, calls);
            && r.Next? && r.state.messages[..|s.messages|] == s.messages && |r.state.messages| == |s.messages| + 1
            && Inv(input, VerifyPatch, r.state)
  {
    var v := DecideVerdict(env, calls, Last(s.messages).content);
    DecidedWellFormed(env, calls, Last(s.messages).content);
    var r := Step(env, Agent, s, calls);
    assert Last(r.state.messages).content == Encode(VerdictObject(v));
    assert r.state.messages[0] == s.messages[0];
  }

  lemma VerifyKeepsInv(env: Env, input: string, s: State, calls: nat)
    requires Inv(input, VerifyPatch, s)
    ensures var r := Step(env, VerifyPatch, s, calls);
            && r.Next? && r.state.messages[..|s.messages|] == s.messages && |r.state.messages| == |s.messages| + 1
            && Inv(input, Successor(VerifyPatch, r.state).value, r.state)
  {
    var v :| VerdictWellFormed(v) && Last(s.messages).content == Encode(VerdictObject(v));
    VerifyAgentReply(env, s, v);
    var r := Step(env, VerifyPatch, s, calls);
    assert r.state.messages[0] == s.messages[0];
  }

  /** Entered from the patch check, the fixer always passes the state through. */
  lemma FixerPassesThrough(input: string, s: State)
    requires Inv(input, BugFixer, s)
    ensures BugFixerNode(s) == s && Inv(input, Agent, s)
  {
    StatusNotJson();
    BugFixerSpec(s);
  }

  lemma AnalysisKeepsInv(env: Env, input: string, n: Node, s: State, calls: nat)
    requires Inv(input, n, s) && (n == SimulatePaths || n == RankSeverity || n == GenerateTests)
    ensures var r := Step(env, n, s, calls);
            && (r.Raised? ==> n == GenerateTests && r.failure == NotText)
            && (r.Next? ==>
                  && r.state.messages[..|s.messages|] == s.messages && |r.state.messages| == |s.messages| + 1
                  && Inv(input, Successor(n, r.state).value, r.state))
  {
    var r := Step(env, n, s, calls);
    if r.Next? {
      assert r.state.messages[0] == s.messages[0];
      assert r.state.messages[..|s.messages|] == s.messages;
    }
  }

  /**
   * Each node keeps the invariant. Before the summary the conversation only
   * grows (the fixer leaves it as it is), so the analysis nodes read the
   * user's description at index 0; and the only node that can raise is
   * `generate_tests`, on a `test_code` that is not a string.
   */
  lemma StepKeepsInv(env: Env, input: string, n: Node, s: State, calls: nat)
    requires ParserYieldsJson(env) && Inv(input, n, s) && n != Summarize
    ensures var r := Step(env, n, s, calls);
            && (r.Raised? ==> n == GenerateTests && r.failure == NotText)
            && (r.Next? ==>
                  && |s.messages| <= |r.state.messages| && r.state.messages[..|s.messages|] == s.messages
                  && Inv(input, Successor(n, r.state).value, r.state))
  {
    match n
    case Agent => AgentKeepsInv(env, input, s, calls);
    case VerifyPatch => VerifyKeepsInv(env, input, s, calls);
    case BugFixer => FixerPassesThrough(input, s);
    case _ => AnalysisKeepsInv(env, input, n, s, calls);
  }

  /** A property of the state before each node, such as `Inv`. */
  type Invariant = (Node, State) -> bool

  ghost function InvOf(input: string): Invariant {
    (n: Node, s: State) => Inv(input, n, s)
  }

  /** What a step started in the invariant gives: the invariant again, or the summary, or `NotText`. */
  ghost predicate StepOk(inv: Invariant, n: Node, s: State, r: NodeResult) {
    if n == Summarize then r == Next(SummarizeNode(s))
    else
      && (r.Raised? ==> n == GenerateTests && r.failure == NotText)
      && (r.Next? ==> inv(Successor(n, r.state).value, r.state))
  }

  ghost predicate KeepsInv(step: Stepper, inv: Invariant) {
    forall n, s, calls :: inv(n, s) ==> StepOk(inv, n, s, step(n, s, calls))
  }

  lemma GraphKeepsInv(env: Env, input: string)
    requires ParserYieldsJson(env)
    ensures KeepsInv(Steps(env), InvOf(input))
  {
    forall n, s, calls | InvOf(input)(n, s)
      ensures StepOk(InvOf(input), n, s, Steps(env)(n, s, calls))
    {
      if n == Summarize {
        SummarizeStep(env, s, calls);
      } else {
        StepKeepsInv(env, input, n, s, calls);
        assert Steps(env)(n, s, calls) == Step(env, n, s, calls);
      }
    }
  }

  /** How a run started in the invariant can end. */
  ghost predicate Settled(inv: Invariant, o: RunOutcome) {
    && (o.Failed? ==> o.failure == NotText)
    && (o.Finished? ==> exists prev :: inv(Summarize, prev) && o.state == SummarizeNode(prev))
  }

  /** One step of a run: it settles, or goes on from a node and state in the invariant. */
  lemma RunStep(step: Stepper, inv: Invariant, fuel: nat, n: Node, s: State, calls: nat) returns (m: Node, s': State, c': nat)
    requires KeepsInv(step, inv) && inv(n, s) && fuel > 0
    ensures !Settled(inv, Run(step, Intended, fuel, n, s, calls)) ==>
              && inv(m, s')
              && Run(step, Intended, fuel, n, s, calls) == Run(step, Intended, fuel - 1, m, s', c')
  {
    var r := step(n, s, calls);
    assert StepOk(inv, n, s, r);
    m, s', c' := n, s, calls;
    if r.Raised? {
      RunRaised(step, Intended, fuel, n, s, calls, r.failure);
    } else if n == Summarize {
      RunEnd(step, Intended, fuel, n, s, calls, r.state);
      assert inv(Summarize, s) && r.state == SummarizeNode(s);
    } else {
      Routing(n, r.state);
      m, s', c' := Successor(n, r.state).value, r.state, if n == Agent then calls + 1 else calls;
      RunNext(step, Intended, fuel, n, s, calls, s');
    }
  }

  /**
   * A run on the intended table from a state in an invariant that every
   * node keeps either ends in the summary of a state in the invariant,
   * raises only for a `test_code` that is not a string, or uses up its steps.
   */
  lemma {:induction false} RunOutcomes(step: Stepper, inv: Invariant, fuel: nat, n: Node, s: State, calls: nat)
    requires KeepsInv(step, inv) && inv(n, s)
    ensures Settled(inv, Run(step, Intended, fuel, n, s, calls))
    decreases fuel
  {
    if fuel > 0 {
      var m, s', c' := RunStep(step, inv, fuel, n, s, calls);
      if !Settled(inv, Run(step, Intended, fuel, n, s, calls)) {
        RunOutcomes(step, inv, fuel - 1, m, s', c');
      }
    }
  }

  /**
   * `debug_tool_issue_v2` on the intended table answers with the summary of
   * a conversation that still starts with the user's description (the one
   * message left), or fails with a `test_code` that is not a string, or
   * with the step limit.
   */
  lemma AnswerOutcomes(env: Env, limit: nat, input: string)
    requires ParserYieldsJson(env)
    ensures var o := Run(Steps(env), Intended, limit, Agent, Initial(input), 0);
            match o
            case Finished(st) =>
              && (exists prev :: Inv(input, Summarize, prev) && st == SummarizeNode(prev))
              && DebugToolIssue(env, Intended, limit, input) == Answer(st.messages[0].content)
            case Failed(e) => e == NotText && DebugToolIssue(env, Intended, limit, input) == Error(NotText)
            case OutOfSteps => DebugToolIssue(env, Intended, limit, input) == Error(TooManySteps)
  {
    InitialInv(input);
    GraphKeepsInv(env, input);
    RunOutcomes(Steps(env), InvOf(input), limit, Agent, Initial(input), 0);
    var o := Run(Steps(env), Intended, limit, Agent, Initial(input), 0);
    if o.Finished? {
      var prev :| InvOf(input)(Summarize, prev) && o.state == SummarizeNode(prev);
      assert Inv(input, Summarize, prev);
    }
  }

  /* ------------------------------------------------------------------ */
  /* Runs                                                                */
  /* ------------------------------------------------------------------ */

  /** The analysis nodes one after another, from the state the patch check left. */
  lemma AnalysisSteps(env: Env, s: State, calls: nat)
    requires |s.messages| > 0 && TestCode(env.unitTests(s.messages[0].content)).Some?
    ensures var code := s.messages[0].content;
            var s1 := State(s.messages + [Message(AI, env.paths(code))], s.retry);
            var s2 := State(s1.messages + [Message(AI, SeverityPrefix + env.severity(code))], s.retry);
            var s3 := State(s2.messages + [Message(AI, TestCode(env.unitTests(code)).value)], s.retry);
            && Steps(env)(SimulatePaths, s, calls) == Next(s1)
            && Steps(env)(RankSeverity, s1, calls) == Next(s2)
            && Steps(env)(GenerateTests, s2, calls) == Next(s3)
  {
    var code := s.messages[0].content;
    var s1 := State(s.messages + [Message(AI, env.paths(code))], s.retry);
    var s2 := State(s1.messages + [Message(AI, SeverityPrefix + env.severity(code))], s.retry);
    assert s1.messages[0] == s.messages[0] && s2.messages[0] == s.messages[0];
    AnalysisStep(env, SimulatePaths, s, calls);
    AnalysisStep(env, RankSeverity, s1, calls);
    AnalysisStep(env, GenerateTests, s2, calls);
  }

  /** The status the patch check appends for a fix. */
  function StatusOf(fix: Json, failed: bool): string {
    if !Truthy(fix) then NoPatch else if failed then PatchFailed else PatchWorks
  }

  /** The agent and the patch check, when the first fix is missing or passes the oracle. */
  lemma FirstTwoSteps(env: Env, input: string)
    requires ParserYieldsJson(env)
    requires var fix := DecideVerdict(env, 0, input).suggestedFix;
             !(Truthy(fix) && StillBuggy(env.exec, fix))
    ensures var h := Message(Human, input);
            var m1 := Message(AI, AgentReply(env, 0, input));
            var m2 := Message(AI, StatusOf(DecideVerdict(env, 0, input).suggestedFix, false));
            && Steps(env)(Agent, Initial(input), 0) == Next(State([h, m1], false))
            && Steps(env)(VerifyPatch, State([h, m1], false), 1) == Next(State([h, m1, m2], false))
  {
    var v := DecideVerdict(env, 0, input);
    DecidedWellFormed(env, 0, input);
    var h := Message(Human, input);
    var m1 := Message(AI, AgentReply(env, 0, input));
    var s1 := State([h, m1], false);
    assert Initial(input).messages + [m1] == s1.messages;
    AgentStep(env, Initial(input), 0);
    VerifyAgentReply(env, s1, v);
    VerifyStep(env, s1, 1);
    assert s1.messages + [Message(AI, StatusOf(v.suggestedFix, false))] == [h, m1, Message(AI, StatusOf(v.suggestedFix, false))];
  }

  /**
   * Six steps without a retry, for any node implementation: agent, patch
   * check, paths, severity, tests, summary; with fewer steps the runner
   * gives up.
   */
  lemma RunSixSteps(step: Stepper, limit: nat, s0: State, s1: State, s2: State, s3: State, s4: State, s5: State, s6: State)
    requires step(Agent, s0, 0) == Next(s1) && step(VerifyPatch, s1, 1) == Next(s2) && !s2.retry
    requires step(SimulatePaths, s2, 1) == Next(s3) && step(RankSeverity, s3, 1) == Next(s4)
    requires step(GenerateTests, s4, 1) == Next(s5) && step(Summarize, s5, 1) == Next(s6)
    ensures Run(step, Intended, limit, Agent, s0, 0) == if limit < 6 then OutOfSteps else Finished(s6)
  {
    if limit >= 1 {
      RunNext(step, Intended, limit, Agent, s0, 0, s1);
      if limit >= 2 {
        RunNext(step, Intended, limit - 1, VerifyPatch, s1, 1, s2);
        if limit >= 3 {
          RunNext(step, Intended, limit - 2, SimulatePaths, s2, 1, s3);
          if limit >= 4 {
            RunNext(step, Intended, limit - 3, RankSeverity, s3, 1, s4);
            if limit >= 5 {
              RunNext(step, Intended, limit - 4, GenerateTests, s4, 1, s5);
              if limit >= 6 {
                RunEnd(step, Intended, limit - 5, Summarize, s5, 1, s6);
              }
            }
          }
        }
      }
    }
  }

  lemma Grow<T>(a: T, b: T, c: T, d: T, e: T, f: T)
    ensures (([a, b, c] + [d]) + [e]) + [f] == [a, b, c, d, e, f]
  {
  }

  /** The messages before the summary in a run without a retry. */
  function NoRetryTranscript(env: Env, input: string): seq<Message>
    requires TestCode(env.unitTests(input)).Some?
  {
    [Message(Human, input), Message(AI, AgentReply(env, 0, input)),
     Message(AI, StatusOf(DecideVerdict(env, 0, input).suggestedFix, false)),
     Message(AI, env.paths(input)), Message(AI, SeverityPrefix + env.severity(input)),
     Message(AI, TestCode(env.unitTests(input)).value)]
  }

  /** The run without a retry, up to the state it ends in. */
  lemma NoRetryStates(env: Env, limit: nat, input: string)
    requires ParserYieldsJson(env)
    requires var fix := DecideVerdict(env, 0, input).suggestedFix;
             !(Truthy(fix) && StillBuggy(env.exec, fix))
    requires TestCode(env.unitTests(input)).Some?
    ensures Run(Steps(env), Intended, limit, Agent, Initial(input), 0)
              == if limit < 6 then OutOfSteps else Finished(SummarizeNode(State(NoRetryTranscript(env, input), false)))
  {
    var t := NoRetryTranscript(env, input);
    FirstTwoSteps(env, input);
    var s2 := State([t[0], t[1], t[2]], false);
    AnalysisSteps(env, s2, 1);
    var s3 := State(s2.messages + [t[3]], false);
    var s4 := State(s3.messages + [t[4]], false);
    var s5 := State(s4.messages + [t[5]], false);
    SummarizeStep(env, s5, 1);
    RunSixSteps(Steps(env), limit, Initial(input), State([t[0], t[1]], false), s2, s3, s4, s5, SummarizeNode(s5));
    Grow(t[0], t[1], t[2], t[3], t[4], t[5]);
  }

  /** The answer for the user's message and five AI messages: their stripped texts, joined. */
  lemma SummaryAnswer(input: string, c1: string, c2: string, c3: string, c4: string, c5: string)
    ensures var ms := [Message(Human, input), Message(AI, c1), Message(AI, c2), Message(AI, c3), Message(AI, c4), Message(AI, c5)];
            Reply(Finished(SummarizeNode(State(ms, false))))
              == Answer(Join(SectionSeparator, [Strip(c1), Strip(c2), Strip(c3), Strip(c4), Strip(c5)]))
  {
    SectionsOfRun(Message(Human, input), Message(AI, c1), Message(AI, c2), Message(AI, c3), Message(AI, c4), Message(AI, c5));
  }

  /**
   * When the first fix is missing or passes the oracle, the run takes six
   * steps: agent, patch check, paths, severity, tests, summary. The answer
   * joins the stripped agent reply, the status and the three analysis
   * replies; with fewer than six steps the runner gives up.
   */
  lemma NoRetryRun(env: Env, limit: nat, input: string)
    requires ParserYieldsJson(env)
    requires var fix := DecideVerdict(env, 0, input).suggestedFix;
             !(Truthy(fix) && StillBuggy(env.exec, fix))
    requires TestCode(env.unitTests(input)).Some?
    ensures var reply := AgentReply(env, 0, input);
            var fix := DecideVerdict(env, 0, input).suggestedFix;
            DebugToolIssue(env, Intended, limit, input)
              == if limit < 6 then Error(TooManySteps)
                 else Answer(Join(SectionSeparator,
                        [Strip(reply), Strip(StatusOf(fix, false)), Strip(env.paths(input)),
                         Strip(SeverityPrefix + env.severity(input)), Strip(TestCode(env.unitTests(input)).value)]))
  {
    NoRetryStates(env, limit, input);
    SummaryAnswer(input, AgentReply(env, 0, input), StatusOf(DecideVerdict(env, 0, input).suggestedFix, false),
      env.paths(input), SeverityPrefix + env.severity(input), TestCode(env.unitTests(input)).value);
  }

  /* ------------------------------------------------------------------ */
  /* The retry loop                                                      */
  /* ------------------------------------------------------------------ */

  /** The fix of every agent call is truthy and still fails the oracle. */
  ghost predicate AlwaysFails(env: Env) {
    forall k, u :: Truthy(DecideVerdict(env, k, u).suggestedFix) && StillBuggy(env.exec, DecideVerdict(env, k, u).suggestedFix)
  }

  /** From `s`, the agent, the patch check and the fixer bring the run back to the agent. */
  ghost predicate CyclesFrom(step: Stepper, input: string, s: State, calls: nat) {
    var r1 := step(Agent, s, calls);
    && r1.Next?
    && var r2 := step(VerifyPatch, r1.state, calls + 1);
       && r2.Next? && r2.state.retry
       && var r3 := step(BugFixer, r2.state, calls + 1);
          r3 == Next(r2.state) && Inv(input, Agent, r2.state)
  }

  ghost predicate Cycles(step: Stepper, input: string) {
    forall s, calls :: Inv(input, Agent, s) ==> CyclesFrom(step, input, s, calls)
  }

  lemma AlwaysFailsCycle(env: Env, input: string, s: State, calls: nat)
    requires ParserYieldsJson(env) && AlwaysFails(env) && Inv(input, Agent, s)
    ensures CyclesFrom(Steps(env), input, s, calls)
  {
    var v := DecideVerdict(env, calls, Last(s.messages).content);
    AgentKeepsInv(env, input, s, calls);
    AgentStep(env, s, calls);
    var s1 := Step(env, Agent, s, calls).state;
    DecidedWellFormed(env, calls, Last(s.messages).content);
    assert Last(s1.messages).content == Encode(VerdictObject(v));
    VerifyAgentReply(env, s1, v);
    VerifyKeepsInv(env, input, s1, calls + 1);
    VerifyStep(env, s1, calls + 1);
    var s2 := Step(env, VerifyPatch, s1, calls + 1).state;
    FixerPassesThrough(input, s2);
    FixerStep(env, s2, calls + 1);
  }

  lemma FailingFixesCycle(env: Env, input: string)
    requires ParserYieldsJson(env) && AlwaysFails(env)
    ensures Cycles(Steps(env), input)
  {
    forall s, calls | Inv(input, Agent, s)
      ensures CyclesFrom(Steps(env), input, s, calls)
    {
      AlwaysFailsCycle(env, input, s, calls);
    }
  }

  /** One turn of the retry loop: three steps, back at the agent. */
  lemma OneCycle(step: Stepper, input: string, fuel: nat, s: State, calls: nat) returns (s': State)
    requires Cycles(step, input) && Inv(input, Agent, s) && fuel > 0
    ensures Inv(input, Agent, s')
    ensures Run(step, Intended, fuel, Agent, s, calls)
              == if fuel < 3 then OutOfSteps else Run(step, Intended, fuel - 3, Agent, s', calls + 1)
  {
    assert CyclesFrom(step, input, s, calls);
    var s1 := step(Agent, s, calls).state;
    s' := step(VerifyPatch, s1, calls + 1).state;
    RunNext(step, Intended, fuel, Agent, s, calls, s1);
    if fuel > 1 {
      RunNext(step, Intended, fuel - 1, VerifyPatch, s1, calls + 1, s');
      if fuel > 2 {
        RunNext(step, Intended, fuel - 2, BugFixer, s', calls + 1, s');
      }
    }
  }

  /**
   * When every fix fails, the run cycles agent -> patch check -> fixer ->
   * agent until the runner's step limit: no step limit lets it finish.
   */
  lemma {:induction false} FailingFixesLoop(step: Stepper, input: string, fuel: nat, s: State, calls: nat)
    requires Cycles(step, input) && Inv(input, Agent, s)
    ensures Run(step, Intended, fuel, Agent, s, calls) == OutOfSteps
    decreases fuel
  {
    if fuel > 0 {
      var s' := OneCycle(step, input, fuel, s, calls);
      if fuel >= 3 {
        FailingFixesLoop(step, input, fuel - 3, s', calls + 1);
      }
    }
  }

  /** When every fix fails, `debug_tool_issue_v2` ends in the step-limit error, whatever the limit. */
  lemma FailingFixesNeverAnswer(env: Env, limit: nat, input: string)
    requires ParserYieldsJson(env) && AlwaysFails(env)
    ensures DebugToolIssue(env, Intended, limit, input) == Error(TooManySteps)
  {
    InitialInv(input);
    FailingFixesCycle(env, input);
    FailingFixesLoop(Steps(env), input, limit, Initial(input), 0);
  }
}
