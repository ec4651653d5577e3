/**
 * The seven node functions of the triage workflow in
 * `agents/langgraph_agent.py`. Each node reads the conversation state and
 * returns the next one, or raises. The language-model calls, the static
 * analysers and the patch oracle's `exec` are parameters (`Env`); with
 * those fixed, every node is a function.
 */
module Nodes {
  import opened Wrappers
  import opened Text
  import opened Json
  import opened JsonRoundTrip
  import opened JsonDecoded
  import opened Tools

  /* ------------------------------------------------------------------ */
  /* State                                                               */
  /* ------------------------------------------------------------------ */

  datatype Role = Human | AI

  /** A chat message; `add_messages` appends, and its ids are not modelled. */
  datatype Message = Message(role: Role, content: string)

  /** The graph state: the conversation and the `retry` flag. */
  datatype State = State(messages: seq<Message>, retry: bool)

  function Last(ms: seq<Message>): Message
    requires |ms| > 0
  {
    ms[|ms| - 1]
  }

  /** What the structured parser (`parsed_llm.invoke`) did: returned parsed JSON, or raised. */
  datatype Tier1Outcome = Tier1Ok(parsed: Json) | Tier1Fail

  /** What the plain model call (`llm.invoke(...).content`) did: returned text, or raised with a message. */
  datatype RawOutcome = Raw(text: string) | RawFail(error: string)

  /**
   * The outside world. The two model calls of the agent take the number of
   * the agent call (so that a retry may be answered differently) and the
   * prompt; `decodeError` is the message of the `JSONDecodeError` that
   * `json.loads` raises on a text; `paths`, `severity` and `unitTests` are
   * `simulate_paths`, `rank_bug_severity` and `generate_unit_tests`. The
   * ranker's prompt does not include the code, so `severity` may ignore its
   * argument.
   */
  datatype Env = Env(
    tier1: (nat, string) -> Tier1Outcome,
    raw: (nat, string) -> RawOutcome,
    decodeError: string -> string,
    exec: Executor,
    paths: string -> string,
    severity: string -> string,
    unitTests: string -> string)

  /** The structured parser returns what a JSON parser can produce. */
  ghost predicate ParserYieldsJson(env: Env) {
    forall k, u :: env.tier1(k, u).Tier1Ok? ==> WellFormed(env.tier1(k, u).parsed)
  }

  /** Why a node raised; the exception ends `app.invoke`. */
  datatype Failure =
    | NoMessages               // `IndexError` on `messages[-1]` or `messages[0]`
    | NotJson(detail: string)  // `JSONDecodeError` in `verify_patch`
    | NoGet(typeName: string)  // `AttributeError`: the decoded value is not a dict
    | NotText                  // a message built from a `test_code` that is not a string
    | TooManySteps             // the runner's step limit

  datatype NodeResult = Next(state: State) | Raised(failure: Failure)

  /* ------------------------------------------------------------------ */
  /* agent: the three-tier verdict decoder                               */
  /* ------------------------------------------------------------------ */

  /** The four fields the agent reports, as the JSON values it found. */
  datatype Verdict = Verdict(explanation: Json, bugFound: Json, suggestedFix: Json, severity: Json)

  const Defaults := Verdict(JStr(""), JBool(false), JStr(""), JStr("low"))

  /** `.get(key, default)` for each of the four keys. */
  function FieldsOf(ms: seq<Member>): Verdict {
    Verdict(
      GetOr(ms, "explanation", JStr("")),
      GetOr(ms, "bug_found", JBool(false)),
      GetOr(ms, "suggested_fix", JStr("")),
      GetOr(ms, "severity", JStr("low")))
  }

  /** Python's type name of a decoded value. */
  function TypeName(v: Json): string {
    match v
    case JNull => "NoneType"
    case JBool(_) => "bool"
    case JInt(_) => "int"
    case JFloat(_) => "float"
    case JStr(_) => "str"
    case JArr(_) => "list"
    case JObj(_) => "dict"
  }

  /** The message of the `AttributeError` raised by `.get` on a value that is not a dict. */
  function NoGetMessage(v: Json): string {
    "'" + TypeName(v) + "' object has no attribute 'get'"
  }

  /** Index of the first `c` in `s`. */
  function IndexOf(s: string, c: char): (r: Option<nat>)
    ensures r.Some? ==> r.value < |s| && s[r.value] == c
  {
    if |s| == 0 then None
    else if s[0] == c then Some(0)
    else match IndexOf(s[1..], c)
      case None => None
      case Some(i) => Some(i + 1)
  }

  /** Index of the last `c` in `s`. */
  function LastIndexOf(s: string, c: char): (r: Option<nat>)
    ensures r.Some? ==> r.value < |s| && s[r.value] == c
  {
    if |s| == 0 then None
    else if s[|s| - 1] == c then Some(|s| - 1)
    else LastIndexOf(s[..|s| - 1], c)
  }

  lemma {:induction false} IndexOfFirst(s: string, c: char)
    ensures IndexOf(s, c).Some? ==> forall j :: 0 <= j < IndexOf(s, c).value ==> s[j] != c
    ensures IndexOf(s, c).None? ==> forall j :: 0 <= j < |s| ==> s[j] != c
  {
    if |s| > 0 && s[0] != c {
      IndexOfFirst(s[1..], c);
      assert forall j :: 1 <= j < |s| ==> s[j] == s[1..][j - 1];
    }
  }

  lemma {:induction false} LastIndexOfLast(s: string, c: char)
    ensures LastIndexOf(s, c).Some? ==> forall j :: LastIndexOf(s, c).value < j < |s| ==> s[j] != c
    ensures LastIndexOf(s, c).None? ==> forall j :: 0 <= j < |s| ==> s[j] != c
  {
    if |s| > 0 && s[|s| - 1] != c {
      LastIndexOfLast(s[..|s| - 1], c);
      assert forall j :: 0 <= j < |s| - 1 ==> s[j] == s[..|s| - 1][j];
    }
  }

  /**
   * `re.search(r"\{.*\}", text, re.DOTALL)`: the leftmost match starts at the
   * first `{`, and the greedy `.*` makes it end at the last `}`.
   */
  function BraceMatch(s: string): Option<string> {
    match IndexOf(s, '{')
    case None => None
    case Some(i) =>
      match LastIndexOf(s, '}')
      case None => None
      case Some(j) => if i < j then Some(s[i..j + 1]) else None
  }

  /**
   * There is a match exactly when some `{` comes before some `}`; the match
   * runs from the first `{` to the last `}`, both included.
   */
  lemma BraceMatchSpec(s: string)
    ensures BraceMatch(s).Some? <==> exists i, j :: 0 <= i < j < |s| && s[i] == '{' && s[j] == '}'
    ensures BraceMatch(s).Some? ==>
              exists i, j ::
                && 0 <= i < j < |s| && s[i] == '{' && s[j] == '}'
                && (forall k :: 0 <= k < i ==> s[k] != '{')
                && (forall k :: j < k < |s| ==> s[k] != '}')
                && BraceMatch(s).value == s[i..j + 1]
  {
    IndexOfFirst(s, '{');
    LastIndexOfLast(s, '}');
    if BraceMatch(s).Some? {
      var i := IndexOf(s, '{').value;
      var j := LastIndexOf(s, '}').value;
      assert 0 <= i < j < |s| && s[i] == '{' && s[j] == '}';
    }
  }

  /** At most the first 200 characters, as `[:200]` takes them. */
  function Excerpt(s: string): (r: string)
    ensures |r| <= 200 && |r| <= |s| && r == s[..|r|]
    ensures |s| <= 200 ==> r == s
    ensures |s| > 200 ==> |r| == 200
  {
    if |s| <= 200 then s else s[..200]
  }

  const NoJsonPrefix := "\U{26A0}\U{FE0F} No valid JSON found in fallback response:\n"
  const DoubleFailPrefix := "\U{274C} Double fallback failed: "

  function NoJsonExplanation(text: string): string {
    NoJsonPrefix + Excerpt(Strip(text)) + "..."
  }

  function DoubleFailure(detail: string): Verdict {
    Defaults.(explanation := JStr(DoubleFailPrefix + detail))
  }

  /** Tiers two and three: the plain model call, the brace extraction and `json.loads`. */
  function Fallback(decodeError: string -> string, r: RawOutcome): Verdict {
    match r
    case RawFail(e) => DoubleFailure(e)
    case Raw(text) =>
      match BraceMatch(text)
      case None => Defaults.(explanation := JStr(NoJsonExplanation(text)))
      case Some(m) => FromMatch(decodeError, m)
  }

  /** `json.loads(match.group(0))` and the four `.get` calls on it. */
  function FromMatch(decodeError: string -> string, m: string): Verdict {
    match Decode(m)
    case None => DoubleFailure(decodeError(m))
    case Some(v) => if v.JObj? then FieldsOf(v.members) else DoubleFailure(NoGetMessage(v))
  }

  /**
   * A brace match starts with `{`, so whatever `json.loads` makes of it is a
   * dict: from `Fallback`, the `.get` failure branch of `FromMatch` is never taken.
   */
  lemma BraceMatchDecodesToDict(text: string)
    requires BraceMatch(text).Some?
    ensures Decode(BraceMatch(text).value).Some? ==> Decode(BraceMatch(text).value).value.JObj?
  {
    var i := IndexOf(text, '{').value;
    var j := LastIndexOf(text, '}').value;
    assert BraceMatch(text).value == text[i..j + 1];
    OpenBraceDecodesToDict(text[i..j + 1]);
  }

  /** `json.loads` of a text that starts with `{` is a dict, or raises. */
  lemma OpenBraceDecodesToDict(m: string)
    requires |m| > 0 && m[0] == '{'
    ensures Decode(m).Some? ==> Decode(m).value.JObj?
  {
    assert SkipWs(m) == m;
    assert ParseValue(m) == ParseObject(m[1..]);
  }

  /**
   * The verdict of agent call number `k` on `input`: the structured parser's
   * fields when it returns a dict, and the fallback otherwise (a failed
   * parse, or `.get` on something that is not a dict).
   */
  function DecideVerdict(env: Env, k: nat, input: string): Verdict {
    match env.tier1(k, input)
    case Tier1Ok(JObj(ms)) => FieldsOf(ms)
    case _ => Fallback(env.decodeError, env.raw(k, input))
  }

  /** `{"explanation": …, "bug_found": …, "suggested_fix": …, "severity": …}`. */
  function VerdictObject(v: Verdict): Json {
    JObj([Member("explanation", v.explanation), Member("bug_found", v.bugFound),
          Member("suggested_fix", v.suggestedFix), Member("severity", v.severity)])
  }

  function AgentReply(env: Env, k: nat, input: string): string {
    Encode(VerdictObject(DecideVerdict(env, k, input)))
  }

  /** `agent_node`: append the verdict on the last message and clear `retry`. */
  function AgentNode(env: Env, k: nat, s: State): (r: NodeResult)
    ensures r.Raised? <==> |s.messages| == 0
  {
    if |s.messages| == 0 then Raised(NoMessages)
    else Next(State(s.messages + [Message(AI, AgentReply(env, k, Last(s.messages).content))], false))
  }

  ghost predicate VerdictWellFormed(v: Verdict) {
    WellFormed(v.explanation) && WellFormed(v.bugFound) && WellFormed(v.suggestedFix) && WellFormed(v.severity)
  }

  lemma GetOrWellFormed(ms: seq<Member>, k: string, d: Json)
    requires ValuesWellFormed(ms) && WellFormed(d)
    ensures WellFormed(GetOr(ms, k, d))
  {
  }

  lemma FieldsWellFormed(ms: seq<Member>)
    requires ValuesWellFormed(ms)
    ensures VerdictWellFormed(FieldsOf(ms))
  {
    GetOrWellFormed(ms, "explanation", JStr(""));
    GetOrWellFormed(ms, "bug_found", JBool(false));
    GetOrWellFormed(ms, "suggested_fix", JStr(""));
    GetOrWellFormed(ms, "severity", JStr("low"));
  }

  lemma FromMatchWellFormed(decodeError: string -> string, m: string)
    ensures VerdictWellFormed(FromMatch(decodeError, m))
  {
    if Decode(m).Some? {
      DecodedWellFormed(m);
      if Decode(m).value.JObj? {
        FieldsWellFormed(Decode(m).value.members);
      }
    }
  }

  lemma FallbackWellFormed(decodeError: string -> string, r: RawOutcome)
    ensures VerdictWellFormed(Fallback(decodeError, r))
  {
    if r.Raw? && BraceMatch(r.text).Some? {
      FromMatchWellFormed(decodeError, BraceMatch(r.text).value);
    }
  }

  /** Every verdict holds values a JSON parser produced, or the defaults. */
  lemma DecidedWellFormed(env: Env, k: nat, input: string)
    requires ParserYieldsJson(env)
    ensures VerdictWellFormed(DecideVerdict(env, k, input))
  {
    match env.tier1(k, input)
    case Tier1Ok(v) =>
      if v.JObj? {
        assert WellFormed(v);
        FieldsWellFormed(v.members);
      } else {
        FallbackWellFormed(env.decodeError, env.raw(k, input));
      }
    case Tier1Fail => FallbackWellFormed(env.decodeError, env.raw(k, input));
  }

  lemma VerdictObjectWellFormed(v: Verdict)
    requires VerdictWellFormed(v)
    ensures WellFormed(VerdictObject(v))
  {
    var ms := VerdictObject(v).members;
    assert DistinctKeys(ms);
    assert ValuesWellFormed(ms);
  }

  /** Each key of the reply object yields its field. */
  lemma ReplyFields(v: Verdict, d: Json)
    ensures GetOr(VerdictObject(v).members, "explanation", d) == v.explanation
    ensures GetOr(VerdictObject(v).members, "bug_found", d) == v.bugFound
    ensures GetOr(VerdictObject(v).members, "suggested_fix", d) == v.suggestedFix
    ensures GetOr(VerdictObject(v).members, "severity", d) == v.severity
  {
    var ms := VerdictObject(v).members;
    assert KeyIndex(ms, "explanation") == Some(0);
    assert KeyIndex(ms[1..], "bug_found") == Some(0);
    assert KeyIndex(ms[1..][1..], "suggested_fix") == Some(0);
    assert KeyIndex(ms[1..][1..][1..], "severity") == Some(0);
  }

  /** The reply object reads back as itself, and each key yields its field. */
  lemma ReplyReadsBack(v: Verdict, d: Json)
    requires VerdictWellFormed(v)
    ensures Decode(Encode(VerdictObject(v))) == Some(VerdictObject(v))
    ensures GetOr(VerdictObject(v).members, "suggested_fix", d) == v.suggestedFix
  {
    VerdictObjectWellFormed(v);
    RoundTrip(VerdictObject(v));
    ReplyFields(v, d);
  }

  /**
   * The agent keeps the earlier messages, appends exactly one AI message,
   * and clears `retry`; the new message is a JSON object with exactly the
   * keys explanation, bug_found, suggested_fix and severity, in that order,
   * holding the verdict reached on the last message.
   */
  lemma AgentAppendsVerdict(env: Env, k: nat, s: State)
    requires ParserYieldsJson(env) && |s.messages| > 0
    ensures var r := AgentNode(env, k, s);
            && r.Next? && !r.state.retry
            && |r.state.messages| == |s.messages| + 1
            && r.state.messages[..|s.messages|] == s.messages
            && Last(r.state.messages).role == AI
            && Decode(Last(r.state.messages).content)
                 == Some(VerdictObject(DecideVerdict(env, k, Last(s.messages).content)))
  {
    var v := DecideVerdict(env, k, Last(s.messages).content);
    DecidedWellFormed(env, k, Last(s.messages).content);
    ReplyReadsBack(v, JNull);
    var r := AgentNode(env, k, s);
    assert r.state.messages[..|s.messages|] == s.messages;
  }

  /**
   * Tier ordering: when the structured parser returns a dict, its fields
   * are the verdict whatever the plain model call would have said; when it
   * does not, the plain call decides.
   */
  lemma TierOrder(env: Env, other: Env, k: nat, input: string)
    requires env.tier1(k, input) == other.tier1(k, input)
    ensures env.tier1(k, input).Tier1Ok? && env.tier1(k, input).parsed.JObj? ==>
              && DecideVerdict(env, k, input) == FieldsOf(env.tier1(k, input).parsed.members)
              && DecideVerdict(env, k, input) == DecideVerdict(other, k, input)
    ensures !(env.tier1(k, input).Tier1Ok? && env.tier1(k, input).parsed.JObj?) ==>
              DecideVerdict(env, k, input) == Fallback(env.decodeError, env.raw(k, input))
  {
  }

  /**
   * The fallback tiers: a decodable dict between the braces gives its
   * fields; no braces give the fixed notice with at most 200 characters of
   * the stripped reply; every failure gives the double-failure notice. In
   * the last two cases the other three fields keep their defaults.
   */
  lemma FallbackSpec(decodeError: string -> string, r: RawOutcome)
    ensures var v := Fallback(decodeError, r);
            && (r.Raw? && BraceMatch(r.text).Some? && Decode(BraceMatch(r.text).value).Some?
                 && Decode(BraceMatch(r.text).value).value.JObj? ==>
                  v == FieldsOf(Decode(BraceMatch(r.text).value).value.members))
            && (r.Raw? && BraceMatch(r.text).None? ==>
                  && v.explanation.JStr?
                  && var e := v.explanation.s;
                     && |NoJsonPrefix| <= |e| && e[..|NoJsonPrefix|] == NoJsonPrefix
                     && var x := e[|NoJsonPrefix|..|e| - 3];
                        && |x| == (if |Strip(r.text)| <= 200 then |Strip(r.text)| else 200)
                        && x == Strip(r.text)[..|x|] && e[|e| - 3..] == "...")
            && (r.RawFail? || (BraceMatch(r.text).Some? && !(Decode(BraceMatch(r.text).value).Some?
                 && Decode(BraceMatch(r.text).value).value.JObj?)) ==>
                  && v.explanation.JStr?
                  && |DoubleFailPrefix| <= |v.explanation.s|
                  && v.explanation.s[..|DoubleFailPrefix|] == DoubleFailPrefix)
            && (!(r.Raw? && BraceMatch(r.text).Some? && Decode(BraceMatch(r.text).value).Some?
                 && Decode(BraceMatch(r.text).value).value.JObj?) ==>
                  v.bugFound == JBool(false) && v.suggestedFix == JStr("") && v.severity == JStr("low"))
  {
    if r.Raw? && BraceMatch(r.text).None? {
      var e := NoJsonExplanation(r.text);
      var x := Excerpt(Strip(r.text));
      assert e == NoJsonPrefix + x + "...";
      assert e[..|NoJsonPrefix|] == NoJsonPrefix;
      assert e[|NoJsonPrefix|..|e| - 3] == x;
      assert e[|e| - 3..] == "...";
    }
  }

  /* ------------------------------------------------------------------ */
  /* bug_fixer                                                           */
  /* ------------------------------------------------------------------ */

  /**
   * `bug_fixer_node`: when the last message is a dict with a `suggested_fix`
   * string that is not blank, the conversation restarts from that fix as a
   * human message; every failure (empty conversation, not JSON, not a dict,
   * a fix that is not a string, a blank fix) returns the state unchanged.
   */
  function BugFixerNode(s: State): State {
    if |s.messages| == 0 then s
    else match Decode(Last(s.messages).content)
      case Some(JObj(ms)) =>
        (match GetOr(ms, "suggested_fix", JStr(""))
         case JStr(f) => if Strip(f) == "" then s else State([Message(Human, Strip(f))], false)
         case _ => s)
      case _ => s
  }

  /**
   * The fixer restarts the conversation from the stripped fix, with one
   * human message and `retry` cleared, exactly when the last message is a
   * JSON dict whose `suggested_fix` is a string that is not blank after
   * stripping (the default `""` is blank); in every other case it returns
   * the state unchanged.
   */
  lemma BugFixerSpec(s: State)
    ensures |s.messages| > 0 && Decode(Last(s.messages).content).Some? && Decode(Last(s.messages).content).value.JObj? ==>
              var fix := GetOr(Decode(Last(s.messages).content).value.members, "suggested_fix", JStr(""));
              && (fix.JStr? && Strip(fix.s) != "" ==> BugFixerNode(s) == State([Message(Human, Strip(fix.s))], false))
              && (!(fix.JStr? && Strip(fix.s) != "") ==> BugFixerNode(s) == s)
    ensures !(|s.messages| > 0 && Decode(Last(s.messages).content).Some? && Decode(Last(s.messages).content).value.JObj?) ==>
              BugFixerNode(s) == s
  {
    if |s.messages| > 0 && Decode(Last(s.messages).content).Some? && Decode(Last(s.messages).content).value.JObj? {
      BugFixerOnDict(s, Decode(Last(s.messages).content).value.members);
    }
  }

  /** The fixer on a last message that decodes to the dict with members `ms`. */
  lemma BugFixerOnDict(s: State, ms: seq<Member>)
    requires |s.messages| > 0 && Decode(Last(s.messages).content) == Some(JObj(ms))
    ensures var fix := GetOr(ms, "suggested_fix", JStr(""));
            BugFixerNode(s) == if fix.JStr? && Strip(fix.s) != "" then State([Message(Human, Strip(fix.s))], false) else s
  {
  }

  /* ------------------------------------------------------------------ */
  /* verify_patch                                                        */
  /* ------------------------------------------------------------------ */

  const PatchWorks := "\U{2705} Patch works!"
  const PatchFailed := "\U{274C} Patch failed!"
  const NoPatch := "\U{26A0}\U{FE0F} No patch to verify."

  /** The input and expected output `verify_patch` hands the oracle. */
  const OracleInput: seq<int> := [1, 3, 2]
  const OracleExpected := 3

  /** Whether digits before any exponent are all zero: `float(l) == 0`. */
  predicate MantissaZero(l: string) {
    forall i :: 0 <= i < |l| && (forall j :: 0 <= j < i ==> l[j] != 'e' && l[j] != 'E') ==> !('1' <= l[i] <= '9')
  }

  /** Python's truth value of a decoded value. */
  predicate Truthy(v: Json) {
    match v
    case JNull => false
    case JBool(b) => b
    case JInt(i) => i != 0
    case JFloat(l) => l == "NaN" || l == "Infinity" || l == "-Infinity" || !MantissaZero(l)
    case JStr(s) => |s| > 0
    case JArr(xs) => |xs| > 0
    case JObj(ms) => |ms| > 0
  }

  /**
   * `simulate_bug_trigger(patch, [1, 3, 2], 3)`. A fix that is not a string
   * makes `exec` raise a `TypeError`, which the oracle reports as the bug
   * still being there.
   */
  predicate StillBuggy(exec: Executor, patch: Json) {
    match patch
    case JStr(code) => SimulateBugTrigger(exec, code, OracleInput, OracleExpected)
    case _ => true
  }

  /** `verify_patch_node`: test the last message's fix and report on it. */
  function VerifyPatchNode(env: Env, s: State): (r: NodeResult)
    ensures r.Next? ==> |r.state.messages| == |s.messages| + 1 && r.state.messages[..|s.messages|] == s.messages
  {
    if |s.messages| == 0 then Raised(NoMessages)
    else
      var text := Last(s.messages).content;
      match Decode(text)
      case None => Raised(NotJson(env.decodeError(text)))
      case Some(v) =>
        if !v.JObj? then Raised(NoGet(TypeName(v)))
        else
          var patch := GetOr(v.members, "suggested_fix", JNull);
          if Truthy(patch) then
            var failed := StillBuggy(env.exec, patch);
            Next(State(s.messages + [Message(AI, if failed then PatchFailed else PatchWorks)], failed))
          else Next(State(s.messages + [Message(AI, NoPatch)], false))
  }

  /**
   * On a message that is a JSON dict, `verify_patch` appends exactly one of
   * the three status strings, and sets `retry` exactly when the fix is
   * truthy and the oracle still finds the bug.
   */
  lemma VerifyPatchSpec(env: Env, s: State)
    requires |s.messages| > 0
    requires Decode(Last(s.messages).content).Some? && Decode(Last(s.messages).content).value.JObj?
    ensures var r := VerifyPatchNode(env, s);
            var patch := GetOr(Decode(Last(s.messages).content).value.members, "suggested_fix", JNull);
            && r.Next?
            && (r.state.retry <==> Truthy(patch) && StillBuggy(env.exec, patch))
            && Last(r.state.messages) == Message(AI,
                 if !Truthy(patch) then NoPatch else if r.state.retry then PatchFailed else PatchWorks)
  {
  }

  /** The fix the agent wrote is the one `verify_patch` tests. */
  lemma VerifyAgentReply(env: Env, s: State, v: Verdict)
    requires |s.messages| > 0 && VerdictWellFormed(v) && Last(s.messages).content == Encode(VerdictObject(v))
    ensures var r := VerifyPatchNode(env, s);
            && r.Next?
            && (r.state.retry <==> Truthy(v.suggestedFix) && StillBuggy(env.exec, v.suggestedFix))
            && Last(r.state.messages) == Message(AI,
                 if !Truthy(v.suggestedFix) then NoPatch else if r.state.retry then PatchFailed else PatchWorks)
  {
    ReplyReadsBack(v, JNull);
    VerifyPatchSpec(env, s);
  }

  /** None of the status strings is JSON, so the fixer passes them through. */
  lemma StatusNotJson()
    ensures Decode(PatchWorks).None? && Decode(PatchFailed).None? && Decode(NoPatch).None?
  {
    DecodeRejects(PatchWorks);
    DecodeRejects(PatchFailed);
    DecodeRejects(NoPatch);
  }

  /* ------------------------------------------------------------------ */
  /* The analysis nodes                                                  */
  /* ------------------------------------------------------------------ */

  /** `simulate_paths_node`: append the path simulation of the first message. */
  function SimulatePathsNode(env: Env, s: State): (r: NodeResult)
    ensures r.Raised? <==> |s.messages| == 0
    ensures r.Next? ==> r.state == State(s.messages + [Message(AI, env.paths(s.messages[0].content))], s.retry)
  {
    if |s.messages| == 0 then Raised(NoMessages)
    else Next(State(s.messages + [Message(AI, env.paths(s.messages[0].content))], s.retry))
  }

  const SeverityPrefix := "\U{1F53A} Severity: "

  /** `severity_rank_node`: append the severity ranking of the first message. */
  function RankSeverityNode(env: Env, s: State): (r: NodeResult)
    ensures r.Raised? <==> |s.messages| == 0
    ensures r.Next? ==> r.state == State(s.messages + [Message(AI, SeverityPrefix + env.severity(s.messages[0].content))], s.retry)
  {
    if |s.messages| == 0 then Raised(NoMessages)
    else Next(State(s.messages + [Message(AI, SeverityPrefix + env.severity(s.messages[0].content))], s.retry))
  }

  const Fence := "json\n"
  const NoTestCodeKey := "# \U{274C} No 'test_code' key."

  /**
   * The test text `generate_tests_node` keeps from the generator's reply.
   * The lazy group of `json\n(.*?)` always captures the empty string, so a
   * reply containing the fence is parsed as `""`, which fails; `None` is a
   * `test_code` that is not a string, which no message can hold.
   */
  function TestCode(raw: string): Option<string> {
    var candidate := if In(Fence, raw) then "" else raw;
    match Decode(candidate)
    case Some(JObj(ms)) => TestCodeOf(ms)
    case _ => Some(raw)
  }

  /** `test_json.get("test_code", …)`, which must be a string to become a message. */
  function TestCodeOf(ms: seq<Member>): Option<string> {
    match GetOr(ms, "test_code", JStr(NoTestCodeKey))
    case JStr(t) => Some(t)
    case _ => None
  }

  /** A reply containing `json\n` is kept as it is: the captured group `""` never parses. */
  lemma TestCodeFenced(raw: string)
    requires In(Fence, raw)
    ensures TestCode(raw) == Some(raw)
  {
    DecodeEmpty();
  }

  /**
   * Without the fence, a reply that is a JSON dict gives its string
   * `test_code`, or the fixed notice when the key is missing.
   */
  lemma TestCodeObject(raw: string)
    requires !In(Fence, raw) && Decode(raw).Some? && Decode(raw).value.JObj?
    ensures var ms := Decode(raw).value.members;
            && (Get(ms, "test_code").None? ==> TestCode(raw) == Some(NoTestCodeKey))
            && (Get(ms, "test_code").Some? && Get(ms, "test_code").value.JStr? ==>
                  TestCode(raw) == Some(Get(ms, "test_code").value.s))
            && (TestCode(raw).None? <==> Get(ms, "test_code").Some? && !Get(ms, "test_code").value.JStr?)
  {
    var ms := Decode(raw).value.members;
    assert TestCode(raw) == TestCodeOf(ms);
    TestCodeOfSpec(ms);
  }

  lemma TestCodeOfSpec(ms: seq<Member>)
    ensures Get(ms, "test_code").None? ==> TestCodeOf(ms) == Some(NoTestCodeKey)
    ensures Get(ms, "test_code").Some? && Get(ms, "test_code").value.JStr? ==>
              TestCodeOf(ms) == Some(Get(ms, "test_code").value.s)
    ensures TestCodeOf(ms).None? <==> Get(ms, "test_code").Some? && !Get(ms, "test_code").value.JStr?
  {
  }

  /** Without the fence, a reply that is not a JSON dict is kept as it is. */
  lemma TestCodeOther(raw: string)
    requires !In(Fence, raw) && !(Decode(raw).Some? && Decode(raw).value.JObj?)
    ensures TestCode(raw) == Some(raw)
  {
  }

  /** `generate_tests_node`: append the unit test generated for the first message. */
  function GenerateTestsNode(env: Env, s: State): (r: NodeResult)
    ensures r.Raised? <==> |s.messages| == 0 || TestCode(env.unitTests(s.messages[0].content)).None?
    ensures r.Next? ==>
              r.state == State(s.messages + [Message(AI, TestCode(env.unitTests(s.messages[0].content)).value)], s.retry)
  {
    if |s.messages| == 0 then Raised(NoMessages)
    else match TestCode(env.unitTests(s.messages[0].content))
      case None => Raised(NotText)
      case Some(t) => Next(State(s.messages + [Message(AI, t)], s.retry))
  }

  /* ------------------------------------------------------------------ */
  /* summarize                                                           */
  /* ------------------------------------------------------------------ */

  const SectionSeparator := "\n\n---\n\n"

  /** `[m.content.strip() for m in messages if isinstance(m, AIMessage)]`. */
  function Sections(ms: seq<Message>): seq<string> {
    if |ms| == 0 then []
    else (if ms[0].role == AI then [Strip(ms[0].content)] else []) + Sections(ms[1..])
  }

  function CountAI(ms: seq<Message>): nat {
    if |ms| == 0 then 0 else (if ms[|ms| - 1].role == AI then 1 else 0) + CountAI(ms[..|ms| - 1])
  }

  /** One message gives its stripped text when an AI wrote it, and nothing otherwise. */
  lemma SectionsOne(m: Message)
    ensures Sections([m]) == if m.role == AI then [Strip(m.content)] else []
  {
    assert [m][1..] == [];
  }

  lemma SectionsCons(m: Message, ms: seq<Message>)
    ensures Sections([m] + ms) == (if m.role == AI then [Strip(m.content)] else []) + Sections(ms)
  {
    SectionsAppend([m], ms);
    SectionsOne(m);
  }

  /** Six messages as a chain of one-element concatenations, and five strings back. */
  lemma Nest6<T>(a: T, b: T, c: T, d: T, e: T, f: T)
    ensures [a, b, c, d, e, f] == [a] + ([b] + ([c] + ([d] + ([e] + [f]))))
  {
  }

  lemma Nest5<T>(a: T, b: T, c: T, d: T, e: T)
    ensures [a] + ([b] + ([c] + ([d] + [e]))) == [a, b, c, d, e]
  {
  }

  /**
   * The summary of a run without retry: the user's message is left out, and
   * the five AI messages give their stripped texts in order.
   */
  lemma SectionsOfRun(h: Message, m1: Message, m2: Message, m3: Message, m4: Message, m5: Message)
    requires h.role == Human && m1.role == AI && m2.role == AI && m3.role == AI && m4.role == AI && m5.role == AI
    ensures Sections([h, m1, m2, m3, m4, m5])
              == [Strip(m1.content), Strip(m2.content), Strip(m3.content), Strip(m4.content), Strip(m5.content)]
  {
    var t4 := [m5];
    var t3 := [m4] + t4;
    var t2 := [m3] + t3;
    var t1 := [m2] + t2;
    var t0 := [m1] + t1;
    Nest6(h, m1, m2, m3, m4, m5);
    SectionsCons(h, t0);
    SectionsCons(m1, t1);
    SectionsCons(m2, t2);
    SectionsCons(m3, t3);
    SectionsCons(m4, t4);
    SectionsOne(m5);
    Nest5(Strip(m1.content), Strip(m2.content), Strip(m3.content), Strip(m4.content), Strip(m5.content));
  }

  /** Sections of a concatenation are the concatenated sections. */
  lemma {:induction false} SectionsAppend(a: seq<Message>, b: seq<Message>)
    ensures Sections(a + b) == Sections(a) + Sections(b)
  {
    if |a| > 0 {
      assert (a + b)[0] == a[0];
      assert (a + b)[1..] == a[1..] + b;
      SectionsAppend(a[1..], b);
    } else {
      assert a + b == b;
    }
  }

  /**
   * One section per AI message, in order: the AI message at index `i` gives
   * the section numbered by the AI messages before it, and human messages
   * give none.
   */
  lemma {:induction false} SectionsSpec(ms: seq<Message>)
    ensures |Sections(ms)| == CountAI(ms)
    ensures forall i :: 0 <= i < |ms| && ms[i].role == AI ==>
              CountAI(ms[..i]) < |Sections(ms)| && Sections(ms)[CountAI(ms[..i])] == Strip(ms[i].content)
  {
    if |ms| > 0 {
      var init := ms[..|ms| - 1];
      SectionsSpec(init);
      var tail := [ms[|ms| - 1]];
      assert ms == init + tail;
      SectionsAppend(init, tail);
      forall i | 0 <= i < |ms| && ms[i].role == AI
        ensures CountAI(ms[..i]) < |Sections(ms)| && Sections(ms)[CountAI(ms[..i])] == Strip(ms[i].content)
      {
        if i < |ms| - 1 {
          assert ms[..i] == init[..i];
          assert ms[i] == init[i];
        } else {
          assert ms[..i] == init;
        }
      }
    }
  }

  /** `summarize_all_node`: one AI message joining the stripped AI contents. */
  function SummarizeNode(s: State): (r: State)
    ensures |r.messages| == 1 && r.messages[0].role == AI
    ensures r.retry == s.retry
  {
    State([Message(AI, Join(SectionSeparator, Sections(s.messages)))], s.retry)
  }
}
