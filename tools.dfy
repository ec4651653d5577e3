/**
 * The pure helpers of `utils/tools.py`: the patch oracle
 * `simulate_bug_trigger`, `explain_code`, `generate_tests` and `patch_code`.
 * Python's `exec` is not modelled; its outcome is a parameter.
 */
module Tools {
  import opened Wrappers
  import opened Text
  import opened Json

  /* ------------------------------------------------------------------ */
  /* simulate_bug_trigger                                                */
  /* ------------------------------------------------------------------ */

  /**
   * A value a called function can return, as far as `!=` against an int
   * can tell: an int; a bool, which Python compares as 0 or 1; a finite
   * float, which Python compares by its exact value (`3.0 != 3` is false);
   * or any other value, whose `!=` against an int is what its type defines
   * (always true for None, strings, lists, dicts, NaN and the infinities).
   */
  datatype PyValue = PyInt(i: int) | PyBool(b: bool) | PyFloat(r: real) | PyOther(differsFrom: int -> bool)

  /** What calling the function did: it returned, or it raised an `Exception`. */
  datatype CallOutcome = Returned(value: PyValue) | CallRaised

  /**
   * One entry of the namespace `exec` filled, in insertion order: its name,
   * whether `callable()` holds of it, and what calling it with a list does.
   */
  datatype Binding = Binding(name: string, isCallable: bool, onCall: seq<int> -> CallOutcome)

  /** What `exec(code, namespace)` did: it raised an `Exception`, or it left these bindings. */
  datatype ExecOutcome = ExecRaised | Executed(namespace: seq<Binding>)

  type Executor = string -> ExecOutcome

  /** Python's `result != expected` for an int `expected`. */
  predicate Differs(v: PyValue, expected: int) {
    match v
    case PyInt(i) => i != expected
    case PyBool(b) => (if b then 1 else 0) != expected
    case PyFloat(r) => r != expected as real
    case PyOther(differsFrom) => differsFrom(expected)
  }

  /** `[v for v in namespace.values() if callable(v)]`. */
  function Callables(ns: seq<Binding>): (r: seq<Binding>)
    ensures |r| <= |ns|
  {
    if |ns| == 0 then []
    else if ns[0].isCallable then [ns[0]] + Callables(ns[1..])
    else Callables(ns[1..])
  }

  /** Index of the first callable binding. */
  function FirstCallable(ns: seq<Binding>): (r: Option<nat>)
    ensures r.Some? ==> r.value < |ns| && ns[r.value].isCallable
    ensures r.Some? ==> forall j :: 0 <= j < r.value ==> !ns[j].isCallable
    ensures r.None? ==> forall j :: 0 <= j < |ns| ==> !ns[j].isCallable
  {
    if |ns| == 0 then None
    else if ns[0].isCallable then Some(0)
    else match FirstCallable(ns[1..])
      case None => None
      case Some(i) => Some(i + 1)
  }

  /**
   * The filtered list is empty exactly when no binding is callable, and
   * otherwise its head behaves as the first callable binding does.
   */
  lemma {:induction false} CallablesHead(ns: seq<Binding>, x: seq<int>)
    ensures |Callables(ns)| == 0 <==> FirstCallable(ns).None?
    ensures FirstCallable(ns).Some? ==>
              Callables(ns)[0].onCall(x) == ns[FirstCallable(ns).value].onCall(x)
  {
    if |ns| > 0 && !ns[0].isCallable {
      CallablesHead(ns[1..], x);
    }
  }

  /**
   * `simulate_bug_trigger(code, test_input, expected)`: true ("the bug is
   * still there") when `exec` raises, when nothing callable was defined
   * (indexing the empty list raises), or when the call raises; otherwise
   * whether the first callable's result differs from `expected`.
   */
  function SimulateBugTrigger(exec: Executor, code: string, testInput: seq<int>, expected: int): bool {
    match exec(code)
    case ExecRaised => true
    case Executed(ns) =>
      var funcs := Callables(ns);
      if |funcs| == 0 then true
      else match funcs[0].onCall(testInput)
        case CallRaised => true
        case Returned(v) => Differs(v, expected)
  }

  /**
   * The oracle answers "bug fixed" exactly when `exec` succeeds, some binding
   * is callable, and the first callable one, called with the test input,
   * returns a value equal to `expected`.
   */
  lemma BugTriggerSpec(exec: Executor, code: string, testInput: seq<int>, expected: int)
    ensures !SimulateBugTrigger(exec, code, testInput, expected) <==>
              && exec(code).Executed?
              && FirstCallable(exec(code).namespace).Some?
              && var f := exec(code).namespace[FirstCallable(exec(code).namespace).value];
                 f.onCall(testInput).Returned? && !Differs(f.onCall(testInput).value, expected)
  {
    if exec(code).Executed? {
      CallablesHead(exec(code).namespace, testInput);
    }
  }

  /* ------------------------------------------------------------------ */
  /* explain_code                                                        */
  /* ------------------------------------------------------------------ */

  const LikelyFunction := "\U{1F50D} Likely a function returning a value \U{2014} maybe a slice, transformation, or computed result."
  const UnknownPurpose := "\U{1F914} Can't determine purpose \U{2014} not a function?"

  const DefKeyword := "def"
  const ReturnKeyword := "return"

  /** `explain_code`: a fixed guess from two substring tests. */
  function ExplainCode(code: string): (r: string)
    ensures r == LikelyFunction <==> Contains(code, DefKeyword) && Contains(code, ReturnKeyword)
    ensures r == UnknownPurpose <==> !(Contains(code, DefKeyword) && Contains(code, ReturnKeyword))
  {
    FindSpec(code, DefKeyword);
    FindSpec(code, ReturnKeyword);
    if In(DefKeyword, code) && In(ReturnKeyword, code) then LikelyFunction else UnknownPurpose
  }

  /* ------------------------------------------------------------------ */
  /* generate_tests                                                      */
  /* ------------------------------------------------------------------ */

  const NoReturn := "# No return statement found."

  function TestLine(expr: string): string {
    "def test_case():\n    assert " + expr + " == expected"
  }

  /**
   * The suggestion `generate_tests` prints after its header line: a test
   * asserting on the stripped text after the last `return`, or a notice.
   */
  function GenerateTests(code: string): string {
    if In(ReturnKeyword, code) then TestLine(Strip(LastSplit(code, ReturnKeyword))) else NoReturn
  }

  /** Two occurrences of `return` cannot overlap. */
  lemma ReturnNoOverlap(s: string, k: int, j: int)
    requires OccursAt(s, ReturnKeyword, k) && OccursAt(s, ReturnKeyword, j) && k < j
    ensures k + 6 <= j
  {
    if j < k + 6 {
      Overlap(s, ReturnKeyword, k, j);
    }
  }

  /** Two occurrences of `t` that overlap agree on their first two characters at the shift. */
  lemma Overlap(s: string, t: string, k: int, j: int)
    requires |t| >= 2 && OccursAt(s, t, k) && OccursAt(s, t, j) && k <= j < k + |t|
    ensures t[j - k] == t[0]
    ensures j - k + 1 < |t| ==> t[j - k + 1] == t[1]
  {
    assert s[k..k + |t|][j - k] == s[j] == s[j..j + |t|][0];
    if j - k + 1 < |t| {
      assert s[k..k + |t|][j - k + 1] == s[j + 1] == s[j..j + |t|][1];
    }
  }

  /**
   * When `code` contains `return`, the asserted expression is the stripped
   * text after its last occurrence; otherwise the notice is printed.
   */
  lemma GenerateTestsSpec(code: string)
    ensures !Contains(code, ReturnKeyword) ==> GenerateTests(code) == NoReturn
    ensures Contains(code, ReturnKeyword) ==>
              exists k ::
                && OccursAt(code, ReturnKeyword, k)
                && (forall j :: k < j ==> !OccursAt(code, ReturnKeyword, j))
                && GenerateTests(code) == TestLine(Strip(code[k + 6..]))
  {
    if Contains(code, ReturnKeyword) {
      var k := LastReturn(code);
      assert OccursAt(code, ReturnKeyword, k);
    } else {
      FindSpec(code, ReturnKeyword);
    }
  }

  /** The position of the last `return`, and the test built on the text after it. */
  lemma LastReturn(code: string) returns (k: nat)
    requires Contains(code, ReturnKeyword)
    ensures OccursAt(code, ReturnKeyword, k)
    ensures forall j :: k < j ==> !OccursAt(code, ReturnKeyword, j)
    ensures GenerateTests(code) == TestLine(Strip(code[k + 6..]))
  {
    SplitLast(code, ReturnKeyword);
    var last := LastSplit(code, ReturnKeyword);
    k := |code| - |last| - 6;
    assert code[k + 6..] == last;
    NoLaterReturn(code, k);
    FindSpec(code, ReturnKeyword);
    GenerateTestsLast(code);
  }

  lemma GenerateTestsLast(code: string)
    requires Find(code, ReturnKeyword).Some?
    ensures GenerateTests(code) == TestLine(Strip(LastSplit(code, ReturnKeyword)))
  {
  }

  /** An occurrence of `return` followed by text without one is the last occurrence. */
  lemma NoLaterReturn(code: string, k: int)
    requires OccursAt(code, ReturnKeyword, k) && !Contains(code[k + 6..], ReturnKeyword)
    ensures forall j :: k < j ==> !OccursAt(code, ReturnKeyword, j)
  {
    var last := code[k + 6..];
    forall j | k < j
      ensures !OccursAt(code, ReturnKeyword, j)
    {
      if OccursAt(code, ReturnKeyword, j) {
        ReturnNoOverlap(code, k, j);
        assert OccursAt(last, ReturnKeyword, j - k - 6) by {
          assert last[j - k - 6..j - k] == code[j..j + 6];
        }
      }
    }
  }

  /* ------------------------------------------------------------------ */
  /* patch_code                                                          */
  /* ------------------------------------------------------------------ */

  const NoFix := "# No fix available or invalid agent output."
  const PatchHeader := "\n\U{1F527} Suggested Patch:\n# "

  /**
   * Python's `str(v)` for a value `json.loads` produced. Strings, None,
   * bools, ints and the three special floats are rendered here; the repr of
   * other floats, lists and dicts is the parameter `repr`.
   */
  function PyStr(v: Json, repr: Json -> string): string {
    match v
    case JNull => "None"
    case JBool(b) => if b then "True" else "False"
    case JInt(i) => IntToDecimal(i)
    case JStr(s) => s
    case JFloat(l) =>
      if l == "NaN" then "nan" else if l == "Infinity" then "inf"
      else if l == "-Infinity" then "-inf" else repr(v)
    case _ => repr(v)
  }

  /**
   * `patch_code(code_str, agent_output)`: the agent's `suggested_fix` as a
   * comment line above the code, or a notice when the output is not a JSON
   * object (the bare `except` also catches the missing `.get`).
   */
  function PatchCode(code: string, agentOutput: string, repr: Json -> string): string {
    match Decode(agentOutput)
    case Some(JObj(ms)) => PatchHeader + PyStr(GetOr(ms, "suggested_fix", JNull), repr) + "\n" + code
    case _ => NoFix
  }

  /**
   * The patch text ends with the code and carries the rendered fix, which is
   * `None` when the key is missing; anything that is not a JSON object gives
   * the notice.
   */
  lemma PatchCodeSpec(code: string, agentOutput: string, repr: Json -> string)
    ensures (Decode(agentOutput).Some? && Decode(agentOutput).value.JObj?) ==>
              var ms := Decode(agentOutput).value.members;
              && PatchCode(code, agentOutput, repr) == PatchHeader + PyStr(GetOr(ms, "suggested_fix", JNull), repr) + "\n" + code
              && (Get(ms, "suggested_fix").None? ==> PatchCode(code, agentOutput, repr) == PatchHeader + "None" + "\n" + code)
    ensures !(Decode(agentOutput).Some? && Decode(agentOutput).value.JObj?) ==> PatchCode(code, agentOutput, repr) == NoFix
  {
    if Decode(agentOutput).Some? && Decode(agentOutput).value.JObj? {
      var ms := Decode(agentOutput).value.members;
      PatchCodeObject(code, agentOutput, repr, ms);
      if Get(ms, "suggested_fix").None? {
        assert PyStr(GetOr(ms, "suggested_fix", JNull), repr) == "None";
      }
    } else {
      PatchCodeOther(code, agentOutput, repr);
    }
  }

  lemma PatchCodeObject(code: string, agentOutput: string, repr: Json -> string, ms: seq<Member>)
    requires Decode(agentOutput) == Some(JObj(ms))
    ensures PatchCode(code, agentOutput, repr) == PatchHeader + PyStr(GetOr(ms, "suggested_fix", JNull), repr) + "\n" + code
  {
  }

  lemma PatchCodeOther(code: string, agentOutput: string, repr: Json -> string)
    requires !(Decode(agentOutput).Some? && Decode(agentOutput).value.JObj?)
    ensures PatchCode(code, agentOutput, repr) == NoFix
  {
  }

  /** When the output is a JSON object, the patch text is the header, the fix and the code. */
  lemma PatchEndsWithCode(code: string, agentOutput: string, repr: Json -> string)
    requires Decode(agentOutput).Some? && Decode(agentOutput).value.JObj?
    ensures var p := PatchCode(code, agentOutput, repr);
            |code| < |p| && p[|p| - |code|..] == code && p[..|PatchHeader|] == PatchHeader
  {
    var ms := Decode(agentOutput).value.members;
    PatchCodeObject(code, agentOutput, repr, ms);
    Framed(PatchHeader, PyStr(GetOr(ms, "suggested_fix", JNull), repr), code);
  }

  /** A header, a line and a body, concatenated: the body ends the text, the header begins it. */
  lemma Framed(header: string, line: string, body: string)
    ensures var p := header + line + "\n" + body;
            |body| < |p| && p[|p| - |body|..] == body && p[..|header|] == header
  {
    var p := header + line + "\n" + body;
    assert p == (header + line + "\n") + body;
    assert p == header + (line + "\n" + body);
  }
}
