/**
 * The ReAct agent (agents/react_agent/core.py): a think/act/observe cycle whose action
 * history and memory are lists that are appended to and then cut back to the configured
 * window by dropping the oldest entry.
 */
module ReactAgentCore {
  import opened Wrappers
  import opened Text
  import opened PyValues
  import opened ReactAgentUtils

  const ThoughtContent: string := "Analyzing observation and planning next action"

  /** How many entries a list cut back to `window` can keep. */
  function Capacity(window: int): nat {
    if window < 0 then 0 else window
  }

  /** `lst.append(x)` followed by `if len(lst) > window: lst.pop(0)`. */
  function AppendEvict<T>(s: seq<T>, x: T, window: int): seq<T> {
    if |s| + 1 > window then (s + [x])[1..] else s + [x]
  }

  /** Appending and evicting keeps the newest entries: the result is a suffix of the list
      with `x` appended, it ends with `x` unless the window holds nothing, it never exceeds
      the capacity when the list did not, and at most the one oldest entry is dropped. */
  lemma AppendEvictSpec<T>(s: seq<T>, x: T, window: int)
    requires |s| <= Capacity(window)
    ensures var r := AppendEvict(s, x, window);
            var k := |s| + 1 - |r|;
            0 <= k <= 1 && r == (s + [x])[k..]
            && |r| <= Capacity(window)
            && (window >= 1 ==> r[|r| - 1] == x)
            && (|s| == Capacity(window) && window >= 0 ==> |r| == |s|)
  {
  }

  /** `think`: the thought is fixed, with confidence 0.8; the observation is not looked at. */
  function Think(observation: PyDict): (thought: PyDict)
    ensures Get(thought, "confidence") == Some(Float(Finite(0.8)))
    ensures Get(thought, "content") == Some(Str(ThoughtContent))
  {
    [Pair("content", Str(ThoughtContent)), Pair("confidence", Float(Finite(0.8)))]
  }

  /** The action `act` builds for a history of length `n`, before its status is set. */
  function NewAction(n: nat): Action {
    [Pair("type", Str("analyze")), Pair("parameters", Dict([])), Pair("task_id", Str(NatToString(n + 1)))]
  }

  /** The action `act` records when the history holds `n` actions. */
  function MadeAction(n: nat): Action {
    NewAction(n) + [Pair("status", Str("completed"))]
  }

  /** What every action `act` records looks like: of type `'analyze'`, with a string task
      id and no `'success'` key. */
  predicate IsMadeAction(a: Action) {
    Get(a, "type") == Some(Str("analyze")) && Get(a, "success").None?
    && Get(a, "task_id").Some? && Get(a, "task_id").value.Str?
  }

  /** The content `observe` records when reading `action[key]` raised `KeyError`. */
  function ObserveError(key: string): PyDict {
    [Pair("content", Str("Error observing action: '" + key + "'")), Pair("metrics", Dict([]))]
  }

  /** `observe(action)`: the content names the action type, and the success rate is 1.0
      for a completed action and 0.0 otherwise; a missing `'type'` or `'status'` is caught
      and reported in the content, leaving the metrics empty. */
  function Observe(action: Action): (observation: PyDict)
    ensures Keys(observation) == ["content", "metrics"]
  {
    match Get(action, "type")
    case None => ObserveError("type")
    case Some(t) =>
      match Get(action, "status")
      case None => ObserveError("status")
      case Some(status) =>
        [Pair("content", Str("Action " + Display(t) + " completed")),
         Pair("metrics", Dict([Pair("success_rate", Float(Finite(if status == Str("completed") then 1.0 else 0.0))),
                               Pair("execution_time", Float(Finite(0.0)))]))]
  }

  /** A memory entry: the thought, action and observation of one cycle. */
  datatype MemoryEntry = MemoryEntry(thought: PyDict, action: Action, observation: PyDict)

  /** The triple `execute_cycle` returns. */
  datatype Cycle = Cycle(thought: PyDict, action: Action, observation: PyDict)

  /** What `analyze_performance` returns: the report of `analyze_action_pattern`, except that
      an empty history gets a report whose counts sit under the key `'patterns'` instead of
      `'common_actions'`. */
  datatype Performance = Performance(countsKey: string, patterns: Patterns)

  class ReactAgent {
    const memoryWindow: int
    const useMemory: bool
    var actionHistory: seq<Action>
    var memory: seq<MemoryEntry>

    /** Both lists stay within the window, and the history holds only actions `act` made. */
    ghost predicate Valid()
      reads this
    {
      |actionHistory| <= Capacity(memoryWindow) && |memory| <= Capacity(memoryWindow)
      && forall i :: 0 <= i < |actionHistory| ==> IsMadeAction(actionHistory[i])
    }

    constructor(memoryWindow: int, useMemory: bool)
      ensures Valid() && this.memoryWindow == memoryWindow && this.useMemory == useMemory
      ensures actionHistory == [] && memory == []
    {
      this.memoryWindow := memoryWindow;
      this.useMemory := useMemory;
      actionHistory := [];
      memory := [];
    }

    /** `act`: the new action gets the task id `len(history) + 1` and status `'completed'`;
        it is appended to the history, which then drops its oldest entry if it is over the
        window. The format check before the append always passes. */
    method Act(thought: PyDict) returns (action: Action)
      requires Valid()
      modifies this
      ensures Valid() && memory == old(memory)
      ensures action == MadeAction(|old(actionHistory)|)
      ensures actionHistory == AppendEvict(old(actionHistory), action, memoryWindow)
    {
      action := NewAction(|actionHistory|);
      NewActionValid(|actionHistory|);
      if !ValidateAction(action) {
        assert false;
      }
      action := action + [Pair("status", Str("completed"))];
      MadeActionShape(|actionHistory|);
      AppendEvictSpec(actionHistory, action, memoryWindow);
      actionHistory := actionHistory + [action];
      if |actionHistory| > memoryWindow {
        actionHistory := actionHistory[1..];
      }
    }

    /** `update_memory`: nothing happens when memory is switched off; otherwise the entry is
        appended and the oldest one dropped if the memory is over the window. */
    method UpdateMemory(thought: PyDict, action: Action, observation: PyDict)
      requires Valid()
      modifies this
      ensures Valid() && actionHistory == old(actionHistory)
      ensures memory == if useMemory then AppendEvict(old(memory), MemoryEntry(thought, action, observation), memoryWindow)
                        else old(memory)
    {
      if !useMemory {
        return;
      }
      var entry := MemoryEntry(thought, action, observation);
      AppendEvictSpec(memory, entry, memoryWindow);
      memory := memory + [entry];
      if |memory| > memoryWindow {
        memory := memory[1..];
      }
    }

    /** `analyze_performance`: the report on the current history. */
    method AnalyzePerformance() returns (r: Result<Performance, PyError>)
      ensures r == if actionHistory == [] then Ok(Performance("patterns", Patterns([], 0.0, 0.0)))
                   else match ActionPattern(actionHistory)
                        case Ok(p) => Ok(Performance("common_actions", p))
                        case Err(e) => Err(e)
    {
      if actionHistory == [] {
        return Ok(Performance("patterns", Patterns([], 0.0, 0.0)));
      }
      var p := AnalyzeActionPattern(actionHistory);
      r := match p case Ok(p) => Ok(Performance("common_actions", p)) case Err(e) => Err(e);
    }

    /** `execute_cycle`: one thought, exactly one action, its observation, and at most one
        memory entry holding all three. */
    method ExecuteCycle(initialObservation: PyDict) returns (r: Cycle)
      requires Valid()
      modifies this
      ensures Valid()
      ensures r.thought == Think(initialObservation) && r.observation == Observe(r.action)
      ensures r.action == MadeAction(|old(actionHistory)|)
      ensures actionHistory == AppendEvict(old(actionHistory), r.action, memoryWindow)
      ensures memory == if useMemory then AppendEvict(old(memory), MemoryEntry(r.thought, r.action, r.observation), memoryWindow)
                        else old(memory)
    {
      var thought := Think(initialObservation);
      var action := Act(thought);
      var observation := Observe(action);
      UpdateMemory(thought, action, observation);
      r := Cycle(thought, action, observation);
    }
  }

  /** The action `act` builds always has the three required fields, so its `ValueError`
      branch cannot be taken. */
  lemma NewActionValid(n: nat)
    ensures ValidateAction(NewAction(n))
  {
    var a := NewAction(n);
    assert Keys(a) == ["type", "parameters", "task_id"];
  }

  /** The recorded action is of type `'analyze'`, completed, with task id `str(n + 1)` and no
      `'success'` key. */
  lemma MadeActionShape(n: nat)
    ensures var a := MadeAction(n);
            IsMadeAction(a) && Get(a, "status") == Some(Str("completed"))
            && Get(a, "task_id") == Some(Str(NatToString(n + 1)))
  {
    var id := Str(NatToString(n + 1));
    var a := MadeAction(n);
    assert a == [Pair("type", Str("analyze")), Pair("parameters", Dict([])), Pair("task_id", id), Pair("status", Str("completed"))];
    var a1, a2, a3 := a[1..], a[2..], a[3..];
    assert a1[1..] == a2 && a2[1..] == a3 && a3[1..] == [];
    assert Get(a3, "success") == None;
    assert Get(a2, "success") == None && Get(a2, "task_id") == Some(id) && Get(a2, "status") == Some(Str("completed"));
    assert Get(a1, "success") == None && Get(a1, "task_id") == Some(id) && Get(a1, "status") == Some(Str("completed"));
  }

  /** Observing an action `act` made reports it as completed with success rate 1.0. */
  lemma ObserveMadeAction(n: nat)
    ensures var o := Observe(MadeAction(n));
            Get(o, "content") == Some(Str("Action analyze completed"))
            && Get(o, "metrics") == Some(Dict([Pair("success_rate", Float(Finite(1.0))), Pair("execution_time", Float(Finite(0.0)))]))
  {
    MadeActionShape(n);
    assert "Action " + "analyze" + " completed" == "Action analyze completed";
  }

  /** The success rate is 1.0 exactly when the action's status is `'completed'`. */
  lemma ObserveSuccessRate(action: Action, t: Value, status: Value)
    requires Get(action, "type") == Some(t) && Get(action, "status") == Some(status)
    ensures Get(Observe(action), "metrics").Some?
    ensures var m := Get(Observe(action), "metrics").value;
            m.Dict? && (Get(m.entries, "success_rate") == Some(Float(Finite(1.0))) <==> status == Str("completed"))
  {
  }

  /** Counting one item over and over gives one key holding the count. */
  lemma {:induction false} TallyConstant<K>(ts: seq<K>, t: K)
    requires ts != [] && forall i :: 0 <= i < |ts| ==> ts[i] == t
    ensures Tally(ts) == [Pair(t, |ts|)]
  {
    var p := ts[..|ts| - 1];
    if p != [] {
      TallyConstant(p, t);
    }
  }

  /** Every action of the history is one `act` made. */
  predicate MadeHistory(h: seq<Action>) {
    forall i :: 0 <= i < |h| ==> IsMadeAction(h[i])
  }

  lemma {:induction false} NoSuccesses(h: seq<Action>)
    requires MadeHistory(h)
    ensures SuccessCount(h) == 0
  {
    if h != [] {
      NoSuccesses(h[..|h| - 1]);
    }
  }

  /** The report on a history of actions `act` made: every action is counted under
      `'analyze'`, and the success rate is always 0.0, because `act` records a `'status'`
      and the report looks for a `'success'` key. */
  lemma AgentReport(h: seq<Action>)
    requires h != [] && MadeHistory(h)
    ensures FirstTaskIdError(h).None? && ActionPattern(h).Ok?
    ensures ActionPattern(h).value.commonActions == [Pair(Str("analyze"), |h|)]
    ensures ActionPattern(h).value.successRate == 0.0
    ensures ActionPattern(h).value.averageSteps == |h| as real / Max1(|TaskIds(h)|) as real
  {
    MadeHistoryClean(h);
    MadeHistoryTaskIds(h);
    NoSuccesses(h);
    CleanReport(h);
  }

  /** The report on a history none of whose actions fails the analysis, all of one type
      and none successful. */
  lemma CleanReport(h: seq<Action>)
    requires h != [] && FirstUnhashable(Types(h)).None? && FirstTaskIdError(h).None?
    requires Tally(Types(h)) == [Pair(Str("analyze"), |h|)] && SuccessCount(h) == 0
    ensures ActionPattern(h) == Ok(Patterns([Pair(Str("analyze"), |h|)], 0.0, |h| as real / Max1(|TaskIds(h)|) as real))
  {
    assert ActionPattern(h) == Ok(Patterns(Tally(Types(h)), SuccessCount(h) as real / |h| as real,
                                           |h| as real / Max1(|TaskIds(h)|) as real));
    ZeroRatio(|h|);
  }

  /** Every action `act` made has type `'analyze'`, so the count has that one key. */
  lemma MadeHistoryClean(h: seq<Action>)
    requires h != [] && MadeHistory(h)
    ensures Tally(Types(h)) == [Pair(Str("analyze"), |h|)]
    ensures FirstUnhashable(Types(h)).None?
  {
    AllAnalyze(h);
    TallyConstant(Types(h), Str("analyze"));
    FirstUnhashableSpec(Types(h));
  }

  /** Every action `act` made has a text `task_id`. */
  lemma MadeHistoryTaskIds(h: seq<Action>)
    requires MadeHistory(h)
    ensures FirstTaskIdError(h).None?
  {
    FirstTaskIdErrorSpec(h);
  }

  lemma AllAnalyze(h: seq<Action>)
    requires MadeHistory(h)
    ensures forall i :: 0 <= i < |Types(h)| ==> Types(h)[i] == Str("analyze")
  {
    forall i | 0 <= i < |Types(h)| ensures Types(h)[i] == Str("analyze") {
      assert Types(h)[i] == TypeOf(h[i]);
    }
  }

  /** Kept apart so the division is reasoned about outside the report's context. */
  lemma ZeroRatio(n: nat)
    requires n > 0
    ensures 0 as real / n as real == 0.0
  {
  }

  /** The history after `k` more calls of `act`, starting from `h`. */
  function ActsFrom(h: seq<Action>, window: int, k: nat): seq<Action> {
    if k == 0 then h
    else var p := ActsFrom(h, window, k - 1); AppendEvict(p, MadeAction(|p|), window)
  }

  /** A full history stays full, so each later `act` hands out the task id `window + 1`
      again; after `j` such calls the oldest `j` actions have given way to copies of that
      one action. */
  lemma {:induction false} FullHistoryActs(h: seq<Action>, window: int, j: nat)
    requires window >= 1 && |h| == window && j <= window
    ensures ActsFrom(h, window, j) == h[j..] + seq(j, _ => MadeAction(window))
  {
    if j > 0 {
      var p := ActsFrom(h, window, j - 1);
      FullHistoryActs(h, window, j - 1);
      assert |p| == window;
      assert (p + [MadeAction(window)])[1..] == h[j..] + seq(j, _ => MadeAction(window));
    }
  }

  /** Once the history is full, every `act` records the same action, and after a window's
      worth of calls the history holds nothing else. */
  lemma {:induction false} FullHistoryRepeats(h: seq<Action>, window: int, k: nat)
    requires window >= 1 && |h| == window
    ensures |ActsFrom(h, window, k)| == window
    ensures Get(MadeAction(|ActsFrom(h, window, k)|), "task_id") == Some(Str(NatToString(window + 1)))
    ensures k >= window ==> ActsFrom(h, window, k) == seq(window, _ => MadeAction(window))
  {
    if k <= window {
      FullHistoryActs(h, window, k);
      if k == window {
        assert h[k..] == [];
      }
    } else {
      FullHistoryRepeats(h, window, k - 1);
      var p := ActsFrom(h, window, k - 1);
      assert (p + [MadeAction(window)])[1..] == p;
    }
    MadeActionShape(window);
  }

  /** A history of copies of one action has that action's task id as its only id. */
  lemma {:induction false} ConstantTaskIds(h: seq<Action>, a: Action)
    requires h != [] && IsMadeAction(a) && forall i :: 0 <= i < |h| ==> h[i] == a
    ensures FirstTaskIdError(h).None? && TaskIds(h) == {Get(a, "task_id").value}
  {
    if |h| > 1 {
      ConstantTaskIds(h[..|h| - 1], a);
    }
  }

  /** The report on the history once `act` has run a window's worth of times on a full
      history: every action is the same `'analyze'` action with the one task id, so
      `average_steps` is the window and the success rate is still 0.0. */
  lemma FullHistoryReport(h: seq<Action>, window: int, k: nat)
    requires window >= 1 && |h| == window && k >= window
    ensures ActionPattern(ActsFrom(h, window, k)) == Ok(Patterns([Pair(Str("analyze"), window)], 0.0, window as real))
  {
    FullHistoryRepeats(h, window, k);
    RepeatedActionReport(ActsFrom(h, window, k), window);
  }

  /** The report on `window` copies of the action `act` records on a full history. */
  lemma RepeatedActionReport(r: seq<Action>, window: int)
    requires window >= 1 && r == seq(window, _ => MadeAction(window))
    ensures ActionPattern(r) == Ok(Patterns([Pair(Str("analyze"), window)], 0.0, window as real))
  {
    var a := MadeAction(window);
    RepeatedMadeHistory(r, window);
    ConstantTaskIds(r, a);
    assert |TaskIds(r)| == 1;
    MadeHistoryClean(r);
    NoSuccesses(r);
    CleanReport(r);
  }

  lemma RepeatedMadeHistory(r: seq<Action>, window: int)
    requires window >= 1 && r == seq(window, _ => MadeAction(window))
    ensures r != [] && IsMadeAction(MadeAction(window)) && MadeHistory(r)
    ensures forall i :: 0 <= i < |r| ==> r[i] == MadeAction(window)
  {
    MadeActionShape(window);
  }
}
