/**
 * The ReAct agent's helpers (agents/react_agent/utils.py): the required-field check on an
 * action and the report over an action history (counts per action type, the share of
 * successful actions, and actions per distinct task).
 */
module ReactAgentUtils {
  import opened Wrappers
  import opened PyValues

  /** The exceptions the report can raise: a missing key (`KeyError`) and a dictionary or
      list used as a dictionary key or set member (`TypeError`). */
  datatype PyError = KeyError(key: string) | TypeError(message: string)

  /** An action, as a dictionary with string keys. */
  type Action = PyDict

  // ---------------------------------------------------------------- validate_action

  const RequiredActionFields: seq<string> := ["type", "parameters", "task_id"]

  /** `validate_action`: every required field is a key; values and extra keys are not looked at. */
  predicate ValidateAction(action: Action) {
    forall f :: f in RequiredActionFields ==> f in Keys(action)
  }

  /** Adding or overwriting a key never invalidates an action. */
  lemma ValidateActionPut(action: Action, k: string, v: Value)
    requires ValidateAction(action)
    ensures ValidateAction(Put(action, k, v))
  {
    PutKeys(action, k, v);
  }

  /** A key outside the required three does not decide validity. */
  lemma ValidateActionIgnoresExtraKeys(action: Action, k: string, v: Value)
    requires k !in RequiredActionFields
    ensures ValidateAction(Put(action, k, v)) <==> ValidateAction(action)
  {
    PutKeys(action, k, v);
  }

  // ---------------------------------------------------------------- analyze_action_pattern

  /** `action.get('type', 'unknown')`. */
  function TypeOf(action: Action): Value {
    match Get(action, "type")
    case None => Str("unknown")
    case Some(t) => t
  }

  /** Whether Python can hash the value: not a dictionary, a list, or another object whose
      class makes it unhashable (such as a set). */
  predicate Hashable(v: Value) {
    match v
    case Dict(_) => false
    case List(_) => false
    case Other(_, _, hashable, _) => hashable
    case _ => true
  }

  /** The name of the value's class, as an error message shows it. */
  function ClassName(v: Value): string {
    match v
    case Dict(_) => "dict"
    case List(_) => "list"
    case Other(_, classes, _, _) => if classes == [] then "object" else classes[0]
    case Str(_) => "str"
    case Int(_) => "int"
    case Float(_) => "float"
    case Bool(_) => "bool"
    case PyNone => "NoneType"
  }

  function Unhashable(v: Value): PyError {
    TypeError("unhashable type: '" + ClassName(v) + "'")
  }

  /** The action types in history order. */
  function Types(h: seq<Action>): (ts: seq<Value>) {
    seq(|h|, i requires 0 <= i < |h| => TypeOf(h[i]))
  }

  /** `counts.get(t, 0)`. */
  function CountOf<K(==)>(counts: seq<Pair<K, nat>>, t: K): nat {
    match Get(counts, t)
    case None => 0
    case Some(n) => n
  }

  /** The counts dictionary after one more item `t`: `counts[t] = counts.get(t, 0) + 1`. */
  function Bump<K(==)>(counts: seq<Pair<K, nat>>, t: K): seq<Pair<K, nat>> {
    Put(counts, t, CountOf(counts, t) + 1)
  }

  /** The counts dictionary after counting the items of `ts`, in order. */
  function Tally<K(==)>(ts: seq<K>): seq<Pair<K, nat>> {
    if ts == [] then [] else Bump(Tally(ts[..|ts| - 1]), ts[|ts| - 1])
  }

  /** The sum of the counts in a counts dictionary. */
  function Total<K>(counts: seq<Pair<K, nat>>): nat {
    if counts == [] then 0 else counts[0].val + Total(counts[1..])
  }

  /** The first type in `ts` that cannot be a dictionary key, if any. */
  function FirstUnhashable(ts: seq<Value>): Option<Value> {
    if ts == [] then None
    else match FirstUnhashable(ts[..|ts| - 1])
      case Some(v) => Some(v)
      case None => if Hashable(ts[|ts| - 1]) then None else Some(ts[|ts| - 1])
  }

  /** `action.get('success', False)` is truthy. */
  predicate Succeeded(action: Action) {
    match Get(action, "success")
    case None => false
    case Some(v) => Truthy(v)
  }

  /** `sum(1 for action in h if action.get('success', False))`. */
  function SuccessCount(h: seq<Action>): (n: nat)
    ensures n <= |h|
  {
    if h == [] then 0 else SuccessCount(h[..|h| - 1]) + (if Succeeded(h[|h| - 1]) then 1 else 0)
  }

  /** What goes wrong first when collecting `action['task_id']` into a set, if anything. */
  function FirstTaskIdError(h: seq<Action>): Option<PyError> {
    if h == [] then None
    else match FirstTaskIdError(h[..|h| - 1])
      case Some(e) => Some(e)
      case None =>
        match Get(h[|h| - 1], "task_id")
        case None => Some(KeyError("task_id"))
        case Some(id) => if Hashable(id) then None else Some(Unhashable(id))
  }

  /** `set(action['task_id'] for action in h)`, once every action has a task id. */
  function TaskIds(h: seq<Action>): (ids: set<Value>)
    requires FirstTaskIdError(h).None?
  {
    if h == [] then {} else TaskIds(h[..|h| - 1]) + {Get(h[|h| - 1], "task_id").value}
  }

  /** The report: counts per action type in first-appearance order, the success rate and
      the average number of actions per task. */
  datatype Patterns = Patterns(commonActions: seq<Pair<Value, nat>>, successRate: real, averageSteps: real)

  function Max1(n: nat): nat {
    if n < 1 then 1 else n
  }

  /** `analyze_action_pattern(h)`, the value it returns or the exception it raises. */
  function ActionPattern(h: seq<Action>): Result<Patterns, PyError> {
    if h == [] then Ok(Patterns([], 0.0, 0.0))
    else match FirstUnhashable(Types(h))
      case Some(t) => Err(Unhashable(t))
      case None =>
        match FirstTaskIdError(h)
        case Some(e) => Err(e)
        case None =>
          Ok(Patterns(Tally(Types(h)), SuccessCount(h) as real / |h| as real, |h| as real / Max1(|TaskIds(h)|) as real))
  }

  /** The first pass: `counts[t] = counts.get(t, 0) + 1` for each action's type, raising
      on the first type that cannot be a key. */
  method CountActionTypes(h: seq<Action>) returns (r: Result<seq<Pair<Value, nat>>, PyError>)
    ensures r == match FirstUnhashable(Types(h)) case Some(t) => Err(Unhashable(t)) case None => Ok(Tally(Types(h)))
  {
    ghost var ts := Types(h);
    var counts: seq<Pair<Value, nat>> := [];
    var i := 0;
    while i < |h|
      invariant 0 <= i <= |h|
      invariant FirstUnhashable(ts[..i]).None? && counts == Tally(ts[..i])
    {
      assert ts[..i + 1][..i] == ts[..i] && ts[i] == TypeOf(h[i]);
      var t := TypeOf(h[i]);
      if !Hashable(t) {
        FirstUnhashableExtends(ts, i + 1);
        return Err(Unhashable(t));
      }
      counts := Bump(counts, t);
      i := i + 1;
    }
    assert ts[..i] == ts;
    r := Ok(counts);
  }

  /** The second pass: the number of actions whose `'success'` is truthy. */
  method CountSuccesses(h: seq<Action>) returns (successful: nat)
    ensures successful == SuccessCount(h)
  {
    successful := 0;
    var i := 0;
    while i < |h|
      invariant 0 <= i <= |h| && successful == SuccessCount(h[..i])
    {
      assert h[..i + 1][..i] == h[..i];
      if Succeeded(h[i]) {
        successful := successful + 1;
      }
      i := i + 1;
    }
    assert h[..i] == h;
  }

  /** The third pass: the set of task ids, raising on the first missing or unhashable one. */
  method CollectTaskIds(h: seq<Action>) returns (r: Result<set<Value>, PyError>)
    ensures FirstTaskIdError(h).Some? ==> r == Err(FirstTaskIdError(h).value)
    ensures FirstTaskIdError(h).None? ==> r == Ok(TaskIds(h))
  {
    var ids: set<Value> := {};
    var i := 0;
    while i < |h|
      invariant 0 <= i <= |h| && FirstTaskIdError(h[..i]).None? && ids == TaskIds(h[..i])
    {
      assert h[..i + 1][..i] == h[..i];
      var id := Get(h[i], "task_id");
      if id.None? {
        FirstTaskIdErrorExtends(h, i + 1);
        return Err(KeyError("task_id"));
      }
      if !Hashable(id.value) {
        FirstTaskIdErrorExtends(h, i + 1);
        return Err(Unhashable(id.value));
      }
      ids := ids + {id.value};
      i := i + 1;
    }
    assert h[..i] == h;
    r := Ok(ids);
  }

  /** `analyze_action_pattern`: the three passes in order, the first exception ending it. */
  method AnalyzeActionPattern(h: seq<Action>) returns (r: Result<Patterns, PyError>)
    ensures r == ActionPattern(h)
  {
    if h == [] {
      return Ok(Patterns([], 0.0, 0.0));
    }
    var counts := CountActionTypes(h);
    if counts.Err? {
      return Err(counts.error);
    }
    var successful := CountSuccesses(h);
    var ids := CollectTaskIds(h);
    if ids.Err? {
      return Err(ids.error);
    }
    r := Ok(Patterns(counts.value, successful as real / |h| as real, |h| as real / Max1(|ids.value|) as real));
  }

  /** An error found in a prefix is the error of the whole history. */
  lemma {:induction false} FirstUnhashableExtends(ts: seq<Value>, k: nat)
    requires k <= |ts| && FirstUnhashable(ts[..k]).Some?
    ensures FirstUnhashable(ts) == FirstUnhashable(ts[..k])
    decreases |ts| - k
  {
    if k < |ts| {
      assert ts[..k + 1][..k] == ts[..k];
      FirstUnhashableExtends(ts, k + 1);
    } else {
      assert ts[..k] == ts;
    }
  }

  lemma {:induction false} FirstTaskIdErrorExtends(h: seq<Action>, k: nat)
    requires k <= |h| && FirstTaskIdError(h[..k]).Some?
    ensures FirstTaskIdError(h) == FirstTaskIdError(h[..k])
    decreases |h| - k
  {
    if k < |h| {
      assert h[..k + 1][..k] == h[..k];
      FirstTaskIdErrorExtends(h, k + 1);
    } else {
      assert h[..k] == h;
    }
  }

  // ---------------------------------------------------------------- what the report means

  /** The type error is raised for the first type that is a dictionary or a list, and
      only when there is one. */
  lemma {:induction false} FirstUnhashableSpec(ts: seq<Value>)
    ensures FirstUnhashable(ts).None? <==> forall i :: 0 <= i < |ts| ==> Hashable(ts[i])
    ensures FirstUnhashable(ts).Some? ==>
              exists i :: 0 <= i < |ts| && ts[i] == FirstUnhashable(ts).value
                          && !Hashable(ts[i]) && forall j :: 0 <= j < i ==> Hashable(ts[j])
  {
    if ts != [] {
      var p := ts[..|ts| - 1];
      FirstUnhashableSpec(p);
      assert forall i :: 0 <= i < |p| ==> p[i] == ts[i];
    }
  }

  /** The task-id pass fails exactly when some action lacks a task id or has one that
      cannot be hashed. */
  lemma {:induction false} FirstTaskIdErrorSpec(h: seq<Action>)
    ensures FirstTaskIdError(h).None? <==>
              forall i :: 0 <= i < |h| ==> Get(h[i], "task_id").Some? && Hashable(Get(h[i], "task_id").value)
  {
    if h != [] {
      var p := h[..|h| - 1];
      FirstTaskIdErrorSpec(p);
      assert forall i :: 0 <= i < |p| ==> p[i] == h[i];
    }
  }

  /** Changing an entry's value changes the sum by the difference. */
  lemma {:induction false} TotalPut<K>(counts: seq<Pair<K, nat>>, t: K, n: nat)
    ensures Total(Put(counts, t, n)) + CountOf(counts, t) == Total(counts) + n
  {
    if counts != [] && counts[0].key != t {
      TotalPut(counts[1..], t, n);
      assert Put(counts, t, n)[1..] == Put(counts[1..], t, n);
    } else if counts != [] {
      assert Put(counts, t, n)[1..] == counts[1..];
    }
  }

  /** One more item `k` adds one to `k`'s count and leaves the others alone. */
  lemma BumpGet<K>(c: seq<Pair<K, nat>>, k: K, u: K)
    ensures Get(Bump(c, k), u) == if u == k then Some(CountOf(c, k) + 1) else Get(c, u)
  {
    PutGet(c, k, CountOf(c, k) + 1, u);
  }

  /** `counts[t]` is the number of occurrences of `t`, and an item that does not occur is
      not a key. */
  lemma {:induction false} TallyCounts<K>(ts: seq<K>, t: K)
    ensures Get(Tally(ts), t) == if multiset(ts)[t] == 0 then None else Some(multiset(ts)[t])
  {
    if ts != [] {
      var p, last := ts[..|ts| - 1], ts[|ts| - 1];
      assert ts == p + [last];
      TallyCounts(p, t);
      BumpGet(Tally(p), last, t);
    }
  }

  /** An item is a key of the counts exactly when it has been counted. */
  lemma TallyHasKey<K>(ts: seq<K>, t: K)
    ensures t in Keys(Tally(ts)) <==> t in ts
  {
    TallyCounts(ts, t);
    GetSpec(Tally(ts), t);
    assert t in ts <==> t in multiset(ts);
  }

  /** The keys come in first-appearance order: an item seen before keeps its place, a new
      one goes last. */
  lemma {:induction false} TallyKeysAppend<K>(ts: seq<K>, t: K)
    ensures Keys(Tally(ts + [t])) == if t in ts then Keys(Tally(ts)) else Keys(Tally(ts)) + [t]
  {
    assert (ts + [t])[..|ts|] == ts;
    assert Tally(ts + [t]) == Bump(Tally(ts), t);
    TallyHasKey(ts, t);
    PutKeys(Tally(ts), t, CountOf(Tally(ts), t) + 1);
  }

  /** No item is counted under two keys. */
  lemma {:induction false} TallyDistinct<K>(ts: seq<K>)
    ensures DistinctKeys(Tally(ts))
  {
    if ts != [] {
      var p, last := ts[..|ts| - 1], ts[|ts| - 1];
      TallyDistinct(p);
      PutDistinct(Tally(p), last, CountOf(Tally(p), last) + 1);
    }
  }

  /** The counts add up to the number of items counted. */
  lemma {:induction false} TallyTotal<K>(ts: seq<K>)
    ensures Total(Tally(ts)) == |ts|
  {
    if ts != [] {
      var p, last := ts[..|ts| - 1], ts[|ts| - 1];
      var c := Tally(p);
      TallyTotal(p);
      TotalPut(c, last, CountOf(c, last) + 1);
    }
  }

  /** There are never more distinct task ids than actions, and a non-empty history has one. */
  lemma {:induction false} TaskIdsBound(h: seq<Action>)
    requires FirstTaskIdError(h).None?
    ensures |TaskIds(h)| <= |h|
    ensures h != [] ==> |TaskIds(h)| >= 1
  {
    if h != [] {
      var p := h[..|h| - 1];
      assert FirstTaskIdError(p).None?;
      TaskIdsBound(p);
      var id := Get(h[|h| - 1], "task_id").value;
      assert id in TaskIds(h);
    }
  }

  /** The report's guarantees: an empty history gives the empty report; otherwise
      `common_actions[t]` is the number of actions of type `t` (a type that does not occur
      is not a key), the counts add up to the number of actions, the success rate lies in
      [0, 1], and there is at least one action per task on average. */
  lemma ActionPatternSpec(h: seq<Action>)
    ensures h == [] ==> ActionPattern(h) == Ok(Patterns([], 0.0, 0.0))
    ensures ActionPattern(h).Ok? && h != [] ==>
              var p := ActionPattern(h).value;
              Total(p.commonActions) == |h| && DistinctKeys(p.commonActions)
              && (forall t :: Get(p.commonActions, t) ==
                    if multiset(Types(h))[t] == 0 then None else Some(multiset(Types(h))[t]))
              && 0.0 <= p.successRate <= 1.0 && p.averageSteps >= 1.0
  {
    if h != [] && ActionPattern(h).Ok? {
      var ts := Types(h);
      TallyTotal(ts);
      TallyDistinct(ts);
      forall t ensures Get(Tally(ts), t) == if multiset(ts)[t] == 0 then None else Some(multiset(ts)[t]) {
        TallyCounts(ts, t);
      }
      TaskIdsBound(h);
      RatioAtMostOne(SuccessCount(h), |h|);
      RatioAtLeastOne(|h|, Max1(|TaskIds(h)|));
    }
  }

  lemma RatioAtMostOne(a: nat, b: nat)
    requires 0 < b && a <= b
    ensures 0.0 <= a as real / b as real <= 1.0
  {
    assert (a as real / b as real) * b as real == a as real;
  }

  lemma RatioAtLeastOne(a: nat, b: nat)
    requires 0 < b <= a
    ensures a as real / b as real >= 1.0
  {
    assert (a as real / b as real) * b as real == a as real;
  }

  /** The report fails with an error exactly when some action's type cannot be hashed or
      some action's task id is missing or cannot be hashed. */
  lemma ActionPatternFails(h: seq<Action>)
    requires h != []
    ensures ActionPattern(h).Err? <==>
              (exists i :: 0 <= i < |h| && !Hashable(TypeOf(h[i])))
              || (exists i :: 0 <= i < |h| && (Get(h[i], "task_id").None? || !Hashable(Get(h[i], "task_id").value)))
  {
    var ts := Types(h);
    FirstUnhashableSpec(ts);
    FirstTaskIdErrorSpec(h);
    if exists i :: 0 <= i < |h| && !Hashable(TypeOf(h[i])) {
      var i :| 0 <= i < |h| && !Hashable(TypeOf(h[i]));
      assert ts[i] == TypeOf(h[i]);
    }
  }
}
