/**
 * The plan-and-execute inventory manager (agents/plan_executor/core.py): quantities are
 * classified against three thresholds, each status that calls for it becomes a plan action,
 * every plan is kept in `plan_history`, and execution, monitoring and evaluation report on
 * the plan's actions. Timestamps are left out.
 */
module PlanExecutorCore {
  import opened Wrappers
  import opened PyValues
  import opened PlanExecutorUtils

  /** The configured thresholds (agents/plan_executor/config.py). */
  const DefaultLowStock: int := 20
  const DefaultHighStock: int := 80
  const DefaultReorderPoint: int := 30

  const InvalidInventory: string := "Invalid inventory data format"

  const LowStock: string := "low_stock"
  const Overstocked: string := "overstocked"
  const ReorderNeeded: string := "reorder_needed"
  const Optimal: string := "optimal"

  // ---------------------------------------------------------------- classification

  /** `isinstance(v, (int, float))`; a `bool` is an `int` in Python. */
  predicate IsNumber(v: Value) {
    v.Int? || v.Bool? || v.Float?
  }

  /** Python's `v <= t` for a number and an integer threshold (`nan` compares false). */
  predicate AtMost(v: Value, t: int)
    requires IsNumber(v)
  {
    match v
    case Int(i) => i <= t
    case Bool(b) => (if b then 1 else 0) <= t
    case Float(f) =>
      (match f
       case Finite(r) => r <= t as real
       case Infinity(negative) => negative
       case NaN => false)
  }

  /** Python's `v >= t` for a number and an integer threshold. */
  predicate AtLeast(v: Value, t: int)
    requires IsNumber(v)
  {
    match v
    case Int(i) => i >= t
    case Bool(b) => (if b then 1 else 0) >= t
    case Float(f) =>
      (match f
       case Finite(r) => r >= t as real
       case Infinity(negative) => !negative
       case NaN => false)
  }

  /** The status of one quantity, the thresholds tried in the source's order. */
  function Classify(q: Value, low: int, high: int, reorder: int): string
    requires IsNumber(q)
  {
    if AtMost(q, low) then LowStock
    else if AtLeast(q, high) then Overstocked
    else if AtMost(q, reorder) then ReorderNeeded
    else Optimal
  }

  /** Where a status sits on the scale from short to surplus. */
  function Rank(status: string): int {
    if status == LowStock then 0
    else if status == ReorderNeeded then 1
    else if status == Optimal then 2
    else 3
  }

  /** Whatever the thresholds, a larger quantity never gets a status lower on the scale. */
  lemma ClassifyMonotone(a: int, b: int, low: int, high: int, reorder: int)
    requires a <= b
    ensures Rank(Classify(Int(a), low, high, reorder)) <= Rank(Classify(Int(b), low, high, reorder))
  {
  }

  /** With the configured thresholds: up to 20 is low, 21 to 30 needs a reorder, 31 to 79
      is optimal and 80 on is overstocked. */
  lemma ClassifyDefaults(n: int)
    ensures n <= 20 ==> Classify(Int(n), DefaultLowStock, DefaultHighStock, DefaultReorderPoint) == LowStock
    ensures 21 <= n <= 30 ==> Classify(Int(n), DefaultLowStock, DefaultHighStock, DefaultReorderPoint) == ReorderNeeded
    ensures 31 <= n <= 79 ==> Classify(Int(n), DefaultLowStock, DefaultHighStock, DefaultReorderPoint) == Optimal
    ensures 80 <= n ==> Classify(Int(n), DefaultLowStock, DefaultHighStock, DefaultReorderPoint) == Overstocked
  {
  }

  /** The `status` dictionary `analyze_inventory` builds: every entry whose value is a
      number gets that value's status, in the data's order; other entries are skipped. */
  function Statuses(data: PyDict, low: int, high: int, reorder: int): seq<Pair<string, string>> {
    if data == [] then []
    else
      var last := data[|data| - 1];
      var before := Statuses(data[..|data| - 1], low, high, reorder);
      if IsNumber(last.val) then Put(before, last.key, Classify(last.val, low, high, reorder)) else before
  }

  /** Only keys of the data get a status, and each at most once. */
  lemma {:induction false} StatusesKeys(data: PyDict, low: int, high: int, reorder: int)
    ensures forall k :: k in Keys(Statuses(data, low, high, reorder)) ==> k in Keys(data)
    ensures DistinctKeys(Statuses(data, low, high, reorder))
  {
    if data != [] {
      var p := data[..|data| - 1];
      var last := data[|data| - 1];
      StatusesKeys(p, low, high, reorder);
      assert forall k :: k in Keys(p) ==> k in Keys(data) by {
        assert forall i :: 0 <= i < |p| ==> Keys(p)[i] == Keys(data)[i];
      }
      if IsNumber(last.val) {
        var c := Classify(last.val, low, high, reorder);
        PutKeys(Statuses(p, low, high, reorder), last.key, c);
        PutDistinct(Statuses(p, low, high, reorder), last.key, c);
        assert Keys(data)[|data| - 1] == last.key;
      }
    }
  }

  /** In a dictionary (no key twice), an entry holding a number gets exactly its status
      and any other entry gets none. */
  lemma {:induction false} StatusesGet(data: PyDict, low: int, high: int, reorder: int, i: nat)
    requires DistinctKeys(data) && i < |data|
    ensures Get(Statuses(data, low, high, reorder), data[i].key)
            == if IsNumber(data[i].val) then Some(Classify(data[i].val, low, high, reorder)) else None
  {
    var p := data[..|data| - 1];
    var last := data[|data| - 1];
    var before := Statuses(p, low, high, reorder);
    var k := data[i].key;
    if i == |data| - 1 {
      StatusesKeys(p, low, high, reorder);
      assert k !in Keys(p) by {
        forall j | 0 <= j < |p| ensures Keys(p)[j] != k {
          assert data[j].key != data[i].key;
        }
      }
      if IsNumber(last.val) {
        PutGet(before, k, Classify(last.val, low, high, reorder), k);
      } else {
        GetSpec(before, k);
      }
    } else {
      assert p[i] == data[i];
      StatusesGet(p, low, high, reorder, i);
      if IsNumber(last.val) {
        assert last.key != k;
        PutGet(before, last.key, Classify(last.val, low, high, reorder), k);
      }
    }
  }

  // ---------------------------------------------------------------- plans

  /** One planned action: its type, the product and its priority. */
  datatype PlanAction = PlanAction(actionType: string, productId: string, priority: string)

  /** A plan without its timestamp. */
  datatype Plan = Plan(actions: seq<PlanAction>, priority: string)

  /** The analysis without its timestamp. */
  datatype Analysis = Analysis(metrics: PyDict, status: seq<Pair<string, string>>)

  /** The action a status calls for: a high-priority restock for low stock, a clearance for
      surplus, a reorder when at the reorder point, and none otherwise. */
  function ActionFor(entry: Pair<string, string>): Option<PlanAction> {
    if entry.val == LowStock then Some(PlanAction("restock", entry.key, "high"))
    else if entry.val == Overstocked then Some(PlanAction("clearance", entry.key, "medium"))
    else if entry.val == ReorderNeeded then Some(PlanAction("reorder", entry.key, "medium"))
    else None
  }

  /** The actions for a status dictionary, in its order. */
  function Actions(status: seq<Pair<string, string>>): seq<PlanAction> {
    if status == [] then []
    else
      var last := ActionFor(status[|status| - 1]);
      Actions(status[..|status| - 1]) + (if last.Some? then [last.value] else [])
  }

  /** The plan's priority: raised to high by a low-stock entry, otherwise normal. */
  function Priority(status: seq<Pair<string, string>>): string {
    if status == [] then "normal"
    else if status[|status| - 1].val == LowStock then "high"
    else Priority(status[..|status| - 1])
  }

  /** The actions are exactly those the statuses call for, at most one per status. */
  lemma {:induction false} ActionsSpec(status: seq<Pair<string, string>>)
    ensures forall a :: a in Actions(status) <==> exists i :: 0 <= i < |status| && ActionFor(status[i]) == Some(a)
    ensures |Actions(status)| <= |status|
  {
    if status != [] {
      var p := status[..|status| - 1];
      ActionsSpec(p);
      assert forall i :: 0 <= i < |p| ==> p[i] == status[i];
    }
  }

  /** Actions keep the statuses' order: the plan for two runs of statuses is the plan for
      the first followed by the plan for the second. */
  lemma {:induction false} ActionsAppend(s: seq<Pair<string, string>>, t: seq<Pair<string, string>>)
    ensures Actions(s + t) == Actions(s) + Actions(t)
    decreases |t|
  {
    if t == [] {
      assert s + t == s;
    } else {
      var t' := t[..|t| - 1];
      assert (s + t)[..|s + t| - 1] == s + t';
      assert (s + t)[|s + t| - 1] == t[|t| - 1];
      ActionsAppend(s, t');
    }
  }

  /** The priority is high exactly when some product is low on stock. */
  lemma {:induction false} PrioritySpec(status: seq<Pair<string, string>>)
    ensures Priority(status) == "high" <==> exists i :: 0 <= i < |status| && status[i].val == LowStock
    ensures Priority(status) == "high" || Priority(status) == "normal"
  {
    if status != [] {
      var p := status[..|status| - 1];
      PrioritySpec(p);
      assert forall i :: 0 <= i < |p| ==> p[i] == status[i];
    }
  }

  // ---------------------------------------------------------------- execution and review

  /** One executed action and its outcome. */
  datatype Executed = Executed(action: PlanAction, status: string)

  /** An execution report without its timestamps. */
  datatype Execution = Execution(status: string, actionsExecuted: seq<Executed>)

  /** One alert raised for an action that did not succeed. */
  datatype Alert = Alert(alertType: string, actionId: string)

  /** A monitoring report: its (empty) metrics and its alerts. */
  datatype Monitoring = Monitoring(metrics: PyDict, alerts: seq<Alert>)

  /** One suggested improvement. */
  datatype Suggestion = Suggestion(suggestionType: string, description: string)

  /** An evaluation: the metrics and the suggestions. */
  datatype Evaluation = Evaluation(metrics: PyDict, suggestions: seq<Suggestion>)

  /** The alerts for an execution report: one per action that did not succeed, in order. */
  function Alerts(executed: seq<Executed>): seq<Alert> {
    if executed == [] then []
    else
      var last := executed[|executed| - 1];
      Alerts(executed[..|executed| - 1])
      + (if last.status != "success" then [Alert("action_failed", last.action.productId)] else [])
  }

  /** There is an alert exactly when some action did not succeed, and never more alerts
      than actions. */
  lemma {:induction false} AlertsSpec(executed: seq<Executed>)
    ensures Alerts(executed) == [] <==> forall i :: 0 <= i < |executed| ==> executed[i].status == "success"
    ensures |Alerts(executed)| <= |executed|
  {
    if executed != [] {
      var p := executed[..|executed| - 1];
      AlertsSpec(p);
      assert forall i :: 0 <= i < |p| ==> p[i] == executed[i];
    }
  }

  const Improvement: Suggestion := Suggestion("process_improvement", "Review and optimize action execution process")

  /** `evaluate_performance`: the (constant) metrics, and one suggestion when and only when
      monitoring raised an alert. */
  function EvaluatePerformance(monitoring: Monitoring): (e: Evaluation)
    ensures e.metrics == CalculateMetrics(monitoring)
    ensures e.suggestions == [] <==> monitoring.alerts == []
    ensures |e.suggestions| <= 1 && forall s :: s in e.suggestions ==> s == Improvement
  {
    Evaluation(CalculateMetrics(monitoring), if monitoring.alerts != [] then [Improvement] else [])
  }

  class PlanExecutor {
    const lowStock: int
    const highStock: int
    const reorderPoint: int
    var planHistory: seq<Plan>

    /** `PlanExecutor(config)`: a manager with the configured thresholds (by default
        `DefaultLowStock`, `DefaultHighStock` and `DefaultReorderPoint`) and no plans yet. */
    constructor(lowStock: int, highStock: int, reorderPoint: int)
      ensures this.lowStock == lowStock && this.highStock == highStock && this.reorderPoint == reorderPoint
      ensures planHistory == []
    {
      this.lowStock := lowStock;
      this.highStock := highStock;
      this.reorderPoint := reorderPoint;
      planHistory := [];
    }

    /** `analyze_inventory(data)`: data missing a required field is refused with
        `ValueError`; otherwise the metrics and the status of every numeric entry. */
    method AnalyzeInventory(data: PyDict) returns (r: Result<Analysis, string>)
      ensures !ValidateInventoryData(data) ==> r == Err(InvalidInventory)
      ensures ValidateInventoryData(data) ==>
                r == Ok(Analysis(CalculateMetrics(data), Statuses(data, lowStock, highStock, reorderPoint)))
    {
      if !ValidateInventoryData(data) {
        return Err(InvalidInventory);
      }
      var status: seq<Pair<string, string>> := [];
      var i := 0;
      while i < |data|
        invariant 0 <= i <= |data|
        invariant status == Statuses(data[..i], lowStock, highStock, reorderPoint)
      {
        assert data[..i + 1][..i] == data[..i];
        var entry := data[i];
        if IsNumber(entry.val) {
          if AtMost(entry.val, lowStock) {
            status := Put(status, entry.key, LowStock);
          } else if AtLeast(entry.val, highStock) {
            status := Put(status, entry.key, Overstocked);
          } else if AtMost(entry.val, reorderPoint) {
            status := Put(status, entry.key, ReorderNeeded);
          } else {
            status := Put(status, entry.key, Optimal);
          }
        }
        i := i + 1;
      }
      assert data[..i] == data;
      r := Ok(Analysis(CalculateMetrics(data), status));
    }

    /** `generate_plan(analysis)`: one action per status that calls for one, a priority
        raised by low stock, and the plan appended to the history. */
    method GeneratePlan(analysis: Analysis) returns (plan: Plan)
      modifies this
      ensures plan == Plan(Actions(analysis.status), Priority(analysis.status))
      ensures planHistory == old(planHistory) + [plan]
    {
      var status := analysis.status;
      var actions: seq<PlanAction> := [];
      var priority := "normal";
      var i := 0;
      while i < |status|
        invariant 0 <= i <= |status|
        invariant actions == Actions(status[..i]) && priority == Priority(status[..i])
      {
        assert status[..i + 1][..i] == status[..i];
        var entry := status[i];
        if entry.val == LowStock {
          actions := actions + [PlanAction("restock", entry.key, "high")];
          priority := "high";
        } else if entry.val == Overstocked {
          actions := actions + [PlanAction("clearance", entry.key, "medium")];
        } else if entry.val == ReorderNeeded {
          actions := actions + [PlanAction("reorder", entry.key, "medium")];
        }
        i := i + 1;
      }
      assert status[..i] == status;
      plan := Plan(actions, priority);
      planHistory := planHistory + [plan];
    }

    /** `execute_plan(plan)`: completed, with every action recorded as a success, in order. */
    method ExecutePlan(plan: Plan) returns (result: Execution)
      ensures result.status == "completed"
      ensures |result.actionsExecuted| == |plan.actions|
      ensures forall i :: 0 <= i < |plan.actions| ==> result.actionsExecuted[i] == Executed(plan.actions[i], "success")
    {
      var executed: seq<Executed> := [];
      var i := 0;
      while i < |plan.actions|
        invariant 0 <= i <= |plan.actions|
        invariant |executed| == i
        invariant forall j :: 0 <= j < i ==> executed[j] == Executed(plan.actions[j], "success")
      {
        executed := executed + [Executed(plan.actions[i], "success")];
        i := i + 1;
      }
      result := Execution("completed", executed);
    }

    /** `monitor_execution(execution)`: empty metrics and one alert per failed action. */
    method MonitorExecution(execution: Execution) returns (m: Monitoring)
      ensures m == Monitoring([], Alerts(execution.actionsExecuted))
    {
      var executed := execution.actionsExecuted;
      var alerts: seq<Alert> := [];
      var i := 0;
      while i < |executed|
        invariant 0 <= i <= |executed|
        invariant alerts == Alerts(executed[..i])
      {
        assert executed[..i + 1][..i] == executed[..i];
        if executed[i].status != "success" {
          alerts := alerts + [Alert("action_failed", executed[i].action.productId)];
        }
        i := i + 1;
      }
      assert executed[..i] == executed;
      m := Monitoring([], alerts);
    }
  }

  /** Executing a plan never raises an alert, so evaluating it suggests nothing. */
  lemma ExecutedPlanIsQuiet(plan: Plan, result: Execution)
    requires |result.actionsExecuted| == |plan.actions|
    requires forall i :: 0 <= i < |plan.actions| ==> result.actionsExecuted[i] == Executed(plan.actions[i], "success")
    ensures Alerts(result.actionsExecuted) == []
    ensures EvaluatePerformance(Monitoring([], Alerts(result.actionsExecuted))).suggestions == []
  {
    AlertsSpec(result.actionsExecuted);
  }
}
