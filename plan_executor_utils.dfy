/**
 * The inventory helpers (agents/plan_executor/utils.py): the required-field check on
 * inventory data and the metrics dictionary, whose calculations are not written yet.
 */
module PlanExecutorUtils {
  import opened PyValues

  const RequiredInventoryFields: seq<string> := ["product_id", "quantity", "location"]

  /** `validate_inventory_data`: every required field is a key of the data. */
  predicate ValidateInventoryData(data: PyDict) {
    forall field :: field in RequiredInventoryFields ==> field in Keys(data)
  }

  /** Adding a key, or changing a value, never turns valid data invalid, and keys other
      than the three required ones never decide the answer. */
  lemma ValidateInventoryIgnoresExtraKeys(data: PyDict, key: string, v: Value)
    requires key !in RequiredInventoryFields
    ensures ValidateInventoryData(Put(data, key, v)) <==> ValidateInventoryData(data)
  {
    PutKeys(data, key, v);
  }

  /** The three fields alone are enough. */
  lemma ValidateInventoryMinimal(productId: Value, quantity: Value, location: Value)
    ensures ValidateInventoryData([Pair("product_id", productId), Pair("quantity", quantity), Pair("location", location)])
  {
    var d := [Pair("product_id", productId), Pair("quantity", quantity), Pair("location", location)];
    assert Keys(d) == ["product_id", "quantity", "location"] by {
      assert Keys(d[2..]) == ["location"];
      assert Keys(d[1..]) == ["quantity", "location"];
    }
  }

  const MetricNames: seq<string> := ["stock_turnover", "order_fulfillment_rate", "inventory_accuracy"]

  /** `calculate_metrics(data)`: the three metrics, each `0.0`, whatever the data. */
  function CalculateMetrics<T>(data: T): (metrics: PyDict)
    ensures Keys(metrics) == MetricNames
    ensures forall i :: 0 <= i < |metrics| ==> metrics[i].val == Float(Finite(0.0))
  {
    var zero := Float(Finite(0.0));
    var m := [Pair("stock_turnover", zero), Pair("order_fulfillment_rate", zero), Pair("inventory_accuracy", zero)];
    assert Keys(m[2..]) == ["inventory_accuracy"];
    assert Keys(m[1..]) == ["order_fulfillment_rate", "inventory_accuracy"];
    m
  }
}
