/**
 * The function caller's helpers (agents/function_caller/utils.py): the retry decorator,
 * the schema check on keyword arguments and the recursive input sanitiser.
 */
module FunctionCallerUtils {
  import opened Wrappers
  import opened Text
  import opened PyValues

  // ---------------------------------------------------------------- retry_on_failure

  /** The result of a wrapped call, with the number of times the wrapped function ran.
      `Ok(Some(v))` is a returned value, `Ok(None)` the `None` returned when no attempt
      was made, and `Err(e)` the re-raised exception of the last attempt. */
  datatype Retried<T, E> = Retried(result: Result<Option<T>, E>, calls: nat)

  /** The attempts from number `k` on; `attempt(k)` is what the `k`-th call returns or raises. */
  function RetryFrom<T, E>(maxRetries: int, attempt: nat -> Result<T, E>, k: nat): Retried<T, E>
    decreases maxRetries - k
  {
    if k >= maxRetries then Retried(Ok(None), k)
    else match attempt(k)
      case Ok(v) => Retried(Ok(Some(v)), k + 1)
      case Err(e) => if k == maxRetries - 1 then Retried(Err(e), k + 1) else RetryFrom(maxRetries, attempt, k + 1)
  }

  /** The decorated call: `RetryFrom` from the first attempt. */
  function Retry<T, E>(maxRetries: int, attempt: nat -> Result<T, E>): Retried<T, E> {
    RetryFrom(maxRetries, attempt, 0)
  }

  /** The wrapper `retry_on_failure(max_retries)` puts around a function. */
  method RetryOnFailure<T, E>(maxRetries: int, attempt: nat -> Result<T, E>) returns (r: Result<Option<T>, E>, calls: nat)
    ensures Retried(r, calls) == Retry(maxRetries, attempt)
  {
    calls := 0;
    var k: nat := 0;
    while k < maxRetries
      invariant calls == k && (k == 0 || k <= maxRetries)
      invariant RetryFrom(maxRetries, attempt, k) == Retry(maxRetries, attempt)
      decreases maxRetries - k
    {
      var outcome := attempt(k);
      calls := calls + 1;
      if outcome.Ok? {
        return Ok(Some(outcome.value)), calls;
      }
      if k == maxRetries - 1 {
        return Err(outcome.error), calls;
      }
      k := k + 1;
    }
    r := Ok(None);
  }

  /** The attempts from `k` on, stated without reference to how they are computed. */
  lemma {:induction false} RetryFromSpec<T, E>(maxRetries: int, attempt: nat -> Result<T, E>, k: nat)
    requires k < maxRetries
    ensures var r := RetryFrom(maxRetries, attempt, k);
            k < r.calls <= maxRetries
            && (forall j: nat :: k <= j < r.calls - 1 ==> attempt(j).Err?)
            && (r.result.Ok? ==> r.result.value.Some? && attempt(r.calls - 1) == Ok(r.result.value.value))
            && (r.result.Err? ==> r.calls == maxRetries && attempt(r.calls - 1) == Err(r.result.error))
    decreases maxRetries - k
  {
    if attempt(k).Err? && k < maxRetries - 1 {
      RetryFromSpec(maxRetries, attempt, k + 1);
    }
  }

  /** `retry_on_failure`: with no allowed attempt the function never runs and the wrapper
      returns `None`; otherwise it runs at most `max_retries` times, every run before the
      last one failed, a success is returned at once, and a failure of the last allowed
      attempt is re-raised unchanged. */
  lemma RetrySpec<T, E>(maxRetries: int, attempt: nat -> Result<T, E>)
    ensures var r := Retry(maxRetries, attempt);
            (maxRetries <= 0 ==> r == Retried(Ok(None), 0))
            && (maxRetries > 0 ==>
                  1 <= r.calls <= maxRetries
                  && (forall j: nat :: j < r.calls - 1 ==> attempt(j).Err?)
                  && (r.result.Ok? ==> r.result.value.Some? && attempt(r.calls - 1) == Ok(r.result.value.value))
                  && (r.result.Err? ==> r.calls == maxRetries && attempt(maxRetries - 1) == Err(r.result.error)))
  {
    if maxRetries > 0 {
      RetryFromSpec(maxRetries, attempt, 0);
    }
  }

  /** A function that raises the same exception every time is run exactly `max_retries`
      times, and that exception comes out. */
  lemma RetryAlwaysFails<T, E>(maxRetries: int, attempt: nat -> Result<T, E>, e: E)
    requires maxRetries > 0 && forall j: nat :: attempt(j) == Err(e)
    ensures Retry(maxRetries, attempt) == Retried(Err(e), maxRetries)
  {
    RetrySpec(maxRetries, attempt);
  }

  // ---------------------------------------------------------------- validate_function_input

  /** What a schema can name as a field's type: a built-in type, a user class by name, or
      a tuple of these, which `isinstance` accepts when any member does. */
  datatype PyType =
    | StrType | IntType | FloatType | BoolType | DictType | ListType | NoneType | ObjectType
    | ClassType(name: string)
    | TupleOf(types: seq<PyType>)

  /** A schema value: a type, or any other object (for which `isinstance` raises `TypeError`). */
  datatype FieldSpec = IsA(t: PyType) | NotAType(v: Value)

  type Schema = seq<Pair<string, FieldSpec>>

  /** An object whose class is `name` or derives from it. */
  predicate Derives(v: Value, name: string) {
    v.Other? && name in v.classes
  }

  /** `isinstance(v, t)`; `bool` is a subclass of `int`, every value is an `object`, an
      object is an instance of its class and of every class it derives from (a user
      subclass of `str`, `int`, `float`, `dict` or `list` included; `bool` and `NoneType`
      cannot be subclassed), and a tuple matches when one of its types does. */
  predicate IsInstance(v: Value, t: PyType) {
    match t
    case StrType => v.Str? || Derives(v, "str")
    case IntType => v.Int? || v.Bool? || Derives(v, "int")
    case FloatType => v.Float? || Derives(v, "float")
    case BoolType => v.Bool?
    case DictType => v.Dict? || Derives(v, "dict")
    case ListType => v.List? || Derives(v, "list")
    case NoneType => v.PyNone?
    case ObjectType => true
    case ClassType(name) => Derives(v, name)
    case TupleOf(ts) => exists i :: 0 <= i < |ts| && IsInstance(v, ts[i])
  }

  /** One schema entry is satisfied: the field is present with a value of the named type.
      A value that is not a type makes `isinstance` raise, which the check turns into `False`. */
  predicate FieldOk(data: PyDict, field: Pair<string, FieldSpec>) {
    match Get(data, field.key)
    case None => false
    case Some(v) => field.val.IsA? && IsInstance(v, field.val.t)
  }

  /** `validate_function_input(data, schema)`: the fields are checked in schema order and the
      first failure answers `False`. */
  function ValidateFunctionInput(data: PyDict, schema: Schema): (ok: bool)
    ensures ok <==> forall i :: 0 <= i < |schema| ==> FieldOk(data, schema[i])
  {
    if schema == [] then true
    else FieldOk(data, schema[0]) && ValidateFunctionInput(data, schema[1..])
  }

  /** Keys outside the schema never matter: adding or overwriting one keeps the verdict. */
  lemma ValidateIgnoresExtraKeys(data: PyDict, schema: Schema, k: string, v: Value)
    requires k !in Keys(schema)
    ensures ValidateFunctionInput(Put(data, k, v), schema) == ValidateFunctionInput(data, schema)
  {
    forall i | 0 <= i < |schema|
      ensures FieldOk(Put(data, k, v), schema[i]) == FieldOk(data, schema[i])
    {
      assert Keys(schema)[i] == schema[i].key;
      PutGet(data, k, v, schema[i].key);
    }
  }

  /** `bool` values pass an `int` field, and `int` values do not pass a `float` field. */
  lemma BoolPassesIntField(name: string, b: bool, i: int)
    ensures ValidateFunctionInput([Pair(name, Bool(b))], [Pair(name, IsA(IntType))])
    ensures !ValidateFunctionInput([Pair(name, Int(i))], [Pair(name, IsA(FloatType))])
  {
    assert FieldOk([Pair(name, Int(i))], Pair(name, IsA(FloatType))) == false;
  }

  /** A field typed `(int, float)` takes integers and floats, and still refuses text; a
      field typed by a user class takes the objects of that class and of its subclasses,
      and a field typed `int` takes an instance of a user subclass of `int`. */
  lemma TupleAndClassFields(name: string, i: int, f: FloatVal, s: string, id: nat, classes: seq<string>)
    requires |classes| > 0
    ensures var number := IsA(TupleOf([IntType, FloatType]));
            ValidateFunctionInput([Pair(name, Int(i))], [Pair(name, number)])
            && ValidateFunctionInput([Pair(name, Float(f))], [Pair(name, number)])
            && !ValidateFunctionInput([Pair(name, Str(s))], [Pair(name, number)])
    ensures ValidateFunctionInput([Pair(name, Other(id, classes, true, true))], [Pair(name, IsA(ClassType(classes[|classes| - 1])))])
    ensures ValidateFunctionInput([Pair(name, Other(id, classes + ["int", "object"], true, true))], [Pair(name, IsA(IntType))])
  {
    assert (classes + ["int", "object"])[|classes|] == "int";
    var number := TupleOf([IntType, FloatType]);
    assert IsInstance(Int(i), number.types[0]);
    assert IsInstance(Float(f), number.types[1]);
    forall k | 0 <= k < |number.types| ensures !IsInstance(Str(s), number.types[k]) {
      assert number.types[k] in {IntType, FloatType};
    }
    assert !IsInstance(Str(s), number);
  }

  // ---------------------------------------------------------------- sanitize_input

  /** The sanitised form of one value: strings stripped, numbers and booleans kept, dicts
      and lists sanitised inside, anything else (including `None`) replaced by `None`. */
  function SanitizeValue(v: Value): Value
    decreases v, 2
  {
    match v
    case Str(s) => Str(Strip(s))
    case Int(_) => v
    case Float(_) => v
    case Bool(_) => v
    case Dict(es) => Dict(SanitizeInput(es))
    case List(xs) => List(SanitizeList(xs))
    case _ => PyNone
  }

  /** One `sanitized[key] = ...` step. */
  function SanitizeEntry(p: Pair<string, Value>): (r: Pair<string, Value>)
    ensures r.key == p.key
    decreases p, 1
  {
    Pair(p.key, SanitizeValue(p.val))
  }

  /** `sanitize_input(data)`: a fresh dict with the same keys in the same order. */
  function SanitizeInput(data: PyDict): (r: PyDict)
    ensures Keys(r) == Keys(data)
    decreases data, 0
  {
    if data == [] then [] else [SanitizeEntry(data[0])] + SanitizeInput(data[1..])
  }

  /** The list comprehension, element by element (`SanitizeItem` shows that passing each
      element through `sanitize_input({"item": v})["item"]` is sanitising it). */
  function SanitizeList(xs: seq<Value>): (r: seq<Value>)
    ensures |r| == |xs|
    decreases xs, 0
  {
    if xs == [] then [] else [SanitizeValue(xs[0])] + SanitizeList(xs[1..])
  }

  /** Wrapping a list element in `{"item": v}`, sanitising and unwrapping gives the
      element's own sanitised form. */
  lemma SanitizeItem(v: Value)
    ensures Get(SanitizeInput([Pair("item", v)]), "item") == Some(SanitizeValue(v))
  {
  }

  /** Each key keeps its slot and maps to its value sanitised. */
  lemma {:induction false} SanitizeInputGet(data: PyDict, k: string)
    ensures Get(SanitizeInput(data), k) == match Get(data, k) case None => None case Some(v) => Some(SanitizeValue(v))
  {
    if data != [] {
      SanitizeInputGet(data[1..], k);
    }
  }

  /** A list keeps its length and each element is sanitised on its own. */
  lemma {:induction false} SanitizeListAt(xs: seq<Value>, i: nat)
    requires i < |xs|
    ensures SanitizeList(xs)[i] == SanitizeValue(xs[i])
  {
    if i > 0 {
      SanitizeListAt(xs[1..], i - 1);
    }
  }

  /** What a sanitised value looks like: strings without surrounding whitespace, and no
      objects other than numbers, booleans, strings, dicts, lists and `None`, at any depth. */
  predicate Clean(v: Value)
    decreases v, 2
  {
    match v
    case Str(s) => Strip(s) == s
    case Dict(es) => CleanEntries(es)
    case List(xs) => CleanList(xs)
    case Other(_, _, _, _) => false
    case _ => true
  }

  predicate CleanEntry(p: Pair<string, Value>)
    decreases p, 1
  {
    Clean(p.val)
  }

  predicate CleanEntries(es: PyDict)
    decreases es, 0
  {
    es == [] || (CleanEntry(es[0]) && CleanEntries(es[1..]))
  }

  predicate CleanList(xs: seq<Value>)
    decreases xs, 0
  {
    xs == [] || (Clean(xs[0]) && CleanList(xs[1..]))
  }

  /** Sanitising always yields a clean value, and leaves a clean value as it is. */
  lemma {:induction false} SanitizeValueClean(v: Value)
    ensures Clean(SanitizeValue(v))
    ensures Clean(v) ==> SanitizeValue(v) == v
    decreases v, 2
  {
    match v
    case Str(s) => StripIdempotent(s);
    case Dict(es) => SanitizeInputClean(es);
    case List(xs) => SanitizeListClean(xs);
    case _ =>
  }

  lemma {:induction false} SanitizeEntryClean(p: Pair<string, Value>)
    ensures CleanEntry(SanitizeEntry(p))
    ensures CleanEntry(p) ==> SanitizeEntry(p) == p
    decreases p, 1
  {
    SanitizeValueClean(p.val);
  }

  lemma {:induction false} SanitizeInputClean(es: PyDict)
    ensures CleanEntries(SanitizeInput(es))
    ensures CleanEntries(es) ==> SanitizeInput(es) == es
    decreases es, 0
  {
    if es != [] {
      SanitizeEntryClean(es[0]);
      SanitizeInputClean(es[1..]);
      assert SanitizeInput(es)[1..] == SanitizeInput(es[1..]);
    }
  }

  lemma {:induction false} SanitizeListClean(xs: seq<Value>)
    ensures CleanList(SanitizeList(xs))
    ensures CleanList(xs) ==> SanitizeList(xs) == xs
    decreases xs, 0
  {
    if xs != [] {
      SanitizeValueClean(xs[0]);
      SanitizeListClean(xs[1..]);
      assert SanitizeList(xs)[1..] == SanitizeList(xs[1..]);
    }
  }

  /** Sanitising twice is sanitising once. */
  lemma SanitizeIdempotent(data: PyDict)
    ensures SanitizeInput(SanitizeInput(data)) == SanitizeInput(data)
  {
    SanitizeInputClean(data);
    SanitizeInputClean(SanitizeInput(data));
  }
}
