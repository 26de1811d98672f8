/**
 * The function registry (agents/function_caller/core.py): two dictionaries kept in step,
 * one from names to functions and one from names to schemas, and the call path that
 * checks, sanitises and invokes under the three-attempt retry wrapper.
 */
module FunctionCallerCore {
  import opened Wrappers
  import opened PyValues
  import opened FunctionCallerUtils

  /** A registered function, called with keyword arguments: it returns a value or raises an
      exception, given here by its message (`str(e)`). */
  type Fn = PyDict -> Result<Value, string>

  /** The attempts `call_function`'s retry decorator allows. */
  const CallAttempts: int := 3

  function NotRegistered(name: string): string {
    "Function " + name + " not registered"
  }

  function InvalidParameters(name: string): string {
    "Invalid parameters for function " + name
  }

  /** `{'status': 'success', 'result': result}`. */
  function Success(result: Value): Value {
    Dict([Pair("status", Str("success")), Pair("result", result)])
  }

  /** `{'status': 'error', 'error': str(e)}`. */
  function Failure(message: string): Value {
    Dict([Pair("status", Str("error")), Pair("error", Str(message))])
  }

  /**
   * One run of the undecorated `call_function` body against the registry's dictionaries:
   * an unregistered name or parameters that fail the schema raise `ValueError` (`Err`);
   * otherwise the function runs on the sanitised parameters and whatever it does becomes
   * a status dictionary.
   */
  function CallOnce(functions: seq<Pair<string, Fn>>, schemas: seq<Pair<string, Schema>>, name: string, params: PyDict): Result<Value, string> {
    match Get(functions, name)
    case None => Err(NotRegistered(name))
    case Some(f) =>
      match Get(schemas, name)
      case None => Err("'" + name + "'")
      case Some(schema) =>
        if !ValidateFunctionInput(params, schema) then Err(InvalidParameters(name))
        else match f(SanitizeInput(params))
          case Ok(result) => Ok(Success(result))
          case Err(message) => Ok(Failure(message))
  }

  /** `validate_schema`: both `'parameters'` and `'returns'` are keys of the schema. */
  predicate ValidateSchema(schema: Schema) {
    "parameters" in Keys(schema) && "returns" in Keys(schema)
  }

  /** Setting a key never makes a valid schema invalid; keys other than the two required
      ones never decide the answer; and a schema lacking either one is refused. */
  lemma ValidateSchemaSpec(schema: Schema, k: string, v: FieldSpec)
    ensures ValidateSchema(schema) ==> ValidateSchema(Put(schema, k, v))
    ensures k != "parameters" && k != "returns" ==> (ValidateSchema(Put(schema, k, v)) <==> ValidateSchema(schema))
    ensures ValidateSchema(Put(schema, k, v)) ==> ValidateSchema(schema) || k == "parameters" || k == "returns"
    ensures !ValidateSchema([Pair(k, v)]) && !ValidateSchema([])
  {
    PutKeys(schema, k, v);
    assert Keys([Pair(k, v)]) == [k];
  }

  class FunctionCaller {
    var registeredFunctions: seq<Pair<string, Fn>>
    var functionSchemas: seq<Pair<string, Schema>>

    /** The two dictionaries hold the same names in the same order, each once. */
    ghost predicate Valid()
      reads this
    {
      Keys(registeredFunctions) == Keys(functionSchemas) && DistinctKeys(registeredFunctions)
    }

    constructor()
      ensures Valid() && registeredFunctions == [] && functionSchemas == []
    {
      registeredFunctions := [];
      functionSchemas := [];
    }

    /** `get_registered_functions`: the names, in first-registration order. */
    function GetRegisteredFunctions(): (names: seq<string>)
      reads this
      ensures |names| == |registeredFunctions|
    {
      Keys(registeredFunctions)
    }

    /** `get_function_schema`: the schema stored under `name`, if any. */
    function GetFunctionSchema(name: string): (r: Option<Schema>)
      reads this
      requires Valid()
      ensures r.Some? <==> name in GetRegisteredFunctions()
    {
      GetSpec(functionSchemas, name);
      Get(functionSchemas, name)
    }

    /** `register_function`: the last registration of a name wins, a new name is listed
        last, an existing one keeps its place, and every other name is untouched. The
        schema is stored as given; `validate_schema` is not consulted. */
    method RegisterFunction(name: string, f: Fn, schema: Schema)
      requires Valid()
      modifies this
      ensures Valid()
      ensures registeredFunctions == Put(old(registeredFunctions), name, f)
      ensures functionSchemas == Put(old(functionSchemas), name, schema)
      ensures GetRegisteredFunctions() ==
                if name in old(GetRegisteredFunctions()) then old(GetRegisteredFunctions())
                else old(GetRegisteredFunctions()) + [name]
      ensures GetFunctionSchema(name) == Some(schema) && Get(registeredFunctions, name) == Some(f)
      ensures forall other :: other != name ==>
                GetFunctionSchema(other) == old(GetFunctionSchema(other))
                && Get(registeredFunctions, other) == Get(old(registeredFunctions), other)
    {
      PutKeys(registeredFunctions, name, f);
      PutDistinct(registeredFunctions, name, f);
      PutKeys(functionSchemas, name, schema);
      PutGet(registeredFunctions, name, f, name);
      PutGet(functionSchemas, name, schema, name);
      forall other | other != name
        ensures Get(Put(functionSchemas, name, schema), other) == Get(functionSchemas, other)
        ensures Get(Put(registeredFunctions, name, f), other) == Get(registeredFunctions, other)
      {
        PutGet(registeredFunctions, name, f, other);
        PutGet(functionSchemas, name, schema, other);
      }
      registeredFunctions := Put(registeredFunctions, name, f);
      functionSchemas := Put(functionSchemas, name, schema);
    }

    /** `await call_function(name, params)`, with the number of attempts the retry
        wrapper made: the value returned or the `ValueError` message raised. */
    method CallFunction(name: string, params: PyDict) returns (r: Result<Value, string>, attempts: nat)
      requires Valid()
      ensures var once := CallOnce(registeredFunctions, functionSchemas, name, params);
              attempts == (if once.Ok? then 1 else CallAttempts) && r == once
    {
      var functions := registeredFunctions;
      var schemas := functionSchemas;
      var outcome, calls := RetryOnFailure(CallAttempts, (k: nat) => CallOnce(functions, schemas, name, params));
      RetrySpec(CallAttempts, (k: nat) => CallOnce(functions, schemas, name, params));
      var once := CallOnce(functions, schemas, name, params);
      if once.Err? {
        RetryAlwaysFails(CallAttempts, (k: nat) => CallOnce(functions, schemas, name, params), once.error);
      }
      attempts := calls;
      r := if outcome.Ok? then Ok(outcome.value.value) else Err(outcome.error);
    }

    /** An unregistered name is refused before any function runs (and, through the retry
        wrapper, refused three times). */
    lemma CallUnregistered(name: string, params: PyDict)
      requires Valid() && name !in GetRegisteredFunctions()
      ensures CallOnce(registeredFunctions, functionSchemas, name, params) == Err(NotRegistered(name))
    {
      GetSpec(registeredFunctions, name);
    }

    /** A registered name has its function and its schema. Parameters the schema rejects are
        refused without running the function; otherwise the function runs once on the
        sanitised parameters, and an exception it raises is returned as an error status
        rather than raised, so it is never retried. */
    lemma CallRegistered(name: string, params: PyDict)
      requires Valid() && name in GetRegisteredFunctions()
      ensures Get(registeredFunctions, name).Some? && GetFunctionSchema(name).Some?
      ensures var f := Get(registeredFunctions, name).value;
              var schema := GetFunctionSchema(name).value;
              var once := CallOnce(registeredFunctions, functionSchemas, name, params);
              (!ValidateFunctionInput(params, schema) ==> once == Err(InvalidParameters(name)))
              && (ValidateFunctionInput(params, schema) ==>
                    once == Ok(match f(SanitizeInput(params))
                               case Ok(result) => Success(result)
                               case Err(message) => Failure(message)))
    {
      GetSpec(registeredFunctions, name);
    }
  }

  /** A schema in the documented shape, whose `'parameters'` entry is a description
      rather than a type, can never accept a call: `isinstance` raises on it, and the
      check answers `False`. */
  lemma DocumentedSchemaRejectsAll(schema: Schema, params: PyDict, description: Value)
    requires ValidateSchema(schema) && Get(schema, "parameters") == Some(NotAType(description))
    ensures !ValidateFunctionInput(params, schema)
  {
    GetSpec(schema, "parameters");
    var i :| 0 <= i < |schema| && schema[i] == Pair("parameters", NotAType(description));
    assert !FieldOk(params, schema[i]);
  }
}
