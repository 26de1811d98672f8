/**
 * The open-agent helpers (agents/open_agents/utils.py): building a tool description,
 * splitting a task, checking a tool's answer, and the agent's memory list, which
 * `update_memory` appends to in place before returning at most 1000 items of it.
 */
module OpenAgentsUtils {
  import opened Wrappers
  import opened PyValues

  /** The most items `update_memory` hands back. */
  const MemoryLimit: nat := 1000

  /** A field of a tool description: text, or the callable itself. */
  datatype ToolField<F> = Text(s: string) | Callable(f: F)

  /** `create_tool(name, description, func)`: a dictionary with exactly the three fields. */
  function CreateTool<F>(name: string, description: string, func: F): (tool: seq<Pair<string, ToolField<F>>>)
    ensures Keys(tool) == ["name", "description", "function"]
    ensures Get(tool, "name") == Some(Text(name))
    ensures Get(tool, "description") == Some(Text(description))
    ensures Get(tool, "function") == Some(Callable(func))
  {
    var t := [Pair("name", Text(name)), Pair("description", Text(description)), Pair("function", Callable(func))];
    assert Keys(t[2..]) == ["function"];
    assert Keys(t[1..]) == ["description", "function"];
    assert Get(t[2..], "function") == Some(Callable(func));
    assert Get(t[1..], "description") == Some(Text(description));
    assert Get(t[1..], "function") == Some(Callable(func));
    t
  }

  /** `parse_task(task)`: for now the task is its own single subtask. */
  function ParseTask(task: string): (subtasks: seq<string>) {
    [task]
  }

  /** Joining the subtasks in order gives back the task, and there is at least one. */
  lemma ParseTaskRoundTrip(task: string)
    ensures |ParseTask(task)| >= 1
    ensures Join(ParseTask(task)) == task
  {
    assert Join(ParseTask(task)[1..]) == "";
  }

  /** The subtasks laid end to end. */
  function Join(parts: seq<string>): string {
    if parts == [] then "" else parts[0] + Join(parts[1..])
  }

  /** `validate_tool_result(result)`: `bool(result)`, so any text but the empty one. */
  predicate ValidateToolResult(result: string) {
    result != []
  }

  /** A result passes exactly when Python's `bool` holds for it as a string, that is when
      it is not empty; the empty result fails, and text added to a passing result keeps it
      passing. */
  lemma ValidateToolResultSpec(result: string, more: string)
    ensures ValidateToolResult(result) <==> Truthy(Str(result))
    ensures ValidateToolResult(result) <==> |result| > 0
    ensures !ValidateToolResult("")
    ensures ValidateToolResult(result) ==> ValidateToolResult(result + more)
  {
    assert |result + more| == |result| + |more|;
  }

  /** `create_memory_store(memory_type, size)`: an empty list, whatever is asked for. */
  function CreateMemoryStore<T>(memoryType: string, size: int): (store: seq<T>)
    ensures |store| == 0
  {
    []
  }

  /** The caller's memory list, which `update_memory` changes in place. */
  class Memory<T> {
    var items: seq<T>

    constructor(items: seq<T>)
      ensures this.items == items
    {
      this.items := items;
    }
  }

  /** What `update_memory` returns after the append: `memory[:1000]`, the oldest items. */
  function KeptAsWritten<T>(items: seq<T>): (kept: seq<T>)
    ensures |kept| == if |items| < MemoryLimit then |items| else MemoryLimit
  {
    Slice(items, 0, MemoryLimit)
  }

  /** `update_memory(memory, item)` as written: the item is appended to the caller's list,
      which is never shortened, and the first 1000 items are returned. */
  method UpdateMemory<T>(memory: Memory<T>, item: T) returns (kept: seq<T>)
    modifies memory
    ensures memory.items == old(memory.items) + [item]
    ensures kept == KeptAsWritten(memory.items)
  {
    memory.items := memory.items + [item];
    kept := Slice(memory.items, 0, MemoryLimit);
  }

  /** The returned list is the start of the memory, and once the memory holds 1000 items
      it no longer changes: the newest item is dropped, not the oldest. */
  lemma KeptAsWrittenSpec<T>(items: seq<T>, item: T)
    ensures KeptAsWritten(items) == items[..|KeptAsWritten(items)|]
    ensures |items| >= MemoryLimit ==> KeptAsWritten(items + [item]) == KeptAsWritten(items)
  {
    SlicePrefix(items, MemoryLimit);
    SlicePrefix(items + [item], MemoryLimit);
    if |items| >= MemoryLimit {
      assert (items + [item])[..MemoryLimit] == items[..MemoryLimit];
    }
  }

  /** With 1000 zeros stored, remembering a 1 returns a list without it. */
  lemma KeptAsWrittenLosesNewest()
    ensures 1 !in KeptAsWritten(seq(MemoryLimit, i => 0) + [1])
  {
    var items := seq(MemoryLimit, i => 0);
    KeptAsWrittenSpec(items, 1);
    SlicePrefix(items, MemoryLimit);
    assert KeptAsWritten(items) == items;
  }

  /** What the comment means to return: the last 1000 items. */
  function KeptLast<T>(items: seq<T>): (kept: seq<T>)
    ensures |kept| == if |items| < MemoryLimit then |items| else MemoryLimit
  {
    if |items| <= MemoryLimit then items else items[|items| - MemoryLimit..]
  }

  /** `update_memory` returning the newest 1000 items. */
  method UpdateMemoryLast<T>(memory: Memory<T>, item: T) returns (kept: seq<T>)
    modifies memory
    ensures memory.items == old(memory.items) + [item]
    ensures kept == KeptLast(memory.items)
  {
    memory.items := memory.items + [item];
    if |memory.items| <= MemoryLimit {
      kept := memory.items;
    } else {
      kept := memory.items[|memory.items| - MemoryLimit..];
    }
  }

  /** The corrected result is the end of the memory, so the item just remembered is always
      its last element, and remembering one more item drops exactly the oldest kept one
      once the limit is reached. */
  lemma KeptLastSpec<T>(items: seq<T>, item: T)
    ensures KeptLast(items) == items[|items| - |KeptLast(items)|..]
    ensures var kept := KeptLast(items + [item]);
            |kept| > 0 && kept[|kept| - 1] == item
    ensures |items| >= MemoryLimit ==> KeptLast(items + [item]) == KeptLast(items)[1..] + [item]
  {
    var all := items + [item];
    if |items| >= MemoryLimit {
      assert all[|all| - MemoryLimit..] == items[|items| - MemoryLimit..][1..] + [item];
    }
  }
}
