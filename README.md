# Workout planner: pipeline and thread registry

This project models two deterministic pieces of the workout planner.

**The planner graph** (`task_planner_agent/graph.py`). A `PlannerState` record
has four keys: `task`, `steps`, `timings` and `final_plan`. Any of them may be
unset. Four nodes read the state and each return a partial update:

- `input_node` hands the task on.
- `breakdown_node` always proposes the steps `Warm-up`, `Excercise`, `Cool-down`.
  The misspelling is the program's own.
- `timing_node` takes 60 minutes when "hour" occurs in the lowered task and 30
  otherwise. It splits that total evenly over the steps with floor division.
- `output_node` renders the plan text `"<task>: <step> (<time>), ..."`.

The graph's static edges chain the nodes in the order
START → input → breakdown → timing → output → END. Running the graph means
running each node in that order and merging its update into the state: keys
the update sets replace the old values, and the other keys are kept. A lookup
of a key the state lacks fails as Python's `KeyError` would. Timing over an
empty step list fails with `ZeroDivisionError`. Both are modelled as error
values, in the order in which the Python code performs its lookups.

**The thread registry** (`task_planner_agent/thread_manager.py`). `ThreadDB`
keeps a private counter and a list of thread ids. `add()` with the default
name `"user_session"` works with `"user_session_<counter>"`, where the counter
is the value before the call. Any other id is used as given. If the id is not
yet listed, it is appended and the counter goes up by one. If it is already
listed, nothing changes. Either way the id is returned. A synthesized id is
not guaranteed fresh: if `"user_session_1"` was added by name, a default call
at counter 1 returns that id and leaves the counter at 1, and so does every
further default call until a new id is added by name (`DefaultIdCanCollide`,
`CollidingDefaultId`).

Files:

- `builtins.dfy` (module `Builtins`) models the Python built-ins the code uses:
  `str` of an integer, ASCII `lower`, substring `in`, `join`, `zip` and
  `[x] * n`. Each comes with the property that defines it, such as the
  decimal round trip or "occurs at some index". It also defines `Sum`. The
  code never calls `sum`; `Sum` only states how far the even split falls
  short of the total.
- `planner_graph.dfy` (module `PlannerGraph`) has the state, the nodes, the
  edge list, the sequential run and the end-to-end outcome.
- `thread_manager.dfy` (module `ThreadManager`) has the registry value
  `Registry` with one call `Register` as its specification, and the class
  `ThreadDB`, whose `Add` is proved to do exactly what `Register` does.

## Model

| member | source | states |
|---|---|---|
| `Builtins.NatToString` | task_planner_agent/thread_manager.py:8 | `str(n)` of a natural number is a non-empty string of decimal digits, with no leading zero unless it is "0" |
| `Builtins.ParseNatToString` | task_planner_agent/thread_manager.py:8 | reading back the decimal string of `n` gives `n` |
| `Builtins.IntToString` | task_planner_agent/graph.py:38 | `str(i)` is non-empty and starts with '-' exactly when `i` is negative |
| `Builtins.IntToStringRoundTrip` | task_planner_agent/graph.py:38 | the rendering of any integer is a well-formed integer literal whose value is that integer |
| `Builtins.IntToStringInjective` | task_planner_agent/graph.py:38 | distinct timings render as distinct strings |
| `Builtins.Lower` | task_planner_agent/graph.py:27 | lowering keeps the length and maps every character by ASCII lower-casing |
| `Builtins.LowerIsIdempotent` | task_planner_agent/graph.py:27 | a lowered string has no capital letters, and lowering it again changes nothing |
| `Builtins.Contains` | task_planner_agent/graph.py:29 | the empty pattern is always found; the full meaning is `ContainsIffOccurs` |
| `Builtins.ContainsIffOccurs` | task_planner_agent/graph.py:29 | the substring scan succeeds exactly when the pattern occurs at some index |
| `Builtins.Join` | task_planner_agent/graph.py:39 | joining nothing gives ""; otherwise the result starts with the first element |
| `Builtins.JoinSnoc` | task_planner_agent/graph.py:39 | joining one more element appends the separator and that element |
| `Builtins.Zip` | task_planner_agent/graph.py:38 | `zip` has length min(|a|, |b|), and its i-th pair is (a[i], b[i]) |
| `Builtins.Repeat` | task_planner_agent/graph.py:33 | `[v] * n` has length n, and every entry is v |
| `Builtins.SumRepeat` | task_planner_agent/graph.py:32-33 | n copies of v add up to v * n |
| `PlannerGraph.Merge` | task_planner_agent/graph.py:45-58 | a key the node's update sets takes the update's value; a key it leaves unset keeps its old value |
| `PlannerGraph.InputNode` | task_planner_agent/graph.py:16-18 | succeeds exactly when a task is set, else a KeyError on "task"; the update holds only the task, and merging it leaves the state unchanged |
| `PlannerGraph.BreakdownNode` | task_planner_agent/graph.py:20-23 | the update holds three steps, and merging it replaces only the steps, with Warm-up, Excercise, Cool-down |
| `PlannerGraph.BreakdownIgnoresState` | task_planner_agent/graph.py:20-23 | the breakdown is the same for every state: exactly the three steps Warm-up, Excercise, Cool-down, with no other key set |
| `PlannerGraph.TotalTimeMeaning` | task_planner_agent/graph.py:27-30 | the total is 60 or 30, and it is 60 exactly when "hour" occurs at some index of the lowered task |
| `PlannerGraph.TotalTime` | task_planner_agent/graph.py:27-30 | the total is 60 or 30 minutes, and it is 60 exactly when the lowered task contains "hour" |
| `PlannerGraph.TotalTimeOfCapitals` | task_planner_agent/graph.py:27-30 | "1 HOUR" gives 60: capitals count |
| `PlannerGraph.TotalTimeOfPlural` | task_planner_agent/graph.py:27-30 | "hours" gives 60: a plural counts |
| `PlannerGraph.TotalTimeWithoutHour` | task_planner_agent/graph.py:27-30 | "a walk", which never mentions an hour, gives 30 |
| `PlannerGraph.TimingNode` | task_planner_agent/graph.py:25-34 | succeeds exactly when a task and a non-empty step list are set; otherwise KeyError on "task", then on "steps", else ZeroDivisionError; the update sets only timings: one per step, each total // n, summing to at most the total and falling short by less than n |
| `PlannerGraph.StepTime` | task_planner_agent/graph.py:38 | an entry starts with the step, ends with ')', and is three characters longer than the step and the rendered time together |
| `PlannerGraph.StepTimes` | task_planner_agent/graph.py:38 | one entry per zipped pair: min(|steps|, |timings|) entries, the i-th being "step_i (time_i)" |
| `PlannerGraph.FinalPlan` | task_planner_agent/graph.py:39 | the plan text starts with the task followed by ": " |
| `PlannerGraph.OutputNode` | task_planner_agent/graph.py:36-40 | succeeds exactly when steps, timings and task are set; the KeyError names steps, then timings, then task; the update sets only the final plan |
| `PlannerGraph.StepTimesSnoc` | task_planner_agent/graph.py:38 | adding one step and its timing to lists of equal length appends exactly that pair's entry |
| `PlannerGraph.FinalPlanSnoc` | task_planner_agent/graph.py:38-39 | adding one more step and its timing to non-empty lists of equal length extends the plan by ", " and that step's entry |
| `PlannerGraph.JoinThree` | task_planner_agent/graph.py:39 | three entries join as a, sep, b, sep, c |
| `PlannerGraph.ThreeEntryPlan` | task_planner_agent/graph.py:38-39 | the plan for three steps is the task, ": ", and the three entries in order separated by ", " |
| `PlannerGraph.ThreeStepPlan` | task_planner_agent/graph.py:36-40 | the plan for the three fixed steps with equal timing t lists "Warm-up (t)", "Excercise (t)", "Cool-down (t)" in that order |
| `PlannerGraph.Numerals` | task_planner_agent/graph.py:38 | the per-step durations 20 and 10 render as "20" and "10" |
| `PlannerGraph.EdgesFollowOrder` | task_planner_agent/graph.py:52-56 | following the edges from START reaches END through input, breakdown, timing, output, each once |
| `PlannerGraph.ApplyNode` | task_planner_agent/graph.py:45-58 | running one node and merging its update: input keeps the state or fails on a missing task; breakdown replaces only the steps; timing and output succeed exactly when their node does, and change only the key they write |
| `PlannerGraph.RunNodes` | task_planner_agent/graph.py:52-58 | running no node leaves the state; a successful run never changes the task, sets the three fixed steps when breakdown is among the nodes, and otherwise keeps the steps |
| `PlannerGraph.RunNodesAppend` | task_planner_agent/graph.py:52-56 | running a chain of nodes is running its first part, then the rest on the result, stopping at the first error |
| `PlannerGraph.Invoke` | task_planner_agent/graph.py:52-58 | a successful run of the compiled graph keeps the input's task and ends with the three fixed steps |
| `PlannerGraph.InvokeIsComposition` | task_planner_agent/graph.py:52-56 | the compiled graph is output ∘ timing ∘ breakdown ∘ input, with errors propagated |
| `PlannerGraph.InvokeOutcome` | task_planner_agent/graph.py:16-56 | without a task the run fails with KeyError "task"; with one it ends with the task, the three steps, timings [20,20,20] if "hour" occurs in the lowered task else [10,10,10], and the matching plan text |
| `PlannerGraph.InvokeTrace` | task_planner_agent/graph.py:16-56 | on any state holding a task, the run keeps the task, sets the three steps, the timings total // 3 three times, and the plan rendered from them |
| `PlannerGraph.InvokeOnUserInput` | task_planner_agent/main.py:10 | invoking the graph with only the task, as the command-line loop does, succeeds with timings [20,20,20] or [10,10,10] and the plan rendered from the three steps |
| `PlannerGraph.InvokeDependsOnlyOnTask` | task_planner_agent/graph.py:16-40 | two input states with the same task give the same run result |
| `ThreadManager.ResolveId` | task_planner_agent/thread_manager.py:7-8 | a non-default id is used unchanged; the default gives "user_session_" followed by a non-empty decimal numeral without leading zeros that reads back as the counter, which fixes the id; the result is never "user_session" itself |
| `ThreadManager.Register` | task_planner_agent/thread_manager.py:6-12 | one `add` call: the returned id is the resolved id and is listed afterwards; the earlier ids stay as a prefix, and at most one id is added |
| `ThreadManager.RegisterEffect` | task_planner_agent/thread_manager.py:9-12 | the returned id is listed afterwards; a listed id changes nothing; a new id is appended after the unchanged earlier ids, and the counter grows by exactly one |
| `ThreadManager.RegisterKeepsValid` | task_planner_agent/thread_manager.py:9-11 | every call keeps the ids free of duplicates and the counter equal to their number |
| `ThreadManager.RegisterIdempotent` | task_planner_agent/thread_manager.py:9-12 | adding the returned id again changes nothing and returns it again |
| `ThreadManager.FreshDefaultIds` | task_planner_agent/thread_manager.py:6-12 | on a fresh registry two default calls give "user_session_0" then "user_session_1" |
| `ThreadManager.DefaultIdCanCollide` | task_planner_agent/thread_manager.py:7-11 | after "user_session_1" is added by name, a default call at counter 1 returns that id and the counter stays at 1 |
| `ThreadManager.ThreadDB.constructor` | task_planner_agent/thread_manager.py:2-4 | a new registry has counter 0 and no ids, and satisfies the invariant |
| `ThreadManager.ThreadDB.Add` | task_planner_agent/thread_manager.py:6-12 | keeps the invariant; the new state and the returned id are those of `Register` on the old state; frame: only the counter and the list change, and only as `Register` says |
| `ThreadManager.ThreadDB.AddDefault` | task_planner_agent/thread_manager.py:6-8 | `add()` without an argument returns "user_session_" followed by the counter before the call |
| `ThreadManager.CollidingDefaultId` | task_planner_agent/thread_manager.py:6-12 | on one object, adding "user_session_1" and then calling `add()` twice returns the same id three times, with one id recorded |

## Left out

- `Builtins.Lower`: implements ASCII lower-casing only, not Python's full Unicode case mapping. That mapping can change a string's length, for example 'İ' becomes two characters. No non-ASCII capital lowers to the letters of "hour", so the 60-or-30 decision is unaffected.
- State values are assumed to have the types the `PlannerState` declaration gives them. LangGraph does not enforce those types, and Python's `TypeError` paths for values of other types are not modelled.
- The LangGraph `StateGraph`, `compile` and `invoke` runtime is a foreign library and is out of scope. Only the fixed edge list, the merge of each node's update into the state and the sequential run are modelled.
- The unused imports of `graph.py` are not modelled. They are `ChatOpenAI`, `SystemMessage`, `AIMessage`, `HumanMessage`, `MessagesState`, `tools_condition`, `ToolNode` and `Literal`.
- Checkpointing, conditional routing, feedback loops and retry bounds do not occur in the modelled code, so they are not modelled.
- Thread ids are taken to be strings. The Python method accepts any value, and no caller of `ThreadDB` is part of this model. Concurrent calls are not modelled; the object is used from one thread.
- Other files of the repository are not part of this model. These are the candidate schema, the calendar integration, the extractors, the agent wrapper, the HTTP routes, the JSON helper and the CLI loop; of the loop, only the initial state it hands to the graph is modelled (`InvokeOnUserInput`). They are I/O, library or language-model glue.
