/**
 The task planner pipeline: a `PlannerState` record whose keys may be unset,
 four nodes that each read the state and return a partial update (a "delta"),
 and a graph whose static edges chain the nodes in one fixed order.

 A node that reads a key the state does not hold fails as the Python
 dictionary lookup would, with a `KeyError` naming that key; the timing node
 on an empty step list fails with a division by zero. The graph runs a node,
 merges its delta into the state (keys the delta sets replace the old values,
 the others are kept), and goes on to the next node, stopping at the first
 failure.
 */
module PlannerGraph {
  import opened Builtins

  datatype Option<T> = None | Some(value: T)

  /** The planner's record. `None` is a key that has not been written. */
  datatype PlannerState = PlannerState(
    task: Option<string>,
    steps: Option<seq<string>>,
    timings: Option<seq<int>>,
    finalPlan: Option<string>)

  const Empty := PlannerState(None, None, None, None)

  /** The state the graph is invoked with: only the task is set. */
  function Initial(task: string): PlannerState {
    Empty.(task := Some(task))
  }

  /** The exceptions a node can raise. */
  datatype NodeError = KeyError(key: string) | ZeroDivisionError

  datatype Result<T> = Ok(value: T) | Err(error: NodeError) {
    predicate IsFailure() {
      Err?
    }

    function PropagateFailure<U>(): Result<U>
      requires Err?
    {
      Err(error)
    }

    function Extract(): T
      requires Ok?
    {
      value
    }
  }

  /** Applies a node's delta: every key the delta sets replaces the state's value. */
  function Merge(s: PlannerState, d: PlannerState): (r: PlannerState)
    ensures d.task.None? ==> r.task == s.task
    ensures d.steps.None? ==> r.steps == s.steps
    ensures d.timings.None? ==> r.timings == s.timings
    ensures d.finalPlan.None? ==> r.finalPlan == s.finalPlan
    ensures d.task.Some? ==> r.task == d.task
    ensures d.steps.Some? ==> r.steps == d.steps
    ensures d.timings.Some? ==> r.timings == d.timings
    ensures d.finalPlan.Some? ==> r.finalPlan == d.finalPlan
  {
    PlannerState(
      if d.task.Some? then d.task else s.task,
      if d.steps.Some? then d.steps else s.steps,
      if d.timings.Some? then d.timings else s.timings,
      if d.finalPlan.Some? then d.finalPlan else s.finalPlan)
  }

  // ---------------------------------------------------------------------------
  // Nodes
  // ---------------------------------------------------------------------------

  /** The input node hands the task on; merging its delta changes nothing. */
  function InputNode(s: PlannerState): (r: Result<PlannerState>)
    ensures r.Ok? <==> s.task.Some?
    ensures r.Err? ==> r.error == KeyError("task")
    ensures r.Ok? ==> r.value == Empty.(task := s.task) && Merge(s, r.value) == s
  {
    if s.task.None? then Err(KeyError("task")) else Ok(PlannerState(Some(s.task.value), None, None, None))
  }

  /** The fixed breakdown of every task. */
  const Steps: seq<string> := ["Warm-up", "Excercise", "Cool-down"]

  /** The breakdown node does not look at the state. */
  function BreakdownNode(s: PlannerState): (r: PlannerState)
    ensures r.steps.Some? && |r.steps.value| == 3
    ensures Merge(s, r) == s.(steps := Some(Steps))
  {
    PlannerState(None, Some(Steps), None, None)
  }

  /** Whatever the state, the breakdown yields the same three steps and sets nothing else. */
  lemma BreakdownIgnoresState(s: PlannerState, t: PlannerState)
    ensures BreakdownNode(s) == BreakdownNode(t)
    ensures BreakdownNode(s).steps == Some(["Warm-up", "Excercise", "Cool-down"])
    ensures |BreakdownNode(s).steps.value| == 3
    ensures Merge(s, BreakdownNode(s)) == s.(steps := Some(Steps))
  {
  }

  /** Minutes the plan should take: 60 when the lowered task mentions "hour", else 30. */
  function TotalTime(task: string): (t: nat)
    ensures t == 60 || t == 30
    ensures Contains(Lower(task), "hour") <==> t == 60
  {
    if Contains(Lower(task), "hour") then 60 else 30
  }

  /** The total is 60 exactly when "hour" occurs somewhere in the task, in any ASCII case. */
  lemma TotalTimeMeaning(task: string)
    ensures TotalTime(task) == 60 || TotalTime(task) == 30
    ensures TotalTime(task) == 60 <==> exists i :: OccursAt(Lower(task), "hour", i)
  {
    assert TotalTime(task) == 60 <==> Contains(Lower(task), "hour");
    ContainsIffOccurs(Lower(task), "hour");
  }

  /** Capital letters count: "1 HOUR" takes an hour. */
  lemma TotalTimeOfCapitals()
    ensures TotalTime("1 HOUR") == 60
  {
    assert Lower("1 HOUR") == "1 hour";
    assert Contains("1 hour"[2..], "hour");
  }

  /** A plural counts: "hours" contains "hour". */
  lemma TotalTimeOfPlural()
    ensures TotalTime("hours") == 60
  {
    assert Lower("hours") == "hours";
    assert Contains("hours", "hour");
  }

  /** A task that never mentions an hour takes 30 minutes. */
  lemma TotalTimeWithoutHour()
    ensures TotalTime("a walk") == 30
  {
    assert Lower("a walk") == "a walk";
  }

  /**
   The timing node: the total for the task, split evenly over the steps with
   floor division. It reads the task before the steps, so a state lacking both
   fails on the task.
   */
  function TimingNode(s: PlannerState): (r: Result<PlannerState>)
    ensures r.Ok? <==> s.task.Some? && s.steps.Some? && |s.steps.value| > 0
    ensures s.task.None? ==> r == Err(KeyError("task"))
    ensures s.task.Some? && s.steps.None? ==> r == Err(KeyError("steps"))
    ensures s.task.Some? && s.steps.Some? && |s.steps.value| == 0 ==> r == Err(ZeroDivisionError)
    ensures r.Ok? ==>
      var total, n := TotalTime(s.task.value), |s.steps.value|;
      r.value.task.None? && r.value.steps.None? && r.value.finalPlan.None? &&
      r.value.timings.Some? &&
      var ts := r.value.timings.value;
      |ts| == n &&
      (forall i :: 0 <= i < n ==> ts[i] == total / n) &&
      Sum(ts) <= total && total - Sum(ts) < n
  {
    if s.task.None? then Err(KeyError("task"))
    else
      var total := TotalTime(s.task.value);
      if s.steps.None? then Err(KeyError("steps"))
      else
        var n := |s.steps.value|;
        if n == 0 then Err(ZeroDivisionError)
        else
          var perStep := total / n;
          SumRepeat(perStep, n);
          Ok(PlannerState(None, None, Some(Repeat(perStep, n)), None))
  }

  /** One entry of the plan: `f"{step} ({time})"`. */
  function StepTime(step: string, time: int): (r: string)
    ensures |r| == |step| + |IntToString(time)| + 3
    ensures step <= r && r[|r| - 1] == ')'
  {
    step + " (" + IntToString(time) + ")"
  }

  /** The plan's entries, one per pair of `zip(steps, timings)`. */
  function StepTimes(steps: seq<string>, timings: seq<int>): (r: seq<string>)
    ensures |r| == Min(|steps|, |timings|)
    ensures forall i :: 0 <= i < |r| ==> r[i] == StepTime(steps[i], timings[i])
  {
    var pairs := Zip(steps, timings);
    seq(|pairs|, i requires 0 <= i < |pairs| => StepTime(pairs[i].0, pairs[i].1))
  }

  /** `f"{task}: {', '.join(step_times)}"`. */
  function FinalPlan(task: string, steps: seq<string>, timings: seq<int>): (r: string)
    ensures task + ": " <= r
  {
    task + ": " + Join(", ", StepTimes(steps, timings))
  }

  /**
   The output node. The comprehension reads the steps, then the timings, and
   only then is the task read, which fixes which missing key is reported.
   */
  function OutputNode(s: PlannerState): (r: Result<PlannerState>)
    ensures r.Ok? <==> s.steps.Some? && s.timings.Some? && s.task.Some?
    ensures s.steps.None? ==> r == Err(KeyError("steps"))
    ensures s.steps.Some? && s.timings.None? ==> r == Err(KeyError("timings"))
    ensures s.steps.Some? && s.timings.Some? && s.task.None? ==> r == Err(KeyError("task"))
    ensures r.Ok? ==>
      r.value.task.None? && r.value.steps.None? && r.value.timings.None? &&
      r.value.finalPlan == Some(FinalPlan(s.task.value, s.steps.value, s.timings.value))
  {
    if s.steps.None? then Err(KeyError("steps"))
    else if s.timings.None? then Err(KeyError("timings"))
    else if s.task.None? then Err(KeyError("task"))
    else Ok(PlannerState(None, None, None, Some(FinalPlan(s.task.value, s.steps.value, s.timings.value))))
  }

  /** Extending both lists by one step and its timing appends that step's entry. */
  lemma StepTimesSnoc(steps: seq<string>, timings: seq<int>, step: string, time: int)
    requires |steps| == |timings|
    ensures StepTimes(steps + [step], timings + [time]) == StepTimes(steps, timings) + [StepTime(step, time)]
  {
    var before := StepTimes(steps, timings);
    var after := StepTimes(steps + [step], timings + [time]);
    assert |after| == |before| + 1;
    forall i | 0 <= i < |before| ensures after[i] == before[i] {
      assert (steps + [step])[i] == steps[i] && (timings + [time])[i] == timings[i];
    }
    assert after[|before|] == StepTime(step, time);
  }

  /**
   Extending both lists by one step and its timing extends the plan by one
   entry, after a ", ".
   */
  lemma FinalPlanSnoc(task: string, steps: seq<string>, timings: seq<int>, step: string, time: int)
    requires |steps| == |timings| > 0
    ensures FinalPlan(task, steps + [step], timings + [time]) ==
      FinalPlan(task, steps, timings) + ", " + StepTime(step, time)
  {
    var before := StepTimes(steps, timings);
    var entry := StepTime(step, time);
    StepTimesSnoc(steps, timings, step, time);
    JoinSnoc(", ", before, entry);
    ConcatRegroup(task + ": ", Join(", ", before), ", ", entry);
  }

  /** Regrouping a concatenation of four strings. */
  lemma ConcatRegroup(a: string, b: string, c: string, d: string)
    ensures a + (b + c + d) == a + b + c + d
  {
  }

  // ---------------------------------------------------------------------------
  // The graph
  // ---------------------------------------------------------------------------

  datatype NodeName = Input | Breakdown | Timing | Output

  /** An end of an edge: the graph's entry, its exit, or a node. */
  datatype Endpoint = Start | End | Node(name: NodeName)

  /** The static edges, in the order they are added. */
  const Edges: seq<(Endpoint, Endpoint)> := [
    (Start, Node(Input)),
    (Node(Input), Node(Breakdown)),
    (Node(Breakdown), Node(Timing)),
    (Node(Timing), Node(Output)),
    (Node(Output), End)
  ]

  /** The order in which the graph runs its nodes. */
  const Order: seq<NodeName> := [Input, Breakdown, Timing, Output]

  /** Target of the first edge leaving `from`, if there is one. */
  function Next(edges: seq<(Endpoint, Endpoint)>, from: Endpoint): Option<Endpoint> {
    if |edges| == 0 then None
    else if edges[0].0 == from then Some(edges[0].1)
    else Next(edges[1..], from)
  }

  /**
   The nodes met when following edges from `from` until the exit, visiting at
   most `fuel` nodes; `None` if the walk leaves no edge, re-enters the entry
   or runs out of fuel.
   */
  function Route(edges: seq<(Endpoint, Endpoint)>, from: Endpoint, fuel: nat): Option<seq<NodeName>>
    decreases fuel
  {
    match Next(edges, from)
    case None => None
    case Some(End) => Some([])
    case Some(Start) => None
    case Some(Node(n)) =>
      if fuel == 0 then None
      else
        match Route(edges, Node(n), fuel - 1)
        case None => None
        case Some(rest) => Some([n] + rest)
  }

  /** The edges chain the four nodes from entry to exit in `Order`, each exactly once. */
  lemma EdgesFollowOrder()
    ensures Route(Edges, Start, |Edges|) == Some(Order)
  {
    // Walk the chain backwards from the last node; each step unfolds Route once.
    assert Next(Edges, Node(Output)) == Some(End);
    var r4 := Route(Edges, Node(Output), 1);
    assert r4 == Some([]);
    assert Next(Edges, Node(Timing)) == Some(Node(Output));
    var r3 := Route(Edges, Node(Timing), 2);
    assert [Output] + r4.value == [Output];
    assert r3 == Some([Output]);
    assert Next(Edges, Node(Breakdown)) == Some(Node(Timing));
    var r2 := Route(Edges, Node(Breakdown), 3);
    assert [Timing] + r3.value == [Timing, Output];
    assert r2 == Some([Timing, Output]);
    assert Next(Edges, Node(Input)) == Some(Node(Breakdown));
    var r1 := Route(Edges, Node(Input), 4);
    assert [Breakdown] + r2.value == [Breakdown, Timing, Output];
    assert r1 == Some([Breakdown, Timing, Output]);
    assert Next(Edges, Start) == Some(Node(Input));
    assert |Edges| == 5;
    assert [Input] + r1.value == Order;
  }

  /** Runs one node and merges its delta into the state. */
  function ApplyNode(n: NodeName, s: PlannerState): (r: Result<PlannerState>)
    ensures n == Input ==> r == (if s.task.Some? then Ok(s) else Err(KeyError("task")))
    ensures n == Breakdown ==> r == Ok(s.(steps := Some(Steps)))
    ensures n == Timing ==> (r.Ok? == TimingNode(s).Ok? &&
      (r.Ok? ==> r.value.timings.Some? && r.value == s.(timings := r.value.timings)))
    ensures n == Output ==> (r.Ok? == OutputNode(s).Ok? &&
      (r.Ok? ==> r.value.finalPlan.Some? && r.value == s.(finalPlan := r.value.finalPlan)))
  {
    match n
    case Input =>
      var d :- InputNode(s);
      Ok(Merge(s, d))
    case Breakdown => Ok(Merge(s, BreakdownNode(s)))
    case Timing =>
      var d :- TimingNode(s);
      Ok(Merge(s, d))
    case Output =>
      var d :- OutputNode(s);
      Ok(Merge(s, d))
  }

  /** Runs the nodes in order, threading the state, and stops at the first error. */
  function RunNodes(order: seq<NodeName>, s: PlannerState): (r: Result<PlannerState>)
    ensures order == [] ==> r == Ok(s)
    ensures r.Ok? ==> r.value.task == s.task
    ensures r.Ok? && Breakdown in order ==> r.value.steps == Some(Steps)
    ensures r.Ok? && Breakdown !in order ==> r.value.steps == s.steps
    decreases |order|
  {
    if order == [] then Ok(s)
    else
      var t :- ApplyNode(order[0], s);
      RunNodes(order[1..], t)
  }

  /** Running a chain is running its first part, then the rest on the outcome. */
  lemma {:induction false} RunNodesAppend(a: seq<NodeName>, b: seq<NodeName>, s: PlannerState)
    ensures RunNodes(a + b, s) ==
      match RunNodes(a, s)
      case Err(e) => Err(e)
      case Ok(t) => RunNodes(b, t)
    decreases |a|
  {
    if a != [] {
      assert (a + b)[0] == a[0];
      assert (a + b)[1..] == a[1..] + b;
      match ApplyNode(a[0], s)
      case Err(e) =>
        assert RunNodes(a, s) == Err(e);
        assert RunNodes(a + b, s) == Err(e);
      case Ok(t) =>
        assert RunNodes(a, s) == RunNodes(a[1..], t);
        assert RunNodes(a + b, s) == RunNodes(a[1..] + b, t);
        RunNodesAppend(a[1..], b, t);
    } else {
      assert a + b == b;
    }
  }

  /** The compiled graph, invoked on an input state. */
  function Invoke(input: PlannerState): (r: Result<PlannerState>)
    ensures r.Ok? ==> r.value.task == input.task && r.value.steps == Some(Steps)
  {
    RunNodes(Order, input)
  }

  /** The graph is the composition output . timing . breakdown . input. */
  lemma InvokeIsComposition(s: PlannerState)
    ensures Invoke(s) ==
      match ApplyNode(Input, s)
      case Err(e) => Err(e)
      case Ok(s1) =>
        match ApplyNode(Breakdown, s1)
        case Err(e) => Err(e)
        case Ok(s2) =>
          match ApplyNode(Timing, s2)
          case Err(e) => Err(e)
          case Ok(s3) => ApplyNode(Output, s3)
  {
    assert Order == [Input] + ([Breakdown] + ([Timing] + [Output]));
    RunNodesAppend([Input], [Breakdown] + ([Timing] + [Output]), s);
    match ApplyNode(Input, s)
    case Err(_) =>
    case Ok(s1) =>
      RunNodesAppend([Breakdown], [Timing] + [Output], s1);
      match ApplyNode(Breakdown, s1)
      case Err(_) =>
      case Ok(s2) =>
        RunNodesAppend([Timing], [Output], s2);
  }

  /** Three entries joined with a separator. */
  lemma JoinThree(sep: string, a: string, b: string, c: string)
    ensures Join(sep, [a, b, c]) == a + sep + b + sep + c
  {
    assert [a, b, c][1..] == [b, c];
    assert [b, c][1..] == [c];
    assert Join(sep, [c]) == c;
    assert Join(sep, [b, c]) == b + sep + c;
    assert Join(sep, [a, b, c]) == a + sep + (b + sep + c);
    assert a + sep + (b + sep + c) == a + sep + b + sep + c;
  }

  /** The plan for three steps lists their entries in order, separated by ", ". */
  lemma ThreeEntryPlan(task: string, a: string, b: string, c: string, ta: int, tb: int, tc: int)
    ensures FinalPlan(task, [a, b, c], [ta, tb, tc]) ==
      task + ": " + StepTime(a, ta) + ", " + StepTime(b, tb) + ", " + StepTime(c, tc)
  {
    var entries := StepTimes([a, b, c], [ta, tb, tc]);
    assert |entries| == 3;
    assert entries[0] == StepTime(a, ta) && entries[1] == StepTime(b, tb) && entries[2] == StepTime(c, tc);
    assert entries == [StepTime(a, ta), StepTime(b, tb), StepTime(c, tc)];
    JoinThree(", ", StepTime(a, ta), StepTime(b, tb), StepTime(c, tc));
  }

  /** The plan text for the three fixed steps, each given `time` minutes. */
  lemma ThreeStepPlan(task: string, time: int)
    ensures var d := IntToString(time);
      FinalPlan(task, Steps, [time, time, time]) ==
        task + ": " + ("Warm-up" + " (" + d + ")") + ", " + ("Excercise" + " (" + d + ")") + ", " + ("Cool-down" + " (" + d + ")")
  {
    ThreeEntryPlan(task, "Warm-up", "Excercise", "Cool-down", time, time, time);
  }

  /** The two per-step durations the pipeline can produce, rendered. */
  lemma Numerals()
    ensures IntToString(20) == "20" && IntToString(10) == "10"
  {
    assert DigitChar(0) == '0' && DigitChar(1) == '1' && DigitChar(2) == '2';
    assert NatToString(1) == "1" && NatToString(2) == "2";
  }

  /**
   The whole pipeline. A state without a task fails on the first node. With a
   task, whatever else the state held, the run ends with the three fixed steps,
   20 minutes each when the task mentions "hour" and 10 otherwise, and the
   plan text listing them.
   */
  lemma InvokeOutcome(s: PlannerState)
    ensures s.task.None? ==> Invoke(s) == Err(KeyError("task"))
    ensures s.task.Some? ==>
      var task := s.task.value;
      var hour := Contains(Lower(task), "hour");
      var per := if hour then 20 else 10;
      var d := IntToString(per);
      d == (if hour then "20" else "10") &&
      Invoke(s) == Ok(PlannerState(
        Some(task),
        Some(["Warm-up", "Excercise", "Cool-down"]),
        Some([per, per, per]),
        Some(task + ": " + ("Warm-up" + " (" + d + ")") + ", " + ("Excercise" + " (" + d + ")") + ", " + ("Cool-down" + " (" + d + ")"))))
  {
    if s.task.None? {
      InvokeIsComposition(s);
    } else {
      var task := s.task.value;
      var hour := Contains(Lower(task), "hour");
      var per := TotalTime(task) / 3;
      assert per == if hour then 20 else 10;
      var ts := Repeat(per, 3);
      assert ts == [per, per, per];
      InvokeTrace(s);
      Numerals();
      var d := IntToString(per);
      assert d == if hour then "20" else "10";
      ThreeStepPlan(task, per);
      var plan := FinalPlan(task, Steps, ts);
      assert plan == task + ": " + ("Warm-up" + " (" + d + ")") + ", " + ("Excercise" + " (" + d + ")") + ", " + ("Cool-down" + " (" + d + ")");
      assert Invoke(s) == Ok(PlannerState(Some(task), Some(Steps), Some([per, per, per]), Some(plan)));
    }
  }

  /**
   The run on any state holding a task, node by node: the task is kept, the
   steps are the fixed three, the timings are the total split three ways, and
   the plan is rendered from those.
   */
  lemma InvokeTrace(s: PlannerState)
    requires s.task.Some?
    ensures var task := s.task.value;
      var ts := Repeat(TotalTime(task) / 3, 3);
      Invoke(s) == Ok(PlannerState(Some(task), Some(Steps), Some(ts), Some(FinalPlan(task, Steps, ts))))
  {
    InvokeIsComposition(s);
    var task := s.task.value;
    var ts := Repeat(TotalTime(task) / 3, 3);
    var s2 := s.(steps := Some(Steps));
    assert ApplyNode(Input, s) == Ok(s);
    assert ApplyNode(Breakdown, s) == Ok(s2);
    var s3 := s2.(timings := Some(ts));
    assert ApplyNode(Timing, s2) == Ok(s3);
    assert ApplyNode(Output, s3) == Ok(s3.(finalPlan := Some(FinalPlan(task, Steps, ts))));
  }

  /** What the command-line entry point does: invoke the graph with only the task set. */
  lemma InvokeOnUserInput(task: string)
    ensures var r := Invoke(Initial(task));
      var per := TotalTime(task) / 3;
      r.Ok? && r.value.task == Some(task) && r.value.steps == Some(Steps) &&
      (per == 20 || per == 10) &&
      r.value.timings == Some([per, per, per]) &&
      r.value.finalPlan == Some(FinalPlan(task, Steps, [per, per, per]))
  {
    var per := TotalTime(task) / 3;
    InvokeTrace(Initial(task));
    assert Repeat(per, 3) == [per, per, per];
  }

  /** Running the pipeline on the same task always gives the same final plan. */
  lemma InvokeDependsOnlyOnTask(s: PlannerState, t: PlannerState)
    requires s.task == t.task
    ensures Invoke(s) == Invoke(t)
  {
    InvokeOutcome(s);
    InvokeOutcome(t);
  }
}
