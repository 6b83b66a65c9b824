/** The two task-state back ends, and the traces on which they show the same lists. */
module TaskStore {
  import opened Basics

  datatype Lists = Lists(running: seq<string>, done: seq<string>)

  const NO_NODES: Lists := Lists([], [])

  datatype Op = AddRunning(node: string) | AddDone(node: string)

  function Without(names: seq<string>, name: string): seq<string> {
    if names == [] then []
    else (if names[0] == name then [] else [names[0]]) + Without(names[1..], name)
  }

  function MemoryStep(t: Lists, op: Op): Lists {
    match op
    case AddRunning(node) => Lists(PushNew(t.running, node), t.done)
    case AddDone(node) => Lists(Without(t.running, node), PushNew(t.done, node))
  }

  /** The Lua scripts: a node that starts leaves the done list, a node that ends leaves the running list. */
  function RedisStep(t: Lists, op: Op): Lists {
    match op
    case AddRunning(node) => Lists(PushNew(t.running, node), Without(t.done, node))
    case AddDone(node) => Lists(Without(t.running, node), PushNew(t.done, node))
  }

  function MemoryRun(ops: seq<Op>): Lists {
    if ops == [] then NO_NODES else MemoryStep(MemoryRun(ops[..|ops| - 1]), ops[|ops| - 1])
  }

  function RedisRun(ops: seq<Op>): Lists {
    if ops == [] then NO_NODES else RedisStep(RedisRun(ops[..|ops| - 1]), ops[|ops| - 1])
  }

  /** No node is started after it has been reported done. */
  ghost predicate NeverRestarts(ops: seq<Op>) {
    forall i, j | 0 <= i < j < |ops| :: ops[i].AddDone? && ops[j].AddRunning? ==> ops[i].node != ops[j].node
  }

  lemma {:induction false} WithoutMembers(names: seq<string>, name: string, x: string)
    ensures x in Without(names, name) <==> x in names && x != name
  {
    if names != [] {
      WithoutMembers(names[1..], name, x);
    }
  }

  lemma {:induction false} WithoutKeepsDistinct(names: seq<string>, name: string)
    requires Distinct(names)
    ensures Distinct(Without(names, name))
  {
    if names != [] {
      WithoutKeepsDistinct(names[1..], name);
      WithoutMembers(names[1..], name, names[0]);
      assert names[0] !in names[1..];
    }
  }

  lemma {:induction false} WithoutAbsent(names: seq<string>, name: string)
    requires name !in names
    ensures Without(names, name) == names
  {
    if names != [] {
      WithoutAbsent(names[1..], name);
      assert names[0] in names && names == [names[0]] + names[1..];
    }
  }

  /** Redis lists never repeat a node and never hold one node in both lists. */
  lemma {:induction false} RedisListsAreCleanAndDisjoint(ops: seq<Op>)
    ensures Distinct(RedisRun(ops).running) && Distinct(RedisRun(ops).done)
    ensures forall x :: !(x in RedisRun(ops).running && x in RedisRun(ops).done)
  {
    if ops != [] {
      var before, node := RedisRun(ops[..|ops| - 1]), ops[|ops| - 1].node;
      RedisListsAreCleanAndDisjoint(ops[..|ops| - 1]);
      WithoutKeepsDistinct(before.running, node);
      WithoutKeepsDistinct(before.done, node);
      forall x
        ensures x in Without(before.running, node) <==> x in before.running && x != node
        ensures x in Without(before.done, node) <==> x in before.done && x != node
      {
        WithoutMembers(before.running, node, x);
        WithoutMembers(before.done, node, x);
      }
    }
  }

  lemma {:induction false} MemoryListsAreClean(ops: seq<Op>)
    ensures Distinct(MemoryRun(ops).running) && Distinct(MemoryRun(ops).done)
    ensures forall x :: x in MemoryRun(ops).done <==> AddDone(x) in ops
  {
    if ops != [] {
      var front, last := ops[..|ops| - 1], ops[|ops| - 1];
      MemoryListsAreClean(front);
      WithoutKeepsDistinct(MemoryRun(front).running, last.node);
      assert ops == front + [last];
    }
  }

  /** `a` has happened, and `b` not since. */
  ghost predicate Since(ops: seq<Op>, a: Op, b: Op) {
    exists i | 0 <= i < |ops| :: ops[i] == a && b !in ops[i..]
  }

  lemma SinceNext(ops: seq<Op>, last: Op, a: Op, b: Op)
    requires a != b
    ensures Since(ops + [last], a, b) <==> last == a || (last != b && Since(ops, a, b))
  {
    var longer := ops + [last];
    if last == a {
      assert longer[|ops|] == a && longer[|ops|..] == [last];
    }
    if i :| 0 <= i < |ops| && ops[i] == a && b !in ops[i..] {
      assert longer[i] == a && longer[i..] == ops[i..] + [last];
    }
    if i :| 0 <= i < |longer| && longer[i] == a && b !in longer[i..] {
      if i < |ops| {
        assert longer[i..] == ops[i..] + [last] && last in longer[i..];
      }
    }
  }

  /** A node is shown as running exactly when it has been started and not reported done since. */
  lemma {:induction false} MemoryRunningIff(ops: seq<Op>, x: string)
    ensures x in MemoryRun(ops).running <==> Since(ops, AddRunning(x), AddDone(x))
  {
    if ops != [] {
      var front, last := ops[..|ops| - 1], ops[|ops| - 1];
      MemoryRunningIff(front, x);
      WithoutMembers(MemoryRun(front).running, last.node, x);
      SinceNext(front, last, AddRunning(x), AddDone(x));
      assert ops == front + [last];
    }
  }

  /** In Redis the same holds of running nodes, and done nodes are those not started again since. */
  lemma {:induction false} RedisListsIff(ops: seq<Op>, x: string)
    ensures x in RedisRun(ops).running <==> Since(ops, AddRunning(x), AddDone(x))
    ensures x in RedisRun(ops).done <==> Since(ops, AddDone(x), AddRunning(x))
  {
    if ops != [] {
      var front, last := ops[..|ops| - 1], ops[|ops| - 1];
      RedisListsIff(front, x);
      WithoutMembers(RedisRun(front).running, last.node, x);
      WithoutMembers(RedisRun(front).done, last.node, x);
      SinceNext(front, last, AddRunning(x), AddDone(x));
      SinceNext(front, last, AddDone(x), AddRunning(x));
      assert ops == front + [last];
    }
  }

  /** Nodes are listed as done in the order of their first reports: what has been listed stays in front. */
  lemma {:induction false} MemoryDoneGrows(ops: seq<Op>, n: nat)
    requires n <= |ops|
    ensures MemoryRun(ops[..n]).done <= MemoryRun(ops).done
    decreases |ops|
  {
    if n < |ops| {
      var front := ops[..|ops| - 1];
      MemoryDoneGrows(front, n);
      assert front[..n] == ops[..n];
    } else {
      assert ops[..n] == ops;
    }
  }

  lemma PrefixNeverRestarts(ops: seq<Op>, n: nat)
    requires n <= |ops| && NeverRestarts(ops)
    ensures NeverRestarts(ops[..n])
  {
  }

  /** One more operation keeps equal lists equal exactly when it does not restart a finished node. */
  lemma StepsAgreeIff(ops: seq<Op>, t: Lists, op: Op)
    requires t == MemoryRun(ops)
    ensures MemoryStep(t, op) == RedisStep(t, op) <==> !(op.AddRunning? && AddDone(op.node) in ops)
  {
    MemoryListsAreClean(ops);
    WithoutMembers(t.done, op.node, op.node);
    if op.node !in t.done {
      WithoutAbsent(t.done, op.node);
    }
  }

  lemma RestartsIff(ops: seq<Op>, op: Op)
    requires NeverRestarts(ops)
    ensures NeverRestarts(ops + [op]) <==> !(op.AddRunning? && AddDone(op.node) in ops)
  {
    var longer := ops + [op];
    if op.AddRunning? && AddDone(op.node) in ops {
      var i :| 0 <= i < |ops| && ops[i] == AddDone(op.node);
      assert longer[i].AddDone? && longer[|ops|].AddRunning? && longer[i].node == longer[|ops|].node;
    }
  }

  /** Both back ends show the same lists after every prefix of the trace. */
  ghost predicate AgreeThroughout(ops: seq<Op>) {
    forall n | 0 <= n <= |ops| :: MemoryRun(ops[..n]) == RedisRun(ops[..n])
  }

  lemma AgreeOneMore(ops: seq<Op>, k: nat)
    requires |ops| == k + 1
    ensures AgreeThroughout(ops) <==> AgreeThroughout(ops[..k]) && MemoryRun(ops) == RedisRun(ops)
  {
    assert forall n | 0 <= n <= k :: ops[..k][..n] == ops[..n];
    assert ops[..k + 1] == ops;
    if AgreeThroughout(ops) {
      assert MemoryRun(ops[..k + 1]) == RedisRun(ops[..k + 1]);
      forall n | 0 <= n <= k
        ensures MemoryRun(ops[..k][..n]) == RedisRun(ops[..k][..n])
      {
        assert MemoryRun(ops[..n]) == RedisRun(ops[..n]);
      }
    }
    if AgreeThroughout(ops[..k]) && MemoryRun(ops) == RedisRun(ops) {
      forall n | 0 <= n <= k + 1
        ensures MemoryRun(ops[..n]) == RedisRun(ops[..n])
      {
        if n <= k {
          assert MemoryRun(ops[..k][..n]) == RedisRun(ops[..k][..n]);
        }
      }
    }
  }

  /** Both back ends show the same running and done lists after every prefix of a trace
      exactly when the trace never restarts a finished node. */
  lemma {:induction false} BackendsAgreeIff(ops: seq<Op>)
    ensures AgreeThroughout(ops) <==> NeverRestarts(ops)
  {
    if ops != [] {
      var k := |ops| - 1;
      var front, last := ops[..k], ops[k];
      assert ops == front + [last];
      BackendsAgreeIff(front);
      AgreeOneMore(ops, k);
      if NeverRestarts(front) {
        assert front[..k] == front && MemoryRun(front[..k]) == RedisRun(front[..k]);
        StepsAgreeIff(front, MemoryRun(front), last);
        RestartsIff(front, last);
      } else if NeverRestarts(ops) {
        PrefixNeverRestarts(ops, k);
      }
    }
  }

  /** The process-local back end: one record per task, created on first use. */
  class MemoryTaskStore {
    var tasks: map<string, Lists>

    constructor ()
      ensures tasks == map[]
    {
      tasks := map[];
    }

    function Task(taskId: string): Lists
      reads this
    {
      if taskId in tasks then tasks[taskId] else NO_NODES
    }

    method AddRunning(taskId: string, node: string)
      modifies this
      ensures tasks == old(tasks)[taskId := MemoryStep(old(Task(taskId)), Op.AddRunning(node))]
    {
      var task := Task(taskId);
      if node !in task.running {
        task := task.(running := task.running + [node]);
      }
      tasks := tasks[taskId := task];
    }

    method AddDone(taskId: string, node: string)
      modifies this
      ensures tasks == old(tasks)[taskId := MemoryStep(old(Task(taskId)), Op.AddDone(node))]
    {
      var task := Task(taskId);
      task := task.(running := Without(task.running, node));
      if node !in task.done {
        task := task.(done := task.done + [node]);
      }
      tasks := tasks[taskId := task];
    }
  }

  /** The Redis back end: one list per key, each script an atomic step. */
  class RedisTaskStore {
    var running: map<string, seq<string>>
    var done: map<string, seq<string>>

    constructor ()
      ensures running == map[] && done == map[]
    {
      running, done := map[], map[];
    }

    function Task(taskId: string): Lists
      reads this
    {
      Lists(if taskId in running then running[taskId] else [], if taskId in done then done[taskId] else [])
    }

    method AddRunning(taskId: string, node: string)
      modifies this
      ensures Task(taskId) == RedisStep(old(Task(taskId)), Op.AddRunning(node))
      ensures forall other | other != taskId :: Task(other) == old(Task(other))
    {
      var task := Task(taskId);
      done := done[taskId := Without(task.done, node)];
      if node !in task.running {
        running := running[taskId := task.running + [node]];
      }
    }

    method AddDone(taskId: string, node: string)
      modifies this
      ensures Task(taskId) == RedisStep(old(Task(taskId)), Op.AddDone(node))
      ensures forall other | other != taskId :: Task(other) == old(Task(other))
    {
      var task := Task(taskId);
      running := running[taskId := Without(task.running, node)];
      if node !in task.done {
        done := done[taskId := task.done + [node]];
      }
    }
  }
}
