/** Scheduling a compiled workflow: which nodes a pass skips, which it makes ready. */
module DagSchedule {
  import opened Outcomes

  /** A compiled node; `gated` stands for a human gate. */
  datatype Node = Node(key: string, dependsOn: seq<string>, gated: bool)

  /** `Live` covers every state of a step that is neither fresh nor concluded. */
  datatype StepState = Ready | Live | Succeeded | Failed | Skipped | Cancelled

  type Steps = map<string, StepState>

  datatype Decision = Leave | Skip | MakeReady | Refuse

  predicate DeadEnd(steps: Steps, key: string) {
    key in steps && (steps[key] == Failed || steps[key] == Skipped)
  }

  function Blocked(dependsOn: seq<string>, steps: Steps): (r: seq<string>)
    ensures forall d :: d in r <==> d in dependsOn && DeadEnd(steps, d)
  {
    if dependsOn == [] then []
    else if DeadEnd(steps, dependsOn[0]) then [dependsOn[0]] + Blocked(dependsOn[1..], steps)
    else Blocked(dependsOn[1..], steps)
  }

  predicate Distinct(keys: seq<string>) {
    forall i, j :: 0 <= i < j < |keys| ==> keys[i] != keys[j]
  }

  /** The evidence the step aggregate demands of a skip: a named node and named, distinct dead ends. */
  predicate SkipAccepted(node: Node, blocked: seq<string>) {
    !Blank(node.key) && Distinct(blocked) && forall d <- blocked :: !Blank(d)
  }

  predicate DependenciesSucceeded(node: Node, steps: Steps) {
    forall d <- node.dependsOn :: d in steps && steps[d] == Succeeded
  }

  function Decide(node: Node, steps: Steps, open: bool): Decision {
    if node.key in steps then Leave
    else
      var blocked := Blocked(node.dependsOn, steps);
      if blocked != [] then (if SkipAccepted(node, blocked) then Skip else Refuse)
      else if !open || node.gated || !DependenciesSucceeded(node, steps) then Leave
      else if Blank(node.key) then Refuse
      else MakeReady
  }

  /** The steps after the first `k` nodes of a pass; nothing when an invariant failed. */
  function PassTo(nodes: seq<Node>, steps: Steps, open: bool, k: nat): Option<Steps>
    requires k <= |nodes|
  {
    if k == 0 then Some(steps)
    else
      match PassTo(nodes, steps, open, k - 1)
      case None => None
      case Some(before) =>
        var node := nodes[k - 1];
        match Decide(node, before, open)
        case Leave => Some(before)
        case Skip => Some(before[node.key := Skipped])
        case MakeReady => Some(before[node.key := Ready])
        case Refuse => None
  }

  function Pass(nodes: seq<Node>, steps: Steps, open: bool): Option<Steps> {
    PassTo(nodes, steps, open, |nodes|)
  }

  /** Compiled nodes have distinct keys and come after everything they depend on. */
  predicate Ordered(nodes: seq<Node>) {
    (forall i, j :: 0 <= i < j < |nodes| ==> nodes[i].key != nodes[j].key)
    && forall i :: 0 <= i < |nodes| ==> forall d <- nodes[i].dependsOn :: ListedBefore(nodes, i, d)
  }

  predicate ListedBefore(nodes: seq<Node>, i: nat, key: string)
    requires i <= |nodes|
  {
    exists j :: 0 <= j < i && nodes[j].key == key
  }

  /** The loop of the scheduler over the stored steps. */
  method MaterializeReadyNodes(nodes: seq<Node>, stored: Steps, open: bool)
    returns (result: Option<Steps>, created: seq<string>, skipped: seq<string>)
    requires Ordered(nodes)
    ensures result == Pass(nodes, stored, open)
    ensures result.Some? ==>
              forall key :: key in created <==> key in result.value && key !in stored && result.value[key] == Ready
    ensures result.Some? ==>
              forall key :: key in skipped <==> key in result.value && key !in stored && result.value[key] == Skipped
    ensures Distinct(created) && Distinct(skipped)
  {
    var steps := stored;
    created, skipped := [], [];
    var i := 0;
    while i < |nodes|
      invariant 0 <= i <= |nodes|
      invariant PassTo(nodes, stored, open, i) == Some(steps)
      invariant forall key :: key in created <==> key in steps && key !in stored && steps[key] == Ready
      invariant forall key :: key in skipped <==> key in steps && key !in stored && steps[key] == Skipped
      invariant Distinct(created) && Distinct(skipped)
      invariant forall key :: key in stored ==> key in steps
    {
      var node := nodes[i];
      if node.key !in steps {
        var blocked := Blocked(node.dependsOn, steps);
        if blocked != [] {
          if !SkipAccepted(node, blocked) {
            PassStaysFailed(nodes, stored, open, i + 1, |nodes|);
            return None, [], [];
          }
          steps := steps[node.key := Skipped];
          skipped := skipped + [node.key];
        } else if open && !node.gated && DependenciesSucceeded(node, steps) {
          if Blank(node.key) {
            PassStaysFailed(nodes, stored, open, i + 1, |nodes|);
            return None, [], [];
          }
          steps := steps[node.key := Ready];
          created := created + [node.key];
        }
      }
      i := i + 1;
    }
    result := Some(steps);
  }

  lemma {:induction false} PassStaysFailed(nodes: seq<Node>, steps: Steps, open: bool, k: nat, n: nat)
    requires k <= n <= |nodes| && PassTo(nodes, steps, open, k).None?
    ensures PassTo(nodes, steps, open, n).None?
  {
    if k < n {
      PassStaysFailed(nodes, steps, open, k, n - 1);
    }
  }

  // ----- What one pass leaves -----

  lemma PassDefined(nodes: seq<Node>, steps: Steps, open: bool, k: nat, n: nat)
    requires k <= n <= |nodes| && PassTo(nodes, steps, open, n).Some?
    ensures PassTo(nodes, steps, open, k).Some?
  {
  }

  lemma {:induction false} PassKeeps(nodes: seq<Node>, steps: Steps, open: bool, k: nat, n: nat, key: string)
    requires k <= n <= |nodes| && PassTo(nodes, steps, open, n).Some? && PassTo(nodes, steps, open, k).Some?
    requires key in PassTo(nodes, steps, open, k).value || forall i :: k <= i < n ==> nodes[i].key != key
    ensures var before, after := PassTo(nodes, steps, open, k).value, PassTo(nodes, steps, open, n).value;
            (key in after <==> key in before) && (key in before ==> after[key] == before[key])
  {
    if k < n {
      PassDefined(nodes, steps, open, n - 1, n);
      PassKeeps(nodes, steps, open, k, n - 1, key);
    }
  }

  /** A stored step is never replaced by a pass. */
  lemma PassKeepsStored(nodes: seq<Node>, steps: Steps, open: bool, key: string)
    requires Pass(nodes, steps, open).Some? && key in steps
    ensures key in Pass(nodes, steps, open).value && Pass(nodes, steps, open).value[key] == steps[key]
  {
    PassKeeps(nodes, steps, open, 0, |nodes|, key);
  }

  predicate HasDeadEnd(node: Node, steps: Steps) {
    exists d <- node.dependsOn :: DeadEnd(steps, d)
  }

  /** Everything a node depends on is decided before the pass reaches it. */
  lemma DependenciesSettled(nodes: seq<Node>, steps: Steps, open: bool, i: nat)
    requires Ordered(nodes) && i < |nodes|
    requires Pass(nodes, steps, open).Some? && PassTo(nodes, steps, open, i).Some?
    ensures var before, after, node := PassTo(nodes, steps, open, i).value, Pass(nodes, steps, open).value, nodes[i];
            (HasDeadEnd(node, before) <==> HasDeadEnd(node, after))
            && (DependenciesSucceeded(node, before) <==> DependenciesSucceeded(node, after))
  {
    var before, after, node := PassTo(nodes, steps, open, i).value, Pass(nodes, steps, open).value, nodes[i];
    forall d | d in node.dependsOn
      ensures (d in after <==> d in before) && (d in before ==> after[d] == before[d])
    {
      var j :| 0 <= j < i && nodes[j].key == d;
      PassKeeps(nodes, steps, open, i, |nodes|, d);
    }
  }

  lemma Decided(node: Node, steps: Steps, open: bool)
    requires node.key !in steps
    ensures match Decide(node, steps, open)
            case Skip => HasDeadEnd(node, steps)
            case MakeReady => !HasDeadEnd(node, steps) && open && !node.gated && DependenciesSucceeded(node, steps)
            case Leave => !HasDeadEnd(node, steps) && !(open && !node.gated && DependenciesSucceeded(node, steps))
            case Refuse => true
  {
    var blocked := Blocked(node.dependsOn, steps);
    if blocked != [] {
      assert blocked[0] in blocked;
    }
  }

  /** The decision about a node can be read off the steps the whole pass leaves. */
  lemma DecidedOnce(nodes: seq<Node>, steps: Steps, open: bool, i: nat)
    requires Ordered(nodes) && i < |nodes| && nodes[i].key !in steps
    requires Pass(nodes, steps, open).Some?
    ensures var after, node := Pass(nodes, steps, open).value, nodes[i];
            var ready := open && !node.gated && DependenciesSucceeded(node, after);
            (node.key in after <==> HasDeadEnd(node, after) || ready)
            && (node.key in after ==> after[node.key] == if HasDeadEnd(node, after) then Skipped else Ready)
  {
    var node := nodes[i];
    PassDefined(nodes, steps, open, i, |nodes|);
    PassDefined(nodes, steps, open, i + 1, |nodes|);
    UntouchedBefore(nodes, steps, open, i, node.key);
    PassKeeps(nodes, steps, open, i + 1, |nodes|, node.key);
    DependenciesSettled(nodes, steps, open, i);
    Decided(node, PassTo(nodes, steps, open, i).value, open);
  }

  lemma {:induction false} UntouchedBefore(nodes: seq<Node>, steps: Steps, open: bool, k: nat, key: string)
    requires k <= |nodes| && PassTo(nodes, steps, open, k).Some?
    requires key !in steps && forall i :: 0 <= i < k ==> nodes[i].key != key
    ensures key !in PassTo(nodes, steps, open, k).value
  {
    PassKeeps(nodes, steps, open, 0, k, key);
  }
}
