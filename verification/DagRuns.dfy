/** Whole runs of a workflow: wake-ups in any order, steps concluding in between. */
module DagRuns {
  import opened Outcomes
  import opened DagSchedule

  datatype Event = Wake(open: bool) | StepMoves(key: string, next: StepState)

  /** The stored steps and the keys of the inserted ones, in order of insertion. */
  datatype World = World(steps: Steps, inserted: seq<string>)

  predicate CanMove(now: StepState, next: StepState) {
    (now == Ready || now == Live) && next != Skipped
  }

  function NewKeys(nodes: seq<Node>, before: Steps, after: Steps): seq<string> {
    if nodes == [] then []
    else
      (if nodes[0].key in after && nodes[0].key !in before then [nodes[0].key] else [])
      + NewKeys(nodes[1..], before, after)
  }

  /** A pass that breaks an invariant is rolled back. */
  function Step(nodes: seq<Node>, w: World, e: Event): World {
    match e
    case Wake(open) =>
      (match Pass(nodes, w.steps, open)
       case None => w
       case Some(after) => World(after, w.inserted + NewKeys(nodes, w.steps, after)))
    case StepMoves(key, next) =>
      if key in w.steps && CanMove(w.steps[key], next) then w.(steps := w.steps[key := next]) else w
  }

  function Run(nodes: seq<Node>, w: World, events: seq<Event>): World
    decreases |events|
  {
    if events == [] then w else Run(nodes, Step(nodes, w, events[0]), events[1..])
  }

  const Empty: World := World(map[], [])

  // ----- Every reachable state -----

  /** A skipped node hangs on a dead end; any other step began with all its dependencies done. */
  predicate Consistent(nodes: seq<Node>, steps: Steps) {
    (forall key :: key in steps ==> exists i :: 0 <= i < |nodes| && nodes[i].key == key)
    && forall i :: 0 <= i < |nodes| && nodes[i].key in steps ==>
         if steps[nodes[i].key] == Skipped then HasDeadEnd(nodes[i], steps)
         else DependenciesSucceeded(nodes[i], steps)
  }

  lemma PassKeyIsNode(nodes: seq<Node>, steps: Steps, open: bool, key: string)
    requires Pass(nodes, steps, open).Some? && key in Pass(nodes, steps, open).value && key !in steps
    ensures exists i :: 0 <= i < |nodes| && nodes[i].key == key
  {
    if forall i :: 0 <= i < |nodes| ==> nodes[i].key != key {
      UntouchedBefore(nodes, steps, open, |nodes|, key);
    }
  }

  lemma PassKeepsConsistent(nodes: seq<Node>, steps: Steps, open: bool)
    requires Ordered(nodes) && Consistent(nodes, steps) && Pass(nodes, steps, open).Some?
    ensures Consistent(nodes, Pass(nodes, steps, open).value)
  {
    var after := Pass(nodes, steps, open).value;
    forall key | key in steps ensures key in after && after[key] == steps[key] {
      PassKeepsStored(nodes, steps, open, key);
    }
    forall key | key in after ensures exists i :: 0 <= i < |nodes| && nodes[i].key == key {
      if key !in steps { PassKeyIsNode(nodes, steps, open, key); }
    }
    forall i | 0 <= i < |nodes| && nodes[i].key in after
      ensures if after[nodes[i].key] == Skipped then HasDeadEnd(nodes[i], after)
              else DependenciesSucceeded(nodes[i], after)
    {
      if nodes[i].key in steps {
        if steps[nodes[i].key] == Skipped {
          var d :| d in nodes[i].dependsOn && DeadEnd(steps, d);
          assert DeadEnd(after, d);
        }
      } else {
        DecidedOnce(nodes, steps, open, i);
      }
    }
  }

  /** A move keeps what other nodes rest on: dead ends stay dead, successes stay successes. */
  lemma MoveKeepsNode(node: Node, steps: Steps, key: string, next: StepState)
    requires key in steps && CanMove(steps[key], next)
    ensures HasDeadEnd(node, steps) ==> HasDeadEnd(node, steps[key := next])
    ensures DependenciesSucceeded(node, steps) ==> DependenciesSucceeded(node, steps[key := next])
  {
  }

  lemma MoveKeepsConsistent(nodes: seq<Node>, steps: Steps, key: string, next: StepState)
    requires Consistent(nodes, steps) && key in steps && CanMove(steps[key], next)
    ensures Consistent(nodes, steps[key := next])
  {
    var after := steps[key := next];
    forall i | 0 <= i < |nodes| && nodes[i].key in after
      ensures if after[nodes[i].key] == Skipped then HasDeadEnd(nodes[i], after)
              else DependenciesSucceeded(nodes[i], after)
    {
      MoveKeepsNode(nodes[i], steps, key, next);
    }
  }

  lemma {:induction false} NewKeysAreNew(nodes: seq<Node>, before: Steps, after: Steps)
    requires forall i, j :: 0 <= i < j < |nodes| ==> nodes[i].key != nodes[j].key
    ensures Distinct(NewKeys(nodes, before, after))
    ensures forall key :: key in NewKeys(nodes, before, after)
              <==> key in after && key !in before && exists i :: 0 <= i < |nodes| && nodes[i].key == key
  {
    if nodes != [] {
      NewKeysAreNew(nodes[1..], before, after);
      assert nodes == [nodes[0]] + nodes[1..];
    }
  }

  /** Every node has at most one step: insertions are distinct and account for every stored step. */
  ghost predicate OneStepEach(w: World) {
    Distinct(w.inserted) && forall key :: key in w.inserted <==> key in w.steps
  }

  lemma StepKeeps(nodes: seq<Node>, w: World, e: Event)
    requires Ordered(nodes) && Consistent(nodes, w.steps) && OneStepEach(w)
    ensures Consistent(nodes, Step(nodes, w, e).steps) && OneStepEach(Step(nodes, w, e))
  {
    match e
    case Wake(open) =>
      if Pass(nodes, w.steps, open).Some? {
        var after := Pass(nodes, w.steps, open).value;
        PassKeepsConsistent(nodes, w.steps, open);
        NewKeysAreNew(nodes, w.steps, after);
        var added := NewKeys(nodes, w.steps, after);
        forall key ensures key in w.inserted + added <==> key in after {
          if key in w.steps {
            PassKeepsStored(nodes, w.steps, open, key);
          } else if key in after {
            PassKeyIsNode(nodes, w.steps, open, key);
          }
        }
        forall i, j | 0 <= i < |w.inserted| && 0 <= j < |added| ensures w.inserted[i] != added[j] {
          assert w.inserted[i] in w.inserted && added[j] in added;
        }
      }
    case StepMoves(key, next) =>
      if key in w.steps && CanMove(w.steps[key], next) {
        MoveKeepsConsistent(nodes, w.steps, key, next);
      }
  }

  /** In every run no node gets two steps, and the states stay consistent with the dependencies. */
  lemma {:induction false} RunKeeps(nodes: seq<Node>, w: World, events: seq<Event>)
    requires Ordered(nodes) && Consistent(nodes, w.steps) && OneStepEach(w)
    ensures Consistent(nodes, Run(nodes, w, events).steps) && OneStepEach(Run(nodes, w, events))
    decreases |events|
  {
    if events != [] {
      StepKeeps(nodes, w, events[0]);
      RunKeeps(nodes, Step(nodes, w, events[0]), events[1..]);
    }
  }

  // ----- Failure closure -----

  ghost predicate DependsOn(nodes: seq<Node>, key: string, dependency: string) {
    exists i :: 0 <= i < |nodes| && nodes[i].key == key && dependency in nodes[i].dependsOn
  }

  /** A chain of keys, each depending on the one before it. */
  ghost predicate IsPath(nodes: seq<Node>, path: seq<string>) {
    |path| >= 2 && forall t :: 0 < t < |path| ==> DependsOn(nodes, path[t], path[t - 1])
  }

  ghost predicate PathFromFailure(nodes: seq<Node>, steps: Steps, path: seq<string>, key: string) {
    IsPath(nodes, path) && path[|path| - 1] == key && path[0] in steps && steps[path[0]] == Failed
  }

  /** Some strict ancestor of the node failed. */
  ghost predicate FailedAbove(nodes: seq<Node>, steps: Steps, key: string) {
    exists path :: PathFromFailure(nodes, steps, path, key)
  }

  /** No unstarted node hangs on a dead end any more. */
  predicate Closed(nodes: seq<Node>, steps: Steps) {
    forall i :: 0 <= i < |nodes| && HasDeadEnd(nodes[i], steps) ==> nodes[i].key in steps
  }

  lemma PassCloses(nodes: seq<Node>, steps: Steps, open: bool)
    requires Ordered(nodes) && Consistent(nodes, steps) && Pass(nodes, steps, open).Some?
    ensures Closed(nodes, Pass(nodes, steps, open).value)
  {
    var after := Pass(nodes, steps, open).value;
    forall i | 0 <= i < |nodes| && HasDeadEnd(nodes[i], after) ensures nodes[i].key in after {
      if nodes[i].key in steps {
        PassKeepsStored(nodes, steps, open, nodes[i].key);
      } else {
        DecidedOnce(nodes, steps, open, i);
      }
    }
  }

  lemma {:induction false} SkippedHasPath(nodes: seq<Node>, steps: Steps, i: nat)
    requires Ordered(nodes) && Consistent(nodes, steps) && i < |nodes|
    requires nodes[i].key in steps && steps[nodes[i].key] == Skipped
    ensures FailedAbove(nodes, steps, nodes[i].key)
    decreases i
  {
    var key := nodes[i].key;
    var d := DeadEndOf(nodes[i], steps);
    assert DependsOn(nodes, key, d);
    if steps[d] == Failed {
      EdgeIsPath(nodes, steps, d, key);
    } else {
      assert ListedBefore(nodes, i, d);
      var j :| 0 <= j < i && nodes[j].key == d;
      SkippedHasPath(nodes, steps, j);
      var path :| PathFromFailure(nodes, steps, path, d);
      PathGrows(nodes, steps, path, d, key);
    }
  }

  ghost function DeadEndOf(node: Node, steps: Steps): (d: string)
    requires HasDeadEnd(node, steps)
    ensures d in node.dependsOn && DeadEnd(steps, d)
  {
    var d :| d in node.dependsOn && DeadEnd(steps, d);
    d
  }

  lemma EdgeIsPath(nodes: seq<Node>, steps: Steps, d: string, key: string)
    requires DependsOn(nodes, key, d) && d in steps && steps[d] == Failed
    ensures FailedAbove(nodes, steps, key)
  {
    assert PathFromFailure(nodes, steps, [d, key], key);
  }

  lemma PathGrows(nodes: seq<Node>, steps: Steps, path: seq<string>, d: string, key: string)
    requires PathFromFailure(nodes, steps, path, d) && DependsOn(nodes, key, d)
    ensures PathFromFailure(nodes, steps, path + [key], key)
  {
  }

  lemma {:induction false} PathIsSkipped(nodes: seq<Node>, steps: Steps, path: seq<string>)
    requires Consistent(nodes, steps) && Closed(nodes, steps)
    requires IsPath(nodes, path) && path[0] in steps && steps[path[0]] == Failed
    ensures path[|path| - 1] in steps && steps[path[|path| - 1]] == Skipped
    decreases |path|
  {
    var last := |path| - 1;
    if last > 1 {
      var shorter := path[..last];
      forall t | 0 < t < |shorter| ensures DependsOn(nodes, shorter[t], shorter[t - 1]) {
        assert DependsOn(nodes, path[t], path[t - 1]);
      }
      PathIsSkipped(nodes, steps, shorter);
    }
    assert DeadEnd(steps, path[last - 1]);
    assert DependsOn(nodes, path[last], path[last - 1]);
    var i :| 0 <= i < |nodes| && nodes[i].key == path[last] && path[last - 1] in nodes[i].dependsOn;
    assert HasDeadEnd(nodes[i], steps);
  }

  /** In a closed state the skipped nodes are exactly the strict descendants of the failed ones. */
  lemma SkippedIffFailedAbove(nodes: seq<Node>, steps: Steps, key: string)
    requires Ordered(nodes) && Consistent(nodes, steps) && Closed(nodes, steps)
    ensures (key in steps && steps[key] == Skipped) <==> FailedAbove(nodes, steps, key)
  {
    if key in steps && steps[key] == Skipped {
      var i :| 0 <= i < |nodes| && nodes[i].key == key;
      SkippedHasPath(nodes, steps, i);
    }
    if FailedAbove(nodes, steps, key) {
      var path :| PathFromFailure(nodes, steps, path, key);
      PathIsSkipped(nodes, steps, path);
    }
  }

  /** A pass skips exactly the unstarted nodes with a failed strict ancestor, inside the window or after it. */
  lemma PassSkipsExactly(nodes: seq<Node>, steps: Steps, open: bool, key: string)
    requires Ordered(nodes) && Consistent(nodes, steps) && Pass(nodes, steps, open).Some?
    requires key !in steps
    ensures var after := Pass(nodes, steps, open).value;
            (key in after && after[key] == Skipped) <==> FailedAbove(nodes, steps, key)
  {
    var after := Pass(nodes, steps, open).value;
    PassKeepsConsistent(nodes, steps, open);
    PassCloses(nodes, steps, open);
    SkippedIffFailedAbove(nodes, after, key);
    forall x ensures (x in after && after[x] == Failed) <==> (x in steps && steps[x] == Failed) {
      FailedIsOld(nodes, steps, open, x);
    }
    if path :| PathFromFailure(nodes, steps, path, key) {
      assert PathFromFailure(nodes, after, path, key);
    }
    if path :| PathFromFailure(nodes, after, path, key) {
      assert PathFromFailure(nodes, steps, path, key);
    }
  }

  lemma FailedIsOld(nodes: seq<Node>, steps: Steps, open: bool, key: string)
    requires Ordered(nodes) && Pass(nodes, steps, open).Some?
    ensures var after := Pass(nodes, steps, open).value;
            ((key in after && after[key] == Failed) <==> (key in steps && steps[key] == Failed))
            && ((key in after && after[key] == Succeeded) <==> (key in steps && steps[key] == Succeeded))
  {
    var after := Pass(nodes, steps, open).value;
    if key in steps {
      PassKeepsStored(nodes, steps, open, key);
    } else if key in after {
      PassKeyIsNode(nodes, steps, open, key);
      var i :| 0 <= i < |nodes| && nodes[i].key == key;
      DecidedOnce(nodes, steps, open, i);
    }
  }

  /** A pass readies exactly the ungated unstarted nodes whose dependencies had all succeeded, in the window. */
  lemma PassReadiesExactly(nodes: seq<Node>, steps: Steps, open: bool, i: nat)
    requires Ordered(nodes) && Consistent(nodes, steps) && Pass(nodes, steps, open).Some?
    requires i < |nodes| && nodes[i].key !in steps
    ensures var after := Pass(nodes, steps, open).value;
            (nodes[i].key in after && after[nodes[i].key] == Ready)
            <==> open && !nodes[i].gated && DependenciesSucceeded(nodes[i], steps)
  {
    var after := Pass(nodes, steps, open).value;
    DecidedOnce(nodes, steps, open, i);
    forall d | d in nodes[i].dependsOn
      ensures (d in after && after[d] == Succeeded) <==> (d in steps && steps[d] == Succeeded)
    {
      FailedIsOld(nodes, steps, open, d);
    }
  }

  /** The skipped nodes depend only on which nodes failed, not on when the scheduler woke up. */
  lemma SkippedDependsOnlyOnFailures(nodes: seq<Node>, one: seq<Event>, other: seq<Event>,
                                     open: bool, otherOpen: bool, key: string)
    requires Ordered(nodes)
    requires Pass(nodes, Run(nodes, Empty, one).steps, open).Some?
    requires Pass(nodes, Run(nodes, Empty, other).steps, otherOpen).Some?
    requires var s, t := Run(nodes, Empty, one).steps, Run(nodes, Empty, other).steps;
             forall x :: (x in s && s[x] == Failed) <==> (x in t && t[x] == Failed)
    ensures var s := Pass(nodes, Run(nodes, Empty, one).steps, open).value;
            var t := Pass(nodes, Run(nodes, Empty, other).steps, otherOpen).value;
            (key in s && s[key] == Skipped) <==> (key in t && t[key] == Skipped)
  {
    RunKeeps(nodes, Empty, one);
    RunKeeps(nodes, Empty, other);
    FinalSkips(nodes, Run(nodes, Empty, one).steps, open, key);
    FinalSkips(nodes, Run(nodes, Empty, other).steps, otherOpen, key);
    var s, t := Run(nodes, Empty, one).steps, Run(nodes, Empty, other).steps;
    forall path ensures PathFromFailure(nodes, s, path, key) <==> PathFromFailure(nodes, t, path, key) {}
  }

  lemma FinalSkips(nodes: seq<Node>, steps: Steps, open: bool, key: string)
    requires Ordered(nodes) && Consistent(nodes, steps) && Pass(nodes, steps, open).Some?
    ensures var after := Pass(nodes, steps, open).value;
            (key in after && after[key] == Skipped) <==> FailedAbove(nodes, steps, key)
  {
    if key in steps {
      var after := Pass(nodes, steps, open).value;
      PassKeepsConsistent(nodes, steps, open);
      PassCloses(nodes, steps, open);
      SkippedIffFailedAbove(nodes, after, key);
      forall x ensures (x in after && after[x] == Failed) <==> (x in steps && steps[x] == Failed) {
        FailedIsOld(nodes, steps, open, x);
      }
      forall path ensures PathFromFailure(nodes, after, path, key) <==> PathFromFailure(nodes, steps, path, key) {}
    } else {
      PassSkipsExactly(nodes, steps, open, key);
    }
  }

  // ----- When a pass breaks its own invariant -----

  ghost predicate RepeatsDeadEnd(dependsOn: seq<string>, steps: Steps) {
    exists a, b :: 0 <= a < b < |dependsOn| && dependsOn[a] == dependsOn[b] && DeadEnd(steps, dependsOn[a])
  }

  lemma HeadRepeats(head: string, later: seq<string>)
    requires head in later
    ensures !Distinct([head] + later)
  {
    var c :| 0 <= c < |later| && later[c] == head;
    var all := [head] + later;
    assert all[0] == all[c + 1];
  }

  lemma {:induction false} BlockedRepeats(dependsOn: seq<string>, steps: Steps)
    ensures Distinct(Blocked(dependsOn, steps)) <==> !RepeatsDeadEnd(dependsOn, steps)
  {
    if dependsOn != [] {
      var tail := dependsOn[1..];
      var later := Blocked(tail, steps);
      BlockedRepeats(tail, steps);
      if a, b :| 0 <= a < b < |tail| && tail[a] == tail[b] && DeadEnd(steps, tail[a]) {
        assert dependsOn[a + 1] == dependsOn[b + 1];
      }
      if a, b :| 0 <= a < b < |dependsOn| && dependsOn[a] == dependsOn[b] && DeadEnd(steps, dependsOn[a]) {
        if a > 0 {
          assert tail[a - 1] == tail[b - 1];
        } else {
          assert tail[b - 1] in later;
        }
      }
      if DeadEnd(steps, dependsOn[0]) {
        if dependsOn[0] in later {
          var b :| 0 <= b < |tail| && tail[b] == dependsOn[0];
          assert dependsOn[b + 1] == dependsOn[0];
          HeadRepeats(dependsOn[0], later);
        }
        assert Distinct([dependsOn[0]] + later) ==> Distinct(later) by {
          assert forall i :: 0 <= i < |later| ==> ([dependsOn[0]] + later)[i + 1] == later[i];
        }
      }
    }
  }

  /** Ends dead whatever happens next: it failed or was skipped, or it will be skipped by this pass. */
  ghost predicate EndsDead(nodes: seq<Node>, steps: Steps, key: string) {
    DeadEnd(steps, key) || (key !in steps && FailedAbove(nodes, steps, key))
  }

  /** An unstarted node names the same dead dependency twice. */
  ghost predicate RepeatsDoomed(nodes: seq<Node>, steps: Steps, i: nat)
    requires i < |nodes|
  {
    nodes[i].key !in steps
    && exists a, b :: 0 <= a < b < |nodes[i].dependsOn| && nodes[i].dependsOn[a] == nodes[i].dependsOn[b]
                      && EndsDead(nodes, steps, nodes[i].dependsOn[a])
  }

  predicate Named(nodes: seq<Node>) {
    forall i :: 0 <= i < |nodes| ==> !Blank(nodes[i].key)
  }

  lemma {:induction false} NewDeadEndHasPath(nodes: seq<Node>, steps: Steps, open: bool, k: nat, key: string)
    requires Ordered(nodes) && Consistent(nodes, steps) && k <= |nodes|
    requires PassTo(nodes, steps, open, k).Some? && key !in steps && DeadEnd(PassTo(nodes, steps, open, k).value, key)
    ensures FailedAbove(nodes, steps, key)
    decreases k, 0
  {
    if k > 0 {
      PassDefined(nodes, steps, open, k - 1, k);
      var before := PassTo(nodes, steps, open, k - 1).value;
      var node := nodes[k - 1];
      if DeadEnd(before, key) {
        NewDeadEndHasPath(nodes, steps, open, k - 1, key);
      } else {
        assert node.key == key;
        Decided(node, before, open);
        var d := DeadEndOf(node, before);
        assert DependsOn(nodes, key, d);
        DeadEndGivesPath(nodes, steps, open, k - 1, d, key);
      }
    }
  }

  lemma {:induction false} DeadEndGivesPath(nodes: seq<Node>, steps: Steps, open: bool, k: nat, d: string, key: string)
    requires Ordered(nodes) && Consistent(nodes, steps) && k <= |nodes|
    requires PassTo(nodes, steps, open, k).Some? && DeadEnd(PassTo(nodes, steps, open, k).value, d)
    requires DependsOn(nodes, key, d)
    ensures FailedAbove(nodes, steps, key)
    decreases k, 1
  {
    if d in steps {
      PassKeeps(nodes, steps, open, 0, k, d);
      if steps[d] == Failed {
        EdgeIsPath(nodes, steps, d, key);
        return;
      }
      var i :| 0 <= i < |nodes| && nodes[i].key == d;
      SkippedHasPath(nodes, steps, i);
    } else {
      NewDeadEndHasPath(nodes, steps, open, k, d);
    }
    var path :| PathFromFailure(nodes, steps, path, d);
    PathGrows(nodes, steps, path, d, key);
  }

  lemma RefusedRepeats(nodes: seq<Node>, steps: Steps, open: bool, k: nat)
    requires Ordered(nodes) && Named(nodes) && Consistent(nodes, steps) && k < |nodes|
    requires PassTo(nodes, steps, open, k).Some? && PassTo(nodes, steps, open, k + 1).None?
    ensures RepeatsDoomed(nodes, steps, k)
  {
    var before, node := PassTo(nodes, steps, open, k).value, nodes[k];
    assert Decide(node, before, open) == Refuse;
    if node.key in steps {
      PassKeeps(nodes, steps, open, 0, k, node.key);
    }
    var blocked := Blocked(node.dependsOn, before);
    forall d | d in blocked ensures !Blank(d) {
      assert ListedBefore(nodes, k, d);
    }
    BlockedRepeats(node.dependsOn, before);
    var a, b :| 0 <= a < b < |node.dependsOn| && node.dependsOn[a] == node.dependsOn[b]
                && DeadEnd(before, node.dependsOn[a]);
    var d := node.dependsOn[a];
    if d in steps {
      PassKeeps(nodes, steps, open, 0, k, d);
    } else {
      NewDeadEndHasPath(nodes, steps, open, k, d);
    }
    assert EndsDead(nodes, steps, node.dependsOn[a]);
  }

  lemma DoomedWhenReached(nodes: seq<Node>, steps: Steps, open: bool, i: nat, d: string)
    requires Ordered(nodes) && Consistent(nodes, steps) && i < |nodes| && d in nodes[i].dependsOn
    requires Pass(nodes, steps, open).Some? && PassTo(nodes, steps, open, i).Some?
    requires EndsDead(nodes, steps, d)
    ensures DeadEnd(PassTo(nodes, steps, open, i).value, d)
  {
    if d in steps {
      PassKeeps(nodes, steps, open, 0, i, d);
    } else {
      PassSkipsExactly(nodes, steps, open, d);
      assert ListedBefore(nodes, i, d);
      var j :| 0 <= j < i && nodes[j].key == d;
      PassKeeps(nodes, steps, open, i, |nodes|, d);
    }
  }

  lemma DoomedRepeats(nodes: seq<Node>, steps: Steps, open: bool, i: nat)
    requires Ordered(nodes) && Consistent(nodes, steps) && i < |nodes| && RepeatsDoomed(nodes, steps, i)
    requires Pass(nodes, steps, open).Some? && PassTo(nodes, steps, open, i).Some?
    ensures RepeatsDeadEnd(nodes[i].dependsOn, PassTo(nodes, steps, open, i).value)
  {
    var deps := nodes[i].dependsOn;
    var a, b :| 0 <= a < b < |deps| && deps[a] == deps[b] && EndsDead(nodes, steps, deps[a]);
    DoomedWhenReached(nodes, steps, open, i, deps[a]);
  }

  lemma ReachedIsDecided(nodes: seq<Node>, steps: Steps, open: bool, i: nat)
    requires Ordered(nodes) && i < |nodes| && nodes[i].key !in steps && Pass(nodes, steps, open).Some?
    ensures PassTo(nodes, steps, open, i).Some?
    ensures nodes[i].key !in PassTo(nodes, steps, open, i).value
    ensures Decide(nodes[i], PassTo(nodes, steps, open, i).value, open) != Refuse
  {
    PassDefined(nodes, steps, open, i, |nodes|);
    PassDefined(nodes, steps, open, i + 1, |nodes|);
    UntouchedBefore(nodes, steps, open, i, nodes[i].key);
  }

  lemma RepeatsRefused(nodes: seq<Node>, steps: Steps, open: bool, i: nat)
    requires Ordered(nodes) && Consistent(nodes, steps) && i < |nodes|
    requires RepeatsDoomed(nodes, steps, i)
    ensures Pass(nodes, steps, open).None?
  {
    if Pass(nodes, steps, open).Some? {
      ReachedIsDecided(nodes, steps, open, i);
      DoomedRepeats(nodes, steps, open, i);
      RepeatedIsRefused(nodes[i], PassTo(nodes, steps, open, i).value, open);
    }
  }

  lemma RepeatedIsRefused(node: Node, steps: Steps, open: bool)
    requires node.key !in steps && RepeatsDeadEnd(node.dependsOn, steps)
    ensures Decide(node, steps, open) == Refuse
  {
    BlockedRepeats(node.dependsOn, steps);
    var a, b :| 0 <= a < b < |node.dependsOn| && node.dependsOn[a] == node.dependsOn[b]
                && DeadEnd(steps, node.dependsOn[a]);
    assert node.dependsOn[a] in Blocked(node.dependsOn, steps);
  }

  /**
   * The compiler lets a node name a dependency twice, and the step aggregate refuses such evidence:
   * a pass fails exactly when an unstarted node names a dead dependency twice.
   */
  lemma PassFailsIff(nodes: seq<Node>, steps: Steps, open: bool)
    requires Ordered(nodes) && Named(nodes) && Consistent(nodes, steps)
    ensures Pass(nodes, steps, open).None? <==> exists i :: 0 <= i < |nodes| && RepeatsDoomed(nodes, steps, i)
  {
    if Pass(nodes, steps, open).None? {
      var k := FirstFailure(nodes, steps, open, |nodes|);
      RefusedRepeats(nodes, steps, open, k);
    }
    if i :| 0 <= i < |nodes| && RepeatsDoomed(nodes, steps, i) {
      RepeatsRefused(nodes, steps, open, i);
    }
  }

  ghost function FirstFailure(nodes: seq<Node>, steps: Steps, open: bool, n: nat): (k: nat)
    requires n <= |nodes| && PassTo(nodes, steps, open, n).None?
    ensures k < n && PassTo(nodes, steps, open, k).Some? && PassTo(nodes, steps, open, k + 1).None?
  {
    if PassTo(nodes, steps, open, n - 1).None? then FirstFailure(nodes, steps, open, n - 1) else n - 1
  }

  /** The failed dependency named twice: every pass over these steps fails. */
  lemma RepeatedDependencyFails(open: bool)
    ensures var nodes := [Node("a", [], false), Node("b", ["a", "a"], false)];
            Ordered(nodes) && Named(nodes) && Pass(nodes, map["a" := Failed], open).None?
  {
    var nodes := [Node("a", [], false), Node("b", ["a", "a"], false)];
    var steps: Steps := map["a" := Failed];
    assert nodes[0].key == "a";
    assert ListedBefore(nodes, 1, "a");
    assert 'a' in "a" && 'b' in "b";
    assert nodes[1].dependsOn[0] == nodes[1].dependsOn[1] && EndsDead(nodes, steps, nodes[1].dependsOn[0]);
    RepeatsRefused(nodes, steps, open, 1);
  }

  lemma FirstNodeIsReadied()
    ensures var nodes := [Node("a", [], false), Node("b", ["a", "a"], false)];
            Step(nodes, Empty, Wake(true)) == World(map["a" := Ready], ["a"])
  {
    var nodes := [Node("a", [], false), Node("b", ["a", "a"], false)];
    assert 'a' in "a" && !Blank("a");
    assert PassTo(nodes, map[], true, 1) == Some(map["a" := Ready]);
    assert Decide(nodes[1], map["a" := Ready], true) == Leave;
    assert Pass(nodes, map[], true) == Some(map["a" := Ready]);
    assert nodes[1..] == [Node("b", ["a", "a"], false)] && nodes[1..][1..] == [];
    assert NewKeys(nodes, map[], map["a" := Ready]) == ["a"];
  }

  lemma RunTwo(nodes: seq<Node>, w: World, a: Event, b: Event, next: World)
    requires Step(nodes, w, a) == next
    ensures Run(nodes, w, [a, b]) == Step(nodes, next, b)
  {
    assert [a, b][1..] == [b] && [b][1..] == [];
    assert Run(nodes, w, [a, b]) == Run(nodes, next, [b]) == Run(nodes, Step(nodes, next, b), []);
  }

  /**
   * A run from nothing of a workflow that names a dependency twice: once that dependency has failed no wake-up
   * changes anything, so the dependant is never skipped and the run never concludes.
   */
  lemma {:induction false} RepeatedDependencyStopsTheRun(later: seq<Event>)
    ensures var nodes := [Node("a", [], false), Node("b", ["a", "a"], false)];
            var w := Run(nodes, Empty, [Wake(true), StepMoves("a", Failed)]);
            w.steps == map["a" := Failed] && Run(nodes, w, later) == w
    decreases |later|
  {
    FirstNodeIsReadied();
    RunTwo([Node("a", [], false), Node("b", ["a", "a"], false)], Empty, Wake(true), StepMoves("a", Failed),
           World(map["a" := Ready], ["a"]));
    if later != [] {
      RepeatedDependencyFails(later[0].Wake? && later[0].open);
      RepeatedDependencyStopsTheRun(later[1..]);
    }
  }
}
