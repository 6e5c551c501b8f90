/** Ordering the nodes of a workflow: each after its dependencies, or no such order exists. */
module WorkflowOrder {
  import opened Outcomes
  import opened DagSchedule
  import opened KeyOrder

  function Without(keys: seq<string>, k: string): (r: seq<string>)
    ensures forall x :: x in r <==> x in keys && x != k
  {
    if keys == [] then [] else (if keys[0] == k then [] else [keys[0]]) + Without(keys[1..], k)
  }

  lemma {:induction false} WithoutIsDistinct(keys: seq<string>, k: string)
    requires Distinct(keys)
    ensures Distinct(Without(keys, k))
  {
    if keys != [] {
      assert forall i, j :: 0 <= i < j < |keys[1..]| ==> keys[1..][i] != keys[1..][j];
      WithoutIsDistinct(keys[1..], k);
      assert keys[0] !in Without(keys[1..], k);
    }
  }

  function Count(k: string, keys: seq<string>): nat {
    if keys == [] then 0 else (if keys[0] == k then 1 else 0) + Count(k, keys[1..])
  }

  /** Dependencies, with repetitions, that are not done yet. */
  function Missing(dependsOn: seq<string>, done: set<string>): nat {
    if dependsOn == [] then 0 else (if dependsOn[0] in done then 0 else 1) + Missing(dependsOn[1..], done)
  }

  function Repeat(k: string, n: nat): seq<string> {
    if n == 0 then [] else [k] + Repeat(k, n - 1)
  }

  /** The nodes that depend on a key, once per mention. */
  function Dependants(nodes: seq<Node>, key: string): seq<string> {
    if nodes == [] then [] else Repeat(nodes[0].key, Count(key, nodes[0].dependsOn)) + Dependants(nodes[1..], key)
  }

  predicate UniqueKeys(nodes: seq<Node>) {
    forall i, j :: 0 <= i < j < |nodes| ==> nodes[i].key != nodes[j].key
  }

  predicate IsNode(nodes: seq<Node>, key: string) {
    exists i :: 0 <= i < |nodes| && nodes[i].key == key
  }

  predicate Resolved(nodes: seq<Node>) {
    forall i :: 0 <= i < |nodes| ==> forall d <- nodes[i].dependsOn :: IsNode(nodes, d)
  }

  function DoneSet(ordered: seq<string>): set<string> {
    set k <- ordered
  }

  // ----- Counting lemmas -----

  lemma {:induction false} CountAppend(k: string, a: seq<string>, b: seq<string>)
    ensures Count(k, a + b) == Count(k, a) + Count(k, b)
  {
    if a == [] {
      assert a + b == b;
    } else {
      CountAppend(k, a[1..], b);
      assert (a + b)[1..] == a[1..] + b;
    }
  }

  lemma {:induction false} CountRepeat(k: string, x: string, n: nat)
    ensures Count(k, Repeat(x, n)) == if k == x then n else 0
  {
    if n > 0 {
      CountRepeat(k, x, n - 1);
      assert Repeat(x, n)[1..] == Repeat(x, n - 1);
    }
  }

  lemma {:induction false} CountMember(k: string, keys: seq<string>)
    ensures Count(k, keys) > 0 <==> k in keys
  {
    if keys != [] {
      CountMember(k, keys[1..]);
      assert keys == [keys[0]] + keys[1..];
    }
  }

  lemma {:induction false} NoDependantElsewhere(nodes: seq<Node>, key: string, k: string)
    requires !IsNode(nodes, k)
    ensures Count(k, Dependants(nodes, key)) == 0
  {
    if nodes != [] {
      assert nodes[0].key != k;
      assert forall i :: 0 <= i < |nodes[1..]| ==> nodes[1..][i] == nodes[i + 1];
      NoDependantElsewhere(nodes[1..], key, k);
      CountRepeat(k, nodes[0].key, Count(key, nodes[0].dependsOn));
      CountAppend(k, Repeat(nodes[0].key, Count(key, nodes[0].dependsOn)), Dependants(nodes[1..], key));
    }
  }

  /** A node is listed as a dependant as often as it mentions the key. */
  lemma {:induction false} DependantCount(nodes: seq<Node>, key: string, i: nat)
    requires UniqueKeys(nodes) && i < |nodes|
    ensures Count(nodes[i].key, Dependants(nodes, key)) == Count(key, nodes[i].dependsOn)
  {
    var k := nodes[i].key;
    CountRepeat(k, nodes[0].key, Count(key, nodes[0].dependsOn));
    CountAppend(k, Repeat(nodes[0].key, Count(key, nodes[0].dependsOn)), Dependants(nodes[1..], key));
    if i == 0 {
      NoDependantElsewhere(nodes[1..], key, k);
    } else {
      DependantCount(nodes[1..], key, i - 1);
    }
  }

  lemma {:induction false} MissingAfter(dependsOn: seq<string>, done: set<string>, key: string)
    requires key !in done
    ensures Missing(dependsOn, done) == Missing(dependsOn, done + {key}) + Count(key, dependsOn)
  {
    if dependsOn != [] {
      MissingAfter(dependsOn[1..], done, key);
    }
  }

  lemma {:induction false} MissingIsZero(dependsOn: seq<string>, done: set<string>)
    ensures Missing(dependsOn, done) == 0 <==> forall d <- dependsOn :: d in done
  {
    if dependsOn != [] {
      MissingIsZero(dependsOn[1..], done);
      assert dependsOn == [dependsOn[0]] + dependsOn[1..];
    }
  }

  // ----- The ordering loop -----

  /** What is left to wait for, with `pending` decrements still to make. */
  ghost predicate Counted(nodes: seq<Node>, remaining: map<string, nat>, done: set<string>, pending: seq<string>) {
    forall i :: 0 <= i < |nodes| ==>
      nodes[i].key in remaining
      && remaining[nodes[i].key] == Missing(nodes[i].dependsOn, done) + Count(nodes[i].key, pending)
  }

  /** Ready keys are the unlisted ones with nothing left to wait for, each once. */
  ghost predicate ReadyKeys(nodes: seq<Node>, remaining: map<string, nat>, ordered: seq<string>, ready: seq<string>) {
    Distinct(ready) && forall k :: k in ready <==> IsNode(nodes, k) && k !in ordered && k in remaining && remaining[k] == 0
  }

  ghost predicate ListedInOrder(nodes: seq<Node>, ordered: seq<string>) {
    Distinct(ordered) && (forall k <- ordered :: IsNode(nodes, k))
    && forall i, j :: 0 <= i < |nodes| && 0 <= j < |ordered| && ordered[j] == nodes[i].key ==>
         forall d <- nodes[i].dependsOn :: d in ordered[..j]
  }

  ghost predicate ListedAreFree(remaining: map<string, nat>, ordered: seq<string>) {
    forall k <- ordered :: k in remaining && remaining[k] == 0
  }

  /** One node listed: every node that mentions it waits for that much less, and newly free ones become ready. */
  method Release(nodes: seq<Node>, key: string, ghost ordered: seq<string>, counts: map<string, nat>, waiting: seq<string>)
    returns (remaining: map<string, nat>, ready: seq<string>)
    requires UniqueKeys(nodes) && key !in ordered && ListedAreFree(counts, ordered + [key])
    requires Counted(nodes, counts, DoneSet(ordered), [])
    requires ReadyKeys(nodes, counts, ordered + [key], waiting)
    ensures Counted(nodes, remaining, DoneSet(ordered + [key]), [])
    ensures ReadyKeys(nodes, remaining, ordered + [key], ready) && ListedAreFree(remaining, ordered + [key])
  {
    remaining, ready := counts, waiting;
    var dependants := Dependants(nodes, key);
    ghost var done := DoneSet(ordered + [key]);
    ReleaseStarts(nodes, key, ordered, counts);
    var t := 0;
    while t < |dependants|
      invariant 0 <= t <= |dependants|
      invariant Counted(nodes, remaining, done, dependants[t..])
      invariant ReadyKeys(nodes, remaining, ordered + [key], ready) && ListedAreFree(remaining, ordered + [key])
    {
      var dependant := dependants[t];
      DependantIsNode(nodes, key, dependant);
      CountedStep(nodes, remaining, done, dependants, t);
      remaining, ready := Decrement(nodes, remaining, ordered + [key], ready, dependant);
      t := t + 1;
    }
    assert dependants[t..] == [];
  }

  method Decrement(nodes: seq<Node>, counts: map<string, nat>, ghost listed: seq<string>, waiting: seq<string>, k: string)
    returns (remaining: map<string, nat>, ready: seq<string>)
    requires ReadyKeys(nodes, counts, listed, waiting) && ListedAreFree(counts, listed)
    requires IsNode(nodes, k) && k in counts && counts[k] >= 1
    ensures remaining == counts[k := counts[k] - 1]
    ensures ReadyKeys(nodes, remaining, listed, ready) && ListedAreFree(remaining, listed)
  {
    remaining := counts[k := counts[k] - 1];
    ready := if remaining[k] == 0 then waiting + [k] else waiting;
  }

  lemma DependantIsNode(nodes: seq<Node>, key: string, k: string)
    requires k in Dependants(nodes, key)
    ensures IsNode(nodes, k)
  {
    CountMember(k, Dependants(nodes, key));
    if !IsNode(nodes, k) {
      NoDependantElsewhere(nodes, key, k);
    }
  }

  /** The next dependant still waits, and after its decrement the counts match what is left. */
  lemma CountedStep(nodes: seq<Node>, remaining: map<string, nat>, done: set<string>, dependants: seq<string>, t: nat)
    requires t < |dependants| && Counted(nodes, remaining, done, dependants[t..]) && IsNode(nodes, dependants[t])
    ensures dependants[t] in remaining && remaining[dependants[t]] >= 1
    ensures Counted(nodes, remaining[dependants[t] := remaining[dependants[t]] - 1], done, dependants[t + 1..])
  {
  }

  lemma ReleaseStarts(nodes: seq<Node>, key: string, ordered: seq<string>, counts: map<string, nat>)
    requires UniqueKeys(nodes) && key !in ordered && Counted(nodes, counts, DoneSet(ordered), [])
    ensures Counted(nodes, counts, DoneSet(ordered + [key]), Dependants(nodes, key))
  {
    assert DoneSet(ordered + [key]) == DoneSet(ordered) + {key};
    forall i | 0 <= i < |nodes|
      ensures counts[nodes[i].key]
           == Missing(nodes[i].dependsOn, DoneSet(ordered + [key])) + Count(nodes[i].key, Dependants(nodes, key))
    {
      MissingAfter(nodes[i].dependsOn, DoneSet(ordered), key);
      DependantCount(nodes, key, i);
    }
  }

  method FirstCounts(nodes: seq<Node>) returns (remaining: map<string, nat>, ready: seq<string>)
    requires UniqueKeys(nodes)
    ensures Counted(nodes, remaining, {}, []) && ReadyKeys(nodes, remaining, [], ready)
  {
    remaining, ready := map[], [];
    var i := 0;
    while i < |nodes|
      invariant 0 <= i <= |nodes|
      invariant forall k :: k in remaining <==> exists j :: 0 <= j < i && nodes[j].key == k
      invariant forall j :: 0 <= j < i ==> remaining[nodes[j].key] == Missing(nodes[j].dependsOn, {})
      invariant Distinct(ready) && forall k :: k in ready <==> k in remaining && remaining[k] == 0
    {
      var node := nodes[i];
      assert node.key !in remaining && node.key !in ready;
      remaining := remaining[node.key := |node.dependsOn|];
      NothingDone(node.dependsOn);
      if node.dependsOn == [] {
        ready := ready + [node.key];
      }
      i := i + 1;
    }
  }

  lemma {:induction false} NothingDone(dependsOn: seq<string>)
    ensures Missing(dependsOn, {}) == |dependsOn|
  {
    if dependsOn != [] {
      NothingDone(dependsOn[1..]);
    }
  }

  // ----- Compilation -----

  function NodeOf(nodes: seq<Node>, key: string): Node
    requires IsNode(nodes, key)
  {
    if nodes[0].key == key then nodes[0]
    else
      assert exists i :: 0 <= i < |nodes[1..]| && nodes[1..][i].key == key by {
        var i :| 0 <= i < |nodes| && nodes[i].key == key;
        assert nodes[1..][i - 1] == nodes[i];
      }
      NodeOf(nodes[1..], key)
  }

  lemma {:induction false} NodeOfIs(nodes: seq<Node>, key: string)
    requires IsNode(nodes, key)
    ensures NodeOf(nodes, key) in nodes && NodeOf(nodes, key).key == key
  {
    if nodes[0].key != key {
      var i :| 0 <= i < |nodes| && nodes[i].key == key;
      assert nodes[1..][i - 1] == nodes[i];
      NodeOfIs(nodes[1..], key);
    }
  }

  function KeysOf(nodes: seq<Node>): (keys: seq<string>)
    ensures |keys| == |nodes| && forall i :: 0 <= i < |keys| ==> keys[i] == nodes[i].key
  {
    seq(|nodes|, i requires 0 <= i < |nodes| => nodes[i].key)
  }

  /** A list of all the nodes in which each comes after everything it depends on. */
  ghost predicate IsOrderOf(compiled: seq<Node>, nodes: seq<Node>) {
    Ordered(compiled) && |compiled| == |nodes| && forall n :: n in compiled <==> n in nodes
  }

  /** A node not listed yet whose dependencies all are. */
  predicate FreeAfter(node: Node, listed: seq<string>) {
    node.key !in listed && forall d <- node.dependsOn :: d in listed
  }

  /** The key of a free node, and no free node has an earlier one. */
  ghost predicate IsFirstFree(nodes: seq<Node>, listed: seq<string>, key: string) {
    (exists n <- nodes :: n.key == key && FreeAfter(n, listed))
    && forall n <- nodes :: FreeAfter(n, listed) ==> n.key == key || Earlier(key, n.key)
  }

  /** Each listed key is the first of those free at its turn. */
  ghost predicate PicksFirstFree(nodes: seq<Node>, ordered: seq<string>) {
    forall j :: 0 <= j < |ordered| ==> IsFirstFree(nodes, ordered[..j], ordered[j])
  }

  lemma ReadyIsFree(nodes: seq<Node>, remaining: map<string, nat>, listed: seq<string>, ready: seq<string>, i: nat)
    requires i < |nodes| && Counted(nodes, remaining, DoneSet(listed), []) && ReadyKeys(nodes, remaining, listed, ready)
    ensures nodes[i].key in ready <==> FreeAfter(nodes[i], listed)
  {
    MissingIsZero(nodes[i].dependsOn, DoneSet(listed));
    assert IsNode(nodes, nodes[i].key);
  }

  lemma SmallestIsFirstFree(nodes: seq<Node>, remaining: map<string, nat>, listed: seq<string>, ready: seq<string>)
    requires Counted(nodes, remaining, DoneSet(listed), []) && ReadyKeys(nodes, remaining, listed, ready) && ready != []
    ensures IsFirstFree(nodes, listed, Smallest(ready))
  {
    var key := Smallest(ready);
    assert IsNode(nodes, key);
    var i :| 0 <= i < |nodes| && nodes[i].key == key;
    ReadyIsFree(nodes, remaining, listed, ready, i);
    assert nodes[i] in nodes;
    forall n | n in nodes && FreeAfter(n, listed) ensures n.key == key || Earlier(key, n.key) {
      var j :| 0 <= j < |nodes| && nodes[j] == n;
      ReadyIsFree(nodes, remaining, listed, ready, j);
      SmallestIsFirst(ready, n.key);
    }
  }

  lemma PickNext(nodes: seq<Node>, listed: seq<string>, key: string)
    requires PicksFirstFree(nodes, listed) && IsFirstFree(nodes, listed, key)
    ensures PicksFirstFree(nodes, listed + [key])
  {
    var longer := listed + [key];
    forall j | 0 <= j < |longer| ensures IsFirstFree(nodes, longer[..j], longer[j]) {
      assert longer[..j] == listed[..j];
    }
  }

  lemma SamePick(nodes: seq<Node>, others: seq<Node>, listed: seq<string>, x: string, y: string)
    requires forall n :: n in nodes <==> n in others
    requires IsFirstFree(nodes, listed, x) && IsFirstFree(others, listed, y)
    ensures x == y
  {
    var n :| n in nodes && n.key == x && FreeAfter(n, listed);
    var m :| m in others && m.key == y && FreeAfter(m, listed);
    assert m in nodes && n in others;
    EarlierIsStrict(x, y);
  }

  lemma PrefixPicks(nodes: seq<Node>, ordered: seq<string>, n: nat)
    requires PicksFirstFree(nodes, ordered) && n <= |ordered|
    ensures PicksFirstFree(nodes, ordered[..n])
  {
    var front := ordered[..n];
    forall j | 0 <= j < n ensures IsFirstFree(nodes, front[..j], front[j]) { assert front[..j] == ordered[..j]; }
  }

  /** The same nodes in any order of declaration are listed in one order only. */
  lemma {:induction false} OrderIsTheOnly(nodes: seq<Node>, others: seq<Node>, a: seq<string>, b: seq<string>)
    requires forall n :: n in nodes <==> n in others
    requires PicksFirstFree(nodes, a) && PicksFirstFree(others, b) && |a| == |b|
    ensures a == b
    decreases |a|
  {
    if a != [] {
      var j := |a| - 1;
      PrefixPicks(nodes, a, j);
      PrefixPicks(others, b, j);
      OrderIsTheOnly(nodes, others, a[..j], b[..j]);
      SamePick(nodes, others, a[..j], a[j], b[j]);
      assert a == a[..j] + [a[j]] && b == b[..j] + [b[j]];
    }
  }

  /** The ordered keys, or nothing when the loop stops before every node is listed. */
  method OrderGraph(nodes: seq<Node>) returns (ordered: Option<seq<string>>)
    requires UniqueKeys(nodes) && Resolved(nodes)
    ensures ordered.Some? ==>
              ListedInOrder(nodes, ordered.value) && |ordered.value| == |nodes| && PicksFirstFree(nodes, ordered.value)
    ensures ordered.None? ==> exists stuck: set<string> :: IsStuck(nodes, stuck)
  {
    var listed: seq<string> := [];
    var remaining, ready := FirstCounts(nodes);
    assert DoneSet([]) == {};
    while ready != []
      invariant ListedInOrder(nodes, listed) && |listed| <= |nodes|
      invariant Counted(nodes, remaining, DoneSet(listed), [])
      invariant ReadyKeys(nodes, remaining, listed, ready) && ListedAreFree(remaining, listed)
      invariant PicksFirstFree(nodes, listed)
      decreases |nodes| - |listed|
    {
      var key := Smallest(ready);
      SmallestIsFirstFree(nodes, remaining, listed, ready);
      PickNext(nodes, listed, key);
      WithoutIsDistinct(ready, key);
      ready := Without(ready, key);
      ListNext(nodes, remaining, listed, key);
      remaining, ready := Release(nodes, key, listed, remaining, ready);
      listed := listed + [key];
    }
    if |listed| == |nodes| {
      return Some(listed);
    }
    NothingReady(nodes, remaining, listed);
    return None;
  }

  predicate WaitsIn(node: Node, stuck: set<string>) {
    exists d <- node.dependsOn :: d in stuck
  }

  ghost predicate KeyWaits(nodes: seq<Node>, k: string, stuck: set<string>) {
    exists i :: 0 <= i < |nodes| && nodes[i].key == k && WaitsIn(nodes[i], stuck)
  }

  /** Nodes that all wait for one another: each of them depends on one of them. */
  ghost predicate IsStuck(nodes: seq<Node>, stuck: set<string>) {
    stuck != {}
    && forall k {:trigger KeyWaits(nodes, k, stuck)} :: k in stuck ==> KeyWaits(nodes, k, stuck)
  }

  lemma ListNext(nodes: seq<Node>, remaining: map<string, nat>, listed: seq<string>, key: string)
    requires UniqueKeys(nodes) && ListedInOrder(nodes, listed) && Counted(nodes, remaining, DoneSet(listed), [])
    requires IsNode(nodes, key) && key !in listed && key in remaining && remaining[key] == 0
    ensures ListedInOrder(nodes, listed + [key]) && |listed| < |nodes|
  {
    var longer := listed + [key];
    forall i, j | 0 <= i < |nodes| && 0 <= j < |longer| && longer[j] == nodes[i].key
      ensures forall d <- nodes[i].dependsOn :: d in longer[..j]
    {
      if j < |listed| {
        assert longer[..j] == listed[..j];
      } else {
        assert longer[..j] == listed;
        MissingIsZero(nodes[i].dependsOn, DoneSet(listed));
      }
    }
    DistinctNodesFit(nodes, longer);
  }

  lemma {:induction false} DistinctNodesFit(nodes: seq<Node>, keys: seq<string>)
    requires Distinct(keys) && forall k <- keys :: IsNode(nodes, k)
    ensures |keys| <= |nodes|
    decreases |nodes|
  {
    if keys != [] {
      var last := keys[|keys| - 1];
      assert last in keys;
      var i :| 0 <= i < |nodes| && nodes[i].key == last;
      var fewer := nodes[..i] + nodes[i + 1..];
      forall k | k in keys[..|keys| - 1] ensures IsNode(fewer, k) {
        assert k in keys;
        var j :| 0 <= j < |nodes| && nodes[j].key == k;
        assert fewer[if j < i then j else j - 1] == nodes[j];
      }
      DistinctNodesFit(fewer, keys[..|keys| - 1]);
    }
  }

  lemma NothingReady(nodes: seq<Node>, remaining: map<string, nat>, listed: seq<string>)
    requires UniqueKeys(nodes) && Resolved(nodes) && |listed| < |nodes| && Distinct(listed)
    requires forall k <- listed :: IsNode(nodes, k)
    requires Counted(nodes, remaining, DoneSet(listed), []) && ReadyKeys(nodes, remaining, listed, [])
    ensures IsStuck(nodes, (set i | 0 <= i < |nodes| :: nodes[i].key) - DoneSet(listed))
  {
    var stuck := (set i | 0 <= i < |nodes| :: nodes[i].key) - DoneSet(listed);
    SomeUnlisted(nodes, listed);
    var u :| 0 <= u < |nodes| && nodes[u].key !in listed;
    assert nodes[u].key in stuck;
    forall k | k in stuck
      ensures KeyWaits(nodes, k, stuck)
    {
      var i :| 0 <= i < |nodes| && nodes[i].key == k;
      assert k !in [] && k in remaining && remaining[k] > 0;
      MissingIsZero(nodes[i].dependsOn, DoneSet(listed));
      var d :| d in nodes[i].dependsOn && d !in DoneSet(listed);
      assert IsNode(nodes, d);
      assert WaitsIn(nodes[i], stuck);
    }
  }

  lemma {:induction false} SomeUnlisted(nodes: seq<Node>, listed: seq<string>)
    requires UniqueKeys(nodes) && |listed| < |nodes|
    ensures exists i :: 0 <= i < |nodes| && nodes[i].key !in listed
    decreases |nodes|
  {
    var last := nodes[|nodes| - 1].key;
    if last in listed {
      var j :| 0 <= j < |listed| && listed[j] == last;
      var fewer := listed[..j] + listed[j + 1..];
      var front := nodes[..|nodes| - 1];
      SomeUnlisted(front, fewer);
      var i :| 0 <= i < |front| && front[i].key !in fewer;
      assert nodes[i].key == front[i].key != last;
    } else {
      assert nodes[|nodes| - 1].key !in listed;
    }
  }

  lemma OrderedNodeWaits(nodes: seq<Node>, stuck: set<string>, compiled: seq<Node>, j: nat)
    requires UniqueKeys(nodes) && IsStuck(nodes, stuck)
    requires j < |compiled| && compiled[j] in nodes && compiled[j].key in stuck
    ensures WaitsIn(compiled[j], stuck)
  {
    assert KeyWaits(nodes, compiled[j].key, stuck);
    var i :| 0 <= i < |nodes| && nodes[i].key == compiled[j].key && WaitsIn(nodes[i], stuck);
    var m :| 0 <= m < |nodes| && nodes[m] == compiled[j];
    assert i == m;
  }

  /** Nodes that wait for one another fit in no order. */
  lemma {:induction false} StuckHasNoOrder(nodes: seq<Node>, stuck: set<string>, compiled: seq<Node>, j: nat)
    requires UniqueKeys(nodes) && IsStuck(nodes, stuck) && Ordered(compiled)
    requires forall m :: 0 <= m < |compiled| ==> compiled[m] in nodes
    requires j < |compiled| && compiled[j].key in stuck
    ensures false
    decreases j
  {
    OrderedNodeWaits(nodes, stuck, compiled, j);
    var d :| d in compiled[j].dependsOn && d in stuck;
    assert ListedBefore(compiled, j, d);
    var m :| 0 <= m < j && compiled[m].key == d;
    StuckHasNoOrder(nodes, stuck, compiled, m);
  }

  /**
   * The compiler lists every node after its dependencies, or fails because no such list exists:
   * the compiled workflow is what the scheduler needs, and a workflow is refused only for a cycle.
   */
  method Compile(nodes: seq<Node>) returns (compiled: Option<seq<Node>>)
    requires UniqueKeys(nodes) && Resolved(nodes)
    ensures compiled.Some? ==> IsOrderOf(compiled.value, nodes) && PicksFirstFree(nodes, KeysOf(compiled.value))
    ensures compiled.None? ==> forall order :: !IsOrderOf(order, nodes)
  {
    var ordered := OrderGraph(nodes);
    if ordered.None? {
      ghost var stuck: set<string> :| IsStuck(nodes, stuck);
      NoOrderWhenStuck(nodes, stuck);
      return None;
    }
    var keys := ordered.value;
    var list: seq<Node> := seq(|keys|, j requires 0 <= j < |keys| => NodeOf(nodes, keys[j]));
    CompiledIsOrder(nodes, keys, list);
    forall j | 0 <= j < |keys| ensures KeysOf(list)[j] == keys[j] { NodeOfIs(nodes, keys[j]); }
    assert KeysOf(list) == keys;
    return Some(list);
  }

  lemma NoOrderWhenStuck(nodes: seq<Node>, stuck: set<string>)
    requires UniqueKeys(nodes) && IsStuck(nodes, stuck)
    ensures forall order :: !IsOrderOf(order, nodes)
  {
    forall order ensures !IsOrderOf(order, nodes) {
      OrderExcludesStuck(nodes, stuck, order);
    }
  }

  lemma OrderExcludesStuck(nodes: seq<Node>, stuck: set<string>, order: seq<Node>)
    requires UniqueKeys(nodes) && IsStuck(nodes, stuck)
    ensures !IsOrderOf(order, nodes)
  {
    if IsOrderOf(order, nodes) {
      var j := StuckPosition(nodes, stuck, order);
      assert forall m :: 0 <= m < |order| ==> order[m] in order;
      StuckHasNoOrder(nodes, stuck, order, j);
    }
  }

  ghost function StuckPosition(nodes: seq<Node>, stuck: set<string>, order: seq<Node>): (j: nat)
    requires IsStuck(nodes, stuck) && IsOrderOf(order, nodes)
    ensures j < |order| && order[j].key in stuck
  {
    var k :| k in stuck;
    assert KeyWaits(nodes, k, stuck);
    var i :| 0 <= i < |nodes| && nodes[i].key == k && WaitsIn(nodes[i], stuck);
    assert nodes[i] in order;
    var j :| 0 <= j < |order| && order[j] == nodes[i];
    j
  }

  lemma CompiledIsOrder(nodes: seq<Node>, keys: seq<string>, list: seq<Node>)
    requires UniqueKeys(nodes) && ListedInOrder(nodes, keys) && |keys| == |nodes| && |list| == |keys|
    requires forall j :: 0 <= j < |keys| ==> IsNode(nodes, keys[j]) && list[j] == NodeOf(nodes, keys[j])
    ensures IsOrderOf(list, nodes)
  {
    forall j | 0 <= j < |keys| ensures list[j].key == keys[j] && list[j] in nodes {
      NodeOfIs(nodes, keys[j]);
    }
    ListIsOrdered(nodes, keys, list);
    forall n | n in nodes ensures n in list {
      AllListed(nodes, keys, n);
      var j :| 0 <= j < |keys| && keys[j] == n.key;
      assert list[j].key == n.key && list[j] in nodes;
    }
  }

  lemma ListIsOrdered(nodes: seq<Node>, keys: seq<string>, list: seq<Node>)
    requires ListedInOrder(nodes, keys) && |list| == |keys|
    requires forall j :: 0 <= j < |keys| ==> list[j].key == keys[j] && list[j] in nodes
    ensures Ordered(list)
  {
  }

  lemma AllListed(nodes: seq<Node>, keys: seq<string>, n: Node)
    requires UniqueKeys(nodes) && Distinct(keys) && |keys| == |nodes| && n in nodes
    requires forall k <- keys :: IsNode(nodes, k)
    ensures n.key in keys
  {
    if n.key !in keys {
      DistinctNodesFit(nodes, keys + [n.key]);
    }
  }

  /** The compiler accepts a workflow that names a dependency twice. */
  lemma RepeatedDependencyCompiles()
    ensures var nodes := [Node("a", [], false), Node("b", ["a", "a"], false)];
            UniqueKeys(nodes) && Resolved(nodes) && IsOrderOf(nodes, nodes)
  {
    var nodes := [Node("a", [], false), Node("b", ["a", "a"], false)];
    assert nodes[0].key == "a";
    assert "a"[0] != "b"[0];
    assert ListedBefore(nodes, 1, "a");
  }
}
