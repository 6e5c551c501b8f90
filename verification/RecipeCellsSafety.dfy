/** The fast path agrees with the slow path, and partial applications can be repeated safely. */
module RecipeCellsSafety {
  import opened Outcomes
  import opened RecipeCells

  // ----- Each step keeps the store safe -----

  lemma BindKeepsSafe(inputs: Inputs, s: Store, key: CellKey, cell: CellId)
    requires Safe(inputs, s) && key in inputs && key !in s.bindings
    requires cell in s.cells && cell.cacheKey == inputs[key].cacheKey
    ensures Safe(inputs, s.(bindings := s.bindings[key := Bound(cell, inputs[key].content)]))
  {
    var s' := s.(bindings := s.bindings[key := Bound(cell, inputs[key].content)]);
    BindKeepsCache(inputs, s, key, cell);
    forall i | 0 <= i < |s'.runs| ensures RunSafe(inputs, s', i) { assert RunSafe(inputs, s, i); }
    forall b | b in s'.bindings ensures BindingSafe(inputs, s', b) {
      if b != key { assert BindingSafe(inputs, s, b); }
    }
  }

  lemma BindKeepsCache(inputs: Inputs, s: Store, key: CellKey, cell: CellId)
    requires CacheSafe(s) && key in inputs
    ensures CacheSafe(s.(bindings := s.bindings[key := Bound(cell, inputs[key].content)]))
  {
    var s' := s.(bindings := s.bindings[key := Bound(cell, inputs[key].content)]);
    forall k | k in s'.cache ensures SlotSafe(s', k) { assert SlotSafe(s, k); }
    forall c | c in s'.cells ensures CellSafe(s', c) { assert CellSafe(s, c); }
  }

  /** Reading the cache never meets a slot that points elsewhere, and only binds the asked cell. */
  lemma FromCacheIsSafe(inputs: Inputs, s: Store, key: CellKey, now: int)
    requires Safe(inputs, s) && key in inputs && key !in s.bindings && inputs[key].cacheKey in s.cache
    ensures var input, slot := inputs[key], s.cache[inputs[key].cacheKey];
            var (s', answer) := FromCache(s, key, input, slot, now);
            Safe(inputs, s') && answer != Aborted
            && (answer == IdentityMismatch <==> slot.identity != input.identity)
            && (slot.identity == input.identity ==>
                  answer == if slot.valid.Some? && now < slot.valid.value.until then IsCached(slot.valid.value.cell)
                            else if slot.active.Some? then IsActive(slot.active.value) else IsReady)
            && (if Applied(answer) then key in s'.bindings else s' == s)
            && (forall b :: b in s.bindings ==> b in s'.bindings && s'.bindings[b] == s.bindings[b])
            && s'.runs == s.runs
  {
    var input := inputs[key];
    var slot := s.cache[input.cacheKey];
    assert SlotSafe(s, input.cacheKey);
    if slot.identity == input.identity {
      if slot.valid.Some? && now < slot.valid.value.until {
        BindKeepsSafe(inputs, s, key, slot.valid.value.cell);
      } else if slot.active.Some? {
        BindKeepsSafe(inputs, s, key, slot.active.value);
      }
    }
  }

  /** A run key is in use only for a cell that is already bound. */
  lemma UnboundKeyIsUnused(inputs: Inputs, s: Store, key: CellKey)
    requires Safe(inputs, s) && SlotsAreExact(inputs) && key in inputs && key !in s.bindings
    ensures !RunKeyUsed(s, key, inputs[key].cacheKey)
    ensures CellId(key, inputs[key].cacheKey) !in s.cells
  {
    forall i | 0 <= i < |s.runs|
      ensures !(s.runs[i].key.application == key.application && s.runs[i].cacheKey == inputs[key].cacheKey)
    {
      assert RunSafe(inputs, s, i);
    }
    var cell := CellId(key, inputs[key].cacheKey);
    if cell in s.cells {
      CellIsBound(s, cell);
    }
  }

  lemma CellIsBound(s: Store, cell: CellId)
    requires CacheSafe(s) && cell in s.cells
    ensures cell.key in s.bindings
  {
    assert CellSafe(s, cell);
  }

  predicate SlotFree(s: Store, input: CellInput, now: int) {
    input.cacheKey in s.cache ==>
      var slot := s.cache[input.cacheKey];
      slot.identity == input.identity && slot.active.None? && (slot.valid.Some? ==> slot.valid.value.until <= now)
  }

  /** In a free slot creation succeeds whenever the plan admits the run. */
  lemma FreeSlotCreates(inputs: Inputs, s: Store, key: CellKey, now: int, runAccepted: bool)
    requires Safe(inputs, s) && SlotsAreExact(inputs) && key in inputs && key !in s.bindings
    requires SlotFree(s, inputs[key], now)
    ensures var (s', answer) := CreateAndBind(s, key, inputs[key], now, runAccepted);
            var cell := CellId(key, inputs[key].cacheKey);
            if runAccepted then
              answer == IsCreated(cell) && s'.bindings == s.bindings[key := Bound(cell, inputs[key].content)]
              && s'.runs == s.runs + [cell] && s'.cells == s.cells[cell := Pending]
              && s'.cache.Keys == s.cache.Keys + {cell.cacheKey}
              && (forall k :: k in s.cache && k != cell.cacheKey ==> s'.cache[k] == s.cache[k])
              && s'.cache[cell.cacheKey].active == Some(cell)
              && (cell.cacheKey in s.cache ==> s'.cache[cell.cacheKey].valid == s.cache[cell.cacheKey].valid)
              && (cell.cacheKey !in s.cache ==> s'.cache[cell.cacheKey].valid.None?)
            else answer == RunRejected && s' == s
  {
    UnboundKeyIsUnused(inputs, s, key);
  }

  lemma CreateKeepsSafe(inputs: Inputs, s: Store, key: CellKey, now: int)
    requires Safe(inputs, s) && SlotsAreExact(inputs) && key in inputs && key !in s.bindings
    requires SlotFree(s, inputs[key], now)
    ensures Safe(inputs, CreateAndBind(s, key, inputs[key], now, true).0)
  {
    FreeSlotCreates(inputs, s, key, now, true);
    UnboundKeyIsUnused(inputs, s, key);
    var s' := CreateAndBind(s, key, inputs[key], now, true).0;
    var cell := CellId(key, inputs[key].cacheKey);
    CreateKeepsCache(inputs, s, s', key);
    forall i | 0 <= i < |s'.runs| ensures RunSafe(inputs, s', i) {
      if i < |s.runs| { assert RunSafe(inputs, s, i); }
    }
    forall b | b in s'.bindings ensures BindingSafe(inputs, s', b) {
      if b != key { assert BindingSafe(inputs, s, b); }
    }
    forall i | 0 <= i < |s.runs| ensures s.runs[i] != cell {
      assert RunSafe(inputs, s, i);
    }
  }

  lemma CreateKeepsCache(inputs: Inputs, s: Store, s': Store, key: CellKey)
    requires CacheSafe(s) && key in inputs
    requires var cell := CellId(key, inputs[key].cacheKey);
             cell !in s.cells
             && (cell.cacheKey in s.cache ==> s.cache[cell.cacheKey].active.None?)
             && s'.cells == s.cells[cell := Pending] && key in s'.bindings
             && (forall b :: b in s.bindings ==> b in s'.bindings)
             && s'.cache.Keys == s.cache.Keys + {cell.cacheKey}
             && (forall k :: k in s.cache && k != cell.cacheKey ==> s'.cache[k] == s.cache[k])
             && s'.cache[cell.cacheKey].active == Some(cell)
             && (cell.cacheKey in s.cache ==> s'.cache[cell.cacheKey].valid == s.cache[cell.cacheKey].valid)
             && (cell.cacheKey !in s.cache ==> s'.cache[cell.cacheKey].valid.None?)
    ensures CacheSafe(s')
  {
    var cell := CellId(key, inputs[key].cacheKey);
    forall k | k in s'.cache ensures SlotSafe(s', k) {
      if k in s.cache { assert SlotSafe(s, k); }
    }
    forall c | c in s'.cells ensures CellSafe(s', c) {
      if c != cell { assert CellSafe(s, c); }
    }
  }

  /** What a creation answers on an unbound cell, and that it keeps the store safe. */
  lemma CreateAnswers(inputs: Inputs, s: Store, key: CellKey, now: int, runAccepted: bool)
    requires Safe(inputs, s) && SlotsAreExact(inputs) && key in inputs && key !in s.bindings
    ensures var (s', answer) := Create(inputs, s, key, inputs[key], now, runAccepted);
            var (p, prepared) := Prepare(inputs, s, key, now);
            Safe(inputs, s') && answer != Aborted
            && (if prepared == IsReady
                then answer == if runAccepted then IsCreated(CellId(key, inputs[key].cacheKey)) else RunRejected
                else (s', answer) == (p, prepared))
            && (if Applied(answer) then key in s'.bindings else s' == s)
            && (forall b :: b in s.bindings ==> b in s'.bindings && s'.bindings[b] == s.bindings[b])
            && s'.runs == if answer.IsCreated? then s.runs + [CellId(key, inputs[key].cacheKey)] else s.runs
  {
    var input := inputs[key];
    if input.cacheKey in s.cache {
      FromCacheIsSafe(inputs, s, key, now);
    }
    if Prepare(inputs, s, key, now).1 == IsReady {
      FreeSlotCreates(inputs, s, key, now, runAccepted);
      CreateKeepsSafe(inputs, s, key, now);
    }
  }

  lemma PrepareIsSafe(inputs: Inputs, s: Store, key: CellKey, now: int)
    requires Safe(inputs, s)
    ensures var (s', answer) := Prepare(inputs, s, key, now);
            Safe(inputs, s') && answer != Aborted && s'.runs == s.runs
            && (if Applied(answer) then key in s'.bindings else s' == s)
            && (forall b :: b in s.bindings ==> b in s'.bindings && s'.bindings[b] == s.bindings[b])
  {
    if key !in s.bindings && key in inputs && inputs[key].cacheKey in s.cache {
      FromCacheIsSafe(inputs, s, key, now);
    }
  }

  // ----- The fast path agrees with the slow path -----

  /**
   * When preparation says ready, creation later in the same transaction creates the run if its plan admits it;
   * it finds something else exactly when the clock went back before the expiry preparation had seen.
   */
  lemma ReadyMeansCreated(inputs: Inputs, s: Store, key: CellKey, prepared: int, created: int, runAccepted: bool)
    requires Safe(inputs, s) && SlotsAreExact(inputs)
    requires Prepare(inputs, s, key, prepared).1 == IsReady
    ensures Prepare(inputs, s, key, prepared).0 == s
    ensures var k := inputs[key].cacheKey;
            var answer := Create(inputs, s, key, inputs[key], created, runAccepted).1;
            if k in s.cache && s.cache[k].valid.Some? && created < s.cache[k].valid.value.until
            then answer == IsCached(s.cache[k].valid.value.cell) && created < prepared
            else answer == if runAccepted then IsCreated(CellId(key, k)) else RunRejected
  {
    CreateAnswers(inputs, s, key, created, runAccepted);
    if inputs[key].cacheKey in s.cache {
      FromCacheIsSafe(inputs, s, key, prepared);
      FromCacheIsSafe(inputs, s, key, created);
    }
  }

  /** With a clock that does not go back, applying a cell never meets the invariant branch. */
  lemma RollbackBranchIsUnreachable(inputs: Inputs, s: Store, key: CellKey, o: Offer)
    requires Safe(inputs, s) && SlotsAreExact(inputs) && o.prepared <= o.created
    ensures ApplyCell(inputs, s, key, o).1 != Invariant && ApplyCell(inputs, s, key, o).1 != Aborted
  {
    PrepareIsSafe(inputs, s, key, o.prepared);
    if Prepare(inputs, s, key, o.prepared).1 == IsReady {
      ReadyMeansCreated(inputs, s, key, o.prepared, o.created, o.runAccepted);
    }
  }

  lemma ApplyIsSafe(inputs: Inputs, s: Store, key: CellKey, o: Offer)
    requires Safe(inputs, s) && SlotsAreExact(inputs)
    ensures var (s', answer) := ApplyCell(inputs, s, key, o);
            Safe(inputs, s')
            && (if Applied(answer) then key in s'.bindings else s' == s)
            && (forall b :: b in s.bindings ==> b in s'.bindings && s'.bindings[b] == s.bindings[b])
            && (key in s.bindings ==> s' == s && answer == IsBound(s.bindings[key].cell))
            && (s'.runs == s.runs || (key !in s.bindings && answer.IsCreated? && s'.runs == s.runs + [answer.cell]
                                      && answer.cell.key == key))
  {
    PrepareIsSafe(inputs, s, key, o.prepared);
    if Prepare(inputs, s, key, o.prepared).1 == IsReady {
      CreateAnswers(inputs, s, key, o.created, o.runAccepted);
    }
  }

  /** A run is created exactly for an unbound cell whose slot is free at both readings of the clock, with both acceptances. */
  lemma CellCreatedIff(inputs: Inputs, s: Store, key: CellKey, o: Offer)
    requires Safe(inputs, s) && SlotsAreExact(inputs)
    ensures var (s', answer) := ApplyCell(inputs, s, key, o);
            var free := key in inputs && key !in s.bindings && SlotFree(s, inputs[key], o.prepared);
            (answer.IsCreated? <==> free && o.quoteAccepted && SlotFree(s, inputs[key], o.created) && o.runAccepted)
            && (answer.IsCreated? ==> s'.runs == s.runs + [CellId(key, inputs[key].cacheKey)])
            && (!answer.IsCreated? ==> s'.runs == s.runs)
            && (answer == QuoteRejected <==> free && !o.quoteAccepted)
  {
    PrepareIsSafe(inputs, s, key, o.prepared);
    if key in inputs && inputs[key].cacheKey in s.cache && key !in s.bindings { FromCacheIsSafe(inputs, s, key, o.prepared); }
    if Prepare(inputs, s, key, o.prepared).1 == IsReady {
      CreateAnswers(inputs, s, key, o.created, o.runAccepted);
      ReadyMeansCreated(inputs, s, key, o.prepared, o.created, o.runAccepted);
    }
  }

  /**
   * A concluded result is what another cell of the same identity finds: a success until its expiry, a failure never,
   * and a failure leaves an earlier result in place.
   */
  lemma ConcludedIsReused(inputs: Inputs, s: Store, cell: CellId, succeeded: bool, until: Option<int>, key: CellKey, now: int)
    requires Safe(inputs, s) && cell in s.cells && s.cells[cell] == Pending
    requires key in inputs && key !in s.bindings && inputs[key].cacheKey == cell.cacheKey
    requires cell.cacheKey in s.cache ==> s.cache[cell.cacheKey].identity == inputs[key].identity
    ensures cell.cacheKey in s.cache
    ensures var earlier := s.cache[cell.cacheKey].valid;
            var answer := Prepare(inputs, Conclude(s, cell, succeeded, until), key, now).1;
            answer == if succeeded then (if until.Some? && now < until.value then IsCached(cell) else IsReady)
                      else if earlier.Some? && now < earlier.value.until then IsCached(earlier.value.cell) else IsReady
  {
    assert CellSafe(s, cell);
    ConcludeKeepsSafe(inputs, s, cell, succeeded, until);
    FromCacheIsSafe(inputs, Conclude(s, cell, succeeded, until), key, now);
  }

  lemma ConcludeKeepsSafe(inputs: Inputs, s: Store, cell: CellId, succeeded: bool, until: Option<int>)
    requires Safe(inputs, s)
    ensures Safe(inputs, Conclude(s, cell, succeeded, until))
  {
    var s' := Conclude(s, cell, succeeded, until);
    if s' != s {
      forall k | k in s'.cache ensures SlotSafe(s', k) {
        assert SlotSafe(s, k);
        if k != cell.cacheKey && s.cache[k].active.Some? {
          assert s.cache[k].active.value != cell;
        }
      }
      forall c | c in s'.cells ensures CellSafe(s', c) { assert CellSafe(s, c); }
      forall i | 0 <= i < |s'.runs| ensures RunSafe(inputs, s', i) { assert RunSafe(inputs, s, i); }
      forall b | b in s'.bindings ensures BindingSafe(inputs, s', b) { assert BindingSafe(inputs, s, b); }
    }
  }

  lemma StepKeepsSafe(inputs: Inputs, s: Store, e: Event)
    requires Safe(inputs, s) && SlotsAreExact(inputs)
    ensures Safe(inputs, Step(inputs, s, e))
    ensures forall b :: b in s.bindings ==>
              b in Step(inputs, s, e).bindings && Step(inputs, s, e).bindings[b] == s.bindings[b]
  {
    match e
    case ApplyOne(key, offer) => ApplyIsSafe(inputs, s, key, offer);
    case PrepareOne(key, now) => PrepareIsSafe(inputs, s, key, now);
    case CreateOne(key, given, now, runAccepted) =>
      if key in inputs && inputs[key] == given && key !in s.bindings {
        CreateAnswers(inputs, s, key, now, runAccepted);
      }
    case Finish(cell, succeeded, until) => ConcludeKeepsSafe(inputs, s, cell, succeeded, until);
  }

  /** A binding, once made, never changes, whatever is applied, prepared, created or finished later. */
  lemma {:induction false} BindingsAreForever(inputs: Inputs, s: Store, events: seq<Event>)
    requires Safe(inputs, s) && SlotsAreExact(inputs)
    ensures Safe(inputs, Run(inputs, s, events))
    ensures forall b :: b in s.bindings ==>
              b in Run(inputs, s, events).bindings && Run(inputs, s, events).bindings[b] == s.bindings[b]
    decreases |events|
  {
    if events != [] {
      StepKeepsSafe(inputs, s, events[0]);
      BindingsAreForever(inputs, Step(inputs, s, events[0]), events[1..]);
    }
  }

  /** In every run each cache key has at most one pending cell, and each run is the only one of its cell. */
  lemma OneActiveRunPerKey(inputs: Inputs, events: seq<Event>, a: CellId, b: CellId)
    requires SlotsAreExact(inputs)
    requires var s := Run(inputs, Empty, events);
             a in s.cells && b in s.cells && s.cells[a] == Pending && s.cells[b] == Pending
    requires a.cacheKey == b.cacheKey
    ensures a == b
    ensures var s := Run(inputs, Empty, events);
            forall i, j :: 0 <= i < j < |s.runs| ==> s.runs[i].key != s.runs[j].key
  {
    BindingsAreForever(inputs, Empty, events);
    var s := Run(inputs, Empty, events);
    assert CellSafe(s, a) && CellSafe(s, b);
    forall i, j | 0 <= i < j < |s.runs| ensures s.runs[i].key != s.runs[j].key {
      assert RunSafe(inputs, s, i) && RunSafe(inputs, s, j);
    }
  }
}
