/** Cells of a recipe application: bindings, the shared result cache and the runs created for them. */
module RecipeCells {
  import opened Outcomes

  datatype CellKey = CellKey(application: string, record: string)

  /** The exact stored input of a cell; `identity` is what the cache slot must agree on. */
  datatype CellInput = CellInput(cacheKey: string, identity: string, content: string)

  /** The deterministic identity of a cell result. */
  datatype CellId = CellId(key: CellKey, cacheKey: string)

  datatype CellState = Pending | Succeeded | Ended

  datatype Valid = Valid(cell: CellId, until: int)

  datatype Slot = Slot(identity: string, active: Option<CellId>, valid: Option<Valid>)

  datatype Bound = Bound(cell: CellId, content: string)

  /** `runs` lists the cell of every created run; a run key is an application and a cache key. */
  datatype Store = Store(
    bindings: map<CellKey, Bound>,
    cache: map<string, Slot>,
    cells: map<CellId, CellState>,
    runs: seq<CellId>)

  type Inputs = map<CellKey, CellInput>

  datatype Answer =
    | IsBound(cell: CellId)
    | IsCached(cell: CellId)
    | IsActive(cell: CellId)
    | IsReady
    | IsCreated(cell: CellId)
    | InputMissing
    | IdentityMismatch
    | BindingConflict
    | RunRejected
    | QuoteRejected
    | Invariant
    | Aborted

  const Empty := Store(map[], map[], map[], [])

  // ----- The stored cache -----

  /** Pins a valid result, or reports that it has expired; a slot that points elsewhere aborts. */
  function PinCached(s: Store, key: CellKey, input: CellInput, cell: CellId, now: int): Option<(Store, bool)> {
    if input.cacheKey !in s.cache then None
    else
      var slot := s.cache[input.cacheKey];
      if slot.valid.None? || slot.valid.value.cell != cell || slot.identity != input.identity
         || cell !in s.cells || s.cells[cell] != Succeeded || cell.cacheKey != input.cacheKey
      then None
      else if slot.valid.value.until <= now then Some((s, false))
      else Some((s.(bindings := s.bindings[key := Bound(cell, input.content)]), true))
  }

  function PinActive(s: Store, key: CellKey, input: CellInput, cell: CellId): Option<Store> {
    if input.cacheKey !in s.cache then None
    else
      var slot := s.cache[input.cacheKey];
      if slot.active != Some(cell) || slot.identity != input.identity
         || cell !in s.cells || s.cells[cell] != Pending || cell.cacheKey != input.cacheKey
      then None
      else Some(s.(bindings := s.bindings[key := Bound(cell, input.content)]))
  }

  /** Claiming the slot for a new pending cell: refused while another is active or still fresh. */
  function ClaimSlot(s: Store, input: CellInput, cell: CellId, now: int): Option<Slot> {
    if input.cacheKey !in s.cache then Some(Slot(input.identity, Some(cell), None))
    else
      var slot := s.cache[input.cacheKey];
      if slot.identity != input.identity then None
      else if slot.active == Some(cell) then Some(slot)
      else if slot.active.Some? || (slot.valid.Some? && slot.valid.value.until > now) then None
      else Some(slot.(active := Some(cell)))
  }

  function BindPending(s: Store, key: CellKey, input: CellInput, now: int): Option<Store> {
    var cell := CellId(key, input.cacheKey);
    if cell in s.cells && s.cells[cell] != Pending then None
    else
      match ClaimSlot(s, input, cell, now)
      case None => None
      case Some(slot) =>
        Some(Store(s.bindings[key := Bound(cell, input.content)], s.cache[input.cacheKey := slot],
                   s.cells[cell := Pending], s.runs + [cell]))
  }

  // ----- Preparation, the fast path -----

  function FromCache(s: Store, key: CellKey, input: CellInput, slot: Slot, now: int): (Store, Answer) {
    if slot.identity != input.identity then (s, IdentityMismatch)
    else
      var pinned := if slot.valid.Some? then PinCached(s, key, input, slot.valid.value.cell, now) else Some((s, false));
      match pinned
      case None => (s, Aborted)
      case Some((next, true)) => (next, IsCached(slot.valid.value.cell))
      case Some((_, false)) =>
        match slot.active
        case None => (s, IsReady)
        case Some(cell) =>
          match PinActive(s, key, input, cell)
          case None => (s, Aborted)
          case Some(next) => (next, IsActive(cell))
  }

  function Prepare(inputs: Inputs, s: Store, key: CellKey, now: int): (Store, Answer) {
    if key in s.bindings then (s, IsBound(s.bindings[key].cell))
    else if key !in inputs then (s, InputMissing)
    else
      var input := inputs[key];
      if input.cacheKey !in s.cache then (s, IsReady)
      else FromCache(s, key, input, s.cache[input.cacheKey], now)
  }

  // ----- Creation, the slow path -----

  /** The run key of a cell was used before: creation then replays or refuses instead of inserting. */
  predicate RunKeyUsed(s: Store, key: CellKey, cacheKey: string) {
    exists i :: 0 <= i < |s.runs| && s.runs[i].key.application == key.application && s.runs[i].cacheKey == cacheKey
  }

  function CreateAndBind(s: Store, key: CellKey, input: CellInput, now: int, runAccepted: bool): (Store, Answer) {
    if !runAccepted || RunKeyUsed(s, key, input.cacheKey) then (s, RunRejected)
    else
      match BindPending(s, key, input, now)
      case None => (s, Aborted)
      case Some(next) => (next, IsCreated(CellId(key, input.cacheKey)))
  }

  /** `given` is the input the caller asked for; `runAccepted`: the plan admits the run. */
  function Create(inputs: Inputs, s: Store, key: CellKey, given: CellInput, now: int, runAccepted: bool): (Store, Answer) {
    if key !in inputs || inputs[key] != given then (s, InputMissing)
    else if key in s.bindings then
      (s, if s.bindings[key].content != given.content then BindingConflict else IsBound(s.bindings[key].cell))
    else if given.cacheKey !in s.cache then CreateAndBind(s, key, given, now, runAccepted)
    else
      var (next, answer) := FromCache(s, key, given, s.cache[given.cacheKey], now);
      if answer == IsReady then CreateAndBind(s, key, given, now, runAccepted) else (next, answer)
  }

  // ----- One cell of an application, in one transaction -----

  datatype Offer = Offer(prepared: int, created: int, quoteAccepted: bool, runAccepted: bool)

  /** Two readings of the clock; anything but a created run after a quote rolls the transaction back. */
  function ApplyCell(inputs: Inputs, s: Store, key: CellKey, o: Offer): (Store, Answer) {
    var (prepared, answer) := Prepare(inputs, s, key, o.prepared);
    match answer
    case IsReady =>
      if !o.quoteAccepted then (prepared, QuoteRejected)
      else
        var (created, result) := Create(inputs, prepared, key, inputs[key], o.created, o.runAccepted);
        (match result
         case IsCreated(_) => (created, result)
         case IsBound(_) => (s, Invariant)
         case IsCached(_) => (s, Invariant)
         case IsActive(_) => (s, Invariant)
         case Aborted => (s, Aborted)
         case _ => (s, RunRejected))
    case _ => (prepared, answer)
  }

  predicate Applied(a: Answer) {
    a.IsBound? || a.IsCached? || a.IsActive? || a.IsCreated?
  }

  // ----- A run concludes -----

  /** The terminal result of the active cell: a success with an expiry becomes the valid one. */
  function Conclude(s: Store, cell: CellId, succeeded: bool, until: Option<int>): Store {
    if cell !in s.cells || s.cells[cell] != Pending || cell.cacheKey !in s.cache
       || s.cache[cell.cacheKey].active != Some(cell)
    then s
    else
      var slot := s.cache[cell.cacheKey];
      var valid := if !succeeded then slot.valid else if until.Some? then Some(Valid(cell, until.value)) else None;
      s.(cells := s.cells[cell := if succeeded then Succeeded else Ended],
         cache := s.cache[cell.cacheKey := slot.(active := None, valid := valid)])
  }

  datatype Event =
    | ApplyOne(key: CellKey, offer: Offer)
    | PrepareOne(key: CellKey, now: int)
    | CreateOne(key: CellKey, given: CellInput, now: int, runAccepted: bool)
    | Finish(cell: CellId, succeeded: bool, until: Option<int>)

  function Step(inputs: Inputs, s: Store, e: Event): Store {
    match e
    case ApplyOne(key, offer) => ApplyCell(inputs, s, key, offer).0
    case PrepareOne(key, now) => Prepare(inputs, s, key, now).0
    case CreateOne(key, given, now, runAccepted) => Create(inputs, s, key, given, now, runAccepted).0
    case Finish(cell, succeeded, until) => Conclude(s, cell, succeeded, until)
  }

  function Run(inputs: Inputs, s: Store, events: seq<Event>): Store
    decreases |events|
  {
    if events == [] then s else Run(inputs, Step(inputs, s, events[0]), events[1..])
  }

  // ----- What every run keeps -----

  /** An active slot points at a pending cell of its key, and a valid one at a succeeded cell. */
  predicate SlotSafe(s: Store, k: string)
    requires k in s.cache
  {
    var slot := s.cache[k];
    (slot.active.Some? ==>
       slot.active.value in s.cells && s.cells[slot.active.value] == Pending && slot.active.value.cacheKey == k)
    && (slot.valid.Some? ==>
          slot.valid.value.cell in s.cells && s.cells[slot.valid.value.cell] == Succeeded
          && slot.valid.value.cell.cacheKey == k)
  }

  predicate CellSafe(s: Store, c: CellId)
    requires c in s.cells
  {
    c.key in s.bindings && (s.cells[c] == Pending ==> c.cacheKey in s.cache && s.cache[c.cacheKey].active == Some(c))
  }

  /** A run belongs to a cell whose own record it bound. */
  predicate RunSafe(inputs: Inputs, s: Store, i: nat)
    requires i < |s.runs|
  {
    var c := s.runs[i];
    c in s.cells && c.key in s.bindings && s.bindings[c.key].cell == c
    && c.key in inputs && inputs[c.key].cacheKey == c.cacheKey
  }

  predicate BindingSafe(inputs: Inputs, s: Store, key: CellKey)
    requires key in s.bindings
  {
    key in inputs && s.bindings[key].content == inputs[key].content && s.bindings[key].cell in s.cells
    && s.bindings[key].cell.cacheKey == inputs[key].cacheKey
  }

  ghost predicate CacheSafe(s: Store) {
    (forall k {:trigger SlotSafe(s, k)} :: k in s.cache ==> SlotSafe(s, k))
    && (forall c {:trigger CellSafe(s, c)} :: c in s.cells ==> CellSafe(s, c))
  }

  ghost predicate RunsSafe(inputs: Inputs, s: Store) {
    forall i {:trigger RunSafe(inputs, s, i)} :: 0 <= i < |s.runs| ==> RunSafe(inputs, s, i)
  }

  ghost predicate BindingsSafe(inputs: Inputs, s: Store) {
    forall key {:trigger BindingSafe(inputs, s, key)} :: key in s.bindings ==> BindingSafe(inputs, s, key)
  }

  predicate DistinctRuns(runs: seq<CellId>) {
    forall i, j :: 0 <= i < j < |runs| ==> runs[i] != runs[j]
  }

  ghost predicate Safe(inputs: Inputs, s: Store) {
    CacheSafe(s) && RunsSafe(inputs, s) && BindingsSafe(inputs, s) && DistinctRuns(s.runs)
  }

  /** Cache identities name one record of one application's data: no two inputs of an application share a slot. */
  predicate SlotsAreExact(inputs: Inputs) {
    forall a, b :: a in inputs && b in inputs ==>
      (a.application == b.application && inputs[a].cacheKey == inputs[b].cacheKey ==> a == b)
  }
}
