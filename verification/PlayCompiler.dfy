/** Compiling a play: from the capabilities asked for to the stages that run. */
module PlayCompiler {

  datatype Operation =
    | OrganizationsDiscover
    | ContactsDiscover
    | IdentityReveal
    | WorkEmailResolve
    | WorkEmailVerify
    | WorkbooksProject

  datatype Source = OrganizationSearch | ImportedDataset

  datatype Definition = Definition(
    source: Source,
    capabilities: seq<Operation>,
    maxContactsTotal: nat,
    maxProviderCalls: nat,
    budgetLimit: real,
    budgetUnit: string,
    deadline: int)

  datatype Compilation = Compilation(stages: seq<Operation>, quotedUpperBound: real)

  /** The capabilities asked for, closed under what an email needs: to verify, resolve; to resolve, reveal. */
  function Requested(capabilities: seq<Operation>): set<Operation> {
    var asked := set c | c in capabilities;
    var revealed := if WorkEmailResolve in asked || WorkEmailVerify in asked then asked + {IdentityReveal} else asked;
    if WorkEmailVerify in revealed then revealed + {WorkEmailResolve} else revealed
  }

  function Enrichments(requested: set<Operation>): seq<Operation> {
    (if IdentityReveal in requested then [IdentityReveal] else [])
    + (if WorkEmailResolve in requested then [WorkEmailResolve] else [])
    + (if WorkEmailVerify in requested then [WorkEmailVerify] else [])
  }

  function EffectiveEnrichmentStageCount(d: Definition): nat {
    |Enrichments(Requested(d.capabilities))|
  }

  function RequiredProviderCalls(d: Definition): nat {
    (if d.source == OrganizationSearch then 1 else 0) + 1 + d.maxContactsTotal * EffectiveEnrichmentStageCount(d)
  }

  function Compile(d: Definition): Compilation {
    var first := if d.source == OrganizationSearch then [OrganizationsDiscover, ContactsDiscover] else [ContactsDiscover];
    Compilation(first + Enrichments(Requested(d.capabilities)) + [WorkbooksProject],
                if d.budgetUnit == "requests" then RequiredProviderCalls(d) as real else d.budgetLimit)
  }

  // ----- What the stages are -----

  /** What must have run before an operation. */
  predicate Needs(op: Operation, earlier: Operation) {
    (op == WorkEmailVerify && (earlier == WorkEmailResolve || earlier == IdentityReveal))
    || (op == WorkEmailResolve && earlier == IdentityReveal)
    || ((op == IdentityReveal || op == WorkEmailResolve || op == WorkEmailVerify) && earlier == ContactsDiscover)
  }

  /** Calls an operation may cost: one for a discovery, one per contact for an enrichment, none for the workbook. */
  function CallsOf(op: Operation, maxContactsTotal: nat): nat {
    match op
    case OrganizationsDiscover => 1
    case ContactsDiscover => 1
    case WorkbooksProject => 0
    case _ => maxContactsTotal
  }

  function TotalCalls(stages: seq<Operation>, maxContactsTotal: nat): nat {
    if stages == [] then 0 else CallsOf(stages[0], maxContactsTotal) + TotalCalls(stages[1..], maxContactsTotal)
  }

  function Discoveries(source: Source): seq<Operation> {
    if source == OrganizationSearch then [OrganizationsDiscover, ContactsDiscover] else [ContactsDiscover]
  }

  /** Discoveries, enrichments, workbook: no operation twice, the workbook last and only there. */
  lemma StagesAreDistinct(d: Definition, i: nat, j: nat)
    requires i < j < |Compile(d).stages|
    ensures Compile(d).stages[i] != Compile(d).stages[j]
    ensures Compile(d).stages[i] != WorkbooksProject
    ensures Compile(d).stages[|Compile(d).stages| - 1] == WorkbooksProject
  {
  }

  /** Each stage finds what it needs among the stages before it. */
  lemma StagesAreClosed(d: Definition, i: nat, need: Operation)
    requires i < |Compile(d).stages| && Needs(Compile(d).stages[i], need)
    ensures need in Compile(d).stages[..i]
  {
    var stages := Compile(d).stages;
    var first, e := Discoveries(d.source), Enrichments(Requested(d.capabilities));
    EnrichmentsAreClosed(Requested(d.capabilities), d.capabilities);
    assert |first| <= i < |first| + |e|;
    if need == ContactsDiscover {
      assert stages[..i][|first| - 1] == need;
    } else {
      var k :| 0 <= k < i - |first| && e[k] == need;
      assert stages[..i][|first| + k] == need;
    }
  }

  /** Compiled stages are distinct, each finds what it needs before it, and the workbook is the last and only there. */
  lemma CompiledStages(d: Definition)
    ensures var stages := Compile(d).stages;
            stages != [] && stages[|stages| - 1] == WorkbooksProject
            && (forall i, j :: 0 <= i < j < |stages| ==> stages[i] != stages[j] && stages[i] != WorkbooksProject)
            && (forall i, need :: 0 <= i < |stages| && Needs(stages[i], need) ==> need in stages[..i])
  {
    var stages := Compile(d).stages;
    forall i, j | 0 <= i < j < |stages| ensures stages[i] != stages[j] && stages[i] != WorkbooksProject {
      StagesAreDistinct(d, i, j);
    }
    forall i, need | 0 <= i < |stages| && Needs(stages[i], need) ensures need in stages[..i] {
      StagesAreClosed(d, i, need);
    }
  }

  predicate IsEnrichment(op: Operation) {
    op == IdentityReveal || op == WorkEmailResolve || op == WorkEmailVerify
  }

  /** Asked for, or needed by what was asked for. */
  predicate Wanted(op: Operation, capabilities: seq<Operation>) {
    exists c <- capabilities :: c == op || Needs(c, op)
  }

  /** The stages are exactly the discoveries of the source, the enrichments asked for or needed, and the workbook. */
  lemma StagesAreWhatWasAsked(d: Definition, op: Operation)
    ensures op in Compile(d).stages <==>
              match op
              case OrganizationsDiscover => d.source == OrganizationSearch
              case ContactsDiscover => true
              case WorkbooksProject => true
              case _ => Wanted(op, d.capabilities)
  {
    var e := Enrichments(Requested(d.capabilities));
    EnrichmentsHold(Requested(d.capabilities), op);
    assert Compile(d).stages == Discoveries(d.source) + e + [WorkbooksProject];
  }

  lemma EnrichmentsHold(requested: set<Operation>, op: Operation)
    ensures op in Enrichments(requested) <==> IsEnrichment(op) && op in requested
  {
    var first := if IdentityReveal in requested then [IdentityReveal] else [];
    var second := if WorkEmailResolve in requested then [WorkEmailResolve] else [];
    var third := if WorkEmailVerify in requested then [WorkEmailVerify] else [];
    assert Enrichments(requested) == first + second + third;
    assert op in first + second + third <==> op in first || op in second || op in third;
  }

  /** Only four chains of enrichments are possible, each one a prefix of the next. */
  lemma EnrichmentsAreClosed(requested: set<Operation>, capabilities: seq<Operation>)
    requires requested == Requested(capabilities)
    ensures Enrichments(requested) <= [IdentityReveal, WorkEmailResolve, WorkEmailVerify]
    ensures forall i, need :: 0 <= i < |Enrichments(requested)| && Needs(Enrichments(requested)[i], need) ==>
              need == ContactsDiscover || exists k :: 0 <= k < i && Enrichments(requested)[k] == need
  {
    var e := Enrichments(requested);
    assert WorkEmailVerify in requested ==> WorkEmailResolve in requested;
    assert WorkEmailResolve in requested ==> IdentityReveal in requested;
    if |e| > 0 { assert e[0] == IdentityReveal; }
    if |e| > 1 { assert e[1] == WorkEmailResolve; }
  }

  lemma {:induction false} TotalCallsAppend(a: seq<Operation>, b: seq<Operation>, contacts: nat)
    ensures TotalCalls(a + b, contacts) == TotalCalls(a, contacts) + TotalCalls(b, contacts)
  {
    if a == [] {
      assert a + b == b;
    } else {
      TotalCallsAppend(a[1..], b, contacts);
      assert (a + b)[1..] == a[1..] + b;
    }
  }

  lemma {:induction false} EnrichmentCalls(stages: seq<Operation>, contacts: nat)
    requires forall i :: 0 <= i < |stages| ==>
               stages[i] == IdentityReveal || stages[i] == WorkEmailResolve || stages[i] == WorkEmailVerify
    ensures TotalCalls(stages, contacts) == contacts * |stages|
  {
    if stages != [] {
      EnrichmentCalls(stages[1..], contacts);
      assert contacts * |stages| == contacts + contacts * |stages[1..]|;
    }
  }

  /** The provider-call ceiling that a request-priced play quotes is what its compiled stages can cost. */
  lemma QuoteIsTheCeilingOfTheStages(d: Definition)
    ensures TotalCalls(Compile(d).stages, d.maxContactsTotal) == RequiredProviderCalls(d)
    ensures d.budgetUnit == "requests" ==>
              Compile(d).quotedUpperBound == TotalCalls(Compile(d).stages, d.maxContactsTotal) as real
  {
    var n := d.maxContactsTotal;
    var first := if d.source == OrganizationSearch then [OrganizationsDiscover, ContactsDiscover] else [ContactsDiscover];
    var enrichments := Enrichments(Requested(d.capabilities));
    TotalCallsAppend(first + enrichments, [WorkbooksProject], n);
    TotalCallsAppend(first, enrichments, n);
    EnrichmentCalls(enrichments, n);
    assert TotalCalls(first, n) == |first| by {
      assert first[1..] == if d.source == OrganizationSearch then [ContactsDiscover] else [];
    }
    assert TotalCalls([WorkbooksProject], n) == 0;
  }
}
