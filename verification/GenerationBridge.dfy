/** What the leaf of a page run settles is what the generation of the page reads. */
module GenerationBridge {
  import opened Outcomes
  import opened Amounts
  import opened Generation
  import opened GenerationPaging
  import opened GenerationTheorems
  import opened GenerationLanding
  import LeafStep
  import LeafExecution
  import LeafTheorems

  /** The usage was settled for the attempt whose reservation the page carries, in some run of its step. */
  ghost predicate SettledFor(plan: LeafStep.Plan, events: seq<LeafExecution.Event>, a: LeafStep.Attempt, p: Page,
                             usage: real)
  {
    var d := LeafExecution.Run(plan, LeafExecution.Initial, events).durable;
    a in d.step.attempts && p.reserved == a.reserved
    && a.id in d.ledger && d.ledger[a.id].Settled? && d.ledger[a.id].amount == usage
  }

  /** A settled usage never exceeds the reservation of its page, not even by rounding. */
  lemma SettledUsageFits(plan: LeafStep.Plan, events: seq<LeafExecution.Event>, a: LeafStep.Attempt, p: Page,
                         usage: real)
    requires SettledFor(plan, events, a, p, usage)
    ensures IsAmount(usage) && CostFits(p, usage)
  {
    LeafTheorems.MoneyFollowsState(plan, events, a);
  }

  /**
   * With a settled usage the page table never refuses the cost: the checkpoint of an admitted success is rolled
   * back exactly when its new records repeat an identity or an ordinal.
   */
  lemma SettledPageAbortsIff(leafPlan: LeafStep.Plan, events: seq<LeafExecution.Event>, a: LeafStep.Attempt,
                             plan: Plan, s: Store, proof: RunProof)
    requires Sound(plan, s) && PageExecutes(s) && proof.SucceededRun?
    requires SettledFor(leafPlan, events, a, s.pages[ActivePage(s)], proof.usage)
    ensures Checkpoint(plan, s, proof).1 == Aborted
       <==> ArtifactParses(proof.artifact) && ProofIsExact(s.pages[ActivePage(s)], proof)
            && FitsGeneration(plan, s, proof) && !IdentitiesAreNew(s, proof)
  {
    SettledUsageFits(leafPlan, events, a, s.pages[ActivePage(s)], proof.usage);
    AbortsIff(plan, s, proof);
  }

  /** With a settled usage a success lands exactly on its artifact, the limits, the lock, the cursor and the identities. */
  lemma SettledPageLandsIff(leafPlan: LeafStep.Plan, events: seq<LeafExecution.Event>, a: LeafStep.Attempt,
                            plan: Plan, s: Store, proof: RunProof)
    requires Sound(plan, s) && PageExecutes(s) && proof.SucceededRun?
    requires SettledFor(leafPlan, events, a, s.pages[ActivePage(s)], proof.usage)
    ensures var s', page := Checkpoint(plan, s, proof).0, s.pages[ActivePage(s)];
            ActivePage(s) in s'.pages
            && (s'.pages[ActivePage(s)].state != Executing
                <==> ArtifactParses(proof.artifact) && proof.exact && proof.provider == page.provider
                     && FitsGeneration(plan, s, proof) && CursorFits(proof.artifact) && IdentitiesAreNew(s, proof))
  {
    SettledUsageFits(leafPlan, events, a, s.pages[ActivePage(s)], proof.usage);
    LandsIff(plan, s, proof);
  }
}
