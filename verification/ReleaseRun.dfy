/**
  Whole runs of the downstream release protocol.

  A world holds every document issued so far.  Each action runs one of the release tools on issued
  documents and, where the tool succeeds, adds the document it wrote; clocks, payloads, evidence,
  producers and artifact metadata are free.  What holds here holds of every sequence of actions.
 */
module ReleaseRun {
  import opened Wrappers
  import opened Release
  import opened ReleaseSummary
  import opened ReleaseRequest

  datatype World = World(
    plans: set<Plan>, requests: set<Request>, predicates: set<Predicate>, envelopes: set<Envelope>,
    references: set<Reference>, summaries: set<Summary>)

  const NOTHING: World := World({}, {}, {}, {}, {}, {})

  datatype Action =
    | IssuePlan(plan: Plan)
    | IssueRequest(plan: Plan, ask: Ask)
    | IssueRetry(plan: Plan, q: Request, p: Predicate, e: Envelope, artifacts: string, now: Time)
    | IssuePredicate(q: Request, producer: Producer, state: State, startedAt: Time, mutationStarted: bool,
                     remote: Option<string>, evidence: Evidence, observedAt: Time)
    | IssueEnvelope(q: Request, p: Predicate, bundle: Artifact, attestation: string, createdAt: Time)
    | IssueReference(q: Request, p: Predicate, e: Envelope, predicateArtifact: Artifact, envelopeArtifact: Artifact,
                     verifiedAt: Time)
    | IssueSummary(job: Job)

  function PlanStep(rules: Rules, w: World, plan: Plan): World {
    if ValidPlan(rules, plan) then w.(plans := w.plans + {plan}) else w
  }

  function Requested(w: World, r: Result<Request, Error>): World {
    if r.Ok? then w.(requests := w.requests + {r.value}) else w
  }

  /**
    A request made directly, initial or retry; the pre-site summary and the request to repeat, if any, are
    issued ones, and the record of a retry is free.
   */
  function RequestStep(rules: Rules, w: World, plan: Plan, ask: Ask): World {
    if && plan in w.plans && (ask.preSite.Some? ==> ask.preSite.value in w.summaries)
       && (ask.retryOf.Some? ==> ask.retryOf.value in w.requests)
    then Requested(w, ExpectedRequest(rules, plan, ask)) else w
  }

  /** A retry made by the retry tool, from an issued result and its envelope. */
  function RetryStep(rules: Rules, w: World, plan: Plan, q: Request, p: Predicate, e: Envelope, artifacts: string, now: Time): World {
    if plan in w.plans && q in w.requests && p in w.predicates && e in w.envelopes
    then Requested(w, PrepareRetry(rules, plan, q, p, e, artifacts, now)) else w
  }

  function PredicateStep(w: World, q: Request, r: Result<Predicate, Error>): World {
    if q in w.requests && r.Ok? then w.(predicates := w.predicates + {r.value}) else w
  }

  function EnvelopeStep(w: World, q: Request, p: Predicate, r: Result<Envelope, Error>): World {
    if q in w.requests && p in w.predicates && r.Ok? then w.(envelopes := w.envelopes + {r.value}) else w
  }

  function ReferenceStep(w: World, q: Request, p: Predicate, e: Envelope, r: Result<Reference, Error>): World {
    if q in w.requests && p in w.predicates && e in w.envelopes && r.Ok? then w.(references := w.references + {r.value}) else w
  }

  predicate JobIssued(w: World, job: Job) {
    && job.plan in w.plans
    && job.references.Values <= w.references
    && (job.preSite.Some? ==> job.preSite.value in w.summaries)
  }

  function SummaryStep(rules: Rules, w: World, job: Job): World {
    if JobIssued(w, job) && Summarizable(rules, job) then w.(summaries := w.summaries + {Draft(rules, job)}) else w
  }

  function Step(rules: Rules, w: World, a: Action): World {
    match a
    case IssuePlan(plan) => PlanStep(rules, w, plan)
    case IssueRequest(plan, ask) => RequestStep(rules, w, plan, ask)
    case IssueRetry(plan, q, p, e, artifacts, now) => RetryStep(rules, w, plan, q, p, e, artifacts, now)
    case IssuePredicate(q, producer, state, startedAt, mutationStarted, remote, evidence, observedAt) =>
      PredicateStep(w, q, ExpectedPredicate(rules, q, producer, state, startedAt, mutationStarted, remote, evidence, observedAt))
    case IssueEnvelope(q, p, bundle, attestation, createdAt) =>
      EnvelopeStep(w, q, p, ExpectedEnvelope(rules, q, p, bundle, attestation, createdAt))
    case IssueReference(q, p, e, pa, ea, verifiedAt) =>
      ReferenceStep(w, q, p, e, CreateReference(rules, q, p, e, pa, ea, verifiedAt))
    case IssueSummary(job) => SummaryStep(rules, w, job)
  }

  function Run(rules: Rules, actions: seq<Action>): World {
    if actions == [] then NOTHING else Step(rules, Run(rules, actions[..|actions| - 1]), actions[|actions| - 1])
  }

  // ---------------------------------------------------------------------------------
  // Where issued documents come from
  // ---------------------------------------------------------------------------------

  /** A site request was made after the issued pre-site summary it names. */
  predicate Gated(rules: Rules, w: World, q: Request)
    requires q.planSha.OfPlan? && |q.planSha.plan.channels| == |CHANNELS|
  {
    && q.preSiteSha.Some? && q.preSiteSha.value.OfSummary?
    && var s := q.preSiteSha.value.summary;
    && s in w.summaries && ValidSummaryForPlan(rules, s, q.planSha.plan, PreSite) && s.createdAt <= q.requestedAt
  }

  /** A retry repeats an issued initial request on the same terms. */
  predicate Repeats(w: World, q: Request) {
    && q.retryOf.Some? && q.retryOf.value.OfRequest?
    && var o := q.retryOf.value.request;
    o in w.requests && o.operation.Initial? && SameTerms(q, o)
  }

  predicate GoodRequest(rules: Rules, w: World, q: Request) {
    && q.planSha.OfPlan? && q.planSha.plan in w.plans && MadeFrom(rules, q.planSha.plan, q)
    && (q.channel == RmuxIo ==> Gated(rules, w, q))
    && (q.operation.Retry? ==> Repeats(w, q))
  }

  predicate GoodPredicate(rules: Rules, w: World, p: Predicate) {
    p.requestSha.OfRequest? && p.requestSha.request in w.requests && ValidPredicate(rules, p, p.requestSha.request)
  }

  predicate GoodEnvelope(w: World, e: Envelope) {
    && e.predicateSha.OfPredicate? && e.predicateSha.predicate_ in w.predicates
    && e.predicateSha.predicate_.observedAt <= e.createdAt
  }

  /** A reference tells what its issued predicate and envelope tell. */
  predicate GoodReference(rules: Rules, w: World, r: Reference) {
    && ValidReference(rules, r)
    && r.predicateSha.OfPredicate? && r.predicateSha.predicate_ in w.predicates
    && r.envelopeSha.OfEnvelope? && r.envelopeSha.envelope in w.envelopes
    && var p, e := r.predicateSha.predicate_, r.envelopeSha.envelope;
    && e.predicateSha == OfPredicate(p) && e.createdAt <= r.verifiedAt
    && r.requestSha == p.requestSha && r.requestSha.OfRequest? && r.planSha == r.requestSha.request.planSha
    && r.channel == p.channel && r.state == p.state && r.mutationStarted == p.mutationStarted
    && r.executionAuthority == p.executionAuthority
  }

  predicate GoodEntry(w: World, e: ResultEntry) {
    e.reference in w.references && e.referenceSha == OfReference(e.reference)
  }

  predicate GoodSummary(rules: Rules, w: World, s: Summary) {
    && s.planSha.OfPlan? && s.planSha.plan in w.plans && ValidPlan(rules, s.planSha.plan)
    && ValidSummaryForPlan(rules, s, s.planSha.plan, s.phase)
    && s.downstreamAuthority == s.planSha.plan.downstreamAuthority
    && (forall i | 0 <= i < |s.results| :: GoodEntry(w, s.results[i]))
    && (s.phase.Final? ==> Extends(w, s))
  }

  /** A final summary holds its issued pre-site summary's results and the site's. */
  predicate Extends(w: World, s: Summary)
    requires s.phase.Final? && |s.results| == |CHANNELS|
  {
    && s.preSiteSha.Some? && s.preSiteSha.value.OfSummary?
    && var prior := s.preSiteSha.value.summary;
    && prior in w.summaries && prior.phase.PreSite? && prior.createdAt <= s.createdAt
    && s.results[..5] + s.results[6..] == prior.results
  }

  predicate Good(rules: Rules, w: World) {
    && (forall plan | plan in w.plans :: ValidPlan(rules, plan))
    && (forall q {:trigger GoodRequest(rules, w, q)} | q in w.requests :: GoodRequest(rules, w, q))
    && (forall p {:trigger GoodPredicate(rules, w, p)} | p in w.predicates :: GoodPredicate(rules, w, p))
    && (forall e {:trigger GoodEnvelope(w, e)} | e in w.envelopes :: GoodEnvelope(w, e))
    && (forall r {:trigger GoodReference(rules, w, r)} | r in w.references :: GoodReference(rules, w, r))
    && (forall s {:trigger GoodSummary(rules, w, s)} | s in w.summaries :: GoodSummary(rules, w, s))
  }

  /** Documents are never withdrawn. */
  predicate Within(a: World, b: World) {
    && a.plans <= b.plans && a.requests <= b.requests && a.predicates <= b.predicates
    && a.envelopes <= b.envelopes && a.references <= b.references && a.summaries <= b.summaries
  }

  lemma GoodStays(rules: Rules, a: World, b: World)
    requires Good(rules, a) && Within(a, b)
    ensures forall q {:trigger GoodRequest(rules, b, q)} | q in a.requests :: GoodRequest(rules, b, q)
    ensures forall p {:trigger GoodPredicate(rules, b, p)} | p in a.predicates :: GoodPredicate(rules, b, p)
    ensures forall e {:trigger GoodEnvelope(b, e)} | e in a.envelopes :: GoodEnvelope(b, e)
    ensures forall r {:trigger GoodReference(rules, b, r)} | r in a.references :: GoodReference(rules, b, r)
    ensures forall s {:trigger GoodSummary(rules, b, s)} | s in a.summaries :: GoodSummary(rules, b, s)
  {
    forall q | q in a.requests ensures GoodRequest(rules, b, q) { assert GoodRequest(rules, a, q); }
    forall p | p in a.predicates ensures GoodPredicate(rules, b, p) { assert GoodPredicate(rules, a, p); }
    forall e | e in a.envelopes ensures GoodEnvelope(b, e) { assert GoodEnvelope(a, e); }
    forall r | r in a.references ensures GoodReference(rules, b, r) { assert GoodReference(rules, a, r); }
    forall s | s in a.summaries ensures GoodSummary(rules, b, s) { SummaryStays(rules, a, b, s); }
  }

  lemma SummaryStays(rules: Rules, a: World, b: World, s: Summary)
    requires GoodSummary(rules, a, s) && Within(a, b)
    ensures GoodSummary(rules, b, s)
  {
    forall i | 0 <= i < |s.results| ensures GoodEntry(b, s.results[i]) {
      assert GoodEntry(a, s.results[i]);
    }
  }

  lemma RequestedIsGood(rules: Rules, w: World, plan: Plan, ask: Ask)
    requires Good(rules, w) && plan in w.plans && ExpectedRequest(rules, plan, ask).Ok?
    requires ask.preSite.Some? ==> ask.preSite.value in w.summaries
    requires ask.retryOf.Some? ==> ask.retryOf.value in w.requests
    ensures GoodRequest(rules, w, ExpectedRequest(rules, plan, ask).value)
  {
    IssuedIsMadeFrom(rules, plan, ask);
    if ask.operation.Retry? {
      RetryKeepsTerms(rules, plan, ask);
    }
  }

  lemma RetriedIsGood(rules: Rules, w: World, plan: Plan, q: Request, p: Predicate, e: Envelope, artifacts: string, now: Time)
    requires Good(rules, w) && plan in w.plans && q in w.requests && p in w.predicates
    requires PrepareRetry(rules, plan, q, p, e, artifacts, now).Ok?
    ensures GoodRequest(rules, w, PrepareRetry(rules, plan, q, p, e, artifacts, now).value)
  {
    var ask := RetryAsk(q, p, e, artifacts, now);
    IssuedIsMadeFrom(rules, plan, ask);
    RetryKeepsTerms(rules, plan, ask);
  }

  lemma ReferredIsGood(rules: Rules, w: World, q: Request, p: Predicate, e: Envelope, pa: Artifact, ea: Artifact, verifiedAt: Time)
    requires Good(rules, w) && p in w.predicates && e in w.envelopes
    requires CreateReference(rules, q, p, e, pa, ea, verifiedAt).Ok?
    ensures GoodReference(rules, w, CreateReference(rules, q, p, e, pa, ea, verifiedAt).value)
  {
  }

  lemma SummedIsGood(rules: Rules, w: World, job: Job)
    requires Good(rules, w) && JobIssued(w, job) && Summarizable(rules, job)
    ensures GoodSummary(rules, w, Draft(rules, job))
  {
    var s := Draft(rules, job);
    SummarizableIsValid(rules, job);
    forall i | 0 <= i < |s.results| ensures GoodEntry(w, s.results[i]) {
      SummedEntry(rules, w, job, i);
    }
    if job.phase.Final? {
      FinalKeepsPreSite(rules, job);
    }
  }

  lemma SummedEntry(rules: Rules, w: World, job: Job, i: nat)
    requires Good(rules, w) && JobIssued(w, job) && Summarizable(rules, job) && i < |Draft(rules, job).results|
    ensures GoodEntry(w, Draft(rules, job).results[i])
  {
    if job.phase.PreSite? {
      PreSiteInputs(job);
      ResultsForAt(PRE_SITE, job.references, i);
      IssuedReference(w, job, PRE_SITE[i]);
    } else {
      FinalResult(rules, job, i);
      IssuedReference(w, job, RmuxIo);
      assert GoodSummary(rules, w, job.preSite.value);
    }
  }

  lemma IssuedReference(w: World, job: Job, c: Channel)
    requires JobIssued(w, job) && c in job.references
    ensures job.references[c] in w.references
  {
    assert job.references[c] in job.references.Values;
  }

  lemma RequestsGood(rules: Rules, w: World, r: Result<Request, Error>)
    requires Good(rules, w) && (r.Ok? ==> GoodRequest(rules, w, r.value))
    ensures Good(rules, Requested(w, r))
  {
    GoodStays(rules, w, Requested(w, r));
  }

  lemma PredicatesGood(rules: Rules, w: World, q: Request, r: Result<Predicate, Error>)
    requires Good(rules, w) && (r.Ok? ==> ValidPredicate(rules, r.value, q))
    ensures Good(rules, PredicateStep(w, q, r))
  {
    GoodStays(rules, w, PredicateStep(w, q, r));
  }

  lemma EnvelopesGood(rules: Rules, w: World, q: Request, p: Predicate, r: Result<Envelope, Error>)
    requires Good(rules, w) && (r.Ok? ==> ValidEnvelope(rules, r.value, p) && p.observedAt <= r.value.createdAt)
    ensures Good(rules, EnvelopeStep(w, q, p, r))
  {
    GoodStays(rules, w, EnvelopeStep(w, q, p, r));
  }

  lemma ReferencesGood(rules: Rules, w: World, q: Request, p: Predicate, e: Envelope, r: Result<Reference, Error>)
    requires Good(rules, w) && (r.Ok? && p in w.predicates && e in w.envelopes ==> GoodReference(rules, w, r.value))
    ensures Good(rules, ReferenceStep(w, q, p, e, r))
  {
    GoodStays(rules, w, ReferenceStep(w, q, p, e, r));
  }

  lemma SummariesGood(rules: Rules, w: World, job: Job)
    requires Good(rules, w)
    ensures Good(rules, SummaryStep(rules, w, job))
  {
    GoodStays(rules, w, SummaryStep(rules, w, job));
    if JobIssued(w, job) && Summarizable(rules, job) {
      SummedIsGood(rules, w, job);
      SummaryStays(rules, w, SummaryStep(rules, w, job), Draft(rules, job));
    }
  }

  lemma PlansGood(rules: Rules, w: World, plan: Plan)
    requires Good(rules, w)
    ensures Good(rules, PlanStep(rules, w, plan))
  {
    GoodStays(rules, w, PlanStep(rules, w, plan));
  }

  lemma RequestStepGood(rules: Rules, w: World, plan: Plan, ask: Ask)
    requires Good(rules, w)
    ensures Good(rules, RequestStep(rules, w, plan, ask))
  {
    if RequestStep(rules, w, plan, ask) != w {
      RequestedIsGood(rules, w, plan, ask);
      RequestsGood(rules, w, ExpectedRequest(rules, plan, ask));
    }
  }

  lemma RetryStepGood(rules: Rules, w: World, plan: Plan, q: Request, p: Predicate, e: Envelope, artifacts: string, now: Time)
    requires Good(rules, w)
    ensures Good(rules, RetryStep(rules, w, plan, q, p, e, artifacts, now))
  {
    if RetryStep(rules, w, plan, q, p, e, artifacts, now) != w {
      RetriedIsGood(rules, w, plan, q, p, e, artifacts, now);
      RequestsGood(rules, w, PrepareRetry(rules, plan, q, p, e, artifacts, now));
    }
  }

  lemma ReferenceStepGood(rules: Rules, w: World, q: Request, p: Predicate, e: Envelope, pa: Artifact, ea: Artifact, verifiedAt: Time)
    requires Good(rules, w)
    ensures Good(rules, ReferenceStep(w, q, p, e, CreateReference(rules, q, p, e, pa, ea, verifiedAt)))
  {
    if p in w.predicates && e in w.envelopes && CreateReference(rules, q, p, e, pa, ea, verifiedAt).Ok? {
      ReferredIsGood(rules, w, q, p, e, pa, ea, verifiedAt);
    }
    ReferencesGood(rules, w, q, p, e, CreateReference(rules, q, p, e, pa, ea, verifiedAt));
  }

  /** Every tool keeps the world good. */
  lemma StepIsGood(rules: Rules, w: World, a: Action)
    requires Good(rules, w)
    ensures Good(rules, Step(rules, w, a))
  {
    match a
    case IssuePlan(plan) => PlansGood(rules, w, plan);
    case IssueRequest(plan, ask) => RequestStepGood(rules, w, plan, ask);
    case IssueRetry(plan, q, p, e, artifacts, now) => RetryStepGood(rules, w, plan, q, p, e, artifacts, now);
    case IssuePredicate(q, producer, state, startedAt, mutationStarted, remote, evidence, observedAt) =>
      PredicatesGood(rules, w, q, ExpectedPredicate(rules, q, producer, state, startedAt, mutationStarted, remote, evidence, observedAt));
    case IssueEnvelope(q, p, bundle, attestation, createdAt) =>
      EnvelopesGood(rules, w, q, p, ExpectedEnvelope(rules, q, p, bundle, attestation, createdAt));
    case IssueReference(q, p, e, pa, ea, verifiedAt) => ReferenceStepGood(rules, w, q, p, e, pa, ea, verifiedAt);
    case IssueSummary(job) => SummariesGood(rules, w, job);
  }

  lemma {:induction false} RunIsGood(rules: Rules, actions: seq<Action>)
    ensures Good(rules, Run(rules, actions))
  {
    if actions != [] {
      RunIsGood(rules, actions[..|actions| - 1]);
      StepIsGood(rules, Run(rules, actions[..|actions| - 1]), actions[|actions| - 1]);
    }
  }

  // ---------------------------------------------------------------------------------
  // rmux.io is last
  // ---------------------------------------------------------------------------------

  /** The issued request and result behind a reference, verified after it was observed. */
  lemma Sources(rules: Rules, w: World, r: Reference)
    requires Good(rules, w) && r in w.references
    ensures r.predicateSha.OfPredicate? && r.requestSha.OfRequest?
    ensures var p, q := r.predicateSha.predicate_, r.requestSha.request;
            && p in w.predicates && q in w.requests && ValidPredicate(rules, p, q)
            && r.planSha == q.planSha && r.channel == q.channel && r.state == p.state
            && p.startedAt <= p.observedAt <= r.verifiedAt
  {
    assert GoodReference(rules, w, r);
    assert GoodEnvelope(w, r.envelopeSha.envelope);
    assert GoodPredicate(rules, w, r.predicateSha.predicate_);
  }

  /** The request and the result behind the rmux.io entry of a final summary. */
  lemma SiteEntry(rules: Rules, w: World, f: Summary)
    requires Good(rules, w) && f in w.summaries && f.phase.Final?
    ensures |f.results| == |CHANNELS| && f.results[5].reference in w.references
    ensures f.results[5].reference.channel == RmuxIo && f.results[5].reference.planSha == f.planSha
  {
    assert GoodSummary(rules, w, f);
    SiteResult(rules, f);
    assert GoodEntry(w, f.results[5]);
  }

  /** A site result starts no earlier than the creation of the pre-site summary its request names. */
  lemma SiteStartsAfterItsSummary(rules: Rules, w: World, q: Request, p: Predicate)
    requires Good(rules, w) && q in w.requests && q.channel == RmuxIo && ValidPredicate(rules, p, q)
    ensures q.preSiteSha.Some? && q.preSiteSha.value.OfSummary? && q.preSiteSha.value.summary in w.summaries
    ensures q.preSiteSha.value.summary.createdAt <= q.requestedAt <= p.startedAt
  {
    assert GoodRequest(rules, w, q);
  }

  /** Each other result of a final summary was verified before its pre-site summary was made. */
  lemma OthersPrecedePreSite(rules: Rules, w: World, f: Summary, i: nat)
    requires Good(rules, w) && f in w.summaries && f.phase.Final? && i < |f.results| && i != 5
    ensures f.preSiteSha.Some? && f.preSiteSha.value.OfSummary? && f.preSiteSha.value.summary in w.summaries
    ensures f.results[i].reference in w.references
    ensures f.results[i].reference.verifiedAt <= f.preSiteSha.value.summary.createdAt
  {
    assert GoodSummary(rules, w, f);
    assert GoodEntry(w, f.results[i]);
    var prior := f.preSiteSha.value.summary;
    assert GoodSummary(rules, w, prior);
    var k := if i < 5 then i else i - 1;
    assert f.results[i] == (f.results[..5] + f.results[6..])[k];
    ResultAt(rules, prior, k);
  }

  /** Every result of a summary was verified by the given time. */
  predicate VerifiedBy(s: Summary, t: Time) {
    forall i | 0 <= i < |s.results| :: s.results[i].reference.verifiedAt <= t
  }

  /** A final summary made of a pre-site summary and a result of a site request. */
  predicate BuiltFrom(f: Summary, s: Summary, q: Request) {
    && f.phase.Final? && f.preSiteSha == Some(OfSummary(s))
    && |f.results| == |CHANNELS| && f.results[5].reference.requestSha == OfRequest(q)
  }

  /** The rmux.io work started after each of the other ten results was verified. */
  predicate SiteLast(f: Summary) {
    && |f.results| == |CHANNELS| && f.results[5].reference.predicateSha.OfPredicate?
    && forall i | 0 <= i < |f.results| && i != 5 ::
         f.results[i].reference.verifiedAt <= f.results[5].reference.predicateSha.predicate_.startedAt
  }

  /** Every final summary has a request and a pre-site summary behind it. */
  lemma FinalIsBuilt(rules: Rules, actions: seq<Action>, f: Summary) returns (s: Summary, q: Request)
    requires f in Run(rules, actions).summaries && f.phase.Final?
    ensures s in Run(rules, actions).summaries && q in Run(rules, actions).requests && BuiltFrom(f, s, q)
    ensures q.channel == RmuxIo && s.phase.PreSite? && s.planSha == q.planSha == f.planSha
  {
    var w := Run(rules, actions);
    RunIsGood(rules, actions);
    SiteEntry(rules, w, f);
    Sources(rules, w, f.results[5].reference);
    PriorPlan(rules, w, f);
    s, q := f.preSiteSha.value.summary, f.results[5].reference.requestSha.request;
  }

  /**
    rmux.io is last: in every run, if the results of the pre-site summary were verified by the time of the rmux.io
    request, the final summary made of the two has the rmux.io work start after all of them.
   */
  lemma SiteIsLast(rules: Rules, actions: seq<Action>, f: Summary, s: Summary, q: Request)
    requires f in Run(rules, actions).summaries && BuiltFrom(f, s, q) && VerifiedBy(s, q.requestedAt)
    ensures SiteLast(f)
  {
    var w, r := Run(rules, actions), f.results[5].reference;
    RunIsGood(rules, actions);
    SiteEntry(rules, w, f);
    Sources(rules, w, r);
    forall i | 0 <= i < |f.results| && i != 5 ensures f.results[i].reference.verifiedAt <= q.requestedAt {
      OtherResult(rules, w, f, i);
    }
  }

  /** The other results of a final summary are those of its pre-site summary. */
  lemma OtherResult(rules: Rules, w: World, f: Summary, i: nat)
    requires Good(rules, w) && f in w.summaries && f.phase.Final? && i < |f.results| && i != 5
    ensures f.preSiteSha.Some? && f.preSiteSha.value.OfSummary? && |f.results| == |CHANNELS|
    ensures var s, k := f.preSiteSha.value.summary, if i < 5 then i else i - 1; k < |s.results| && f.results[i] == s.results[k]
  {
    assert GoodSummary(rules, w, f);
    assert f.results[i] == (f.results[..5] + f.results[6..])[if i < 5 then i else i - 1];
  }

  /** They were, if the request names that very summary. */
  lemma SameSummaryIsInTime(rules: Rules, actions: seq<Action>, s: Summary, q: Request)
    requires q in Run(rules, actions).requests && q.channel == RmuxIo && q.preSiteSha == Some(OfSummary(s))
    ensures s in Run(rules, actions).summaries && VerifiedBy(s, q.requestedAt)
  {
    var w := Run(rules, actions);
    RunIsGood(rules, actions);
    assert GoodRequest(rules, w, q);
    forall i | 0 <= i < |s.results| ensures s.results[i].reference.verifiedAt <= q.requestedAt {
      ResultAt(rules, s, i);
    }
  }

  /** With one pre-site summary to a plan, no condition on the request is needed. */
  predicate OnePreSite(w: World) {
    forall a, b | a in w.summaries && b in w.summaries && a.phase.PreSite? && b.phase.PreSite? && a.planSha == b.planSha :: a == b
  }

  lemma SiteIsLastWhenSummarizedOnce(rules: Rules, actions: seq<Action>, f: Summary)
    requires f in Run(rules, actions).summaries && f.phase.Final? && OnePreSite(Run(rules, actions))
    ensures SiteLast(f)
  {
    var s, q := FinalIsBuilt(rules, actions, f);
    assert q.preSiteSha == Some(OfSummary(s)) by {
      RunIsGood(rules, actions);
      GatePlan(rules, Run(rules, actions), q);
    }
    SameSummaryIsInTime(rules, actions, s, q);
    SiteIsLast(rules, actions, f, s, q);
  }

  /** A site request and the pre-site summary it names are of one plan. */
  lemma GatePlan(rules: Rules, w: World, q: Request)
    requires Good(rules, w) && q in w.requests && q.channel == RmuxIo
    ensures q.preSiteSha.Some? && q.preSiteSha.value.OfSummary? && q.preSiteSha.value.summary in w.summaries
    ensures q.preSiteSha.value.summary.planSha == q.planSha && q.preSiteSha.value.summary.phase.PreSite?
  {
    assert GoodRequest(rules, w, q);
  }

  /** A final summary and its pre-site summary are of one plan. */
  lemma PriorPlan(rules: Rules, w: World, f: Summary)
    requires Good(rules, w) && f in w.summaries && f.phase.Final?
    ensures f.preSiteSha.Some? && f.preSiteSha.value.OfSummary? && f.preSiteSha.value.summary in w.summaries
    ensures f.preSiteSha.value.summary.planSha == f.planSha && f.preSiteSha.value.summary.phase.PreSite?
  {
    assert GoodSummary(rules, w, f);
    var prior := f.preSiteSha.value.summary;
    assert GoodSummary(rules, w, prior);
    ResultAt(rules, f, 0);
    ResultAt(rules, prior, 0);
    assert f.results[0] == (f.results[..5] + f.results[6..])[0];
  }

  // ---------------------------------------------------------------------------------
  // Advertised channels
  // ---------------------------------------------------------------------------------

  /**
    In every run, an advertised channel stands on an issued result of an issued request that was allowed to
    execute, under a plan entry that is policy-allowed or opted in, ready, unblocked and enabled.
   */
  lemma AdvertisedIsReal(rules: Rules, actions: seq<Action>, s: Summary, c: Channel) returns (p: Predicate, q: Request)
    requires s in Run(rules, actions).summaries && c in s.advertised
    ensures p in Run(rules, actions).predicates && q in Run(rules, actions).requests
    ensures p.requestSha == OfRequest(q) && p.channel == q.channel == c && IsPublic(p.state) && p.remoteRequestId.Some?
    ensures q.planSha == s.planSha && q.executionAuthority && q.requestedAt <= p.startedAt <= q.expiresAt
    ensures var e := q.planEntry;
            && e.executionEnabled && e.payloadReady && e.blockers == []
            && (e.policyDecision == Allow || (e.policyDecision == ExplicitOptIn && e.explicitOptIn))
  {
    var w := Run(rules, actions);
    RunIsGood(rules, actions);
    assert GoodSummary(rules, w, s);
    var i := AdvertisedResult(rules, s, c);
    assert GoodEntry(w, s.results[i]);
    var r := s.results[i].reference;
    assert GoodReference(rules, w, r);
    PublicNeedsAuthority(rules, r);
    p, q := r.predicateSha.predicate_, r.requestSha.request;
    assert GoodPredicate(rules, w, p);
    assert GoodRequest(rules, w, q);
    LetOutMeans(rules, q.planSha.plan, c);
  }

  /** While the plan carries no authority, no run gets a mutation or public result out of it. */
  lemma InactivePlanIsQuiet(rules: Rules, actions: seq<Action>, p: Predicate)
    requires p in Run(rules, actions).predicates
    ensures p.requestSha.OfRequest? && p.requestSha.request.planSha.OfPlan?
    ensures !p.requestSha.request.planSha.plan.downstreamAuthority ==>
              NoMutation(p.state) && !p.mutationStarted && p.remoteRequestId.None? && !p.evidence.publicLive
  {
    var w := Run(rules, actions);
    RunIsGood(rules, actions);
    assert GoodPredicate(rules, w, p);
    assert GoodRequest(rules, w, p.requestSha.request);
  }

  // ---------------------------------------------------------------------------------
  // Retry chains
  // ---------------------------------------------------------------------------------

  /** Issued requests, each the retry of the one before. */
  ghost predicate Chain(w: World, qs: seq<Request>) {
    && (forall i | 0 <= i < |qs| :: qs[i] in w.requests)
    && (forall i, j | 0 <= i < j < |qs| && j == i + 1 :: qs[j].retryOf == Some(OfRequest(qs[i])))
  }

  lemma RetriedOnce(rules: Rules, actions: seq<Action>, q: Request)
    requires q in Run(rules, actions).requests
    ensures q.retryOf.Some? <==> q.operation.Retry?
    ensures q.retryOf.Some? ==> q.retryOf.value.OfRequest? && q.retryOf.value.request.operation.Initial?
                                && SameTerms(q, q.retryOf.value.request)
  {
    RunIsGood(rules, actions);
    assert GoodRequest(rules, Run(rules, actions), q);
  }

  /** In every run a chain has at most two requests, on the same terms throughout. */
  lemma ChainIsShort(rules: Rules, actions: seq<Action>, qs: seq<Request>)
    requires Chain(Run(rules, actions), qs)
    ensures |qs| <= 2
    ensures forall i, j | 0 <= i < |qs| && 0 <= j < |qs| :: SameTerms(qs[i], qs[j])
    ensures |qs| == 2 ==> qs[0].operation.Initial? && qs[1].operation.Retry?
  {
    if |qs| > 1 {
      LinkIsRetry(rules, actions, qs[0], qs[1]);
    }
    if |qs| > 2 {
      LinkIsRetry(rules, actions, qs[1], qs[2]);
      assert false;
    }
  }

  lemma LinkIsRetry(rules: Rules, actions: seq<Action>, a: Request, b: Request)
    requires b in Run(rules, actions).requests && b.retryOf == Some(OfRequest(a))
    ensures a.operation.Initial? && b.operation.Retry? && SameTerms(a, b) && SameTerms(b, a)
  {
    RetriedOnce(rules, actions, b);
  }

  // ---------------------------------------------------------------------------------
  // Mutations in a chain
  // ---------------------------------------------------------------------------------

  /** Every retry of the run was made by the retry tool. */
  predicate ToolRetries(actions: seq<Action>) {
    forall i | 0 <= i < |actions| :: actions[i].IssueRequest? ==> actions[i].ask.operation.Initial?
  }

  /** The record of a retry tells of an issued result of the repeated request that started no mutation. */
  predicate Recorded(w: World, q: Request) {
    && q.previous.Some? && q.previous.value.predicateSha.OfPredicate?
    && var p := q.previous.value.predicateSha.predicate_;
    && p in w.predicates && Some(p.requestSha) == q.retryOf
    && !p.mutationStarted && (p.state.Prepared? || p.state.FailedTransient?)
  }

  lemma {:induction false} ToolRetriesAreRecorded(rules: Rules, actions: seq<Action>, q: Request)
    requires ToolRetries(actions) && q in Run(rules, actions).requests && q.operation.Retry?
    ensures Recorded(Run(rules, actions), q)
  {
    var front, a := actions[..|actions| - 1], actions[|actions| - 1];
    var w := Run(rules, front);
    assert ToolRetries(front) by { assert forall i | 0 <= i < |front| :: front[i] == actions[i]; }
    if q in w.requests {
      ToolRetriesAreRecorded(rules, front, q);
    } else {
      NewRetryIsRecorded(rules, w, a, q);
    }
  }

  lemma NewRetryIsRecorded(rules: Rules, w: World, a: Action, q: Request)
    requires a.IssueRequest? ==> a.ask.operation.Initial?
    requires q !in w.requests && q in Step(rules, w, a).requests && q.operation.Retry?
    ensures Recorded(Step(rules, w, a), q)
  {
    if a.IssueRetry? {
      var ask := RetryAsk(a.q, a.p, a.e, a.artifacts, a.now);
      assert ExpectedRequest(rules, a.plan, ask) == Ok(q);
      RetryKeepsTerms(rules, a.plan, ask);
    }
  }

  /** In every run whose retries come from the retry tool, a retry follows a result that started no mutation. */
  lemma RetryFollowsNoMutation(rules: Rules, actions: seq<Action>, q: Request) returns (p: Predicate)
    requires ToolRetries(actions) && q in Run(rules, actions).requests && q.operation.Retry?
    ensures p in Run(rules, actions).predicates && Some(p.requestSha) == q.retryOf
    ensures !p.mutationStarted && p.remoteRequestId.None? && !RemoteMutation(p.state)
  {
    var w := Run(rules, actions);
    ToolRetriesAreRecorded(rules, actions, q);
    p := q.previous.value.predicateSha.predicate_;
    RunIsGood(rules, actions);
    assert ValidPredicate(rules, p, p.requestSha.request) by { assert GoodPredicate(rules, w, p); }
  }

  /** Two different results of a chain that both claim a mutation. */
  ghost predicate MutatedTwice(w: World, qs: seq<Request>, a: Predicate, b: Predicate) {
    && Chain(w, qs) && a in w.predicates && b in w.predicates && a != b && a.mutationStarted && b.mutationStarted
    && a.requestSha.OfRequest? && a.requestSha.request in qs && b.requestSha.OfRequest? && b.requestSha.request in qs
  }

  /** At most one result of a chain claims a mutation. */
  ghost predicate ChainsMutateOnce(w: World) {
    forall qs, a, b :: !MutatedTwice(w, qs, a, b)
  }

  /** The same request, or one the retry of the other. */
  predicate Linked(x: Request, y: Request) {
    x == y || y.retryOf == Some(OfRequest(x)) || x.retryOf == Some(OfRequest(y))
  }

  predicate Clashes(a: Predicate, b: Predicate) {
    && a != b && a.mutationStarted && b.mutationStarted
    && a.requestSha.OfRequest? && b.requestSha.OfRequest? && Linked(a.requestSha.request, b.requestSha.request)
  }

  ghost predicate NoClash(w: World) {
    forall a, b | a in w.predicates && b in w.predicates :: !Clashes(a, b)
  }

  /** Chains being short, the property is one of pairs of results. */
  lemma OnceIffNoClash(rules: Rules, actions: seq<Action>)
    ensures ChainsMutateOnce(Run(rules, actions)) <==> NoClash(Run(rules, actions))
  {
    var w := Run(rules, actions);
    if NoClash(w) {
      forall qs, a, b ensures !MutatedTwice(w, qs, a, b) {
        if MutatedTwice(w, qs, a, b) {
          ChainLinks(rules, actions, qs, a.requestSha.request, b.requestSha.request);
          assert Clashes(a, b);
        }
      }
    }
    if ChainsMutateOnce(w) {
      forall a, b | a in w.predicates && b in w.predicates ensures !Clashes(a, b) {
        if Clashes(a, b) {
          var qs := LinkedChain(rules, actions, a, b);
          assert MutatedTwice(w, qs, a, b);
        }
      }
    }
  }

  lemma ChainLinks(rules: Rules, actions: seq<Action>, qs: seq<Request>, x: Request, y: Request)
    requires Chain(Run(rules, actions), qs) && x in qs && y in qs
    ensures Linked(x, y)
  {
    ChainIsShort(rules, actions, qs);
    if |qs| == 2 {
      assert qs[1].retryOf == Some(OfRequest(qs[0]));
    }
  }

  lemma LinkedChain(rules: Rules, actions: seq<Action>, a: Predicate, b: Predicate) returns (qs: seq<Request>)
    requires a in Run(rules, actions).predicates && b in Run(rules, actions).predicates && Clashes(a, b)
    ensures Chain(Run(rules, actions), qs) && a.requestSha.request in qs && b.requestSha.request in qs
  {
    var w, x, y := Run(rules, actions), a.requestSha.request, b.requestSha.request;
    assert x in w.requests && y in w.requests by {
      RunIsGood(rules, actions);
      assert GoodPredicate(rules, w, a) && GoodPredicate(rules, w, b);
    }
    qs := if x == y then [x] else if y.retryOf == Some(OfRequest(x)) then [x, y] else [y, x];
  }

  ghost predicate Mutated(w: World, q: Request) {
    exists p | p in w.predicates :: p.requestSha == OfRequest(q) && p.mutationStarted
  }

  lemma Mutator(w: World, q: Request) returns (p: Predicate)
    requires Mutated(w, q)
    ensures p in w.predicates && p.requestSha == OfRequest(q) && p.mutationStarted
  {
    p :| p in w.predicates && p.requestSha == OfRequest(q) && p.mutationStarted;
  }

  /** Neither the request, nor the one it repeats, nor a retry of it has a mutating result. */
  ghost predicate Unclaimed(w: World, q: Request) {
    && !Mutated(w, q)
    && (q.retryOf.Some? && q.retryOf.value.OfRequest? ==> !Mutated(w, q.retryOf.value.request))
    && (forall r | r in w.requests && r.retryOf == Some(OfRequest(q)) :: !Mutated(w, r))
  }

  /** The result an action would issue. */
  function ResultOfAction(rules: Rules, a: Action): Result<Predicate, Error> {
    if a.IssuePredicate? then
      ExpectedPredicate(rules, a.q, a.producer, a.state, a.startedAt, a.mutationStarted, a.remote, a.evidence, a.observedAt)
    else Err(Refused)
  }

  /** An action that issues a new mutating result does so for an unclaimed request. */
  ghost predicate Guard(rules: Rules, w: World, a: Action) {
    (&& a.IssuePredicate? && a.mutationStarted && a.q in w.requests
     && ResultOfAction(rules, a).Ok? && ResultOfAction(rules, a).value !in w.predicates)
    ==> Unclaimed(w, a.q)
  }

  ghost predicate Guarded(rules: Rules, actions: seq<Action>) {
    actions == [] ||
    var front := actions[..|actions| - 1];
    Guarded(rules, front) && Guard(rules, Run(rules, front), actions[|actions| - 1])
  }

  /** What a step does to the results. */
  lemma StepResults(rules: Rules, w: World, a: Action)
    ensures Step(rules, w, a).predicates ==
            w.predicates + (if a.IssuePredicate? && a.q in w.requests && ResultOfAction(rules, a).Ok?
                            then {ResultOfAction(rules, a).value} else {})
    ensures ResultOfAction(rules, a).Ok? ==>
              var p := ResultOfAction(rules, a).value; p.requestSha == OfRequest(a.q) && p.mutationStarted == a.mutationStarted
  {
  }

  /** A new mutating result clashes with none exactly when its request is unclaimed. */
  lemma ClashIffClaimed(w: World, q: Request, p: Predicate)
    requires forall b | b in w.predicates :: b.requestSha.OfRequest? && b.requestSha.request in w.requests
    requires p !in w.predicates && p.requestSha == OfRequest(q) && p.mutationStarted
    ensures (forall b | b in w.predicates :: !Clashes(p, b)) <==> Unclaimed(w, q)
  {
    if Unclaimed(w, q) {
      forall b | b in w.predicates ensures !Clashes(p, b) {
        if b.mutationStarted { assert Mutated(w, b.requestSha.request); }
      }
    } else {
      var r: Request :| Mutated(w, r) && Linked(q, r);
      var b := Mutator(w, r);
      assert Clashes(p, b);
    }
  }

  /** No step but a guarded one keeps results from clashing. */
  lemma StepClashIff(rules: Rules, w: World, a: Action)
    requires Good(rules, w)
    ensures NoClash(Step(rules, w, a)) <==> NoClash(w) && Guard(rules, w, a)
  {
    var next := Step(rules, w, a);
    StepResults(rules, w, a);
    if a.IssuePredicate? && a.q in w.requests && ResultOfAction(rules, a).Ok? && ResultOfAction(rules, a).value !in w.predicates {
      var p := ResultOfAction(rules, a).value;
      forall b | b in w.predicates ensures b.requestSha.OfRequest? && b.requestSha.request in w.requests {
        assert GoodPredicate(rules, w, b);
      }
      NewClash(w.predicates, p);
      if a.mutationStarted { ClashIffClaimed(w, a.q, p); }
    } else {
      assert next.predicates == w.predicates;
    }
  }

  lemma NewClash(ps: set<Predicate>, p: Predicate)
    ensures (forall a, b | a in ps + {p} && b in ps + {p} :: !Clashes(a, b)) <==>
            (forall a, b | a in ps && b in ps :: !Clashes(a, b)) && (forall b | b in ps :: !Clashes(p, b))
  {
  }

  lemma {:induction false} NoClashIffGuarded(rules: Rules, actions: seq<Action>)
    ensures NoClash(Run(rules, actions)) <==> Guarded(rules, actions)
  {
    if actions != [] {
      var front, a := actions[..|actions| - 1], actions[|actions| - 1];
      NoClashIffGuarded(rules, front);
      RunIsGood(rules, front);
      StepClashIff(rules, Run(rules, front), a);
    }
  }

  /**
    At most one result of each chain of a run claims a mutation if and only if every new mutating result was
    issued for a request that was unclaimed just before.
   */
  lemma ChainMutatesOnce(rules: Rules, actions: seq<Action>)
    ensures ChainsMutateOnce(Run(rules, actions)) <==> Guarded(rules, actions)
  {
    OnceIffNoClash(rules, actions);
    NoClashIffGuarded(rules, actions);
  }
}
