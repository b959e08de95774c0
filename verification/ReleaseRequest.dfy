/**
  Making channel requests and retrying them (scripts/release/channel_request.py and
  scripts/release/prepare-channel-retry.py).
 */
module ReleaseRequest {
  import opened Wrappers
  import opened Release
  import opened ReleaseSummary

  /** The arguments of a request, with documents in place of paths. */
  datatype Ask = Ask(
    channel: Channel, operation: Operation, payload: Payload, preSite: Option<Summary>, retryOf: Option<Request>,
    previous: Option<Previous>, requestedAt: Time, expiresAt: Time)

  /** Only rmux.io reads a pre-site summary, one made for the same plan and not after the request. */
  predicate PreSiteAllowed(rules: Rules, plan: Plan, ask: Ask)
    requires |plan.channels| == |CHANNELS|
  {
    if ask.channel != RmuxIo then ask.preSite.None?
    else
      && ask.preSite.Some?
      && ValidSummaryForPlan(rules, ask.preSite.value, plan, PreSite)
      && ask.preSite.value.createdAt <= ask.requestedAt
  }

  function PreSiteDigest(ask: Ask): Option<Digest> {
    match ask.preSite
    case None => None
    case Some(s) => Some(OfSummary(s))
  }

  /** The fields a retry must share with the request it repeats. */
  predicate SameTerms(a: Request, b: Request) {
    && a.repositoryId == b.repositoryId && a.sourceSha == b.sourceSha && a.release == b.release
    && a.receipt == b.receipt && a.planSha == b.planSha && a.planEntry == b.planEntry && a.channel == b.channel
    && a.idempotencyKey == b.idempotencyKey && a.payload == b.payload && a.payloadSetSha == b.payloadSetSha
    && a.preSiteSha == b.preSiteSha && a.target == b.target
  }

  function RequestFor(rules: Rules, plan: Plan, ask: Ask): Request
    requires |plan.channels| == |CHANNELS|
  {
    var entry := EntryOf(plan, ask.channel);
    var enabled := entry.executionDecision == Enabled;
    var payloadSet := OfFiles(ask.payload.files);
    var target := rules.target(ask.channel);
    Request(plan.status, plan.downstreamAuthority, enabled, enabled, REPOSITORY_ID, plan.sourceSha, plan.release,
            plan.receipt, OfPlan(plan), entry, ask.channel, ask.operation, if ask.operation.Retry? then 1 else 0,
            OfKey(KeyMaterial(plan.receipt.predicateSha, ask.channel, plan.release.ref, payloadSet, target)),
            if ask.operation.Retry? && ask.retryOf.Some? then Some(OfRequest(ask.retryOf.value)) else None,
            ask.payload, payloadSet, PreSiteDigest(ask), target, ask.previous, false, ask.requestedAt, ask.expiresAt)
  }

  predicate RetryAllowed(rules: Rules, plan: Plan, ask: Ask)
    requires |plan.channels| == |CHANNELS|
  {
    && (ask.previous.Some? ==> rules.recordAllowed(ask.previous.value.artifacts) && Retryable(ask.previous.value))
    && match ask.operation {
      case Initial => ask.retryOf.None? && ask.previous.None?
      case Retry =>
        && ask.retryOf.Some? && ask.previous.Some?
        && ValidRequest(rules, ask.retryOf.value)
        && ask.retryOf.value.operation.Initial? && ask.retryOf.value.retryDepth == 0
        && ask.previous.value.requestSha == OfRequest(ask.retryOf.value)
        && SameTerms(RequestFor(rules, plan, ask), ask.retryOf.value)
    }
  }

  function ExpectedRequest(rules: Rules, plan: Plan, ask: Ask): (r: Result<Request, Error>)
    ensures r.Ok? ==> ValidRequest(rules, r.value) && ValidPlan(rules, plan)
    ensures r.Ok? ==> r.value.requestedAt == ask.requestedAt >= plan.createdAt && r.value.planSha == OfPlan(plan)
  {
    if !ValidPlan(rules, plan) || ask.requestedAt < plan.createdAt || !PreSiteAllowed(rules, plan, ask)
       || !RetryAllowed(rules, plan, ask) then Err(Refused)
    else
      var q := RequestFor(rules, plan, ask);
      if ValidRequest(rules, q) then Ok(q) else Err(Refused)
  }

  // ---------------------------------------------------------------------------------
  // Requests and their plans
  // ---------------------------------------------------------------------------------

  /** The payload a request of the plan may carry, and for how long. */
  predicate PayloadAllowed(rules: Rules, plan: Plan, ask: Ask) {
    && rules.filesAllowed(ask.channel, ask.payload.files)
    && ask.payload.channel == ask.channel && ask.payload.sourceSha == plan.sourceSha
    && ask.payload.release == plan.release && ask.payload.receiptPredicateSha == plan.receipt.predicateSha
    && ask.payload.createdAt <= ask.requestedAt < ask.expiresAt <= ask.requestedAt + DAY
    && ask.expiresAt <= ask.payload.retentionExpiresAt
  }

  /** The payload of a site request carries exactly the pre-site summary the request names. */
  predicate CarriesSummary(ask: Ask) {
    ask.channel == RmuxIo ==>
      var files := SummaryFiles(ask.payload.files);
      && |files| == 1 && ask.preSite.Some?
      && files[0].name == "pre-site-channel-summary.json" && files[0].sha == OfSummary(ask.preSite.value)
  }

  /** A request is issued exactly when the plan is valid and its payload, summary and retry evidence fit. */
  lemma RequestIff(rules: Rules, plan: Plan, ask: Ask)
    ensures ExpectedRequest(rules, plan, ask).Ok? <==>
            && ValidPlan(rules, plan) && plan.createdAt <= ask.requestedAt
            && PreSiteAllowed(rules, plan, ask) && RetryAllowed(rules, plan, ask)
            && PayloadAllowed(rules, plan, ask) && CarriesSummary(ask)
  {
    if ValidPlan(rules, plan) && PreSiteAllowed(rules, plan, ask) && RetryAllowed(rules, plan, ask) {
      RequestFits(rules, plan, ask);
      SummaryFits(rules, plan, ask);
      RetryFits(rules, plan, ask);
    }
  }

  /** Apart from its summary and retry evidence, a request made from a plan is valid exactly when its payload is. */
  lemma RequestFits(rules: Rules, plan: Plan, ask: Ask)
    requires ValidPlan(rules, plan)
    ensures var q := RequestFor(rules, plan, ask);
            PreSiteMatches(q) && RetryMatches(rules, q) ==> (ValidRequest(rules, q) <==> PayloadAllowed(rules, plan, ask))
  {
    EnabledMeans(rules, plan, ask.channel);
    ReadyMeans(rules, plan, ask.channel);
  }

  lemma SummaryFits(rules: Rules, plan: Plan, ask: Ask)
    requires |plan.channels| == |CHANNELS| && PreSiteAllowed(rules, plan, ask)
    ensures PreSiteMatches(RequestFor(rules, plan, ask)) <==> CarriesSummary(ask)
  {
  }

  lemma RetryFits(rules: Rules, plan: Plan, ask: Ask)
    requires |plan.channels| == |CHANNELS| && RetryAllowed(rules, plan, ask)
    ensures RetryMatches(rules, RequestFor(rules, plan, ask))
  {
  }

  /** Channels that are neither denied nor blocked are ready. */
  lemma ReadyMeans(rules: Rules, plan: Plan, c: Channel)
    requires ValidPlan(rules, plan)
    ensures var e := EntryOf(plan, c);
            e.executionDecision == Enabled || e.executionDecision == Disarmed ==> e.payloadReady && e.blockers == []
  {
    if EntryOf(plan, c).executionDecision == Enabled || EntryOf(plan, c).executionDecision == Disarmed {
      LetOutMeans(rules, plan, c);
    }
  }

  /** A request executes exactly when its plan entry is enabled, and only under downstream authority. */
  lemma ExecutesIffEnabled(rules: Rules, plan: Plan, ask: Ask)
    requires ExpectedRequest(rules, plan, ask).Ok?
    ensures var q := ExpectedRequest(rules, plan, ask).value;
            && q.planEntry == EntryOf(plan, ask.channel)
            && (q.executionAuthority <==> EntryOf(plan, ask.channel).executionEnabled)
            && (q.executionAuthority ==> plan.downstreamAuthority)
  {
    EnabledMeans(rules, plan, ask.channel);
  }

  // ---------------------------------------------------------------------------------
  // Retries
  // ---------------------------------------------------------------------------------

  /** Any retry repeats an initial request on the same terms, after a record without mutation. */
  lemma RetryKeepsTerms(rules: Rules, plan: Plan, ask: Ask)
    requires ExpectedRequest(rules, plan, ask).Ok? && ask.operation.Retry?
    ensures var q := ExpectedRequest(rules, plan, ask).value;
            && ask.retryOf.Some? && q.retryOf == Some(OfRequest(ask.retryOf.value))
            && ask.retryOf.value.operation.Initial? && SameTerms(q, ask.retryOf.value)
            && q.previous.Some? && q.previous.value.requestSha == OfRequest(ask.retryOf.value)
            && !q.previous.value.mutationStarted && q.previous.value.remoteRequestId.None?
            && (q.previous.value.state.Prepared? || q.previous.value.state.FailedTransient?)
  {
  }

  /** The request tool does not look behind the record: any digests in it are accepted. */
  lemma RetryTrustsItsRecord(rules: Rules, plan: Plan, ask: Ask, predicateSha: Digest, envelopeSha: Digest)
    requires ExpectedRequest(rules, plan, ask).Ok? && ask.operation.Retry? && ask.previous.Some?
    ensures var record := ask.previous.value.(predicateSha := predicateSha, envelopeSha := envelopeSha);
            ExpectedRequest(rules, plan, ask.(previous := Some(record))).Ok?
  {
    var record := ask.previous.value.(predicateSha := predicateSha, envelopeSha := envelopeSha);
    var other := ask.(previous := Some(record));
    RequestIff(rules, plan, ask);
    RequestIff(rules, plan, other);
    TermsIgnoreRecord(rules, plan, ask, record);
  }

  lemma TermsIgnoreRecord(rules: Rules, plan: Plan, ask: Ask, record: Previous)
    requires |plan.channels| == |CHANNELS|
    ensures SameTerms(RequestFor(rules, plan, ask.(previous := Some(record))), RequestFor(rules, plan, ask))
  {
  }

  /** Asking again with the payload of a request made from the plan asks on the same terms. */
  lemma RepeatKeepsTerms(rules: Rules, plan: Plan, q: Request, ask: Ask)
    requires MadeFrom(rules, plan, q) && q.channel != RmuxIo
    requires ask.channel == q.channel && ask.payload == q.payload && ask.preSite.None?
    ensures SameTerms(RequestFor(rules, plan, ask), q)
  {
  }

  /** The record of a result. */
  function RecordOf(q: Request, p: Predicate, e: Envelope, artifacts: string): Previous {
    Previous(artifacts, OfPredicate(p), OfEnvelope(e), OfRequest(q), p.state, p.mutationStarted, p.remoteRequestId)
  }

  function RetryAsk(q: Request, p: Predicate, e: Envelope, artifacts: string, now: Time): Ask {
    var retention := q.payload.retentionExpiresAt;
    Ask(q.channel, Retry, q.payload, None, Some(q), Some(RecordOf(q, p, e, artifacts)), now,
        if now + DAY < retention then now + DAY else retention)
  }

  /** Preparing the retry of a request whose result is at hand. */
  function PrepareRetry(rules: Rules, plan: Plan, q: Request, p: Predicate, e: Envelope, artifacts: string, now: Time):
    (r: Result<Request, Error>)
    ensures r.Ok? ==> r == ExpectedRequest(rules, plan, RetryAsk(q, p, e, artifacts, now))
  {
    if !ValidPlan(rules, plan) || !ValidRequest(rules, q) || !q.operation.Initial? || q.retryDepth != 0
       || q.receipt != plan.receipt || q.planSha != OfPlan(plan)
       || !ValidPredicate(rules, p, q) || !ValidEnvelope(rules, e, p) || !Retryable(RecordOf(q, p, e, artifacts))
       || q.payload.retentionExpiresAt <= now then Err(Refused)
    else ExpectedRequest(rules, plan, RetryAsk(q, p, e, artifacts, now))
  }

  /** What a request made from a plan binds of it. */
  predicate MadeFrom(rules: Rules, plan: Plan, q: Request) {
    && ValidPlan(rules, plan) && ValidRequest(rules, q)
    && q.planSha == OfPlan(plan) && q.sourceSha == plan.sourceSha && q.release == plan.release
    && q.receipt == plan.receipt && q.planEntry == EntryOf(plan, q.channel)
    && q.downstreamAuthority == plan.downstreamAuthority
    && plan.createdAt <= q.requestedAt
  }

  lemma IssuedIsMadeFrom(rules: Rules, plan: Plan, ask: Ask)
    requires ExpectedRequest(rules, plan, ask).Ok?
    ensures MadeFrom(rules, plan, ExpectedRequest(rules, plan, ask).value)
  {
  }

  /**
    An initial request made from the plan can be retried exactly when its result started no mutation and is
    prepared or failed transiently, its payload has not expired, the clock has not gone back, and the channel
    is not rmux.io: the retry tool hands over no pre-site summary.
   */
  lemma RetryIff(rules: Rules, plan: Plan, q: Request, p: Predicate, e: Envelope, artifacts: string, now: Time)
    requires MadeFrom(rules, plan, q) && q.operation.Initial?
    requires ValidPredicate(rules, p, q) && ValidEnvelope(rules, e, p)
    ensures PrepareRetry(rules, plan, q, p, e, artifacts, now).Ok? <==>
            && q.channel != RmuxIo
            && !p.mutationStarted && (p.state.Prepared? || p.state.FailedTransient?) && rules.recordAllowed(artifacts)
            && plan.createdAt <= now && q.payload.createdAt <= now < q.payload.retentionExpiresAt
  {
    RetryAskIff(rules, plan, q, RetryAsk(q, p, e, artifacts, now));
  }

  /** What is asked for a retry of the request is granted exactly in time, and not for rmux.io. */
  lemma RetryAskIff(rules: Rules, plan: Plan, q: Request, ask: Ask)
    requires MadeFrom(rules, plan, q) && q.operation.Initial?
    requires ask.channel == q.channel && ask.operation.Retry? && ask.payload == q.payload && ask.preSite.None?
    requires ask.retryOf == Some(q) && ask.previous.Some? && ask.previous.value.requestSha == OfRequest(q)
    requires ask.expiresAt == if ask.requestedAt + DAY < q.payload.retentionExpiresAt then ask.requestedAt + DAY
                              else q.payload.retentionExpiresAt
    ensures ExpectedRequest(rules, plan, ask).Ok? <==>
            && q.channel != RmuxIo && rules.recordAllowed(ask.previous.value.artifacts) && Retryable(ask.previous.value)
            && plan.createdAt <= ask.requestedAt && q.payload.createdAt <= ask.requestedAt < q.payload.retentionExpiresAt
  {
    RequestIff(rules, plan, ask);
    if q.channel != RmuxIo {
      RepeatKeepsTerms(rules, plan, q, ask);
    }
  }

  // ---------------------------------------------------------------------------------
  // One request, two results
  // ---------------------------------------------------------------------------------

  /** The same result, had the channel been submitted. */
  function AsSubmitted(p: Predicate, id: string, commit: string): Predicate {
    var evidence := p.evidence.(externalId := Some(id), commitSha := Some(commit), publicLive := false);
    p.(state := Submitted, mutationStarted := true, remoteRequestId := Some(id), evidence := evidence,
       subjectSha := OfEvidence(evidence))
  }

  /**
    Nothing in a result says that it is the only one: beside every unmutated result of an executable request,
    a submitted result of the same request is as valid.
   */
  lemma SecondResultIsValid(rules: Rules, p: Predicate, q: Request, id: string, commit: string)
    requires ValidPredicate(rules, p, q) && p.executionAuthority && rules.idAllowed(id) && rules.commitAllowed(commit)
    ensures ValidPredicate(rules, AsSubmitted(p, id, commit), q) && AsSubmitted(p, id, commit).mutationStarted
  {
  }
}
