/**
  How far the release protocol can get.

  A channel that a request may not execute reports the state that scripts/release/channel-execution.py writes
  for its plan entry.  Under that rule a run reaches a final summary of a plan exactly when the plan disarms
  no channel.  The module also holds the runs that break what the tools do not enforce: rmux.io work that
  started before another result was verified, two mutating results in one retry chain, and retries without a
  result; and it says exactly when rmux.io is last.
 */
module ReleaseProgress {
  import opened Wrappers
  import opened Release
  import opened ReleaseSummary
  import opened ReleaseRequest
  import opened ReleaseRun

  /**
    What the tools are given from outside: for each channel a producer, a target URL and payload files, the
    site's for the digest of a pre-site summary; a remote identifier, a commit, an attestation, the artifacts of a
    retry's record; result artifacts by name.
   */
  datatype Staff = Staff(
    producer: Channel -> Producer, url: Channel -> string, files: (Channel, Option<Digest>) -> seq<PayloadFile>,
    id: string, commit: string, attestation: string, record: string, artifact: ArtifactName -> Artifact)

  /** All of it passes the checks that are made of it. */
  ghost predicate Admitted(rules: Rules, staff: Staff) {
    && (forall c: Channel :: rules.producerAllowed(staff.producer(c), c) && rules.urlAllowed(staff.url(c), c))
    && (forall c: Channel, d: Option<Digest> | d.Some? == (c == RmuxIo) :: rules.filesAllowed(c, staff.files(c, d)))
    && (forall d: Digest :: SummaryFiles(staff.files(RmuxIo, Some(d))) ==
                            [PayloadFile("channel-truth-summary", "pre-site-channel-summary.json", d)])
    && rules.idAllowed(staff.id) && rules.commitAllowed(staff.commit) && rules.attestationAllowed(staff.attestation)
    && rules.recordAllowed(staff.record)
    && (forall n: ArtifactName :: rules.artifactAllowed(staff.artifact(n)) && staff.artifact(n).name == n)
  }

  /** A result of a request without execution authority is the one reported for its plan entry. */
  predicate Told(p: Predicate) {
    p.requestSha.OfRequest? && !p.requestSha.request.executionAuthority ==>
      Some(p.state) == UnexecutedState(p.requestSha.request.planEntry.executionDecision)
  }

  predicate Reported(w: World) {
    forall p | p in w.predicates :: Told(p)
  }

  // ---------------------------------------------------------------------------------
  // Disarmed channels stay out
  // ---------------------------------------------------------------------------------

  /** In a reported run no summary, of either phase, holds a result of a disarmed channel. */
  lemma DisarmedStaysOut(rules: Rules, actions: seq<Action>, s: Summary, i: nat)
    requires Reported(Run(rules, actions)) && s in Run(rules, actions).summaries && i < |s.results|
    ensures s.planSha.OfPlan? && |s.planSha.plan.channels| == |CHANNELS|
    ensures EntryOf(s.planSha.plan, s.results[i].channel).executionDecision != Disarmed
  {
    var w := Run(rules, actions);
    RunIsGood(rules, actions);
    assert GoodSummary(rules, w, s);
    ResultAt(rules, s, i);
    assert GoodEntry(w, s.results[i]);
    var r := s.results[i].reference;
    Sources(rules, w, r);
    assert GoodRequest(rules, w, r.requestSha.request);
    assert GoodPredicate(rules, w, r.predicateSha.predicate_);
    assert GoodReference(rules, w, r);
    assert FollowsPlan(s.planSha.plan, s.results[i]);
    assert Told(r.predicateSha.predicate_);
  }

  /** A final summary has a result of every channel, so its plan disarms none. */
  lemma FinalMeansNoneDisarmed(rules: Rules, actions: seq<Action>, f: Summary, plan: Plan, c: Channel)
    requires Reaches(rules, actions, f, plan) && ValidPlan(rules, plan)
    ensures EntryOf(plan, c).executionDecision != Disarmed
  {
    RunIsGood(rules, actions);
    assert GoodSummary(rules, Run(rules, actions), f);
    IndexIsPlace(c);
    ResultAt(rules, f, IndexOf(c));
    DisarmedStaysOut(rules, actions, f, IndexOf(c));
  }

  /** A reported run and a final summary of the plan in it. */
  predicate Reaches(rules: Rules, actions: seq<Action>, f: Summary, plan: Plan) {
    Reported(Run(rules, actions)) && f in Run(rules, actions).summaries && f.phase.Final? && f.planSha == OfPlan(plan)
  }

  // ---------------------------------------------------------------------------------
  // The others get through
  // ---------------------------------------------------------------------------------

  function DigestOf(s: Option<Summary>): Option<Digest> {
    match s
    case None => None
    case Some(value) => Some(OfSummary(value))
  }

  function PayloadFor(plan: Plan, c: Channel, preSite: Option<Summary>, staff: Staff, t: Time): Payload {
    Payload(c, plan.sourceSha, plan.release, plan.receipt.predicateSha, staff.files(c, DigestOf(preSite)), t, t + DAY)
  }

  function AskFor(plan: Plan, c: Channel, preSite: Option<Summary>, staff: Staff, t: Time): Ask {
    Ask(c, Initial, PayloadFor(plan, c, preSite, staff, t), preSite, None, None, t, t + DAY)
  }

  /** A run that goes on: documents are kept, and so are reporting and the use of the retry tool. */
  predicate GoesOn(rules: Rules, actions: seq<Action>, more: seq<Action>) {
    && actions <= more && Within(Run(rules, actions), Run(rules, more))
    && (Reported(Run(rules, actions)) ==> Reported(Run(rules, more)))
    && (ToolRetries(actions) ==> ToolRetries(more))
  }

  lemma RunAppend(rules: Rules, actions: seq<Action>, a: Action)
    ensures Run(rules, actions + [a]) == Step(rules, Run(rules, actions), a)
    ensures Within(Run(rules, actions), Run(rules, actions + [a]))
    ensures !a.IssuePredicate? ==> Run(rules, actions + [a]).predicates == Run(rules, actions).predicates
    ensures ToolRetries(actions + [a]) <==> ToolRetries(actions) && (a.IssueRequest? ==> a.ask.operation.Initial?)
  {
    assert (actions + [a])[..|actions|] == actions;
    ToolRetriesAppend(actions, a);
  }

  lemma ToolRetriesAppend(actions: seq<Action>, a: Action)
    ensures ToolRetries(actions + [a]) <==> ToolRetries(actions) && (a.IssueRequest? ==> a.ask.operation.Initial?)
  {
    var all := actions + [a];
    assert all[|actions|] == a && forall i | 0 <= i < |actions| :: all[i] == actions[i];
    if ToolRetries(all) {
      forall i | 0 <= i < |actions| ensures actions[i].IssueRequest? ==> actions[i].ask.operation.Initial? {
        assert all[i] == actions[i];
      }
    }
  }

  /** What a channel needs before its request: the plan, and for rmux.io the pre-site summary. */
  predicate Requestable(rules: Rules, w: World, plan: Plan, c: Channel, preSite: Option<Summary>, t: Time) {
    && plan in w.plans && ValidPlan(rules, plan) && plan.createdAt <= t
    && preSite.Some? == (c == RmuxIo)
    && (preSite.Some? ==>
          && preSite.value in w.summaries && preSite.value.createdAt <= t
          && ValidSummaryForPlan(rules, preSite.value, plan, PreSite))
  }

  /** A request made at `t` that lasts a day, as does its payload. */
  predicate DayRequest(q: Request, t: Time) {
    && q.requestedAt == t && q.expiresAt == t + DAY
    && q.payload.createdAt == t && q.payload.retentionExpiresAt == t + DAY
  }

  lemma RequestCompletes(rules: Rules, actions: seq<Action>, plan: Plan, c: Channel, preSite: Option<Summary>, staff: Staff, t: Time)
    returns (more: seq<Action>, q: Request)
    requires Admitted(rules, staff) && Requestable(rules, Run(rules, actions), plan, c, preSite, t)
    ensures GoesOn(rules, actions, more) && q in Run(rules, more).requests
    ensures Run(rules, more).predicates == Run(rules, actions).predicates
    ensures MadeFrom(rules, plan, q) && q.channel == c && q.operation.Initial? && DayRequest(q, t)
    ensures q.preSiteSha == DigestOf(preSite)
  {
    var ask := AskFor(plan, c, preSite, staff, t);
    AskIsMet(rules, Run(rules, actions), plan, c, preSite, staff, t);
    RequestIssued(rules, actions, plan, ask);
    more, q := actions + [IssueRequest(plan, ask)], ExpectedRequest(rules, plan, ask).value;
  }

  lemma AskIsMet(rules: Rules, w: World, plan: Plan, c: Channel, preSite: Option<Summary>, staff: Staff, t: Time)
    requires Admitted(rules, staff) && Requestable(rules, w, plan, c, preSite, t)
    ensures var r := ExpectedRequest(rules, plan, AskFor(plan, c, preSite, staff, t));
            && r.Ok? && MadeFrom(rules, plan, r.value) && r.value.channel == c && r.value.operation.Initial?
            && DayRequest(r.value, t) && r.value.preSiteSha == DigestOf(preSite)
  {
    var ask := AskFor(plan, c, preSite, staff, t);
    RequestIff(rules, plan, ask);
    PayloadFits(rules, plan, c, preSite, staff, t);
    IssuedIsMadeFrom(rules, plan, ask);
  }

  lemma PayloadFits(rules: Rules, plan: Plan, c: Channel, preSite: Option<Summary>, staff: Staff, t: Time)
    requires Admitted(rules, staff) && preSite.Some? == (c == RmuxIo)
    ensures var ask := AskFor(plan, c, preSite, staff, t); PayloadAllowed(rules, plan, ask) && CarriesSummary(ask)
  {
    assert DigestOf(preSite).Some? == (c == RmuxIo);
  }

  lemma RequestIssued(rules: Rules, actions: seq<Action>, plan: Plan, ask: Ask)
    requires plan in Run(rules, actions).plans && (ask.preSite.Some? ==> ask.preSite.value in Run(rules, actions).summaries)
    requires ask.retryOf.Some? ==> ask.retryOf.value in Run(rules, actions).requests
    requires ExpectedRequest(rules, plan, ask).Ok?
    ensures var more := actions + [IssueRequest(plan, ask)];
            && ExpectedRequest(rules, plan, ask).value in Run(rules, more).requests
            && (ask.operation.Initial? ==> GoesOn(rules, actions, more))
            && Run(rules, more).predicates == Run(rules, actions).predicates && Within(Run(rules, actions), Run(rules, more))
  {
    RunAppend(rules, actions, IssueRequest(plan, ask));
  }

  /** Any state that needs no public evidence can be reported of a request that may claim it. */
  lemma ResultCompletes(rules: Rules, actions: seq<Action>, q: Request, staff: Staff, state: State, remote: Option<string>, t: Time)
    returns (more: seq<Action>, p: Predicate)
    requires Admitted(rules, staff) && q in Run(rules, actions).requests && ValidRequest(rules, q)
    requires q.requestedAt <= t <= q.expiresAt && !IsPublic(state)
    requires MutationState(state, remote.Some?, remote) && (NoMutation(state) || q.executionAuthority)
    requires remote.Some? ==> rules.idAllowed(remote.value)
    ensures Run(rules, more).predicates == Run(rules, actions).predicates + {p}
    ensures actions <= more && Within(Run(rules, actions), Run(rules, more)) && (ToolRetries(actions) ==> ToolRetries(more))
    ensures ValidPredicate(rules, p, q) && p.startedAt == p.observedAt == t && p.state == state && p.mutationStarted == remote.Some?
  {
    var c := q.channel;
    var evidence := Evidence(c, q.target.kind, q.target.repositoryId, remote, staff.url(c), VersionOf(q.release), Some(staff.commit), false, t);
    PredicateIff(rules, q, staff.producer(c), state, t, remote.Some?, remote, evidence, t);
    var a := IssuePredicate(q, staff.producer(c), state, t, remote.Some?, remote, evidence, t);
    more := actions + [a];
    p := ExpectedPredicate(rules, q, staff.producer(c), state, t, remote.Some?, remote, evidence, t).value;
    RunAppend(rules, actions, a);
  }

  /** What is reported of a channel that is not disarmed, with nothing done yet if it is enabled. */
  function QuietState(decision: Execution): (s: State)
    requires decision != Disarmed
    ensures PlannedState(s, decision) && NoMutation(s)
    ensures decision != Enabled ==> Some(s) == UnexecutedState(decision)
  {
    match decision
    case Denied => DeniedByPolicy
    case Blocked => BlockedState
    case Enabled => Prepared
  }

  lemma QuietIsTold(rules: Rules, p: Predicate, q: Request)
    requires ValidPredicate(rules, p, q) && q.planEntry.executionDecision != Disarmed
    requires p.state == QuietState(q.planEntry.executionDecision)
    ensures Told(p)
  {
  }

  lemma StillReported(w: World, w': World, p: Predicate)
    requires w'.predicates == w.predicates + {p} && Told(p)
    ensures Reported(w) ==> Reported(w')
  {
  }

  lemma PredicateCompletes(rules: Rules, actions: seq<Action>, q: Request, staff: Staff, t: Time)
    returns (more: seq<Action>, p: Predicate)
    requires Admitted(rules, staff) && q in Run(rules, actions).requests && ValidRequest(rules, q)
    requires q.requestedAt <= t <= q.expiresAt && q.planEntry.executionDecision != Disarmed
    ensures GoesOn(rules, actions, more) && p in Run(rules, more).predicates
    ensures ValidPredicate(rules, p, q) && p.startedAt == p.observedAt == t
    ensures p.state == QuietState(q.planEntry.executionDecision) && !p.mutationStarted
  {
    more, p := ResultCompletes(rules, actions, q, staff, QuietState(q.planEntry.executionDecision), None, t);
    QuietIsTold(rules, p, q);
    StillReported(Run(rules, actions), Run(rules, more), p);
  }

  lemma ReferenceCompletes(rules: Rules, actions: seq<Action>, q: Request, p: Predicate, staff: Staff, t: Time)
    returns (more: seq<Action>, r: Reference)
    requires Admitted(rules, staff) && q in Run(rules, actions).requests && p in Run(rules, actions).predicates
    requires ValidPredicate(rules, p, q) && p.observedAt == t
    ensures GoesOn(rules, actions, more) && r in Run(rules, more).references
    ensures ValidReference(rules, r) && r.verifiedAt == t && r.requestSha == OfRequest(q) && r.predicateSha == OfPredicate(p)
    ensures r.channel == q.channel && r.state == p.state && r.planSha == q.planSha && r.receipt == q.receipt
    ensures r.sourceSha == q.sourceSha && r.release == q.release && r.downstreamAuthority == q.downstreamAuthority
  {
    var pa := staff.artifact(ResultOf(p.channel, p.sourceSha, p.release.id));
    var ea := staff.artifact(EnvelopeOf(p.channel, p.sourceSha, p.release.id));
    var sealed, e := EnvelopeCompletes(rules, actions, q, p, staff, t);
    ReferenceIff(rules, q, p, e, pa, ea, t);
    ReferenceBinds(rules, q, p, e, pa, ea, t);
    ReferenceIssued(rules, sealed, q, p, e, pa, ea, t);
    more, r := sealed + [IssueReference(q, p, e, pa, ea, t)], CreateReference(rules, q, p, e, pa, ea, t).value;
  }

  lemma ReferenceIssued(rules: Rules, actions: seq<Action>, q: Request, p: Predicate, e: Envelope, pa: Artifact, ea: Artifact, t: Time)
    requires q in Run(rules, actions).requests && p in Run(rules, actions).predicates && e in Run(rules, actions).envelopes
    requires CreateReference(rules, q, p, e, pa, ea, t).Ok?
    ensures var more := actions + [IssueReference(q, p, e, pa, ea, t)];
            GoesOn(rules, actions, more) && CreateReference(rules, q, p, e, pa, ea, t).value in Run(rules, more).references
  {
    RunAppend(rules, actions, IssueReference(q, p, e, pa, ea, t));
  }

  lemma ReferenceBinds(rules: Rules, q: Request, p: Predicate, e: Envelope, pa: Artifact, ea: Artifact, t: Time)
    requires CreateReference(rules, q, p, e, pa, ea, t).Ok?
    ensures var r := CreateReference(rules, q, p, e, pa, ea, t).value;
            && r.verifiedAt == t && r.requestSha == OfRequest(q) && r.predicateSha == OfPredicate(p)
            && r.channel == q.channel && r.state == p.state && r.planSha == q.planSha && r.receipt == q.receipt
            && r.sourceSha == q.sourceSha && r.release == q.release && r.downstreamAuthority == q.downstreamAuthority
  {
  }

  lemma EnvelopeCompletes(rules: Rules, actions: seq<Action>, q: Request, p: Predicate, staff: Staff, t: Time)
    returns (more: seq<Action>, e: Envelope)
    requires Admitted(rules, staff) && q in Run(rules, actions).requests && p in Run(rules, actions).predicates
    requires ValidPredicate(rules, p, q) && p.observedAt == t
    ensures GoesOn(rules, actions, more) && e in Run(rules, more).envelopes
    ensures ValidEnvelope(rules, e, p) && e.createdAt == t
    ensures e.resultBundle == staff.artifact(ResultOf(p.channel, p.sourceSha, p.release.id))
  {
    var bundle := staff.artifact(ResultOf(p.channel, p.sourceSha, p.release.id));
    EnvelopeIff(rules, q, p, bundle, staff.attestation, t);
    var a := IssueEnvelope(q, p, bundle, staff.attestation, t);
    more, e := actions + [a], ExpectedEnvelope(rules, q, p, bundle, staff.attestation, t).value;
    RunAppend(rules, actions, a);
  }

  /** Every channel that is not disarmed can be brought to a reference that its plan's summary accepts. */
  lemma ChannelCompletes(rules: Rules, actions: seq<Action>, plan: Plan, c: Channel, preSite: Option<Summary>, staff: Staff, t: Time)
    returns (more: seq<Action>, r: Reference)
    requires Admitted(rules, staff) && Requestable(rules, Run(rules, actions), plan, c, preSite, t)
    requires EntryOf(plan, c).executionDecision != Disarmed
    ensures GoesOn(rules, actions, more) && r in Run(rules, more).references
    ensures Fits(rules, plan, c, r) && Binds(plan, r, t) && r.verifiedAt == t
    ensures r.requestSha.OfRequest? && r.requestSha.request.preSiteSha == DigestOf(preSite)
    ensures r.predicateSha.OfPredicate? && r.predicateSha.predicate_.startedAt == t
  {
    var asked, q := RequestCompletes(rules, actions, plan, c, preSite, staff, t);
    var told, p := PredicateCompletes(rules, asked, q, staff, t);
    more, r := ReferenceCompletes(rules, told, q, p, staff, t);
  }

  /** An issued reference for each of the channels, and for no other. */
  ghost predicate Gathered(rules: Rules, w: World, plan: Plan, channels: seq<Channel>, refs: map<Channel, Reference>, t: Time)
    requires |plan.channels| == |CHANNELS|
  {
    && (forall c :: c in refs <==> c in channels)
    && (forall c | c in refs :: refs[c] in w.references && Verified(rules, plan, c, refs[c], t))
  }

  /** A reference of the plan's channel, verified at `t`. */
  predicate Verified(rules: Rules, plan: Plan, c: Channel, r: Reference, t: Time)
    requires |plan.channels| == |CHANNELS|
  {
    Fits(rules, plan, c, r) && Binds(plan, r, t) && r.verifiedAt == t
  }

  lemma GatherOneMore(rules: Rules, w: World, w': World, plan: Plan, channels: seq<Channel>, refs: map<Channel, Reference>,
                      c: Channel, r: Reference, t: Time)
    requires |plan.channels| == |CHANNELS| && Gathered(rules, w, plan, channels, refs, t) && w.references <= w'.references
    requires r in w'.references && Verified(rules, plan, c, r, t)
    ensures Gathered(rules, w', plan, channels + [c], refs[c := r], t)
  {
    var all := refs[c := r];
    forall k | k in all ensures all[k] in w'.references && Verified(rules, plan, k, all[k], t) {
      if k != c {
        assert Verified(rules, plan, k, refs[k], t);
      }
    }
  }

  /** The plan disarms none of the channels. */
  predicate Armed(plan: Plan, channels: seq<Channel>)
    requires |plan.channels| == |CHANNELS|
  {
    forall c | c in channels :: EntryOf(plan, c).executionDecision != Disarmed
  }

  lemma {:induction false} ChannelsComplete(rules: Rules, actions: seq<Action>, plan: Plan, channels: seq<Channel>, staff: Staff, t: Time)
    returns (more: seq<Action>, refs: map<Channel, Reference>)
    requires Admitted(rules, staff) && RmuxIo !in channels
    requires plan in Run(rules, actions).plans && ValidPlan(rules, plan) && plan.createdAt <= t && Armed(plan, channels)
    ensures GoesOn(rules, actions, more)
    ensures Gathered(rules, Run(rules, more), plan, channels, refs, t)
    decreases channels
  {
    if channels == [] {
      more, refs := actions, map[];
    } else {
      var front, c := channels[..|channels| - 1], channels[|channels| - 1];
      assert channels == front + [c];
      var before, some := ChannelsComplete(rules, actions, plan, front, staff, t);
      var r;
      more, r := ChannelCompletes(rules, before, plan, c, None, staff, t);
      refs := some[c := r];
      GatherOneMore(rules, Run(rules, before), Run(rules, more), plan, front, some, c, r, t);
    }
  }

  /** A summary of issued documents is issued. */
  lemma SummaryCompletes(rules: Rules, actions: seq<Action>, job: Job)
    requires JobIssued(Run(rules, actions), job) && Summarizable(rules, job)
    ensures Draft(rules, job) in Run(rules, actions + [IssueSummary(job)]).summaries
    ensures GoesOn(rules, actions, actions + [IssueSummary(job)])
  {
    RunAppend(rules, actions, IssueSummary(job));
    SummaryAction(rules, Run(rules, actions), job);
    SummaryIsAdded(rules, Run(rules, actions), job);
  }

  lemma SummaryAction(rules: Rules, w: World, job: Job)
    ensures Step(rules, w, IssueSummary(job)) == SummaryStep(rules, w, job)
  {
  }

  lemma SummaryIsAdded(rules: Rules, w: World, job: Job)
    requires JobIssued(w, job) && Summarizable(rules, job)
    ensures SummaryStep(rules, w, job) == w.(summaries := w.summaries + {Draft(rules, job)})
  {
  }

  lemma GatheredIsJob(rules: Rules, w: World, plan: Plan, refs: map<Channel, Reference>, t: Time)
    requires ValidPlan(rules, plan) && plan.createdAt <= t && plan in w.plans
    requires Gathered(rules, w, plan, PRE_SITE, refs, t)
    ensures var job := Job(plan, PreSite, refs, None, t); JobIssued(w, job) && Summarizable(rules, job)
  {
    PreSiteIsAllButSite(refs);
  }

  lemma PreSiteIsAllButSite(refs: map<Channel, Reference>)
    requires forall c :: c in refs <==> c in PRE_SITE
    ensures forall c: Channel :: c in refs <==> c != RmuxIo
  {
    forall c: Channel ensures c in refs <==> c != RmuxIo {
      if c != RmuxIo {
        var k := PreSitePlace(c);
      }
    }
  }

  /** A pre-site summary made at `t` of results verified at `t`. */
  predicate MadeAt(rules: Rules, s: Summary, plan: Plan, t: Time)
    requires |plan.channels| == |CHANNELS|
  {
    && ValidSummaryForPlan(rules, s, plan, PreSite) && s.downstreamAuthority == plan.downstreamAuthority
    && s.createdAt == t && s.results[0].reference.verifiedAt == t
  }

  lemma PreSiteSummaryCompletes(rules: Rules, actions: seq<Action>, plan: Plan, staff: Staff, t: Time)
    returns (more: seq<Action>, s: Summary)
    requires Admitted(rules, staff) && plan in Run(rules, actions).plans
    requires ValidPlan(rules, plan) && plan.createdAt <= t && Armed(plan, PRE_SITE)
    ensures GoesOn(rules, actions, more) && s in Run(rules, more).summaries
    ensures MadeAt(rules, s, plan, t)
  {
    var before, refs := ChannelsComplete(rules, actions, plan, PRE_SITE, staff, t);
    var job := Job(plan, PreSite, refs, None, t);
    GatheredIsJob(rules, Run(rules, before), plan, refs, t);
    SummarizableIsValid(rules, job);
    more, s := before + [IssueSummary(job)], Draft(rules, job);
    SummaryCompletes(rules, before, job);
    PreSiteInputs(job);
    ResultsForAt(PRE_SITE, refs, 0);
  }

  lemma FinalIsJob(rules: Rules, w: World, job: Job)
    requires ValidPlan(rules, job.plan) && job.plan.createdAt <= job.createdAt && job.plan in w.plans
    requires job.phase.Final? && job.preSite.Some? && job.references.Keys == {RmuxIo}
    requires Fits(rules, job.plan, RmuxIo, job.references[RmuxIo]) && Binds(job.plan, job.references[RmuxIo], job.createdAt)
    requires job.references[RmuxIo] in w.references
    requires ValidSummaryForPlan(rules, job.preSite.value, job.plan, PreSite) && job.preSite.value in w.summaries
    requires job.preSite.value.createdAt <= job.createdAt
    requires job.preSite.value.downstreamAuthority == job.plan.downstreamAuthority
    ensures JobIssued(w, job) && Summarizable(rules, job)
  {
    assert forall c: Channel :: c in job.references <==> c in job.references.Keys;
  }

  /** A site reference and a pre-site summary, whichever the request named, make a final summary. */
  lemma FinalSummaryCompletes(rules: Rules, actions: seq<Action>, plan: Plan, s: Summary, r: Reference, t: Time)
    returns (more: seq<Action>, f: Summary)
    requires ValidPlan(rules, plan) && plan.createdAt <= t && plan in Run(rules, actions).plans
    requires s in Run(rules, actions).summaries && ValidSummaryForPlan(rules, s, plan, PreSite) && s.createdAt <= t
    requires s.downstreamAuthority == plan.downstreamAuthority
    requires r in Run(rules, actions).references && Fits(rules, plan, RmuxIo, r) && Binds(plan, r, t)
    ensures GoesOn(rules, actions, more) && f in Run(rules, more).summaries
    ensures f.phase.Final? && f.planSha == OfPlan(plan) && f.preSiteSha == Some(OfSummary(s))
    ensures |f.results| == |CHANNELS| && f.results[5].reference == r && f.results[..5] + f.results[6..] == s.results
  {
    var job := Job(plan, Final, map[RmuxIo := r], Some(s), t);
    FinalIsJob(rules, Run(rules, actions), job);
    SummaryCompletes(rules, actions, job);
    more, f := actions + [IssueSummary(job)], Draft(rules, job);
    FinalResult(rules, job, 5);
    FinalKeepsPreSite(rules, job);
  }

  lemma PlanCompletes(rules: Rules, plan: Plan) returns (actions: seq<Action>)
    requires ValidPlan(rules, plan)
    ensures plan in Run(rules, actions).plans && Reported(Run(rules, actions)) && ToolRetries(actions)
  {
    actions := [] + [IssuePlan(plan)];
    RunAppend(rules, [], IssuePlan(plan));
  }

  /** A plan that disarms no channel is brought to a final summary, built from the summary its rmux.io request names. */
  lemma ArmedPlanCompletes(rules: Rules, plan: Plan, staff: Staff) returns (actions: seq<Action>, f: Summary)
    requires ValidPlan(rules, plan) && Admitted(rules, staff) && Armed(plan, CHANNELS)
    ensures Reaches(rules, actions, f, plan)
    ensures |f.results| == |CHANNELS| && f.results[5].reference.requestSha.OfRequest?
    ensures f.results[5].reference.requestSha.request.preSiteSha == f.preSiteSha
  {
    var t := plan.createdAt;
    ArmedEverywhere(plan);
    var start := PlanCompletes(rules, plan);
    var before, s := PreSiteSummaryCompletes(rules, start, plan, staff, t);
    var ready, r := ChannelCompletes(rules, before, plan, RmuxIo, Some(s), staff, t);
    actions, f := FinalSummaryCompletes(rules, ready, plan, s, r, t);
  }

  lemma ArmedEverywhere(plan: Plan)
    requires |plan.channels| == |CHANNELS| && Armed(plan, CHANNELS)
    ensures forall c: Channel :: EntryOf(plan, c).executionDecision != Disarmed
    ensures Armed(plan, PRE_SITE)
  {
    forall c: Channel ensures EntryOf(plan, c).executionDecision != Disarmed {
      IndexIsPlace(c);
      assert c in CHANNELS;
    }
  }

  /**
    The exact reach of the protocol: some reported run ends in a final summary of the plan if and only if the
    plan disarms no channel, that is, it carries authority or no channel is both allowed and ready.
   */
  lemma CompletesIffNoneDisarmed(rules: Rules, plan: Plan, staff: Staff)
    requires ValidPlan(rules, plan) && Admitted(rules, staff)
    ensures (exists actions, f :: Reaches(rules, actions, f, plan)) <==> Armed(plan, CHANNELS)
    ensures Armed(plan, CHANNELS) <==>
            plan.downstreamAuthority || forall c: Channel :: !Releasable(rules, plan, c)
  {
    if Armed(plan, CHANNELS) {
      var actions, f := ArmedPlanCompletes(rules, plan, staff);
      ArmedEverywhere(plan);
    }
    if actions, f :| Reaches(rules, actions, f, plan) {
      forall c | c in CHANNELS ensures EntryOf(plan, c).executionDecision != Disarmed {
        FinalMeansNoneDisarmed(rules, actions, f, plan, c);
      }
    }
    forall c: Channel
      ensures EntryOf(plan, c).executionDecision == Disarmed <==> Releasable(rules, plan, c) && !plan.downstreamAuthority
    {
      DecisionIff(rules, plan, c);
    }
  }

  /** Policy allows the channel, or it is opted in, and its payload is ready and unblocked. */
  predicate Releasable(rules: Rules, plan: Plan, c: Channel) {
    var raw, contracted := rules.policy(plan.release.kind, c), rules.contract(c);
    && (raw.Permitted? || (raw.OptIn? && plan.snapOptIn))
    && contracted.payloadReady && contracted.blockers == []
  }

  // ---------------------------------------------------------------------------------
  // What the tools do not enforce
  // ---------------------------------------------------------------------------------

  /**
    For every plan that can be completed at all, a run in which the final summary is built from a second
    pre-site summary: the rmux.io work started before another of its results was verified.
   */
  lemma SiteCanComeFirst(rules: Rules, plan: Plan, staff: Staff) returns (actions: seq<Action>, f: Summary)
    requires ValidPlan(rules, plan) && Admitted(rules, staff) && Armed(plan, CHANNELS)
    ensures Reaches(rules, actions, f, plan) && |f.results| == |CHANNELS|
    ensures f.results[5].reference.predicateSha.OfPredicate?
    ensures f.results[5].reference.predicateSha.predicate_.startedAt < f.results[0].reference.verifiedAt
  {
    var t := plan.createdAt;
    ArmedEverywhere(plan);
    var start := PlanCompletes(rules, plan);
    var before, s := PreSiteSummaryCompletes(rules, start, plan, staff, t);
    var ready, r := ChannelCompletes(rules, before, plan, RmuxIo, Some(s), staff, t);
    var again, later := PreSiteSummaryCompletes(rules, ready, plan, staff, t + 1);
    actions, f := FinalSummaryCompletes(rules, again, plan, later, r, t + 1);
    assert f.results[0] == (f.results[..5] + f.results[6..])[0];
  }

  /** A submitted result of an issued executable request can always be issued, whatever was issued before. */
  lemma SubmittedCompletes(rules: Rules, actions: seq<Action>, q: Request, staff: Staff) returns (more: seq<Action>, p: Predicate)
    requires Admitted(rules, staff) && q in Run(rules, actions).requests && ValidRequest(rules, q) && q.executionAuthority
    ensures GoesOn(rules, actions, more) && p in Run(rules, more).predicates
    ensures p.requestSha == OfRequest(q) && p.mutationStarted
  {
    more, p := ResultCompletes(rules, actions, q, staff, Submitted, Some(staff.id), q.requestedAt);
    StillReported(Run(rules, actions), Run(rules, more), p);
  }

  /** Once a retried request has a mutating result, its retry can get one too. */
  lemma RetriedCanMutate(rules: Rules, actions: seq<Action>, q: Request, r: Request, a: Predicate, staff: Staff)
    returns (more: seq<Action>, b: Predicate)
    requires Admitted(rules, staff) && r in Run(rules, actions).requests && r.retryOf == Some(OfRequest(q))
    requires a in Run(rules, actions).predicates && a.requestSha == OfRequest(q) && a.mutationStarted
    ensures GoesOn(rules, actions, more) && MutatedTwice(Run(rules, more), [q, r], a, b)
  {
    RetryOfMutated(rules, actions, q, r, a);
    more, b := SubmittedCompletes(rules, actions, r, staff);
    LinkIsRetry(rules, actions, q, r);
  }

  /** A mutation was claimed under an enabled entry, which a retry shares. */
  lemma RetryOfMutated(rules: Rules, actions: seq<Action>, q: Request, r: Request, a: Predicate)
    requires r in Run(rules, actions).requests && r.retryOf == Some(OfRequest(q))
    requires a in Run(rules, actions).predicates && a.requestSha == OfRequest(q) && a.mutationStarted
    ensures q in Run(rules, actions).requests && ValidRequest(rules, r) && r.executionAuthority
  {
    RunIsGood(rules, actions);
    assert GoodRequest(rules, Run(rules, actions), r);
    assert GoodPredicate(rules, Run(rules, actions), a);
    MutationNeedsEntry(rules, a, q, r);
  }

  lemma MutationNeedsEntry(rules: Rules, a: Predicate, q: Request, r: Request)
    requires ValidPredicate(rules, a, q) && a.mutationStarted
    requires ValidRequest(rules, r) && r.planEntry == q.planEntry
    ensures r.executionAuthority
  {
  }

  /**
    For every plan with an enabled channel other than rmux.io, a run with tool-made retries in which both
    requests of a chain have a mutating result.
   */
  lemma ChainCanMutateTwice(rules: Rules, plan: Plan, c: Channel, staff: Staff)
    returns (actions: seq<Action>, qs: seq<Request>, a: Predicate, b: Predicate)
    requires ValidPlan(rules, plan) && Admitted(rules, staff)
    requires EntryOf(plan, c).executionDecision == Enabled && c != RmuxIo
    ensures Reported(Run(rules, actions)) && ToolRetries(actions) && |qs| == 2 && MutatedTwice(Run(rules, actions), qs, a, b)
    ensures qs[0].channel == c && qs[0].planSha == OfPlan(plan)
  {
    var t := plan.createdAt;
    var start := PlanCompletes(rules, plan);
    var asked, q := RequestCompletes(rules, start, plan, c, None, staff, t);
    var retried, r := RetryCompletes(rules, asked, plan, q, staff, t);
    var submitted;
    submitted, a := SubmittedCompletes(rules, retried, q, staff);
    actions, b := RetriedCanMutate(rules, submitted, q, r, a, staff);
    qs := [q, r];
  }

  lemma RetryCompletes(rules: Rules, actions: seq<Action>, plan: Plan, q: Request, staff: Staff, t: Time)
    returns (more: seq<Action>, r: Request)
    requires Admitted(rules, staff) && plan in Run(rules, actions).plans && q in Run(rules, actions).requests
    requires MadeFrom(rules, plan, q) && q.operation.Initial? && DayRequest(q, t)
    requires q.channel != RmuxIo && q.planEntry.executionDecision == Enabled
    ensures GoesOn(rules, actions, more)
    ensures r in Run(rules, more).requests && r.retryOf == Some(OfRequest(q))
  {
    var told, p := PredicateCompletes(rules, actions, q, staff, t);
    var sealed, e := EnvelopeCompletes(rules, told, q, p, staff, t);
    RetryIff(rules, plan, q, p, e, staff.record, t);
    var a := IssueRetry(plan, q, p, e, staff.record, t);
    more, r := sealed + [a], PrepareRetry(rules, plan, q, p, e, staff.record, t).value;
    RunAppend(rules, sealed, a);
    RetryKeepsTerms(rules, plan, RetryAsk(q, p, e, staff.record, t));
  }

  /**
    For every plan and every channel but rmux.io, a run with a direct retry of a request that never had a result:
    what the record of a retry tells is the retry tool's word alone.
   */
  lemma DirectRetryNeedsNoResult(rules: Rules, plan: Plan, c: Channel, staff: Staff)
    returns (actions: seq<Action>, q: Request, r: Request)
    requires ValidPlan(rules, plan) && Admitted(rules, staff) && c != RmuxIo
    ensures Run(rules, actions).predicates == {}
    ensures q in Run(rules, actions).requests && r in Run(rules, actions).requests
    ensures q.channel == c && q.planSha == OfPlan(plan) && r.retryOf == Some(OfRequest(q))
  {
    var t := plan.createdAt;
    var start := [] + [IssuePlan(plan)];
    RunAppend(rules, [], IssuePlan(plan));
    var asked;
    asked, q := RequestCompletes(rules, start, plan, c, None, staff, t);
    actions, r := DirectRetryCompletes(rules, asked, plan, q, staff, t);
  }

  /** A request can be asked for again with a record of a result that there never was. */
  lemma DirectRetryCompletes(rules: Rules, actions: seq<Action>, plan: Plan, q: Request, staff: Staff, t: Time)
    returns (more: seq<Action>, r: Request)
    requires Admitted(rules, staff) && plan in Run(rules, actions).plans && q in Run(rules, actions).requests
    requires MadeFrom(rules, plan, q) && q.operation.Initial? && DayRequest(q, t) && q.channel != RmuxIo
    ensures Run(rules, more).predicates == Run(rules, actions).predicates && Within(Run(rules, actions), Run(rules, more))
    ensures r in Run(rules, more).requests && r.retryOf == Some(OfRequest(q))
  {
    var record := Previous(staff.record, OfText(""), OfText(""), OfRequest(q), Prepared, false, None);
    var ask := Ask(q.channel, Retry, q.payload, None, Some(q), Some(record), t, t + DAY);
    RetryAskIff(rules, plan, q, ask);
    RetryKeepsTerms(rules, plan, ask);
    RequestIssued(rules, actions, plan, ask);
    more, r := actions + [IssueRequest(plan, ask)], ExpectedRequest(rules, plan, ask).value;
  }

  // ---------------------------------------------------------------------------------
  // When rmux.io is last
  // ---------------------------------------------------------------------------------

  /** A reported run that goes on to a final summary made of a pre-site summary and a result of a site request. */
  predicate Ends(rules: Rules, actions: seq<Action>, more: seq<Action>, f: Summary, s: Summary, q: Request) {
    actions <= more && Reported(Run(rules, more)) && f in Run(rules, more).summaries && BuiltFrom(f, s, q)
  }

  /** A late result of the pre-site summary: the site work can be started before it was verified. */
  lemma LateResultBreaksOrder(rules: Rules, actions: seq<Action>, s: Summary, q: Request, staff: Staff)
    returns (more: seq<Action>, f: Summary)
    requires Admitted(rules, staff) && Reported(Run(rules, actions)) && q in Run(rules, actions).requests && q.channel == RmuxIo
    requires s in Run(rules, actions).summaries && s.phase.PreSite? && s.planSha == q.planSha
    requires q.planEntry.executionDecision != Disarmed && !VerifiedBy(s, q.requestedAt)
    ensures Ends(rules, actions, more, f, s, q) && !SiteLast(f)
  {
    var plan := IssuedWith(rules, actions, s, q);
    var t := q.requestedAt;
    var told, p := PredicateCompletes(rules, actions, q, staff, t);
    var referred, r := ReferenceCompletes(rules, told, q, p, staff, t);
    more, f := FinalSummaryCompletes(rules, referred, plan, s, r, if t < s.createdAt then s.createdAt else t);
    LateResult(f, s, t);
  }

  lemma LateResult(f: Summary, s: Summary, t: Time)
    requires |f.results| == |CHANNELS| && f.results[..5] + f.results[6..] == s.results && !VerifiedBy(s, t)
    requires f.results[5].reference.predicateSha.OfPredicate? && f.results[5].reference.predicateSha.predicate_.startedAt == t
    ensures !SiteLast(f)
  {
    var i :| 0 <= i < |s.results| && t < s.results[i].reference.verifiedAt;
    assert s.results[i] == (f.results[..5] + f.results[6..])[i];
    assert s.results[i] == f.results[if i < 5 then i else i + 1];
  }

  /** The plan of an issued request and summary, and what both have of it. */
  lemma IssuedWith(rules: Rules, actions: seq<Action>, s: Summary, q: Request) returns (plan: Plan)
    requires q in Run(rules, actions).requests && s in Run(rules, actions).summaries
    requires s.phase.PreSite? && s.planSha == q.planSha
    ensures plan in Run(rules, actions).plans && MadeFrom(rules, plan, q)
    ensures ValidSummaryForPlan(rules, s, plan, PreSite) && s.downstreamAuthority == plan.downstreamAuthority
  {
    RunIsGood(rules, actions);
    assert GoodRequest(rules, Run(rules, actions), q);
    assert GoodSummary(rules, Run(rules, actions), s);
    plan := q.planSha.plan;
  }

  /** A final summary of a reported run has no site request of a plan that disarms rmux.io. */
  lemma FinalIsArmed(rules: Rules, more: seq<Action>, f: Summary, s: Summary, q: Request)
    requires Reported(Run(rules, more)) && f in Run(rules, more).summaries && BuiltFrom(f, s, q)
    ensures q.planEntry.executionDecision != Disarmed
  {
    var w := Run(rules, more);
    DisarmedStaysOut(rules, more, f, 5);
    RunIsGood(rules, more);
    SiteEntry(rules, w, f);
    Sources(rules, w, f.results[5].reference);
    assert GoodRequest(rules, w, q);
    assert GoodSummary(rules, w, f);
    SiteResult(rules, f);
  }

  /**
    When rmux.io is last: for an issued site request and an issued pre-site summary of its plan, every final
    summary that a reported run goes on to make of them has the site last if and only if the plan disarms
    rmux.io, so that there is none, or every result of the summary was verified by the time of the request.
   */
  lemma SiteIsLastIff(rules: Rules, actions: seq<Action>, s: Summary, q: Request, staff: Staff)
    requires Admitted(rules, staff) && Reported(Run(rules, actions)) && q in Run(rules, actions).requests && q.channel == RmuxIo
    requires s in Run(rules, actions).summaries && s.phase.PreSite? && s.planSha == q.planSha
    ensures (forall more, f | Ends(rules, actions, more, f, s, q) :: SiteLast(f)) <==>
            q.planEntry.executionDecision == Disarmed || VerifiedBy(s, q.requestedAt)
  {
    if q.planEntry.executionDecision == Disarmed || VerifiedBy(s, q.requestedAt) {
      forall more, f | Ends(rules, actions, more, f, s, q) ensures SiteLast(f) {
        FinalIsArmed(rules, more, f, s, q);
        SiteIsLast(rules, more, f, s, q);
      }
    } else {
      var more, f := LateResultBreaksOrder(rules, actions, s, q, staff);
    }
  }
}
