/**
  The documents of the downstream release protocol and their validators
  (scripts/release/downstream_channels.py, downstream_plan.py, downstream_result.py,
  downstream_result_document.py, downstream_result_reference.py, channel_request.py and
  channel-result.py).

  Documents are typed values.  A digest is the digested document under a constructor, so
  equal digests mean equal documents; times are numbers.
 */
module Release {
  import opened Wrappers

  const REPOSITORY_ID: int := 1239918790
  const DAY: int := 86400

  type Time = int

  datatype Channel =
    | AptRpm | Chocolatey | CratesIo | HomebrewCore | HomebrewTap | RmuxIo
    | Scoop | SnapCandidate | SnapStable | WebShare | Winget

  const CHANNELS: seq<Channel> :=
    [AptRpm, Chocolatey, CratesIo, HomebrewCore, HomebrewTap, RmuxIo,
     Scoop, SnapCandidate, SnapStable, WebShare, Winget]

  const PRE_SITE: seq<Channel> :=
    [AptRpm, Chocolatey, CratesIo, HomebrewCore, HomebrewTap,
     Scoop, SnapCandidate, SnapStable, WebShare, Winget]

  datatype Kind = Rc | Stable

  datatype Status = DisarmedStatus | AuthorizedStatus | OtherStatus

  datatype Decision = Allow | Deny | ExplicitOptIn

  datatype Execution = Denied | Blocked | Disarmed | Enabled

  datatype Operation = Initial | Retry

  datatype State =
    | BlockedState | DeniedByPolicy | FailedTerminal | FailedTransient | NoOpExact
    | PendingModeration | Prepared | PublicLive | Submitted

  datatype Identity = Identity(id: int, ref: string, intentId: string, kind: Kind, tagObjectSha: string)

  datatype Receipt = Receipt(run: string, predicateSha: string, envelopeSha: string, verifiedAt: Time)

  datatype Target = Target(kind: string, repositoryId: Option<int>, fullName: Option<string>, service: Option<string>)

  datatype PlanEntry = PlanEntry(
    name: Channel, phase: string, policyDecision: Decision, explicitOptIn: bool,
    executionDecision: Execution, executionEnabled: bool, payloadReady: bool,
    payloadRoles: seq<string>, dependsOn: seq<Channel>, blockers: seq<string>)

  datatype Plan = Plan(
    status: Status, downstreamAuthority: bool, executionAuthority: bool, executionEnabled: bool,
    repositoryId: int, sourceSha: string, release: Identity, receipt: Receipt, policySha: Digest,
    snapOptIn: bool, createdAt: Time, channels: seq<PlanEntry>)

  datatype PayloadFile = PayloadFile(role: string, name: string, sha: Digest)

  datatype Payload = Payload(
    channel: Channel, sourceSha: string, release: Identity, receiptPredicateSha: string,
    files: seq<PayloadFile>, createdAt: Time, retentionExpiresAt: Time)

  datatype KeyMaterial = KeyMaterial(
    receiptPredicateSha: string, channel: Channel, releaseRef: string, payloadSetSha: Digest, target: Target)

  datatype Previous = Previous(
    artifacts: string, predicateSha: Digest, envelopeSha: Digest, requestSha: Digest,
    state: State, mutationStarted: bool, remoteRequestId: Option<string>)

  datatype Request = Request(
    status: Status, downstreamAuthority: bool, executionAuthority: bool, executionEnabled: bool,
    repositoryId: int, sourceSha: string, release: Identity, receipt: Receipt, planSha: Digest,
    planEntry: PlanEntry, channel: Channel, operation: Operation, retryDepth: int, idempotencyKey: Digest,
    retryOf: Option<Digest>, payload: Payload, payloadSetSha: Digest, preSiteSha: Option<Digest>,
    target: Target, previous: Option<Previous>, rebuildNative: bool, requestedAt: Time, expiresAt: Time)

  datatype Producer = Producer(runId: int, workflow: string, runner: string)

  datatype Evidence = Evidence(
    channel: Channel, targetKind: string, repositoryId: Option<int>, externalId: Option<string>, url: string,
    version: string, commitSha: Option<string>, publicLive: bool, observedAt: Time)

  datatype Predicate = Predicate(
    status: Status, downstreamAuthority: bool, executionAuthority: bool, repositoryId: int,
    sourceSha: string, release: Identity, receipt: Receipt, requestSha: Digest, payloadSetSha: Digest,
    idempotencyKey: Digest, channel: Channel, target: Target, producer: Producer, subjectSha: Digest,
    state: State, startedAt: Time, mutationStarted: bool, remoteRequestId: Option<string>,
    evidence: Evidence, observedAt: Time)

  /** The names under which result artifacts are uploaded. */
  datatype ArtifactName =
    | ResultOf(channel: Channel, sourceSha: string, releaseId: int)
    | EnvelopeOf(channel: Channel, sourceSha: string, releaseId: int)
    | OtherName(text: string)

  datatype Artifact = Artifact(artifactId: int, name: ArtifactName, digest: string, size: int)

  datatype Envelope = Envelope(
    status: Status, downstreamAuthority: bool, executionAuthority: bool, repositoryId: int,
    sourceSha: string, releaseRef: string, channel: Channel, requestSha: Digest, predicateSha: Digest,
    attestation: string, resultBundle: Artifact, createdAt: Time)

  datatype Reference = Reference(
    status: Status, downstreamAuthority: bool, executionAuthority: bool, repositoryId: int,
    sourceSha: string, release: Identity, receipt: Receipt, planSha: Digest, channel: Channel,
    producer: Producer, requestSha: Digest, payloadSetSha: Digest, idempotencyKey: Digest,
    state: State, mutationStarted: bool, remoteRequestId: Option<string>, publicLive: bool,
    evidence: Evidence, predicateBundle: Artifact, predicateSha: Digest, envelopeBundle: Artifact,
    envelopeSha: Digest, attestation: string, verifiedAt: Time)

  datatype Phase = PreSite | Final

  datatype ResultEntry = ResultEntry(channel: Channel, referenceSha: Digest, reference: Reference)

  datatype Summary = Summary(
    phase: Phase, status: Status, downstreamAuthority: bool, executionAuthority: bool,
    repositoryId: int, sourceSha: string, release: Identity, receipt: Receipt, planSha: Digest,
    policySha: Digest, results: seq<ResultEntry>, advertised: seq<Channel>, unresolved: seq<Channel>,
    rmuxIoAuthority: bool, preSiteSha: Option<Digest>, createdAt: Time)

  datatype Digest =
    | OfPlan(plan: Plan)
    | OfFiles(files: seq<PayloadFile>)
    | OfKey(material: KeyMaterial)
    | OfRequest(request: Request)
    | OfEvidence(evidence: Evidence)
    | OfPredicate(predicate_: Predicate)
    | OfEnvelope(envelope: Envelope)
    | OfReference(reference: Reference)
    | OfSummary(summary: Summary)
    | OfText(text: string)

  datatype PolicyValue = Permitted | Forbidden | OptIn | Unknown

  datatype ContractEntry = ContractEntry(
    phase: string, rcPolicy: Decision, stablePolicy: Decision, payloadReady: bool,
    payloadRoles: seq<string>, blockers: seq<string>)

  /** The tracked policy, contract and registry files, and the checks that only consult them. */
  datatype Rules = Rules(
    policy: (Kind, Channel) -> PolicyValue,
    contract: Channel -> ContractEntry,
    target: Channel -> Target,
    policySha: Digest,
    producerAllowed: (Producer, Channel) -> bool,
    urlAllowed: (string, Channel) -> bool,
    commitRequired: Channel -> bool,
    filesAllowed: (Channel, seq<PayloadFile>) -> bool,
    idAllowed: string -> bool,
    commitAllowed: string -> bool,
    attestationAllowed: string -> bool,
    artifactAllowed: Artifact -> bool,
    recordAllowed: string -> bool)

  datatype Error = Refused

  // ---------------------------------------------------------------------------------
  // Authority
  // ---------------------------------------------------------------------------------

  function StatusFor(active: bool): Status {
    if active then AuthorizedStatus else DisarmedStatus
  }

  /** Status and downstream authority agree, and execution never exceeds it. */
  predicate Authority(status: Status, downstream: bool, execution: bool) {
    status == StatusFor(downstream) && (execution ==> downstream)
  }

  // ---------------------------------------------------------------------------------
  // Plans
  // ---------------------------------------------------------------------------------

  function PlanEntryFor(rules: Rules, kind: Kind, optIn: bool, active: bool, c: Channel): (r: Result<PlanEntry, Error>) {
    var contracted := rules.contract(c);
    var raw := rules.policy(kind, c);
    if raw.Unknown? || (raw.OptIn? && c != SnapCandidate) then Err(Refused)
    else
      var decision := if raw.Permitted? then Allow else if raw.Forbidden? then Deny else ExplicitOptIn;
      var optedIn := raw.OptIn? && optIn;
      var allowed := raw.Permitted? || optedIn;
      if (if kind.Rc? then contracted.rcPolicy else contracted.stablePolicy) != decision then Err(Refused)
      else
        var execution :=
          if !allowed then Denied
          else if !contracted.payloadReady || contracted.blockers != [] then Blocked
          else if active then Enabled else Disarmed;
        Ok(PlanEntry(c, contracted.phase, decision, optedIn, execution, execution == Enabled,
                     contracted.payloadReady, contracted.payloadRoles,
                     if c == RmuxIo then PRE_SITE else [], contracted.blockers))
  }

  predicate Planned(rules: Rules, kind: Kind, optIn: bool, active: bool, entries: seq<PlanEntry>) {
    && |entries| == |CHANNELS|
    && forall i | 0 <= i < |CHANNELS| :: PlanEntryFor(rules, kind, optIn, active, CHANNELS[i]) == Ok(entries[i])
  }

  /** The loop over all channels; it fails on the first policy value that is not fail-closed. */
  method ExpectedChannelEntries(rules: Rules, kind: Kind, optIn: bool, active: bool)
    returns (r: Result<seq<PlanEntry>, Error>)
    ensures r.Ok? ==> Planned(rules, kind, optIn, active, r.value)
    ensures r.Err? ==> forall entries :: !Planned(rules, kind, optIn, active, entries)
  {
    var result: seq<PlanEntry> := [];
    var i := 0;
    while i < |CHANNELS|
      invariant 0 <= i <= |CHANNELS| && |result| == i
      invariant forall k | 0 <= k < i :: PlanEntryFor(rules, kind, optIn, active, CHANNELS[k]) == Ok(result[k])
    {
      var entry := PlanEntryFor(rules, kind, optIn, active, CHANNELS[i]);
      if entry.Err? {
        return Err(Refused);
      }
      result := result + [entry.value];
      i := i + 1;
    }
    return Ok(result);
  }

  predicate ValidPlan(rules: Rules, plan: Plan) {
    && Authority(plan.status, plan.downstreamAuthority, plan.executionAuthority)
    && plan.executionAuthority == plan.executionEnabled == plan.downstreamAuthority
    && plan.repositoryId == REPOSITORY_ID
    && plan.policySha == rules.policySha
    && plan.createdAt >= plan.receipt.verifiedAt
    && Planned(rules, plan.release.kind, plan.snapOptIn, plan.downstreamAuthority, plan.channels)
  }

  function IndexOf(c: Channel): (i: nat)
    ensures i < |CHANNELS|
  {
    match c
    case AptRpm => 0
    case Chocolatey => 1
    case CratesIo => 2
    case HomebrewCore => 3
    case HomebrewTap => 4
    case RmuxIo => 5
    case Scoop => 6
    case SnapCandidate => 7
    case SnapStable => 8
    case WebShare => 9
    case Winget => 10
  }

  lemma IndexIsPlace(c: Channel)
    ensures CHANNELS[IndexOf(c)] == c
  {
  }

  /** The plan's entry for a channel. */
  function EntryOf(plan: Plan, c: Channel): (e: PlanEntry)
    requires |plan.channels| == |CHANNELS|
  {
    plan.channels[IndexOf(c)]
  }

  /** What an enabled entry guarantees, and that authority alone separates enabled from disarmed. */
  lemma EnabledMeans(rules: Rules, plan: Plan, c: Channel)
    requires ValidPlan(rules, plan)
    ensures var e := EntryOf(plan, c);
            && e.name == c
            && (e.executionEnabled <==> e.executionDecision == Enabled)
            && (e.executionDecision == Enabled ==>
                  && plan.downstreamAuthority && e.payloadReady && e.blockers == []
                  && (e.policyDecision == Allow || (e.policyDecision == ExplicitOptIn && e.explicitOptIn && plan.snapOptIn)))
            && (e.executionDecision == Disarmed ==> !plan.downstreamAuthority)
  {
    IndexIsPlace(c);
    assert PlanEntryFor(rules, plan.release.kind, plan.snapOptIn, plan.downstreamAuthority, CHANNELS[IndexOf(c)]) ==
           Ok(plan.channels[IndexOf(c)]);
  }

  /** Policy, contract, opt-in and authority decide each channel's execution, one case to each decision. */
  lemma DecisionIff(rules: Rules, plan: Plan, c: Channel)
    requires ValidPlan(rules, plan)
    ensures var raw, contracted := rules.policy(plan.release.kind, c), rules.contract(c);
            var allowed := raw.Permitted? || (raw.OptIn? && plan.snapOptIn);
            var ready := contracted.payloadReady && contracted.blockers == [];
            var d := EntryOf(plan, c).executionDecision;
            && (d == Denied <==> !allowed)
            && (d == Blocked <==> allowed && !ready)
            && (d == Disarmed <==> allowed && ready && !plan.downstreamAuthority)
            && (d == Enabled <==> allowed && ready && plan.downstreamAuthority)
            && !raw.Unknown? && (raw.OptIn? ==> c == SnapCandidate)
  {
    IndexIsPlace(c);
    assert PlanEntryFor(rules, plan.release.kind, plan.snapOptIn, plan.downstreamAuthority, CHANNELS[IndexOf(c)]) ==
           Ok(plan.channels[IndexOf(c)]);
  }

  /** What else a plan says of a channel: its contract's phase and payload, and that rmux.io waits for all the others. */
  lemma EntryTells(rules: Rules, plan: Plan, c: Channel)
    requires ValidPlan(rules, plan)
    ensures var raw, contracted, e := rules.policy(plan.release.kind, c), rules.contract(c), EntryOf(plan, c);
            && e.name == c && e.phase == contracted.phase && e.payloadReady == contracted.payloadReady
            && e.payloadRoles == contracted.payloadRoles && e.blockers == contracted.blockers
            && (e.policyDecision == Allow <==> raw.Permitted?) && (e.policyDecision == Deny <==> raw.Forbidden?)
            && (e.explicitOptIn <==> raw.OptIn? && plan.snapOptIn)
    ensures forall other: Channel :: other in EntryOf(plan, c).dependsOn <==> c == RmuxIo && other != RmuxIo
  {
    IndexIsPlace(c);
    assert PlanEntryFor(rules, plan.release.kind, plan.snapOptIn, plan.downstreamAuthority, CHANNELS[IndexOf(c)]) ==
           Ok(plan.channels[IndexOf(c)]);
    forall other: Channel ensures other in PRE_SITE <==> other != RmuxIo {
      if other != RmuxIo { assert PRE_SITE[if IndexOf(other) < 5 then IndexOf(other) else IndexOf(other) - 1] == other; }
    }
  }

  /** What a channel that is neither denied nor blocked guarantees. */
  lemma LetOutMeans(rules: Rules, plan: Plan, c: Channel)
    requires ValidPlan(rules, plan)
    requires var d := EntryOf(plan, c).executionDecision; d == Enabled || d == Disarmed
    ensures var e := EntryOf(plan, c);
            && e.name == c && e.payloadReady && e.blockers == []
            && (e.policyDecision == Allow || (e.policyDecision == ExplicitOptIn && e.explicitOptIn && plan.snapOptIn))
            && (e.executionEnabled <==> plan.downstreamAuthority)
  {
    IndexIsPlace(c);
    assert PlanEntryFor(rules, plan.release.kind, plan.snapOptIn, plan.downstreamAuthority, CHANNELS[IndexOf(c)]) ==
           Ok(plan.channels[IndexOf(c)]);
  }

  // ---------------------------------------------------------------------------------
  // Result states
  // ---------------------------------------------------------------------------------

  predicate RemoteMutation(s: State) {
    s.Submitted? || s.PendingModeration? || s.PublicLive?
  }

  predicate NoMutation(s: State) {
    s.BlockedState? || s.DeniedByPolicy? || s.Prepared?
  }

  predicate MutationState(s: State, started: bool, remote: Option<string>) {
    && (NoMutation(s) ==> !started && remote.None?)
    && (RemoteMutation(s) ==> started && remote.Some?)
    && (s.NoOpExact? ==> !started && remote.Some?)
    && (s.FailedTerminal? || s.FailedTransient? ==> started == remote.Some?)
  }

  /** A remote request is named exactly for a started mutation or an exact no-op; which states start one. */
  lemma MutationStateIff(s: State, started: bool, remote: Option<string>)
    ensures MutationState(s, started, remote) <==>
            && (remote.Some? <==> started || s.NoOpExact?)
            && (s.BlockedState? || s.DeniedByPolicy? || s.Prepared? || s.NoOpExact? ==> !started)
            && (s.Submitted? || s.PendingModeration? || s.PublicLive? ==> started)
  {
  }

  predicate Retryable(p: Previous) {
    && MutationState(p.state, p.mutationStarted, p.remoteRequestId)
    && (p.state.Prepared? || p.state.FailedTransient?)
    && !p.mutationStarted
    && p.remoteRequestId.None?
  }

  predicate IsPublic(s: State) {
    s.NoOpExact? || s.PublicLive?
  }

  predicate ValidEvidence(rules: Rules, e: Evidence, c: Channel, s: State, target: Target, version: string) {
    && e.channel == c
    && e.targetKind == target.kind
    && e.repositoryId == target.repositoryId
    && e.version == version
    && (e.externalId.Some? ==> rules.idAllowed(e.externalId.value))
    && (e.commitSha.Some? ==> rules.commitAllowed(e.commitSha.value))
    && rules.urlAllowed(e.url, c)
    && ((RemoteMutation(s) || s.NoOpExact?) && rules.commitRequired(c) ==> e.commitSha.Some?)
    && e.publicLive == IsPublic(s)
  }

  function VersionOf(release: Identity): string {
    if release.ref == "" then "" else release.ref[1..]
  }

  // ---------------------------------------------------------------------------------
  // Requests
  // ---------------------------------------------------------------------------------

  function KeyOf(q: Request, target: Target): Digest {
    OfKey(KeyMaterial(q.receipt.predicateSha, q.channel, q.release.ref, q.payloadSetSha, target))
  }

  predicate EntryMatches(q: Request) {
    var e := q.planEntry;
    && e.name == q.channel
    && e.executionEnabled == (e.executionDecision == Enabled) == q.executionAuthority
    && (e.executionDecision == Enabled ==> q.downstreamAuthority)
    && (e.executionDecision == Disarmed ==> !q.downstreamAuthority)
    && (e.executionDecision == Enabled || e.executionDecision == Disarmed ==> e.payloadReady && e.blockers == [])
  }

  predicate PayloadMatches(q: Request) {
    && q.payload.channel == q.channel
    && q.payload.sourceSha == q.sourceSha
    && q.payload.release == q.release
    && q.payload.receiptPredicateSha == q.receipt.predicateSha
    && q.payloadSetSha == OfFiles(q.payload.files)
  }

  function SummaryFiles(files: seq<PayloadFile>): seq<PayloadFile> {
    if files == [] then []
    else (if files[0].role == "channel-truth-summary" then [files[0]] else []) + SummaryFiles(files[1..])
  }

  /** Only the site request binds a pre-site summary, and its payload carries exactly that one. */
  predicate PreSiteMatches(q: Request) {
    if q.channel == RmuxIo then
      var files := SummaryFiles(q.payload.files);
      && q.preSiteSha.Some?
      && |files| == 1
      && files[0].name == "pre-site-channel-summary.json"
      && files[0].sha == q.preSiteSha.value
    else q.preSiteSha.None?
  }

  predicate RetryMatches(rules: Rules, q: Request) {
    match q.operation
    case Initial => q.retryDepth == 0 && q.retryOf.None? && q.previous.None?
    case Retry =>
      && q.retryDepth == 1 && q.retryOf.Some? && q.previous.Some?
      && q.previous.value.requestSha == q.retryOf.value
      && rules.recordAllowed(q.previous.value.artifacts) && Retryable(q.previous.value)
  }

  predicate ValidRequest(rules: Rules, q: Request) {
    && Authority(q.status, q.downstreamAuthority, q.executionAuthority)
    && q.executionAuthority == q.executionEnabled
    && q.repositoryId == REPOSITORY_ID
    && !q.rebuildNative
    && EntryMatches(q)
    && PayloadMatches(q) && rules.filesAllowed(q.channel, q.payload.files)
    && PreSiteMatches(q)
    && q.target == rules.target(q.channel)
    && q.idempotencyKey == KeyOf(q, q.target)
    && RetryMatches(rules, q)
    && q.requestedAt < q.expiresAt <= q.requestedAt + DAY
    && q.payload.createdAt <= q.requestedAt
    && q.expiresAt <= q.payload.retentionExpiresAt
  }

  // ---------------------------------------------------------------------------------
  // Predicates, envelopes and references
  // ---------------------------------------------------------------------------------

  predicate ValidPredicate(rules: Rules, p: Predicate, q: Request) {
    && ValidRequest(rules, q)
    && Authority(p.status, p.downstreamAuthority, p.executionAuthority)
    && p.repositoryId == REPOSITORY_ID
    && p.target == rules.target(p.channel)
    && (NoMutation(p.state) || p.executionAuthority)
    && p.subjectSha == OfEvidence(p.evidence)
    && rules.producerAllowed(p.producer, p.channel)
    && MutationState(p.state, p.mutationStarted, p.remoteRequestId)
    && ValidEvidence(rules, p.evidence, p.channel, p.state, p.target, VersionOf(p.release))
    && p.evidence.externalId == p.remoteRequestId
    && p.evidence.observedAt == p.observedAt
    && p.startedAt <= p.observedAt
    && p.sourceSha == q.sourceSha && p.release == q.release && p.receipt == q.receipt
    && p.requestSha == OfRequest(q)
    && p.payloadSetSha == q.payloadSetSha && p.idempotencyKey == q.idempotencyKey
    && p.channel == q.channel && p.target == q.target
    && p.downstreamAuthority == q.downstreamAuthority && p.executionAuthority == q.executionAuthority
    && q.requestedAt <= p.startedAt <= q.expiresAt
  }

  predicate ValidEnvelope(rules: Rules, e: Envelope, p: Predicate) {
    && rules.artifactAllowed(e.resultBundle) && rules.attestationAllowed(e.attestation)
    && Authority(e.status, e.downstreamAuthority, e.executionAuthority)
    && e.repositoryId == REPOSITORY_ID
    && e.sourceSha == p.sourceSha && e.releaseRef == p.release.ref && e.channel == p.channel
    && e.requestSha == p.requestSha && e.predicateSha == OfPredicate(p)
    && e.downstreamAuthority == p.downstreamAuthority && e.executionAuthority == p.executionAuthority
  }

  predicate ValidReference(rules: Rules, r: Reference) {
    && Authority(r.status, r.downstreamAuthority, r.executionAuthority)
    && r.repositoryId == REPOSITORY_ID
    && rules.producerAllowed(r.producer, r.channel)
    && (NoMutation(r.state) || r.executionAuthority)
    && MutationState(r.state, r.mutationStarted, r.remoteRequestId)
    && ValidEvidence(rules, r.evidence, r.channel, r.state, rules.target(r.channel), VersionOf(r.release))
    && r.evidence.externalId == r.remoteRequestId
    && r.publicLive == r.evidence.publicLive
    && rules.artifactAllowed(r.predicateBundle) && rules.artifactAllowed(r.envelopeBundle)
    && rules.attestationAllowed(r.attestation)
    && r.predicateBundle.name == ResultOf(r.channel, r.sourceSha, r.release.id)
    && r.envelopeBundle.name == EnvelopeOf(r.channel, r.sourceSha, r.release.id)
  }

  // ---------------------------------------------------------------------------------
  // Creation
  // ---------------------------------------------------------------------------------

  function ExpectedPredicate(rules: Rules, q: Request, producer: Producer, state: State, startedAt: Time,
                             mutationStarted: bool, remote: Option<string>, evidence: Evidence, observedAt: Time):
    (r: Result<Predicate, Error>)
    ensures r.Ok? ==> ValidPredicate(rules, r.value, q) && r.value.state == state && r.value.startedAt == startedAt
    ensures r.Ok? ==> r.value.mutationStarted == mutationStarted && r.value.observedAt == observedAt
  {
    var p := Predicate(q.status, q.downstreamAuthority, q.executionAuthority, REPOSITORY_ID, q.sourceSha, q.release,
                       q.receipt, OfRequest(q), q.payloadSetSha, q.idempotencyKey, q.channel, q.target, producer,
                       OfEvidence(evidence), state, startedAt, mutationStarted, remote, evidence, observedAt);
    if ValidPredicate(rules, p, q) then Ok(p) else Err(Refused)
  }

  function ExpectedEnvelope(rules: Rules, q: Request, p: Predicate, bundle: Artifact, attestation: string, createdAt: Time):
    (r: Result<Envelope, Error>)
    ensures r.Ok? ==> ValidPredicate(rules, p, q) && ValidEnvelope(rules, r.value, p) && p.observedAt <= r.value.createdAt
  {
    if !ValidPredicate(rules, p, q) || bundle.name != ResultOf(p.channel, p.sourceSha, p.release.id)
       || createdAt < p.observedAt then Err(Refused)
    else
      var e := Envelope(p.status, p.downstreamAuthority, p.executionAuthority, REPOSITORY_ID, p.sourceSha,
                        p.release.ref, p.channel, p.requestSha, OfPredicate(p), attestation, bundle, createdAt);
      if ValidEnvelope(rules, e, p) then Ok(e) else Err(Refused)
  }

  function CreateReference(rules: Rules, q: Request, p: Predicate, e: Envelope, predicateArtifact: Artifact,
                           envelopeArtifact: Artifact, verifiedAt: Time): (r: Result<Reference, Error>)
    ensures r.Ok? ==> ValidReference(rules, r.value) && ValidPredicate(rules, p, q) && ValidEnvelope(rules, e, p)
    ensures r.Ok? ==> e.createdAt <= r.value.verifiedAt
  {
    if !ValidPredicate(rules, p, q) || !ValidEnvelope(rules, e, p) || e.resultBundle != predicateArtifact
       || verifiedAt < e.createdAt then Err(Refused)
    else
      var r := Reference(p.status, p.downstreamAuthority, p.executionAuthority, REPOSITORY_ID, p.sourceSha, p.release,
                         q.receipt, q.planSha, p.channel, p.producer, p.requestSha, p.payloadSetSha, p.idempotencyKey,
                         p.state, p.mutationStarted, p.remoteRequestId, p.evidence.publicLive, p.evidence,
                         predicateArtifact, OfPredicate(p), envelopeArtifact, OfEnvelope(e), e.attestation, verifiedAt);
      if ValidReference(rules, r) then Ok(r) else Err(Refused)
  }

  // ---------------------------------------------------------------------------------
  // Consequences for single documents
  // ---------------------------------------------------------------------------------

  /** A public reference had execution authority, and so did its plan downstream. */
  lemma PublicNeedsAuthority(rules: Rules, r: Reference)
    requires ValidReference(rules, r)
    ensures r.publicLive ==> r.executionAuthority && r.downstreamAuthority && IsPublic(r.state)
    ensures !r.downstreamAuthority ==> NoMutation(r.state) && !r.mutationStarted && r.remoteRequestId.None? && !r.publicLive
  {
  }

  /** One idempotency key stands for one receipt, channel, release, payload set and target. */
  lemma KeyDetermines(rules: Rules, a: Request, b: Request)
    requires ValidRequest(rules, a) && ValidRequest(rules, b) && a.idempotencyKey == b.idempotencyKey
    ensures a.channel == b.channel && a.target == b.target && a.receipt.predicateSha == b.receipt.predicateSha
    ensures a.release.ref == b.release.ref && a.payload.files == b.payload.files
  {
  }

  // ---------------------------------------------------------------------------------
  // The tools compose
  // ---------------------------------------------------------------------------------

  /** A result of a valid request is issued exactly when it happened in time, its state is allowed and its evidence fits. */
  lemma PredicateIff(rules: Rules, q: Request, producer: Producer, state: State, startedAt: Time, mutationStarted: bool,
                     remote: Option<string>, evidence: Evidence, observedAt: Time)
    requires ValidRequest(rules, q)
    ensures ExpectedPredicate(rules, q, producer, state, startedAt, mutationStarted, remote, evidence, observedAt).Ok? <==>
            && q.requestedAt <= startedAt <= q.expiresAt && startedAt <= observedAt == evidence.observedAt
            && rules.producerAllowed(producer, q.channel)
            && MutationState(state, mutationStarted, remote) && (NoMutation(state) || q.executionAuthority)
            && ValidEvidence(rules, evidence, q.channel, state, q.target, VersionOf(q.release))
            && evidence.externalId == remote
  {
  }

  /** A result of a release tagged with a version carries evidence of that very version. */
  lemma IssuedVersion(rules: Rules, q: Request, producer: Producer, state: State, startedAt: Time, mutationStarted: bool,
                      remote: Option<string>, evidence: Evidence, observedAt: Time, version: string)
    requires q.release.ref == "v" + version
    requires ExpectedPredicate(rules, q, producer, state, startedAt, mutationStarted, remote, evidence, observedAt).Ok?
    ensures ExpectedPredicate(rules, q, producer, state, startedAt, mutationStarted, remote, evidence, observedAt).value
            .evidence.version == version
  {
    assert ("v" + version)[1..] == version;
  }

  /** An envelope of a valid result is issued exactly for its own artifact, once the result was observed. */
  lemma EnvelopeIff(rules: Rules, q: Request, p: Predicate, bundle: Artifact, attestation: string, createdAt: Time)
    requires ValidPredicate(rules, p, q)
    ensures ExpectedEnvelope(rules, q, p, bundle, attestation, createdAt).Ok? <==>
            && bundle.name == ResultOf(p.channel, p.sourceSha, p.release.id) && p.observedAt <= createdAt
            && rules.artifactAllowed(bundle) && rules.attestationAllowed(attestation)
  {
  }

  /** A reference is issued exactly for the two artifacts of the result, once the envelope exists. */
  lemma ReferenceIff(rules: Rules, q: Request, p: Predicate, e: Envelope, pa: Artifact, ea: Artifact, verifiedAt: Time)
    requires ValidPredicate(rules, p, q) && ValidEnvelope(rules, e, p)
    ensures CreateReference(rules, q, p, e, pa, ea, verifiedAt).Ok? <==>
            && e.resultBundle == pa && pa.name == ResultOf(p.channel, p.sourceSha, p.release.id)
            && ea.name == EnvelopeOf(p.channel, p.sourceSha, p.release.id) && rules.artifactAllowed(ea)
            && e.createdAt <= verifiedAt
  {
  }
}
