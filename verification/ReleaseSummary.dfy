/**
  Two-phase aggregation of channel results (scripts/release/downstream_summary.py).

  The pre-site summary collects ten results; the final summary adds the rmux.io result to one
  pre-site summary and puts all eleven back in channel order.
 */
module ReleaseSummary {
  import opened Wrappers
  import opened Release

  predicate Resolved(s: State) {
    s.DeniedByPolicy? || s.NoOpExact? || s.PublicLive?
  }

  function Expected(phase: Phase): seq<Channel> {
    if phase.PreSite? then PRE_SITE else CHANNELS
  }

  function Advertised(results: seq<ResultEntry>): (r: seq<Channel>)
  {
    if results == [] then []
    else
      var e := results[0];
      (if e.reference.channel != RmuxIo && e.reference.publicLive then [e.reference.channel] else [])
      + Advertised(results[1..])
  }

  function Unresolved(results: seq<ResultEntry>): (r: seq<Channel>)
  {
    if results == [] then []
    else (if Resolved(results[0].reference.state) then [] else [results[0].reference.channel]) + Unresolved(results[1..])
  }

  // ---------------------------------------------------------------------------------
  // Validation
  // ---------------------------------------------------------------------------------

  /** The result of channel `c`: same release, same authority, verified before the summary was made. */
  predicate ValidEntry(rules: Rules, s: Summary, c: Channel, e: ResultEntry) {
    var r := e.reference;
    && e.channel == c
    && ValidReference(rules, r)
    && r.sourceSha == s.sourceSha && r.release == s.release && r.receipt == s.receipt
    && r.planSha == s.planSha && r.channel == c
    && r.downstreamAuthority == s.downstreamAuthority
    && r.verifiedAt <= s.createdAt
  }

  predicate ValidSummary(rules: Rules, s: Summary) {
    && Authority(s.status, s.downstreamAuthority, s.executionAuthority)
    && s.repositoryId == REPOSITORY_ID
    && (s.rmuxIoAuthority ==> s.executionAuthority)
    && |s.results| == |Expected(s.phase)|
    && (forall i | 0 <= i < |s.results| :: ValidEntry(rules, s, Expected(s.phase)[i], s.results[i]))
    && s.advertised == Advertised(s.results)
    && s.unresolved == Unresolved(s.results)
    && s.preSiteSha.Some? == s.phase.Final?
  }

  predicate PlannedState(s: State, decision: Execution) {
    && (decision == Denied ==> s.DeniedByPolicy?)
    && (decision == Blocked ==> s.BlockedState?)
    && (decision == Disarmed || decision == Enabled ==> !s.BlockedState? && !s.DeniedByPolicy?)
  }

  predicate FollowsPlan(plan: Plan, e: ResultEntry)
    requires |plan.channels| == |CHANNELS|
  {
    PlannedState(e.reference.state, EntryOf(plan, e.channel).executionDecision)
  }

  predicate ValidSummaryForPlan(rules: Rules, s: Summary, plan: Plan, phase: Phase)
    requires |plan.channels| == |CHANNELS|
  {
    && ValidSummary(rules, s)
    && s.phase == phase
    && s.sourceSha == plan.sourceSha && s.release == plan.release && s.receipt == plan.receipt
    && s.planSha == OfPlan(plan) && s.policySha == plan.policySha
    && forall i | 0 <= i < |s.results| :: FollowsPlan(plan, s.results[i])
  }

  // ---------------------------------------------------------------------------------
  // Creation
  // ---------------------------------------------------------------------------------

  function EntryFor(c: Channel, r: Reference): ResultEntry {
    ResultEntry(c, OfReference(r), r)
  }

  function Assemble(plan: Plan, phase: Phase, entries: seq<ResultEntry>, parent: Option<Digest>, createdAt: Time): Summary
    requires |plan.channels| == |CHANNELS|
  {
    Summary(phase, plan.status, plan.downstreamAuthority, plan.executionAuthority, REPOSITORY_ID, plan.sourceSha,
            plan.release, plan.receipt, OfPlan(plan), plan.policySha, entries, Advertised(entries), Unresolved(entries),
            EntryOf(plan, RmuxIo).executionEnabled, parent, createdAt)
  }

  /** What `create_summary` is given: file contents in place of paths. */
  datatype Job = Job(plan: Plan, phase: Phase, references: map<Channel, Reference>, preSite: Option<Summary>, createdAt: Time)

  /** A reference read for a channel, with a state its plan entry allows. */
  predicate Fits(rules: Rules, plan: Plan, c: Channel, r: Reference)
    requires |plan.channels| == |CHANNELS|
  {
    ValidReference(rules, r) && r.channel == c && PlannedState(r.state, EntryOf(plan, c).executionDecision)
  }

  /** A reference made under the plan and no later than the summary. */
  predicate Binds(plan: Plan, r: Reference, createdAt: Time) {
    && r.sourceSha == plan.sourceSha && r.release == plan.release && r.receipt == plan.receipt
    && r.planSha == OfPlan(plan) && r.downstreamAuthority == plan.downstreamAuthority
    && r.verifiedAt <= createdAt
  }

  /** The pre-site phase reads every channel but rmux.io, the final phase rmux.io alone. */
  predicate HasInputs(job: Job) {
    forall c: Channel :: c in job.references <==> (c == RmuxIo) == job.phase.Final?
  }

  /** What has been checked of the inputs when a summary is put together. */
  predicate Checked(rules: Rules, job: Job) {
    && ValidPlan(rules, job.plan)
    && HasInputs(job)
    && (forall c | c in job.references :: Fits(rules, job.plan, c, job.references[c]))
    && job.preSite.Some? == job.phase.Final?
    && (job.phase.Final? ==>
          && ValidSummaryForPlan(rules, job.preSite.value, job.plan, PreSite)
          && job.preSite.value.createdAt <= job.createdAt)
  }

  /** The inputs for which a summary exists. */
  predicate Summarizable(rules: Rules, job: Job) {
    && Checked(rules, job)
    && job.plan.createdAt <= job.createdAt
    && (forall c | c in job.references :: Binds(job.plan, job.references[c], job.createdAt))
    && (job.phase.Final? ==> job.preSite.value.downstreamAuthority == job.plan.downstreamAuthority)
  }

  /** The pre-site results with the site's own between the tap and Scoop. */
  function WithSite(prior: seq<ResultEntry>, site: ResultEntry): (s: seq<ResultEntry>)
    requires |prior| == |PRE_SITE|
    ensures |s| == |CHANNELS|
    ensures forall i | 0 <= i < |CHANNELS| :: s[i] == if i < 5 then prior[i] else if i == 5 then site else prior[i - 1]
  {
    prior[..5] + [site] + prior[5..]
  }

  function ResultsFor(channels: seq<Channel>, references: map<Channel, Reference>): (s: seq<ResultEntry>)
    requires forall i | 0 <= i < |channels| :: channels[i] in references
    ensures |s| == |channels|
  {
    seq(|channels|, i requires 0 <= i < |channels| => EntryFor(channels[i], references[channels[i]]))
  }

  /** The summary of checked inputs. */
  function Draft(rules: Rules, job: Job): Summary
    requires Checked(rules, job)
  {
    if job.phase.PreSite? then Assemble(job.plan, PreSite, ResultsFor(PRE_SITE, job.references), None, job.createdAt)
    else
      Assemble(job.plan, Final, WithSite(job.preSite.value.results, EntryFor(RmuxIo, job.references[RmuxIo])),
               Some(OfSummary(job.preSite.value)), job.createdAt)
  }

  /** Stable insertion by position in the channel list. */
  function Insert(e: ResultEntry, s: seq<ResultEntry>): (r: seq<ResultEntry>)
  {
    if s == [] then [e]
    else if IndexOf(e.channel) < IndexOf(s[|s| - 1].channel) then Insert(e, s[..|s| - 1]) + [s[|s| - 1]]
    else s + [e]
  }

  function SortByChannel(s: seq<ResultEntry>): (r: seq<ResultEntry>)
  {
    if s == [] then [] else Insert(s[|s| - 1], SortByChannel(s[..|s| - 1]))
  }

  predicate InOrder(s: seq<ResultEntry>) {
    forall i, j | 0 <= i < j < |s| :: IndexOf(s[i].channel) < IndexOf(s[j].channel)
  }

  lemma {:induction false} SortKeepsOrdered(s: seq<ResultEntry>)
    requires InOrder(s)
    ensures SortByChannel(s) == s
  {
    if s != [] {
      SortKeepsOrdered(s[..|s| - 1]);
      assert s == s[..|s| - 1] + [s[|s| - 1]];
    }
  }

  lemma {:induction false} InsertFindsPlace(e: ResultEntry, s: seq<ResultEntry>, k: nat)
    requires k <= |s|
    requires forall i | 0 <= i < k :: IndexOf(s[i].channel) <= IndexOf(e.channel)
    requires forall i | k <= i < |s| :: IndexOf(e.channel) < IndexOf(s[i].channel)
    ensures Insert(e, s) == s[..k] + [e] + s[k..]
  {
    if k < |s| {
      var front := s[..|s| - 1];
      InsertFindsPlace(e, front, k);
      assert front[..k] == s[..k];
      assert front[k..] + [s[|s| - 1]] == s[k..];
    } else if s != [] {
      assert s[..k] == s;
      assert s[k..] == [];
    }
  }

  lemma SortAppended(s: seq<ResultEntry>, e: ResultEntry)
    ensures SortByChannel(s + [e]) == Insert(e, SortByChannel(s))
  {
    assert (s + [e])[..|s|] == s;
  }

  lemma SitePlace(prior: seq<ResultEntry>, e: ResultEntry)
    requires |prior| == |PRE_SITE| && e.channel == RmuxIo
    requires forall i | 0 <= i < |prior| :: prior[i].channel == PRE_SITE[i]
    ensures InOrder(prior)
    ensures forall i | 0 <= i < 5 :: IndexOf(prior[i].channel) < IndexOf(e.channel)
    ensures forall i | 5 <= i < |prior| :: IndexOf(e.channel) < IndexOf(prior[i].channel)
  {
    assert forall i | 0 <= i < |prior| :: IndexOf(PRE_SITE[i]) == if i < 5 then i else i + 1;
  }

  /** Appending the rmux.io entry and sorting puts it between the tap and Scoop. */
  lemma SortPlacesSite(prior: seq<ResultEntry>, e: ResultEntry)
    requires |prior| == |PRE_SITE| && e.channel == RmuxIo
    requires forall i | 0 <= i < |prior| :: prior[i].channel == PRE_SITE[i]
    ensures SortByChannel(prior + [e]) == WithSite(prior, e)
  {
    SortAppended(prior, e);
    SitePlace(prior, e);
    SortKeepsOrdered(prior);
    InsertFindsPlace(e, prior, 5);
  }

  /** Every channel but rmux.io has its place in the pre-site list. */
  lemma PreSitePlace(c: Channel) returns (k: nat)
    requires c != RmuxIo
    ensures k < |PRE_SITE| && PRE_SITE[k] == c
  {
    k := if IndexOf(c) < 5 then IndexOf(c) else IndexOf(c) - 1;
  }

  lemma ChannelAt(i: nat)
    requires i < |CHANNELS| && i != 5
    ensures CHANNELS[i] == PRE_SITE[if i < 5 then i else i - 1] != RmuxIo
  {
  }

  /** A checked reference makes a valid entry exactly when it binds the plan. */
  lemma FreshEntry(rules: Rules, job: Job, c: Channel)
    requires Checked(rules, job) && c in job.references
    ensures ValidEntry(rules, Draft(rules, job), c, EntryFor(c, job.references[c]))
       <==> Binds(job.plan, job.references[c], job.createdAt)
    ensures FollowsPlan(job.plan, EntryFor(c, job.references[c]))
  {
    assert Fits(rules, job.plan, c, job.references[c]);
  }

  /** A pre-site result stays valid in the final summary exactly when the authority has not changed. */
  lemma PriorEntry(rules: Rules, job: Job, k: nat)
    requires Checked(rules, job) && job.phase.Final? && k < |PRE_SITE|
    ensures var e := job.preSite.value.results[k];
            && (ValidEntry(rules, Draft(rules, job), PRE_SITE[k], e)
                <==> job.preSite.value.downstreamAuthority == job.plan.downstreamAuthority)
            && FollowsPlan(job.plan, e)
  {
    var prior := job.preSite.value;
    assert ValidEntry(rules, prior, PRE_SITE[k], prior.results[k]);
    assert FollowsPlan(job.plan, prior.results[k]);
  }

  lemma PreSiteDraftEntry(rules: Rules, job: Job, i: nat)
    requires Summarizable(rules, job) && job.phase.PreSite? && i < |PRE_SITE|
    ensures var s := Draft(rules, job);
            |s.results| == |PRE_SITE| && ValidEntry(rules, s, PRE_SITE[i], s.results[i]) && FollowsPlan(job.plan, s.results[i])
  {
    FreshEntry(rules, job, PRE_SITE[i]);
  }

  /** Where each result of a final summary comes from. */
  lemma FinalResult(rules: Rules, job: Job, i: nat)
    requires Checked(rules, job) && job.phase.Final? && i < |CHANNELS|
    ensures var s := Draft(rules, job);
            && |s.results| == |CHANNELS|
            && s.results[i] == if i < 5 then job.preSite.value.results[i]
                               else if i == 5 then EntryFor(RmuxIo, job.references[RmuxIo])
                               else job.preSite.value.results[i - 1]
  {
  }

  lemma FinalDraftEntry(rules: Rules, job: Job, i: nat)
    requires Summarizable(rules, job) && job.phase.Final? && i < |CHANNELS|
    ensures var s := Draft(rules, job);
            |s.results| == |CHANNELS| && ValidEntry(rules, s, CHANNELS[i], s.results[i]) && FollowsPlan(job.plan, s.results[i])
  {
    FinalResult(rules, job, i);
    if i == 5 {
      FreshEntry(rules, job, RmuxIo);
    } else if i < 5 {
      FinalPriorEntry(rules, job, i, i);
    } else {
      FinalPriorEntry(rules, job, i, i - 1);
    }
  }

  lemma FinalPriorEntry(rules: Rules, job: Job, i: nat, k: nat)
    requires Summarizable(rules, job) && job.phase.Final? && i < |CHANNELS| && i != 5
    requires k == if i < 5 then i else i - 1
    ensures var e := job.preSite.value.results[k];
            ValidEntry(rules, Draft(rules, job), CHANNELS[i], e) && FollowsPlan(job.plan, e)
  {
    PriorEntry(rules, job, k);
    ChannelAt(i);
  }

  /** Where the inputs are summarizable, the summary passes every check made of it later. */
  lemma SummarizableIsValid(rules: Rules, job: Job)
    requires Summarizable(rules, job)
    ensures ValidSummaryForPlan(rules, Draft(rules, job), job.plan, job.phase)
  {
    var s := Draft(rules, job);
    if job.phase.PreSite? {
      forall i | 0 <= i < |PRE_SITE| ensures ValidEntry(rules, s, PRE_SITE[i], s.results[i]) && FollowsPlan(job.plan, s.results[i]) {
        PreSiteDraftEntry(rules, job, i);
      }
    } else {
      forall i | 0 <= i < |CHANNELS| ensures ValidEntry(rules, s, CHANNELS[i], s.results[i]) && FollowsPlan(job.plan, s.results[i]) {
        FinalDraftEntry(rules, job, i);
      }
    }
    EnabledMeans(rules, job.plan, RmuxIo);
  }

  lemma ResultAt(rules: Rules, s: Summary, i: nat)
    requires ValidSummary(rules, s) && i < |Expected(s.phase)|
    ensures i < |s.results| && ValidEntry(rules, s, Expected(s.phase)[i], s.results[i])
  {
  }

  lemma SiteResult(rules: Rules, s: Summary)
    requires ValidSummary(rules, s) && s.phase.Final?
    ensures |s.results| == |CHANNELS| && ValidEntry(rules, s, RmuxIo, s.results[5])
  {
    ResultAt(rules, s, 5);
    assert CHANNELS[5] == RmuxIo;
  }

  lemma PreSiteInputs(job: Job)
    requires HasInputs(job) && job.phase.PreSite?
    ensures forall k | 0 <= k < |PRE_SITE| :: PRE_SITE[k] in job.references
  {
    forall k | 0 <= k < |PRE_SITE| ensures PRE_SITE[k] in job.references {
      assert PRE_SITE[k] != RmuxIo;
    }
  }

  lemma ResultsForAt(channels: seq<Channel>, references: map<Channel, Reference>, i: nat)
    requires forall i | 0 <= i < |channels| :: channels[i] in references
    requires i < |channels|
    ensures ResultsFor(channels, references)[i] == EntryFor(channels[i], references[channels[i]])
  {
  }

  lemma PreSiteBinds(rules: Rules, job: Job, c: Channel, i: nat)
    requires Checked(rules, job) && job.phase.PreSite? && c in job.references
    requires i < |PRE_SITE| && c == PRE_SITE[i]
    requires ValidSummary(rules, Draft(rules, job))
    ensures Binds(job.plan, job.references[c], job.createdAt)
  {
    var s := Draft(rules, job);
    ResultAt(rules, s, i);
    assert forall k | 0 <= k < |PRE_SITE| :: PRE_SITE[k] in job.references by { PreSiteInputs(job); }
    ResultsForAt(PRE_SITE, job.references, i);
    FreshEntry(rules, job, c);
  }

  lemma FinalBinds(rules: Rules, job: Job)
    requires Checked(rules, job) && job.phase.Final?
    requires ValidSummary(rules, Draft(rules, job))
    ensures Binds(job.plan, job.references[RmuxIo], job.createdAt)
    ensures job.preSite.value.downstreamAuthority == job.plan.downstreamAuthority
  {
    var s := Draft(rules, job);
    FinalResult(rules, job, 5);
    FinalResult(rules, job, 0);
    assert ValidEntry(rules, s, RmuxIo, s.results[5]);
    assert ValidEntry(rules, s, AptRpm, s.results[0]);
    FreshEntry(rules, job, RmuxIo);
    PriorEntry(rules, job, 0);
  }

  /** Conversely, a draft that validates came from summarizable inputs. */
  lemma ValidIsSummarizable(rules: Rules, job: Job)
    requires Checked(rules, job) && job.plan.createdAt <= job.createdAt
    requires ValidSummary(rules, Draft(rules, job))
    ensures Summarizable(rules, job)
  {
    if job.phase.PreSite? {
      forall c | c in job.references ensures Binds(job.plan, job.references[c], job.createdAt) {
        var i := PreSitePlace(c);
        PreSiteBinds(rules, job, c, i);
      }
    } else {
      FinalBinds(rules, job);
    }
  }

  method ReadReference(rules: Rules, r: Reference, c: Channel) returns (e: Result<ResultEntry, Error>)
    ensures e.Ok? <==> ValidReference(rules, r) && r.channel == c
    ensures e.Ok? ==> e.value == EntryFor(c, r)
  {
    if !ValidReference(rules, r) || r.channel != c {
      return Err(Refused);
    }
    return Ok(EntryFor(c, r));
  }

  method CheckedEntry(rules: Rules, plan: Plan, c: Channel, r: Reference) returns (e: Result<ResultEntry, Error>)
    requires |plan.channels| == |CHANNELS|
    ensures e.Ok? <==> Fits(rules, plan, c, r)
    ensures e.Ok? ==> e.value == EntryFor(c, r)
  {
    e := ReadReference(rules, r, c);
    if e.Ok? && !PlannedState(r.state, EntryOf(plan, c).executionDecision) {
      return Err(Refused);
    }
  }

  /** The pre-site loop: one entry per channel, each checked against its plan entry. */
  method EntriesFor(rules: Rules, plan: Plan, channels: seq<Channel>, references: map<Channel, Reference>)
    returns (r: Result<seq<ResultEntry>, Error>)
    requires |plan.channels| == |CHANNELS|
    requires forall i | 0 <= i < |channels| :: channels[i] in references
    ensures r.Ok? <==> forall i | 0 <= i < |channels| :: Fits(rules, plan, channels[i], references[channels[i]])
    ensures r.Ok? ==> r.value == ResultsFor(channels, references)
  {
    var entries := [];
    var i := 0;
    while i < |channels|
      invariant 0 <= i <= |channels|
      invariant entries == ResultsFor(channels, references)[..i]
      invariant forall k | 0 <= k < i :: Fits(rules, plan, channels[k], references[channels[k]])
    {
      var entry := CheckedEntry(rules, plan, channels[i], references[channels[i]]);
      if entry.Err? {
        return Err(Refused);
      }
      entries := entries + [entry.value];
      i := i + 1;
    }
    return Ok(entries);
  }

  /** Checking along the pre-site list checks every channel but rmux.io. */
  lemma PreSiteFits(rules: Rules, plan: Plan, references: map<Channel, Reference>)
    requires |plan.channels| == |CHANNELS|
    requires forall c: Channel :: c in references <==> c != RmuxIo
    ensures (forall i | 0 <= i < |PRE_SITE| :: Fits(rules, plan, PRE_SITE[i], references[PRE_SITE[i]]))
       <==> forall c | c in references :: Fits(rules, plan, c, references[c])
  {
    if forall i | 0 <= i < |PRE_SITE| :: Fits(rules, plan, PRE_SITE[i], references[PRE_SITE[i]]) {
      forall c | c in references ensures Fits(rules, plan, c, references[c]) {
        var k := PreSitePlace(c);
      }
    }
  }

  /** The entries of a final summary: the pre-site results and the site's own, sorted. */
  method FinalEntries(rules: Rules, plan: Plan, site: Reference, prior: Summary, createdAt: Time)
    returns (r: Result<seq<ResultEntry>, Error>)
    requires |plan.channels| == |CHANNELS|
    ensures r.Ok? <==>
            && ValidSummaryForPlan(rules, prior, plan, PreSite) && prior.createdAt <= createdAt
            && Fits(rules, plan, RmuxIo, site)
    ensures r.Ok? ==> |prior.results| == |PRE_SITE| && r.value == WithSite(prior.results, EntryFor(RmuxIo, site))
  {
    if !ValidSummaryForPlan(rules, prior, plan, PreSite) || createdAt < prior.createdAt {
      return Err(Refused);
    }
    var entry := CheckedEntry(rules, plan, RmuxIo, site);
    if entry.Err? {
      return Err(Refused);
    }
    assert forall k | 0 <= k < |prior.results| :: ValidEntry(rules, prior, PRE_SITE[k], prior.results[k]);
    SortPlacesSite(prior.results, entry.value);
    return Ok(SortByChannel(prior.results + [entry.value]));
  }

  method CreateSummary(rules: Rules, job: Job) returns (r: Result<Summary, Error>)
    ensures r.Ok? <==> Summarizable(rules, job)
    ensures r.Ok? ==> r.value == Draft(rules, job) && ValidSummaryForPlan(rules, r.value, job.plan, job.phase)
    ensures r.Ok? ==> Lists(r.value) && Tells(job, r.value)
  {
    if !ValidPlan(rules, job.plan) || !HasInputs(job) || job.preSite.Some? != job.phase.Final? {
      return Err(Refused);
    }
    var entries;
    var parent := None;
    if job.phase.PreSite? {
      entries := EntriesFor(rules, job.plan, PRE_SITE, job.references);
      PreSiteFits(rules, job.plan, job.references);
    } else {
      entries := FinalEntries(rules, job.plan, job.references[RmuxIo], job.preSite.value, job.createdAt);
      parent := Some(OfSummary(job.preSite.value));
    }
    if entries.Err? {
      return Err(Refused);
    }
    var s := Assemble(job.plan, job.phase, entries.value, parent, job.createdAt);
    if Summarizable(rules, job) {
      SummarizableIsValid(rules, job);
    }
    if job.createdAt < job.plan.createdAt || !ValidSummary(rules, s) {
      return Err(Refused);
    }
    ValidIsSummarizable(rules, job);
    SummarizableIsValid(rules, job);
    ValidLists(rules, s);
    DraftTells(rules, job);
    return Ok(s);
  }

  // ---------------------------------------------------------------------------------
  // What a summary says
  // ---------------------------------------------------------------------------------

  lemma {:induction false} AdvertisedMembers(results: seq<ResultEntry>, c: Channel)
    ensures c in Advertised(results) <==>
            c != RmuxIo && exists i :: 0 <= i < |results| && results[i].reference.channel == c && results[i].reference.publicLive
  {
    if results != [] {
      AdvertisedMembers(results[1..], c);
      assert forall i | 0 <= i < |results| - 1 :: results[1..][i] == results[i + 1];
      assert results[0] in results;
      if c in Advertised(results[1..]) {
        var i :| 0 <= i < |results| - 1 && results[1..][i].reference.channel == c && results[1..][i].reference.publicLive;
        assert results[i + 1].reference.channel == c;
      }
    }
  }

  lemma {:induction false} NoneUnresolved(results: seq<ResultEntry>)
    ensures Unresolved(results) == [] <==> forall i | 0 <= i < |results| :: Resolved(results[i].reference.state)
  {
    if results != [] {
      NoneUnresolved(results[1..]);
      assert forall i | 0 < i < |results| :: results[i] == results[1..][i - 1];
    }
  }

  lemma {:induction false} UnresolvedMembers(results: seq<ResultEntry>, c: Channel)
    ensures c in Unresolved(results) <==>
            exists i :: 0 <= i < |results| && results[i].reference.channel == c && !Resolved(results[i].reference.state)
  {
    if results != [] {
      UnresolvedMembers(results[1..], c);
      assert forall i | 0 <= i < |results| - 1 :: results[1..][i] == results[i + 1];
      if c in Unresolved(results[1..]) {
        var i :| 0 <= i < |results| - 1 && results[1..][i].reference.channel == c && !Resolved(results[1..][i].reference.state);
        assert results[i + 1].reference.channel == c;
      }
    }
  }

  /** Channels in the order of the channel list, each once. */
  predicate ByPosition(channels: seq<Channel>) {
    forall i, j | 0 <= i < j < |channels| :: IndexOf(channels[i]) < IndexOf(channels[j])
  }

  /** Results in channel order are listed in channel order. */
  lemma {:induction false} ListsByPosition(results: seq<ResultEntry>)
    requires forall i, j | 0 <= i < j < |results| :: IndexOf(results[i].reference.channel) < IndexOf(results[j].reference.channel)
    ensures ByPosition(Advertised(results)) && ByPosition(Unresolved(results))
  {
    if results != [] {
      ListsByPosition(results[1..]);
      forall c | c in Advertised(results[1..]) ensures IndexOf(results[0].reference.channel) < IndexOf(c) {
        AdvertisedMembers(results[1..], c);
      }
      forall c | c in Unresolved(results[1..]) ensures IndexOf(results[0].reference.channel) < IndexOf(c) {
        UnresolvedMembers(results[1..], c);
      }
    }
  }

  /** A summary's lists: which channels are in them, in channel order. */
  ghost predicate Lists(s: Summary) {
    && (forall c :: c in s.unresolved <==>
          exists i :: 0 <= i < |s.results| && s.results[i].channel == c && Open(s.results[i].reference.state))
    && (forall c :: c in s.advertised <==>
          c != RmuxIo && exists i :: 0 <= i < |s.results| && s.results[i].channel == c && s.results[i].reference.publicLive)
    && ByPosition(s.unresolved) && ByPosition(s.advertised)
  }

  predicate Open(s: State) {
    s != DeniedByPolicy && s != NoOpExact && s != PublicLive
  }

  /** Every valid summary lists exactly the channels that are not done, and exactly those that are public. */
  lemma ValidLists(rules: Rules, s: Summary)
    requires ValidSummary(rules, s)
    ensures Lists(s)
  {
    forall i | 0 <= i < |s.results|
      ensures s.results[i].reference.channel == s.results[i].channel == Expected(s.phase)[i]
    {
      ResultAt(rules, s, i);
    }
    forall c ensures c in s.unresolved <==>
                     exists i :: 0 <= i < |s.results| && s.results[i].channel == c && Open(s.results[i].reference.state)
    {
      UnresolvedMembers(s.results, c);
    }
    forall c ensures c in s.advertised <==>
                     c != RmuxIo && exists i :: 0 <= i < |s.results| && s.results[i].channel == c && s.results[i].reference.publicLive
    {
      AdvertisedMembers(s.results, c);
    }
    ExpectedByPosition(s.phase);
    ListsByPosition(s.results);
  }

  lemma ExpectedByPosition(phase: Phase)
    ensures ByPosition(Expected(phase))
  {
    assert forall i | 0 <= i < |PRE_SITE| :: IndexOf(PRE_SITE[i]) == if i < 5 then i else i + 1;
    assert forall i | 0 <= i < |CHANNELS| :: IndexOf(CHANNELS[i]) == i;
  }

  /** What a summary tells of its inputs: one result per channel, its own reference or that of the pre-site summary. */
  ghost predicate Tells(job: Job, s: Summary)
    requires |job.plan.channels| == |CHANNELS|
  {
    && s.phase == job.phase && s.planSha == OfPlan(job.plan) && s.createdAt == job.createdAt
    && s.downstreamAuthority == job.plan.downstreamAuthority
    && (s.rmuxIoAuthority <==> EntryOf(job.plan, RmuxIo).executionDecision == Enabled)
    && s.preSiteSha == (if job.preSite.Some? then Some(OfSummary(job.preSite.value)) else None)
    && (forall i | 0 <= i < |s.results| :: ResultTells(job, s.results[i]))
  }

  predicate ResultTells(job: Job, e: ResultEntry) {
    if e.channel in job.references then
      e.reference == job.references[e.channel] && e.referenceSha == OfReference(e.reference)
    else job.preSite.Some? && e in job.preSite.value.results
  }

  lemma DraftTells(rules: Rules, job: Job)
    requires Summarizable(rules, job)
    ensures Tells(job, Draft(rules, job))
  {
    var s := Draft(rules, job);
    EnabledMeans(rules, job.plan, RmuxIo);
    if job.phase.PreSite? {
      PreSiteInputs(job);
      forall i | 0 <= i < |s.results| ensures ResultTells(job, s.results[i]) { ResultsForAt(PRE_SITE, job.references, i); }
    } else {
      forall i | 0 <= i < |s.results| ensures ResultTells(job, s.results[i]) { FinalTells(rules, job, i); }
    }
  }

  lemma FinalTells(rules: Rules, job: Job, i: nat)
    requires Summarizable(rules, job) && job.phase.Final? && i < |CHANNELS|
    ensures |Draft(rules, job).results| == |CHANNELS| && ResultTells(job, Draft(rules, job).results[i])
  {
    FinalResult(rules, job, i);
    if i < 5 {
      PriorTells(rules, job, i);
    } else if i > 5 {
      PriorTells(rules, job, i - 1);
    }
  }

  lemma PriorTells(rules: Rules, job: Job, k: nat)
    requires Checked(rules, job) && job.phase.Final? && k < |PRE_SITE|
    ensures k < |job.preSite.value.results| && ResultTells(job, job.preSite.value.results[k])
  {
    ResultAt(rules, job.preSite.value, k);
    assert PRE_SITE[k] != RmuxIo;
  }

  /** Every advertised channel has a public result in the summary. */
  lemma AdvertisedResult(rules: Rules, s: Summary, c: Channel) returns (i: nat)
    requires ValidSummary(rules, s) && c in s.advertised
    ensures i < |s.results| && s.results[i].channel == c != RmuxIo && s.results[i].reference.publicLive
    ensures ValidEntry(rules, s, c, s.results[i])
  {
    AdvertisedMembers(s.results, c);
    i :| 0 <= i < |s.results| && s.results[i].reference.channel == c && s.results[i].reference.publicLive;
    ResultAt(rules, s, i);
  }

  /** A public result belongs to a channel the plan lets out, and the summary is authorised. */
  lemma PublicFollowsPlan(rules: Rules, s: Summary, plan: Plan, i: nat)
    requires ValidPlan(rules, plan) && ValidSummaryForPlan(rules, s, plan, s.phase) && i < |s.results|
    requires s.results[i].reference.publicLive
    ensures s.downstreamAuthority
    ensures var d := EntryOf(plan, s.results[i].channel).executionDecision;
            (d == Enabled || d == Disarmed) && (d == Enabled <==> plan.downstreamAuthority)
  {
    ResultAt(rules, s, i);
    PublicNeedsAuthority(rules, s.results[i].reference);
    assert FollowsPlan(plan, s.results[i]);
    EnabledMeans(rules, plan, s.results[i].channel);
  }

  /**
    Advertising: a summary that validates against a plan advertises only channels that are policy-allowed
    or opted in, ready and unblocked, and they are enabled exactly when the plan carries authority.
   */
  lemma AdvertisedFollowsPlan(rules: Rules, s: Summary, plan: Plan, c: Channel)
    requires ValidPlan(rules, plan) && ValidSummaryForPlan(rules, s, plan, s.phase) && c in s.advertised
    ensures var e := EntryOf(plan, c);
            && e.name == c && e.payloadReady && e.blockers == []
            && (e.policyDecision == Allow || (e.policyDecision == ExplicitOptIn && e.explicitOptIn && plan.snapOptIn))
            && (e.executionEnabled <==> plan.downstreamAuthority)
    ensures s.downstreamAuthority
  {
    var i := AdvertisedResult(rules, s, c);
    PublicFollowsPlan(rules, s, plan, i);
    LetOutMeans(rules, plan, c);
  }

  /** Every created summary advertises enabled channels only. */
  lemma CreatedAdvertisesEnabled(rules: Rules, job: Job, c: Channel)
    requires Summarizable(rules, job) && c in Draft(rules, job).advertised
    ensures EntryOf(job.plan, c).executionEnabled && job.plan.downstreamAuthority
  {
    SummarizableIsValid(rules, job);
    AdvertisedFollowsPlan(rules, Draft(rules, job), job.plan, c);
  }

  /** Without authority no result claims a mutation or a public state, and nothing is advertised. */
  lemma InactiveIsQuiet(rules: Rules, s: Summary)
    requires ValidSummary(rules, s) && !s.downstreamAuthority
    ensures forall i | 0 <= i < |s.results| ::
              var r := s.results[i].reference;
              NoMutation(r.state) && !r.mutationStarted && r.remoteRequestId.None? && !r.publicLive
    ensures s.advertised == []
  {
    forall i | 0 <= i < |s.results|
      ensures var r := s.results[i].reference;
              NoMutation(r.state) && !r.mutationStarted && r.remoteRequestId.None? && !r.publicLive
    {
      ResultAt(rules, s, i);
      PublicNeedsAuthority(rules, s.results[i].reference);
    }
    if s.advertised != [] {
      var i := AdvertisedResult(rules, s, s.advertised[0]);
      assert false;
    }
  }

  /** Nothing is unresolved exactly when each channel is denied by the plan or publicly live. */
  lemma ResolvedMeans(rules: Rules, s: Summary, plan: Plan)
    requires ValidPlan(rules, plan) && ValidSummaryForPlan(rules, s, plan, s.phase)
    ensures s.unresolved == [] <==>
            forall i | 0 <= i < |s.results| ::
              EntryOf(plan, s.results[i].channel).executionDecision == Denied || s.results[i].reference.publicLive
  {
    NoneUnresolved(s.results);
    forall i | 0 <= i < |s.results|
      ensures Resolved(s.results[i].reference.state) <==>
              EntryOf(plan, s.results[i].channel).executionDecision == Denied || s.results[i].reference.publicLive
    {
      ResultAt(rules, s, i);
      assert FollowsPlan(plan, s.results[i]);
      ResolvedEntry(rules, s.results[i].reference, EntryOf(plan, s.results[i].channel).executionDecision);
    }
  }

  lemma ResolvedEntry(rules: Rules, r: Reference, decision: Execution)
    requires ValidReference(rules, r) && PlannedState(r.state, decision)
    ensures Resolved(r.state) <==> decision == Denied || r.publicLive
  {
  }

  /** A final summary holds every result of its pre-site summary, in the same order, and one more. */
  lemma FinalKeepsPreSite(rules: Rules, job: Job)
    requires Summarizable(rules, job) && job.phase.Final?
    ensures var s := Draft(rules, job);
            && s.results[..5] + s.results[6..] == job.preSite.value.results
            && s.results[5].channel == RmuxIo && s.preSiteSha == Some(OfSummary(job.preSite.value))
            && s.advertised == job.preSite.value.advertised
  {
    var prior, site := job.preSite.value, EntryFor(RmuxIo, job.references[RmuxIo]);
    FinalDraft(rules, job);
    SiteIsNotAdvertised(prior.results, site);
    WithSiteKeeps(prior.results, site);
  }

  lemma FinalDraft(rules: Rules, job: Job)
    requires Checked(rules, job) && job.phase.Final?
    ensures var s, prior, r := Draft(rules, job), job.preSite.value, job.references[RmuxIo];
            && |prior.results| == |PRE_SITE| && s.results == WithSite(prior.results, EntryFor(RmuxIo, r))
            && s.advertised == Advertised(s.results) && s.preSiteSha == Some(OfSummary(prior))
            && r.channel == RmuxIo && prior.advertised == Advertised(prior.results)
  {
    assert Fits(rules, job.plan, RmuxIo, job.references[RmuxIo]);
  }

  lemma WithSiteKeeps(prior: seq<ResultEntry>, site: ResultEntry)
    requires |prior| == |PRE_SITE|
    ensures var s := WithSite(prior, site); s[..5] + s[6..] == prior
  {
  }

  lemma SiteIsNotAdvertised(prior: seq<ResultEntry>, site: ResultEntry)
    requires |prior| == |PRE_SITE| && site.reference.channel == RmuxIo
    ensures Advertised(WithSite(prior, site)) == Advertised(prior)
  {
    var a, b := prior[..5], prior[5..];
    AdvertisedAppends(a + [site], b);
    AdvertisedAppends(a, [site]);
    AdvertisedAppends(a, b);
    assert a + b == prior;
  }

  lemma {:induction false} AdvertisedAppends(a: seq<ResultEntry>, b: seq<ResultEntry>)
    ensures Advertised(a + b) == Advertised(a) + Advertised(b)
  {
    if a == [] {
      assert a + b == b;
    } else {
      assert (a + b)[1..] == a[1..] + b;
      AdvertisedAppends(a[1..], b);
    }
  }

  // ---------------------------------------------------------------------------------
  // Channels that are not executed
  // ---------------------------------------------------------------------------------

  /** The state scripts/release/channel-execution.py reports for a channel it does not execute. */
  function UnexecutedState(decision: Execution): Option<State> {
    match decision
    case Denied => Some(DeniedByPolicy)
    case Blocked => Some(BlockedState)
    case Disarmed => Some(BlockedState)
    case Enabled => None
  }

  /** No summary can be made from the reported result of a disarmed channel. */
  lemma DisarmedResultIsRefused(rules: Rules, job: Job, c: Channel)
    requires ValidPlan(rules, job.plan) && c in job.references
    requires EntryOf(job.plan, c).executionDecision == Disarmed
    requires Some(job.references[c].state) == UnexecutedState(Disarmed)
    ensures !Summarizable(rules, job)
  {
    assert !Fits(rules, job.plan, c, job.references[c]);
  }
}
