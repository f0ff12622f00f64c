/** The upgrade watcher: plan selection, and the webhook that announces an upgrade once. */
module Upgrade {
  import opened Seqs
  import opened Records

  datatype Plan = Plan(name: string, height: int)

  /** The content of a proposal or message; a software upgrade may fail to unmarshal. */
  datatype Content = NoContent | SoftwareUpgrade(decodes: bool, plan: Plan) | OtherContent

  datatype Result<+T> = Ok(value: T) | Err

  /** What has been sent: the plan, and the block that triggered it. */
  datatype Sent = Sent(plan: Plan, at: int)

  datatype State = State(next: Option<Plan>, latest: int, lastSent: int, sent: seq<Sent>)

  datatype Event = Refresh(plan: Option<Plan>) | NewBlock(height: int, synced: bool)

  const FRESH := State(None, 0, 0, [])

  // ---- Steps ----

  /** A block that is higher than every one before, whichever node it came from. */
  predicate Advances(s: State, e: Event) {
    e.NewBlock? && e.height > s.latest
  }

  predicate Fires(s: State, webhook: bool, e: Event) {
    && Advances(s, e) && e.synced && webhook
    && s.next.Some? && e.height >= s.next.value.height - 1 && s.lastSent < s.next.value.height
  }

  function Apply(s: State, webhook: bool, e: Event): State {
    if e.Refresh? then s.(next := e.plan)
    else if !Advances(s, e) then s
    else if !Fires(s, webhook, e) then s.(latest := e.height)
    else State(None, e.height, s.next.value.height, s.sent + [Sent(s.next.value, e.height)])
  }

  function Run(s: State, webhook: bool, events: seq<Event>): State {
    if |events| == 0 then s
    else Apply(Run(s, webhook, events[..|events| - 1]), webhook, events[|events| - 1])
  }

  // ---- Safety over every run ----

  /** Plan heights strictly increase, so no height is announced twice; none is announced early. */
  predicate SentInOrder(s: State) {
    && (forall i, j :: 0 <= i < j < |s.sent| ==> s.sent[i].plan.height < s.sent[j].plan.height)
    && (forall i, j :: 0 <= i < j < |s.sent| ==> s.sent[i].at < s.sent[j].at)
    && (forall i :: 0 <= i < |s.sent| ==> s.sent[i].at >= s.sent[i].plan.height - 1)
    && (forall i :: 0 <= i < |s.sent| ==> s.sent[i].plan.height <= s.lastSent && s.sent[i].at <= s.latest)
    && (if |s.sent| == 0 then s.lastSent == 0 else s.lastSent == s.sent[|s.sent| - 1].plan.height)
  }

  lemma StepKeepsOrder(s: State, webhook: bool, e: Event)
    requires SentInOrder(s)
    ensures SentInOrder(Apply(s, webhook, e))
  {
  }

  lemma {:induction false} NeverTwice(webhook: bool, events: seq<Event>)
    ensures SentInOrder(Run(FRESH, webhook, events))
    ensures !webhook ==> Run(FRESH, webhook, events).sent == []
  {
    if |events| > 0 {
      NeverTwice(webhook, events[..|events| - 1]);
      StepKeepsOrder(Run(FRESH, webhook, events[..|events| - 1]), webhook, events[|events| - 1]);
    }
  }

  // ---- What exactly is sent ----

  /** r is the last refresh among the first n events. */
  predicate LastRefresh(events: seq<Event>, n: nat, r: nat)
    requires n <= |events|
  {
    r < n && events[r].Refresh? && forall j :: r < j < n ==> !events[j].Refresh?
  }

  /** The last refresh among the first n events came with p. */
  ghost predicate Installed(events: seq<Event>, n: nat, p: Plan)
    requires n <= |events|
  {
    exists r :: 0 <= r < n && LastRefresh(events, n, r) && events[r].plan == Some(p)
  }

  /** The i-th event is a block of a synced node, higher than every block before it, from whichever node. */
  predicate SyncedRecord(events: seq<Event>, i: nat)
    requires i < |events|
  {
    && events[i].NewBlock? && events[i].synced && events[i].height > 0
    && forall j :: 0 <= j < i && events[j].NewBlock? ==> events[j].height < events[i].height
  }

  /** What it takes to announce p with the last event, after the announcements in sent. */
  ghost predicate Due(webhook: bool, events: seq<Event>, sent: seq<Sent>, p: Plan)
    requires |events| > 0
  {
    && webhook && SyncedRecord(events, |events| - 1) && events[|events| - 1].height >= p.height - 1
    && Installed(events, |events| - 1, p)
    && p.height > 0 && forall s :: s in sent ==> s.plan.height < p.height
  }

  lemma InstalledStep(events: seq<Event>, p: Plan)
    requires |events| > 0
    ensures var init, e := events[..|events| - 1], events[|events| - 1];
            Installed(events, |events|, p) <==> if e.Refresh? then e.plan == Some(p) else Installed(init, |init|, p)
  {
    var init, e := events[..|events| - 1], events[|events| - 1];
    assert forall j :: 0 <= j < |init| ==> init[j] == events[j];
    if e.Refresh? {
      assert LastRefresh(events, |events|, |events| - 1);
      assert forall r :: 0 <= r < |events| && LastRefresh(events, |events|, r) ==> r == |events| - 1;
    } else {
      forall r: nat | r < |init| ensures LastRefresh(events, |events|, r) <==> LastRefresh(init, |init|, r) {
      }
    }
  }

  lemma InstalledPrefix(events: seq<Event>, n: nat, p: Plan)
    requires n <= |events|
    ensures Installed(events, n, p) <==> Installed(events[..n], n, p)
  {
    assert forall j :: 0 <= j < n ==> events[..n][j] == events[j];
    forall r: nat | r < n ensures LastRefresh(events, n, r) <==> LastRefresh(events[..n], n, r) {
    }
  }

  /** A held plan is the one installed last; an installed plan that is not held was announced, or one above it. */
  lemma {:induction false} HeldIsInstalled(webhook: bool, events: seq<Event>, p: Plan)
    ensures var s := Run(FRESH, webhook, events);
            && (s.next == Some(p) ==> Installed(events, |events|, p))
            && (Installed(events, |events|, p) ==> s.next == Some(p) || (s.next == None && p.height <= s.lastSent))
  {
    if |events| > 0 {
      HeldIsInstalled(webhook, events[..|events| - 1], p);
      InstalledStep(events, p);
    }
  }

  /** Above everything announced so far is above the height remembered as sent last. */
  lemma AboveAllSent(s: State, p: Plan)
    requires SentInOrder(s)
    ensures p.height > s.lastSent <==>
            (|s.sent| == 0 ==> p.height > 0) && forall x :: x in s.sent ==> x.plan.height < p.height
  {
    if |s.sent| > 0 {
      var last := s.sent[|s.sent| - 1];
      assert last in s.sent;
      forall x | x in s.sent ensures x.plan.height <= last.plan.height {
        var i :| 0 <= i < |s.sent| && s.sent[i] == x;
      }
    }
  }

  lemma {:induction false} SentPositive(webhook: bool, events: seq<Event>)
    ensures var s := Run(FRESH, webhook, events);
            s.lastSent >= 0 && forall x :: x in s.sent ==> x.plan.height > 0
  {
    if |events| > 0 { SentPositive(webhook, events[..|events| - 1]); }
  }

  lemma FiresIffDue(webhook: bool, events: seq<Event>, p: Plan)
    requires |events| > 0
    ensures var init, e := events[..|events| - 1], events[|events| - 1];
            var s := Run(FRESH, webhook, init);
            Due(webhook, events, s.sent, p) <==> Fires(s, webhook, e) && s.next == Some(p)
  {
    var init, e := events[..|events| - 1], events[|events| - 1];
    var s := Run(FRESH, webhook, init);
    HeldIsInstalled(webhook, init, p);
    InstalledPrefix(events, |init|, p);
    NeverTwice(webhook, init);
    SentPositive(webhook, init);
    AboveAllSent(s, p);
    LatestIsHighest(FRESH, webhook, init);
    RecordBeatsHighest(events, BlockHeight(0), 0);
    assert e.NewBlock? ==> (Record(events, BlockHeight(0), 0, |events| - 1) <==>
                            e.height > 0 && forall j :: 0 <= j < |init| && events[j].NewBlock? ==>
                                                     events[j].height < e.height);
  }

  /**
   * Every run, event by event: the last event announces p iff p is due, and nothing otherwise. So a plan that
   * a later refresh removed or replaced is never announced.
   */
  lemma SentIffDue(webhook: bool, events: seq<Event>)
    requires |events| > 0
    ensures var before, after := Run(FRESH, webhook, events[..|events| - 1]).sent, Run(FRESH, webhook, events);
            && (forall p :: Due(webhook, events, before, p) ==>
                              after.sent == before + [Sent(p, events[|events| - 1].height)] && after.next == None)
            && ((forall p :: !Due(webhook, events, before, p)) ==> after.sent == before)
  {
    var s, e := Run(FRESH, webhook, events[..|events| - 1]), events[|events| - 1];
    forall p ensures Due(webhook, events, s.sent, p) <==> Fires(s, webhook, e) && s.next == Some(p) {
      FiresIffDue(webhook, events, p);
    }
    if Fires(s, webhook, e) {
      assert Due(webhook, events, s.sent, s.next.value);
    }
  }

  /** Whatever was announced is the plan of the last refresh before the block that announced it. */
  lemma {:induction false} SentWasInstalled(webhook: bool, events: seq<Event>, x: Sent) returns (i: nat)
    requires x in Run(FRESH, webhook, events).sent
    ensures i < |events| && SyncedRecord(events, i) && events[i].height == x.at && Installed(events, i, x.plan)
  {
    var init, s := events[..|events| - 1], Run(FRESH, webhook, events[..|events| - 1]);
    if x in s.sent {
      i := SentWasInstalled(webhook, init, x);
      InstalledPrefix(init, i, x.plan);
      InstalledPrefix(events, i, x.plan);
      assert init[..i] == events[..i];
      assert forall j :: 0 <= j <= i ==> init[j] == events[j];
    } else {
      i := |events| - 1;
      FiresIffDue(webhook, events, x.plan);
    }
  }

  // ---- Completeness ----

  /** The height an event brings, synced or not; a refresh brings none above the floor. */
  function BlockHeight(floor: int): Event -> int {
    (e: Event) => if e.NewBlock? then e.height else floor
  }

  /** The i-th event is a synced block that reaches p and beats every block seen so far, synced or not. */
  predicate Announces(latest: int, p: Plan, events: seq<Event>, i: nat)
    requires i < |events|
  {
    && events[i].NewBlock? && events[i].synced && events[i].height >= p.height - 1
    && Record(events, BlockHeight(latest), latest, i)
  }

  ghost predicate Held(p: Plan, events: seq<Event>) {
    forall i :: 0 <= i < |events| && events[i].Refresh? ==> events[i].plan == Some(p)
  }

  lemma {:induction false} LatestIsHighest(s: State, webhook: bool, events: seq<Event>)
    ensures Run(s, webhook, events).latest == Highest(events, BlockHeight(s.latest), s.latest)
  {
    if |events| > 0 {
      LatestIsHighest(s, webhook, events[..|events| - 1]);
      HighestBounds(events[..|events| - 1], BlockHeight(s.latest), s.latest);
    }
  }

  /**
   * While every refresh keeps p installed and p was not announced before, the webhook goes out at the
   * first event that announces it, exactly once, and not at all when there is none.
   */
  lemma {:induction false} HeldPlanFires(s: State, p: Plan, events: seq<Event>)
    requires s.next == Some(p) && p.height > s.lastSent && Held(p, events)
    ensures var r := Run(s, true, events);
            var i := FirstAnnouncing(s.latest, p, events, |events|);
            if i < |events| then
              r.sent == s.sent + [Sent(p, events[i].height)] && r.lastSent == p.height &&
              (r.next == None || r.next == Some(p))
            else
              r.sent == s.sent && r.lastSent == s.lastSent && r.next == Some(p)
  {
    if |events| > 0 {
      var init, e := events[..|events| - 1], events[|events| - 1];
      HeldPlanFires(s, p, init);
      FirstAnnouncingPrefix(s.latest, p, events);
      assert e.Refresh? ==> e.plan == Some(p);
      AnnouncesIffAdvances(s, p, events);
    }
  }

  /** A plan at or below the last announced height is never announced, however long it is held. */
  lemma {:induction false} HeldPlanIsSilent(s: State, p: Plan, events: seq<Event>)
    requires s.next == Some(p) && p.height <= s.lastSent && Held(p, events)
    ensures var r := Run(s, true, events);
            r.sent == s.sent && r.lastSent == s.lastSent && r.next == Some(p)
  {
    if |events| > 0 {
      var init, e := events[..|events| - 1], events[|events| - 1];
      HeldPlanIsSilent(s, p, init);
      assert e.Refresh? ==> e.plan == Some(p);
    }
  }

  /**
   * Every held plan: it is announced exactly when it is above the last announced height and some event
   * announces it. A plan rescheduled at or below a height already announced stays silent.
   */
  lemma HeldPlanAnnouncedIff(s: State, p: Plan, events: seq<Event>)
    requires s.next == Some(p) && Held(p, events)
    ensures Run(s, true, events).sent != s.sent <==>
            p.height > s.lastSent && exists i :: 0 <= i < |events| && Announces(s.latest, p, events, i)
  {
    if p.height > s.lastSent {
      HeldPlanFires(s, p, events);
      var i := FirstAnnouncing(s.latest, p, events, |events|);
      assert i < |events| ==> |s.sent + [Sent(p, events[i].height)]| > |s.sent|;
    } else {
      HeldPlanIsSilent(s, p, events);
    }
  }

  /** The first of the leading n events that announces p, or n. */
  function FirstAnnouncing(latest: int, p: Plan, events: seq<Event>, n: nat): (i: nat)
    requires n <= |events|
    ensures i <= n
    ensures i < n ==> Announces(latest, p, events, i)
    ensures forall j :: 0 <= j < i ==> !Announces(latest, p, events, j)
  {
    if n == 0 then 0
    else
      var i := FirstAnnouncing(latest, p, events, n - 1);
      if i < n - 1 then i else if Announces(latest, p, events, n - 1) then n - 1 else n
  }

  lemma FirstAnnouncingPrefix(latest: int, p: Plan, events: seq<Event>)
    requires |events| > 0
    ensures var init, n := events[..|events| - 1], |events|;
            FirstAnnouncing(latest, p, events, n) ==
            if FirstAnnouncing(latest, p, init, n - 1) < n - 1 then FirstAnnouncing(latest, p, init, n - 1)
            else if Announces(latest, p, events, n - 1) then n - 1 else n
  {
    var init, n := events[..|events| - 1], |events|;
    forall i | 0 <= i < n - 1 ensures Announces(latest, p, init, i) == Announces(latest, p, events, i) {
      assert forall j :: 0 <= j <= i ==> init[j] == events[j];
    }
  }

  /** Beating the watcher's height is beating everything delivered. */
  lemma AnnouncesIffAdvances(s: State, p: Plan, events: seq<Event>)
    requires |events| > 0
    ensures var before, e := Run(s, true, events[..|events| - 1]), events[|events| - 1];
            Announces(s.latest, p, events, |events| - 1) <==>
            Advances(before, e) && e.synced && e.height >= p.height - 1
  {
    LatestIsHighest(s, true, events[..|events| - 1]);
    HighestBounds(events[..|events| - 1], BlockHeight(s.latest), s.latest);
    RecordBeatsHighest(events, BlockHeight(s.latest), s.latest);
  }

  /**
   * The documented promise: when only synced nodes move the height, p is announced at the first block
   * at or above the one before the upgrade, if there is such a block above what was seen before.
   */
  lemma SyncedPlanFiresAtFirstBlock(s: State, p: Plan, events: seq<Event>)
    requires s.next == Some(p) && p.height > s.lastSent && Held(p, events)
    requires s.latest < p.height - 1
    requires forall i :: 0 <= i < |events| && events[i].NewBlock? ==> events[i].synced
    ensures var r := Run(s, true, events);
            var i := FirstIndex(events, Reaches(p));
            r.sent == if i < |events| then s.sent + [Sent(p, events[i].height)] else s.sent
  {
    HeldPlanFires(s, p, events);
    var i := FirstIndex(events, Reaches(p));
    var k := FirstAnnouncing(s.latest, p, events, |events|);
    if i < |events| {
      forall j | 0 <= j < i && events[j].NewBlock? ensures events[j].height < events[i].height {
        assert !Reaches(p)(events[j]);
      }
      assert Announces(s.latest, p, events, i);
    }
    if k < |events| { assert Reaches(p)(events[k]); }
  }

  function Reaches(p: Plan): Event -> bool {
    (e: Event) => e.NewBlock? && e.height >= p.height - 1
  }

  /** A lagging node that is the first to bring the last block before the upgrade silences the webhook. */
  lemma UnsyncedNodeSilences(p: Plan)
    requires p.height == 100
    ensures var events := [Refresh(Some(p)), NewBlock(99, false), NewBlock(99, true), Refresh(None)];
            Run(FRESH, true, events).sent == []
  {
    var events := [Refresh(Some(p)), NewBlock(99, false), NewBlock(99, true), Refresh(None)];
    assert events[..3] == [Refresh(Some(p)), NewBlock(99, false), NewBlock(99, true)];
    assert events[..3][..2] == [Refresh(Some(p)), NewBlock(99, false)];
    assert events[..3][..2][..1] == [Refresh(Some(p))];
    assert events[..3][..2][..1][..0] == [];
    assert Run(FRESH, true, [Refresh(Some(p))]) == FRESH.(next := Some(p));
    assert Run(FRESH, true, events[..3][..2]) == State(Some(p), 99, 0, []);
    assert Run(FRESH, true, events[..3]) == State(Some(p), 99, 0, []);
  }

  // ---- Plan selection ----

  predicate Undecodable(c: Content) {
    c.SoftwareUpgrade? && !c.decodes
  }

  /** A message the search stops at: an upcoming upgrade, or one that does not decode. */
  function Stops(latest: int): Content -> bool {
    (c: Content) => c.SoftwareUpgrade? && (c.decodes ==> c.plan.height > latest)
  }

  function Verdict(latest: int, contents: seq<Content>): Result<Option<Plan>> {
    var i := FirstIndex(contents, Stops(latest));
    if i == |contents| then Ok(None)
    else if contents[i].decodes then Ok(Some(contents[i].plan)) else Err
  }

  /** The chosen plan is the first upcoming one, and nothing before it failed to decode; and conversely. */
  lemma VerdictMeaning(latest: int, contents: seq<Content>, p: Plan)
    ensures Verdict(latest, contents) == Ok(Some(p)) <==>
            exists i :: 0 <= i < |contents| && contents[i] == SoftwareUpgrade(true, p) && p.height > latest &&
                        forall j :: 0 <= j < i ==> !Undecodable(contents[j]) && !Stops(latest)(contents[j])
    ensures Verdict(latest, contents) == Err <==>
            exists i :: 0 <= i < |contents| && Undecodable(contents[i]) &&
                        forall j :: 0 <= j < i ==> !Stops(latest)(contents[j])
  {
    var i := FirstIndex(contents, Stops(latest));
    forall k | 0 <= k < |contents| && Stops(latest)(contents[k]) &&
               (forall j :: 0 <= j < k ==> !Stops(latest)(contents[j]))
      ensures k == i
    {
    }
    if i < |contents| {
      assert Stops(latest)(contents[i]);
      assert forall j :: 0 <= j < i ==> !Stops(latest)(contents[j]);
      assert forall j :: 0 <= j < i ==> !Undecodable(contents[j]);
    }
  }

  /** The message at (i, j) is an upcoming upgrade to p, and none before it is upcoming or fails to decode. */
  ghost predicate SelectedAt(proposals: seq<seq<Content>>, latest: int, p: Plan, i: nat, j: nat) {
    && Inside(proposals, i, j) && proposals[i][j] == SoftwareUpgrade(true, p) && p.height > latest
    && forall k: nat, l: nat :: Inside(proposals, k, l) && Before(k, l, i, j) && proposals[k][l].SoftwareUpgrade? ==>
         proposals[k][l].decodes && proposals[k][l].plan.height <= latest
  }

  ghost predicate Selected(proposals: seq<seq<Content>>, latest: int, p: Plan) {
    exists i, j :: SelectedAt(proposals, latest, p, i, j)
  }

  lemma SelectedIsFirst(proposals: seq<seq<Content>>, latest: int, p: Plan, i: nat, j: nat)
    ensures SelectedAt(proposals, latest, p, i, j) <==>
            FirstIn(proposals, i, j, Stops(latest)) && proposals[i][j] == SoftwareUpgrade(true, p)
  {
  }

  /** The search over the proposals finds the selected plan, and no other. */
  lemma VerdictSelected(proposals: seq<seq<Content>>, latest: int, p: Plan)
    ensures Verdict(latest, Join(proposals)) == Ok(Some(p)) <==> Selected(proposals, latest, p)
  {
    var i, j := JoinFirst(proposals, Stops(latest));
    SelectedIsFirst(proposals, latest, p, i, j);
    if Selected(proposals, latest, p) {
      var k, l :| SelectedAt(proposals, latest, p, k, l);
      SelectedIsFirst(proposals, latest, p, k, l);
      OneFirstIn(proposals, i, j, k, l, Stops(latest));
    }
  }

  lemma AllSelected(proposals: seq<seq<Content>>, latest: int)
    ensures forall p :: PlanOf(Verdict(latest, Join(proposals))) == Some(p) <==> Selected(proposals, latest, p)
  {
    forall p ensures PlanOf(Verdict(latest, Join(proposals))) == Some(p) <==> Selected(proposals, latest, p) {
      VerdictSelected(proposals, latest, p);
    }
  }

  lemma JoinOne(contents: seq<Content>)
    ensures Join([contents]) == contents
  {
    assert [contents][..0] == [];
    assert Join<Content>([]) == [];
  }

  lemma VerdictConcat(latest: int, a: seq<Content>, b: seq<Content>)
    ensures Verdict(latest, a + b) ==
            if Verdict(latest, a) == Ok(None) then Verdict(latest, b) else Verdict(latest, a)
  {
    FirstIndexConcat(a, b, Stops(latest));
  }

  function Singletons(contents: seq<Content>): seq<seq<Content>> {
    seq(|contents|, i requires 0 <= i < |contents| => [contents[i]])
  }

  lemma {:induction false} JoinSingletons(contents: seq<Content>)
    ensures Join(Singletons(contents)) == contents
  {
    if |contents| > 0 {
      JoinSingletons(contents[..|contents| - 1]);
      assert Singletons(contents)[..|contents| - 1] == Singletons(contents[..|contents| - 1]);
    }
  }

  method ExtractUpgradePlan(content: Content) returns (r: Result<Option<Plan>>)
    ensures r == if !content.SoftwareUpgrade? then Ok(None)
                 else if content.decodes then Ok(Some(content.plan)) else Err
  {
    match content
    case NoContent => r := Ok(None);
    case SoftwareUpgrade(decodes, plan) => if decodes { r := Ok(Some(plan)); } else { r := Err; }
    case OtherContent => r := Ok(None);
  }

  class UpgradeWatcher {
    const webhook: bool
    const checkPendingProposals: bool
    const govModuleVersion: string
    var nextUpgradePlan: Option<Plan>
    var latestBlockHeight: int
    var latestWebhookSent: int
    ghost var sent: seq<Sent>

    ghost function Value(): State
      reads this
    {
      State(nextUpgradePlan, latestBlockHeight, latestWebhookSent, sent)
    }

    constructor (webhook: bool, checkPendingProposals: bool, govModuleVersion: string)
      ensures Value() == FRESH
      ensures this.webhook == webhook && this.checkPendingProposals == checkPendingProposals
      ensures this.govModuleVersion == govModuleVersion
    {
      this.webhook := webhook;
      this.checkPendingProposals := checkPendingProposals;
      this.govModuleVersion := govModuleVersion;
      nextUpgradePlan, latestBlockHeight, latestWebhookSent, sent := None, 0, 0, [];
    }

    method OnNewBlock(height: int, synced: bool)
      modifies this
      ensures Value() == Apply(old(Value()), webhook, NewBlock(height, synced))
    {
      if latestBlockHeight >= height {
        return;
      }
      latestBlockHeight := height;
      if !webhook {
        return;
      }
      if nextUpgradePlan.None? {
        return;
      }
      if !synced {
        return;
      }
      if latestBlockHeight < nextUpgradePlan.value.height - 1 {
        return;
      }
      if latestWebhookSent >= nextUpgradePlan.value.height {
        return;
      }
      sent := sent + [Sent(nextUpgradePlan.value, height)];
      latestWebhookSent := nextUpgradePlan.value.height;
      nextUpgradePlan := None;
    }

    method HandleUpgradePlan(plan: Option<Plan>)
      modifies this`nextUpgradePlan
      ensures Value() == Apply(old(Value()), webhook, Refresh(plan))
    {
      nextUpgradePlan := plan;
    }

    /** One refresh. A failed plan query changes nothing; a failed search installs no plan. */
    method FetchUpgrade(current: Result<Option<Plan>>, v1: Result<seq<seq<Content>>>, v1beta1: Result<seq<Content>>)
      modifies this`nextUpgradePlan
      ensures current.Err? ==> Value() == old(Value())
      ensures current.Ok? && (current.value.Some? || !checkPendingProposals) ==> nextUpgradePlan == current.value
      ensures current == Ok(None) && checkPendingProposals && govModuleVersion == "v1beta1" ==>
                forall p :: nextUpgradePlan == Some(p) <==>
                            v1beta1.Ok? && Selected([v1beta1.value], latestBlockHeight, p)
      ensures current == Ok(None) && checkPendingProposals && govModuleVersion != "v1beta1" ==>
                forall p :: nextUpgradePlan == Some(p) <==> v1.Ok? && Selected(v1.value, latestBlockHeight, p)
      ensures current.Ok? ==> Value() == Apply(old(Value()), webhook, Refresh(
                if current.value.Some? || !checkPendingProposals then current.value
                else if govModuleVersion == "v1beta1" then
                  (if v1beta1.Err? then None else PlanOf(Verdict(old(latestBlockHeight), v1beta1.value)))
                else
                  (if v1.Err? then None else PlanOf(Verdict(old(latestBlockHeight), Join(v1.value))))))
    {
      if v1.Ok? { AllSelected(v1.value, latestBlockHeight); }
      if v1beta1.Ok? {
        AllSelected([v1beta1.value], latestBlockHeight);
        JoinOne(v1beta1.value);
      }
      if current.Err? {
        return;
      }
      var plan := current.value;
      if plan.None? && checkPendingProposals {
        var found;
        if govModuleVersion == "v1beta1" {
          found := CheckUpgradeProposalsV1Beta1(v1beta1);
        } else {
          found := CheckUpgradeProposalsV1(v1);
        }
        plan := PlanOf(found);
      }
      HandleUpgradePlan(plan);
    }

    method CheckUpgradeProposalsV1(proposals: Result<seq<seq<Content>>>) returns (r: Result<Option<Plan>>)
      ensures r == if proposals.Err? then Err else Verdict(latestBlockHeight, Join(proposals.value))
    {
      if proposals.Err? {
        return Err;
      }
      var ps := proposals.value;
      for i := 0 to |ps|
        invariant Verdict(latestBlockHeight, Join(ps[..i])) == Ok(None)
      {
        assert ps[..i + 1][..i] == ps[..i];
        JoinSplit(ps, i + 1);
        var verdict := CheckMessages(ps[i]);
        VerdictConcat(latestBlockHeight, Join(ps[..i]), ps[i]);
        if verdict != Ok(None) {
          VerdictConcat(latestBlockHeight, Join(ps[..i + 1]), Join(ps[i + 1..]));
          return verdict;
        }
      }
      assert ps[..|ps|] == ps;
      r := Ok(None);
    }

    /** The inner loop, over the messages of one proposal. */
    method CheckMessages(messages: seq<Content>) returns (r: Result<Option<Plan>>)
      ensures r == Verdict(latestBlockHeight, messages)
    {
      for i := 0 to |messages|
        invariant forall j :: 0 <= j < i ==> !Stops(latestBlockHeight)(messages[j])
      {
        var plan := ExtractUpgradePlan(messages[i]);
        if plan.Err? {
          assert Stops(latestBlockHeight)(messages[i]);
          return Err;
        }
        if plan.value.Some? && plan.value.value.height > latestBlockHeight {
          assert Stops(latestBlockHeight)(messages[i]);
          return plan;
        }
      }
      r := Ok(None);
    }

    method CheckUpgradeProposalsV1Beta1(proposals: Result<seq<Content>>) returns (r: Result<Option<Plan>>)
      ensures r == if proposals.Err? then Err else Verdict(latestBlockHeight, proposals.value)
    {
      if proposals.Err? {
        return Err;
      }
      r := CheckMessages(proposals.value);
    }
  }

  function PlanOf(r: Result<Option<Plan>>): Option<Plan> {
    if r.Ok? then r.value else None
  }

  /** The flat search of v1beta1 and the nested search of v1 agree on proposals of one message each. */
  lemma FlatAgreesWithNested(latest: int, contents: seq<Content>)
    ensures Verdict(latest, Join(Singletons(contents))) == Verdict(latest, contents)
  {
    JoinSingletons(contents);
  }
}
