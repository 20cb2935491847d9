/** What `processMember` does to one account, as a function of the account before the run,
    the registry's answers and the collaborators the job calls but that are not modelled here. */
module Reconciliation {
  import opened Wrappers
  import opened Members

  // ---------------------------------------------------------------------------
  // Inputs
  // ---------------------------------------------------------------------------

  /** A field of the decoded registry feed: an element with no content decodes to an empty
      object rather than to a string. */
  datatype XmlText = EmptyNode | Text(s: string)

  /** The registry's `idstatusint` record for one member. */
  datatype FeedRecord = FeedRecord(
    nameFirst: XmlText,
    nameLast: XmlText,
    email: XmlText,
    rating: int,
    pilotRating: int,
    regdate: string,
    region: string,
    division: string)

  datatype StatusFetch = StatusFetchFailed | StatusFetched(record: FeedRecord)

  /** The `idstatusprat` lookup: it throws, finds no `PreviousRatingInt`, or finds one. */
  datatype PreviousFetch = PreviousFetchFailed | NoPreviousRating | PreviousRating(rating: int)

  /** The registry, queried by account id. */
  datatype Network = Network(status: int -> StatusFetch, previous: int -> PreviousFetch)

  /** The collaborators whose code is not part of this model: the rating classifiers, the
      state-determination rule (from the current state, region and division), the code of
      the division state and the id of the system account that instigates automatic bans. */
  datatype Collaborators = Collaborators(
    parseAtc: int -> Qualification,
    parsePilot: int -> seq<Qualification>,
    determineState: (Option<int>, string, string) -> int,
    stateDivision: int,
    systemAccount: int)

  /** How one member's processing ends. */
  datatype ProcessResult = FetchFailed | Deleted | RolledBack | Committed(member: Member)

  datatype TxEvent = Begin | Rollback | Commit

  const HIDDEN_EMAIL := "[hidden]"
  const NETWORK_BAN_REASON := "Network ban discovered via Cert update scripts."

  /** The network's "suspended" rating, and the two instructor ratings that only division
      members may receive. */
  const RATING_SUSPENDED := 0
  const RATING_INS1 := 8
  const RATING_INS2 := 9

  // ---------------------------------------------------------------------------
  // Steps
  // ---------------------------------------------------------------------------

  /** PHP's `empty()` on a string: true for "" and for "0". */
  predicate PhpEmptyString(s: string) {
    s == "" || s == "0"
  }

  /** A name field is taken from the feed only when it is a string that PHP does not
      consider empty. */
  function SyncedName(current: string, incoming: XmlText): (r: string)
    ensures incoming.Text? && !PhpEmptyString(incoming.s) ==> r == incoming.s
    ensures !(incoming.Text? && !PhpEmptyString(incoming.s)) ==> r == current
  {
    if incoming.Text? && !PhpEmptyString(incoming.s) then incoming.s else current
  }

  /** Both names empty and the e-mail hidden: the member no longer exists in the registry. */
  predicate IsDeletionSentinel(rec: FeedRecord) {
    rec.nameFirst == EmptyNode && rec.nameLast == EmptyNode && rec.email == Text(HIDDEN_EMAIL)
  }

  function NewNetworkBan(now: int, instigator: int): Ban {
    Ban(NetworkBan, NETWORK_BAN_REASON, now, None, instigator)
  }

  /** A network ban is opened when the registry reports the suspended rating and none is running. */
  function AcquireNetworkBan(bans: seq<Ban>, rating: int, now: int, instigator: int): seq<Ban> {
    if rating == RATING_SUSPENDED && !IsNetworkBanned(bans) then bans + [NewNetworkBan(now, instigator)]
    else bans
  }

  /** A running network ban is closed when the registry reports a positive rating. */
  function ReleaseNetworkBan(bans: seq<Ban>, rating: int, now: int): seq<Ban> {
    match NetworkBanAt(bans)
    case Some(k) => if rating > 0 then bans[k := bans[k].(periodFinish := Some(now))] else bans
    case None => bans
  }

  /** Instructor ratings are granted only to division members. */
  predicate AtcGrantApplies(rating: int, state: int, stateDivision: int) {
    (rating != RATING_INS1 && rating != RATING_INS2) || state == stateDivision
  }

  predicate IsTrainingOrAdmin(k: QualKind) {
    k == AtcTraining || k == PilotTraining || k == Admin
  }

  /** The three deletion loops run for members rated below the first instructor rating. */
  function PurgeTrainingAndAdmin(qs: seq<Qualification>): (r: seq<Qualification>)
    ensures forall q :: q in r ==> q in qs && !IsTrainingOrAdmin(q.kind)
    ensures forall q :: q in qs && !IsTrainingOrAdmin(q.kind) ==> q in r
  {
    RemoveKind(RemoveKind(RemoveKind(qs, AtcTraining), PilotTraining), Admin)
  }

  /** The purge drops every copy of a training or admin qualification and keeps every copy
      of the others. */
  lemma PurgeCounts(qs: seq<Qualification>, q: Qualification)
    ensures multiset(PurgeTrainingAndAdmin(qs))[q] == if IsTrainingOrAdmin(q.kind) then 0 else multiset(qs)[q]
  {
    var once := RemoveKind(qs, AtcTraining);
    var twice := RemoveKind(once, PilotTraining);
    RemoveKindCounts(qs, AtcTraining, q);
    RemoveKindCounts(once, PilotTraining, q);
    RemoveKindCounts(twice, Admin, q);
  }

  /** The purge works element by element, so the kept qualifications keep their order. */
  lemma PurgeDistributes(a: seq<Qualification>, b: seq<Qualification>)
    ensures PurgeTrainingAndAdmin(a + b) == PurgeTrainingAndAdmin(a) + PurgeTrainingAndAdmin(b)
  {
    RemoveKindDistributes(a, b, AtcTraining);
    var a1, b1 := RemoveKind(a, AtcTraining), RemoveKind(b, AtcTraining);
    RemoveKindDistributes(a1, b1, PilotTraining);
    RemoveKindDistributes(RemoveKind(a1, PilotTraining), RemoveKind(b1, PilotTraining), Admin);
  }

  /** Names, check time and activity flag (lines that run before the first save). */
  function SyncedNames(m: Member, rec: FeedRecord, now: int): Member {
    m.(nameFirst := SyncedName(m.nameFirst, rec.nameFirst),
       nameLast := SyncedName(m.nameLast, rec.nameLast),
       certCheckedAt := Some(now),
       isInactive := rec.rating < 0)
  }

  function WithNetworkBan(m: Member, rating: int, now: int, instigator: int): Member {
    m.(bans := ReleaseNetworkBan(AcquireNetworkBan(m.bans, rating, now, instigator), rating, now))
  }

  /** Registration date and affiliation state. */
  function Placed(m: Member, rec: FeedRecord, env: Collaborators): Member {
    m.(joinedAt := rec.regdate, state := Some(env.determineState(m.state, rec.region, rec.division)))
  }

  function WithAtcGrant(m: Member, rating: int, env: Collaborators): Member {
    if m.state.Some? && AtcGrantApplies(rating, m.state.value, env.stateDivision) then
      m.(qualifications := AddQual(m.qualifications, env.parseAtc(rating)))
    else m
  }

  /** The field updates up to and including the ATC grant, in source order. */
  function SyncedMember(m: Member, rec: FeedRecord, now: int, env: Collaborators): Member {
    WithAtcGrant(Placed(WithNetworkBan(SyncedNames(m, rec, now), rec.rating, now, env.systemAccount), rec, env), rec.rating, env)
  }

  function WithPilotRatings(m: Member, rec: FeedRecord, env: Collaborators): Member {
    m.(qualifications := AddAll(m.qualifications, env.parsePilot(rec.pilotRating)))
  }

  /** The qualification updates after the ATC grant: from the first instructor rating up the
      previous rating is looked up and added (nothing, when the lookup throws), below it the
      training and admin qualifications are purged; then the pilot ratings are added. */
  function QualificationsUpdated(synced: Member, rec: FeedRecord, env: Collaborators, net: Network): Option<Member> {
    if rec.rating >= RATING_INS1 then
      match net.previous(synced.accountId)
      case PreviousFetchFailed => None
      case NoPreviousRating => Some(WithPilotRatings(synced, rec, env))
      case PreviousRating(p) =>
        var withPrevious := synced.(qualifications := AddQual(synced.qualifications, env.parseAtc(p)));
        Some(WithPilotRatings(withPrevious, rec, env))
    else
      var purged := synced.(qualifications := PurgeTrainingAndAdmin(synced.qualifications));
      Some(WithPilotRatings(purged, rec, env))
  }

  // ---------------------------------------------------------------------------
  // The transition
  // ---------------------------------------------------------------------------

  /** One run of `processMember` on the account whose state before the run is `m`. */
  function Reconcile(m: Member, now: int, env: Collaborators, net: Network): (r: ProcessResult)
    ensures r.FetchFailed? <==> net.status(m.accountId).StatusFetchFailed?
    ensures r.Deleted? <==> net.status(m.accountId).StatusFetched? && IsDeletionSentinel(net.status(m.accountId).record)
    ensures r.RolledBack? <==>
      && net.status(m.accountId).StatusFetched?
      && !IsDeletionSentinel(net.status(m.accountId).record)
      && net.status(m.accountId).record.rating >= RATING_INS1
      && net.previous(m.accountId).PreviousFetchFailed?
    ensures r.Committed? ==>
      var rec := net.status(m.accountId).record;
      var n := r.member;
      && n.accountId == m.accountId && n.lastLogin == m.lastLogin && n.status == m.status && n.deleted == m.deleted
      && (rec.nameFirst.Text? && !PhpEmptyString(rec.nameFirst.s) ==> n.nameFirst == rec.nameFirst.s)
      && (!(rec.nameFirst.Text? && !PhpEmptyString(rec.nameFirst.s)) ==> n.nameFirst == m.nameFirst)
      && (rec.nameLast.Text? && !PhpEmptyString(rec.nameLast.s) ==> n.nameLast == rec.nameLast.s)
      && (!(rec.nameLast.Text? && !PhpEmptyString(rec.nameLast.s)) ==> n.nameLast == m.nameLast)
      && n.certCheckedAt == Some(now)
      && n.isInactive == (rec.rating < 0)
      && n.joinedAt == rec.regdate
      && n.state == Some(env.determineState(m.state, rec.region, rec.division))
  {
    match net.status(m.accountId)
    case StatusFetchFailed => FetchFailed
    case StatusFetched(rec) =>
      if IsDeletionSentinel(rec) then Deleted
      else
        match QualificationsUpdated(SyncedMember(m, rec, now, env), rec, env, net)
        case None => RolledBack
        case Some(n) => Committed(n)
  }

  /** The account as stored once the run has ended. */
  function Applied(before: Member, r: ProcessResult): Member {
    match r
    case FetchFailed => before
    case RolledBack => before
    case Deleted => before.(deleted := true)
    case Committed(n) => n
  }

  /** The transaction calls one run makes, in order. The catch block rolls back and the
      statement after it still commits. */
  function TxTrace(r: ProcessResult): seq<TxEvent> {
    match r
    case FetchFailed => []
    case Deleted => []
    case RolledBack => [Begin, Rollback, Commit]
    case Committed(_) => [Begin, Commit]
  }

  /** The transaction calls of a run, read off the registry's answers for the account alone. */
  function TransactionCalls(accountId: int, net: Network): seq<TxEvent> {
    match net.status(accountId)
    case StatusFetchFailed => []
    case StatusFetched(rec) =>
      if IsDeletionSentinel(rec) then []
      else if rec.rating >= RATING_INS1 && net.previous(accountId).PreviousFetchFailed? then [Begin, Rollback, Commit]
      else [Begin, Commit]
  }

  // ---------------------------------------------------------------------------
  // Properties
  // ---------------------------------------------------------------------------

  /** Acquire and release of the network ban: a ban is opened only for the suspended rating
      when none is running, the running ban is closed (finishing now) only for a positive
      rating, and otherwise the bans are untouched; the two never happen in the same run. */
  lemma NetworkBanLifecycle(m: Member, now: int, env: Collaborators, net: Network)
    requires Reconcile(m, now, env, net).Committed?
    ensures
      var rating := net.status(m.accountId).record.rating;
      var n := Reconcile(m, now, env, net).member;
      && (rating == RATING_SUSPENDED && !IsNetworkBanned(m.bans) ==>
            n.bans == m.bans + [Ban(NetworkBan, NETWORK_BAN_REASON, now, None, env.systemAccount)])
      && (rating > 0 && IsNetworkBanned(m.bans) ==>
            var k := NetworkBanAt(m.bans).value;
            n.bans == m.bans[k := m.bans[k].(periodFinish := Some(now))])
      && (!(rating == RATING_SUSPENDED && !IsNetworkBanned(m.bans)) && !(rating > 0 && IsNetworkBanned(m.bans)) ==>
            n.bans == m.bans)
  {
  }

  /** At most one network ban runs at a time, and after a run the member is network banned
      exactly when the registry reports the suspended rating (for other ratings the bans
      are kept as they were). */
  lemma {:induction false} AtMostOneActiveNetworkBan(m: Member, now: int, env: Collaborators, net: Network)
    requires ActiveNetworkBans(m.bans) <= 1
    requires Reconcile(m, now, env, net).Committed?
    ensures
      var rating := net.status(m.accountId).record.rating;
      var n := Reconcile(m, now, env, net).member;
      && ActiveNetworkBans(n.bans) <= 1
      && (rating == RATING_SUSPENDED ==> IsNetworkBanned(n.bans))
      && (rating > 0 ==> !IsNetworkBanned(n.bans))
  {
    var rec := net.status(m.accountId).record;
    var n := Reconcile(m, now, env, net).member;
    var acquired := AcquireNetworkBan(m.bans, rec.rating, now, env.systemAccount);
    assert n.bans == ReleaseNetworkBan(acquired, rec.rating, now);
    ActiveNetworkBansPositive(m.bans);
    if rec.rating == RATING_SUSPENDED && !IsNetworkBanned(m.bans) {
      ActiveNetworkBansAppend(m.bans, NewNetworkBan(now, env.systemAccount));
      ActiveNetworkBansPositive(acquired);
    }
    if IsNetworkBanned(acquired) && rec.rating > 0 {
      var k := NetworkBanAt(acquired).value;
      ActiveNetworkBansUpdate(acquired, k, acquired[k].(periodFinish := Some(now)));
      ActiveNetworkBansPositive(n.bans);
    }
  }

  /** Below the first instructor rating the training and admin qualifications are purged:
      the only ones left afterwards are those the pilot classifier has just added, and every
      other qualification the member held is kept. */
  lemma {:induction false} DowngradePurgesTrainingAndAdmin(m: Member, now: int, env: Collaborators, net: Network)
    requires Reconcile(m, now, env, net).Committed?
    requires net.status(m.accountId).record.rating < RATING_INS1
    ensures
      var rec := net.status(m.accountId).record;
      var n := Reconcile(m, now, env, net).member;
      && (forall q :: q in n.qualifications && IsTrainingOrAdmin(q.kind) ==> q in env.parsePilot(rec.pilotRating))
      && (forall q :: q in m.qualifications && !IsTrainingOrAdmin(q.kind) ==> q in n.qualifications)
  {
    var rec := net.status(m.accountId).record;
    var synced := SyncedMember(m, rec, now, env);
    var purged := PurgeTrainingAndAdmin(synced.qualifications);
    var n := Reconcile(m, now, env, net).member;
    assert n.qualifications == AddAll(purged, env.parsePilot(rec.pilotRating));
    assert m.qualifications <= synced.qualifications;
    forall q | q in m.qualifications && !IsTrainingOrAdmin(q.kind) ensures q in n.qualifications {
      assert q in synced.qualifications;
      assert q in purged;
    }
  }

  /** From the first instructor rating up nothing is deleted; a previous rating found in the
      registry ends up among the member's qualifications. */
  lemma {:induction false} InstructorKeepsHistory(m: Member, now: int, env: Collaborators, net: Network)
    requires Reconcile(m, now, env, net).Committed?
    requires net.status(m.accountId).record.rating >= RATING_INS1
    ensures
      var n := Reconcile(m, now, env, net).member;
      && m.qualifications <= n.qualifications
      && (net.previous(m.accountId).PreviousRating? ==>
            env.parseAtc(net.previous(m.accountId).rating) in n.qualifications)
  {
    var rec := net.status(m.accountId).record;
    var synced := SyncedMember(m, rec, now, env);
    var n := Reconcile(m, now, env, net).member;
    assert m.qualifications <= synced.qualifications;
    match net.previous(m.accountId)
    case NoPreviousRating =>
      assert n.qualifications == AddAll(synced.qualifications, env.parsePilot(rec.pilotRating));
    case PreviousRating(p) =>
      var withPrevious := AddQual(synced.qualifications, env.parseAtc(p));
      assert n.qualifications == AddAll(withPrevious, env.parsePilot(rec.pilotRating));
      assert env.parseAtc(p) in withPrevious;
  }

  /** When the ATC grant applies (any rating but 8 and 9, or a division member), the
      classified rating is among the member's qualifications afterwards, unless the
      downgrade purge removes it. */
  lemma {:induction false} AtcGrantApplied(m: Member, now: int, env: Collaborators, net: Network)
    requires Reconcile(m, now, env, net).Committed?
    requires
      var rec := net.status(m.accountId).record;
      AtcGrantApplies(rec.rating, Reconcile(m, now, env, net).member.state.value, env.stateDivision)
    requires
      var rec := net.status(m.accountId).record;
      rec.rating >= RATING_INS1 || !IsTrainingOrAdmin(env.parseAtc(rec.rating).kind)
    ensures
      var rec := net.status(m.accountId).record;
      env.parseAtc(rec.rating) in Reconcile(m, now, env, net).member.qualifications
  {
    var rec := net.status(m.accountId).record;
    var synced := SyncedMember(m, rec, now, env);
    var n := Reconcile(m, now, env, net).member;
    var grant := env.parseAtc(rec.rating);
    var pilots := env.parsePilot(rec.pilotRating);
    assert net.status(m.accountId) == StatusFetched(rec) && !IsDeletionSentinel(rec);
    var state := env.determineState(m.state, rec.region, rec.division);
    assert n.state == Some(state) && AtcGrantApplies(rec.rating, state, env.stateDivision);
    assert synced.qualifications == AddQual(m.qualifications, grant);
    assert grant in synced.qualifications;
    if rec.rating >= RATING_INS1 {
      match net.previous(m.accountId)
      case NoPreviousRating =>
        assert n.qualifications == AddAll(synced.qualifications, pilots);
        InPrefix(grant, synced.qualifications, n.qualifications);
      case PreviousRating(p) =>
        var withPrevious := AddQual(synced.qualifications, env.parseAtc(p));
        assert n.qualifications == AddAll(withPrevious, pilots);
        InPrefix(grant, synced.qualifications, withPrevious);
        InPrefix(grant, withPrevious, n.qualifications);
    } else {
      var purged := PurgeTrainingAndAdmin(synced.qualifications);
      assert n.qualifications == AddAll(purged, pilots);
      assert grant in purged;
      InPrefix(grant, purged, n.qualifications);
    }
  }

  /** When the ATC grant is skipped (rating 8 or 9 outside the division), every
      qualification afterwards was already held, is the previous rating or comes from the
      pilot classifier. */
  lemma {:induction false} AtcGrantSkipped(m: Member, now: int, env: Collaborators, net: Network)
    requires Reconcile(m, now, env, net).Committed?
    requires
      var rec := net.status(m.accountId).record;
      !AtcGrantApplies(rec.rating, Reconcile(m, now, env, net).member.state.value, env.stateDivision)
    ensures
      var rec := net.status(m.accountId).record;
      var prev := net.previous(m.accountId);
      forall q :: q in Reconcile(m, now, env, net).member.qualifications ==>
        || q in m.qualifications
        || q in env.parsePilot(rec.pilotRating)
        || (prev.PreviousRating? && q == env.parseAtc(prev.rating))
  {
    var rec := net.status(m.accountId).record;
    var synced := SyncedMember(m, rec, now, env);
    var n := Reconcile(m, now, env, net).member;
    var pilots := env.parsePilot(rec.pilotRating);
    assert synced.qualifications == m.qualifications;
    match net.previous(m.accountId)
    case NoPreviousRating =>
      assert n.qualifications == AddAll(synced.qualifications, pilots);
    case PreviousRating(p) =>
      var withPrevious := AddQual(synced.qualifications, env.parseAtc(p));
      assert n.qualifications == AddAll(withPrevious, pilots);
  }

  lemma InPrefix<T>(x: T, a: seq<T>, b: seq<T>)
    requires a <= b && x in a
    ensures x in b
  {
    var i :| 0 <= i < |a| && a[i] == x;
    assert b[i] == x;
  }

  /** Which transaction calls a run makes does not depend on the account's stored state. */
  lemma TransactionCallsOfRun(m: Member, now: int, env: Collaborators, net: Network)
    ensures TxTrace(Reconcile(m, now, env, net)) == TransactionCalls(m.accountId, net)
  {
  }

  /** When the previous-rating lookup throws, the catch block rolls the transaction back and
      the statement after it commits anyway; the stored account is the one before the run. */
  lemma CommitFollowsRollback(m: Member, now: int, env: Collaborators, net: Network)
    requires Reconcile(m, now, env, net).RolledBack?
    ensures Applied(m, Reconcile(m, now, env, net)) == m
    ensures TxTrace(Reconcile(m, now, env, net)) == [Begin, Rollback, Commit]
  {
  }

  // ---------------------------------------------------------------------------
  // A second run on an unchanged record
  // ---------------------------------------------------------------------------

  const INS1_QUAL := Qualification(Atc, "I1")
  const C1_QUAL := Qualification(Atc, "C1")

  /** An instructor (rating 8) in the division whose previous rating was 5; the classifier
      maps 8 to I1 and anything else to C1, and there are no pilot ratings. */
  const RERUN_RECORD := FeedRecord(Text("Ann"), Text("Lee"), Text("ann@example.org"), 8, 0, "2001-01-01", "EUR", "GBR")
  const RERUN_NETWORK := Network((id: int) => StatusFetched(RERUN_RECORD), (id: int) => PreviousRating(5))
  const RERUN_ENV := Collaborators((r: int) => if r == 8 then INS1_QUAL else C1_QUAL,
                                   (p: int) => [],
                                   (s: Option<int>, region: string, division: string) => 1,
                                   1, 0)

  /** One run against the example record commits, after adding the ATC grant (I1) and then
      the previous rating (C1) by the rule as written. */
  lemma RerunStep(m: Member, now: int)
    ensures Reconcile(m, now, RERUN_ENV, RERUN_NETWORK).Committed?
    ensures Reconcile(m, now, RERUN_ENV, RERUN_NETWORK).member.qualifications == AddQual(AddQual(m.qualifications, INS1_QUAL), C1_QUAL)
  {
    var synced := SyncedMember(m, RERUN_RECORD, now, RERUN_ENV);
    assert synced.qualifications == AddQual(m.qualifications, INS1_QUAL);
  }

  /** Reconciling twice against the same registry record appends the ATC grant and the
      previous rating again on the second run: each makes the other the latest ATC
      qualification, so neither is the latest of its kind when it is added again. */
  lemma RerunRepeatsQualifications(m: Member, now: int)
    requires m.qualifications == []
    ensures Reconcile(m, now, RERUN_ENV, RERUN_NETWORK).Committed?
    ensures
      var first := Reconcile(m, now, RERUN_ENV, RERUN_NETWORK).member;
      && first.qualifications == [INS1_QUAL, C1_QUAL]
      && Reconcile(first, now, RERUN_ENV, RERUN_NETWORK).Committed?
      && Reconcile(first, now, RERUN_ENV, RERUN_NETWORK).member.qualifications == [INS1_QUAL, C1_QUAL, INS1_QUAL, C1_QUAL]
  {
    RerunStep(m, now);
    assert INS1_QUAL.code[0] != C1_QUAL.code[0];
    AlternatingAdds(INS1_QUAL, C1_QUAL);
    RerunStep(Reconcile(m, now, RERUN_ENV, RERUN_NETWORK).member, now);
  }

  /** Adding two different qualifications of one kind, one after the other, appends both,
      and so does adding them again: each makes the other the latest of their kind. */
  lemma AlternatingAdds(p1: Qualification, p2: Qualification)
    requires p1.kind == p2.kind && p1 != p2
    ensures AddQual(AddQual([], p1), p2) == [p1, p2]
    ensures AddQual(AddQual([p1, p2], p1), p2) == [p1, p2, p1, p2]
  {
    assert [p1, p2][..1] == [p1];
    assert [p1, p2, p1][..2] == [p1, p2];
    assert LatestOfKind([p1], p1.kind) == Some(p1);
    assert LatestOfKind([p1, p2], p1.kind) == Some(p2);
    assert LatestOfKind([p1, p2, p1], p2.kind) == Some(p1);
  }

  /** The same happens to two pilot ratings of one kind: adding the same list again appends
      both once more. */
  lemma PilotRerunRepeats(p1: Qualification, p2: Qualification)
    requires p1.kind == p2.kind && p1 != p2
    ensures AddAll([p1, p2], [p1, p2]) == [p1, p2, p1, p2]
  {
    assert [p1, p2][..1] == [p1];
    assert [p1][..0] == [];
    assert LatestOfKind([p1, p2], p1.kind) == Some(p2);
    assert AddAll([p1, p2], [p1]) == [p1, p2, p1];
    assert LatestOfKind([p1, p2, p1], p2.kind) == Some(p1);
  }

  /** The qualifications a run from the first instructor rating up adds, in order: the ATC
      grant, the previous rating and the pilot ratings. */
  function RunAdditions(env: Collaborators, rating: int, previous: int, pilotRating: int): seq<Qualification> {
    [env.parseAtc(rating), env.parseAtc(previous)] + env.parsePilot(pilotRating)
  }

  /** With the intended "add unless held" rule, the qualifications of a run come out the same
      when the run is repeated on its own result, and the example's first run still stores
      `[I1, C1]`. */
  lemma RerunUnlessHeldAddsNothing(qs: seq<Qualification>, env: Collaborators, rating: int, previous: int, pilotRating: int)
    ensures
      var adds := RunAdditions(env, rating, previous, pilotRating);
      AddAllUnlessHeld(AddAllUnlessHeld(qs, adds), adds) == AddAllUnlessHeld(qs, adds)
    ensures AddAllUnlessHeld([], RunAdditions(RERUN_ENV, 8, 5, 0)) == [INS1_QUAL, C1_QUAL]
  {
    AddAllUnlessHeldIdempotent(qs, RunAdditions(env, rating, previous, pilotRating));
    assert RunAdditions(RERUN_ENV, 8, 5, 0) == [INS1_QUAL, C1_QUAL];
    assert [INS1_QUAL, C1_QUAL][..1] == [INS1_QUAL];
    assert [INS1_QUAL][..0] == [];
    assert AddAllUnlessHeld([], [INS1_QUAL]) == [INS1_QUAL];
    assert INS1_QUAL.code[0] != C1_QUAL.code[0];
  }
}
