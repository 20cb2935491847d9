/** The `Members:CertUpdate` console command: `fire` plans a batch and walks it,
    `processMember` reconciles one account inside a database transaction. */
module CertUpdateCommand {
  import opened Wrappers
  import opened Members
  import opened Planner
  import opened Reconciliation

  /** Accounts below this id are legacy or system accounts and are skipped in batch runs. */
  const MIN_PROCESSED_ACCOUNT_ID := 800000

  /** The options the command signature declares. */
  const DECLARED_OPTIONS: set<string> := {"type", "force"}

  /** The arguments and options of one invocation: the options the console declares for the
      command, and the values given (or defaulted) for them. */
  datatype Invocation = Invocation(maxMembers: int, declared: set<string>, options: map<string, string>)

  /** Reading an option: the console input throws for an option the command does not
      declare, and gives null for a declared option that has no value. */
  datatype OptionRead = Throws | Read(value: Option<string>)

  function ReadOption(input: Invocation, key: string): (r: OptionRead)
    ensures r.Throws? <==> key !in input.declared
    ensures r.Read? ==> (r.value.Some? <==> key in input.options)
    ensures r.Read? && r.value.Some? ==> r.value.value == input.options[key]
  {
    if key !in input.declared then Throws
    else if key in input.options then Read(Some(input.options[key]))
    else Read(None)
  }

  /** How a run of the command ends: it returns, calls `exit` with a status, or lets an
      exception escape. */
  datatype Ending = Returned | Exited(code: int) | Threw

  /** Force mode is keyed on the option `force-update` and entered when its value is a string
      PHP takes as true. */
  function ForceTarget(input: Invocation): (r: Option<string>)
    ensures r.Some? <==>
      "force-update" in input.declared && "force-update" in input.options && !PhpEmptyString(input.options["force-update"])
    ensures r.Some? ==> r.value == input.options["force-update"]
  {
    match ReadOption(input, "force-update")
    case Read(Some(v)) => if PhpEmptyString(v) then None else Some(v)
    case _ => None
  }

  /** When the console declares only the signature's options (`type` and `force`), reading
      `force-update` throws, so the command ends before it plans any batch. */
  lemma UndeclaredForceOptionThrows(input: Invocation)
    requires input.declared == DECLARED_OPTIONS
    ensures ReadOption(input, "force-update") == Throws
    ensures ForceTarget(input) == None
  {
  }

  /** A decimal account id: a key parses exactly when it is a non-empty string of digits. */
  function ParseId(s: string): (r: Option<nat>)
    ensures r.Some? <==> |s| > 0 && forall i :: 0 <= i < |s| ==> '0' <= s[i] <= '9'
  {
    if s == [] then None
    else
      var c := s[|s| - 1];
      if !('0' <= c <= '9') then None
      else if |s| == 1 then Some(c as nat - '0' as nat)
      else match ParseId(s[..|s| - 1])
        case None => None
        case Some(n) => Some(10 * n + (c as nat - '0' as nat))
  }

  /** The decimal digits of `n`, most significant first. */
  function DecimalString(n: nat): (s: string)
    ensures |s| > 0 && forall i :: 0 <= i < |s| ==> '0' <= s[i] <= '9'
  {
    var digit := ('0' as int + n % 10) as char;
    if n < 10 then [digit] else DecimalString(n / 10) + [digit]
  }

  /** A key written as the decimal digits of an id parses to that id. */
  lemma {:induction false} ParseIdOfDecimal(n: nat)
    ensures ParseId(DecimalString(n)) == Some(n)
  {
    if n >= 10 {
      var s := DecimalString(n);
      assert s[..|s| - 1] == DecimalString(n / 10);
      ParseIdOfDecimal(n / 10);
    }
  }

  /** A leading zero does not change the id a key names. */
  lemma {:induction false} ParseIdLeadingZero(s: string)
    requires |s| > 0 && forall i :: 0 <= i < |s| ==> '0' <= s[i] <= '9'
    ensures ParseId("0" + s) == ParseId(s)
  {
    var t := "0" + s;
    if |s| == 1 {
      assert t[..1] == "0";
    } else {
      assert t[..|t| - 1] == "0" + s[..|s| - 1];
      ParseIdLeadingZero(s[..|s| - 1]);
    }
  }

  /** `Account::findOrFail`: the first account, not deleted, whose id is the given key. */
  function FindOrFail(table: seq<Account>, key: string): (r: Option<Account>)
    reads table
    ensures r.Some? ==> r.value in table && !r.value.deleted && ParseId(key) == Some(r.value.accountId)
    ensures r.None? ==> ParseId(key).None? || forall a :: a in table ==> a.deleted || a.accountId != ParseId(key).value
  {
    match ParseId(key)
    case None => None
    case Some(id) => FirstWithId(table, id)
  }

  function FirstWithId(table: seq<Account>, id: int): (r: Option<Account>)
    reads table
    ensures r.Some? ==> r.value in table && !r.value.deleted && r.value.accountId == id
    ensures r.None? ==> forall a :: a in table ==> a.deleted || a.accountId != id
  {
    if table == [] then None
    else if table[0].accountId == id && !table[0].deleted then Some(table[0])
    else
      var rest := FirstWithId(table[1..], id);
      assert forall a :: a in table ==> a == table[0] || a in table[1..];
      rest
  }

  /** Whether `fire` hands this account to `processMember`: always in force mode, otherwise
      only from the first non-legacy id. */
  predicate IsProcessed(a: Account, forced: bool) {
    forced || a.accountId >= MIN_PROCESSED_ACCOUNT_ID
  }

  function Snapshots(s: seq<Account>): (r: seq<Member>)
    reads s
    ensures |r| == |s|
    ensures forall i :: 0 <= i < |s| ==> r[i] == s[i].Snapshot()
  {
    if s == [] then [] else Snapshots(s[..|s| - 1]) + [s[|s| - 1].Snapshot()]
  }

  /** The row of one batch member after `fire` has visited it. */
  function Visited(m: Member, forced: bool, now: int, env: Collaborators, net: Network): Member {
    if forced || m.accountId >= MIN_PROCESSED_ACCOUNT_ID then Applied(m, Reconcile(m, now, env, net)) else m
  }

  /** The rows of a whole batch after `fire` has visited them. */
  function VisitedAll(ms: seq<Member>, forced: bool, now: int, env: Collaborators, net: Network): (r: seq<Member>)
    ensures |r| == |ms|
    ensures VisitsTo(ms, r, forced, now, env, net)
  {
    if ms == [] then [] else VisitedAll(ms[..|ms| - 1], forced, now, env, net) + [Visited(ms[|ms| - 1], forced, now, env, net)]
  }

  /** `after` lists, row by row, what visiting each row of `before` yields. */
  ghost predicate VisitsTo(before: seq<Member>, after: seq<Member>, forced: bool, now: int, env: Collaborators, net: Network) {
    && |after| == |before|
    && forall j {:trigger Visited(before[j], forced, now, env, net)} :: 0 <= j < |before| ==>
         after[j] == Visited(before[j], forced, now, env, net)
  }

  lemma SnapshotsOf(s: seq<Account>, rows: seq<Member>)
    requires |rows| == |s|
    requires forall j :: 0 <= j < |s| ==> s[j].Snapshot() == rows[j]
    ensures Snapshots(s) == rows
  {
  }

  /** Outside force mode a legacy account is left exactly as it was and makes no transaction calls. */
  lemma LegacyAccountSkipped(a: Account, now: int, env: Collaborators, net: Network)
    requires a.accountId < MIN_PROCESSED_ACCOUNT_ID
    ensures Visited(a.Snapshot(), false, now, env, net) == a.Snapshot()
    ensures VisitTrace(a, false, net) == []
  {
  }

  /** The transaction calls made while visiting one batch member. */
  function VisitTrace(a: Account, forced: bool, net: Network): seq<TxEvent> {
    if IsProcessed(a, forced) then TransactionCalls(a.accountId, net) else []
  }

  /** The transaction calls made by visiting the first `n` members of a batch. */
  function BatchTrace(batch: seq<Account>, n: nat, forced: bool, net: Network): seq<TxEvent>
    requires n <= |batch|
  {
    if n == 0 then [] else BatchTrace(batch, n - 1, forced, net) + VisitTrace(batch[n - 1], forced, net)
  }

  class MembersCertUpdate {
    /** The transaction calls made so far on the database connection. */
    var txLog: seq<TxEvent>

    constructor ()
      ensures txLog == []
    {
      txLog := [];
    }

    /** `fire`: reading an option the console does not declare throws, and so does taking the
        first character of an empty `type` value. In force mode, look the account up and
        process it alone (exit status 1 when it is missing, 0 otherwise); else plan the tier's
        batch and process its non-legacy rows. `batch` is the list of accounts the run walked. */
    method Fire(table: seq<Account>, input: Invocation, clock: Clock, env: Collaborators, net: Network)
        returns (ending: Ending, batch: seq<Account>, forced: bool)
      requires Distinct(table)
      modifies this, set a | a in table
      ensures forced <==> ForceTarget(input).Some?
      ensures ReadOption(input, "force-update").Throws? ==> ending == Threw && batch == []
      ensures forced ==>
        var found := old(FindOrFail(table, ForceTarget(input).value));
        (found.None? ==> ending == Exited(1) && batch == []) &&
        (found.Some? ==> ending == Exited(0) && batch == [found.value])
      ensures ReadOption(input, "force-update").Read? && !forced ==>
        var typeOption := ReadOption(input, "type");
        (typeOption.Throws? ==> ending == Threw && batch == []) &&
        (typeOption.Read? && TierOf(typeOption.value).None? ==> ending == Threw && batch == []) &&
        (typeOption.Read? && TierOf(typeOption.value).Some? ==>
          ending == Returned &&
          batch == old(Plan(table, TierOf(typeOption.value).value, clock, ClampBatchSize(input.maxMembers))))
      ensures forall a :: a in batch ==> a in table
      ensures VisitsTo(old(Snapshots(batch)), Snapshots(batch), forced, clock.now, env, net)
      ensures forall a :: a in table && a !in batch ==> unchanged(a)
      ensures txLog == old(txLog) + BatchTrace(batch, |batch|, forced, net)
    {
      forced := false;
      var forceOption := ReadOption(input, "force-update");
      if forceOption.Throws? {
        return Threw, [], false;
      }
      var target := ForceTarget(input);
      if target.Some? {
        forced := true;
        match FindOrFail(table, target.value)
        case None =>
          return Exited(1), [], true;
        case Some(a) =>
          ending, batch := Exited(0), [a];
      } else {
        var typeOption := ReadOption(input, "type");
        if typeOption.Throws? {
          return Threw, [], false;
        }
        var tier := TierOf(typeOption.value);
        if tier.None? {
          return Threw, [], false;
        }
        ending := Returned;
        batch := Plan(table, tier.value, clock, ClampBatchSize(input.maxMembers));
      }
      ghost var before := Snapshots(batch);
      ghost var after := VisitedAll(before, forced, clock.now, env, net);
      ProcessBatch(batch, forced, clock.now, env, net, before, after);
      SnapshotsOf(batch, after);
    }

    /** The `foreach` over the fetched rows; outside force mode it skips legacy ids. The rows
        before the run are `before`, and `after` holds what visiting each of them yields. */
    method ProcessBatch(batch: seq<Account>, forced: bool, now: int, env: Collaborators, net: Network,
                        ghost before: seq<Member>, ghost after: seq<Member>)
      requires Distinct(batch) && |before| == |batch|
      requires forall j :: 0 <= j < |batch| ==> batch[j].Snapshot() == before[j]
      requires VisitsTo(before, after, forced, now, env, net)
      modifies this, set a | a in batch
      ensures forall j :: 0 <= j < |batch| ==> batch[j].Snapshot() == after[j]
      ensures txLog == old(txLog) + BatchTrace(batch, |batch|, forced, net)
    {
      ghost var log := txLog;
      var i := 0;
      while i < |batch|
        invariant 0 <= i <= |batch|
        invariant forall j :: 0 <= j < i ==> batch[j].Snapshot() == after[j]
        invariant forall j :: i <= j < |batch| ==> batch[j].Snapshot() == before[j]
        invariant txLog == log + BatchTrace(batch, i, forced, net)
      {
        VisitAt(batch, i, before, after, log, forced, now, env, net);
        i := i + 1;
      }
    }

    /** One iteration of the batch loop: only the `i`-th row changes, and its transaction
        calls follow those of the rows before it. */
    method VisitAt(batch: seq<Account>, i: nat, ghost before: seq<Member>, ghost after: seq<Member>,
                   ghost log: seq<TxEvent>, forced: bool, now: int, env: Collaborators, net: Network)
      requires Distinct(batch) && i < |batch| == |before|
      requires VisitsTo(before, after, forced, now, env, net)
      requires forall j :: 0 <= j < i ==> batch[j].Snapshot() == after[j]
      requires forall j :: i <= j < |batch| ==> batch[j].Snapshot() == before[j]
      requires txLog == log + BatchTrace(batch, i, forced, net)
      modifies this, batch[i]
      ensures forall j :: 0 <= j <= i ==> batch[j].Snapshot() == after[j]
      ensures forall j :: i < j < |batch| ==> batch[j].Snapshot() == before[j]
      ensures txLog == log + BatchTrace(batch, i + 1, forced, net)
    {
      assert forall j :: 0 <= j < |batch| && j != i ==> batch[j] != batch[i];
      assert after[i] == Visited(before[i], forced, now, env, net);
      AppendAssociates(log, BatchTrace(batch, i, forced, net), VisitTrace(batch[i], forced, net));
      Visit(batch[i], forced, now, env, net);
    }

    /** One pass of the `foreach`: legacy ids are skipped unless forced. */
    method Visit(m: Account, forced: bool, now: int, env: Collaborators, net: Network)
      modifies this, m
      ensures m.Snapshot() == Visited(old(m.Snapshot()), forced, now, env, net)
      ensures txLog == old(txLog) + VisitTrace(m, forced, net)
    {
      if IsProcessed(m, forced) {
        var outcome := ProcessMember(m, now, env, net);
        TransactionCallsOfRun(old(m.Snapshot()), now, env, net);
      }
    }

    /** `processMember`: fetch the registry record, delete the account if the registry no
        longer knows it, otherwise apply every update inside one transaction. */
    method ProcessMember(m: Account, now: int, env: Collaborators, net: Network) returns (outcome: ProcessResult)
      modifies this, m
      ensures outcome == Reconcile(old(m.Snapshot()), now, env, net)
      ensures m.Snapshot() == Applied(old(m.Snapshot()), outcome)
      ensures txLog == old(txLog) + TxTrace(outcome)
    {
      var fetched := net.status(m.accountId);
      if fetched.StatusFetchFailed? {
        return FetchFailed;
      }
      var rec := fetched.record;
      if IsDeletionSentinel(rec) {
        m.deleted := true;
        return Deleted;
      }

      txLog := txLog + [Begin];
      var saved := m.Snapshot();
      SyncMember(m, rec, now, env);
      var failed := UpdateQualifications(m, rec, env, net);

      if failed {
        txLog := txLog + [Rollback];
        m.Restore(saved);
        outcome := RolledBack;
      } else {
        outcome := Committed(m.Snapshot());
      }
      txLog := txLog + [Commit];
    }

    /** The updates inside the transaction up to the ATC grant: names, check time, activity,
        network ban, registration date, state and ATC rating. */
    method SyncMember(m: Account, rec: FeedRecord, now: int, env: Collaborators)
      modifies m
      ensures m.Snapshot() == SyncedMember(old(m.Snapshot()), rec, now, env)
    {
      SyncNames(m, rec, now);
      SyncNetworkBan(m, rec.rating, now, env.systemAccount);
      SyncPlacement(m, rec, env);
      GrantAtcRating(m, rec.rating, env);
    }

    /** Names are overwritten only by non-empty strings; the check time and the activity flag always. */
    method SyncNames(m: Account, rec: FeedRecord, now: int)
      modifies m
      ensures m.Snapshot() == SyncedNames(old(m.Snapshot()), rec, now)
    {
      if rec.nameFirst.Text? && !PhpEmptyString(rec.nameFirst.s) {
        m.nameFirst := rec.nameFirst.s;
      }
      if rec.nameLast.Text? && !PhpEmptyString(rec.nameLast.s) {
        m.nameLast := rec.nameLast.s;
      }
      m.certCheckedAt := Some(now);
      m.isInactive := rec.rating < 0;
    }

    /** Opens a network ban for the suspended rating, closes the running one for a positive rating. */
    method SyncNetworkBan(m: Account, rating: int, now: int, instigator: int)
      modifies m`bans
      ensures m.Snapshot() == WithNetworkBan(old(m.Snapshot()), rating, now, instigator)
    {
      if rating == RATING_SUSPENDED && !IsNetworkBanned(m.bans) {
        m.bans := m.bans + [NewNetworkBan(now, instigator)];
      }
      if IsNetworkBanned(m.bans) && rating > 0 {
        var k := NetworkBanAt(m.bans).value;
        m.bans := m.bans[k := m.bans[k].(periodFinish := Some(now))];
      }
    }

    /** Registration date, then the state the state-determination rule gives. */
    method SyncPlacement(m: Account, rec: FeedRecord, env: Collaborators)
      modifies m`joinedAt, m`state
      ensures m.Snapshot() == Placed(old(m.Snapshot()), rec, env)
    {
      if m.joinedAt != rec.regdate {
        m.joinedAt := rec.regdate;
      }
      m.state := Some(env.determineState(m.state, rec.region, rec.division));
    }

    /** Adds the classified ATC rating unless it is an instructor rating outside the division. */
    method GrantAtcRating(m: Account, rating: int, env: Collaborators)
      modifies m`qualifications
      ensures m.Snapshot() == WithAtcGrant(old(m.Snapshot()), rating, env)
    {
      if m.state.Some? && AtcGrantApplies(rating, m.state.value, env.stateDivision) {
        var _ := m.AddQualification(env.parseAtc(rating));
      }
    }

    /** The previous-rating lookup or the downgrade purge, then the pilot ratings; `failed`
        when the lookup throws, which happens before any qualification changes. */
    method UpdateQualifications(m: Account, rec: FeedRecord, env: Collaborators, net: Network) returns (failed: bool)
      modifies m`qualifications
      ensures failed <==> QualificationsUpdated(old(m.Snapshot()), rec, env, net).None?
      ensures !failed ==> m.Snapshot() == QualificationsUpdated(old(m.Snapshot()), rec, env, net).value
    {
      failed := false;
      if rec.rating >= RATING_INS1 {
        match net.previous(m.accountId)
        case PreviousFetchFailed =>
          return true;
        case NoPreviousRating =>
        case PreviousRating(p) =>
          var _ := m.AddQualification(env.parseAtc(p));
      } else {
        m.DeleteQualificationsOfKind(AtcTraining);
        m.DeleteQualificationsOfKind(PilotTraining);
        m.DeleteQualificationsOfKind(Admin);
      }
      AddPilotQualifications(m, env.parsePilot(rec.pilotRating));
    }

    /** The loop over the pilot classifier's qualifications. */
    method AddPilotQualifications(m: Account, pilots: seq<Qualification>)
      modifies m`qualifications
      ensures m.qualifications == AddAll(old(m.qualifications), pilots)
    {
      var i := 0;
      while i < |pilots|
        invariant 0 <= i <= |pilots|
        invariant m.qualifications == AddAll(old(m.qualifications), pilots[..i])
      {
        AddAllStep(old(m.qualifications), pilots, i);
        var _ := m.AddQualification(pilots[i]);
        i := i + 1;
      }
      assert pilots[..|pilots|] == pilots;
    }
  }
}
