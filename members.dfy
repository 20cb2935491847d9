/** Member accounts as the certificate-reconciliation job sees them: names, timestamps,
    affiliation state, qualifications (kept in creation order) and bans. */
module Members {
  import opened Wrappers

  // ---------------------------------------------------------------------------
  // Qualifications
  // ---------------------------------------------------------------------------

  /** The kinds of qualification an account can hold. */
  datatype QualKind = Atc | AtcTraining | Pilot | PilotTraining | Admin

  datatype Qualification = Qualification(kind: QualKind, code: string)

  /** The most recently created qualification of kind `k`; `qs` is in creation order. */
  function LatestOfKind(qs: seq<Qualification>, k: QualKind): (r: Option<Qualification>)
    ensures r.Some? ==> r.value in qs && r.value.kind == k
    ensures r.None? <==> forall q :: q in qs ==> q.kind != k
  {
    if qs == [] then None
    else if qs[|qs| - 1].kind == k then Some(qs[|qs| - 1])
    else LatestOfKind(qs[..|qs| - 1], k)
  }

  /** The latest qualification of a kind is the last one of that kind: nothing created after
      it has that kind. */
  lemma {:induction false} LatestOfKindIsLast(qs: seq<Qualification>, k: QualKind)
    ensures LatestOfKind(qs, k).Some? ==>
      exists i :: 0 <= i < |qs| && qs[i] == LatestOfKind(qs, k).value && forall j :: i < j < |qs| ==> qs[j].kind != k
  {
    if qs == [] {
    } else if qs[|qs| - 1].kind == k {
      var i := |qs| - 1;
      assert qs[i] == LatestOfKind(qs, k).value;
    } else {
      var init := qs[..|qs| - 1];
      assert LatestOfKind(qs, k) == LatestOfKind(init, k);
      LatestOfKindIsLast(init, k);
      if LatestOfKind(init, k).Some? {
        var i :| 0 <= i < |init| && init[i] == LatestOfKind(init, k).value && forall j :: i < j < |init| ==> init[j].kind != k;
        assert qs[i] == init[i];
        assert forall j :: i < j < |qs| ==> qs[j].kind != k by {
          forall j | i < j < |qs| ensures qs[j].kind != k {
            if j < |init| { assert qs[j] == init[j]; }
          }
        }
      }
    }
  }

  /** `Account::addQualification`: the qualification is attached unless it already is the
      latest one of its kind, so adding the same qualification twice in a row adds it once. */
  function AddQual(qs: seq<Qualification>, q: Qualification): (r: seq<Qualification>)
    ensures r == qs || r == qs + [q]
    ensures r == qs <==> LatestOfKind(qs, q.kind) == Some(q)
    ensures LatestOfKind(r, q.kind) == Some(q)
  {
    if LatestOfKind(qs, q.kind) == Some(q) then qs else qs + [q]
  }

  /** Adds each of `ps`, in order, with `AddQual`. */
  function AddAll(qs: seq<Qualification>, ps: seq<Qualification>): (r: seq<Qualification>)
    ensures qs <= r
    ensures forall p :: p in ps ==> p in r
    ensures forall q :: q in r ==> q in qs || q in ps
    decreases |ps|
  {
    if ps == [] then qs
    else
      var prefix := ps[..|ps| - 1];
      var rest := AddAll(qs, prefix);
      assert forall p :: p in ps ==> p in prefix || p == ps[|ps| - 1];
      AddQual(rest, ps[|ps| - 1])
  }

  lemma AddAllStep(qs: seq<Qualification>, ps: seq<Qualification>, i: nat)
    requires i < |ps|
    ensures AddAll(qs, ps[..i + 1]) == AddQual(AddAll(qs, ps[..i]), ps[i])
  {
    assert ps[..i + 1][..i] == ps[..i];
  }

  /** Deletes every qualification of kind `k`, keeping the others in order. */
  function RemoveKind(qs: seq<Qualification>, k: QualKind): (r: seq<Qualification>)
    ensures forall q :: q in r <==> q in qs && q.kind != k
    ensures |r| <= |qs|
  {
    if qs == [] then []
    else
      var init := qs[..|qs| - 1];
      assert forall q :: q in qs <==> q in init || q == qs[|qs| - 1];
      RemoveKind(init, k) + (if qs[|qs| - 1].kind == k then [] else [qs[|qs| - 1]])
  }

  /** Deleting a kind drops every copy of that kind and keeps every copy of the others. */
  lemma {:induction false} RemoveKindCounts(qs: seq<Qualification>, k: QualKind, q: Qualification)
    ensures multiset(RemoveKind(qs, k))[q] == if q.kind == k then 0 else multiset(qs)[q]
  {
    if qs != [] {
      var init := qs[..|qs| - 1];
      assert qs == init + [qs[|qs| - 1]];
      RemoveKindCounts(init, k, q);
    }
  }

  /** Deleting a kind works element by element, so the kept qualifications keep their order. */
  lemma {:induction false} RemoveKindDistributes(a: seq<Qualification>, b: seq<Qualification>, k: QualKind)
    ensures RemoveKind(a + b, k) == RemoveKind(a, k) + RemoveKind(b, k)
    decreases |b|
  {
    if b == [] {
      assert a + b == a;
    } else {
      var init, last := b[..|b| - 1], b[|b| - 1];
      var tail := if last.kind == k then [] else [last];
      DropLastOfAppend(a, b);
      assert RemoveKind(a + b, k) == RemoveKind(a + init, k) + tail;
      assert RemoveKind(b, k) == RemoveKind(init, k) + tail;
      RemoveKindDistributes(a, init, k);
      AppendAssociates(RemoveKind(a, k), RemoveKind(init, k), tail);
    }
  }

  /** Dropping the last element of `a + b`, with `b` non-empty, drops it from `b`. */
  lemma DropLastOfAppend<T>(a: seq<T>, b: seq<T>)
    requires |b| > 0
    ensures (a + b)[..|a + b| - 1] == a + b[..|b| - 1]
    ensures (a + b)[|a + b| - 1] == b[|b| - 1]
  {
    assert (a + b)[..|a + b| - 1] == a + b[..|b| - 1];
  }

  /** Sequence concatenation is associative. */
  lemma AppendAssociates<T>(a: seq<T>, b: seq<T>, c: seq<T>)
    ensures (a + b) + c == a + (b + c)
  {
  }

  /** The intended `addQualification`: attach the qualification unless the account already
      holds it, whatever was created since. */
  function AddQualUnlessHeld(qs: seq<Qualification>, q: Qualification): (r: seq<Qualification>)
    ensures q in r
    ensures q in qs <==> r == qs
    ensures q !in qs ==> r == qs + [q]
  {
    if q in qs then qs else qs + [q]
  }

  /** Adds each of `ps`, in order, with `AddQualUnlessHeld`. */
  function AddAllUnlessHeld(qs: seq<Qualification>, ps: seq<Qualification>): (r: seq<Qualification>)
    ensures qs <= r
    ensures forall q :: q in r <==> q in qs || q in ps
    decreases |ps|
  {
    if ps == [] then qs
    else
      var prefix := ps[..|ps| - 1];
      assert forall p :: p in ps <==> p in prefix || p == ps[|ps| - 1];
      AddQualUnlessHeld(AddAllUnlessHeld(qs, prefix), ps[|ps| - 1])
  }

  /** Once every qualification of `ps` is held, adding them again changes nothing. */
  lemma {:induction false} AddAllUnlessHeldKeepsHeld(qs: seq<Qualification>, ps: seq<Qualification>)
    requires forall p :: p in ps ==> p in qs
    ensures AddAllUnlessHeld(qs, ps) == qs
    decreases |ps|
  {
    if ps != [] {
      var prefix := ps[..|ps| - 1];
      assert forall p :: p in prefix ==> p in ps;
      AddAllUnlessHeldKeepsHeld(qs, prefix);
    }
  }

  /** With the intended rule a second pass over the same qualifications adds nothing, and it
      holds exactly what the rule as written holds: the two differ only in repeated rows. */
  lemma AddAllUnlessHeldIdempotent(qs: seq<Qualification>, ps: seq<Qualification>)
    ensures AddAllUnlessHeld(AddAllUnlessHeld(qs, ps), ps) == AddAllUnlessHeld(qs, ps)
    ensures forall q :: q in AddAllUnlessHeld(qs, ps) <==> q in AddAll(qs, ps)
  {
    AddAllUnlessHeldKeepsHeld(AddAllUnlessHeld(qs, ps), ps);
  }

  // ---------------------------------------------------------------------------
  // Bans
  // ---------------------------------------------------------------------------

  datatype BanType = NetworkBan | LocalBan

  /** A ban; `periodFinish == None` means the ban is still running. */
  datatype Ban = Ban(banType: BanType, reasonExtra: string, periodStart: int,
                     periodFinish: Option<int>, instigator: int)

  predicate IsActiveNetworkBan(b: Ban) {
    b.banType == NetworkBan && b.periodFinish.None?
  }

  /** `Account::network_ban`: the position of the first running network ban, if any. */
  function NetworkBanAt(bans: seq<Ban>): (r: Option<nat>)
    ensures r.Some? ==> r.value < |bans| && IsActiveNetworkBan(bans[r.value])
  {
    FirstActiveFrom(bans, 0)
  }

  function FirstActiveFrom(bans: seq<Ban>, from: nat): (r: Option<nat>)
    requires from <= |bans|
    ensures r.Some? ==> from <= r.value < |bans| && IsActiveNetworkBan(bans[r.value])
    decreases |bans| - from
  {
    if from == |bans| then None
    else if IsActiveNetworkBan(bans[from]) then Some(from)
    else FirstActiveFrom(bans, from + 1)
  }

  /** The search finds the first running network ban, and finds none only when none runs. */
  lemma {:induction false} FirstActiveFromIsFirst(bans: seq<Ban>, from: nat)
    requires from <= |bans|
    ensures FirstActiveFrom(bans, from).Some? ==>
      forall j :: from <= j < FirstActiveFrom(bans, from).value ==> !IsActiveNetworkBan(bans[j])
    ensures FirstActiveFrom(bans, from).None? ==>
      forall j :: from <= j < |bans| ==> !IsActiveNetworkBan(bans[j])
    decreases |bans| - from
  {
    if from < |bans| && !IsActiveNetworkBan(bans[from]) {
      FirstActiveFromIsFirst(bans, from + 1);
    }
  }

  lemma NetworkBanAtIsFirst(bans: seq<Ban>)
    ensures NetworkBanAt(bans).Some? ==>
      forall j :: 0 <= j < NetworkBanAt(bans).value ==> !IsActiveNetworkBan(bans[j])
    ensures NetworkBanAt(bans).None? ==> forall j :: 0 <= j < |bans| ==> !IsActiveNetworkBan(bans[j])
  {
    FirstActiveFromIsFirst(bans, 0);
  }

  /** `Account::is_network_banned`: some network ban of the account is still running. */
  predicate IsNetworkBanned(bans: seq<Ban>) {
    NetworkBanAt(bans).Some?
  }

  /** The number of running network bans. */
  function ActiveNetworkBans(bans: seq<Ban>): nat {
    if bans == [] then 0
    else ActiveNetworkBans(bans[..|bans| - 1]) + (if IsActiveNetworkBan(bans[|bans| - 1]) then 1 else 0)
  }

  /** Some network ban is running exactly when the count of running ones is positive. */
  lemma {:induction false} ActiveNetworkBansPositive(bans: seq<Ban>)
    ensures ActiveNetworkBans(bans) > 0 <==> IsNetworkBanned(bans)
  {
    if bans != [] {
      var init := bans[..|bans| - 1];
      ActiveNetworkBansPositive(init);
      NetworkBanAtIsFirst(init);
      NetworkBanAtIsFirst(bans);
      if IsNetworkBanned(init) {
        assert bans[NetworkBanAt(init).value] == init[NetworkBanAt(init).value];
      }
      if IsNetworkBanned(bans) && !IsActiveNetworkBan(bans[|bans| - 1]) {
        var i := NetworkBanAt(bans).value;
        assert init[i] == bans[i];
      }
    }
  }

  lemma ActiveNetworkBansAppend(bans: seq<Ban>, b: Ban)
    ensures ActiveNetworkBans(bans + [b]) == ActiveNetworkBans(bans) + (if IsActiveNetworkBan(b) then 1 else 0)
  {
    assert (bans + [b])[..|bans|] == bans;
  }

  /** Replacing one ban changes the count by what the old and the new ban contribute. */
  lemma {:induction false} ActiveNetworkBansUpdate(bans: seq<Ban>, k: nat, b: Ban)
    requires k < |bans|
    ensures ActiveNetworkBans(bans[k := b])
         == ActiveNetworkBans(bans) - (if IsActiveNetworkBan(bans[k]) then 1 else 0)
                                    + (if IsActiveNetworkBan(b) then 1 else 0)
    decreases |bans|
  {
    var n := |bans| - 1;
    var upd := bans[k := b];
    if k == n {
      assert upd[..n] == bans[..n];
    } else {
      assert upd[..n] == bans[..n][k := b];
      ActiveNetworkBansUpdate(bans[..n], k, b);
    }
  }

  // ---------------------------------------------------------------------------
  // Accounts
  // ---------------------------------------------------------------------------

  /** A snapshot of everything the job reads or writes on one account. */
  datatype Member = Member(
    accountId: int,
    nameFirst: string,
    nameLast: string,
    lastLogin: Option<int>,
    certCheckedAt: Option<int>,
    status: int,
    isInactive: bool,
    joinedAt: string,
    state: Option<int>,
    qualifications: seq<Qualification>,
    bans: seq<Ban>,
    deleted: bool)

  /** `App\Models\Mship\Account`, one row of the accounts table together with its
      qualifications and bans. */
  class Account {
    const accountId: int
    var nameFirst: string
    var nameLast: string
    var lastLogin: Option<int>
    var certCheckedAt: Option<int>
    var status: int
    var isInactive: bool
    var joinedAt: string
    var state: Option<int>
    var qualifications: seq<Qualification>
    var bans: seq<Ban>
    var deleted: bool

    constructor (m: Member)
      ensures Snapshot() == m
    {
      accountId := m.accountId;
      nameFirst, nameLast := m.nameFirst, m.nameLast;
      lastLogin, certCheckedAt := m.lastLogin, m.certCheckedAt;
      status, isInactive := m.status, m.isInactive;
      joinedAt, state := m.joinedAt, m.state;
      qualifications, bans := m.qualifications, m.bans;
      deleted := m.deleted;
    }

    function Snapshot(): Member
      reads this
    {
      Member(accountId, nameFirst, nameLast, lastLogin, certCheckedAt, status, isInactive,
             joinedAt, state, qualifications, bans, deleted)
    }

    /** Puts back a snapshot taken earlier: what a database rollback does to the row. */
    method Restore(m: Member)
      requires m.accountId == accountId
      modifies this
      ensures Snapshot() == m
    {
      nameFirst, nameLast := m.nameFirst, m.nameLast;
      lastLogin, certCheckedAt := m.lastLogin, m.certCheckedAt;
      status, isInactive := m.status, m.isInactive;
      joinedAt, state := m.joinedAt, m.state;
      qualifications, bans := m.qualifications, m.bans;
      deleted := m.deleted;
    }

    /** `Account::addQualification`; `added` says whether a qualification was attached. */
    method AddQualification(q: Qualification) returns (added: bool)
      modifies this`qualifications
      ensures qualifications == AddQual(old(qualifications), q)
      ensures added <==> |qualifications| == |old(qualifications)| + 1
    {
      added := LatestOfKind(qualifications, q.kind) != Some(q);
      if added {
        qualifications := qualifications + [q];
      }
    }

    /** Deletes, one by one, every qualification of kind `k`. */
    method DeleteQualificationsOfKind(k: QualKind)
      modifies this`qualifications
      ensures qualifications == RemoveKind(old(qualifications), k)
    {
      var all := qualifications;
      var kept: seq<Qualification> := [];
      var i := 0;
      while i < |all|
        invariant 0 <= i <= |all|
        invariant kept == RemoveKind(all[..i], k)
      {
        assert all[..i + 1][..i] == all[..i];
        if all[i].kind != k {
          kept := kept + [all[i]];
        }
        i := i + 1;
      }
      assert all[..|all|] == all;
      qualifications := kept;
    }
  }
}
