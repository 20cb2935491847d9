/** Batch planning of `Members:CertUpdate`: the clamp on the batch size, the tier that picks
    which accounts are due, and the query that orders them by staleness and keeps the first ones. */
module Planner {
  import opened Wrappers
  import opened Members

  /** Hard ceiling on the number of accounts loaded in one run. */
  const MAX_BATCH_SIZE := 10000

  const SECONDS_PER_HOUR := 60 * 60
  const SECONDS_PER_DAY := 24 * SECONDS_PER_HOUR

  /** How long ago an account must have been checked to be due in each tier. */
  const DAILY_RECHECK_AGE := 23 * SECONDS_PER_HOUR
  const WEEKLY_RECHECK_AGE := 6 * SECONDS_PER_DAY
  const MONTHLY_RECHECK_AGE := 25 * SECONDS_PER_DAY

  datatype Tier = Hourly | Daily | Weekly | Monthly | Full

  /** The moment the run starts, with the calendar cut-offs the source computes from it
      (one, three and six months back); timestamps are seconds. */
  datatype Clock = Clock(now: int, oneMonthAgo: int, threeMonthsAgo: int, sixMonthsAgo: int)

  /** The `max_members` argument clamped to the hard ceiling. */
  function ClampBatchSize(requested: int): (n: int)
    ensures n <= MAX_BATCH_SIZE && n <= requested
    ensures n == requested || n == MAX_BATCH_SIZE
  {
    if requested > MAX_BATCH_SIZE then MAX_BATCH_SIZE else requested
  }

  /** The tier is chosen by the first character of the `type` option, case-sensitively;
      anything else (including the default "all", or no value) runs the full tier. Taking the
      first character of an empty value raises an "uninitialized string offset" error, which
      the framework turns into an exception: there is no tier then. */
  function TierOf(typeOption: Option<string>): (r: Option<Tier>)
    ensures r.None? <==> typeOption == Some("")
    ensures r.Some? ==> (r.value != Full <==>
      typeOption.Some? && typeOption.value[0] in ['h', 'd', 'w', 'm'])
    ensures typeOption.Some? && |typeOption.value| > 0 ==>
      var c := typeOption.value[0];
      && (c == 'h' ==> r == Some(Hourly))
      && (c == 'd' ==> r == Some(Daily))
      && (c == 'w' ==> r == Some(Weekly))
      && (c == 'm' ==> r == Some(Monthly))
  {
    if typeOption.None? then Some(Full)
    else if |typeOption.value| == 0 then None
    else
      var c := typeOption.value[0];
      if c == 'h' then Some(Hourly)
      else if c == 'd' then Some(Daily)
      else if c == 'w' then Some(Weekly)
      else if c == 'm' then Some(Monthly)
      else Some(Full)
  }

  /** Only the lower-case initial picks a tier: "Hourly", "Daily", "Weekly" and "Monthly", as the
      option's help text spells them, all run the full tier. */
  lemma CapitalisedTypeRunsFullTier(typeOption: Option<string>)
    requires typeOption.Some? && |typeOption.value| > 0 && 'A' <= typeOption.value[0] <= 'Z'
    ensures TierOf(typeOption) == Some(Full)
  {
  }

  /** SQL `column <= bound`: a NULL column never satisfies it. */
  predicate NotAfter(t: Option<int>, bound: int) {
    t.Some? && t.value <= bound
  }

  /** SQL `column >= bound`: a NULL column never satisfies it. */
  predicate NotBefore(t: Option<int>, bound: int) {
    t.Some? && t.value >= bound
  }

  /** The `where` clauses each tier adds to the query. */
  predicate MatchesTier(tier: Tier, lastLogin: Option<int>, certCheckedAt: Option<int>, status: int, clock: Clock) {
    match tier
    case Hourly => NotBefore(lastLogin, clock.oneMonthAgo) || certCheckedAt.None?
    case Daily => NotAfter(certCheckedAt, clock.now - DAILY_RECHECK_AGE) && NotBefore(lastLogin, clock.threeMonthsAgo)
    case Weekly => NotAfter(certCheckedAt, clock.now - WEEKLY_RECHECK_AGE) && NotBefore(lastLogin, clock.sixMonthsAgo)
    case Monthly => NotAfter(certCheckedAt, clock.now - MONTHLY_RECHECK_AGE) && lastLogin.None? && status == 0
    case Full => true
  }

  /** A row the query returns: not deleted, and matching the tier's clauses. */
  predicate Selected(a: Account, tier: Tier, clock: Clock)
    reads a
  {
    !a.deleted && MatchesTier(tier, a.lastLogin, a.certCheckedAt, a.status, clock)
  }

  predicate Distinct<T(==)>(s: seq<T>) {
    forall i, j :: 0 <= i < j < |s| ==> s[i] != s[j]
  }

  /** The rows the tier's `where` clauses let through, in table order. */
  function Filter(table: seq<Account>, tier: Tier, clock: Clock): (r: seq<Account>)
    reads table
    ensures forall a :: a in r ==> a in table && Selected(a, tier, clock)
    ensures forall a :: a in table && Selected(a, tier, clock) ==> a in r
    ensures tier == Full && (forall a :: a in table ==> !a.deleted) ==> r == table
  {
    if table == [] then []
    else
      var init := table[..|table| - 1];
      var last := table[|table| - 1];
      assert forall a :: a in table ==> a in init || a == last;
      Filter(init, tier, clock) + (if Selected(last, tier, clock) then [last] else [])
  }

  /** Filtering never duplicates a row. */
  lemma {:induction false} FilterKeepsDistinct(table: seq<Account>, tier: Tier, clock: Clock)
    requires Distinct(table)
    ensures Distinct(Filter(table, tier, clock))
  {
    if table != [] {
      var init := table[..|table| - 1];
      var last := table[|table| - 1];
      FilterKeepsDistinct(init, tier, clock);
      assert last !in init;
      assert last !in Filter(init, tier, clock);
    }
  }

  /** `ORDER BY cert_checked_at ASC` places NULLs first. */
  predicate KeyLeq(x: Option<int>, y: Option<int>) {
    x.None? || (y.Some? && x.value <= y.value)
  }

  predicate SortedBy<T>(s: seq<T>, key: T -> Option<int>) {
    forall i, j :: 0 <= i < j < |s| ==> KeyLeq(key(s[i]), key(s[j]))
  }

  predicate SortedByCertCheck(s: seq<Account>)
    reads s
  {
    forall i, j :: 0 <= i < j < |s| ==> KeyLeq(s[i].certCheckedAt, s[j].certCheckedAt)
  }

  function Insert<T>(x: T, s: seq<T>, key: T -> Option<int>): (r: seq<T>)
    ensures multiset(r) == multiset(s) + multiset{x}
    ensures SortedBy(s, key) ==> SortedBy(r, key)
    decreases |s|
  {
    if s == [] || KeyLeq(key(x), key(s[0])) then [x] + s
    else
      assert s == [s[0]] + s[1..];
      var t := Insert(x, s[1..], key);
      InsertBelowHead(s[0], x, s[1..], t, key);
      [s[0]] + t
  }

  /** Putting `head` before the result of inserting `x` into `tail` keeps the order, when
      `head` sorts strictly before `x` and no later than anything in `tail`. */
  lemma InsertBelowHead<T>(head: T, x: T, tail: seq<T>, t: seq<T>, key: T -> Option<int>)
    requires multiset(t) == multiset(tail) + multiset{x}
    requires !KeyLeq(key(x), key(head))
    ensures SortedBy([head] + tail, key) && SortedBy(t, key) ==> SortedBy([head] + t, key)
  {
    if SortedBy([head] + tail, key) && SortedBy(t, key) {
      forall y | y in t ensures KeyLeq(key(head), key(y)) {
        assert y in multiset(t);
        if y != x {
          assert y in multiset(tail);
          var k :| 0 <= k < |tail| && tail[k] == y;
          assert ([head] + tail)[0] == head && ([head] + tail)[k + 1] == y;
        }
      }
      var r := [head] + t;
      forall i, j | 0 <= i < j < |r| ensures KeyLeq(key(r[i]), key(r[j])) {
        assert r[j] == t[j - 1];
        if i > 0 { assert r[i] == t[i - 1]; }
      }
    }
  }

  /** Orders `s` by `key`, smallest first, NULL keys before all others (ties in no particular order). */
  function SortBy<T>(s: seq<T>, key: T -> Option<int>): (r: seq<T>)
    ensures multiset(r) == multiset(s)
    ensures SortedBy(r, key)
  {
    if s == [] then []
    else
      assert s == [s[0]] + s[1..];
      Insert(s[0], SortBy(s[1..], key), key)
  }

  /** Two sequences with the same multiset of elements are distinct together. */
  lemma {:induction false} DistinctPermutation<T>(s: seq<T>, r: seq<T>)
    requires multiset(r) == multiset(s)
    ensures Distinct(s) ==> Distinct(r)
  {
    if Distinct(s) {
    forall i, j | 0 <= i < j < |r| ensures r[i] != r[j] {
      if r[i] == r[j] {
        assert r == r[..i] + [r[i]] + r[i + 1..j] + [r[j]] + r[j + 1..];
        assert multiset(r)[r[i]] >= 2;
        CountAtMostOne(s, r[i]);
      }
    }
    }
  }

  lemma {:induction false} CountAtMostOne<T>(s: seq<T>, x: T)
    requires Distinct(s)
    ensures multiset(s)[x] <= 1
  {
    if s != [] {
      var init := s[..|s| - 1];
      assert s == init + [s[|s| - 1]];
      assert Distinct(init);
      CountAtMostOne(init, x);
      if x == s[|s| - 1] {
        assert x !in init;
      }
    }
  }

  /** `LIMIT n`: the query builder ignores a negative limit. */
  function Take<T>(s: seq<T>, limit: int): (r: seq<T>)
    ensures r <= s
    ensures limit >= 0 ==> |r| <= limit
    ensures |r| < |s| ==> |r| == limit
  {
    if 0 <= limit < |s| then s[..limit] else s
  }

  /** Each row's `cert_checked_at`, read once so that ordering does not depend on the heap. */
  function CertCheckKeys(s: seq<Account>): (key: Account -> Option<int>)
    reads s
    ensures forall a :: a in s ==> key(a) == a.certCheckedAt
  {
    var keys := map a | a in s :: a.certCheckedAt;
    (a: Account) => if a in keys then keys[a] else None
  }

  lemma SortedByCertCheckKeys(s: seq<Account>, key: Account -> Option<int>)
    requires forall i :: 0 <= i < |s| ==> key(s[i]) == s[i].certCheckedAt
    ensures SortedBy(s, key) ==> SortedByCertCheck(s)
  {
  }

  /** `... ->orderBy('cert_checked_at', 'ASC')`: the tier's rows, stalest first. */
  function OrderedSelection(table: seq<Account>, tier: Tier, clock: Clock): (sorted: seq<Account>)
    reads table
    ensures multiset(sorted) == multiset(Filter(table, tier, clock))
    ensures SortedByCertCheck(sorted)
    ensures forall a :: a in sorted ==> a in table && Selected(a, tier, clock)
    ensures Distinct(table) ==> Distinct(sorted)
  {
    var selected := Filter(table, tier, clock);
    var key := CertCheckKeys(table);
    var sorted := SortBy(selected, key);
    MembersOfPermutation(selected, sorted);
    SortedByCertCheckKeys(sorted, key);
    DistinctPermutation(selected, sorted);
    if Distinct(table) then FilterKeepsDistinct(table, tier, clock); sorted else sorted
  }

  lemma MembersOfPermutation<T>(s: seq<T>, r: seq<T>)
    requires multiset(r) == multiset(s)
    ensures forall a :: a in r ==> a in s
  {
    forall a | a in r ensures a in s {
      assert a in multiset(r);
    }
  }

  /** A prefix of a sorted, duplicate-free sequence is sorted and duplicate-free. */
  lemma PrefixKeepsOrder(s: seq<Account>, p: seq<Account>)
    requires p <= s
    ensures forall a :: a in p ==> a in s
    ensures SortedByCertCheck(s) ==> SortedByCertCheck(p)
    ensures Distinct(s) ==> Distinct(p)
  {
    assert forall i :: 0 <= i < |p| ==> p[i] == s[i];
  }

  /** The query of `fire`: the tier's rows, oldest-checked first, at most `limit` of them. */
  function Plan(table: seq<Account>, tier: Tier, clock: Clock, limit: int): (batch: seq<Account>)
    reads table
    ensures SortedByCertCheck(batch)
    ensures limit >= 0 ==> |batch| <= limit
    ensures forall a :: a in batch ==> a in table && Selected(a, tier, clock)
    ensures Distinct(table) ==> Distinct(batch)
  {
    var sorted := OrderedSelection(table, tier, clock);
    var batch := Take(sorted, limit);
    PrefixKeepsOrder(sorted, batch);
    batch
  }

  /** The batch is as long as the limit allows: a selected row is left out only when the
      limit is non-negative and the batch has reached it. */
  lemma PlanFillsToLimit(table: seq<Account>, tier: Tier, clock: Clock, limit: int, b: Account)
    requires b in table && Selected(b, tier, clock) && b !in Plan(table, tier, clock, limit)
    ensures 0 <= limit == |Plan(table, tier, clock, limit)|
  {
    var sorted := OrderedSelection(table, tier, clock);
    assert Plan(table, tier, clock, limit) == Take(sorted, limit);
    assert b in multiset(Filter(table, tier, clock));
    assert b in sorted;
  }

  /** The batch holds the stalest selected rows: every selected row left out was checked no
      earlier than any row taken, and rows are left out only when the limit was reached. */
  lemma {:induction false} PlanTakesStalestFirst(table: seq<Account>, tier: Tier, clock: Clock, limit: int, a: Account, b: Account)
    requires a in Plan(table, tier, clock, limit)
    requires b in table && Selected(b, tier, clock) && b !in Plan(table, tier, clock, limit)
    ensures KeyLeq(a.certCheckedAt, b.certCheckedAt)
    ensures 0 <= limit == |Plan(table, tier, clock, limit)|
  {
    var sorted := OrderedSelection(table, tier, clock);
    var batch := Plan(table, tier, clock, limit);
    assert batch == Take(sorted, limit);
    assert b in multiset(Filter(table, tier, clock));
    var j :| 0 <= j < |sorted| && sorted[j] == b;
    var i :| 0 <= i < |batch| && batch[i] == a;
    assert batch == sorted[..|batch|];
    assert sorted[i] == a;
  }
}
