/** The administrator dashboard's view of the store: the issues ordered by
    priority rank, and four counts. */
module AdminDashboard {
  import opened Wrappers
  import opened Types
  import IssueContext
  import AiProcessor

  /** `priorityOrder`: high before moderate before low. */
  function Rank(p: Priority): (r: nat)
    ensures r <= 2
    ensures r == 0 <==> p == High
    ensures r == 2 <==> p == Low
  {
    match p
    case High => 0
    case Moderate => 1
    case Low => 2
  }

  /** No two priorities share a rank. */
  lemma RankInjective(p: Priority, q: Priority)
    ensures Rank(p) == Rank(q) <==> p == q
  {
  }

  /** More keyword matches never give a priority that sorts later: the
      classifier's decision is monotone in both counts. */
  lemma MoreMatchesSortNoLater(h1: nat, m1: nat, h2: nat, m2: nat, t: Option<IncidentType>)
    requires h1 <= h2 && m1 <= m2
    ensures var p1 := AiProcessor.DecidePriority(AiProcessor.SeverityScore(h1, m1, t), h1, m1, t);
      var p2 := AiProcessor.DecidePriority(AiProcessor.SeverityScore(h2, m2, t), h2, m2, t);
      Rank(p2) <= Rank(p1)
  {
  }

  /** The issues of `issues` with priority `p`, in their order. */
  function WithPriority(issues: seq<Issue>, p: Priority): (r: seq<Issue>)
    ensures |r| <= |issues|
    ensures forall i :: 0 <= i < |r| ==> r[i].priority == p
    ensures forall x :: x in r <==> x in issues && x.priority == p
  {
    if issues == [] then []
    else (if issues[0].priority == p then [issues[0]] else []) + WithPriority(issues[1..], p)
  }

  /** The issues of `issues` with status `st`, in their order. */
  function WithStatus(issues: seq<Issue>, st: IssueStatus): (r: seq<Issue>)
    ensures |r| <= |issues|
    ensures forall i :: 0 <= i < |r| ==> r[i].status == st
    ensures forall x :: x in r <==> x in issues && x.status == st
  {
    if issues == [] then []
    else (if issues[0].status == st then [issues[0]] else []) + WithStatus(issues[1..], st)
  }

  /** Concatenation is associative. */
  lemma Associative<T>(a: seq<T>, b: seq<T>, c: seq<T>)
    ensures a + (b + c) == (a + b) + c
  {
  }

  /** Filtering a store with `x` in front. */
  lemma WithPriorityCons(x: Issue, rest: seq<Issue>, p: Priority)
    ensures WithPriority([x] + rest, p) == (if x.priority == p then [x] else []) + WithPriority(rest, p)
  {
    assert ([x] + rest)[0] == x && ([x] + rest)[1..] == rest;
  }

  /** Filtering distributes over concatenation. */
  lemma {:induction false} WithPriorityAppend(a: seq<Issue>, b: seq<Issue>, p: Priority)
    ensures WithPriority(a + b, p) == WithPriority(a, p) + WithPriority(b, p)
    decreases |a|
  {
    if a != [] {
      var head := if a[0].priority == p then [a[0]] else [];
      assert a == [a[0]] + a[1..] && a + b == [a[0]] + (a[1..] + b);
      WithPriorityCons(a[0], a[1..] + b, p);
      WithPriorityCons(a[0], a[1..], p);
      WithPriorityAppend(a[1..], b, p);
      Associative(head, WithPriority(a[1..], p), WithPriority(b, p));
    } else {
      assert a + b == b;
    }
  }

  /** The priority-rank order as buckets: all high issues, then all moderate,
      then all low, each bucket in store order. */
  function Buckets(issues: seq<Issue>): seq<Issue> {
    WithPriority(issues, High) + WithPriority(issues, Moderate) + WithPriority(issues, Low)
  }

  /** Puts `x` in front of the first issue of `sorted` whose rank is not
      smaller than its own, so it stays in front of its equals. */
  function Insert(x: Issue, sorted: seq<Issue>): (r: seq<Issue>)
    ensures multiset(r) == multiset(sorted) + multiset{x}
  {
    if sorted == [] || Rank(x.priority) <= Rank(sorted[0].priority) then [x] + sorted
    else
      assert sorted == [sorted[0]] + sorted[1..];
      [sorted[0]] + Insert(x, sorted[1..])
  }

  /** `sortedIssues`: a copy of the store sorted by the rank comparator with
      a stable sort, here insertion sort. */
  function SortByPriority(issues: seq<Issue>): (r: seq<Issue>)
    ensures multiset(r) == multiset(issues)
  {
    if issues == [] then []
    else
      assert issues == [issues[0]] + issues[1..];
      Insert(issues[0], SortByPriority(issues[1..]))
  }

  /** An issue that ranks no worse than the first of `sorted` goes in front. */
  lemma InsertInFront(x: Issue, sorted: seq<Issue>)
    requires sorted == [] || Rank(x.priority) <= Rank(sorted[0].priority)
    ensures Insert(x, sorted) == [x] + sorted
  {
  }

  /** An issue that ranks worse than `y` is inserted behind it. */
  lemma InsertPast(x: Issue, y: Issue, rest: seq<Issue>)
    requires Rank(y.priority) < Rank(x.priority)
    ensures Insert(x, [y] + rest) == [y] + Insert(x, rest)
  {
    assert ([y] + rest)[0] == y && ([y] + rest)[1..] == rest;
  }

  /** Inserting behind issues that all rank better. */
  lemma {:induction false} InsertBehind(x: Issue, a: seq<Issue>, b: seq<Issue>)
    requires forall i :: 0 <= i < |a| ==> Rank(a[i].priority) < Rank(x.priority)
    ensures Insert(x, a + b) == a + Insert(x, b)
    decreases |a|
  {
    if a != [] {
      assert a == [a[0]] + a[1..] && a + b == [a[0]] + (a[1..] + b);
      InsertPast(x, a[0], a[1..] + b);
      InsertBehind(x, a[1..], b);
      Associative([a[0]], a[1..], Insert(x, b));
    } else {
      assert a + b == b;
    }
  }

  /** A high issue goes in front of everything. */
  lemma InsertHigh(x: Issue, h: seq<Issue>, m: seq<Issue>, l: seq<Issue>)
    requires x.priority == High
    ensures Insert(x, h + m + l) == ([x] + h) + m + l
  {
    InsertInFront(x, h + m + l);
  }

  /** The first of `a + b` ranks at least `k` when all of `a` and `b` do. */
  lemma FirstRankAtLeast(a: seq<Issue>, b: seq<Issue>, k: nat)
    requires forall i :: 0 <= i < |a| ==> Rank(a[i].priority) >= k
    requires forall i :: 0 <= i < |b| ==> Rank(b[i].priority) >= k
    ensures a + b == [] || Rank((a + b)[0].priority) >= k
  {
    if a != [] {
      assert (a + b)[0] == a[0];
    } else if b != [] {
      assert (a + b)[0] == b[0];
    }
  }

  /** A moderate issue goes behind the high bucket and in front of the rest. */
  lemma InsertModerate(x: Issue, h: seq<Issue>, m: seq<Issue>, l: seq<Issue>)
    requires x.priority == Moderate
    requires forall i :: 0 <= i < |h| ==> h[i].priority == High
    requires forall i :: 0 <= i < |m| ==> m[i].priority == Moderate
    requires forall i :: 0 <= i < |l| ==> l[i].priority == Low
    ensures Insert(x, h + m + l) == h + ([x] + m) + l
  {
    Associative(h, m, l);
    InsertBehind(x, h, m + l);
    FirstRankAtLeast(m, l, 1);
    InsertInFront(x, m + l);
    Associative([x], m, l);
    Associative(h, [x] + m, l);
  }

  /** A low issue goes behind the high and moderate buckets. */
  lemma InsertLow(x: Issue, h: seq<Issue>, m: seq<Issue>, l: seq<Issue>)
    requires x.priority == Low
    requires forall i :: 0 <= i < |h| ==> h[i].priority == High
    requires forall i :: 0 <= i < |m| ==> m[i].priority == Moderate
    requires forall i :: 0 <= i < |l| ==> l[i].priority == Low
    ensures Insert(x, h + m + l) == h + m + ([x] + l)
  {
    forall i | 0 <= i < |h + m| ensures Rank((h + m)[i].priority) < Rank(x.priority) {
      if i < |h| { assert (h + m)[i] == h[i]; } else { assert (h + m)[i] == m[i - |h|]; }
    }
    InsertBehind(x, h + m, l);
    InsertInFront(x, l);
  }

  /** Inserting an issue into the buckets is the buckets with the issue in
      front of the store. */
  lemma InsertIntoBuckets(x: Issue, rest: seq<Issue>)
    ensures Insert(x, Buckets(rest)) == Buckets([x] + rest)
  {
    var h, m, l := WithPriority(rest, High), WithPriority(rest, Moderate), WithPriority(rest, Low);
    WithPriorityCons(x, rest, High);
    WithPriorityCons(x, rest, Moderate);
    WithPriorityCons(x, rest, Low);
    assert Buckets(rest) == h + m + l;
    if x.priority == High {
      assert [] + m == m && [] + l == l;
      InsertHigh(x, h, m, l);
    } else if x.priority == Moderate {
      assert [] + h == h && [] + l == l;
      InsertModerate(x, h, m, l);
    } else {
      assert [] + h == h && [] + m == m;
      InsertLow(x, h, m, l);
    }
  }

  /** The sorted copy is exactly the buckets: high, then moderate, then low,
      each in store order. */
  lemma {:induction false} SortIsBuckets(issues: seq<Issue>)
    ensures SortByPriority(issues) == Buckets(issues)
    decreases |issues|
  {
    if issues != [] {
      SortIsBuckets(issues[1..]);
      InsertIntoBuckets(issues[0], issues[1..]);
      assert [issues[0]] + issues[1..] == issues;
    }
  }

  /** The ranks along `s` never decrease. */
  ghost predicate RankSorted(s: seq<Issue>) {
    forall i, j :: 0 <= i < j < |s| ==> Rank(s[i].priority) <= Rank(s[j].priority)
  }

  /** Two rank-sorted runs, the first ranking no worse than all of the
      second, make a rank-sorted run. */
  lemma ConcatRankSorted(a: seq<Issue>, b: seq<Issue>, k: nat)
    requires RankSorted(a) && RankSorted(b)
    requires forall i :: 0 <= i < |a| ==> Rank(a[i].priority) <= k
    requires forall i :: 0 <= i < |b| ==> Rank(b[i].priority) >= k
    ensures RankSorted(a + b)
  {
    var s := a + b;
    forall i, j | 0 <= i < j < |s| ensures Rank(s[i].priority) <= Rank(s[j].priority) {
      if j < |a| {
        assert s[i] == a[i] && s[j] == a[j];
      } else if i >= |a| {
        assert s[i] == b[i - |a|] && s[j] == b[j - |a|];
      } else {
        assert s[i] == a[i] && s[j] == b[j - |a|];
      }
    }
  }

  /** The issues of one bucket all share a rank, so the bucket is rank-sorted. */
  lemma BucketSorted(issues: seq<Issue>, p: Priority)
    ensures RankSorted(WithPriority(issues, p))
    ensures forall i :: 0 <= i < |WithPriority(issues, p)| ==> Rank(WithPriority(issues, p)[i].priority) == Rank(p)
  {
  }

  /** The ranks along the sorted copy never decrease. */
  lemma SortedByRank(issues: seq<Issue>)
    ensures var s := SortByPriority(issues);
      forall i, j :: 0 <= i < j < |s| ==> Rank(s[i].priority) <= Rank(s[j].priority)
  {
    SortIsBuckets(issues);
    var h, m, l := WithPriority(issues, High), WithPriority(issues, Moderate), WithPriority(issues, Low);
    BucketSorted(issues, High);
    BucketSorted(issues, Moderate);
    BucketSorted(issues, Low);
    ConcatRankSorted(h, m, 1);
    forall i | 0 <= i < |h + m| ensures Rank((h + m)[i].priority) <= 1 {
      if i < |h| { assert (h + m)[i] == h[i]; } else { assert (h + m)[i] == m[i - |h|]; }
    }
    ConcatRankSorted(h + m, l, 2);
    assert RankSorted(SortByPriority(issues));
  }

  /** Filtering one bucket out of another priority's bucket leaves nothing, and
      out of its own leaves it whole. */
  lemma {:induction false} WithPriorityOfBucket(issues: seq<Issue>, p: Priority, q: Priority)
    ensures WithPriority(WithPriority(issues, q), p) == if p == q then WithPriority(issues, q) else []
    decreases |issues|
  {
    if issues != [] {
      WithPriorityOfBucket(issues[1..], p, q);
      if issues[0].priority == q {
        assert WithPriority(issues, q) == [issues[0]] + WithPriority(issues[1..], q);
        WithPriorityCons(issues[0], WithPriority(issues[1..], q), p);
      } else {
        assert WithPriority(issues, q) == WithPriority(issues[1..], q);
      }
    }
  }

  /** The sort is stable: the issues of any one priority appear in the sorted
      copy in the order they have in the store. */
  lemma SortIsStable(issues: seq<Issue>, p: Priority)
    ensures WithPriority(SortByPriority(issues), p) == WithPriority(issues, p)
  {
    SortIsBuckets(issues);
    var h, m, l := WithPriority(issues, High), WithPriority(issues, Moderate), WithPriority(issues, Low);
    WithPriorityAppend(h + m, l, p);
    WithPriorityAppend(h, m, p);
    WithPriorityOfBucket(issues, p, High);
    WithPriorityOfBucket(issues, p, Moderate);
    WithPriorityOfBucket(issues, p, Low);
  }

  /** The number of issues with priority `p`. */
  function CountPriority(issues: seq<Issue>, p: Priority): (n: nat)
    ensures n <= |issues|
    ensures n == 0 <==> forall i :: 0 <= i < |issues| ==> issues[i].priority != p
  {
    var r := WithPriority(issues, p);
    assert forall i :: 0 <= i < |issues| && issues[i].priority == p ==> issues[i] in r;
    if r != [] then
      assert r[0] in r;
      var k :| 0 <= k < |issues| && issues[k] == r[0];
      |r|
    else |r|
  }

  /** The number of issues with status `st`. */
  function CountStatus(issues: seq<Issue>, st: IssueStatus): (n: nat)
    ensures n <= |issues|
    ensures n == 0 <==> forall i :: 0 <= i < |issues| ==> issues[i].status != st
  {
    var r := WithStatus(issues, st);
    assert forall i :: 0 <= i < |issues| && issues[i].status == st ==> issues[i] in r;
    if r != [] then
      assert r[0] in r;
      var k :| 0 <= k < |issues| && issues[k] == r[0];
      |r|
    else |r|
  }

  /** The counts of a store, from those of its tail. */
  lemma CountsStep(issues: seq<Issue>, p: Priority, st: IssueStatus)
    requires issues != []
    ensures CountPriority(issues, p) == (if issues[0].priority == p then 1 else 0) + CountPriority(issues[1..], p)
    ensures CountStatus(issues, st) == (if issues[0].status == st then 1 else 0) + CountStatus(issues[1..], st)
  {
    assert WithPriority(issues, p) == (if issues[0].priority == p then [issues[0]] else []) + WithPriority(issues[1..], p);
    assert WithStatus(issues, st) == (if issues[0].status == st then [issues[0]] else []) + WithStatus(issues[1..], st);
  }

  /** Each issue has one priority, so the three priority counts add up to
      the number of issues. */
  lemma {:induction false} PriorityCountsPartition(issues: seq<Issue>)
    ensures CountPriority(issues, High) + CountPriority(issues, Moderate) + CountPriority(issues, Low) == |issues|
    decreases |issues|
  {
    if issues != [] {
      PriorityCountsPartition(issues[1..]);
      CountsStep(issues, High, Pending);
      CountsStep(issues, Moderate, Pending);
      CountsStep(issues, Low, Pending);
    }
  }

  /** Each issue has one status, so the three status counts add up to the
      number of issues. */
  lemma {:induction false} StatusCountsPartition(issues: seq<Issue>)
    ensures CountStatus(issues, Pending) + CountStatus(issues, InProgress) + CountStatus(issues, Resolved) == |issues|
    decreases |issues|
  {
    if issues != [] {
      StatusCountsPartition(issues[1..]);
      CountsStep(issues, High, Pending);
      CountsStep(issues, High, InProgress);
      CountsStep(issues, High, Resolved);
    }
  }

  /** A status update moves no issue between the priority counts. */
  lemma {:induction false} UpdateKeepsPriorityCounts(issues: seq<Issue>, id: string, status: IssueStatus,
                                                     notes: Option<string>, now: Time, p: Priority)
    ensures CountPriority(IssueContext.UpdateAll(issues, id, status, notes, now), p) == CountPriority(issues, p)
    decreases |issues|
  {
    if issues != [] {
      var r := IssueContext.UpdateAll(issues, id, status, notes, now);
      assert r[1..] == IssueContext.UpdateAll(issues[1..], id, status, notes, now);
      assert r[0].priority == issues[0].priority;
      UpdateKeepsPriorityCounts(issues[1..], id, status, notes, now, p);
    }
  }

  /** The figures the dashboard shows. */
  datatype DashboardView = DashboardView(
    sortedIssues: seq<Issue>,
    highCount: nat,
    moderateCount: nat,
    pendingCount: nat,
    resolvedCount: nat)

  /** The dashboard of the session `admin` over the store `issues`: nothing
      without an administrator; otherwise the sorted copy and the counts,
      where high plus moderate and pending plus resolved never exceed the
      number of issues. */
  function Dashboard(admin: Option<Admin>, issues: seq<Issue>): (r: Option<DashboardView>)
    ensures r.None? <==> admin.None?
    ensures r.Some? ==> && multiset(r.value.sortedIssues) == multiset(issues)
                        && r.value.sortedIssues == Buckets(issues)
    ensures r.Some? ==> && r.value.highCount == CountPriority(issues, High)
                        && r.value.moderateCount == CountPriority(issues, Moderate)
                        && r.value.pendingCount == CountStatus(issues, Pending)
                        && r.value.resolvedCount == CountStatus(issues, Resolved)
    ensures r.Some? ==> && r.value.highCount + r.value.moderateCount <= |issues|
                        && r.value.pendingCount + r.value.resolvedCount <= |issues|
  {
    if admin.None? then None
    else
      SortIsBuckets(issues);
      PriorityCountsPartition(issues);
      StatusCountsPartition(issues);
      Some(DashboardView(SortByPriority(issues), CountPriority(issues, High),
                         CountPriority(issues, Moderate), CountStatus(issues, Pending),
                         CountStatus(issues, Resolved)))
  }
}
