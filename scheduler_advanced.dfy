/** The size- and length-ordered backfill schedulers.  Both keep their queue
    sorted in descending order, by (nodes, run length) for the biggest-first
    scheduler and by (run length, nodes) for the longest-first one, and then
    run the plain bounded scan over it with a backfill limit of 100. */
module SchedulersAdvanced {
  import opened Common
  import opened Jobs
  import opened Sorting
  import opened Schedulers

  predicate Ordered(p: Policy)
  {
    p.BiggestFirstBackfill? || p.LongestFirstBackfill?
  }

  /** Python's `sort(key=..., reverse=True)` is the stable ascending sort by
      the negated key. */
  function OrderKey(p: Policy): Job -> Key
  {
    if p.LongestFirstBackfill? then (j: Job) => (-j.durationMin, -j.nodes)
    else (j: Job) => (-j.nodes, -j.durationMin)
  }

  /** `a` comes no later than `b` in the queue order: larger first. */
  predicate Precedes(p: Policy, a: Job, b: Job)
  {
    if p.LongestFirstBackfill? then a.durationMin > b.durationMin || (a.durationMin == b.durationMin && a.nodes >= b.nodes)
    else a.nodes > b.nodes || (a.nodes == b.nodes && a.durationMin >= b.durationMin)
  }

  predicate Descending(p: Policy, s: seq<Job>)
  {
    forall i, j | 0 <= i < j < |s| :: Precedes(p, s[i], s[j])
  }

  lemma SortedDescending(p: Policy, s: seq<Job>)
    requires SortedBy(s, OrderKey(p))
    ensures Descending(p, s)
  {
    forall i, j | 0 <= i < j < |s|
      ensures Precedes(p, s[i], s[j])
    {
      assert KeyLe(OrderKey(p)(s[i]), OrderKey(p)(s[j]));
    }
  }

  /** Sorting the queue orders it, keeps every job, and keeps jobs of equal
      size and length in their queue order. */
  lemma SortQueue(p: Policy, s: seq<Job>, k: Key)
    ensures SortedBy(SortBy(s, OrderKey(p)), OrderKey(p))
    ensures Descending(p, SortBy(s, OrderKey(p)))
    ensures multiset(SortBy(s, OrderKey(p))) == multiset(s)
    ensures WithKey(SortBy(s, OrderKey(p)), OrderKey(p), k) == WithKey(s, OrderKey(p), k)
  {
    SortBySorted(s, OrderKey(p));
    SortedDescending(p, SortBy(s, OrderKey(p)));
    SortByPermutation(s, OrderKey(p));
    SortByStable(s, OrderKey(p), k);
  }

  /** New submissions are added and the whole queue is sorted again. */
  method NewPendingJobsOrdered(s: Scheduler, jobs: seq<Job>)
    modifies s`pendingList
    ensures s.pendingList == SortBy(old(s.pendingList) + jobs, OrderKey(s.policy))
  {
    s.pendingList := SortBy(s.pendingList + jobs, OrderKey(s.policy));
  }

  /** A job stopped by a failure is appended and the queue sorted again, so
      it re-enters at the place its size and length give it. */
  method JobAbortedOrdered(s: Scheduler, job: Job)
    modifies s`pendingList
    ensures s.pendingList == SortBy(old(s.pendingList) + [job], OrderKey(s.policy))
  {
    s.pendingList := SortBy(s.pendingList + [job], OrderKey(s.policy));
  }

  /** Both parts of an interleaving of a sorted sequence are sorted. */
  lemma {:induction false} InterleavingSorted(a: seq<Job>, b: seq<Job>, q: seq<Job>, key: Job -> Key)
    requires Interleaving(a, b, q) && SortedBy(q, key)
    ensures SortedBy(a, key) && SortedBy(b, key)
    decreases |q|
  {
    if q != [] {
      assert SortedBy(q[1..], key);
      if a != [] && a[0] == q[0] && Interleaving(a[1..], b, q[1..]) {
        InterleavingSorted(a[1..], b, q[1..], key);
        InterleavingMultiset(a[1..], b, q[1..]);
        HeadFirst(a, q, key);
      } else {
        InterleavingSorted(a, b[1..], q[1..], key);
        InterleavingMultiset(a, b[1..], q[1..]);
        HeadFirst(b, q, key);
      }
    }
  }

  /** A sorted tail behind the sorted sequence's own head stays sorted. */
  lemma HeadFirst(a: seq<Job>, q: seq<Job>, key: Job -> Key)
    requires a != [] && q != [] && a[0] == q[0] && SortedBy(q, key) && SortedBy(a[1..], key)
    requires multiset(a[1..]) <= multiset(q[1..])
    ensures SortedBy(a, key)
  {
    forall i, j | 0 <= i < j < |a|
      ensures KeyLe(key(a[i]), key(a[j]))
    {
      if i == 0 {
        assert a[j] == a[1..][j - 1];
        assert a[j] in multiset(q[1..]);
        var m :| 0 <= m < |q[1..]| && q[1..][m] == a[j];
        assert q[m + 1] == a[j];
      } else {
        assert a[i] == a[1..][i - 1] && a[j] == a[1..][j - 1];
      }
    }
  }

  /** The ordered schedulers' admission: the bounded scan over the sorted
      queue.  The started jobs come in descending order and the queue stays
      sorted. */
  method TryToScheduleOrdered(s: Scheduler, time: int) returns (sched: seq<Decision>)
    requires s.cluster != null && Ordered(s.policy) && AllValid(s.pendingList)
    requires SortedBy(s.pendingList, OrderKey(s.policy))
    modifies s`pendingList
    ensures var r := Scan(old(s.pendingList), s.cluster.nodes, 0, None, 100, true, NoGuard);
            sched == Picks(r.picked) && s.pendingList == r.rest && Descending(s.policy, r.picked)
    ensures SortedBy(s.pendingList, OrderKey(s.policy))
    ensures multiset(s.pendingList) <= multiset(old(s.pendingList))
  {
    ghost var q := s.pendingList;
    ghost var r := Scan(q, s.cluster.nodes, 0, None, 100, true, NoGuard);
    ScanAccounting(q, s.cluster.nodes, 0, None, 100, true, NoGuard);
    InterleavingSorted(r.picked, r.rest, q, OrderKey(s.policy));
    InterleavingMultiset(r.picked, r.rest, q);
    SortedDescending(s.policy, r.picked);
    sched := s.TryToScheduleScan(time);
  }
}
