/** The simulator's event queue.  Events are `(time, kind, job)` triples
    kept in a binary heap; the heap is modelled by the sequence of its
    events in pop order, so pushing is an ordered insertion and popping
    takes the head. */
module Events {
  import opened Common
  import opened Text
  import opened Jobs

  /** The six event kinds, in the order of their numeric codes. */
  datatype Kind =
    | JobSubmitted
    | JobCompleted
    | StartScheduler
    | JobStoppedWithFailures
    | EmptyNodeFailure
    | NodeRepaired

  function Code(k: Kind): (c: int)
    ensures 1 <= c <= 6
  {
    match k
    case JobSubmitted => 1
    case JobCompleted => 2
    case StartScheduler => 3
    case JobStoppedWithFailures => 4
    case EmptyNodeFailure => 5
    case NodeRepaired => 6
  }

  lemma CodeInjective(a: Kind, b: Kind)
    ensures Code(a) == Code(b) <==> a == b
  {
  }

  datatype Event = Event(time: int, kind: Kind, job: Option<Job>)

  /** What the third tuple component contributes to the order: jobs compare
      by their identifiers; the kinds without a job never meet one with a
      job at the same time and kind. */
  function Tag(e: Event): string
  {
    if e.job.Some? then e.job.value.jobid else ""
  }

  /** The tuple order: by time, then by kind code, then by job identifier. */
  predicate EventLe(a: Event, b: Event)
  {
    a.time < b.time ||
    (a.time == b.time && (Code(a.kind) < Code(b.kind) || (Code(a.kind) == Code(b.kind) && !StrLess(Tag(b), Tag(a)))))
  }

  lemma EventLeTotal(a: Event, b: Event)
    ensures EventLe(a, b) || EventLe(b, a)
  {
    if StrLess(Tag(b), Tag(a)) && StrLess(Tag(a), Tag(b)) {
      StrLessTransitive(Tag(a), Tag(b), Tag(a));
      StrLessIrreflexive(Tag(a));
    }
  }

  lemma EventLeTransitive(a: Event, b: Event, c: Event)
    requires EventLe(a, b) && EventLe(b, c)
    ensures EventLe(a, c)
  {
    if a.time == c.time && Code(a.kind) == Code(c.kind) && StrLess(Tag(c), Tag(a)) {
      StrLessTotal(Tag(a), Tag(b));
      if StrLess(Tag(a), Tag(b)) {
        StrLessTransitive(Tag(c), Tag(a), Tag(b));
      }
    }
  }

  predicate Sorted(el: seq<Event>)
  {
    forall i, j | 0 <= i < j < |el| :: EventLe(el[i], el[j])
  }

  /** `heappush`: `e` goes behind every event that is not after it. */
  function Push(el: seq<Event>, e: Event): (r: seq<Event>)
    ensures |r| == |el| + 1
  {
    if el == [] then [e]
    else if EventLe(el[0], e) then [el[0]] + Push(el[1..], e)
    else [e] + el
  }

  /** Pushing adds exactly the new event. */
  lemma {:induction false} PushMultiset(el: seq<Event>, e: Event)
    ensures multiset(Push(el, e)) == multiset(el) + multiset{e}
  {
    if el != [] && EventLe(el[0], e) {
      PushMultiset(el[1..], e);
      assert el == [el[0]] + el[1..];
    }
  }

  lemma ConsSorted(x: Event, s: seq<Event>)
    requires Sorted(s) && forall y | y in s :: EventLe(x, y)
    ensures Sorted([x] + s)
  {
    forall i, j | 0 <= i < j < |[x] + s|
      ensures EventLe(([x] + s)[i], ([x] + s)[j])
    {
      if i == 0 {
        assert ([x] + s)[j] == s[j - 1] && s[j - 1] in s;
      } else {
        assert ([x] + s)[i] == s[i - 1] && ([x] + s)[j] == s[j - 1];
      }
    }
  }

  /** Pushing keeps the queue in order. */
  lemma {:induction false} PushSorted(el: seq<Event>, e: Event)
    requires Sorted(el)
    ensures Sorted(Push(el, e))
  {
    if el == [] {
    } else if EventLe(el[0], e) {
      var t := el[1..];
      assert Sorted(t);
      PushSorted(t, e);
      PushMultiset(t, e);
      forall y | y in Push(t, e)
        ensures EventLe(el[0], y)
      {
        assert y in multiset(Push(t, e));
        if y != e {
          var k :| 0 <= k < |t| && t[k] == y;
          assert el[k + 1] == y;
        }
      }
      ConsSorted(el[0], Push(t, e));
    } else {
      EventLeTotal(el[0], e);
      forall y | y in el
        ensures EventLe(e, y)
      {
        var k :| 0 <= k < |el| && el[k] == y;
        if k > 0 {
          EventLeTransitive(e, el[0], y);
        }
      }
      ConsSorted(e, el);
    }
  }

  /** An event strictly earlier than every queued one becomes the head. */
  lemma PushEarliest(el: seq<Event>, e: Event)
    requires Sorted(el)
    requires forall x | x in el :: e.time < x.time
    ensures Push(el, e) == [e] + el
  {
    if el != [] {
      assert el[0] in el;
    }
  }

  /** `heappop` takes the least event; the rest stays in order. */
  lemma PopLeast(el: seq<Event>)
    requires Sorted(el) && el != []
    ensures forall x | x in el :: EventLe(el[0], x) && el[0].time <= x.time
    ensures Sorted(el[1..])
    ensures multiset(el) == multiset{el[0]} + multiset(el[1..])
  {
    forall x | x in el
      ensures EventLe(el[0], x)
    {
      var k :| 0 <= k < |el| && el[k] == x;
      if k == 0 {
        EventLeTotal(x, x);
      }
    }
    assert el == [el[0]] + el[1..];
  }

  /** The sum of a weight over the queued events. */
  function Total(el: seq<Event>, w: Event -> int): int
  {
    if el == [] then 0 else w(el[0]) + Total(el[1..], w)
  }

  lemma {:induction false} PushTotal(el: seq<Event>, e: Event, w: Event -> int)
    ensures Total(Push(el, e), w) == Total(el, w) + w(e)
  {
    if el != [] && EventLe(el[0], e) {
      PushTotal(el[1..], e, w);
      assert Push(el, e)[1..] == Push(el[1..], e);
    }
  }

  /** Nodes an event holds: a running job its nodes until it completes or
      fails, a broken node one until it is repaired. */
  function NodesHeld(e: Event): int
  {
    match e.kind
    case JobCompleted => if e.job.Some? then e.job.value.nodes else 0
    case JobStoppedWithFailures => if e.job.Some? then e.job.value.nodes else 0
    case NodeRepaired => 1
    case _ => 0
  }

  /** The number of queued events of a kind. */
  function Count(el: seq<Event>, k: Kind): nat
  {
    if el == [] then 0 else (if el[0].kind == k then 1 else 0) + Count(el[1..], k)
  }

  lemma {:induction false} PushCount(el: seq<Event>, e: Event, k: Kind)
    ensures Count(Push(el, e), k) == Count(el, k) + (if e.kind == k then 1 else 0)
  {
    if el != [] && EventLe(el[0], e) {
      PushCount(el[1..], e, k);
      assert Push(el, e)[1..] == Push(el[1..], e);
    }
  }

  /** An event of a kind is queued exactly when their count is positive. */
  lemma {:induction false} CountPositive(el: seq<Event>, k: Kind)
    ensures Count(el, k) > 0 <==> exists i | 0 <= i < |el| :: el[i].kind == k
  {
    if el != [] {
      CountPositive(el[1..], k);
      if Count(el[1..], k) > 0 {
        var i :| 0 <= i < |el[1..]| && el[1..][i].kind == k;
        assert el[i + 1].kind == k;
      }
      if exists i | 0 <= i < |el| :: el[i].kind == k {
        var i :| 0 <= i < |el| && el[i].kind == k;
        if i > 0 {
          assert el[1..][i - 1].kind == k;
        }
      }
    }
  }

  // ---------------------------------------------------------------------
  // The initial queue

  function Submission(j: Job): Event
  {
    Event(j.submissionTime, JobSubmitted, Some(j))
  }

  /** The jobs the simulator accepts: those that fit the whole cluster. */
  function Accepted(jobs: seq<Job>, capacity: int): seq<Job>
  {
    if jobs == [] then []
    else Accepted(jobs[..|jobs| - 1], capacity) + (if jobs[|jobs| - 1].nodes <= capacity then [jobs[|jobs| - 1]] else [])
  }

  function Submissions(js: seq<Job>): multiset<Event>
  {
    if js == [] then multiset{} else Submissions(js[..|js| - 1]) + multiset{Submission(js[|js| - 1])}
  }

  /** Every job that fits the cluster is accepted as often as it was
      given, and no other job is. */
  lemma {:induction false} AcceptedExactly(jobs: seq<Job>, capacity: int, j: Job)
    ensures j.nodes <= capacity ==> multiset(Accepted(jobs, capacity))[j] == multiset(jobs)[j]
    ensures j.nodes > capacity ==> j !in Accepted(jobs, capacity)
  {
    if jobs != [] {
      var n := |jobs| - 1;
      AcceptedExactly(jobs[..n], capacity, j);
      assert jobs == jobs[..n] + [jobs[n]];
    }
  }

  lemma {:induction false} AcceptedEmpty(jobs: seq<Job>, capacity: int)
    ensures Accepted(jobs, capacity) == [] <==> forall j | j in jobs :: j.nodes > capacity
  {
    if jobs != [] {
      var n := |jobs| - 1;
      AcceptedEmpty(jobs[..n], capacity);
      assert jobs == jobs[..n] + [jobs[n]];
    }
  }

  lemma SubmissionsSnoc(js: seq<Job>, j: Job)
    ensures Submissions(js + [j]) == Submissions(js) + multiset{Submission(j)}
  {
    assert (js + [j])[..|js|] == js;
  }

  /** One submission event per accepted job: an event of the initial queue
      is the submission of a job, at its submission time. */
  lemma {:induction false} SubmissionsOf(js: seq<Job>, e: Event)
    requires e in Submissions(js)
    ensures e.kind == JobSubmitted && e.job.Some? && e.job.value in js && e.time == e.job.value.submissionTime
  {
    var n := |js| - 1;
    if e != Submission(js[n]) {
      SubmissionsOf(js[..n], e);
      assert js[..n] <= js;
    }
  }

  /** Every accepted job has its submission event. */
  lemma {:induction false} SubmissionsHas(js: seq<Job>, j: Job)
    requires j in js
    ensures Submission(j) in Submissions(js)
  {
    var n := |js| - 1;
    if js[n] != j {
      assert js == js[..n] + [js[n]];
      SubmissionsHas(js[..n], j);
    }
  }

  lemma SubmissionsCount(js: seq<Job>)
    ensures |Submissions(js)| == |js|
  {
    if js != [] {
      SubmissionsCount(js[..|js| - 1]);
    }
  }
}
