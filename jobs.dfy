/** The job record: identity, requirements, the alternative run lengths it
    may take, and the scheduling outcome the simulator fills in. */
module Jobs {
  import opened Common
  import opened Text
  import opened Configuration

  datatype Job = Job(
    jobid: string,
    name: string,
    nodes: int,
    ppn: int,
    submissionTime: int,
    durations: seq<int>,
    durationMin: int,
    durationMax: int,
    partition: Option<string>,
    apc: Option<real>,
    dummy: bool,
    startTime: int,
    endTime: int)

  /** The invariants the constructor establishes. */
  predicate ValidJob(j: Job)
  {
    j.durations != [] &&
    j.durationMin == SeqMin(j.durations) && j.durationMax == SeqMax(j.durations) &&
    j.durationMin >= 0 && j.name != "" && j.nodes > 0 && j.ppn >= 0 && j.submissionTime >= 0
  }

  predicate AllValid(js: seq<Job>) { forall i | 0 <= i < |js| :: ValidJob(js[i]) }

  datatype JobError =
    | EmptyDurations     // min() of an empty sequence raises ValueError
    | InvariantViolated  // one of the constructor's assertions fails

  /** The constructor: derives the shortest and longest run length and checks
      the record's invariants, in the order the constructor evaluates them. */
  function NewJob(jobid: string, name: string, nodes: int, ppn: int, submissionTime: int,
                  durations: seq<int>, partition: Option<string>, apc: Option<real>, dummy: bool)
    : (r: Result<Job, JobError>)
    ensures durations == [] <==> r == Err(EmptyDurations)
    ensures r.Ok? <==> durations != [] && SeqMin(durations) >= 0 && name != "" && nodes > 0
                        && ppn >= 0 && submissionTime >= 0
    ensures r.Ok? ==> ValidJob(r.value) && r.value.endTime == 0 && r.value.dummy == dummy
                      && r.value.jobid == jobid && r.value.nodes == nodes && r.value.durations == durations
                      && r.value.submissionTime == submissionTime && r.value.apc == apc
                      && (forall d | d in durations :: r.value.durationMin <= d <= r.value.durationMax)
  {
    if durations == [] then Err(EmptyDurations)
    else
      var lo := SeqMin(durations);
      var hi := SeqMax(durations);
      if lo < 0 || name == "" || nodes <= 0 || ppn < 0 || submissionTime < 0 then Err(InvariantViolated)
      else Ok(Job(jobid, name, nodes, ppn, submissionTime, durations, lo, hi, partition, apc, dummy, 0, 0))
  }

  /** Average power draw in watts.  An externally measured average power
      (APC) wins; otherwise every node draws P-state 4's processor power per
      processor plus the node's own power.  The P-state argument is unused. */
  function PowerConsumed(j: Job, pstate: int, c: ClusterConfig): (w: real)
    requires c.Valid()
    ensures j.apc.Some? ==> w == j.apc.value
    ensures j.apc.None? ==>
      w == j.nodes as real * (c.cpuFrequencyPower[4] * c.processorsPerNode + c.nodePowerConsumption)
  {
    match j.apc
    case Some(a) => a
    case None => j.nodes as real * (c.cpuFrequencyPower[4] * c.processorsPerNode + c.nodePowerConsumption)
  }

  lemma PowerIgnoresPState(j: Job, p: int, q: int, c: ClusterConfig)
    requires c.Valid()
    ensures PowerConsumed(j, p, c) == PowerConsumed(j, q, c)
  {
  }

  /** Without a measured power, the draw grows with the node count when a
      node's draw is not negative. */
  lemma PowerGrowsWithNodes(j: Job, k: int, c: ClusterConfig)
    requires c.Valid() && j.apc.None? && j.nodes <= k
    requires c.cpuFrequencyPower[4] * c.processorsPerNode + c.nodePowerConsumption >= 0.0
    ensures PowerConsumed(j, 4, c) <= PowerConsumed(j.(nodes := k), 4, c)
  {
    var perNode := c.cpuFrequencyPower[4] * c.processorsPerNode + c.nodePowerConsumption;
    assert (k - j.nodes) as real * perNode >= 0.0;
  }

  /** Jobs are ordered by their identifiers. */
  predicate JobLess(a: Job, b: Job) { StrLess(a.jobid, b.jobid) }

  function SumNodes(js: seq<Job>): int
  {
    if js == [] then 0 else SumNodes(js[..|js| - 1]) + js[|js| - 1].nodes
  }

  lemma SumNodesSnoc(js: seq<Job>, j: Job)
    ensures SumNodes(js + [j]) == SumNodes(js) + j.nodes
  {
    assert (js + [j])[..|js|] == js;
  }

  lemma {:induction false} SumNodesConcat(a: seq<Job>, b: seq<Job>)
    ensures SumNodes(a + b) == SumNodes(a) + SumNodes(b)
    decreases |b|
  {
    if b == [] {
      assert a + b == a;
    } else {
      var n := |b| - 1;
      SumNodesConcat(a, b[..n]);
      assert a + b == (a + b[..n]) + [b[n]];
      assert b == b[..n] + [b[n]];
      SumNodesSnoc(a + b[..n], b[n]);
      SumNodesSnoc(b[..n], b[n]);
    }
  }

  lemma SumNodesCons(j: Job, js: seq<Job>)
    ensures SumNodes([j] + js) == j.nodes + SumNodes(js)
  {
    SumNodesConcat([j], js);
    assert SumNodes([j]) == SumNodes([]) + j.nodes by { assert [j][..0] == []; }
  }

  lemma {:induction false} SumNodesNonNegative(js: seq<Job>)
    requires AllValid(js)
    ensures SumNodes(js) >= |js|
  {
    if js != [] {
      SumNodesNonNegative(js[..|js| - 1]);
    }
  }
}
