/** The failure model.  The random draws (exponential failure times per
    node, a normal repair time) are inputs; only what the model does with
    them is modelled. */
module FailureModel {
  import opened Common

  /** One failure-time draw per exposed node; the job fails at the earliest
      of them if that comes strictly before the job would end. */
  function CheckWhenJobFails(nodeCount: nat, jobRuntime: int, draws: seq<nat>): (r: Option<nat>)
    requires |draws| == nodeCount && nodeCount >= 1
    ensures r.Some? ==> r.value < jobRuntime && r.value in draws && forall d | d in draws :: r.value <= d
    ensures r.None? <==> forall d | d in draws :: d >= jobRuntime
  {
    var mn := SeqMin(draws);
    if mn < jobRuntime then Some(mn as nat) else None
  }

  /** A repair time: the draw, but never less than the configured minimum. */
  function TimeUntilNodeIsBack(draw: int, nodeMinRepairTime: int): (r: int)
    ensures r >= nodeMinRepairTime && r >= draw
    ensures r == draw || r == nodeMinRepairTime
  {
    if draw >= nodeMinRepairTime then draw else nodeMinRepairTime
  }
}
