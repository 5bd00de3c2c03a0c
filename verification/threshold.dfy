/** The action-potential test: did the voltage trace reach a threshold? */
module Threshold {
  import opened Euler

  /** Answer of `is_action_potential`: a yes/no verdict from a completed run,
      or the outcome of a run that produced no usable trace. */
  datatype Verdict = Fired(yes: bool) | NoVerdict(outcome: Outcome)

  /** V.max(): a linear scan for the largest sample. */
  method Max(v: seq<real>) returns (top: real)
    requires |v| >= 1
    ensures top in v
    ensures forall k :: 0 <= k < |v| ==> v[k] <= top
  {
    top := v[0];
    var i := 1;
    while i < |v|
      invariant 1 <= i <= |v|
      invariant top in v[..i]
      invariant forall k :: 0 <= k < i ==> v[k] <= top
    {
      if v[i] > top {
        top := v[i];
      }
      i := i + 1;
    }
    assert v[..i] == v;
  }

  /** `V.max() >= threshold`: true exactly when some sample reaches the
      threshold. */
  method Reaches(v: seq<real>, threshold: real) returns (fired: bool)
    requires |v| >= 1
    ensures fired <==> exists k :: 0 <= k < |v| && v[k] >= threshold
  {
    var top := Max(v);
    fired := top >= threshold;
  }
}
