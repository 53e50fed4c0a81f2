/**
 * The client inside the system: whatever the client's methods do, fault by fault, continues a run of
 * the system, so every guarantee stated for runs holds of the client's own states.
 */
module DeviceRuns {
  import opened Bytes
  import opened DeviceProtocol
  import opened DisplaySystem
  import opened DeviceClient

  /** The system states of a trail, while the gateway stands still. */
  function AsSystems(s: System, trail: seq<Device>): (r: seq<System>)
    ensures |r| == |trail|
  {
    seq(|trail|, i requires 0 <= i < |trail| => s.(device := trail[i]))
  }

  /**
   * A trail of the client that starts at the device of a run's last state, and has heard only
   * manifests the gateway issued, continues that run: state by state, the device's moves are actions
   * of the system.
   */
  lemma {:induction false} TrailContinuesRun(
    h: Digest, universe: set<Bytes>, states: seq<System>, actions: seq<Action>, trail: seq<Device>)
    returns (more: seq<Action>)
    requires IsSystemRun(h, universe, states, actions) && IsTrail(h, universe, trail)
    requires trail[0] == states[|states| - 1].device
    requires HeardWithin(trail[|trail| - 1].heard, states[|states| - 1].issued)
    ensures IsSystemRun(h, universe, states + AsSystems(states[|states| - 1], trail[1..]), actions + more)
    decreases |trail|
  {
    var s := states[|states| - 1];
    if |trail| == 1 {
      more := [];
      assert states + AsSystems(s, trail[1..]) == states;
      assert actions + more == actions;
    } else {
      var last := |trail| - 1;
      assert Steps(h, universe, trail[last - 1], trail[last]);
      var move :| Step(h, universe, trail[last - 1], move, trail[last]);
      StepGrows(h, universe, trail[last - 1], move, trail[last]);
      PrefixIsTrail(h, universe, trail, last);
      var front := TrailContinuesRun(h, universe, states, actions, trail[..last]);
      var run := states + AsSystems(s, trail[..last][1..]);
      assert run[|run| - 1] == s.(device := trail[last - 1]);
      OneMoreStep(h, universe, run, actions + front, move, trail[last]);
      more := front + [Action.Device(move)];
      assert run + [s.(device := trail[last])] == states + AsSystems(s, trail[1..]);
      assert actions + front + [Action.Device(move)] == actions + more;
    }
  }

  lemma PrefixIsTrail(h: Digest, universe: set<Bytes>, trail: seq<Device>, n: nat)
    requires IsTrail(h, universe, trail) && 0 < n <= |trail|
    ensures IsTrail(h, universe, trail[..n])
  {
    var front := trail[..n];
    forall i | 0 < i < |front|
      ensures Steps(h, universe, front[i - 1], front[i])
    {
      assert Steps(h, universe, trail[i - 1], trail[i]);
    }
    forall i | 0 <= i < |front|
      ensures DeviceInv(h, universe, front[i])
    {
      assert DeviceInv(h, universe, trail[i]);
    }
  }
}
