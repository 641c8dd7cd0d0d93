// The mirror display of a traffic light (Assets/Scripts/MirrorTrafficLight.cs):
// a second set of light blockers that a listener of OnLightChanged sets to
// the state it is told.

module MirrorTrafficLights {
  import opened TrafficLights

  /** The mirror's ChangeSignal(s) as a map from the flags it finds, `a`, to
      the flags it leaves. It takes the old flags so that the lemmas below
      can say that they do not matter: every slot is written, and the result
      is the light's own BlockerPattern for as many slots. */
  function Blockers(a: seq<bool>, s: LightState): (r: seq<bool>)
    ensures |r| == |a|
    ensures forall i :: 0 <= i < |r| ==> (r[i] <==> i != Index(s))
  {
    BlockerPattern(|a|, s)
  }

  /** Setting the same state twice gives the same flags as setting it once. */
  lemma BlockersIdempotent(a: seq<bool>, s: LightState)
    ensures Blockers(Blockers(a, s), s) == Blockers(a, s)
  {
  }

  /** The last write decides: an earlier state leaves no trace. */
  lemma BlockersLastWriteWins(a: seq<bool>, s: LightState, t: LightState)
    ensures Blockers(Blockers(a, s), t) == Blockers(a, t)
  {
  }

  class MirrorTrafficLight {
    /** Active flags of the mirrored light blocker objects. */
    const lightObject: array<bool>

    constructor (lights: array<bool>)
      ensures lightObject == lights
    {
      lightObject := lights;
    }

    method ChangeSignal(state: LightState)
      modifies lightObject
      ensures lightObject[..] == Blockers(old(lightObject[..]), state)
      ensures Index(state) < lightObject.Length ==> !lightObject[Index(state)]
      ensures forall i :: 0 <= i < lightObject.Length && i != Index(state) ==> lightObject[i]
    {
      for i := 0 to lightObject.Length
        invariant forall k :: 0 <= k < i ==> lightObject[k] == (k != Index(state))
      {
        lightObject[i] := i != Index(state);
      }
    }
  }

  /** The scene wires the mirror to the light's OnLightChanged: after a state
      change is relayed, the mirror's blockers show the light's own pattern. */
  method ChangeStateMirrored(light: TrafficLight, mirror: MirrorTrafficLight, newState: LightState)
    requires light.lightObject != mirror.lightObject
    requires light.lightObject.Length == mirror.lightObject.Length
    modifies light`state, light`lastPrimaryState, light`notifications, light.lightObject, mirror.lightObject
    ensures light.CurrentPhase() == ChangeStatePhase(old(light.CurrentPhase()), newState)
    ensures light.notifications == old(light.notifications) + [newState]
    ensures light.Shows(newState)
    ensures mirror.lightObject[..] == BlockerPattern(mirror.lightObject.Length, newState)
    ensures mirror.lightObject[..] == light.lightObject[..]
  {
    light.ChangeState(newState);
    var announced := light.notifications[|light.notifications| - 1];
    mirror.ChangeSignal(announced);
  }
}
