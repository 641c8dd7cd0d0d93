// The traffic-light phase machine (Assets/Scripts/TrafficLight.cs): a
// Red/Yellow/Green state that remembers the last Red or Green it showed, a
// timer that starts a transition through Yellow to the opposite primary
// state, three light blockers of which the one for the current state is
// hidden, and one change notification per state write.
//
// Time.time is a parameter. The transition coroutine runs its first half
// (Yellow) when Update starts it and its second half when ResumeTransition is
// called, which the engine does 0.5 s later; `pendingTransitions` counts the
// coroutines waiting between the two halves.

module TrafficLights {
  import opened Options

  datatype LightState = Red | Yellow | Green

  /** The enum's underlying value, (int)state. */
  function Index(s: LightState): nat {
    match s
    case Red => 0
    case Yellow => 1
    case Green => 2
  }

  /** The activity of n light blockers while the light shows s: the blocker
      at (int)s is inactive, every other one active. */
  function BlockerPattern(n: nat, s: LightState): seq<bool> {
    seq(n, i => i != Index(s))
  }

  /** In a full set of three blockers, exactly one is hidden: the one at
      Red = 0, Yellow = 1, Green = 2. */
  lemma BlockerPatternHidesOnlyCurrent(s: LightState)
    ensures var p := BlockerPattern(3, s);
            && !p[Index(s)]
            && (forall i :: 0 <= i < 3 && i != Index(s) ==> p[i])
            && (p == [false, true, true] <==> s == Red)
            && (p == [true, false, true] <==> s == Yellow)
            && (p == [true, true, false] <==> s == Green)
  {
    var p := BlockerPattern(3, s);
    if s == Red {
      assert p == [false, true, true];
    } else if s == Yellow {
      assert p == [true, false, true];
    } else {
      assert p == [true, true, false];
    }
  }

  /** The part of the light's state the phase machine is about. */
  datatype Phase = Phase(state: LightState, lastPrimary: LightState)

  predicate IsPrimary(s: LightState) {
    s == Red || s == Green
  }

  /** ChangeState(s): the light shows s, and s is remembered when it is Red
      or Green. */
  function ChangeStatePhase(p: Phase, s: LightState): Phase {
    Phase(s, if IsPrimary(s) then s else p.lastPrimary)
  }

  /** The state the second half of a transition switches to, if any. */
  function TransitionTarget(lastPrimary: LightState): Option<LightState> {
    match lastPrimary
    case Red => Some(Green)
    case Green => Some(Red)
    case Yellow => None
  }

  /** First half of TransitionWithYellow. */
  function BeginTransition(p: Phase): Phase {
    ChangeStatePhase(p, Yellow)
  }

  /** Second half of TransitionWithYellow. */
  function FinishTransition(p: Phase): Phase {
    match TransitionTarget(p.lastPrimary)
    case Some(s) => ChangeStatePhase(p, s)
    case None => p
  }

  /** A complete transition. */
  function Transition(p: Phase): Phase {
    FinishTransition(BeginTransition(p))
  }

  /** ChangeState remembers Red and Green and leaves the memory alone for
      Yellow. */
  lemma ChangeStateRemembersPrimary(p: Phase, s: LightState)
    ensures ChangeStatePhase(p, s).state == s
    ensures IsPrimary(s) ==> ChangeStatePhase(p, s).lastPrimary == s
    ensures s == Yellow ==> ChangeStatePhase(p, s).lastPrimary == p.lastPrimary
  {
  }

  /** A transition passes through Yellow and ends on the opposite primary
      state: Red ends Green and Green ends Red, whatever the light showed. */
  lemma TransitionFlipsPrimary(p: Phase)
    requires IsPrimary(p.lastPrimary)
    ensures BeginTransition(p) == Phase(Yellow, p.lastPrimary)
    ensures p.lastPrimary == Red ==> Transition(p) == Phase(Green, Green)
    ensures p.lastPrimary == Green ==> Transition(p) == Phase(Red, Red)
  {
  }

  /** A light whose memory is Yellow (it was set to Yellow before Start) is
      stuck on Yellow: neither branch of the second half fires. */
  lemma TransitionFromYellowMemoryStaysYellow(p: Phase)
    requires p.lastPrimary == Yellow
    ensures Transition(p) == Phase(Yellow, Yellow)
  {
  }

  /** n complete transitions. */
  function Transitions(p: Phase, n: nat): Phase {
    if n == 0 then p else Transition(Transitions(p, n - 1))
  }

  /** Complete transitions alternate the primary state: after an even number
      the light is back on its remembered primary state, after an odd number
      on the opposite one; two in a row restore the original primary. */
  lemma {:induction false} TransitionsAlternate(p: Phase, n: nat)
    requires IsPrimary(p.lastPrimary) && n > 0
    ensures Transitions(p, n).state == Transitions(p, n).lastPrimary
    ensures n % 2 == 0 ==> Transitions(p, n).lastPrimary == p.lastPrimary
    ensures n % 2 == 1 ==> Transitions(p, n).lastPrimary == TransitionTarget(p.lastPrimary).value
  {
    if n > 1 {
      TransitionsAlternate(p, n - 1);
    }
  }

  class TrafficLight {
    // Inspector settings.
    var testLightState: LightState
    var waitTime: real
    var autoOnOff: bool
    /** Active flags of the light blocker objects (GameObject.SetActive). */
    const lightObject: array<bool>

    var lastChangeTime: real
    var state: LightState
    var lastPrimaryState: LightState
    /** The values passed to OnLightChanged.Invoke, oldest first. */
    var notifications: seq<LightState>
    /** Transition coroutines between their Yellow and their final half. */
    var pendingTransitions: nat

    function CurrentPhase(): Phase
      reads this
    {
      Phase(state, lastPrimaryState)
    }

    /** The blockers are set for s: only the one at (int)s is hidden. */
    ghost predicate Shows(s: LightState)
      reads this, lightObject
    {
      lightObject[..] == BlockerPattern(lightObject.Length, s)
    }

    /** A light as the scene loads it: the field initialisers, with the
        serialized settings given. */
    constructor (lights: array<bool>, waitTime: real, autoOnOff: bool, testLightState: LightState)
      ensures this.lightObject == lights && this.waitTime == waitTime && this.autoOnOff == autoOnOff
      ensures this.testLightState == testLightState
      ensures state == Red && lastPrimaryState == Red && lastChangeTime == 0.0
      ensures notifications == [] && pendingTransitions == 0
    {
      this.lightObject := lights;
      this.waitTime := waitTime;
      this.autoOnOff := autoOnOff;
      this.testLightState := testLightState;
      lastChangeTime := 0.0;
      state := Red;
      lastPrimaryState := Red;
      notifications := [];
      pendingTransitions := 0;
    }

    /** Sets every blocker's activity from the current state, then notifies
        the listeners once with it. */
    method ChangeSignal()
      modifies this`notifications, lightObject
      ensures Shows(state)
      ensures notifications == old(notifications) + [state]
    {
      for i := 0 to lightObject.Length
        invariant forall k :: 0 <= k < i ==> lightObject[k] == (k != Index(state))
        invariant notifications == old(notifications)
      {
        lightObject[i] := i != Index(state);
      }
      notifications := notifications + [state];
    }

    /** The State property's setter. */
    method SetState(value: LightState)
      modifies this`state, this`notifications, lightObject
      ensures state == value && Shows(value)
      ensures notifications == old(notifications) + [value]
    {
      state := value;
      ChangeSignal();
    }

    method ChangeState(newState: LightState)
      modifies this`state, this`lastPrimaryState, this`notifications, lightObject
      ensures CurrentPhase() == ChangeStatePhase(old(CurrentPhase()), newState)
      ensures Shows(newState)
      ensures notifications == old(notifications) + [newState]
    {
      SetState(newState);
      if newState == Red || newState == Green {
        lastPrimaryState := newState;
      }
    }

    method ChangeStateToTestLightState()
      modifies this`state, this`lastPrimaryState, this`notifications, lightObject
      ensures CurrentPhase() == ChangeStatePhase(old(CurrentPhase()), testLightState)
      ensures Shows(testLightState)
      ensures notifications == old(notifications) + [testLightState]
    {
      ChangeState(testLightState);
    }

    /** Start: the timer starts now and the current state is remembered,
        even when it is Yellow. */
    method Start(now: real)
      modifies this`lastChangeTime, this`lastPrimaryState
      ensures lastChangeTime == now && lastPrimaryState == state
    {
      lastChangeTime := now;
      lastPrimaryState := state;
    }

    /** One frame at time `now`: with automatic switching on and at least
        waitTime elapsed since the last change, the timer restarts and a
        transition begins by showing Yellow. Nothing changes otherwise. */
    method Update(now: real) returns (started: bool)
      modifies this`lastChangeTime, this`state, this`lastPrimaryState, this`notifications,
               this`pendingTransitions, lightObject
      ensures started <==> old(autoOnOff) && now - old(lastChangeTime) >= waitTime
      ensures started ==> && lastChangeTime == now
                          && CurrentPhase() == BeginTransition(old(CurrentPhase()))
                          && Shows(Yellow)
                          && notifications == old(notifications) + [Yellow]
                          && pendingTransitions == old(pendingTransitions) + 1
      ensures !started ==> && lastChangeTime == old(lastChangeTime)
                           && CurrentPhase() == old(CurrentPhase())
                           && notifications == old(notifications)
                           && pendingTransitions == old(pendingTransitions)
                           && lightObject[..] == old(lightObject[..])
    {
      started := false;
      if !autoOnOff {
        return;
      }
      if now - lastChangeTime >= waitTime {
        lastChangeTime := now;
        started := true;
        ChangeState(Yellow);
        pendingTransitions := pendingTransitions + 1;
      }
    }

    /** The second half of a transition, after its 0.5 s of Yellow: switch
        to the opposite of the remembered primary state, if there is one. */
    method ResumeTransition()
      requires pendingTransitions > 0
      modifies this`state, this`lastPrimaryState, this`notifications, this`pendingTransitions, lightObject
      ensures pendingTransitions == old(pendingTransitions) - 1
      ensures CurrentPhase() == FinishTransition(old(CurrentPhase()))
      ensures match TransitionTarget(old(lastPrimaryState))
              case Some(s) => Shows(s) && notifications == old(notifications) + [s]
              case None => notifications == old(notifications) && lightObject[..] == old(lightObject[..])
    {
      pendingTransitions := pendingTransitions - 1;
      if lastPrimaryState == Red {
        ChangeState(Green);
      } else if lastPrimaryState == Green {
        ChangeState(Red);
      }
    }
  }

  /** A started light, left to run: each cycle of Update and ResumeTransition
      shows Yellow, then the opposite primary, and announces both, in that
      order. */
  method RunCycle(light: TrafficLight, now: real)
    requires light.autoOnOff && now - light.lastChangeTime >= light.waitTime
    requires light.lastPrimaryState == Red
    modifies light`lastChangeTime, light`state, light`lastPrimaryState, light`notifications,
             light`pendingTransitions, light.lightObject
    ensures light.lastChangeTime == now
    ensures light.CurrentPhase() == Phase(Green, Green) && light.Shows(Green)
    ensures light.notifications == old(light.notifications) + [Yellow, Green]
    ensures light.pendingTransitions == old(light.pendingTransitions)
  {
    var started := light.Update(now);
    light.ResumeTransition();
  }
}
