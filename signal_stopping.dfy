// The bicycle's signal latch (Assets/Scripts/SignalStoppingVehicle.cs): the
// first traffic-light stopper the bicycle enters is latched, any exit clears
// the latch, and while the bicycle stays inside a trigger the latched light
// decides whether to stop or resume. The speed receiver's Stop and Resume are
// not part of this model; the commands are returned instead.

module SignalStopping {
  import opened Options
  import opened TrafficLights

  /** The TrafficLightStopper component: the light it stands for. */
  datatype TrafficLightStopper = TrafficLightStopper(trafficLight: TrafficLight?)

  /** A trigger collider: its tag and the stopper component it carries. */
  datatype Collider = Collider(tag: string, stopper: Option<TrafficLightStopper>)

  datatype Command = Stop | Resume

  const StopperTag := "Stopper"

  /** A collider that latches a light on entry when nothing is latched. */
  predicate IsStopper(other: Collider) {
    other.tag == StopperTag && other.stopper.Some?
  }

  /** The latch after entering `other`. */
  function Enter(signal: TrafficLight?, other: Collider): TrafficLight? {
    if other.tag == StopperTag && signal == null && other.stopper.Some?
    then other.stopper.value.trafficLight
    else signal
  }

  /** The command a red or green light calls for; a yellow one calls for
      none. */
  function CommandFor(s: LightState): (r: Option<Command>)
    ensures r == Some(Stop) <==> s == Red
    ensures r == Some(Resume) <==> s == Green
    ensures r == None <==> s == Yellow
  {
    match s
    case Red => Some(Stop)
    case Green => Some(Resume)
    case Yellow => None
  }

  /** The first stopper wins: an empty latch entering a stopper takes its
      light; once a light is latched, entering any collider keeps it;
      entering a collider not tagged as a stopper never changes the latch. */
  lemma EnterFirstWins(signal: TrafficLight?, other: Collider)
    ensures signal == null && IsStopper(other) ==> Enter(signal, other) == other.stopper.value.trafficLight
    ensures signal != null ==> Enter(signal, other) == signal
    ensures other.tag != StopperTag ==> Enter(signal, other) == signal
    ensures Enter(signal, other) != signal ==> signal == null && IsStopper(other)
                                               && Enter(signal, other) == other.stopper.value.trafficLight
  {
  }

  datatype Event = Entered(other: Collider) | Exited(other: Collider)

  /** The latch after a sequence of trigger events. */
  function Replay(signal: TrafficLight?, events: seq<Event>): TrafficLight?
    decreases |events|
  {
    if events == [] then signal
    else
      var next := match events[0]
        case Entered(other) => Enter(signal, other)
        case Exited(_) => null;
      Replay(next, events[1..])
  }

  /** The stopper entry that latched `light`. */
  predicate LatchedBy(e: Event, light: TrafficLight?) {
    e.Entered? && IsStopper(e.other) && e.other.stopper.value.trafficLight == light
  }

  /** Whatever happens, a latched light is the one the bicycle started with
      or the light of a stopper it entered; after an exit the latch is
      empty. */
  lemma {:induction false} ReplayLatchesEnteredStopper(signal: TrafficLight?, events: seq<Event>)
    ensures var r := Replay(signal, events);
            r == null || r == signal || exists k :: 0 <= k < |events| && LatchedBy(events[k], r)
    ensures events != [] && events[|events| - 1].Exited? ==> Replay(signal, events) == null
    decreases |events|
  {
    if events != [] {
      var next := match events[0]
        case Entered(other) => Enter(signal, other)
        case Exited(_) => null;
      ReplayLatchesEnteredStopper(next, events[1..]);
      var r := Replay(signal, events);
      assert r == Replay(next, events[1..]);
      if r != null && r != signal {
        if r == next {
          assert LatchedBy(events[0], r);
        } else {
          var k :| 0 <= k < |events[1..]| && LatchedBy(events[1..][k], r);
          assert LatchedBy(events[k + 1], r);
        }
      }
      if events[|events| - 1].Exited? && |events| > 1 {
        assert events[1..][|events[1..]| - 1] == events[|events| - 1];
      }
    }
  }

  class SignalStoppingVehicle {
    var signal: TrafficLight?
    var bicycleSlowdown: bool

    constructor (bicycleSlowdown: bool)
      ensures signal == null && this.bicycleSlowdown == bicycleSlowdown
    {
      signal := null;
      this.bicycleSlowdown := bicycleSlowdown;
    }

    method OnTriggerEnter(other: Collider)
      modifies this`signal
      ensures signal == Enter(old(signal), other)
    {
      if other.tag == StopperTag {
        if signal == null {
          match other.stopper {
            case Some(stopper) =>
              signal := stopper.trafficLight;
            case None =>
          }
        }
      }
    }

    /** One physics step inside a trigger: with slowdown on and a light
        latched, Red asks for Stop and Green for Resume. Nothing changes. */
    method OnTriggerStay(other: Collider) returns (command: Option<Command>)
      ensures command == Some(Stop) <==> signal != null && bicycleSlowdown && signal.state == Red
      ensures command == Some(Resume) <==> signal != null && bicycleSlowdown && signal.state == Green
      ensures signal == null || !bicycleSlowdown ==> command == None
    {
      command := None;
      if signal != null {
        if bicycleSlowdown {
          command := CommandFor(signal.state);
        }
      }
    }

    /** Leaving any trigger clears the latch. */
    method OnTriggerExit(other: Collider)
      modifies this`signal
      ensures signal == null
    {
      signal := null;
    }
  }
}
