// The main-thread step of the speed receiver (Assets/Scripts/SpeedReceiver.cs):
// speeds arrive from a network thread through a queue; each frame either
// takes the simulated speed, or drains the queue so that the last received
// speed wins and, once no speed has arrived for longer than the timeout,
// lets the speed decay towards zero.
//
// Time.time and Time.deltaTime are parameters; the queue is a sequence the
// receive thread appends to.

module SpeedReceiving {

  /** What a frame reads and writes. */
  datatype Reading = Reading(latestSpeed: real, lastReceivedTime: real, queue: seq<real>)

  /** The inspector settings. */
  datatype Settings = Settings(speedTimeout: real, decelerationRate: real, simulate: bool, simulateSpeed: real)

  function Max(a: real, b: real): real {
    if a >= b then a else b
  }

  /** The speed and receive time after draining `queue` at time `now`. */
  function Drained(speed: real, lastReceivedTime: real, queue: seq<real>, now: real): (real, real) {
    if queue == [] then (speed, lastReceivedTime) else (queue[|queue| - 1], now)
  }

  /** The speed after the timeout check at time `now`, with frame length
      `deltaTime`. */
  function Decayed(speed: real, lastReceivedTime: real, now: real, s: Settings, deltaTime: real): real {
    if now - lastReceivedTime > s.speedTimeout && lastReceivedTime > 0.0 && speed > 0.0
    then Max(0.0, speed - s.decelerationRate * deltaTime)
    else speed
  }

  /** One frame of Update. */
  function Step(r: Reading, s: Settings, now: real, deltaTime: real): Reading {
    if s.simulate then r.(latestSpeed := s.simulateSpeed)
    else
      var (speed, received) := Drained(r.latestSpeed, r.lastReceivedTime, r.queue, now);
      Reading(Decayed(speed, received, now, s, deltaTime), received, [])
  }

  /** Decay only starts once a speed has arrived and the timeout has passed,
      it never takes a positive speed below zero, it never raises the speed
      while the rate and the frame length are non-negative, and it leaves a
      speed that is not positive alone. */
  lemma DecayedBounds(speed: real, lastReceivedTime: real, now: real, s: Settings, deltaTime: real)
    ensures !(now - lastReceivedTime > s.speedTimeout && lastReceivedTime > 0.0)
            ==> Decayed(speed, lastReceivedTime, now, s, deltaTime) == speed
    ensures speed <= 0.0 ==> Decayed(speed, lastReceivedTime, now, s, deltaTime) == speed
    ensures speed > 0.0 ==> Decayed(speed, lastReceivedTime, now, s, deltaTime) >= 0.0
    ensures s.decelerationRate * deltaTime >= 0.0 ==> Decayed(speed, lastReceivedTime, now, s, deltaTime) <= speed
    ensures now - lastReceivedTime > s.speedTimeout && lastReceivedTime > 0.0 && speed > 0.0
            ==> Decayed(speed, lastReceivedTime, now, s, deltaTime)
                == (if speed - s.decelerationRate * deltaTime >= 0.0 then speed - s.decelerationRate * deltaTime else 0.0)
  {
  }

  /** The simulated speed overrides everything else: the queue is kept and
      the receive time is untouched. */
  lemma StepSimulated(r: Reading, s: Settings, now: real, deltaTime: real)
    requires s.simulate
    ensures Step(r, s, now, deltaTime) == Reading(s.simulateSpeed, r.lastReceivedTime, r.queue)
  {
  }

  /** Draining a non-empty queue empties it, keeps the last speed received
      and stamps the receive time; with a non-negative timeout that speed is
      not decayed in the same frame. */
  lemma StepReceives(r: Reading, s: Settings, now: real, deltaTime: real)
    requires !s.simulate && r.queue != []
    ensures Step(r, s, now, deltaTime).queue == []
    ensures Step(r, s, now, deltaTime).lastReceivedTime == now
    ensures s.speedTimeout >= 0.0 ==> Step(r, s, now, deltaTime).latestSpeed == r.queue[|r.queue| - 1]
  {
  }

  /** Before the first speed arrives (the receive time starts at -1) the
      speed never decays. */
  lemma StepBeforeFirstSpeed(r: Reading, s: Settings, now: real, deltaTime: real)
    requires !s.simulate && r.queue == [] && r.lastReceivedTime <= 0.0
    ensures Step(r, s, now, deltaTime) == r
  {
  }

  /** Frames with no new speeds, each given as (Time.time, Time.deltaTime). */
  function Silent(r: Reading, s: Settings, frames: seq<(real, real)>): Reading
    decreases |frames|
  {
    if frames == [] then r
    else Silent(Step(r.(queue := []), s, frames[0].0, frames[0].1), s, frames[1..])
  }

  /** While no speed arrives and every frame length is non-negative, a
      non-negative speed only goes down and never below zero. */
  lemma {:induction false} SilentDecayBounded(r: Reading, s: Settings, frames: seq<(real, real)>)
    requires !s.simulate && s.decelerationRate >= 0.0 && r.latestSpeed >= 0.0
    requires forall k :: 0 <= k < |frames| ==> frames[k].1 >= 0.0
    ensures 0.0 <= Silent(r, s, frames).latestSpeed <= r.latestSpeed
    ensures Silent(r, s, frames).lastReceivedTime == r.lastReceivedTime
    decreases |frames|
  {
    if frames != [] {
      var next := Step(r.(queue := []), s, frames[0].0, frames[0].1);
      DecayedBounds(r.latestSpeed, r.lastReceivedTime, frames[0].0, s, frames[0].1);
      assert s.decelerationRate * frames[0].1 >= 0.0;
      SilentDecayBounded(next, s, frames[1..]);
    }
  }

  class SpeedReceiver {
    var latestSpeed: real
    var lastReceivedTime: real
    var speedTimeout: real
    var decelerationRate: real
    var speedQueue: seq<real>
    var simulate: bool
    var simulateSpeed: real

    /** The speedKph property. */
    function SpeedKph(): (r: real)
      reads this
      ensures r == CurrentReading().latestSpeed
    {
      latestSpeed
    }

    function CurrentReading(): Reading
      reads this
    {
      Reading(latestSpeed, lastReceivedTime, speedQueue)
    }

    function CurrentSettings(): Settings
      reads this
    {
      Settings(speedTimeout, decelerationRate, simulate, simulateSpeed)
    }

    /** The field initialisers: no speed yet and an empty queue. The timeout
        (2 s by default) and the decay rate (5 km/h per second by default)
        are inspector settings and are given, like the simulate settings. */
    constructor (speedTimeout: real, decelerationRate: real, simulate: bool, simulateSpeed: real)
      ensures latestSpeed == 0.0 && lastReceivedTime == -1.0 && speedQueue == []
      ensures CurrentSettings() == Settings(speedTimeout, decelerationRate, simulate, simulateSpeed)
    {
      latestSpeed := 0.0;
      lastReceivedTime := -1.0;
      this.speedTimeout := speedTimeout;
      this.decelerationRate := decelerationRate;
      speedQueue := [];
      this.simulate := simulate;
      this.simulateSpeed := simulateSpeed;
    }

    /** Start: simulation is switched on in the editor and off in a build,
        whatever the inspector said. Starting the receive coroutine is not
        part of this model. */
    method Start(inEditor: bool)
      modifies this`simulate
      ensures simulate == inEditor
    {
      if inEditor {
        simulate := true;
      } else {
        simulate := false;
      }
    }

    /** The receive thread hands over a parsed speed. */
    method Enqueue(speed: real)
      modifies this`speedQueue
      ensures speedQueue == old(speedQueue) + [speed]
    {
      speedQueue := speedQueue + [speed];
    }

    /** One frame at time `now`, `deltaTime` after the previous one. */
    method Update(now: real, deltaTime: real)
      modifies this`latestSpeed, this`lastReceivedTime, this`speedQueue
      ensures CurrentReading() == Step(old(CurrentReading()), CurrentSettings(), now, deltaTime)
    {
      if simulate {
        latestSpeed := simulateSpeed;
        return;
      }
      ghost var received := speedQueue;
      ghost var taken: nat := 0;
      while speedQueue != []
        invariant taken <= |received| && speedQueue == received[taken..]
        invariant taken == 0 ==> latestSpeed == old(latestSpeed) && lastReceivedTime == old(lastReceivedTime)
        invariant taken > 0 ==> latestSpeed == received[taken - 1] && lastReceivedTime == now
        decreases |speedQueue|
      {
        var receivedSpeed := speedQueue[0];
        speedQueue := speedQueue[1..];
        taken := taken + 1;
        latestSpeed := receivedSpeed;
        lastReceivedTime := now;
      }
      var timeSinceLast := now - lastReceivedTime;
      if timeSinceLast > speedTimeout && lastReceivedTime > 0.0 {
        if latestSpeed > 0.0 {
          latestSpeed := Max(0.0, latestSpeed - decelerationRate * deltaTime);
        }
      }
    }
  }
}
