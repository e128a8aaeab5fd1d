/**
 * Publication policy for one estimator generation (src/flight_session.cpp).
 *
 * `Session` is the value of a policy object and says what each call computes;
 * `FlightSession` is the object the link owns, whose methods update its fields in place.
 */
module Sessions {
  import opened Basics

  datatype SessionState = WaitingForController | Priming | AwaitingAlignment | Aligned | Failed

  datatype AlignmentResult = Accepted | InProgress | Retry | Rejected

  datatype StartResult = Begun | Outstanding | NotIncreasing

  datatype Config = Config(
    heartbeatTimeout: Time,
    alignmentTimeout: Time,
    progressTimeout: Time,
    maxEstimateAge: Time,
    alignmentAttempts: nat)
  {
    /** What the constructor insists on: positive limits, and a retry count MAVLink's byte can carry. */
    predicate Valid() {
      && heartbeatTimeout > 0 && alignmentTimeout > 0 && progressTimeout > 0 && maxEstimateAge > 0
      && 1 <= alignmentAttempts <= 256
    }
  }

  datatype Session = Session(
    config: Config,
    state: SessionState,
    generation: Option<nat>,
    heartbeatTime: Option<Time>,
    measurementTime: Option<Time>,
    requestTime: Time,
    nextRequestTime: Time,
    armed: bool,
    inProgress: bool,
    attempts: nat,
    resetCounter: Byte)
  {
    predicate ControllerFresh(now: Time) {
      heartbeatTime.Some? && 0 <= now - heartbeatTime.value < config.heartbeatTimeout
    }

    predicate CanPublish(now: Time) {
      generation.Some? && ControllerFresh(now) && !state.Failed? && (state.Aligned? || !armed)
    }

    predicate ControllerDisarmed(now: Time) {
      ControllerFresh(now) && !armed
    }

    predicate AlignmentDue(now: Time) {
      && state.Priming? && CanPublish(now) && !armed
      && attempts < config.alignmentAttempts && now >= nextRequestTime
      && measurementTime.Some? && 0 <= now - measurementTime.value <= config.maxEstimateAge
    }

    /** How long the outstanding request may wait for its next event. */
    function ActiveTimeout(): Time {
      if inProgress then config.progressTimeout else config.alignmentTimeout
    }

    function Fail(): Session {
      this.(state := Failed, measurementTime := None)
    }

    function Start(next: nat): (Session, StartResult) {
      if state.Failed? || (attempts != 0 && !state.Aligned?) then (this, Outstanding)
      else if generation.Some? && next <= generation.value then (this, NotIncreasing)
      else (this.(resetCounter := if generation.Some? then Increment(resetCounter) else resetCounter,
                  generation := Some(next),
                  measurementTime := None,
                  attempts := 0,
                  inProgress := false,
                  nextRequestTime := 0,
                  state := WaitingForController), Begun)
    }

    function Tick(now: Time): Session {
      if generation.None? || state.Failed? then this
      else if !ControllerFresh(now) then
        if state.AwaitingAlignment? then Fail()
        else this.(attempts := if state.Aligned? then 0 else attempts,
                   state := WaitingForController,
                   measurementTime := None)
      else if state.WaitingForController? then this.(state := Priming)
      else if state.AwaitingAlignment? && now - requestTime >= ActiveTimeout() then
        if inProgress || attempts >= config.alignmentAttempts then Fail()
        else this.(state := Priming, nextRequestTime := now)
      else this
    }

    function Heartbeat(nowArmed: bool, now: Time): Session {
      var heard := Tick(now).(heartbeatTime := Some(now), armed := nowArmed);
      (if heard.state.AwaitingAlignment? && nowArmed then heard.Fail() else heard).Tick(now)
    }

    function MeasurementSent(timestamp: Time): Session {
      this.(measurementTime := Some(timestamp))
    }

    /** The flag is false where the source throws `logic_error`. */
    function AlignmentSent(now: Time): (Session, bool) {
      if !AlignmentDue(now) then (this, false)
      else (this.(attempts := attempts + 1, requestTime := now, inProgress := false,
                  state := AwaitingAlignment), true)
    }

    /** Whether a reply arriving now resolves an outstanding request instead of being ignored. */
    predicate Honours(now: Time) {
      var s := Tick(now);
      s.state.AwaitingAlignment? && s.ControllerFresh(now) && !s.armed
    }

    function Acknowledge(result: AlignmentResult, now: Time): Session {
      var s := Tick(now);
      if !Honours(now) then s
      else match result
        case Accepted => s.(state := Aligned)
        case InProgress => s.(inProgress := true)
        case Retry =>
          if s.attempts >= config.alignmentAttempts then s.Fail()
          else s.(state := Priming, nextRequestTime := now + config.alignmentTimeout)
        case Rejected => s.Fail()
    }

    /** The bounds every reachable session keeps. */
    predicate Bounded() {
      match state
      case WaitingForController => config.Valid() && attempts < config.alignmentAttempts
      case Priming => config.Valid() && generation.Some? && attempts < config.alignmentAttempts
      case AwaitingAlignment =>
        && config.Valid() && generation.Some? && heartbeatTime.Some? && !armed
        && 1 <= attempts <= config.alignmentAttempts
      case Aligned => config.Valid() && generation.Some? && 1 <= attempts <= config.alignmentAttempts
      case Failed => config.Valid()
    }
  }

  function NewSession(config: Config, reset: Byte): Session {
    Session(config, WaitingForController, None, None, None, 0, 0, true, false, 0, reset)
  }

  /** The policy object owned by the link. */
  class FlightSession {
    const config: Config
    var state: SessionState
    var generation: Option<nat>
    var heartbeatTime: Option<Time>
    var measurementTime: Option<Time>
    var requestTime: Time
    var nextRequestTime: Time
    var armed: bool
    var inProgress: bool
    var attempts: nat
    var resetCounter: Byte

    ghost function View(): Session
      reads this
    {
      Session(config, state, generation, heartbeatTime, measurementTime, requestTime, nextRequestTime,
              armed, inProgress, attempts, resetCounter)
    }

    constructor (config: Config, initialResetCounter: Byte)
      requires config.Valid()
      ensures View() == NewSession(config, initialResetCounter)
    {
      this.config := config;
      state, generation, heartbeatTime, measurementTime := WaitingForController, None, None, None;
      requestTime, nextRequestTime, armed, inProgress, attempts := 0, 0, true, false, 0;
      resetCounter := initialResetCounter;
    }

    /** The constructor of the source, which throws (here: returns null) on unusable limits. */
    static method Create(config: Config, initialResetCounter: Byte) returns (session: FlightSession?)
      ensures session == null <==> !config.Valid()
      ensures session != null ==> fresh(session) && session.View() == NewSession(config, initialResetCounter)
    {
      if config.heartbeatTimeout <= 0 || config.alignmentTimeout <= 0 || config.progressTimeout <= 0 ||
         config.maxEstimateAge <= 0 || config.alignmentAttempts == 0 || config.alignmentAttempts > 256 {
        return null;
      }
      session := new FlightSession(config, initialResetCounter);
    }

    predicate ControllerFresh(now: Time)
      reads this
      ensures ControllerFresh(now) == View().ControllerFresh(now)
    {
      heartbeatTime.Some? && now >= heartbeatTime.value && now - heartbeatTime.value < config.heartbeatTimeout
    }

    predicate CanPublish(now: Time)
      reads this
      ensures CanPublish(now) == View().CanPublish(now)
    {
      generation.Some? && ControllerFresh(now) && state != Failed && (state == Aligned || !armed)
    }

    predicate AlignmentDue(now: Time)
      reads this
      ensures AlignmentDue(now) == View().AlignmentDue(now)
    {
      && state == Priming && CanPublish(now) && !armed
      && attempts < config.alignmentAttempts && now >= nextRequestTime
      && measurementTime.Some? && now >= measurementTime.value
      && now - measurementTime.value <= config.maxEstimateAge
    }

    method Start(next: nat) returns (result: StartResult)
      modifies this
      ensures (View(), result) == old(View()).Start(next)
    {
      if state == Failed || (attempts != 0 && state != Aligned) {
        return Outstanding;
      }
      if generation.Some? && next <= generation.value {
        return NotIncreasing;
      }
      if generation.Some? {
        resetCounter := Increment(resetCounter);
      }
      generation := Some(next);
      measurementTime := None;
      attempts := 0;
      inProgress := false;
      nextRequestTime := 0;
      state := WaitingForController;
      result := Begun;
    }

    method Fail()
      modifies this
      ensures View() == old(View()).Fail()
    {
      state := Failed;
      measurementTime := None;
    }

    method Tick(now: Time)
      modifies this
      ensures View() == old(View()).Tick(now)
    {
      if generation.None? || state == Failed {
        return;
      }
      if !ControllerFresh(now) {
        if state == AwaitingAlignment {
          Fail();
        } else {
          if state == Aligned {
            attempts := 0;
          }
          state := WaitingForController;
          measurementTime := None;
        }
        return;
      }
      if state == WaitingForController {
        state := Priming;
      }
      if state == AwaitingAlignment &&
         now - requestTime >= (if inProgress then config.progressTimeout else config.alignmentTimeout) {
        if inProgress || attempts >= config.alignmentAttempts {
          Fail();
        } else {
          state := Priming;
          nextRequestTime := now;
        }
      }
    }

    method Heartbeat(nowArmed: bool, now: Time)
      modifies this
      ensures View() == old(View()).Heartbeat(nowArmed, now)
    {
      Tick(now);
      heartbeatTime := Some(now);
      armed := nowArmed;
      if state == AwaitingAlignment && nowArmed {
        Fail();
      }
      Tick(now);
    }

    method MeasurementSent(timestamp: Time)
      modifies this
      ensures View() == old(View()).MeasurementSent(timestamp)
    {
      measurementTime := Some(timestamp);
    }

    method AlignmentSent(now: Time) returns (ok: bool)
      modifies this
      ensures (View(), ok) == old(View()).AlignmentSent(now)
    {
      if !AlignmentDue(now) {
        return false;
      }
      attempts := attempts + 1;
      requestTime := now;
      inProgress := false;
      state := AwaitingAlignment;
      ok := true;
    }

    method Acknowledge(result: AlignmentResult, now: Time)
      modifies this
      ensures View() == old(View()).Acknowledge(result, now)
    {
      Tick(now);
      if state != AwaitingAlignment || !ControllerFresh(now) || armed {
        return;
      }
      match result {
        case Accepted =>
          state := Aligned;
        case InProgress =>
          inProgress := true;
        case Retry =>
          if attempts >= config.alignmentAttempts {
            Fail();
          } else {
            state := Priming;
            nextRequestTime := now + config.alignmentTimeout;
          }
        case Rejected =>
          Fail();
      }
    }
  }
}
