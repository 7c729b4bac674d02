/** The LED / button-counter service of backend/main.py.
    The process holds two pieces of state: the LED state string ("ON" or "OFF",
    initially "OFF") and the button-press counter (initially 0). Each HTTP handler
    reads or updates that state and answers with a small record. */
module Handlers {

  // LED state values and the fixed reply messages of the handlers
  const LedOn: string := "ON"
  const LedOff: string := "OFF"
  const RootMessage: string := "API de control de LED para ESP32"
  const OnMessage: string := "LED encendido"
  const OffMessage: string := "LED apagado"
  const IncrementedMessage: string := "Contador incrementado"
  const ResetMessage: string := "Contador reiniciado"

  /** The JSON record each handler answers with, one shape per handler kind. */
  datatype Reply =
    | Info(message: string)                       // {"message": ...}
    | LedStatus(state: string)                    // {"state": ...}
    | LedChanged(message: string, state: string)  // {"message": ..., "state": ...}
    | Count(count: int)                           // {"count": ...}
    | CountChanged(message: string, count: int)   // {"message": ..., "count": ...}

  /** The seven handlers of the service. */
  datatype Handler =
    | ReadRoot
    | GetLedStatus
    | TurnLedOn
    | TurnLedOff
    | GetButtonCount
    | IncrementButtonCount
    | ResetButtonCount
  {
    predicate IsLedSetter() { this == TurnLedOn || this == TurnLedOff }
    predicate IsCounterMutator() { this == IncrementButtonCount || this == ResetButtonCount }
    predicate IsReader() { !IsLedSetter() && !IsCounterMutator() }
  }

  /** The whole process-wide state: the LED state string and the button counter. */
  datatype State = State(led: string, count: int)

  /** The state at process start. */
  const Initial: State := State(LedOff, 0)

  /** The invariant every handler keeps: the LED is "ON" or "OFF" and the count is not negative. */
  predicate Invariant(s: State) {
    (s.led == LedOn || s.led == LedOff) && s.count >= 0
  }

  /** One handler call: the new state and the reply. Each handler touches at most
      one of the two fields, readers touch neither, and the invariant is kept. */
  function Handle(s: State, h: Handler): (result: (State, Reply))
    ensures Invariant(s) ==> Invariant(result.0)
    ensures h.IsReader() ==> result.0 == s
    ensures h.IsLedSetter() ==> result.0.count == s.count
    ensures h.IsCounterMutator() ==> result.0.led == s.led
  {
    match h
    case ReadRoot => (s, Info(RootMessage))
    case GetLedStatus => (s, LedStatus(s.led))
    case TurnLedOn => (s.(led := LedOn), LedChanged(OnMessage, LedOn))
    case TurnLedOff => (s.(led := LedOff), LedChanged(OffMessage, LedOff))
    case GetButtonCount => (s, Count(s.count))
    case IncrementButtonCount => (s.(count := s.count + 1), CountChanged(IncrementedMessage, s.count + 1))
    case ResetButtonCount => (s.(count := 0), CountChanged(ResetMessage, 0))
  }

  /** The module-level state of the service and its handlers, updating the state in place. */
  class Controller {
    var led: string
    var count: int

    /** The current state as a value. */
    function Snapshot(): State
      reads this
    {
      State(led, count)
    }

    ghost predicate Valid()
      reads this
    {
      Invariant(Snapshot())
    }

    /** Process start: LED "OFF", count 0. */
    constructor ()
      ensures Valid()
      ensures led == LedOff && count == 0
      ensures Snapshot() == Initial
    {
      led := LedOff;
      count := 0;
    }

    /** read_root: the fixed informational message; no state is read or changed. */
    method ReadRoot() returns (r: Reply)
      ensures r == Info(RootMessage)
      ensures (Snapshot(), r) == Handle(Snapshot(), Handler.ReadRoot)
    {
      r := Info(RootMessage);
    }

    /** get_led_status: the current LED state, which is "ON" or "OFF". */
    method GetLedStatus() returns (r: Reply)
      requires Valid()
      ensures r.LedStatus? && r.state == led
      ensures r.state == LedOn || r.state == LedOff
      ensures (Snapshot(), r) == Handle(Snapshot(), Handler.GetLedStatus)
    {
      r := LedStatus(led);
    }

    /** turn_led_on: the LED becomes "ON" whatever it was; the counter is untouched. */
    method TurnLedOn() returns (r: Reply)
      requires Valid()
      modifies this
      ensures Valid()
      ensures led == LedOn && count == old(count)
      ensures r == LedChanged(OnMessage, LedOn)
      ensures (Snapshot(), r) == Handle(old(Snapshot()), Handler.TurnLedOn)
    {
      led := LedOn;
      r := LedChanged(OnMessage, led);
    }

    /** turn_led_off: the LED becomes "OFF" whatever it was; the counter is untouched. */
    method TurnLedOff() returns (r: Reply)
      requires Valid()
      modifies this
      ensures Valid()
      ensures led == LedOff && count == old(count)
      ensures r == LedChanged(OffMessage, LedOff)
      ensures (Snapshot(), r) == Handle(old(Snapshot()), Handler.TurnLedOff)
    {
      led := LedOff;
      r := LedChanged(OffMessage, led);
    }

    /** get_button_count: the current count, which is not negative. */
    method GetButtonCount() returns (r: Reply)
      requires Valid()
      ensures r.Count? && r.count == count
      ensures r.count >= 0
      ensures (Snapshot(), r) == Handle(Snapshot(), Handler.GetButtonCount)
    {
      r := Count(count);
    }

    /** increment_button_count: the count goes up by exactly one and the reply
        carries the value after the increment; the LED is untouched. */
    method IncrementButtonCount() returns (r: Reply)
      requires Valid()
      modifies this
      ensures Valid()
      ensures count == old(count) + 1 && led == old(led)
      ensures r == CountChanged(IncrementedMessage, count)
      ensures (Snapshot(), r) == Handle(old(Snapshot()), Handler.IncrementButtonCount)
    {
      count := count + 1;
      r := CountChanged(IncrementedMessage, count);
    }

    /** reset_button_count: the count becomes 0 whatever it was; the LED is untouched. */
    method ResetButtonCount() returns (r: Reply)
      requires Valid()
      modifies this
      ensures Valid()
      ensures count == 0 && led == old(led)
      ensures r == CountChanged(ResetMessage, 0)
      ensures (Snapshot(), r) == Handle(old(Snapshot()), Handler.ResetButtonCount)
    {
      count := 0;
      r := CountChanged(ResetMessage, count);
    }
  }

  /** From process start: read the LED, turn it on, read it again. */
  method LedScenario() returns (replies: seq<Reply>)
    ensures replies == [LedStatus("OFF"), LedChanged("LED encendido", "ON"), LedStatus("ON")]
  {
    var c := new Controller();
    var r1 := c.GetLedStatus();
    var r2 := c.TurnLedOn();
    var r3 := c.GetLedStatus();
    replies := [r1, r2, r3];
  }

  /** From process start: read the count, increment three times, reset. */
  method CounterScenario() returns (replies: seq<Reply>)
    ensures replies == [Count(0), CountChanged("Contador incrementado", 3), CountChanged("Contador reiniciado", 0)]
  {
    var c := new Controller();
    var r0 := c.GetButtonCount();
    var r := c.IncrementButtonCount();
    r := c.IncrementButtonCount();
    r := c.IncrementButtonCount();
    var r4 := c.ResetButtonCount();
    replies := [r0, r, r4];
  }
}
