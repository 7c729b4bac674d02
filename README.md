# ESP32 LED control service — Dafny model

This project models the state service in `backend/main.py`. It is a small HTTP
backend that keeps two pieces of process-wide state for an ESP32 board and its
operator page:

- the LED state string, which is `"ON"` or `"OFF"` and starts at `"OFF"`;
- the button-press counter, which starts at `0`.

Seven handlers read or change that state. `read_root` returns a fixed
message. `get_led_status` and `get_button_count` return the current values.
`turn_led_on` and `turn_led_off` set the LED. `increment_button_count` adds one
to the counter and `reset_button_count` sets it to zero. Each mutating handler
returns a record that carries the value after the change.

The model has two modules:

- `Handlers` (`handlers.dfy`) holds the state and reply datatypes and the
  invariant `Invariant` (LED is `"ON"` or `"OFF"`, count is at least 0). It also
  holds `Handle`, one handler call as a function on values, and the class
  `Controller`. The class has the two module-level fields and one method per
  handler, and each method updates the fields in place. Each method states its
  new state and its reply outright. It is also tied to `Handle`, so the lemmas
  about `Handle` carry over to the methods. `LedScenario` and `CounterScenario`
  run the class from process start through two request sequences: read the LED,
  turn it on and read it again; read the count, increment three times and reset.
- `Properties` (`properties.dfy`) defines `Run`, which applies a sequence of
  handler calls. It proves properties of such sequences against separate
  reference definitions: "last write wins" for the LED, a closed form for the
  counter, preservation of the invariant, framing and idempotence.

The LED state is kept as a string, as the source keeps it in a dictionary. The
counter is an unbounded `int`, because Python integers do not wrap. That the
LED is always `"ON"`/`"OFF"` and the count never negative is therefore proved
(as `Invariant`) rather than built into the types.

## Model

| member | source | states |
|---|---|---|
| Handlers.Controller.constructor | backend/main.py:15-17 | at process start the LED is `"OFF"` and the count is 0, and the invariant holds |
| Handlers.Controller.ReadRoot | backend/main.py:19-21 | returns `{"message": "API de control de LED para ESP32"}` and changes no state |
| Handlers.Controller.GetLedStatus | backend/main.py:23-25 | returns the current LED state, which is `"ON"` or `"OFF"`, and changes no state |
| Handlers.Controller.TurnLedOn | backend/main.py:27-30 | the LED becomes `"ON"` whatever it was and the counter is unchanged; the reply is `{"message": "LED encendido", "state": "ON"}`; the invariant is kept |
| Handlers.Controller.TurnLedOff | backend/main.py:32-35 | the LED becomes `"OFF"` whatever it was and the counter is unchanged; the reply is `{"message": "LED apagado", "state": "OFF"}`; the invariant is kept |
| Handlers.Controller.GetButtonCount | backend/main.py:37-39 | returns the current count, which is non-negative, and changes no state |
| Handlers.Controller.IncrementButtonCount | backend/main.py:41-44 | the count rises by exactly 1 and the LED is unchanged; the reply carries the post-increment count with `"Contador incrementado"` |
| Handlers.Controller.ResetButtonCount | backend/main.py:46-49 | the count becomes 0 whatever it was and the LED is unchanged; the reply is count 0 with `"Contador reiniciado"` |
| Handlers.Handle | backend/main.py:19-49 | one handler call keeps the invariant; readers change nothing; LED setters leave the counter alone; counter handlers leave the LED alone |
| Handlers.LedScenario | backend/main.py:16-30 | from process start: status `"OFF"`, then turning on replies `"LED encendido"`/`"ON"`, then status `"ON"` |
| Handlers.CounterScenario | backend/main.py:17-49 | from process start: count 0, three increments reply count 3, then reset replies count 0 |
| Properties.RunPreservesInvariant | backend/main.py:16-17 | any sequence of handler calls keeps the LED at `"ON"`/`"OFF"` and the count non-negative |
| Properties.ReachableStatesSatisfyInvariant | backend/main.py:16-49 | every state reachable from process start satisfies the invariant |
| Properties.RunAppend | backend/main.py:19-49 | running one more handler after a sequence is one more step from the sequence's end state |
| Properties.LastWriteWins | backend/main.py:27-35 | after any sequence of calls, the LED holds the value set by the last on/off call, or the starting value if there was none |
| Properties.LedUntouchedWithoutSetters | backend/main.py:16-35 | calls other than on/off never change the LED; from process start it stays `"OFF"` |
| Properties.CountUntouchedWithoutMutators | backend/main.py:27-39 | calls other than increment/reset, including any sequence of LED calls, leave the counter unchanged |
| Properties.ReadersChangeNothing | backend/main.py:19-39 | any sequence of `read_root`, `get_led_status` and `get_button_count` calls leaves the whole state unchanged |
| Properties.SinceLastReset | backend/main.py:46-49 | the calls after the last reset contain no reset and are a suffix of the sequence |
| Properties.CountAfterRun | backend/main.py:41-49 | after any sequence, the count is the number of increments since the last reset; with no reset it is the start count plus the number of increments |
| Properties.IncrementsAddUp | backend/main.py:41-44 | n increments from count c give count c + n and leave the LED unchanged |
| Properties.SettersIdempotent | backend/main.py:27-35 | turning the LED on or off, and resetting the counter, twice in a row gives the same state and reply as doing it once |
| Properties.IncrementNotIdempotent | backend/main.py:41-44 | two increments add 2, so they differ from one increment |

## Left out

- FastAPI application setup, route decorators, HTTP status codes and JSON serialisation (backend/main.py:1-4). They are framework plumbing. Replies are modelled as the `Reply` datatype, and routing is the choice of method or `Handler`.
- The CORS middleware configuration (backend/main.py:7-13). It configures a library and has no behaviour of its own to verify.
- Concurrent requests, including lost updates on the non-atomic `+= 1`. Handlers are modelled as sequential calls.
- Aliasing: `get_led_status` and `get_button_count` return the module-level dicts themselves. The model returns their values instead.
- Process restart. The state is not persisted, and a restart is just a new `Controller`.
- The unused `HTTPException` import.
