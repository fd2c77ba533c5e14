# Smart contract request handler, in Dafny

The smart contract process handles exactly one request per run. It reads one
line, deserializes it into a request envelope (`method`, `params`, optional
`state`), starts from the default state `{counter: 0}` or from the state the
request carries, and dispatches on the method name:

- `initialize` sets the counter to 0 and emits `Initialized`;
- `increment` adds one to it and emits `CounterIncremented`;
- `list_methods` answers `["initialize", "increment"]` and emits nothing;
- any other name emits `Error` / `"Unknown method"` and exits with status 1.

Missing input and input that does not deserialize are answered with an
`Error` event, the default state and status 1. Every run that does not
overflow the counter writes exactly one response holding a result and the
state.

The model has three modules:

- `Wrappers` (`wrappers.dfy`): the `Option` type.
- `SmartContract` (`smart_contract.dfy`): the data model (`ContractState`
  over a `u64` counter, `Request`, `Input`, `Event`, `Response`, `Outcome`),
  then the dispatcher in two forms. `Run` is a pure function that composes
  state resolution with the method table. `HandleRequest` follows `main` step
  by step: a local state that is replaced and then updated in place, a
  return on each input failure and on overflow, and each dispatch arm ending
  the method. It is proved equal to `Run`.
- `Session` (`session.dfy`): a caller that keeps the contract alive across
  runs by passing each response's state as the next request's `state`. The
  lemmas say which counter such a sequence of runs ends with.

The process's input is taken already classified as `NoInput` (no line, or a
read error), `Malformed` (any deserialization failure) or `Parsed(request)`.
Its output is one `Outcome`: `Exit(event, response, code)` records the
optional event line, the response line and the exit status, so every run that
does not overflow has exactly one response and at most one event by
construction. An overflowing run has neither.
`CounterOverflow(state)` is an `increment` on a counter that is already
2^64 - 1. There, `state.counter += 1` panics in debug builds and wraps to 0 in
release builds. The model keeps that case apart and does not choose either
behaviour.

## Model

| member | source | states |
|---|---|---|
| `SmartContract.ListMethods` | smart_contract/src/main.rs:39-41 | every listed name is accepted by the dispatcher, the names are distinct, both `initialize` and `increment` are listed, and `list_methods` itself is not |
| `SmartContract.ResolveState` | smart_contract/src/main.rs:45-66 | dispatch starts from exactly the request's state when it has one, and from counter 0 otherwise |
| `SmartContract.InputFailure` | smart_contract/src/main.rs:50-59 | a failure before dispatch answers with an `Error` event carrying its message, a null result, the default state and exit code 1 (also used for the no-input branch at lines 111-118) |
| `SmartContract.Dispatch` | smart_contract/src/main.rs:68-108 | `initialize` ends at counter 0 whatever the start, with `Initialized` carrying that state and code 0; `increment` overflows exactly at 2^64 - 1 and otherwise ends at counter + 1 with `CounterIncremented` carrying the new state and code 0; `list_methods` answers exactly `["initialize", "increment"]`, keeps the state, emits nothing and exits 0; any other name keeps the state, answers null, emits `Error`/`Unknown method` and exits 1 |
| `SmartContract.Run` | smart_contract/src/main.rs:43-120 | no input and malformed input answer with their own `Error` message, null and counter 0, exit 1; exit code is 0 exactly when the request parsed and names one of the three methods, and is otherwise 1; every failure carries an `Error` event and a null result; an event carrying a state carries the response's state; only `increment` from 2^64 - 1 overflows; methods other than `initialize` and `increment` pass the resolved state through |
| `SmartContract.HandleRequest` | smart_contract/src/main.rs:43-120 | the step-by-step handler, with its mutable local state and early exits, produces exactly the outcome `Run` describes |
| `Session.Invoke` | smart_contract/src/main.rs:64-108 | a run whose request carries state `s` fails only for `increment` at 2^64 - 1; otherwise it returns counter 0 after `initialize`, `s.counter + 1` after `increment`, and `s` unchanged after anything else |
| `Session.ReplayCounter` | smart_contract/src/main.rs:64-89 | a sequence of runs, each fed the previous response's state, ends with the number of `increment`s after the last `initialize`; with no `initialize`, it ends with the starting counter plus all the `increment`s |
| `Session.ReplayBound` | smart_contract/src/main.rs:81-89 | such a sequence never ends above its starting counter plus its number of `increment`s |
| `Session.ReplayNoOverflow` | smart_contract/src/main.rs:81-89 | such a sequence cannot overflow while its starting counter plus its `increment`s fits in a `u64` |
| `Session.ReplayAfterReset` | smart_contract/src/main.rs:71-79 | once a sequence contains `initialize`, two non-overflowing runs of it from different starting states end in the same state |
| `Session.ReplayPassThrough` | smart_contract/src/main.rs:91-108 | feeding a returned state back through `list_methods` or unknown methods, any number of times, returns that same state |

## Left out

- JSON deserialization and serialization (serde) are left out. The input arrives already classified, and `Malformed` stands for every deserialization failure. Results, events and responses are datatypes, not JSON text.
- Reading standard input and writing and flushing the output and error streams are left out. The event line and the response line are fields of `Outcome`. The model does not record that the event line is written before the response line.
- `process::exit` becomes the `code` field of `Exit`.
- The request's `params` field is not modelled, because no method reads it. It is required, so a line without `params` fails to deserialize and is covered by `Malformed`.
- `increment` on a counter of 2^64 - 1 is not modelled beyond the `CounterOverflow` outcome. Its behaviour depends on the build profile: a panic in debug builds, a wrap to 0 in release builds.
- A panic inside serde while writing a response is not modelled. The data written is always well-formed.
- `Session` models a caller, not code in the repository. It passes each response's state into the next request, as a caller that reuses a returned state does.
