# Relay service core: epoch tracking, handle completion, default configuration

This project models the sequential core of the relay service of `mev-relay-rs`
(`mev-relay-rs/src/service.rs`): the part of the service that runs once the
relay has been bootstrapped.

- `EpochTracking` (`epoch_tracking.dfy`) is the loop that the relay task runs.
  For each slot the clock yields, it computes the slot's epoch. When that epoch
  is above the highest epoch seen so far, it raises `current_epoch` and sets the
  `next_epoch` flag. It then calls `relay.on_slot(slot, next_epoch)`. The class
  `EpochTracker` holds the two loop variables and consumes one slot per
  `OnSlot` call. `SlotLoop` drives it over a finite sequence of slots and
  returns the log of `on_slot` calls. The functions `Step`, `Run` and
  `Notifications` specify the loop. The lemmas state what the loop promises: the
  epoch is the running maximum and never decreases, there is one notification
  per slot in stream order, and the flag means "some slot so far was in a later
  epoch than the starting one" and stays set once set.
- `ServiceHandle` (`service_handle.dfy`) is the future that `Service::spawn`
  returns. It owns the relay task and the server task. One poll of it looks at
  the relay task first and returns that task's result when it has finished,
  either a success or a `JoinError`. The server task is only polled while the
  relay task is still pending. The function `FirstReady` gives the reference
  definition of this rule: a race with a fixed priority.
- `ServiceConfig` (`service_config.dfy`) is `Config` and its `Default`
  implementation.

## The epoch flag is never cleared

The loop sets `next_epoch` when a slot's epoch is above the highest epoch seen
so far, and nothing ever resets it (`mev-relay-rs/src/service.rs:81-88`). The
name `next_epoch` and the `on_slot(slot, next_epoch)` call suggest a flag that
marks only the first slot of a new epoch, but the code does not implement that
meaning. Once one slot has been seen in an epoch above the starting epoch, every
later slot is reported with the flag set. The model follows the code.
`NotificationFlagMeansAdvanced` and `NotificationFlagIsSticky` state the
resulting behaviour for all inputs. `FlagStaysSetWithinEpoch` shows it on one
concrete run: with 32 slots per epoch and a start in epoch 0, slots 31, 32 and
33 are reported with flags false, true and true.

## Model

| member | source | states |
|---|---|---|
| `EpochTracking.Step` | mev-relay-rs/src/service.rs:83-87 | one iteration never lowers the epoch. Afterwards the epoch is at least the slot's epoch and equals either the old epoch or the slot's epoch. The flag is set exactly when it was already set or the slot's epoch was strictly above the current one |
| `EpochTracking.EpochTracker.constructor` | mev-relay-rs/src/service.rs:80-81 | the tracker starts at the clock's current epoch with the flag cleared |
| `EpochTracking.EpochTracker.OnSlot` | mev-relay-rs/src/service.rs:83-88 | consuming a slot moves the two loop variables by one `Step`. The flag returned for `on_slot` is the flag as updated |
| `EpochTracking.SlotLoop` | mev-relay-rs/src/service.rs:80-89 | the loop makes exactly one `on_slot` call per slot, in order, with that slot. The flag of the k-th call is set exactly when some slot among the first k+1 has an epoch above the starting epoch |
| `EpochTracking.RunReachesHighestEpoch` | mev-relay-rs/src/service.rs:80-87 | after any sequence of slots, `current_epoch` is the maximum of the starting epoch and the epochs of all processed slots |
| `EpochTracking.RunFlagMeansAdvanced` | mev-relay-rs/src/service.rs:81-87 | after any sequence of slots, the flag is set exactly when it was set at the start or some processed slot's epoch exceeds the starting epoch |
| `EpochTracking.EpochNeverDecreases` | mev-relay-rs/src/service.rs:84-86 | `current_epoch` after a longer prefix of the stream is never lower than after a shorter one |
| `EpochTracking.NotificationFlagMeansAdvanced` | mev-relay-rs/src/service.rs:81-88 | from the loop's initial state, the flag reported with the k-th slot is set exactly when one of slots 0..k lies in an epoch above the starting epoch |
| `EpochTracking.NotificationFlagIsSticky` | mev-relay-rs/src/service.rs:81-88 | once a reported flag is set, every later reported flag is set too |
| `EpochTracking.FlagStaysSetWithinEpoch` | mev-relay-rs/src/service.rs:81-88 | with 32 slots per epoch and a start in epoch 0, slots 31, 32 and 33 are reported with flags false, true and true. The second slot of epoch 1 keeps the flag |
| `ServiceHandle.PollHandle` | mev-relay-rs/src/service.rs:110-117 | one poll polls the relay task once, first, and then the server task once exactly when the relay poll is pending. A ready relay result is returned as is, success or join error. Otherwise the server's poll result is returned. The handle is pending exactly when both tasks are pending |
| `ServiceHandle.FirstReadyIsEarliest` | mev-relay-rs/src/service.rs:112-116 | in the reference race, the result is the earliest ready poll in priority order: every poll before it is pending |
| `ServiceHandle.PollHandleIsPriorityRace` | mev-relay-rs/src/service.rs:112-116 | a poll of the handle returns the first ready result of the race [relay, server], or pending when neither is ready |
| `ServiceHandle.RelayErrorWinsOverPendingServer` | mev-relay-rs/src/service.rs:112-115 | a relay task that ended in a join error while the server is still pending resolves the handle with that error, and the server is not polled |
| `ServiceConfig.Default` | mev-relay-rs/src/service.rs:23-31 | the default configuration has host 127.0.0.1 (a loopback address), port 28545, beacon node URL `http://127.0.0.1:5052` and the key type's default signing key |

## Left out

- The clock is an input. `epoch_for` is a function parameter, `clock.current_epoch()` is the starting epoch, and `clock.stream_slots()` is a finite sequence of slots. The real clock is wall-clock driven, and its slots-per-epoch arithmetic lives outside this file. The `expect("after genesis")` panic on a missing current epoch is not modelled.
- `relay.on_slot` is recorded as a log of calls instead of being awaited. The relay's own behaviour belongs to code that is not part of this model.
- `Service::from` is not modelled. It parses the URL with a foreign library, `unwrap`s the result and builds the beacon client.
- The bootstrap steps of `Service::spawn` are not modelled: context derivation, clock derivation from the typical genesis time, the genesis-details network call, and relay construction and `initialize`. They are I/O and calls into collaborators whose source is not part of this model.
- The task and future machinery is not modelled: `tokio::spawn`, `JoinHandle`, `Arc` sharing of the relay, pinning and wakers. A task poll is an input value, and the model only keeps the branch logic of `poll`.
- The builder API server (`BlindedBlockProviderServer`) is not modelled. It is network serving in foreign code.
- `src/types.rs` is not modelled. It only holds placeholder records with a single integer field and no logic.
- `ServiceConfig.Default`: the default signing key (`SecretKey::default()`) comes from a foreign crate, so it is passed in as a parameter rather than stated.
