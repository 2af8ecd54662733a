# Pigeon relayer core, modelled in Dafny

This project models two parts of the Pigeon relayer, which links the Paloma coordination chain to external chains.

- **The control loop** (`Relayer.Start`, module `Relayer` in `relayer.dfy`). Start runs three setup steps: `init`, an initial `buildProcessors` and `updateExternalChainInfos`. It then waits on a merged event source. That source is a pre-buffered `firstLoopEnter` tick, then the ticker, then context cancellation. Each tick runs the `process` closure. The closure checks for cancellation, rebuilds the processors and runs `Process`. It then classifies the outcome:
  - success clears the consecutive-failure group;
  - an error with the unrecoverable marker ends the loop;
  - any other error is added to the group, and once the group holds `defaultErrorCountToExit` (5) errors the loop ends with the whole group wrapped as unrecoverable.
- **The Paloma protocol client** (module `PalomaClient` in `paloma_client.dfy`). It covers:
  - the two queue queries, which unpack each message envelope and abort on the first failure;
  - the validator lookup, which turns the registry's "item not found in store" error into an absent validator;
  - the four submissions made through the `MessageSender` seam. These are the signature batch, validator registration, job deletion and the external-chain-info batch.

`wrappers.dfy` holds the `Option` and `Result` types. `None` stands for a nil Go error, and `Result` stands for a Go `(value, error)` pair.

How the collaborators are modelled:

- A collaborator whose code is not shown is an input. This covers `init`, `buildProcessors`, `Process`, `updateExternalChainInfos`, the context, the gRPC query clients, `UnpackAny`, the keyring and the chain's answer to a submission.
- `Start` takes an `Env` and returns two things: how it ended (`Returned(err)`, or `Waiting(failures)` when the events run out while the loop is still blocked), and the collaborator calls it made, in order.
- `Start` is proved equal to the function `StartSpec`. Its loop is the method `WaitAndRun`, proved equal to the function `RunLoop`, and the closure is the method `RunProcess`, proved equal to the function `ProcessCycle`. The loop's properties are lemmas about `RunLoop` and `ProcessCycle`.
- The function `Merged` stands in for `channels.FanIn(ticker.C, firstLoopEnter)`. It puts the tick pre-buffered in `firstLoopEnter` first, followed by every later event in order.
- A tick event carries what the cycle it triggers will observe: the `ctx.Err()` state at the top of `process`, the fresh `buildProcessors` outcome and the `Process` outcome. The per-cycle outcomes therefore always line up with the ticks.
- `MessageSender` is a class. Its ghost log `sent` records every submitted message. With it, "exactly one submission, with this payload" can be stated.
- Queries are functions from the request to the answer, so the request's fields (validator address, queue name) are part of each contract.

Where the code and the design description differ, the model follows the code:

- `QueryMessagesInQueue` copies `Nonce` as well as `ID`, and leaves `BytesToSign` empty.
- Cancellation is checked in three places: at the wait, at the top of every cycle, and in the closed-channel branch. A closed channel on a cancelled context returns nil.
- The failure group is cleared only when it is non-empty. Since clearing an empty group changes nothing, success always leaves it empty.

## Model

| member | source | states |
|---|---|---|
| `Relayer.CycleClassification` | relayer/start.go:51-96 | a cycle that lets the loop go on leaves the group below 5 and either empty or grown by exactly this cycle's error; the group changes only by being cleared or by taking this error; when a cycle grows the group and still returns an error, that error is `Unrecoverable(Group(group))` of the whole grown group; Process runs only right after a rebuild in the same cycle; a cancelled cycle makes no call |
| `Relayer.RunProcess` | relayer/start.go:51-96 | the closure, written with early returns and a reassigned failure group, returns exactly the error, group and calls of the cycle function `ProcessCycle`; a nil return leaves fewer than 5 failures |
| `Relayer.LoopKeepsGroupBelowThreshold` | relayer/start.go:102-119 | loop invariant: starting below the threshold, a loop that is still waiting holds fewer than 5 consecutive failures |
| `Relayer.WaitAndRun` | relayer/start.go:101-119 | the method with its while loop over the merged events returns exactly the exit and call sequence of the loop function `RunLoop` from an empty group |
| `Relayer.StartSpec` | relayer/start.go:21-24 | every Start calls `init` first, before any other collaborator |
| `Relayer.Start` | relayer/start.go:21-120 | the method returns exactly the exit and call sequence of `StartSpec`: setup, then the loop from an empty group; a Start still waiting holds fewer than 5 failures |
| `Relayer.SetupFailureEndsStart` | relayer/start.go:24-40 | a failing `init`, initial `buildProcessors` or `updateExternalChainInfos` (the first that fails) is returned, and no `Process` call happens |
| `Relayer.FirstCycleWithoutWaiting` | relayer/start.go:47-49 | with setup done and the context live, the calls right after setup are a rebuild and, if it succeeds, a `Process`, whatever the ticker produces later, including nothing |
| `Relayer.SuccessClearsFailures` | relayer/start.go:63-70 | a successful `Process` empties the failure group, whatever it held, and the loop goes on |
| `Relayer.UnrecoverableEndsLoop` | relayer/start.go:72-78 | an error with the unrecoverable marker is returned at once, whatever the group holds, and is not added to the group |
| `Relayer.TransientErrorAppended` | relayer/start.go:80-95 | a transient error is appended; if the group then has 5 or more errors, the loop returns `Unrecoverable(Group(failures + [e]))`, otherwise it goes on with the grown group |
| `Relayer.BuildFailureBypassesCounter` | relayer/start.go:58-61 | a rebuild failure inside a cycle is returned as is, `Process` is not called, and the failure group plays no part |
| `Relayer.CancellationEndsLoop` | relayer/start.go:53-56 | a cycle that sees the context ended returns `ctx.Err()` before rebuilding anything; the `ctx.Done()` branch of the select (lines 105-107) returns the same |
| `Relayer.ChannelClosedEndsLoop` | relayer/start.go:108-113 | a closed merged channel returns nil if the context has ended and an `ErrUnknown`-wrapped error otherwise; no further cycle runs and no collaborator is called |
| `Relayer.TransientStreak` | relayer/start.go:80-95 | a streak of transient failures that stays below the threshold appends exactly those errors, in order, and the loop goes on |
| `Relayer.StreakThenSuccessClears` | relayer/start.go:64-69 | up to four transient failures in a row followed by a success leave the group empty and the loop running |
| `Relayer.TransientStreakEscalates` | relayer/start.go:86-89 | a streak of transient failures that brings the group to 5 ends the loop on its last cycle with one unrecoverable error wrapping the whole group in order |
| `Relayer.FiveTransientFailuresTerminate` | relayer/start.go:13-14 | five transient failures from an empty group end the loop on the fifth cycle, wrapping all five errors, after exactly five rebuild/Process pairs |
| `Relayer.LoopErrorsClassified` | relayer/start.go:102-119 | every error the loop returns is `ctx.Err()`, the unexpected-closure error, an error with the unrecoverable marker, or an error some cycle's `buildProcessors` returned |
| `PalomaClient.MessageSender.SendMsg` | chain/paloma/client.go:19-21 | each call adds exactly its message to the sent log and returns the chain's answer |
| `PalomaClient.QueryMessagesForSigning` | chain/paloma/client.go:42-73 | it queries with the given validator address and queue; a query error is returned unchanged; the result is Ok exactly when every envelope unpacks; then there is one message per entry, in order, with `ID`, `Nonce` and `BytesToSign` kept and the unpacked message; otherwise the error is that of the first entry that fails to unpack, with no partial list |
| `PalomaClient.QueryMessagesInQueue` | chain/paloma/client.go:75-108 | same query and abort contract; each result keeps `ID` and `Nonce`, leaves `BytesToSign` empty, and copies every `SignData` into `Signatures` in order |
| `PalomaClient.ContainsIffOccurs` | chain/paloma/client.go:130 | the recursive `Contains` used for the not-found test holds exactly when the marker occurs at some index of the error text |
| `PalomaClient.QueryValidatorInfo` | chain/paloma/client.go:124-137 | an error comes back exactly when the query failed with a text in which "item not found in store" occurs at no index, and it is the query's error unchanged; a failed query gives (absent, nil) exactly when the marker occurs at some index of its text; a successful query gives the answer's validator |
| `PalomaClient.BroadcastMessageSignatures` | chain/paloma/client.go:193-215 | no signatures: nil and no submission; otherwise exactly one submission whose signed entries are the inputs in order with `Id`, `QueueTypeName`, `Signature` and `ExtraData` copied, and the submission's error is returned unchanged |
| `PalomaClient.AddExternalChainInfo` | chain/paloma/client.go:175-191 | no input: nil and no submission; otherwise exactly one submission whose `ChainInfos` are the (`ChainID`, `AccAddress` as `Address`) pairs in order, and its error is returned |
| `PalomaClient.RegisterValidator` | chain/paloma/client.go:141-150 | exactly one submission of `MsgRegisterConductor` with the four arguments as given, and its error is returned |
| `PalomaClient.DeleteJob` | chain/paloma/client.go:152-166 | a keyring failure is returned with no submission; otherwise exactly one submission of `MsgDeleteJob` with the key's address as creator, the queue name and the message id, and its error is returned |

## Left out

- gRPC transport and the generated query clients: each query's answer is a function of its request.
- Protobuf `Any` unpacking: `UnpackAny` is an opaque partial function from an envelope to a message of any type `M`.
- The keyring and the `SetSDKContext` lock and unlock: `DeleteJob` receives the configured key's address, or the keyring's error.
- Byte-level string matching: Go's `strings.Contains` compares the bytes of UTF-8 text, while `Contains` compares characters. The two agree for the ASCII not-found marker on valid UTF-8 text.
- `ValAddress.String()` (bech32 rendering): `QueryValidatorInfo` receives the address already as a string.
- The `TxResponse` that `SendMsg` returns: every caller discards it.
- The `Client` struct and its delegating methods. `Client.QueryMessagesForSigning` and `Client.BroadcastMessageSignatures` only forward to the functions modelled here. `Keyring()` is an accessor.
- The keep-alive goroutine and `channels.FanIn`, which are concurrency: the merged source is a deterministic sequence of events.
- The ticker's one-minute period: only the order of events is kept. The pre-buffered tick comes first.
- The first wait's choice between the pre-buffered tick and `ctx.Done()` when the context has already ended. Both return `ctx.Err()` without calling any collaborator, so the model always takes the tick.
- The bodies of `init`, `buildProcessors`, `Process` and `updateExternalChainInfos`, which are not part of this model: their outcomes are inputs. The processor set they pass between them is not represented.
- `IsUnrecoverable`: the pigeon errors package is not part of this model, so an error counts as unrecoverable when its outermost constructor carries the marker.
- logrus logging, and whoops error formatting beyond "a group of errors" and "an ErrUnknown wrapper with a text".
- The difference between `context.Canceled` and `context.DeadlineExceeded`: both are one `ContextDone` error.
