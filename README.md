# Aggregate decider of the Equinox web template, in Dafny

This project models the event-sourced aggregate of the C# Equinox web
template (`equinox-web-csharp/Domain/Aggregate.cs`). The aggregate is a
small deterministic state machine:

- **Events** (`Events.dfy`): the two stored events, `Happened` and
  `Snapshotted { Happened }`. They are stored under their class name as the
  tag. `TryDecode` dispatches on that tag and skips unknown tags.
- **State** (`States.dfy`): a mutable `State` object with one flag, `Happened`.
  `Evolve` applies one event to it in place. `Fold` copies the origin into a
  fresh object and evolves the copy by each event in order. `IsOrigin` and
  `Snapshot` support snapshots. `StateValue`, `Evolved` and `Folded` are the
  value-level specification of the object and of the two methods.
- **Commands** (`Commands.dfy`): the one command, `MakeItSo`. `Interpret`
  turns it into at most one `Happened` event, and only when the state has
  not happened yet.
- **Service** (`Service.dfy`): the `View` read model and `Render`, with the
  handler's execute cycle (fold, interpret, append) and its read cycle
  (fold, render) written over the events the stream returns.

`Wrappers.dfy` holds the `Option` type that stands for a C# `null` result.

The pure members `Snapshot`, `Interpret` and `Render` read only the
`Happened` property of the state they are given. So they take the state's
value (`State.Value()`) rather than the object. `IsOrigin` reads no state:
it classifies an event, and `OriginsAreSnapshots` states what that
classification means. The shared static
`State.Initial` object is the `initial` parameter of `Execute` and `Read`.
They require it to hold the value `Initial`. `Fold` has no `modifies` clause,
so no call can change that shared object.

The snapshot law needs the snapshot event in the replayed part. Folding the
prefix that ends *on* the snapshot and then the rest gives the whole fold
(`FoldFromOrigin`). Skipping the snapshot event itself does not:
`SnapshotMustBeReplayed` shows this for `[Happened, Snapshotted(false)]`.

## Model

| member | source | states |
|---|---|---|
| Events.TypeName | equinox-web-csharp/Domain/Aggregate.cs:39 | the tag is "Happened" exactly for a `Happened` event and "Snapshotted" exactly for a `Snapshotted` one |
| Events.TryDecode | equinox-web-csharp/Domain/Aggregate.cs:29-37 | no event exactly when the tag is neither "Happened" nor "Snapshotted"; otherwise the decoded event's variant is the one the tag names; a snapshot's flag comes from the body, defaulting to false |
| Events.Encode | equinox-web-csharp/Domain/Aggregate.cs:39 | the tag is the event's class name, which `TryDecode` recognises; decoding the encoded pair gives back the same event |
| Events.EncodeInjective | equinox-web-csharp/Domain/Aggregate.cs:29-39 | two events with the same stored form are the same event |
| States.FoldConcat | equinox-web-csharp/Domain/Aggregate.cs:64-71 | folding `xs + ys` equals folding `ys` from the result of folding `xs` |
| States.FoldIsLastEvent | equinox-web-csharp/Domain/Aggregate.cs:50-71 | an empty fold returns the origin; otherwise the result is what the last event alone makes of the initial state, whatever came before |
| States.Snapshot | equinox-web-csharp/Domain/Aggregate.cs:48-75 | the snapshot of a state is an origin event, and folding it alone from `Initial` gives back that state |
| States.OriginsAreSnapshots | equinox-web-csharp/Domain/Aggregate.cs:73-75 | gives the `IsOrigin` predicate its meaning: an event is an origin exactly when it is the snapshot of some state |
| States.FoldFromOrigin | equinox-web-csharp/Domain/Aggregate.cs:57-73 | for an origin event at index k, the fold from any origin equals the fold from `Initial` of the events from k on, and equals folding the prefix up to and including k and then the rest |
| States.State.constructor | equinox-web-csharp/Domain/Aggregate.cs:46 | the new object holds the given flag |
| States.State.Evolve | equinox-web-csharp/Domain/Aggregate.cs:50-62 | modifies only the given state; a `Happened` event sets the flag, a `Snapshotted` event overwrites it with the snapshot's flag |
| States.State.Fold | equinox-web-csharp/Domain/Aggregate.cs:64-71 | returns a freshly allocated state holding the left-to-right fold of the events over the origin's value; the origin is unchanged |
| Commands.Interpret | equinox-web-csharp/Domain/Aggregate.cs:85-94 | at most one event, every event is `Happened`, and the result is empty exactly when the state has happened |
| Commands.Idempotent | equinox-web-csharp/Domain/Aggregate.cs:54-56 | after folding a command's events the state has happened and the command decides nothing more; a command decides nothing exactly when its events would leave the state as it is |
| Service.Render | equinox-web-csharp/Domain/Aggregate.cs:134 | the view is sorted exactly when the state has happened |
| Service.Execute | equinox-web-csharp/Domain/Aggregate.cs:105-106 | the events appended are what `Interpret` decides on the fold of the stream from `Initial`: at most one, always `Happened`, none exactly when the stream's state had already happened; the state after the append has happened |
| Service.Read | equinox-web-csharp/Domain/Aggregate.cs:132 | the view is sorted exactly when the stream's last event is `Happened` or `Snapshotted(true)` |
| Service.ExecuteTwice | equinox-web-csharp/Domain/Aggregate.cs:127-128 | executing a command twice against one stream appends what the first decision gives (at most one event), and the second execution appends none |

## Left out

- The JSON bytes and the JSON library: a body is modelled by the one
  property the event classes declare. Malformed JSON and a `null` document
  are not modelled, because their handling is the library's.
- The event store: reading a stream, appending with optimistic concurrency,
  and the retry on a version conflict. These are external and concurrent.
  `Execute` and `Read` take the events read as a parameter and return the
  events to append. The store's loading from the last snapshot is covered
  by `FoldFromOrigin` only.
- `Handler.Query` with an arbitrary projection: only its one use, `Read`
  with `Render`, is modelled.
- The async `Task` plumbing, the `ILogger` and the per-call handler
  construction in `Service`, which have no effect on the decisions.
- `Event.For` (the stream name "Aggregate-" plus the client id), because it
  calls a stream-name library routine whose source is not visible.
  `ClientId.cs` is not part of this model: it wraps the .NET `Guid` parser and
  formatter and ASP.NET model binding.
- The `default: throw` branches of `Evolve` and `Interpret`. Events and
  commands are closed datatypes here, so no other variant can reach them.
- `Interpret` yields its events lazily. It is modelled as the finite
  sequence it yields.
