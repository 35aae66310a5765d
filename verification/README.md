# Node change tracking, modelled in Dafny

This project models `Node`, the entity handle of the ORM's unit of work (`src/Node.php`).
A Node has three parts:

- an immutable role;
- a baseline status and field data, as last loaded or synchronised;
- an optional live `State`, created the first time something is changed.

Reads go to the live State when one exists, and to the baseline otherwise.
Every mutation goes to the live State and creates it first if needed.
`syncState` reports what changed, promotes the live data to the baseline with status `LOADED`, and drops the State.
`resetState` drops the State without promoting anything.

Files:

- `fields.dfy` (module `Fields`) holds the type of entity field data, `Data<V>`.
- `array_diff.dfy` (module `ArrayDiff`) holds the change-set that `syncState` reports, which PHP computes with `array_diff`.
  `Changes` is the reference definition.
  `ComputeChanges` is the scanning algorithm, proved equal to it.
  The lemmas show the value-based nature of the diff.
- `state.dfy` (module `States`) holds the live State's shape: status, field data, relation table.
  The `State` class is not part of this model.
  Its `setData`, `listen` and `register` are supplied as a `Behaviour` parameter, so every result holds for any State implementation.
- `node.dfy` (module `Nodes`) holds the Node: constructor, accessors, get-or-create, the delegating mutators, `SyncState`, `ResetState`, and the relation fold-back loop.
- `session.dfy` (module `Sessions`) holds sequences of calls on one Node, and the lemmas that relate several calls.
  Besides the Node's own calls, a sequence may hold writes into the live State by other holders of it.

Modelling choices:

- A Node is an immutable datatype, and every operation returns the updated Node.
  `GetState` returns the pair (updated Node, State).
  `SyncState` returns the change-set together with the updated Node.
- Field data is `map<string, V>`.
  The value type `V` is opaque and only needs equality.
  Relation references have an opaque type `R`.
  Consumers passed to `listen` have an opaque type `C`.
- A status is any `int`, because the constructor and `setStatus` accept any integer.
  The six lifecycle constants (`PROMISED` = 0 … `SCHEDULED_DELETE` = 5) are kept as named constants.
- A fresh State is built from the Node's current baseline status and data.
  Its relation table starts empty.
  The State's `setStatus` is taken to replace its status, and its `getStatus`, `getData` and `getRelations` read its fields.
- The relation trait is not part of this model.
  Its `setRelation` is modelled as name-keyed storage: it stores a reference under its name, replacing any earlier one.
  The Node keeps that table in its `relations` field, which starts empty.
- The live State is a shared object: `getState` hands it out (src/Node.php:74), and another entity's producer may write into it as a consumer.
  `Nodes.ExternalWrite` models such a write as an arbitrary function applied to the live State, and only when one exists.
  The lemmas over call sequences hold with such writes interleaved anywhere.
- The change-set follows the code, not a key-wise reading of "what changed".
  An entry `(k, v)` of the live data is reported exactly when `v` equals no baseline value under any key.
  So values swapped between two fields are not reported, and a field deleted from the live data is never reported.

## Model

| member | source | states |
|---|---|---|
| `Nodes.Create` | src/Node.php:48-53 | a new handle has no live State and reads back exactly the role, status and data it was given |
| `Nodes.GetRole` | src/Node.php:58-61 | returns the role the handle was built with |
| `Nodes.GetStatus` | src/Node.php:92-99 | read-through: the live State's status when one exists, the baseline status otherwise |
| `Nodes.GetData` | src/Node.php:116-123 | read-through: the live State's data when one exists, the baseline data otherwise |
| `States.Create` | src/Node.php:71 | assumption about the State constructor, which is not part of this model: a fresh State holds the given status and data and no relations |
| `States.SetStatus` | src/Node.php:84 | assumption about the State's `setStatus`, which is not part of this model: the status becomes the given one and data and relations are kept |
| `Nodes.GetState` | src/Node.php:68-75 | get-or-create: afterwards a live State exists and the baseline is untouched; an existing State is returned as is; otherwise a fresh State is built from the baseline status and data; reads return the same values before and after |
| `Nodes.SetStatus` | src/Node.php:82-85 | leaves a live State, keeps role, baseline and relations unchanged; afterwards `GetStatus` returns the new status and `GetData` is unchanged |
| `Nodes.SetData` | src/Node.php:106-109 | leaves a live State, keeps role, baseline and relations unchanged; the State afterwards is the State's own `setData` applied to the State reads saw |
| `Nodes.Listen` | src/Node.php:128-136 | leaves a live State, keeps role, baseline and relations unchanged; the call is delegated to the State reads saw |
| `Nodes.Register` | src/Node.php:141-144 | leaves a live State, keeps role, baseline and relations unchanged; the call is delegated to the State reads saw |
| `Nodes.ExternalWrite` | src/Node.php:74 | a write into the shared live State by another holder keeps role, baseline and relations, and neither creates nor removes the live State |
| `Nodes.SetRelation` | src/Node.php:160 | assumption about the relation trait's `setRelation`, which is not part of this model: it stores one reference under its name and keeps every other one |
| `Nodes.FoldRelations` | src/Node.php:159-161 | handing each relation of the live State to `setRelation` in turn stores every one of them by name and keeps every other stored relation |
| `Nodes.AbsorbsDeterminesTable` | src/Node.php:159-161 | storing a relation table by name has exactly one outcome, the union in which incoming references win, so the fold-back loop yields the relation table that `SyncState` produces |
| `Nodes.SyncState` | src/Node.php:151-169 | with no State: empty change-set, handle unchanged; with a State: status `LOADED`, baseline data is the live data, State gone, role kept, live relations folded in; the change-set is a sub-map of the live data holding exactly the live entries whose value occurs nowhere among the baseline values |
| `Nodes.ResetState` | src/Node.php:174-177 | drops the live State without touching role, baseline or relations, so reads return the baseline status and data |
| `ArrayDiff.Changes` | src/Node.php:157 | the change-set is a sub-map of the live data; a live key is in it exactly when its value equals no baseline value |
| `ArrayDiff.ComputeChanges` | src/Node.php:157 | scanning each live entry against every baseline value yields exactly the reference change-set |
| `ArrayDiff.Occurs` | src/Node.php:157 | scanning a map's entries finds a value exactly when it is one of the map's values |
| `ArrayDiff.NoChangesIffValuesCovered` | src/Node.php:157 | the change-set is empty if and only if every live value occurs among the baseline values |
| `ArrayDiff.SelfDiffIsEmpty` | src/Node.php:157 | data compared with itself yields no changes |
| `ArrayDiff.RemovalAloneReportsNothing` | src/Node.php:157 | deleting keys, and nothing else, is never reported as a change |
| `ArrayDiff.SwapIsNotReported` | src/Node.php:157 | swapping two distinct values between two keys changes every key's value, yet yields an empty change-set |
| `Sessions.Apply` | src/Node.php:58-177 | no public call changes the role or forgets a stored relation; the mutating calls keep the baseline and leave a live State |
| `Sessions.Run` | src/Node.php:48-61 | over any sequence of calls the role stays what the constructor was given, and stored relations are never forgotten |
| `Sessions.ReadsWithoutStateAreBaseline` | src/Node.php:92-123 | without a live State, `GetStatus` and `GetData` return exactly the baseline status and data |
| `Sessions.GetStateIsIdempotent` | src/Node.php:68-75 | asking for the State a second time returns the same State and the same handle |
| `Sessions.MutationsKeepBaseline` | src/Node.php:68-144 | any run of `getState`, `setStatus`, `setData`, `listen` and `register` calls and outside writes into the live State leaves role, baseline and relations unchanged; it ends with a live State if one existed before or any call went through the Node |
| `Sessions.ResetUndoesMutations` | src/Node.php:174-177 | resetting after any run of mutations, outside writes included, gives the same handle as resetting before them; reads then return the pre-mutation baseline |
| `Sessions.SyncThenRead` | src/Node.php:164-166 | after synchronising a handle that has a live State, `GetStatus` is `LOADED` and `GetData` is the data the State held |
| `Sessions.SecondSyncIsEmpty` | src/Node.php:151-155 | right after a synchronisation, the next one reports no changes and leaves the handle as it is |
| `Sessions.ScheduledThenSyncedIsLoaded` | src/Node.php:82-166 | setting any status and then synchronising reads back `LOADED`, with the data read before |
| `Sessions.ChangedFieldIsReported` | src/Node.php:157-168 | one field changed from `y` to `x` is reported as `{field: x}`; the handle then reads the new data and a further sync reports nothing |
| `Sessions.SwappedFieldsAreNotReported` | src/Node.php:157-168 | a handle whose live data swaps two baseline values reports no change, even though its data after the sync differs from the data before |

## Left out

- The `State` class is not part of this model. Its listener registry, the delivery of produced values to consumers, at-most-once delivery and the merge-or-replace semantics of `setData` are not modelled. `setData`, `listen` and `register` are parameters of type `States.Behaviour`. Only the Node's delegation to them is modelled.
- The consumer's side of `listen`: with `trigger` set, a real State may write into another entity's State. That effect lies outside the Node and is not modelled.
- The relation trait is not part of this model. `setRelation` is assumed to be name-keyed storage, and the relation table is assumed to start empty.
- `__destruct` (src/Node.php:182-187) is memory cleanup with no observable effect on a value model.
- `array_diff` compares values after casting them to strings. The model compares opaque values with equality instead, so values that differ but print alike (`1` and `"1"`) count as different here.
- Nodes.SyncState: never fails, whereas in PHP the string cast inside `array_diff` (src/Node.php:157) throws when a live or baseline value is an object without `__toString`; `syncState` then throws before changing anything, and no change-set is returned. The model has no such values, because its values are opaque with equality.
- PHP arrays are ordered and may have integer keys. Field data is an unordered map with string keys. The order in which `array_diff` lists its result and in which relations are folded back is not modelled; neither affects the results stated here.
- The `ProducerInterface` and `ConsumerInterface` declarations and their `DATA` stream constant are not part of this model. The stream is an `int` parameter with no default; the `trigger = false` and `update = false` defaults are likewise explicit arguments.
