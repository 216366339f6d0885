# SafeCallbacks: owner registry and callback wrappers

`SafeCallbacks.hpp` lets an owner object hand out callable wrappers whose calls become no-ops once
the owner is gone. The owner embeds a `safe_callbacks` member. Its shared `safe_callbacks_impl`
keeps a table from each cancellation token's address to a weak pointer to that token. Each
wrapper made by `make_safe` shares one `safe_function_wrapper_impl`. That state holds the
callable slot, a default value, a weak pointer to the owner's registry and the wrapper's own
token. When the owner is destroyed, every token that still exists fires, each wrapper's slot is
reset, and calls from then on return the default.

This project models that mechanism sequentially, with every operation atomic:

- `wrappers.dfy`: `Option`, for the callable slot.
- `table.dfy` (module `Table`): `insert_or_assign` and `erase` on the registry's table, as
  functions on maps with "only this key changes" contracts.
- `lifecycle.dfy` (module `Lifecycle`): one wrapper's state as a value, with the events that
  reach it (a call, the cancellation effect, teardown), the state after a sequence of events and
  the results of its calls. Lemmas prove that Cancelled is terminal, that only construction fills
  the slot and that calls switch from the callable's result to the default at the cancellation.
- `callbacks.dfy` (module `Callbacks`): the classes. `Registry` is `safe_callbacks_impl`, `Token`
  is the cancel closure, `WrapperImpl` is `safe_function_wrapper_impl`, `SafeFunctionWrapper` is
  the handle and `SafeCallbacks` is the owner's member. `Token.Invoke`,
  `SafeFunctionWrapper.Cancel` and `WrapperImpl.Teardown` are proved to change a wrapper state
  exactly as `Lifecycle.Step` does for the cancellation and teardown events, and
  `SafeFunctionWrapper.Call` returns `Lifecycle.CallResult` of the state. `FireEntry` and
  `Destroy` state their effect on each slot directly.
- `scenarios.dfy` (module `Scenarios`): the driver's release orderings, run sequentially as
  client methods whose results are proved from the contracts alone. `ReleaseAfter` also proves
  that its two results are the outputs `Lifecycle.Outputs` predicts for the trace call, cancel,
  call.

Liveness, which the source tracks with `shared_ptr`/`weak_ptr`, is an explicit flag on each
object: `Registry.live`, `Token.live` and `WrapperImpl.alive`. A `weak_ptr::lock()` that succeeds
is a check of the flag. A wrapper state's destructor is the method `WrapperImpl.Teardown`, which
its client calls when the last handle is dropped. A token's identity (`void*` in the table) is
the Dafny object itself, and the table is a `map<object, Token>`.

Four details of the code that the model follows:
- The code has no "cancelled" flag on the registry. A wrapper is never pre-cancelled. Instead the
  wrapper constructor locks the owner's weak pointer and dereferences it unchecked
  (SafeCallbacks.hpp:164), so the owner must still exist (a precondition here).
- A wrapper state's `remove_cancel` asks the owner to erase its entry only when the owner's weak
  pointer still locks (SafeCallbacks.hpp:147). That is the only guard: there is no cancelled-flag
  short cut, and `remove_cancellable` itself (SafeCallbacks.hpp:97-105) erases unconditionally.
- A cancelled call copies the stored default (SafeCallbacks.hpp:179). It never moves it out.
- The copy and move constructors of `safe_callbacks` build a new, empty registry and take nothing
  from their argument (SafeCallbacks.hpp:30-31).

## Model

| member | source | states |
|---|---|---|
| `Table.InsertOrAssign` | SafeCallbacks.hpp:92 | the key maps to the given token afterwards, whether or not it was present; every other key and its value are unchanged; the table grows by one exactly when the key was absent |
| `Table.Erase` | SafeCallbacks.hpp:103 | no entry is left for the key; every other key and its value are unchanged; erasing an absent key changes nothing |
| `Table.EraseUndoesInsert` | SafeCallbacks.hpp:86-105 | registering a token that was not in the table and then removing it restores the table |
| `Table.InsertOrAssignIdempotent` | SafeCallbacks.hpp:92 | registering the same entry twice gives the same table as registering it once |
| `Table.EraseIdempotent` | SafeCallbacks.hpp:103 | removing a key twice gives the same table as removing it once |
| `Lifecycle.StepOnlyResets` | SafeCallbacks.hpp:118-131 | a call changes nothing; cancellation empties the slot of a state that exists and leaves a destroyed one untouched; teardown empties the slot; no event fills the slot or changes the default |
| `Lifecycle.CancelIdempotent` | SafeCallbacks.hpp:201-212 | cancelling twice is cancelling once; cancelling a cancelled state changes nothing |
| `Lifecycle.SingleCall` | SafeCallbacks.hpp:173-199 | a single call leaves the state as it was and yields exactly one output: the callable's result on the argument when the slot is set, the stored default when it is empty |
| `Lifecycle.CancelledIsTerminal` | SafeCallbacks.hpp:127 | once the slot is empty, it stays empty after any sequence of calls, cancellations and teardown |
| `Lifecycle.RunOnlyResets` | SafeCallbacks.hpp:118 | after any sequence of events the slot holds what construction put there or nothing, and the default is the constructed one |
| `Lifecycle.CallsWhileActive` | SafeCallbacks.hpp:193-198 | while no cancellation arrives, every call runs the wrapped callable once and returns its result, and the state is unchanged |
| `Lifecycle.CallsWhileCancelled` | SafeCallbacks.hpp:176-192 | once cancelled, every later call returns the default value |
| `Lifecycle.Cutover` | SafeCallbacks.hpp:173-212 | for a live, active wrapper, calls before a cancellation return the callable's results and every call after it returns the default, whatever follows |
| `Callbacks.Token.constructor` | SafeCallbacks.hpp:140-141 | a new token is bound to the given wrapper state and is held |
| `Callbacks.Token.Invoke` | SafeCallbacks.hpp:42 | firing a token applies the cancellation effect to the wrapper state it is bound to |
| `Callbacks.Registry.constructor` | SafeCallbacks.hpp:78 | a new registry exists and has an empty table |
| `Callbacks.Registry.AddCancellable` | SafeCallbacks.hpp:86-94 | the table becomes the old table with the token's identity mapped to the token, and stays keyed by token identity |
| `Callbacks.Registry.RemoveCancellable` | SafeCallbacks.hpp:97-105 | the table becomes the old table without the given key |
| `Callbacks.WrapperImpl.constructor` | SafeCallbacks.hpp:118 | the new state holds the callable, the default and the owner link, exists, and has no token yet |
| `Callbacks.WrapperImpl.MakeCancel` | SafeCallbacks.hpp:137-142 | the state now owns a fresh, held token bound to itself |
| `Callbacks.WrapperImpl.RemoveCancel` | SafeCallbacks.hpp:144-151 | if the owner still exists, its entry for this token is erased, so no entry of the table refers to the token any more; if the owner is gone, the owner is untouched |
| `Callbacks.WrapperImpl.Teardown` | SafeCallbacks.hpp:122-131 | the slot is empty, the state no longer exists, the token is released and the owner link reset; the owner's entry for the token is erased if the owner exists, leaving no entry that refers to the released token, and nothing is done to it otherwise |
| `Callbacks.SafeFunctionWrapper.constructor` | SafeCallbacks.hpp:160-165 | for a live owner, the new state holds the callable and the default, and the owner's table gains exactly one new entry, keyed by the new token |
| `Callbacks.SafeFunctionWrapper.Copy` | SafeCallbacks.hpp:166 | a copied handle shares the original's wrapper state, so the two see the same slot |
| `Callbacks.SafeFunctionWrapper.Call` | SafeCallbacks.hpp:172-199 | returns the callable's result when the slot is set, the stored default otherwise; modifies nothing |
| `Callbacks.SafeFunctionWrapper.Cancel` | SafeCallbacks.hpp:201-212 | if the state exists its slot becomes empty, whether or not it was before; a destroyed state is untouched |
| `Callbacks.SafeCallbacks.constructor` | SafeCallbacks.hpp:29 | the owner's member holds a new, live, empty registry |
| `Callbacks.SafeCallbacks.FromOther` | SafeCallbacks.hpp:30-31 | copying or moving the member gives a new, live, empty registry, independent of the source |
| `Callbacks.SafeCallbacks.MakeSafe` | SafeCallbacks.hpp:62-72 | the new wrapper holds the callable and the given default, and is registered under its own fresh token |
| `Callbacks.MakeSafeValueInit` | SafeCallbacks.hpp:49-60 | for a void or default-constructible result type, the new wrapper holds the callable and is registered under its own fresh token |
| `Callbacks.SafeCallbacks.FireEntry` | SafeCallbacks.hpp:40-43 | if the entry's token is still held and its wrapper state still exists, that state's slot becomes empty; otherwise nothing changes |
| `Callbacks.SafeCallbacks.Destroy` | SafeCallbacks.hpp:32-47 | every wrapper state that exists and is reached through a held token ends with an empty slot; states reached only through released tokens, and states already gone, are untouched; the table is empty and the registry is released |
| `Scenarios.ReleaseAfter` | main.cpp:19 | a call made before the owner is released returns the callable's result; a call after it, through a wrapper that is still registered, returns the default; the two results are the outputs of the trace call, cancel, call in the value model. The driver itself makes no call after the release and tears its wrappers down before it; `Scenarios.WrapperFirst` covers that order |
| `Scenarios.ReleaseBefore` | main.cpp:20 | with two wrappers outstanding and the owner released before any call, each wrapper returns its own default, and so does a copy of the first wrapper's handle made before the release |
| `Scenarios.WrapperFirst` | SafeCallbacks.hpp:122-131 | a wrapper torn down while its owner exists leaves the owner's table empty; cancelling a second wrapper twice (an idempotence check, since only its token can cancel it in the code) and then releasing the owner leaves it returning its default |

## Left out

- Locking (`os_unfair_lock`) and every thread interleaving: each operation is one atomic step.
  This leaves out the window in which `operator()` runs the callable after unlocking
  (SafeCallbacks.hpp:193-198) and the orderings that release the owner during a call or from
  inside one (main.cpp:21-22).
- Reference counting and `enable_shared_from_this`: liveness is an explicit flag, and a wrapper
  state's destructor is an explicit call made when its last handle is dropped.
- `std::function` type erasure: one registry serves wrappers of one signature `A -> R`. The
  argument pack is one type `A`, and a void result is the unit type `()`.
- The callable is a pure Dafny function. Its side effects, the exceptions it may throw (these
  pass through `operator()` unchanged) and self-referential callbacks are not modelled.
- Destroying a callable's captures. In the model, resetting a slot (SafeCallbacks.hpp:209)
  changes only that slot, so `Callbacks.SafeCallbacks.Destroy` holds for any table. In the code,
  the reset also destroys whatever the callable captured. If wrapper A's callable holds the last
  handle to wrapper B of the same owner, firing A's token inside the destructor's loop
  (SafeCallbacks.hpp:38-44) runs B's `~safe_function_wrapper_impl` (lines 122-131). Its
  `remove_cancel` still locks the owner (line 147), so it re-enters `remove_cancellable`, which
  takes `lock` (line 102) while line 37 already holds it on the same thread. That re-entry, and
  any other effect of destroying a capture, is not modelled.
- The `enable_if` constraints on the overloads (SafeCallbacks.hpp:49, 55, 68). The "void or
  default-constructible" rule is the `R(0)` bound on `MakeSafeValueInit`. The non-void rule of
  the explicit-default overload is not enforced.
- `Callbacks.SafeFunctionWrapper.Copy`: models the copy constructor only (SafeCallbacks.hpp:166).
  The move constructor (line 168) hands the state over and leaves the moved-from handle with a
  null `impl`, so a later call through that handle dereferences null (line 175). The model has
  no empty handle, so a move is not modelled. The copy and move assignment operators (lines 167
  and 169) drop the target's previous state, which may run its teardown. They are not modelled
  either.
- `Callbacks.MakeSafeValueInit`: the default value is some value of `R`. It is not pinned to
  C++'s value-initialised `R{}`, so the contract says nothing about which default is stored.
- The debug printing (SafeCallbacks.hpp:19-21 and the `SAFE_CALLBACKS_DEBUG_PRINTS` blocks).
- main.cpp beyond the release orderings: its threads, sleeps, printing and its `make_safe` calls
  with a name argument. Those calls use an overload that SafeCallbacks.hpp does not define.
