/**
  The owner registry and the callback wrappers of `SafeCallbacks.hpp`, as objects updated in place.
  Every operation is atomic here: the `os_unfair_lock` sections only serialise these same steps.

  Liveness, which C++ tracks with `shared_ptr`/`weak_ptr`, is an explicit flag on each object:
  `Registry.live` while the owner's `shared_ptr` holds it, `Token.live` while the wrapper state's
  `cancel` member holds it, `WrapperImpl.alive` while some handle holds the wrapper state. A
  `weak_ptr::lock()` that succeeds is a check of that flag.
 */
module Callbacks {
  import opened Wrappers
  import opened Table
  import Lifecycle

  /** The cancellation token (`std::shared_ptr<std::function<void(void)>>` built by `make_cancel`):
      a closure bound to a weak pointer to one wrapper state. Its identity is the object itself. */
  class Token<!A, R> {
    const target: WrapperImpl<A, R>
    var live: bool

    constructor (target: WrapperImpl<A, R>)
      ensures this.target == target && live
    {
      this.target := target;
      live := true;
    }

    /** `(*cancellable)()`: runs `safe_function_wrapper::cancel` on the bound weak pointer. */
    method Invoke()
      modifies target`callable
      ensures target.View() == Lifecycle.Step(old(target.View()), Lifecycle.Cancel)
    {
      SafeFunctionWrapper.Cancel(target);
    }
  }

  /** `safe_callbacks_impl`: the table from a token's identity (`void*`) to a non-owning reference to it. */
  class Registry<!A, R> {
    var cancellables: map<object, Token<A, R>>
    var live: bool

    /** Every entry is keyed by the identity of the token it refers to. */
    ghost predicate Valid()
      reads this
    {
      forall k :: k in cancellables ==> cancellables[k] == k
    }

    /** The wrapper states the entries refer to. */
    ghost function Targets(): set<WrapperImpl<A, R>>
      reads this
    {
      set k | k in cancellables :: cancellables[k].target
    }

    /** The wrapper states reached through an entry whose `weak_ptr` still locks. */
    ghost function LiveTargets(): set<WrapperImpl<A, R>>
      reads this, cancellables.Values
    {
      set k | k in cancellables && cancellables[k].live :: cancellables[k].target
    }

    constructor ()
      ensures live && cancellables == map[] && Valid()
    {
      cancellables := map[];
      live := true;
    }

    /** `add_cancellable`: `insert_or_assign(cancellable.get(), cancellable)`. */
    method AddCancellable(cancellable: Token<A, R>)
      requires Valid()
      modifies this`cancellables
      ensures Valid()
      ensures cancellables == InsertOrAssign(old(cancellables), cancellable, cancellable)
    {
      cancellables := InsertOrAssign(cancellables, cancellable, cancellable);
    }

    /** `remove_cancellable`: `erase(cancellablePtr)`. */
    method RemoveCancellable(cancellablePtr: object)
      requires Valid()
      modifies this`cancellables
      ensures Valid()
      ensures cancellables == Erase(old(cancellables), cancellablePtr)
    {
      cancellables := Erase(cancellables, cancellablePtr);
    }
  }

  /** `safe_function_wrapper_impl`: the state shared by every copy of one wrapper handle. */
  class WrapperImpl<!A, R> {
    var callable: Option<A -> R>
    const defaultValue: R
    var owner: Registry?<A, R>
    var cancel: Token?<A, R>
    var alive: bool

    ghost function View(): Lifecycle.WrapperView<A, R>
      reads this
    {
      Lifecycle.WrapperView(callable, defaultValue, alive)
    }

    /** After construction: the state owns a token bound to itself. */
    ghost predicate Valid()
      reads this
    {
      cancel != null && cancel.target == this
    }

    constructor (callable: A -> R, defaultValue: R, owner: Registry?<A, R>)
      ensures View() == Lifecycle.WrapperView(Some(callable), defaultValue, true)
      ensures this.owner == owner && cancel == null
    {
      this.callable := Some(callable);
      this.defaultValue := defaultValue;
      this.owner := owner;
      cancel := null;
      alive := true;
    }

    /** `make_cancel`: builds the token, bound to a weak pointer to this state. */
    method MakeCancel()
      requires cancel == null
      modifies this`cancel
      ensures Valid() && fresh(cancel) && cancel.live
    {
      cancel := new Token(this);
    }

    /** `remove_cancel`: unregisters the token, but only when the owner still exists. */
    method RemoveCancel()
      requires Valid()
      requires owner != null ==> owner.Valid()
      modifies owner
      ensures owner != null && old(owner.live) ==>
        owner.cancellables == Erase(old(owner.cancellables), cancel) && owner.Valid()
      ensures owner != null && old(owner.live) ==> cancel !in owner.cancellables.Values
      ensures owner != null ==> owner.live == old(owner.live)
      ensures owner != null && !old(owner.live) ==> owner.cancellables == old(owner.cancellables)
    {
      if owner != null && owner.live {
        owner.RemoveCancellable(cancel);
      }
    }

    /** `~safe_function_wrapper_impl`, run when the last handle is dropped (by then `weak_from_this()`
        no longer locks): resets the callable, unregisters the token, then drops the token and the
        weak owner link. */
    method Teardown()
      requires Valid() && alive
      requires owner != null ==> owner.Valid()
      modifies this, cancel, owner
      ensures View() == Lifecycle.Step(old(View()), Lifecycle.Teardown)
      ensures cancel == null && owner == null && !old(cancel).live
      ensures old(owner) != null && old(owner.live) ==>
        old(owner).cancellables == Erase(old(owner.cancellables), old(cancel)) && old(owner).Valid()
      ensures old(owner) != null && old(owner.live) ==> old(cancel) !in old(owner).cancellables.Values
      ensures old(owner) != null ==> old(owner).live == old(owner.live)
      ensures old(owner) != null && !old(owner.live) ==> old(owner).cancellables == old(owner.cancellables)
    {
      alive := false;
      callable := None;
      RemoveCancel();
      cancel.live := false;
      cancel := null;
      owner := null;
    }
  }

  /** `safe_function_wrapper`: a handle; every copy refers to the same state. */
  class SafeFunctionWrapper<!A, R> {
    const impl: WrapperImpl<A, R>

    /** Builds the state and its token, then registers the token with the owner. The owner's
        `weak_ptr` is locked and dereferenced without a check, so it must still exist. */
    constructor (callable: A -> R, defaultValue: R, owner: Registry<A, R>)
      requires owner.live && owner.Valid()
      modifies owner
      ensures fresh(impl) && fresh(impl.cancel) && impl.Valid() && impl.cancel.live
      ensures impl.View() == Lifecycle.WrapperView(Some(callable), defaultValue, true)
      ensures impl.owner == owner && owner.live && owner.Valid()
      ensures impl.cancel !in old(owner.cancellables)
      ensures owner.cancellables == InsertOrAssign(old(owner.cancellables), impl.cancel, impl.cancel)
    {
      var state := new WrapperImpl(callable, defaultValue, owner);
      state.MakeCancel();
      owner.AddCancellable(state.cancel);
      impl := state;
    }

    /** The defaulted copy constructor: a second handle on the same shared state. */
    constructor Copy(other: SafeFunctionWrapper<A, R>)
      ensures impl == other.impl
    {
      impl := other.impl;
    }

    /** `operator()`: the callable's result while the slot is set, otherwise the stored default
        (the unit value for a void result). Nothing is modified. */
    method Call(args: A) returns (r: R)
      ensures impl.callable.Some? ==> r == impl.callable.value(args)
      ensures impl.callable.None? ==> r == impl.defaultValue
      ensures r == Lifecycle.CallResult(impl.View(), args)
    {
      var target := impl.callable;
      if target.None? {
        var defaultValue := impl.defaultValue;
        return defaultValue;
      }
      r := target.value(args);
    }

    /** `safe_function_wrapper::cancel`: resets the callable slot if the state still exists. */
    static method Cancel(weakImpl: WrapperImpl<A, R>)
      modifies weakImpl`callable
      ensures weakImpl.View() == Lifecycle.Step(old(weakImpl.View()), Lifecycle.Cancel)
      ensures weakImpl.alive ==> weakImpl.callable == None
      ensures !weakImpl.alive ==> weakImpl.callable == old(weakImpl.callable)
    {
      if weakImpl.alive {
        weakImpl.callable := None;
      }
    }
  }

  /** `safe_callbacks`: the owner's member that owns the registry. */
  class SafeCallbacks<!A, R> {
    const impl: Registry<A, R>

    constructor ()
      ensures fresh(impl) && impl.live && impl.cancellables == map[] && impl.Valid()
    {
      impl := new Registry();
    }

    /** The copy and the move constructor: both build a new, empty registry and take nothing from `other`. */
    constructor FromOther(other: SafeCallbacks<A, R>)
      ensures fresh(impl) && impl.live && impl.cancellables == map[] && impl.Valid()
    {
      impl := new Registry();
    }

    /** `make_safe(default_value, callable)`. */
    method MakeSafe(defaultValue: R, callable: A -> R) returns (w: SafeFunctionWrapper<A, R>)
      requires impl.live && impl.Valid()
      modifies impl
      ensures fresh(w) && fresh(w.impl) && fresh(w.impl.cancel) && w.impl.Valid() && w.impl.cancel.live
      ensures w.impl.View() == Lifecycle.WrapperView(Some(callable), defaultValue, true)
      ensures w.impl.owner == impl && impl.live && impl.Valid()
      ensures w.impl.cancel !in old(impl.cancellables)
      ensures impl.cancellables == InsertOrAssign(old(impl.cancellables), w.impl.cancel, w.impl.cancel)
    {
      w := new SafeFunctionWrapper(callable, defaultValue, impl);
    }

    /** One turn of the destructor's loop: lock the entry's weak pointer and, if that succeeds, run the token. */
    static method FireEntry(cancellable: Token<A, R>)
      modifies cancellable.target`callable
      ensures cancellable.target.callable ==
        if cancellable.live && cancellable.target.alive then None else old(cancellable.target.callable)
    {
      if cancellable.live {
        cancellable.Invoke();
      }
    }

    /** `~safe_callbacks`: fires every token whose weak pointer still locks, clears the table, and
        then the registry itself is released. */
    method Destroy()
      requires impl.live
      modifies impl, impl.Targets()`callable
      ensures !impl.live && impl.cancellables == map[] && impl.Valid()
      ensures forall s :: s in old(impl.Targets()) ==>
        s.callable == if s in old(impl.LiveTargets()) && old(s.alive) then None else old(s.callable)
    {
      ghost var entries := impl.cancellables;
      ghost var liveKeys := set k | k in entries && entries[k].live;
      ghost var targets := impl.Targets();
      ghost var liveTargets := impl.LiveTargets();
      ghost var fired: set<WrapperImpl<A, R>> := {};
      var keys := impl.cancellables.Keys;
      while keys != {}
        invariant keys <= entries.Keys && impl.cancellables == entries && impl.live
        invariant targets == old(impl.Targets())
        invariant fired <= liveTargets
        invariant forall k :: k in liveKeys && k !in keys ==> entries[k].target in fired
        invariant forall s :: s in targets ==>
          s.callable == if s in fired && s.alive then None else old(s.callable)
        decreases keys
      {
        var key :| key in keys;
        var cancellable := impl.cancellables[key];
        FireEntry(cancellable);
        if cancellable.live {
          fired := fired + {cancellable.target};
        }
        keys := keys - {key};
      }
      assert fired == liveTargets;
      impl.cancellables := map[];
      impl.live := false;
    }
  }

  /** `make_safe(callable)`: the default is the value-initialised `R`, which needs `R` to be void
      (the unit type here) or default constructible. */
  method MakeSafeValueInit<A, R(0)>(cb: SafeCallbacks<A, R>, callable: A -> R) returns (w: SafeFunctionWrapper<A, R>)
    requires cb.impl.live && cb.impl.Valid()
    modifies cb.impl
    ensures fresh(w) && fresh(w.impl) && fresh(w.impl.cancel) && w.impl.Valid() && w.impl.cancel.live
    ensures w.impl.callable == Some(callable) && w.impl.alive
    ensures w.impl.owner == cb.impl && cb.impl.live && cb.impl.Valid()
    ensures w.impl.cancel !in old(cb.impl.cancellables)
    ensures cb.impl.cancellables == InsertOrAssign(old(cb.impl.cancellables), w.impl.cancel, w.impl.cancel)
  {
    var dv: R := *;
    w := cb.MakeSafe(dv, callable);
  }
}
