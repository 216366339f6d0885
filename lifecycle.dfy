/**
  The life of one wrapper's shared state (`safe_function_wrapper_impl`), stated on values.

  A wrapper is Active while its callable slot is set and Cancelled once it is reset. The
  events that reach it are calls through any handle, the cancellation effect (run by its token
  when the owner is destroyed, or invoked directly), and its own teardown when the last handle
  is dropped. In module Callbacks, `Token.Invoke`, `SafeFunctionWrapper.Cancel` and
  `WrapperImpl.Teardown` are proved to move a wrapper's state exactly as `Step` does, and
  `SafeFunctionWrapper.Call` returns `CallResult` of the state; the owner's destructor states its
  effect on each slot directly.
 */
module Lifecycle {
  import opened Wrappers

  /** What a wrapper's state holds: the callable slot, the default value (the unit value `()` for a
      void result) and whether the state still exists, i.e. whether `weak_from_this()` would lock. */
  datatype WrapperView<!A, R> = WrapperView(callable: Option<A -> R>, defaultValue: R, alive: bool)

  datatype Event<A> =
    | Call(arg: A)   // operator() through any handle
    | Cancel         // safe_function_wrapper::cancel on a weak_ptr to this state
    | Teardown       // ~safe_function_wrapper_impl

  predicate Active<A, R>(w: WrapperView<A, R>) { w.callable.Some? }

  /** What `operator()` returns: the callable's result while the slot is set, otherwise the default. */
  function CallResult<A, R>(w: WrapperView<A, R>, a: A): (r: R)
  {
    match w.callable
    case Some(f) => f(a)
    case None => w.defaultValue
  }

  function Step<A, R>(w: WrapperView<A, R>, e: Event<A>): (r: WrapperView<A, R>)
  {
    match e
    case Call(_) => w
    case Cancel => if w.alive then w.(callable := None) else w
    case Teardown => w.(callable := None, alive := false)
  }

  /** The state after a sequence of events. */
  function Run<A, R>(w: WrapperView<A, R>, es: seq<Event<A>>): (r: WrapperView<A, R>)
    decreases |es|
  {
    if es == [] then w else Run(Step(w, es[0]), es[1..])
  }

  /** The results of the calls in a sequence of events, in order. */
  function Outputs<A, R>(w: WrapperView<A, R>, es: seq<Event<A>>): (rs: seq<R>)
    decreases |es|
  {
    if es == [] then []
    else (if es[0].Call? then [CallResult(w, es[0].arg)] else []) + Outputs(Step(w, es[0]), es[1..])
  }

  /** A call never changes the state; cancelling empties the slot of a live state and leaves a
      state that is gone untouched; no event fills the slot or changes the default value. */
  lemma StepOnlyResets<A, R>(w: WrapperView<A, R>, e: Event<A>)
    ensures e.Call? ==> Step(w, e) == w
    ensures e.Cancel? && w.alive ==> !Active(Step(w, e)) && Step(w, e).alive
    ensures e.Cancel? && !w.alive ==> Step(w, e) == w
    ensures e.Teardown? ==> !Active(Step(w, e)) && !Step(w, e).alive
    ensures Step(w, e).callable == w.callable || !Active(Step(w, e))
    ensures Step(w, e).defaultValue == w.defaultValue
  {
  }

  /** Cancelling an already-cancelled state changes nothing. */
  lemma CancelIdempotent<A, R>(w: WrapperView<A, R>)
    ensures Step(Step(w, Cancel), Cancel) == Step(w, Cancel)
    ensures !Active(w) ==> Step(w, Cancel) == w
  {
  }

  /** One call, seen as a one-event trace: it yields exactly one output, the callable's result while
      Active and the default once Cancelled, and leaves the state as it was. */
  lemma SingleCall<A, R>(w: WrapperView<A, R>, a: A)
    ensures Run(w, [Call(a)]) == w
    ensures Active(w) ==> Outputs(w, [Call(a)]) == [w.callable.value(a)]
    ensures !Active(w) ==> Outputs(w, [Call(a)]) == [w.defaultValue]
  {
    assert [Call(a)][1..] == [];
  }

  /** Cancelled is terminal: whatever happens afterwards, the slot stays empty. */
  lemma {:induction false} CancelledIsTerminal<A, R>(w: WrapperView<A, R>, es: seq<Event<A>>)
    requires !Active(w)
    ensures !Active(Run(w, es))
    decreases |es|
  {
    if es != [] {
      StepOnlyResets(w, es[0]);
      CancelledIsTerminal(Step(w, es[0]), es[1..]);
    }
  }

  /** Only construction fills the slot: after any events the slot holds what it held at construction,
      or nothing; the default value never changes. */
  lemma {:induction false} RunOnlyResets<A, R>(w: WrapperView<A, R>, es: seq<Event<A>>)
    ensures Run(w, es).callable == w.callable || !Active(Run(w, es))
    ensures Run(w, es).defaultValue == w.defaultValue
    decreases |es|
  {
    if es != [] {
      var w' := Step(w, es[0]);
      StepOnlyResets(w, es[0]);
      RunOnlyResets(w', es[1..]);
      if !Active(w') {
        CancelledIsTerminal(w', es[1..]);
      }
    }
  }

  /** Running two event sequences one after the other. */
  lemma {:induction false} RunAppend<A, R>(w: WrapperView<A, R>, es1: seq<Event<A>>, es2: seq<Event<A>>)
    ensures Run(w, es1 + es2) == Run(Run(w, es1), es2)
    ensures Outputs(w, es1 + es2) == Outputs(w, es1) + Outputs(Run(w, es1), es2)
    decreases |es1|
  {
    if es1 == [] {
      assert es1 + es2 == es2;
    } else {
      assert (es1 + es2)[0] == es1[0];
      assert (es1 + es2)[1..] == es1[1..] + es2;
      RunAppend(Step(w, es1[0]), es1[1..], es2);
    }
  }

  /** While no cancellation reaches an Active state, every call runs the wrapped callable exactly once
      and returns its result. */
  lemma {:induction false} CallsWhileActive<A, R>(w: WrapperView<A, R>, f: A -> R, es: seq<Event<A>>)
    requires w.callable == Some(f)
    requires forall i :: 0 <= i < |es| ==> es[i].Call?
    ensures |Outputs(w, es)| == |es|
    ensures forall i :: 0 <= i < |es| ==> Outputs(w, es)[i] == f(es[i].arg)
    ensures Run(w, es) == w
    decreases |es|
  {
    if es != [] {
      CallsWhileActive(w, f, es[1..]);
      assert Outputs(w, es) == [f(es[0].arg)] + Outputs(w, es[1..]);
    }
  }

  /** Once Cancelled, every later call returns the default value and never the callable's result. */
  lemma {:induction false} CallsWhileCancelled<A, R>(w: WrapperView<A, R>, es: seq<Event<A>>)
    requires !Active(w)
    ensures forall i :: 0 <= i < |Outputs(w, es)| ==> Outputs(w, es)[i] == w.defaultValue
    decreases |es|
  {
    if es != [] {
      var w' := Step(w, es[0]);
      StepOnlyResets(w, es[0]);
      CallsWhileCancelled(w', es[1..]);
      var head := if es[0].Call? then [CallResult(w, es[0].arg)] else [];
      assert Outputs(w, es) == head + Outputs(w', es[1..]);
    }
  }

  /** The cut-over: calls made before the cancellation of a live, Active state return the callable's
      results, and every call made after it returns the default, whatever else happens afterwards. */
  lemma Cutover<A, R>(w: WrapperView<A, R>, f: A -> R, before: seq<Event<A>>, after: seq<Event<A>>)
    requires w.callable == Some(f) && w.alive
    requires forall i :: 0 <= i < |before| ==> before[i].Call?
    ensures var out := Outputs(w, before + [Cancel] + after);
      && |out| >= |before|
      && (forall i :: 0 <= i < |before| ==> out[i] == f(before[i].arg))
      && (forall i :: |before| <= i < |out| ==> out[i] == w.defaultValue)
  {
    CallsWhileActive(w, f, before);
    RunAppend(w, before, [Cancel] + after);
    assert before + [Cancel] + after == before + ([Cancel] + after);
    var c := Step(w, Cancel);
    assert Outputs(w, [Cancel] + after) == Outputs(c, after) by {
      assert ([Cancel] + after)[1..] == after;
    }
    CallsWhileCancelled(c, after);
  }
}
