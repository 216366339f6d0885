/**
  The release orderings the driver program exercises, run sequentially against the contracts of
  module Callbacks: the owner released after the calls, before them (with handles copied first),
  and a wrapper released before its owner. Each is a client that allocates everything it uses.
 */
module Scenarios {
  import opened Wrappers
  import Lifecycle
  import opened Callbacks

  /** The owner is released after a call: that call runs the callable, a later one returns the default.
      The two results are exactly what the value-level trace model predicts for the events
      call, cancel, call on a freshly constructed wrapper. This goes beyond the driver program.
      There, every handle lives in the calling thread's closure and is dropped when that thread
      ends, so each wrapper is torn down before the owner is released and no call follows the
      release (that order is `WrapperFirst`). */
  method ReleaseAfter<A, R>(callable: A -> R, defaultValue: R, args: A) returns (before: R, after: R)
    ensures before == callable(args)
    ensures after == defaultValue
    ensures [before, after] == Lifecycle.Outputs(Lifecycle.WrapperView(Some(callable), defaultValue, true),
                                                 [Lifecycle.Call(args), Lifecycle.Cancel, Lifecycle.Call(args)])
  {
    var cb := new SafeCallbacks<A, R>();
    var w := cb.MakeSafe(defaultValue, callable);
    ghost var constructed := w.impl.View();
    before := w.Call(args);
    assert w.impl in cb.impl.LiveTargets() && w.impl in cb.impl.Targets();
    cb.Destroy();
    assert w.impl.View() == Lifecycle.Step(constructed, Lifecycle.Cancel);
    after := w.Call(args);
    ghost var events := [Lifecycle.Call(args), Lifecycle.Cancel, Lifecycle.Call(args)];
    assert events[1..] == [Lifecycle.Cancel, Lifecycle.Call(args)] && events[1..][1..] == [Lifecycle.Call(args)];
    Lifecycle.SingleCall(Lifecycle.Step(constructed, Lifecycle.Cancel), args);
    assert Lifecycle.Outputs(constructed, events) == [before] + Lifecycle.Outputs(constructed, events[1..]);
  }

  /** The owner is released before any call, with two wrappers outstanding and a second handle on
      the first one, copied before the release: every call, through either handle, returns its
      own wrapper's default. */
  method ReleaseBefore<A, R>(f: A -> R, g: A -> R, d1: R, d2: R, args: A) returns (r1: R, rCopy: R, r2: R)
    ensures r1 == d1 && rCopy == d1 && r2 == d2
  {
    var cb := new SafeCallbacks<A, R>();
    var w1 := cb.MakeSafe(d1, f);
    var w2 := cb.MakeSafe(d2, g);
    var t1: Token<A, R>, t2: Token<A, R> := w1.impl.cancel, w2.impl.cancel;
    assert t1 in cb.impl.cancellables && cb.impl.cancellables[t1] == t1 && t1.live && t1.target == w1.impl;
    assert t2 in cb.impl.cancellables && cb.impl.cancellables[t2] == t2 && t2.live && t2.target == w2.impl;
    assert w1.impl in cb.impl.LiveTargets() && w1.impl in cb.impl.Targets();
    assert w2.impl in cb.impl.LiveTargets() && w2.impl in cb.impl.Targets();
    assert w1.impl.alive && w2.impl.alive;
    var copy := new SafeFunctionWrapper.Copy(w1);
    cb.Destroy();
    assert w1.impl.callable == None;
    assert w2.impl.callable == None;
    r1 := w1.Call(args);
    rCopy := copy.Call(args);
    r2 := w2.Call(args);
  }

  /** A wrapper whose last handle is dropped while the owner exists: its entry is erased, the owner's
      table is empty again, and the owner's release then leaves the wrapper alone. The second
      wrapper is then cancelled twice through the state's own cancellation routine, which only its
      token reaches in the C++ code: this checks that cancelling is idempotent and that the owner's
      later release leaves a cancelled wrapper returning its default. It is not a release ordering. */
  method WrapperFirst<A, R>(f: A -> R, g: A -> R, d1: R, d2: R, args: A) returns (entries: nat, r: R)
    ensures entries == 0
    ensures r == d2
  {
    var cb := new SafeCallbacks<A, R>();
    var w1 := cb.MakeSafe(d1, f);
    w1.impl.Teardown();
    entries := |cb.impl.cancellables|;
    var w2 := cb.MakeSafe(d2, g);
    SafeFunctionWrapper.Cancel(w2.impl);
    SafeFunctionWrapper.Cancel(w2.impl);
    assert w2.impl in cb.impl.LiveTargets() && w2.impl in cb.impl.Targets();
    cb.Destroy();
    assert w2.impl.callable == None;
    r := w2.Call(args);
  }
}
