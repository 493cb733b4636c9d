/**
 * The page-to-page event bus (utils/eventBus.js): a dictionary from event names to lists of
 * listeners. Callbacks are opaque functions; here a callback is a number, and the callbacks
 * that throw when called are a parameter of `Emit`. A `once` registration wraps the callback in
 * a fresh closure that removes itself after the callback returns.
 */
module EventBus {
  import opened Wrappers

  /** A registered listener: a plain callback, or the closure `once` creates (each has its own token). */
  datatype Listener = Plain(fn: nat) | OnceWrapper(fn: nat, token: nat)

  /** A once-closure whose callback returned normally goes on to remove itself. */
  predicate Ran(l: Listener, throwing: set<nat>)
  {
    l.OnceWrapper? && l.fn !in throwing
  }

  /** `list.filter(cb => cb !== callback)`. */
  function Without(xs: seq<Listener>, w: Listener): (r: seq<Listener>)
    ensures |r| <= |xs|
  {
    if |xs| == 0 then []
    else if xs[|xs| - 1] == w then Without(xs[..|xs| - 1], w)
    else Without(xs[..|xs| - 1], w) + [xs[|xs| - 1]]
  }

  /** The list with every once-closure of `done` that ran removed, in order. */
  function Purged(xs: seq<Listener>, done: seq<Listener>, throwing: set<nat>): (r: seq<Listener>)
    ensures |r| <= |xs|
  {
    if |xs| == 0 then []
    else
      var l := xs[|xs| - 1];
      var rest := Purged(xs[..|xs| - 1], done, throwing);
      if l in done && Ran(l, throwing) then rest else rest + [l]
  }

  /** `off(name, w)` removes exactly the registrations of `w`. */
  lemma {:induction false} WithoutMembers(xs: seq<Listener>, w: Listener, l: Listener)
    ensures l in Without(xs, w) <==> l in xs && l != w
  {
    if |xs| > 0 {
      var n := |xs| - 1;
      WithoutMembers(xs[..n], w, l);
      assert xs == xs[..n] + [xs[n]];
    }
  }

  lemma {:induction false} PurgedMembers(xs: seq<Listener>, done: seq<Listener>, throwing: set<nat>, l: Listener)
    ensures l in Purged(xs, done, throwing) <==> l in xs && !(l in done && Ran(l, throwing))
  {
    if |xs| > 0 {
      var n := |xs| - 1;
      PurgedMembers(xs[..n], done, throwing, l);
      assert xs == xs[..n] + [xs[n]];
    }
  }

  /** The listeners left after an emit, as written: once-closures whose callback threw stay. */
  function AfterEmit(xs: seq<Listener>, throwing: set<nat>): seq<Listener>
  {
    Purged(xs, xs, throwing)
  }

  /** The callbacks an emit calls, in list order. */
  function Calls(xs: seq<Listener>): seq<nat>
  {
    if |xs| == 0 then [] else Calls(xs[..|xs| - 1]) + [xs[|xs| - 1].fn]
  }

  /** Each listener's callback is called once, at the listener's position. */
  lemma {:induction false} CallsAt(xs: seq<Listener>, k: nat)
    requires k < |xs|
    ensures |Calls(xs)| == |xs| && Calls(xs)[k] == xs[k].fn
  {
    var n := |xs| - 1;
    if k < n {
      CallsAt(xs[..n], k);
    } else if n > 0 {
      CallsAt(xs[..n], n - 1);
    }
  }

  /** Removing one ran closure extends `done` by it. */
  lemma {:induction false} WithoutPurged(xs: seq<Listener>, done: seq<Listener>, w: Listener, throwing: set<nat>)
    requires Ran(w, throwing)
    ensures Without(Purged(xs, done, throwing), w) == Purged(xs, done + [w], throwing)
  {
    if |xs| > 0 {
      var n := |xs| - 1;
      WithoutPurged(xs[..n], done, w, throwing);
      var p := Purged(xs[..n], done, throwing);
      assert Without(p + [xs[n]], w) == if xs[n] == w then Without(p, w) else Without(p, w) + [xs[n]] by {
        assert (p + [xs[n]])[..|p|] == p;
      }
    }
  }

  /** Before any listener has run nothing is removed. */
  lemma {:induction false} PurgedNothingDone(xs: seq<Listener>, throwing: set<nat>)
    ensures Purged(xs, [], throwing) == xs
  {
    if |xs| > 0 {
      PurgedNothingDone(xs[..|xs| - 1], throwing);
    }
  }

  /** A listener that did not run leaves nothing more to remove. */
  lemma {:induction false} PurgedSkip(xs: seq<Listener>, done: seq<Listener>, w: Listener, throwing: set<nat>)
    requires !Ran(w, throwing)
    ensures Purged(xs, done + [w], throwing) == Purged(xs, done, throwing)
  {
    if |xs| > 0 {
      PurgedSkip(xs[..|xs| - 1], done, w, throwing);
    }
  }

  /**
   * After an emit, plain listeners and once-closures whose callback threw are still
   * registered, in their order, and no once-closure whose callback returned is.
   */
  lemma AfterEmitMembers(xs: seq<Listener>, throwing: set<nat>, l: Listener)
    ensures l in AfterEmit(xs, throwing) <==> l in xs && !Ran(l, throwing)
  {
    PurgedMembers(xs, xs, throwing, l);
  }

  /** A once-callback that returns normally is called by the first emit and by no later one. */
  lemma {:induction false} OnceFiresAtMostOnce(xs: seq<Listener>, throwing: set<nat>, w: Listener)
    requires w in xs && w.OnceWrapper? && w.fn !in throwing
    ensures w !in AfterEmit(xs, throwing)
  {
    AfterEmitMembers(xs, throwing, w);
  }

  /**
   * As written, a once-callback that throws is never removed, so it fires on every emit: a bus
   * holding only `once(7)` calls 7 on the first emit and again on the second.
   */
  lemma ThrowingOnceFiresAgain()
    ensures var xs := [OnceWrapper(7, 0)];
      Calls(xs) == [7] && AfterEmit(xs, {7}) == xs && Calls(AfterEmit(xs, {7})) == [7]
  {
    var xs := [OnceWrapper(7, 0)];
    assert xs[..0] == [];
  }

  /** The intended once: the closure removes itself whether or not its callback throws. */
  function AfterEmitFixed(xs: seq<Listener>): seq<Listener>
  {
    Purged(xs, xs, {})
  }

  /** With the fix, no once-closure survives the emit that called it, and plain listeners all do. */
  lemma OnceFixedFiresOnce(xs: seq<Listener>, throwing: set<nat>)
    ensures forall k :: 0 <= k < |xs| && xs[k].OnceWrapper? ==> xs[k] !in AfterEmitFixed(xs)
    ensures forall k :: 0 <= k < |xs| && xs[k].Plain? ==> xs[k] in AfterEmitFixed(xs)
    ensures forall l :: l in AfterEmitFixed(xs) ==> l in AfterEmit(xs, throwing)
  {
    forall l | l in xs || l in AfterEmitFixed(xs)
      ensures l in AfterEmitFixed(xs) <==> l in xs && l.Plain?
      ensures l in AfterEmitFixed(xs) ==> l in AfterEmit(xs, throwing)
    {
      PurgedMembers(xs, xs, {}, l);
      PurgedMembers(xs, xs, throwing, l);
    }
  }

  class Bus {
    var events: map<string, seq<Listener>>
    /** The token the next `once` closure gets; every closure is a new object. */
    var nextToken: nat

    constructor ()
      ensures events == map[] && nextToken == 0
    {
      events := map[];
      nextToken := 0;
    }

    /** The listeners of an event, [] when it has none. */
    function Listeners(name: string): seq<Listener>
      reads this
    {
      if name in events then events[name] else []
    }

    method Register(name: string, l: Listener)
      modifies this
      ensures events == old(events)[name := old(Listeners(name)) + [l]]
      ensures nextToken == old(nextToken)
    {
      if name !in events {
        events := events[name := []];
      }
      events := events[name := events[name] + [l]];
    }

    /** `on`: the callback is appended after the earlier ones. */
    method On(name: string, fn: nat)
      modifies this
      ensures events == old(events)[name := old(Listeners(name)) + [Plain(fn)]]
      ensures nextToken == old(nextToken)
    {
      Register(name, Plain(fn));
    }

    /** `off`: with a callback, every registration of exactly it goes; without one, the event goes. */
    method Off(name: string, callback: Option<Listener>)
      modifies this
      ensures name in old(events) && callback.Some? ==> events == old(events)[name := Without(old(events)[name], callback.value)]
      ensures name in old(events) && callback.None? ==> events == old(events) - {name}
      ensures name !in old(events) ==> events == old(events)
      ensures nextToken == old(nextToken)
    {
      if name in events {
        if callback.Some? {
          events := events[name := Without(events[name], callback.value)];
        } else {
          events := events - {name};
        }
      }
    }

    /** `once`: registers a fresh closure around the callback and returns it. */
    method Once(name: string, fn: nat) returns (w: Listener)
      modifies this
      ensures w == OnceWrapper(fn, old(nextToken))
      ensures events == old(events)[name := old(Listeners(name)) + [w]]
      ensures nextToken == old(nextToken) + 1
    {
      w := OnceWrapper(fn, nextToken);
      nextToken := nextToken + 1;
      Register(name, w);
    }

    /** One iteration of `emit`: a once-closure whose callback returned calls `off` on itself. */
    method Call(name: string, l: Listener, throwing: set<nat>)
      requires name in events
      modifies this
      ensures events == old(events)[name := if Ran(l, throwing) then Without(old(events)[name], l) else old(events)[name]]
      ensures nextToken == old(nextToken)
    {
      if l.OnceWrapper? && l.fn !in throwing {
        Off(name, Some(l));
      }
    }

    /**
     * `emit`: every callback registered when the emit starts is called once, in order, whatever
     * the others throw; each once-closure whose callback returned then removes itself.
     */
    method Emit(name: string, throwing: set<nat>) returns (calls: seq<nat>)
      modifies this
      ensures calls == Calls(old(Listeners(name)))
      ensures name in old(events) ==> events == old(events)[name := AfterEmit(old(events)[name], throwing)]
      ensures name !in old(events) ==> events == old(events)
      ensures nextToken == old(nextToken)
    {
      calls := [];
      if name !in events {
        return;
      }
      var list := events[name];
      ghost var before := events;
      ghost var cur := list;
      PurgedNothingDone(list, throwing);
      assert list[..0] == [];
      var i := 0;
      while i < |list|
        invariant 0 <= i <= |list|
        invariant calls == Calls(list[..i])
        invariant cur == Purged(list, list[..i], throwing)
        invariant events == before[name := cur]
        invariant nextToken == old(nextToken)
      {
        var l := list[i];
        calls := calls + [l.fn];
        Call(name, l, throwing);
        ghost var done := list[..i];
        assert list[..i + 1] == done + [l];
        if Ran(l, throwing) {
          WithoutPurged(list, done, l, throwing);
          cur := Without(cur, l);
        } else {
          PurgedSkip(list, done, l, throwing);
        }
        i := i + 1;
      }
      assert list[..|list|] == list;
    }
  }
}
