/**
 * Money visibility (services/privacy.js and services/privacyScope.js): one global flag kept in
 * storage with subscribers that are told every change, and per-page overrides stored under a
 * key derived from the page route. Subscribers are numbers; a notification is the subscriber
 * and the value it receives.
 */
module Privacy {
  import opened Wrappers
  import opened Strings
  import opened Js

  const StorageKey := "privacy.moneyVisible"
  const StorageVersionKey := "privacy.version"
  const CurrentVersion := 1

  datatype Delivery = Delivery(subscriber: nat, visible: bool)

  /** Every listener, in order, receives the same value. */
  function Notify(listeners: seq<nat>, visible: bool): (r: seq<Delivery>)
    ensures |r| == |listeners|
    ensures forall k :: 0 <= k < |r| ==> r[k] == Delivery(listeners[k], visible)
  {
    seq(|listeners|, k requires 0 <= k < |listeners| => Delivery(listeners[k], visible))
  }

  /** `listeners.filter(x => x !== cb)`. */
  function Remove(xs: seq<nat>, cb: nat): (r: seq<nat>)
    ensures |r| <= |xs|
  {
    if |xs| == 0 then []
    else if xs[|xs| - 1] == cb then Remove(xs[..|xs| - 1], cb)
    else Remove(xs[..|xs| - 1], cb) + [xs[|xs| - 1]]
  }

  /** Unsubscribing removes every registration of that callback and keeps the others in order. */
  lemma {:induction false} RemoveSpec(xs: seq<nat>, cb: nat, x: nat)
    ensures x in Remove(xs, cb) <==> x in xs && x != cb
    ensures Remove(xs, cb) == xs <==> cb !in xs
  {
    if |xs| > 0 {
      var n := |xs| - 1;
      RemoveSpec(xs[..n], cb, x);
      assert xs == xs[..n] + [xs[n]];
      if xs[n] == cb {
        assert cb in xs;
      }
    }
  }

  /** The module state of services/privacy.js and the two storage keys it owns. */
  class MoneyVisibility {
    var moneyVisible: bool
    var listeners: seq<nat>
    /** What storage holds under the value key and the version key. */
    var stored: JsValue
    var storedVersion: JsValue

    /** `load` at module start: version migration, then a stored boolean wins over the default false. */
    constructor (stored: JsValue, storedVersion: JsValue)
      ensures moneyVisible == (stored.Bool? && stored.b)
      ensures listeners == [] && this.stored == stored
      ensures this.storedVersion == if !Truthy(storedVersion) || (storedVersion.Num? && storedVersion.n < CurrentVersion)
        then Num(CurrentVersion) else storedVersion
    {
      moneyVisible := false;
      listeners := [];
      this.stored := stored;
      this.storedVersion := storedVersion;
      if !Truthy(storedVersion) {
        if stored.Bool? {
          moneyVisible := stored.b;
        }
        this.storedVersion := Num(CurrentVersion);
      } else if storedVersion.Num? && storedVersion.n < CurrentVersion {
        this.storedVersion := Num(CurrentVersion);
      }
      if stored.Bool? {
        moneyVisible := stored.b;
      }
    }

    /**
     * `setMoneyVisible`: the argument is coerced with `!!`; an unchanged value does nothing and
     * tells nobody, a change is stored and then sent to every listener.
     */
    method SetMoneyVisible(visible: JsValue) returns (sent: seq<Delivery>)
      modifies this
      ensures moneyVisible == Truthy(visible)
      ensures listeners == old(listeners)
      ensures old(moneyVisible) == Truthy(visible) ==>
        sent == [] && stored == old(stored) && storedVersion == old(storedVersion)
      ensures old(moneyVisible) != Truthy(visible) ==>
        stored == Bool(Truthy(visible)) && storedVersion == Num(CurrentVersion)
        && sent == Notify(listeners, Truthy(visible))
    {
      if moneyVisible == Truthy(visible) {
        return [];
      }
      moneyVisible := Truthy(visible);
      stored := Bool(moneyVisible);
      storedVersion := Num(CurrentVersion);
      sent := NotifyAll();
    }

    /** `notify`: each listener is called with the current value; a throwing one does not stop the rest. */
    method NotifyAll() returns (sent: seq<Delivery>)
      ensures sent == Notify(listeners, moneyVisible)
    {
      sent := [];
      var i := 0;
      while i < |listeners|
        invariant 0 <= i <= |listeners|
        invariant sent == Notify(listeners[..i], moneyVisible)
      {
        sent := sent + [Delivery(listeners[i], moneyVisible)];
        i := i + 1;
      }
      assert listeners[..|listeners|] == listeners;
    }

    /** `toggleMoneyVisible`: the flag always flips, and every listener hears of it. */
    method ToggleMoneyVisible() returns (sent: seq<Delivery>)
      modifies this
      ensures moneyVisible == !old(moneyVisible)
      ensures stored == Bool(moneyVisible) && listeners == old(listeners)
      ensures sent == Notify(listeners, moneyVisible)
    {
      sent := SetMoneyVisible(Bool(!moneyVisible));
    }

    function GetMoneyVisible(): bool
      reads this
    {
      moneyVisible
    }

    /**
     * `subscribe`: a non-function (None) is ignored and gets a no-op back; a callback is
     * appended and immediately receives the current value. The returned handle is what the
     * unsubscribe closure removes.
     */
    method Subscribe(cb: Option<nat>) returns (handle: Option<nat>, sent: seq<Delivery>)
      modifies this
      ensures cb.None? ==> handle.None? && sent == [] && listeners == old(listeners)
      ensures cb.Some? ==> (handle == cb && listeners == old(listeners) + [cb.value]
                            && sent == [Delivery(cb.value, moneyVisible)])
      ensures moneyVisible == old(moneyVisible) && stored == old(stored) && storedVersion == old(storedVersion)
    {
      if cb.None? {
        return None, [];
      }
      listeners := listeners + [cb.value];
      return cb, [Delivery(cb.value, moneyVisible)];
    }

    /** The closure `subscribe` returns: removes only that callback (the no-op handle removes nothing). */
    method Unsubscribe(handle: Option<nat>)
      modifies this
      ensures listeners == if handle.Some? then Remove(old(listeners), handle.value) else old(listeners)
      ensures moneyVisible == old(moneyVisible) && stored == old(stored) && storedVersion == old(storedVersion)
    {
      if handle.Some? {
        listeners := Remove(listeners, handle.value);
      }
    }
  }

  // ---------------------------------------------------------------- per-page overrides

  const PagePrefix := "privacy.pageVisible:"

  /** `keyForRoute`: a trimmed route starting with '/' is kept, a bare name r becomes /pages/r/r. */
  function KeyForRoute(route: Option<string>): string
  {
    var r := Strip(if route.Some? then route.value else "");
    var norm := if StartsWith(r, "/") then r else "/pages/" + r + "/" + r;
    PagePrefix + norm
  }

  /** A bare page name and its full route share one key; an absent route is the empty name. */
  lemma KeyForRouteSpec(name: string)
    requires Strip(name) == name && !StartsWith(name, "/")
    ensures KeyForRoute(Some(name)) == PagePrefix + "/pages/" + name + "/" + name
    ensures KeyForRoute(Some("/pages/" + name + "/" + name)) == KeyForRoute(Some(name))
    ensures KeyForRoute(None) == KeyForRoute(Some(""))
  {
    var full := "/pages/" + name + "/" + name;
    assert full[0] == '/';
    assert full[|full| - 1] == if name == "" then '/' else name[|name| - 1];
    StripUnchanged(full);
    assert StartsWith(full, "/");
  }

  /** A route that is already trimmed and starts with '/' is used as it is. */
  lemma KeyForFullRoute(route: string)
    requires Strip(route) == route && StartsWith(route, "/")
    ensures KeyForRoute(Some(route)) == PagePrefix + route
  {
  }

  /** The storage the overrides live in: keys to stored values. */
  class PageStore {
    var entries: map<string, JsValue>

    constructor (entries: map<string, JsValue>)
      ensures this.entries == entries
    {
      this.entries := entries;
    }

    /** `getPageVisible`: the stored boolean, or null (None) for anything else. */
    function GetPageVisible(route: Option<string>): Option<bool>
      reads this
    {
      var k := KeyForRoute(route);
      if k in entries && entries[k].Bool? then Some(entries[k].b) else None
    }

    /** `setPageVisible`: stores `!!visible` under the route's key. */
    method SetPageVisible(route: Option<string>, visible: JsValue) returns (ok: bool)
      modifies this
      ensures ok
      ensures entries == old(entries)[KeyForRoute(route) := Bool(Truthy(visible))]
      ensures GetPageVisible(route) == Some(Truthy(visible))
    {
      entries := entries[KeyForRoute(route) := Bool(Truthy(visible))];
      return true;
    }

    /** `clearPageVisible`: removes the route's key, so the page reads null again. */
    method ClearPageVisible(route: Option<string>) returns (ok: bool)
      modifies this
      ensures ok
      ensures entries == old(entries) - {KeyForRoute(route)}
      ensures GetPageVisible(route).None?
    {
      entries := entries - {KeyForRoute(route)};
      return true;
    }

    /** `getEffectiveVisible`: the page override when there is one, the global flag otherwise. */
    function GetEffectiveVisible(route: Option<string>, global: MoneyVisibility): (r: bool)
      reads this, global
      ensures GetPageVisible(route).Some? ==> r == GetPageVisible(route).value
      ensures GetPageVisible(route).None? ==> r == global.moneyVisible
    {
      var pageVal := GetPageVisible(route);
      if pageVal.Some? then pageVal.value else global.GetMoneyVisible()
    }
  }

  /**
   * Overrides of different pages do not interfere: setting one route leaves every route with a
   * different key as it was.
   */
  lemma OtherRoutesUnaffected(entries: map<string, JsValue>, route: Option<string>, other: Option<string>, v: bool)
    requires KeyForRoute(other) != KeyForRoute(route)
    ensures var e := entries[KeyForRoute(route) := Bool(v)];
      (KeyForRoute(other) in e <==> KeyForRoute(other) in entries)
      && (KeyForRoute(other) in e ==> e[KeyForRoute(other)] == entries[KeyForRoute(other)])
  {
  }
}
