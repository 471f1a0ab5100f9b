/**
  `DataBus` (declared identically in `src/components/Auth.tsx` and
  `src/components/NonAuth.tsx`): a list of listeners that `notify` calls in
  order. Listeners are compared by identity, so here a listener is its
  identity, a number; `delivered` records each call a listener receives.
*/
module DataBuses {
  import opened Sequences

  type Listener = nat

  /** One call of a listener, with the event name and the object passed along. */
  datatype Delivery<T> = Delivery(listener: Listener, event: string, obj: T)

  /** `listeners.filter(v => v !== listener)`. */
  function Without(listeners: seq<Listener>, listener: Listener): (r: seq<Listener>)
    ensures listener !in r
    ensures forall l :: l != listener ==> (l in r <==> l in listeners)
    ensures forall l :: l != listener ==> multiset(r)[l] == multiset(listeners)[l]
    ensures |r| == |listeners| - multiset(listeners)[listener]
  {
    if listeners == [] then []
    else
      assert listeners == [listeners[0]] + listeners[1..];
      if listeners[0] == listener then Without(listeners[1..], listener)
      else [listeners[0]] + Without(listeners[1..], listener)
  }

  /** Filtering keeps the other listeners in their order: the result is a subsequence of the list. */
  lemma {:induction false} WithoutIsSubsequence(listeners: seq<Listener>, listener: Listener)
    ensures IsSubsequence(Without(listeners, listener), listeners)
  {
    if listeners != [] {
      WithoutIsSubsequence(listeners[1..], listener);
    }
  }

  /** Filtering works entry by entry: the filter of a concatenation is the concatenation of the
      filters, so every other entry, a repeated one included, stays where it was. */
  lemma {:induction false} WithoutAppend(a: seq<Listener>, b: seq<Listener>, listener: Listener)
    ensures Without(a + b, listener) == Without(a, listener) + Without(b, listener)
  {
    if a == [] {
      assert a + b == b;
    } else {
      assert (a + b)[0] == a[0];
      assert (a + b)[1..] == a[1..] + b;
      WithoutAppend(a[1..], b, listener);
    }
  }

  /** Removing a listener that is not registered leaves the list as it was. */
  lemma {:induction false} WithoutAbsent(listeners: seq<Listener>, listener: Listener)
    requires listener !in listeners
    ensures Without(listeners, listener) == listeners
  {
    if listeners != [] {
      WithoutAbsent(listeners[1..], listener);
    }
  }

  /** Removing is idempotent. */
  lemma WithoutTwice(listeners: seq<Listener>, listener: Listener)
    ensures Without(Without(listeners, listener), listener) == Without(listeners, listener)
  {
    WithoutAbsent(Without(listeners, listener), listener);
  }

  /** What one `notify` delivers: one call per registered entry, in list order, all with the same event and object. */
  function Deliveries<T>(listeners: seq<Listener>, event: string, obj: T): (r: seq<Delivery<T>>)
    ensures |r| == |listeners|
    ensures forall k :: 0 <= k < |r| ==> r[k] == Delivery(listeners[k], event, obj)
  {
    seq(|listeners|, k requires 0 <= k < |listeners| => Delivery(listeners[k], event, obj))
  }

  class DataBus<T> {
    var listeners: seq<Listener>
    var delivered: seq<Delivery<T>>

    constructor()
      ensures listeners == [] && delivered == []
    {
      listeners := [];
      delivered := [];
    }

    /** `addListener`: appended at the end; a listener added twice is called twice. */
    method AddListener(listener: Listener)
      modifies this
      ensures listeners == old(listeners) + [listener]
      ensures delivered == old(delivered)
    {
      listeners := listeners + [listener];
    }

    /** `removeListener`: every entry of that listener goes, the rest stay in order. */
    method RemoveListener(listener: Listener)
      modifies this
      ensures listeners == Without(old(listeners), listener)
      ensures delivered == old(delivered)
    {
      listeners := Without(listeners, listener);
    }

    /** `notify`: calls each registered entry once, in order, with the same event and object. */
    method Notify(event: string, obj: T)
      modifies this
      ensures delivered == old(delivered) + Deliveries(listeners, event, obj)
      ensures listeners == old(listeners)
    {
      var i := 0;
      while i < |listeners|
        invariant 0 <= i <= |listeners|
        invariant listeners == old(listeners)
        invariant delivered == old(delivered) + Deliveries(listeners[..i], event, obj)
      {
        delivered := delivered + [Delivery(listeners[i], event, obj)];
        assert Deliveries(listeners[..i + 1], event, obj) == Deliveries(listeners[..i], event, obj) + [Delivery(listeners[i], event, obj)];
        i := i + 1;
      }
      assert listeners[..i] == listeners;
    }
  }
}
