/**
  The parts of the browser window the authentication service uses:
  `sessionStorage` (a string-to-string map), the timer table behind
  `setTimeout`/`setInterval`, the events it dispatches and the activity
  listeners added to it. Time does not pass here: whoever fires a timer passes
  the current time along.
*/
module Browser {
  import opened Wrappers

  /** What a timer runs when it fires. */
  datatype TimerCallback = CallRefreshToken | CallCheckSessionTimeout

  /** A pending `setTimeout` (`repeat` false) or a running `setInterval` (`repeat` true). */
  datatype Timer = Timer(repeat: bool, delay: int, callback: TimerCallback)

  class Window {
    var storage: map<string, string>
    var timers: map<int, Timer>
    var nextHandle: int
    var dispatched: seq<string>
    /** Names of the events that have had an activity listener added, once per addition. */
    var listeners: seq<string>

    /** Timer handles are positive and each is handed out once. */
    predicate Valid()
      reads this
    {
      nextHandle >= 1 && forall h :: h in timers ==> 1 <= h < nextHandle
    }

    constructor()
      ensures Valid()
      ensures storage == map[] && timers == map[] && dispatched == [] && listeners == []
    {
      storage := map[];
      timers := map[];
      nextHandle := 1;
      dispatched := [];
      listeners := [];
    }

    /** `sessionStorage.getItem`. */
    function GetItem(key: string): (r: Option<string>)
      reads this
      ensures r.Some? <==> key in storage
      ensures r.Some? ==> r.value == storage[key]
    {
      if key in storage then Some(storage[key]) else None
    }

    method SetItem(key: string, value: string)
      modifies this
      ensures storage == old(storage)[key := value]
      ensures timers == old(timers) && nextHandle == old(nextHandle)
      ensures dispatched == old(dispatched) && listeners == old(listeners)
    {
      storage := storage[key := value];
    }

    method RemoveItem(key: string)
      modifies this
      ensures storage == old(storage) - {key}
      ensures timers == old(timers) && nextHandle == old(nextHandle)
      ensures dispatched == old(dispatched) && listeners == old(listeners)
    {
      storage := storage - {key};
    }

    /** `sessionStorage.clear`. */
    method Clear()
      modifies this
      ensures storage == map[]
      ensures timers == old(timers) && nextHandle == old(nextHandle)
      ensures dispatched == old(dispatched) && listeners == old(listeners)
    {
      storage := map[];
    }

    /** `setTimeout`/`setInterval`: a fresh positive handle for a new timer. Handles are
        never handed out twice. */
    method AddTimer(t: Timer) returns (handle: int)
      requires Valid()
      modifies this
      ensures Valid()
      ensures handle >= 1 && handle !in old(timers)
      ensures old(nextHandle) <= handle < nextHandle
      ensures timers == old(timers)[handle := t]
      ensures storage == old(storage) && dispatched == old(dispatched) && listeners == old(listeners)
    {
      handle := nextHandle;
      timers := timers[handle := t];
      nextHandle := nextHandle + 1;
    }

    /** `clearTimeout`/`clearInterval`: the timer with that handle, if any, is gone. */
    method ClearTimer(handle: int)
      requires Valid()
      modifies this
      ensures Valid()
      ensures timers == old(timers) - {handle}
      ensures nextHandle == old(nextHandle)
      ensures storage == old(storage) && dispatched == old(dispatched) && listeners == old(listeners)
    {
      timers := timers - {handle};
    }

    /** `window.dispatchEvent(new Event(name))`. */
    method Dispatch(name: string)
      modifies this
      ensures dispatched == old(dispatched) + [name]
      ensures storage == old(storage) && timers == old(timers) && nextHandle == old(nextHandle)
      ensures listeners == old(listeners)
    {
      dispatched := dispatched + [name];
    }

    /** `window.addEventListener(name, …)` for an activity listener. */
    method AddListener(name: string)
      modifies this
      ensures listeners == old(listeners) + [name]
      ensures storage == old(storage) && timers == old(timers) && nextHandle == old(nextHandle)
      ensures dispatched == old(dispatched)
    {
      listeners := listeners + [name];
    }
  }
}
