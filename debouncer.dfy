/** `Debouncer` (static/js/utils.js): one pending timer per key; scheduling a
    key again clears the timer it already had. The browser's timer queue is
    part of the state: `scheduled` holds the timers `setTimeout` created and
    `clearTimeout` has not removed, and `Fire` is the event loop running one
    of them. */
module Debounce {

  /** A live `setTimeout`: the key its callback runs for and the time it is due. */
  datatype Timer = Timer(key: string, due: int)

  class Debouncer {
    /** `this.timeouts`: key to the id of its pending timer. */
    var timeouts: map<string, nat>
    /** The timers still queued in the browser, by id. */
    var scheduled: map<nat, Timer>
    /** The id the next `setTimeout` returns. */
    var nextTimer: nat
    /** The keys whose callback has run, in order. */
    var invoked: seq<string>

    /** `timeouts` and the timer queue describe each other: every key's timer is
        queued for that key, and every queued timer is its key's current one. */
    ghost predicate Valid()
      reads this
    {
      && (forall k :: k in timeouts ==>
            timeouts[k] < nextTimer && timeouts[k] in scheduled && scheduled[timeouts[k]].key == k)
      && (forall t :: t in scheduled ==>
            t < nextTimer && scheduled[t].key in timeouts && timeouts[scheduled[t].key] == t)
    }

    /** `new Debouncer()`. */
    constructor ()
      ensures Valid()
      ensures timeouts == map[] && scheduled == map[] && nextTimer == 0 && invoked == []
    {
      timeouts := map[];
      scheduled := map[];
      nextTimer := 0;
      invoked := [];
    }

    /** `debounce(key, func, delay)`: clear the key's pending timer, if any, and
        queue a fresh one `delay` milliseconds from `now`; a caller that omits
        the delay passes 300. */
    method Debounce(key: string, now: int, delay: nat)
      requires Valid()
      modifies this
      ensures Valid()
      ensures timeouts == old(timeouts)[key := old(nextTimer)]
      ensures scheduled ==
        (if key in old(timeouts) then old(scheduled) - {old(timeouts)[key]} else old(scheduled))
          [old(nextTimer) := Timer(key, now + delay)]
      ensures nextTimer == old(nextTimer) + 1
      ensures invoked == old(invoked)
    {
      if key in timeouts {
        scheduled := scheduled - {timeouts[key]};
      }
      var id := nextTimer;
      nextTimer := nextTimer + 1;
      scheduled := scheduled[id := Timer(key, now + delay)];
      timeouts := timeouts[key := id];
    }

    /** `cancel(key)`: clear and forget the key's pending timer, if any. */
    method Cancel(key: string)
      requires Valid()
      modifies this
      ensures Valid()
      ensures timeouts == old(timeouts) - {key}
      ensures scheduled == (if key in old(timeouts) then old(scheduled) - {old(timeouts)[key]} else old(scheduled))
      ensures key !in timeouts && forall t :: t in scheduled ==> scheduled[t].key != key
      ensures nextTimer == old(nextTimer) && invoked == old(invoked)
    {
      if key in timeouts {
        scheduled := scheduled - {timeouts[key]};
        timeouts := timeouts - {key};
      }
    }

    /** The event loop runs timer `id` at time `now` if it is still queued and
        due: the callback calls `func()` and then deletes its key. */
    method Fire(id: nat, now: int) returns (ran: bool)
      requires Valid()
      modifies this
      ensures Valid()
      ensures ran <==> id in old(scheduled) && old(scheduled)[id].due <= now
      ensures ran ==> && invoked == old(invoked) + [old(scheduled)[id].key]
                      && timeouts == old(timeouts) - {old(scheduled)[id].key}
                      && scheduled == old(scheduled) - {id}
      ensures !ran ==> invoked == old(invoked) && timeouts == old(timeouts) && scheduled == old(scheduled)
      ensures nextTimer == old(nextTimer)
    {
      ran := id in scheduled && scheduled[id].due <= now;
      if ran {
        var key := scheduled[id].key;
        invoked := invoked + [key];
        timeouts := timeouts - {key};
        scheduled := scheduled - {id};
      }
    }
  }

  /** A burst of calls for one key runs the function at most once: after
      `debounce(key)` at `now` and again `gap` milliseconds later, running both
      timers at time `at` runs the key once if the second timer is due and not
      at all otherwise, and leaves no timer behind once it has run. */
  method BurstRunsOnce(key: string, now: int, gap: nat, delay: nat, at: int)
    returns (invoked: seq<string>, pending: nat)
    ensures invoked == if now + gap + delay <= at then [key] else []
    ensures pending == if now + gap + delay <= at then 0 else 1
  {
    var d := new Debouncer();
    d.Debounce(key, now, delay);
    assert d.scheduled == map[0 := Timer(key, now + delay)];
    assert map[0 := Timer(key, now + delay)] - {0} == map[];
    d.Debounce(key, now + gap, delay);
    assert d.scheduled == map[1 := Timer(key, now + gap + delay)];
    var first := d.Fire(0, at);
    var second := d.Fire(1, at);
    invoked, pending := d.invoked, |d.scheduled|;
  }

  /** A cancelled key never runs, whichever timer the event loop then runs. */
  method CancelledNeverRuns(key: string, now: int, delay: nat, id: nat, at: int)
    returns (ran: bool, invoked: seq<string>)
    ensures !ran && invoked == []
  {
    var d := new Debouncer();
    d.Debounce(key, now, delay);
    d.Cancel(key);
    ran := d.Fire(id, at);
    invoked := d.invoked;
  }
}
