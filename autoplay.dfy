/** The auto-play timer of a slider: the interval handle it stores and the intervals the
    browser keeps running for it. Handles are the positive numbers `setInterval` returns,
    so a stored handle is always truthy. */
module AutoPlay {
  import opened Wrappers

  /** Milliseconds between two automatic "next" steps. Time itself is not modelled: a
      tick is an explicit call. */
  const AutoPlayDelay: nat := 4000

  datatype Timers = Timers(
    handle: Option<nat>,  // autoPlayInterval (null when None)
    live: set<nat>,       // intervals created by this slider that are still scheduled
    nextId: nat)          // the handle the next setInterval returns

  /** The stored handle is the only live interval, and every handle issued so far is below
      `nextId`. */
  predicate TimersOk(t: Timers)
  {
    0 < t.nextId &&
    (t.handle.None? ==> t.live == {}) &&
    (t.handle.Some? ==> 0 < t.handle.value < t.nextId && t.live == {t.handle.value})
  }

  const NoTimers := Timers(None, {}, 1)

  /** `stopAutoPlay()`: clears the interval, if one is stored, and forgets its handle. */
  function Stop(t: Timers): (r: Timers)
    requires TimersOk(t)
    ensures TimersOk(r) && r.handle == None && r.live == {} && r.nextId == t.nextId
  {
    if t.handle.Some? then Timers(None, t.live - {t.handle.value}, t.nextId) else t
  }

  /** `startAutoPlay()`: stops the stored interval first, then schedules a fresh one. */
  function Start(t: Timers): (r: Timers)
    requires TimersOk(t)
    ensures TimersOk(r) && r.handle == Some(t.nextId) && r.live == {t.nextId}
    ensures forall h :: h in t.live ==> h !in r.live
  {
    var u := Stop(t);
    Timers(Some(u.nextId), u.live + {u.nextId}, u.nextId + 1)
  }

  /** The handle the next `setInterval` returns is not one already live, so a fresh
      interval never collides with the one it replaces. */
  lemma FreshHandle(t: Timers)
    requires TimersOk(t)
    ensures t.nextId !in t.live
    ensures t.handle.Some? ==> Start(t).handle != t.handle
  {
  }

  /** At most one interval is ever live. */
  lemma AtMostOneLive(t: Timers)
    requires TimersOk(t)
    ensures |t.live| <= 1
  {
  }

  /** Stopping twice is stopping once; starting twice leaves one live interval. */
  lemma StopIdempotent(t: Timers)
    requires TimersOk(t)
    ensures Stop(Stop(t)) == Stop(t)
    ensures |Start(Start(t)).live| == 1
  {
  }
}
