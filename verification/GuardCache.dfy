/** What the guard decides, and the per-process cache it decides from. */
module GuardCache {
  import opened Wrappers
  import opened LockRows

  /** `GATING_LOCK_STATES`: finalize is deliberately not among them. */
  predicate Gating(s: LockState) {
    s.Apply? || s.Rollback? || s.Release? || s.Failed? || s.Dying?
  }

  datatype BlockMode = All | WritesOnly

  /** The middleware's verdict; `seen` is what the cache answered, `None` a failed read. */
  predicate Admits(mode: BlockMode, readCommand: bool, seen: Option<LockState>) {
    (mode.WritesOnly? && readCommand) || (seen.Some? && !Gating(seen.value))
  }

  /** A missing lock row counts as free. */
  function LockValue(lock: Option<LockRow>): LockState {
    if lock.None? then Free else lock.value.state
  }

  /** The guard fails closed, writes are decided alike in both modes, writes-only lets every read through,
      and a project without a lock row is not held up. */
  lemma GuardLaw(mode: BlockMode, readCommand: bool, seen: Option<LockState>)
    ensures Admits(WritesOnly, true, seen)
    ensures Admits(mode, readCommand, None) <==> mode.WritesOnly? && readCommand
    ensures Admits(WritesOnly, false, seen) == Admits(All, false, seen) == Admits(All, true, seen)
    ensures Admits(All, readCommand, seen) <==>
              seen == Some(Unset) || seen == Some(Free) || seen == Some(LockState.Finalize)
    ensures Admits(mode, readCommand, Some(LockValue(None)))
  {
    if seen.Some? { assert Gating(seen.value) <==> seen.value !in {Unset, Free, LockState.Finalize}; }
  }

  datatype Entry = Entry(value: LockState, cachedAt: int)

  /** When a fetch started and when it read the row. */
  datatype Origin = Origin(startedAt: int, readAt: int)

  datatype Answer = FromCache(value: LockState) | Joined(fetch: nat) | Started(fetch: nat)

  /** The closure state of one cache. A fetch is known by its number; it settles in a later event. */
  class LockStateCache {
    const cacheTtlMs: int
    var cached: Option<Entry>
    var pending: Option<nat>
    var fetches: nat
    /** The true lock state at every instant. */
    ghost const truth: int -> LockState
    ghost var origin: Origin
    ghost var inFlight: map<nat, int>
    ghost var wasReset: bool

    ghost predicate Valid()
      reads this
    {
      && (cached.Some? ==> origin.startedAt <= origin.readAt <= cached.value.cachedAt && cached.value.value == truth(origin.readAt))
      && (pending.Some? ==> pending.value in inFlight)
      && (forall f :: f in inFlight ==> f < fetches)
      && (!wasReset ==> inFlight.Keys == if pending.Some? then {pending.value} else {})
    }

    constructor (ttl: int, ghost truth: int -> LockState)
      ensures Valid() && cacheTtlMs == ttl && this.truth == truth && cached == None && pending == None
      ensures inFlight == map[] && !wasReset
    {
      cacheTtlMs, cached, pending, fetches := ttl, None, None, 0;
      this.truth, origin, inFlight, wasReset := truth, Origin(0, 0), map[], false;
    }

    /** `get`. A value out of the cache was the true state at an instant less than the TTL plus the
        duration of its fetch ago. A caller that finds a fetch under way joins it. */
    method Get(now: int) returns (r: Answer)
      requires Valid()
      modifies this`pending, this`fetches, this`inFlight
      ensures Valid()
      ensures r.FromCache? <==> cached.Some? && now - cached.value.cachedAt < cacheTtlMs && now - cached.value.cachedAt <= 2 * cacheTtlMs
      ensures r.FromCache? ==>
                && unchanged(this)
                && r.value == truth(origin.readAt)
                && now - origin.readAt < cacheTtlMs + (cached.value.cachedAt - origin.startedAt)
      ensures r.Joined? ==> unchanged(this) && pending == Some(r.fetch)
      ensures r.Started? ==>
                && old(pending) == None && pending == Some(r.fetch)
                && r.fetch !in old(inFlight) && inFlight == old(inFlight)[r.fetch := now]
      ensures r.Joined? <==> !r.FromCache? && old(pending).Some?
      ensures !wasReset ==> |inFlight| <= 1
    {
      if cached.Some? && now - cached.value.cachedAt < cacheTtlMs && now - cached.value.cachedAt <= cacheTtlMs * 2 {
        return FromCache(cached.value.value);
      }
      if pending.Some? {
        return Joined(pending.value);
      }
      r := Started(fetches);
      pending := Some(fetches);
      inFlight := inFlight[fetches := now];
      fetches := fetches + 1;
    }

    /** Fetch `f` read the row at `readAt` and settles at `now`; every caller waiting for it gets the
        value. */
    method Resolve(f: nat, now: int, ghost readAt: int, value: LockState) returns (r: LockState)
      requires Valid() && f in inFlight && inFlight[f] <= readAt <= now && value == truth(readAt)
      modifies this`cached, this`pending, this`origin, this`inFlight
      ensures Valid()
      ensures r == truth(readAt) && cached == Some(Entry(r, now)) && origin == Origin(old(inFlight)[f], readAt)
      ensures pending == None && inFlight == old(inFlight) - {f}
    {
      cached := Some(Entry(value, now));
      origin := Origin(inFlight[f], readAt);
      inFlight := inFlight - {f};
      pending := None;
      r := value;
    }

    /** Fetch `f` fails: its callers get no value, the cache is as it was, and nothing is pending. */
    method Reject(f: nat)
      requires Valid() && f in inFlight
      modifies this`pending, this`inFlight
      ensures Valid() && pending == None && inFlight == old(inFlight) - {f}
    {
      inFlight := inFlight - {f};
      pending := None;
    }

    /** `reset` forgets the pending fetch but cannot call it back. */
    method Reset()
      requires Valid()
      modifies this`cached, this`pending, this`wasReset
      ensures Valid() && cached == None && pending == None && wasReset
    {
      cached := None;
      pending := None;
      wasReset := true;
    }
  }

  // ----- One guarded call ------------------------------------------------------------------------------

  datatype Verdict = Forwarded | Rejected | Waiting(fetch: nat)

  /** The middleware up to the point where it has to wait for a fetch. A call that is let through on a
      cached value was let through on a true one. */
  method BeginCall(c: LockStateCache, mode: BlockMode, bypass: bool, readCommand: bool, now: int) returns (v: Verdict)
    requires c.Valid()
    modifies c`pending, c`fetches, c`inFlight
    ensures c.Valid()
    ensures bypass || (mode.WritesOnly? && readCommand) ==> v.Forwarded? && unchanged(c)
    ensures !bypass && !(mode.WritesOnly? && readCommand) ==>
              && (v.Waiting? <==> c.cached.None? || now - c.cached.value.cachedAt >= c.cacheTtlMs
                                  || now - c.cached.value.cachedAt > 2 * c.cacheTtlMs)
              && (v.Waiting? ==> c.pending == Some(v.fetch) && v.fetch in c.inFlight)
              && (!v.Waiting? ==>
                    && unchanged(c)
                    && now - c.origin.readAt < c.cacheTtlMs + (c.cached.value.cachedAt - c.origin.startedAt)
                    && (v.Forwarded? <==> Admits(mode, readCommand, Some(c.truth(c.origin.readAt)))))
  {
    if bypass { return Forwarded; }
    if mode.WritesOnly? && readCommand { return Forwarded; }
    var answer := c.Get(now);
    match answer
    case FromCache(value) => v := if Gating(value) then Rejected else Forwarded;
    case Joined(f) => v := Waiting(f);
    case Started(f) => v := Waiting(f);
  }

  /** The fetch the call waits for resolves with a value, or with none when it failed. */
  method EndCall(fetched: Option<LockState>) returns (v: Verdict)
    ensures v.Forwarded? || v.Rejected?
    ensures fetched.None? ==> v.Rejected?
    ensures fetched.Some? ==> (v.Forwarded? <==> fetched.value in {Unset, Free, LockState.Finalize})
  {
    if fetched.None? { return Rejected; }
    v := if Gating(fetched.value) then Rejected else Forwarded;
  }

  /** After a failed fetch the next caller reads again: nothing is served stale, nobody is blocked. */
  method RetryAfterFailure(c: LockStateCache, f: nat, now: int) returns (r: Answer)
    requires c.Valid() && f in c.inFlight
    requires c.cached.None? || now - c.cached.value.cachedAt >= c.cacheTtlMs
    modifies c
    ensures c.Valid() && r.Started?
  {
    c.Reject(f);
    r := c.Get(now);
  }

  /** With `reset` the bound of one fetch is lost. */
  method ResetAllowsTwo(ttl: int, truth: int -> LockState) returns (c: LockStateCache)
    ensures fresh(c) && c.Valid() && |c.inFlight| == 2
  {
    c := new LockStateCache(ttl, truth);
    var first := c.Get(0);
    c.Reset();
    var second := c.Get(1);
    assert c.inFlight.Keys == {first.fetch, second.fetch};
  }
}
