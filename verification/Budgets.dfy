/** Byte budgets of the tiers (src/allocator.cpp) and the host allocator's
    accounting of live buffers (src/backends/host_backend.cpp). */
module Budgets {
  import opened Collections
  import opened Pages

  /** A budget as a value: the figures `TierBudget` guards with its mutex. */
  datatype Budget = Budget(limit: nat, reserve: nat, used: nat, highWater: nat)

  predicate BudgetOk(b: Budget) {
    b.reserve <= b.limit && b.used <= b.limit - b.reserve && b.used <= b.highWater
  }

  function Usable(b: Budget): nat {
    if b.reserve <= b.limit then b.limit - b.reserve else 0
  }

  /** The source's test, which never forms `used + bytes` and so cannot wrap. */
  predicate Fits(b: Budget, bytes: nat) {
    bytes <= Usable(b) && b.used <= Usable(b) - bytes
  }

  function Charge(b: Budget, bytes: nat): Budget {
    b.(used := b.used + bytes,
       highWater := if b.highWater < b.used + bytes then b.used + bytes else b.highWater)
  }

  function Refund(b: Budget, bytes: nat): Budget {
    b.(used := if bytes <= b.used then b.used - bytes else b.used)
  }

  function Headroom(b: Budget): nat {
    if b.used >= Usable(b) then 0 else Usable(b) - b.used
  }

  /** `floor(limit * margin)`: the bytes held back from use. */
  function ReserveOf(limit: nat, margin: real): (r: nat)
    requires 0.0 <= margin < 1.0
    ensures r <= limit && r as real <= limit as real * margin < r as real + 1.0
  {
    assert 0.0 <= limit as real * margin <= limit as real;
    (limit as real * margin).Floor
  }

  /** `TierBudget`. */
  class TierBudget {
    var limit: nat
    var margin: real
    var used: nat
    var highWater: nat

    ghost predicate Valid() reads this {
      0.0 <= margin < 1.0 && BudgetOk(Value())
    }

    ghost function Value(): Budget reads this {
      Budget(limit, if 0.0 <= margin < 1.0 then ReserveOf(limit, margin) else 0, used, highWater)
    }

    constructor ()
      ensures Valid() && Value() == Budget(0, 0, 0, 0)
    {
      limit, margin, used, highWater := 0, 0.0, 0, 0;
    }

    method SetLimit(newLimit: nat, newMargin: real) returns (r: Outcome<()>)
      requires Valid()
      modifies this`limit, this`margin
      ensures Valid()
      ensures r == (if !(0.0 <= newMargin < 1.0) then Err(InvalidArgument)
                    else if used > newLimit - ReserveOf(newLimit, newMargin) then Err(BudgetError)
                    else Ok(()))
      ensures r.Ok? ==> limit == newLimit && margin == newMargin
      ensures r.Err? ==> Value() == old(Value())
    {
      if newMargin < 0.0 || newMargin >= 1.0 { return Err(InvalidArgument); }
      var reserve := ReserveOf(newLimit, newMargin);
      var usable := newLimit - reserve;
      if used > usable { return Err(BudgetError); }
      limit := newLimit;
      margin := newMargin;
      return Ok(());
    }

    method TryReserve(bytes: nat) returns (ok: bool)
      requires Valid()
      modifies this`used, this`highWater
      ensures Valid()
      ensures ok <==> bytes <= old(Headroom(Value()))
      ensures ok <==> old(Fits(Value(), bytes))
      ensures Value() == if ok then Charge(old(Value()), bytes) else old(Value())
      ensures ok ==> used == old(used) + bytes && highWater == if old(highWater) < used then used else old(highWater)
    {
      var usable := limit - ReserveOf(limit, margin);
      if bytes > usable || used > usable - bytes { return false; }
      used := used + bytes;
      highWater := if highWater < used then used else highWater;
      return true;
    }

    method Release(bytes: nat) returns (r: Outcome<()>)
      requires Valid()
      modifies this`used
      ensures Valid()
      ensures r == if bytes > old(used) then Err(InvariantError) else Ok(())
      ensures Value() == Refund(old(Value()), bytes)
      ensures r.Ok? ==> used == old(used) - bytes
    {
      if bytes > used { return Err(InvariantError); }
      used := used - bytes;
      return Ok(());
    }
  }

  // ------------------------------------------------------------ host tier

  /** A live host buffer; `device` records that it came from the device
      backend's pinned allocator. */
  datatype Allocation = Allocation(bytes: nat, device: bool)

  ghost function LiveBytes(live: map<Handle, Allocation>): nat {
    Total(map h | h in live :: live[h].bytes)
  }

  lemma LiveBytesChange(live: map<Handle, Allocation>, live': map<Handle, Allocation>, h: Handle)
    requires live - {h} == live' - {h}
    ensures LiveBytes(live') + (if h in live then live[h].bytes else 0)
         == LiveBytes(live) + (if h in live' then live'[h].bytes else 0)
  {
    var m := map k | k in live :: live[k].bytes;
    var m' := map k | k in live' :: live'[k].bytes;
    forall k | k != h ensures (k in m <==> k in m') && (k in m ==> m[k] == m'[k]) {
      assert k in live <==> k in live - {h};
      assert k in live' <==> k in live' - {h};
      if k in live { assert live[k] == (live - {h})[k] == (live' - {h})[k] == live'[k]; }
    }
    TotalChange(m, m', h);
  }

  /** The tier of a live buffer. */
  function TierOf(live: map<Handle, Allocation>, h: Handle): Tier
    requires h in live
  {
    if live[h].device then HostPinned else HostPageable
  }

  /** `usable_limit`, over the reals. */
  function UsableLimit(limit: nat, margin: real): (r: nat)
    ensures r <= limit && (margin <= 0.0 ==> r == limit) && (margin >= 1.0 ==> r == 0)
    ensures 0.0 < margin < 1.0 ==> r as real <= limit as real * (1.0 - margin) < r as real + 1.0
  {
    if margin <= 0.0 then limit
    else if margin >= 1.0 then 0
    else
      assert 0.0 <= limit as real * (1.0 - margin) <= limit as real;
      (limit as real * (1.0 - margin)).Floor
  }

  /** `HostBackend`. What the raw allocator does is a parameter: `raw` is the
      pointer it hands out, `None` when it fails. */
  class HostBackend {
    var limit: nat
    var margin: real
    var used: nat
    var highWater: nat
    var pinnedAvailable: bool
    var live: map<Handle, Allocation>

    ghost predicate Valid() reads this {
      used == LiveBytes(live) && used <= UsableLimit(limit, margin) && used <= highWater
    }

    constructor ()
      ensures Valid() && live == map[] && used == 0 && limit == 0 && !pinnedAvailable
    {
      limit, margin, used, highWater, pinnedAvailable, live := 0, 0.0, 0, 0, false, map[];
    }

    method SetBudget(newLimit: nat, newMargin: real) returns (r: Outcome<()>)
      requires Valid()
      modifies this`limit, this`margin
      ensures Valid()
      ensures r == (if newMargin < 0.0 || newMargin > 1.0 then Err(InvalidArgument)
                    else if LiveBytes(live) > UsableLimit(newLimit, newMargin) then Err(StateError)
                    else Ok(()))
      ensures r.Ok? ==> limit == newLimit && margin == newMargin
      ensures r.Err? ==> limit == old(limit) && margin == old(margin)
    {
      if newMargin < 0.0 || newMargin > 1.0 { return Err(InvalidArgument); }
      if used > UsableLimit(newLimit, newMargin) { return Err(StateError); }
      limit := newLimit;
      margin := newMargin;
      return Ok(());
    }

    /** `Ok(None)` is the source's null pointer: the budget has no room. */
    method Allocate(bytes: nat, pageable: bool, raw: Option<Handle>) returns (r: Outcome<Option<Handle>>)
      requires Valid()
      modifies this`used, this`highWater, this`live
      ensures Valid()
      ensures bytes == 0 ==> r == Err(InvalidArgument)
      ensures r.Err? && bytes > 0 ==>
        r.code == if !pageable && !pinnedAvailable then Unsupported else if raw.None? then Internal else StateError
      ensures r.Ok? && r.value.Some? ==>
        used == old(used) + bytes && highWater == if old(highWater) < used then used else old(highWater)
      ensures bytes > 0 ==> (r == Ok(None) <==> old(LiveBytes(live)) + bytes > UsableLimit(limit, margin))
      ensures r.Ok? && r.value.Some? ==>
        && raw == r.value && r.value.value !in old(live)
        && live == old(live)[r.value.value := Allocation(bytes, !pageable)]
        && TierOf(live, r.value.value) == (if pageable then HostPageable else HostPinned)
        && (pageable || pinnedAvailable)
      ensures !(r.Ok? && r.value.Some?) ==> live == old(live) && used == old(used)
    {
      if bytes == 0 { return Err(InvalidArgument); }
      var usable := UsableLimit(limit, margin);
      if bytes > usable || used > usable - bytes { return Ok(None); }
      if !pageable && !pinnedAvailable { return Err(Unsupported); }
      if raw.None? { return Err(Internal); }
      var h := raw.value;
      if h in live { return Err(StateError); }
      ghost var before := live;
      live := live[h := Allocation(bytes, !pageable)];
      assert before - {h} == live - {h};
      LiveBytesChange(before, live, h);
      used := used + bytes;
      highWater := if highWater < used then used else highWater;
      return Ok(Some(h));
    }

    /** A successful `Free` is the exact inverse of the `Allocate` that made
        the buffer: the live map loses that buffer and nothing else, and the
        usage falls by its recorded size. */
    method Free(ptr: Option<Handle>, bytes: nat) returns (r: Outcome<()>)
      requires Valid()
      modifies this`used, this`live
      ensures Valid()
      ensures r == (if ptr.None? then Ok(())
                    else if ptr.value !in old(live) then Err(StateError)
                    else if old(live)[ptr.value].bytes != bytes then Err(InvalidArgument)
                    else Ok(()))
      ensures r.Ok? && ptr.Some? ==> live == old(live) - {ptr.value} && used + bytes == old(used)
      ensures r.Err? || ptr.None? ==> live == old(live) && used == old(used)
    {
      if ptr.None? { return Ok(()); }
      var h := ptr.value;
      if h !in live { return Err(StateError); }
      if live[h].bytes != bytes { return Err(InvalidArgument); }
      ghost var before := live;
      live := live - {h};
      assert before - {h} == live - {h};
      LiveBytesChange(before, live, h);
      used := used - bytes;
      return Ok(());
    }

    /** The tier `Allocate` promised for the buffer. */
    method AllocationTier(ptr: Option<Handle>) returns (r: Outcome<Tier>)
      ensures r.Ok? <==> ptr.Some? && ptr.value in live
      ensures r.Ok? ==> r.value == TierOf(live, ptr.value)
      ensures r.Err? ==> r.code == StateError
    {
      if ptr.None? || ptr.value !in live { return Err(StateError); }
      return Ok(if live[ptr.value].device then HostPinned else HostPageable);
    }
  }

  /** How the runtime gets a buffer and the tier it records for the page: one
      call, then the other. The tier query cannot fail, and its answer is the
      kind of memory that was asked for. */
  method BufferWithTier(host: HostBackend, bytes: nat, pageable: bool, raw: Option<Handle>)
    returns (r: Outcome<Option<(Handle, Tier)>>)
    requires host.Valid()
    modifies host
    ensures host.Valid()
    ensures r.Ok? && r.value.Some? ==>
      && r.value.value.0 !in old(host.live) && r.value.value.0 in host.live
      && r.value.value.1 == (if pageable then HostPageable else HostPinned)
    ensures !(r.Ok? && r.value.Some?) ==> host.live == old(host.live)
  {
    var got := host.Allocate(bytes, pageable, raw);
    if got.Err? { return Err(got.code); }
    if got.value.None? { return Ok(None); }
    var tier := host.AllocationTier(got.value);
    assert tier.Ok?;
    return Ok(Some((got.value.value, tier.value)));
  }
}
