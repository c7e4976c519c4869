/**
 The split of one engine-wide byte budget (`deriveMemoryBudgetLimits`) and the Worker's reservation
 ledger (`js/model.ts`).
 */
module MemoryBudget {
  import opened Common
  import opened Totals
  import opened RangeRequests

  const MIN_SPLIT_BUDGET_BYTES := 8 * 1024 * 1024
  const RANGE_CACHE_MAX_BYTES := 32 * 1024 * 1024

  /** A positive safe integer; `createEngine` and `hello` accept no other budget. */
  type Budget = bytes: int | 0 < bytes <= MAX_SAFE_INTEGER witness 1

  datatype Limits = Limits(
    memoryBudget: Budget, worker: nat, mainThreadSource: nat, mainThreadRetained: nat, sourceRangeCache: nat, mainThreadRangeCache: nat)

  /** The multiple of `unit` nearest to `n`; between two of them the even one. */
  function Nearest(n: nat, unit: nat): nat
    requires unit > 0
  {
    var q, r := n / unit, n % unit;
    unit * if 2 * r < unit || (2 * r == unit && q % 2 == 0) then q else q + 1
  }

  /** An integer below 2^55 as a double. */
  function AsDouble(n: nat): nat {
    if n <= 0x20_0000_0000_0000 then n else if n <= 0x40_0000_0000_0000 then Nearest(n, 2) else Nearest(n, 4)
  }

  /** Only the product can round; the quotients by powers of two are exact before `floor`. */
  function DeriveLimits(budget: Budget): Limits
  {
    var worker := Max(1, AsDouble(budget * 3) / 4);
    var source := Max(1, budget / 8);
    Limits(budget, worker, source, Max(1, budget - worker - source), Max(1, worker / 8), Min(RANGE_CACHE_MAX_BYTES, budget / 8))
  }

  /** What `hello` gives the ledger: below 8 MiB the whole budget. */
  function LedgerCapacity(budget: Budget): nat
  {
    var limits := DeriveLimits(budget);
    if budget < MIN_SPLIT_BUDGET_BYTES then budget else Max(1, limits.worker - limits.sourceRangeCache)
  }

  /** What each range source may cache. */
  function SourceCacheBudget(limits: Limits): nat {
    Max(1, limits.sourceRangeCache / MAX_SOURCES)
  }

  /** All the slices together. */
  function Slices(budget: Budget): nat
  {
    var limits := DeriveLimits(budget);
    LedgerCapacity(budget) + MAX_SOURCES * SourceCacheBudget(limits) + limits.mainThreadSource + limits.mainThreadRetained
  }

  /** The slices fit the budget exactly when it is large enough to be split, also where the product rounds. */
  lemma SlicesFitExactlyWhenSplit(budget: Budget)
    ensures Slices(budget) <= budget <==> budget >= MIN_SPLIT_BUDGET_BYTES
  {
    if budget >= MIN_SPLIT_BUDGET_BYTES {
      assert AsDouble(budget * 3) <= budget * 3 + 2;
      assert AsDouble(budget * 3) / 4 + budget / 8 < budget;
    }
  }

  /**
   Slice by slice, for a budget that is split: three quarters for the Worker, within one byte of rounding,
   of which an eighth is for source caches and the rest for the ledger; an eighth for staging; the
   rest for retained batches, and within that at most 32 MiB for the batch cache.
   */
  lemma SlicesAre(budget: Budget)
    requires budget >= MIN_SPLIT_BUDGET_BYTES
    ensures var l := DeriveLimits(budget);
            && l.memoryBudget == budget && budget * 3 - 6 <= 4 * l.worker <= budget * 3 + 2
            && (budget * 3 <= 0x20_0000_0000_0000 ==> l.worker == budget * 3 / 4)
            && 8 * l.mainThreadSource <= budget < 8 * l.mainThreadSource + 8
            && l.worker + l.mainThreadSource + l.mainThreadRetained == budget
            && 8 * l.sourceRangeCache <= l.worker < 8 * l.sourceRangeCache + 8
            && LedgerCapacity(budget) + l.sourceRangeCache == l.worker
            && MAX_SOURCES * SourceCacheBudget(l) <= l.sourceRangeCache <= MAX_SOURCES * SourceCacheBudget(l) + 1
            && l.mainThreadRangeCache == Min(32 * 1024 * 1024, l.mainThreadSource)
  {
    assert budget * 3 - 2 <= AsDouble(budget * 3) <= budget * 3 + 2;
  }

  // ---------------------------------------------------------------- the ledger

  /** `live` holds the reservations whose `release` has not been called. */
  datatype Ledger = Ledger(capacity: nat, used: int, live: map<nat, nat>)

  predicate LedgerOk(l: Ledger) {
    l.used == Total(l.live) <= l.capacity
  }

  function Reserved(l: Ledger, id: nat, bytes: int): Result<Ledger> {
    if bytes < 0 then Err(InvalidArgument)
    else if bytes > l.capacity - l.used then Err(ResourceLimit)
    else Ok(l.(used := l.used + bytes, live := l.live[id := bytes]))
  }

  /** The closure of a reservation; later calls do nothing. */
  function Released(l: Ledger, id: nat): Ledger {
    if id in l.live then l.(used := l.used - l.live[id], live := l.live - {id}) else l
  }

  lemma ReserveKeeps(l: Ledger, id: nat, bytes: int)
    requires LedgerOk(l) && id !in l.live
    ensures var r := Reserved(l, id, bytes);
            && (r.Ok? <==> 0 <= bytes && Total(l.live) + bytes <= l.capacity)
            && (r.Ok? ==> LedgerOk(r.value))
  {
    if 0 <= bytes {
      TotalWith(l.live, id, bytes);
    }
  }

  /** Releasing gives back exactly what was reserved, once, whatever happened in between. */
  lemma ReservationReleaseKeeps(l: Ledger, id: nat)
    requires LedgerOk(l)
    ensures var r := Released(l, id);
            && LedgerOk(r) && Released(r, id) == r && id !in r.live
            && r.used == l.used - if id in l.live then l.live[id] else 0
  {
    if id in l.live {
      TotalWithout(l.live, id);
    }
  }

  /** Two releases may come in either order. */
  lemma ReleasesCommute(l: Ledger, i: nat, j: nat)
    ensures Released(Released(l, i), j) == Released(Released(l, j), i)
  {
    if i != j && i in l.live && j in l.live {
      assert (l.live - {i}) - {j} == (l.live - {j}) - {i};
    }
  }

  class MemoryReservationLedger {
    const capacityBytes: nat
    var usedBytes: int
    var unreleased: map<nat, nat>

    ghost function View(): Ledger
      reads this
    {
      Ledger(capacityBytes, usedBytes, unreleased)
    }

    constructor (capacity: nat)
      requires capacity > 0
      ensures View() == Ledger(capacity, 0, map[]) && LedgerOk(View())
    {
      capacityBytes, usedBytes, unreleased := capacity, 0, map[];
    }

    /** `id` names the closure that the caller gets. */
    method Reserve(id: nat, bytes: int) returns (r: Result<()>)
      requires LedgerOk(View()) && id !in unreleased
      modifies this
      ensures LedgerOk(View())
      ensures r.Ok? <==> 0 <= bytes && old(usedBytes) + bytes <= capacityBytes
      ensures r.Ok? ==> usedBytes == old(usedBytes) + bytes && unreleased == old(unreleased)[id := bytes]
      ensures r.Err? ==> View() == old(View()) && r.error == if bytes < 0 then InvalidArgument else ResourceLimit
    {
      ReserveKeeps(View(), id, bytes);
      if bytes < 0 {
        return Err(InvalidArgument);
      }
      var available := capacityBytes - usedBytes;
      if bytes > available {
        return Err(ResourceLimit);
      }
      usedBytes := usedBytes + bytes;
      unreleased := unreleased[id := bytes];
      return Ok(());
    }

    method Release(id: nat)
      requires LedgerOk(View())
      modifies this
      ensures LedgerOk(View()) && View() == Released(old(View()), id)
    {
      ReservationReleaseKeeps(View(), id);
      if id in unreleased {
        usedBytes := usedBytes - unreleased[id];
        unreleased := unreleased - {id};
      }
    }
  }
}
