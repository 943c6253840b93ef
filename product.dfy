/**
 * The cost totals of `Product`: the total over its allocations with a cache in front, the
 * monthly total with every price normalised to a month, the yearly total, and one
 * allocation's cost with default parameters.
 */
module Products {
  import opened Common
  import opened Numerics
  import opened CostAllocations

  /** A product: its id, its allocations with their cost items, and its `expected_users` meta field. */
  datatype Product = Product(id: int, allocations: seq<Allocation>, expectedUsers: Option<real>)

  /** The sum of the allocations' costs, the total `calculateTotalCost` computes on a cache miss. */
  function Total(allocations: seq<Allocation>, parameters: Parameters): real
  {
    if allocations == [] then 0.0
    else Total(allocations[..|allocations| - 1], parameters) + CalculateCost(allocations[|allocations| - 1], parameters)
  }

  /** Totals add up over concatenation. */
  lemma {:induction false} TotalAppend(s: seq<Allocation>, t: seq<Allocation>, parameters: Parameters)
    ensures Total(s + t, parameters) == Total(s, parameters) + Total(t, parameters)
  {
    if t == [] {
      assert s + t == s;
    } else {
      assert (s + t)[..|s + t| - 1] == s + t[..|t| - 1];
      TotalAppend(s, t[..|t| - 1], parameters);
    }
  }

  /** An allocation whose cost item is missing adds nothing, wherever it sits. */
  lemma MissingItemAddsNothing(s: seq<Allocation>, a: Allocation, t: seq<Allocation>, parameters: Parameters)
    requires a.costItem.None?
    ensures Total(s + [a] + t, parameters) == Total(s + t, parameters)
  {
    TotalAppend(s + [a], t, parameters);
    TotalAppend(s, [a], parameters);
    TotalAppend(s, t, parameters);
    assert Total([a], parameters) == Total([], parameters) + CalculateCost(a, parameters);
  }

  /** The `foreach` of `calculateTotalCost`: allocations without a cost item are skipped. */
  method SumAllocationCosts(allocations: seq<Allocation>, parameters: Parameters) returns (total: real)
    ensures total == Total(allocations, parameters)
  {
    total := 0.0;
    var i := 0;
    while i < |allocations|
      invariant 0 <= i <= |allocations|
      invariant total == Total(allocations[..i], parameters)
    {
      assert allocations[..i + 1][..i] == allocations[..i];
      var allocation := allocations[i];
      if allocation.costItem.Some? {
        var itemCost := allocation.costItem.value.price;
        total := total + CostOfPrice(itemCost, allocation.allocationType, allocation.allocationValue, parameters);
      }
      i := i + 1;
    }
    assert allocations[..|allocations|] == allocations;
  }

  /** The calculation cache: stored totals by product id and parameters. */
  class ProductCache {
    var entries: map<(int, Parameters), real>

    constructor ()
      ensures entries == map[]
    {
      entries := map[];
    }

    /** Every total stored for the product is the product's current total for those parameters. */
    ghost predicate ConsistentFor(p: Product)
      reads this
    {
      forall parameters :: (p.id, parameters) in entries ==> entries[(p.id, parameters)] == Total(p.allocations, parameters)
    }
  }

  /**
   * `calculateTotalCost`: a stored total is returned as it is and the cache is left alone;
   * otherwise the total is computed and stored under (id, parameters), no other entry
   * changing. A cache consistent for the product stays so, and the answer is then the total.
   */
  method CalculateTotalCost(p: Product, parameters: Parameters, cache: ProductCache) returns (total: real)
    modifies cache
    ensures (p.id, parameters) in old(cache.entries) ==>
              total == old(cache.entries)[(p.id, parameters)] && cache.entries == old(cache.entries)
    ensures (p.id, parameters) !in old(cache.entries) ==>
              total == Total(p.allocations, parameters) && cache.entries == old(cache.entries)[(p.id, parameters) := total]
    ensures old(cache.ConsistentFor(p)) ==> cache.ConsistentFor(p) && total == Total(p.allocations, parameters)
  {
    if (p.id, parameters) in cache.entries {
      return cache.entries[(p.id, parameters)];
    }
    total := SumAllocationCosts(p.allocations, parameters);
    cache.entries := cache.entries[(p.id, parameters) := total];
  }

  /** `$itemCost` converted to a month: ×43200 per minute, ×720 per hour, ×30 per day, ÷12 per year. */
  function MonthlyPrice(price: real, period: string): (r: real)
    ensures period == "minute" ==> r == price * 43200.0
    ensures period == "hour" ==> r == price * 720.0
    ensures period == "day" ==> r == price * 30.0
    ensures period == "year" ==> r == price / 12.0
    ensures period !in {"minute", "hour", "day", "year"} ==> r == price
  {
    if period == "minute" then price * 43200.0
    else if period == "hour" then price * 720.0
    else if period == "day" then price * 30.0
    else if period == "year" then price / 12.0
    else price
  }

  /** The allocation with its item's price converted to a month (a null period counts as `month`). */
  function Monthly(a: Allocation): (m: Allocation)
    ensures m.allocationType == a.allocationType && m.allocationValue == a.allocationValue
    ensures m.costItem.None? <==> a.costItem.None?
    ensures a.costItem.Some? ==> m.costItem.value.price == MonthlyPrice(a.costItem.value.price, a.costItem.value.period.GetOr("month"))
  {
    match a.costItem
    case None => a
    case Some(item) => a.(costItem := Some(item.(price := MonthlyPrice(item.price, item.period.GetOr("month")))))
  }

  /** The monthly total: the total over the allocations with monthly prices. */
  function MonthlyTotal(allocations: seq<Allocation>, parameters: Parameters): real
  {
    if allocations == [] then 0.0
    else MonthlyTotal(allocations[..|allocations| - 1], parameters) + CalculateCost(Monthly(allocations[|allocations| - 1]), parameters)
  }

  /** The `foreach` of `calculateMonthlyTotalCost`. */
  method CalculateMonthlyTotalCost(p: Product, parameters: Parameters) returns (total: real)
    ensures total == MonthlyTotal(p.allocations, parameters)
  {
    total := 0.0;
    var i := 0;
    while i < |p.allocations|
      invariant 0 <= i <= |p.allocations|
      invariant total == MonthlyTotal(p.allocations[..i], parameters)
    {
      assert p.allocations[..i + 1][..i] == p.allocations[..i];
      var allocation := p.allocations[i];
      if allocation.costItem.Some? {
        var itemCost := allocation.costItem.value.price;
        var period := allocation.costItem.value.period.GetOr("month");
        if period == "minute" {
          itemCost := itemCost * 43200.0;
        } else if period == "hour" {
          itemCost := itemCost * 720.0;
        } else if period == "day" {
          itemCost := itemCost * 30.0;
        } else if period == "year" {
          itemCost := itemCost / 12.0;
        }
        assert itemCost == Monthly(allocation).costItem.value.price;
        total := total + CostOfPrice(itemCost, allocation.allocationType, allocation.allocationValue, parameters);
      }
      i := i + 1;
    }
    assert p.allocations[..|p.allocations|] == p.allocations;
  }

  /** Every cost item is already billed per month (or has no period). */
  predicate AllMonthly(allocations: seq<Allocation>) {
    forall i :: 0 <= i < |allocations| ==> allocations[i].costItem.Some? ==>
      allocations[i].costItem.value.period.GetOr("month") !in {"minute", "hour", "day", "year"}
  }

  /** When no price needs converting, the monthly total is the plain total. */
  lemma {:induction false} MonthlyTotalOfMonthlyItems(allocations: seq<Allocation>, parameters: Parameters)
    requires AllMonthly(allocations)
    ensures MonthlyTotal(allocations, parameters) == Total(allocations, parameters)
  {
    if allocations != [] {
      var last := allocations[|allocations| - 1];
      assert forall i :: 0 <= i < |allocations| - 1 ==> allocations[..|allocations| - 1][i] == allocations[i];
      MonthlyTotalOfMonthlyItems(allocations[..|allocations| - 1], parameters);
      assert Monthly(last) == last;
    }
  }

  /** `calculateYearlyTotalCost`: twelve times the monthly total. */
  method CalculateYearlyTotalCost(p: Product, parameters: Parameters) returns (total: real)
    ensures total == 12.0 * MonthlyTotal(p.allocations, parameters)
  {
    var monthly := CalculateMonthlyTotalCost(p, parameters);
    total := monthly * 12.0;
  }

  /**
   * The parameters `calculateCostItemAllocation` passes on: the caller's when there are any,
   * otherwise a user count of `intval(expected_users ?? 1)` and one resource unit.
   */
  function AllocationParameters(p: Product, parameters: Parameters): (r: Parameters)
    ensures |parameters| > 0 ==> r == parameters
    ensures |parameters| == 0 ==> r == map["user_count" := Some(IntVal(p.expectedUsers.GetOr(1.0)) as real),
                                             "resource_units" := Some(1.0)]
  {
    if |parameters| == 0 then
      map["user_count" := Some(IntVal(p.expectedUsers.GetOr(1.0)) as real), "resource_units" := Some(1.0)]
    else parameters
  }

  /** `calculateCostItemAllocation`: the allocation's own cost under those parameters. */
  function CalculateCostItemAllocation(p: Product, a: Allocation, parameters: Parameters): (r: real)
    ensures |parameters| > 0 ==> r == CalculateCost(a, parameters)
    ensures |parameters| == 0 && a.costItem.Some? && a.allocationType == Some("per_user") ==>
              r == a.costItem.value.price * a.allocationValue * IntVal(p.expectedUsers.GetOr(1.0)) as real
    ensures |parameters| == 0 && a.costItem.Some? && a.allocationType == Some("per_resource_unit") ==>
              r == a.costItem.value.price * a.allocationValue
  {
    CalculateCost(a, AllocationParameters(p, parameters))
  }

  /** Without expected users, an empty call costs as if one user and one resource unit were given. */
  lemma DefaultAllocationParameters(p: Product, a: Allocation)
    requires p.expectedUsers.None?
    ensures CalculateCostItemAllocation(p, a, map[]) == CalculateCost(a, map[])
  {
  }
}
