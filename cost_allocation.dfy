/**
 * `CostAllocation::calculateCost`: what one allocation of a cost item to a product costs,
 * by allocation type and the caller's parameters.
 */
module CostAllocations {
  import opened Common

  /** The columns of the allocated cost item that the calculations read. */
  datatype CostItemRef = CostItemRef(price: real, period: Option<string>)

  /** An allocation row with its cost item loaded (`None` when the item is missing). */
  datatype Allocation = Allocation(costItem: Option<CostItemRef>, allocationType: Option<string>, allocationValue: real)

  /** The `$parameters` array: a key may be absent or hold null (`None`). */
  type Parameters = map<string, Option<real>>

  /** `$parameters[key] ?? 1`: the value when the key is present and not null, 1 otherwise. */
  function ParamOrOne(parameters: Parameters, key: string): (r: real)
    ensures key in parameters && parameters[key].Some? ==> r == parameters[key].value
    ensures !(key in parameters && parameters[key].Some?) ==> r == 1.0
  {
    if key in parameters then parameters[key].GetOr(1.0) else 1.0
  }

  /**
   * The switch on the allocation type for a cost item of price `price`: price × value for
   * `fixed`, times the user count for `per_user`, times the resource units for
   * `per_resource_unit`; the bare price for any other type.
   */
  function CostOfPrice(price: real, allocationType: Option<string>, allocationValue: real, parameters: Parameters): (r: real)
    ensures allocationType == Some("fixed") ==> r == price * allocationValue
    ensures allocationType == Some("per_user") ==> r == price * allocationValue * ParamOrOne(parameters, "user_count")
    ensures allocationType == Some("per_resource_unit") ==>
              r == price * allocationValue * ParamOrOne(parameters, "resource_units")
    ensures !IsScaled(allocationType) ==> r == price
  {
    if allocationType == Some("fixed") then price * allocationValue
    else if allocationType == Some("per_user") then price * allocationValue * ParamOrOne(parameters, "user_count")
    else if allocationType == Some("per_resource_unit") then
      price * allocationValue * ParamOrOne(parameters, "resource_units")
    else price
  }

  /** The cost of an allocation: 0 without a cost item, otherwise the switch on its item's price. */
  function CalculateCost(a: Allocation, parameters: Parameters): (r: real)
    ensures a.costItem.None? ==> r == 0.0
    ensures a.costItem.Some? ==> r == CostOfPrice(a.costItem.value.price, a.allocationType, a.allocationValue, parameters)
  {
    match a.costItem
    case None => 0.0
    case Some(item) => CostOfPrice(item.price, a.allocationType, a.allocationValue, parameters)
  }

  /** The three types the switch scales by the allocation value. */
  predicate IsScaled(allocationType: Option<string>) {
    allocationType == Some("fixed") || allocationType == Some("per_user") || allocationType == Some("per_resource_unit")
  }

  /** A `fixed` allocation, and one of any unscaled type, costs the same whatever the parameters. */
  lemma CostIgnoresParameters(a: Allocation, p: Parameters, q: Parameters)
    requires a.allocationType == Some("fixed") || !IsScaled(a.allocationType)
    ensures CalculateCost(a, p) == CalculateCost(a, q)
  {
  }

  /** An unscaled type (null, `percentage`, anything else) ignores the allocation value. */
  lemma UnscaledIgnoresValue(a: Allocation, v: real, p: Parameters)
    requires !IsScaled(a.allocationType)
    ensures CalculateCost(a, p) == CalculateCost(a.(allocationValue := v), p)
  {
  }

  /** Without the parameters, `per_user` and `per_resource_unit` cost what `fixed` costs. */
  lemma EmptyParametersCostAsFixed(a: Allocation)
    requires IsScaled(a.allocationType)
    ensures CalculateCost(a, map[]) == CalculateCost(a.(allocationType := Some("fixed")), map[])
  {
  }

  /** An explicit null parameter counts as 1, like an absent one. */
  lemma NullParameterIsOne(a: Allocation, p: Parameters, key: string)
    ensures CalculateCost(a, p[key := None]) == CalculateCost(a, p - {key})
  {
    assert ParamOrOne(p[key := None], "user_count") == ParamOrOne(p - {key}, "user_count");
    assert ParamOrOne(p[key := None], "resource_units") == ParamOrOne(p - {key}, "resource_units");
  }
}
