/** Tenants, tenancies and the tenancy manager, as the listeners see them.
    The implementations of `Tenancy` and `TenancyManager` are not part of this
    model: a tenancy records the calls it receives, and the manager is the
    table of tenancies it hands out by name. */
module Tenancies {
  import opened Wrappers

  /** A tenant key: PHP `int|string`, the same values as an array key. */
  type TenantKey = ArrayKey

  /** A tenant, read-only from the core's point of view. */
  datatype Tenant = Tenant(key: TenantKey, identifier: string)

  /** A call a tenancy received: `load(key)`, the only tenancy operation the
      modelled code calls. */
  datatype TenancyCall = LoadCall(key: TenantKey)

  /** A named tenancy. What `load` does to the current tenant is not
      modelled; every call is appended to `calls`. */
  class Tenancy {
    const name: string
    var calls: seq<TenancyCall>

    constructor (name: string)
      ensures this.name == name && calls == []
    {
      this.name := name;
      calls := [];
    }

    /** `Tenancy::load($key)`: re-hydrate the current tenant from a trusted key. */
    method Load(key: TenantKey)
      modifies this
      ensures calls == old(calls) + [LoadCall(key)]
    {
      calls := calls + [LoadCall(key)];
    }
  }

  /** `TenancyManager`: the tenancies it resolves, by name. */
  class TenancyManager {
    var tenancies: map<string, Tenancy>

    constructor (tenancies: map<string, Tenancy>)
      ensures this.tenancies == tenancies
    {
      this.tenancies := tenancies;
    }

    /** One instance per name, and each instance carries its own name. */
    ghost predicate Valid()
      reads this
    {
      (forall n :: n in tenancies ==> tenancies[n].name == n)
    }

    /** The tenancy objects the manager hands out. */
    ghost function Objects(): set<Tenancy>
      reads this
    {
      set n | n in tenancies :: tenancies[n]
    }

    /** `TenancyManager::get($name)`; `None` where the manager would throw. */
    function Get(name: string): (r: Option<Tenancy>)
      reads this
      ensures r.Some? <==> name in tenancies
      ensures r.Some? ==> r.value == tenancies[name]
    {
      if name in tenancies then Some(tenancies[name]) else None
    }
  }

  /** The `CurrentTenantChanged` event: the tenancy whose tenant changed, the
      tenant it had before (if any) and the one it has now (if any). */
  datatype CurrentTenantChanged =
    CurrentTenantChanged(tenancy: Tenancy, previous: Option<Tenant>, current: Option<Tenant>)
}
