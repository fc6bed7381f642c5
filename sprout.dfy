/** The core coordinator (`Sprout`) as the service provider and the cleanup
    listener use it. Its implementation is not part of this model: it keeps the
    overrides `getOverrides()` returns, the hooks it supports, and a record of
    the `registerOverride` calls it received. How a registration changes the
    overrides `getOverrides()` returns is its own business, so the model leaves
    that list unconstrained after a registration. */
module Core {

  /** A resolution hook: a point in the request lifecycle where tenants may be
      identified. Only `Routing` is named by the code modelled here. */
  datatype ResolutionHook = Routing | OtherHook(name: string)

  /** A registered service override: the service it is bound to and its class. */
  datatype ServiceOverride = ServiceOverride(service: string, overrideClass: string)

  /** A `registerOverride($service, $overrideClass)` call. */
  datatype OverrideRegistration = OverrideRegistration(service: string, overrideClass: string)

  class Sprout {
    const hooks: set<ResolutionHook>
    var overrides: seq<ServiceOverride>
    var registrations: seq<OverrideRegistration>

    constructor (hooks: set<ResolutionHook>)
      ensures this.hooks == hooks && overrides == [] && registrations == []
    {
      this.hooks := hooks;
      overrides := [];
      registrations := [];
    }

    /** `Sprout::supportsHook($hook)`: a hook is supported exactly when the
        configuration enabled it. */
    function SupportsHook(hook: ResolutionHook): (r: bool)
      ensures r <==> hook in hooks
    {
      hook in hooks
    }

    /** `Sprout::getOverrides()`: the overrides the core currently holds, in
        registry order. */
    function GetOverrides(): (r: seq<ServiceOverride>)
      reads this
      ensures r == overrides
    {
      overrides
    }

    /** `Sprout::registerOverride($service, $overrideClass)`: the call is
        recorded; what it does to `getOverrides()` is not modelled. */
    method RegisterOverride(service: string, overrideClass: string)
      modifies this
      ensures registrations == old(registrations) + [OverrideRegistration(service, overrideClass)]
    {
      registrations := registrations + [OverrideRegistration(service, overrideClass)];
    }
  }
}
