/** `Sprout\Listeners\CleanupServiceOverrides`: on a tenant change, offer every
    registered service override the chance to release the previous tenant's
    state. `ServiceOverride::cleanup` is not part of this model; the listener
    reports the cleanup calls it makes, in the order it makes them. */
module CleanupListener {
  import opened Wrappers
  import opened Tenancies
  import opened Core

  /** A `$override->cleanup($tenancy, $previous)` call. */
  datatype CleanupCall = CleanupCall(target: ServiceOverride, tenancy: Tenancy, previous: Tenant)

  /** The cleanup calls one pass over `overrides` makes, in order. */
  function CleanupCalls(overrides: seq<ServiceOverride>, tenancy: Tenancy, previous: Tenant): seq<CleanupCall>
  {
    if overrides == [] then []
    else [CleanupCall(overrides[0], tenancy, previous)] + CleanupCalls(overrides[1..], tenancy, previous)
  }

  /** The cleanup calls handling `event` makes against `overrides`: none when
      there was no previous tenant, otherwise one pass over the overrides. */
  function CleanupsFor(event: CurrentTenantChanged, overrides: seq<ServiceOverride>): seq<CleanupCall>
  {
    if event.previous.None? then [] else CleanupCalls(overrides, event.tenancy, event.previous.value)
  }

  /** One pass makes exactly one call per override, at the override's position,
      with the event's tenancy and previous tenant. */
  lemma {:induction false} CleanupCallsAt(overrides: seq<ServiceOverride>, tenancy: Tenancy, previous: Tenant)
    ensures |CleanupCalls(overrides, tenancy, previous)| == |overrides|
    ensures forall i :: 0 <= i < |overrides| ==>
              CleanupCalls(overrides, tenancy, previous)[i] == CleanupCall(overrides[i], tenancy, previous)
  {
    if overrides != [] {
      CleanupCallsAt(overrides[1..], tenancy, previous);
    }
  }

  /** Extending the registry by one override extends the pass by one call. */
  lemma {:induction false} CleanupCallsSnoc(overrides: seq<ServiceOverride>, o: ServiceOverride, tenancy: Tenancy, previous: Tenant)
    ensures CleanupCalls(overrides + [o], tenancy, previous)
         == CleanupCalls(overrides, tenancy, previous) + [CleanupCall(o, tenancy, previous)]
  {
    if overrides != [] {
      assert (overrides + [o])[1..] == overrides[1..] + [o];
      CleanupCallsSnoc(overrides[1..], o, tenancy, previous);
    }
  }

  /** Cleanup runs if and only if there was a previous tenant and some override is registered. */
  lemma CleanupIffPrevious(event: CurrentTenantChanged, overrides: seq<ServiceOverride>)
    ensures CleanupsFor(event, overrides) != [] <==> event.previous.Some? && overrides != []
  {
    if event.previous.Some? {
      CleanupCallsAt(overrides, event.tenancy, event.previous.value);
    }
  }

  /** The number of cleanup calls is 0 without a previous tenant, otherwise the number of overrides. */
  lemma CleanupCount(event: CurrentTenantChanged, overrides: seq<ServiceOverride>)
    ensures |CleanupsFor(event, overrides)| == if event.previous.None? then 0 else |overrides|
  {
    if event.previous.Some? {
      CleanupCallsAt(overrides, event.tenancy, event.previous.value);
    }
  }

  /** Every cleanup call receives the event's tenancy and its previous tenant;
      when the new tenant differs from the previous one, never the new tenant. */
  lemma CleanupArguments(event: CurrentTenantChanged, overrides: seq<ServiceOverride>)
    ensures forall c :: c in CleanupsFor(event, overrides) ==>
              event.previous == Some(c.previous) && c.tenancy == event.tenancy &&
              (event.current != event.previous ==> event.current != Some(c.previous))
  {
    if event.previous.Some? {
      CleanupCallsAt(overrides, event.tenancy, event.previous.value);
    }
  }

  /** The overrides the calls go to, in call order. */
  function Targets(calls: seq<CleanupCall>): seq<ServiceOverride>
  {
    if calls == [] then [] else [calls[0].target] + Targets(calls[1..])
  }

  /** With a previous tenant, the overrides cleaned up are exactly the registry,
      in registry order: each registered override once, none twice, no other. */
  lemma {:induction false} CleanupTargetsAreRegistry(event: CurrentTenantChanged, overrides: seq<ServiceOverride>)
    requires event.previous.Some?
    ensures Targets(CleanupsFor(event, overrides)) == overrides
  {
    if overrides != [] {
      CleanupTargetsAreRegistry(event, overrides[1..]);
    }
  }

  class CleanupServiceOverrides {
    const sprout: Sprout

    constructor (sprout: Sprout)
      ensures this.sprout == sprout
    {
      this.sprout := sprout;
    }

    /** `CleanupServiceOverrides::handle($event)`. The handler changes no
        state of its own and leaves the override registry as it found it; it
        returns the cleanup calls it made, in the order it made them. */
    method Handle(event: CurrentTenantChanged) returns (calls: seq<CleanupCall>)
      ensures event.previous.None? ==> calls == []
      ensures event.previous.Some? ==>
                |calls| == |sprout.GetOverrides()| &&
                forall i :: 0 <= i < |calls| ==>
                  calls[i] == CleanupCall(sprout.GetOverrides()[i], event.tenancy, event.previous.value)
      ensures calls == CleanupsFor(event, sprout.GetOverrides())
    {
      calls := [];
      if event.previous == None {
        return;
      }
      var previous := event.previous.value;
      var overrides := sprout.GetOverrides();
      for k := 0 to |overrides|
        invariant calls == CleanupCalls(overrides[..k], event.tenancy, previous)
      {
        CleanupCallsSnoc(overrides[..k], overrides[k], event.tenancy, previous);
        assert overrides[..k + 1] == overrides[..k] + [overrides[k]];
        calls := calls + [CleanupCall(overrides[k], event.tenancy, previous)];
      }
      assert overrides[..|overrides|] == overrides;
      CleanupCallsAt(overrides, event.tenancy, previous);
    }
  }
}
