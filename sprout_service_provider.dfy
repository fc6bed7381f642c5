/** `Sprout\SproutServiceProvider`: registers the core with the application and,
    at boot, registers the configured service overrides and the tenant-change
    listeners. Container bindings, middleware aliasing, the router mixin and
    config publishing are recorded only as steps. */
module Provider {
  import opened Wrappers
  import opened Core
  import opened Framework

  /** The provider's steps, in the order `register` and `boot` run them. */
  datatype Step =
    | RegisterSprout | RegisterManagers | RegisterMiddleware | RegisterRouteMixin
    | RegisterServiceOverrideBooting
    | PublishConfig | RegisterServiceOverrides | RegisterEventListeners | RegisterTenancyBootstrappers

  const RegisterSteps: seq<Step> :=
    [Step.RegisterSprout, Step.RegisterManagers, Step.RegisterMiddleware, Step.RegisterRouteMixin,
     Step.RegisterServiceOverrideBooting]

  const BootSteps: seq<Step> :=
    [Step.PublishConfig, Step.RegisterServiceOverrides, Step.RegisterEventListeners,
     Step.RegisterTenancyBootstrappers]

  /** The `RuntimeException` message for a service override without a service name. */
  const ServiceKeyMessage: string := "Service overrides must be registered against a \"service\""

  /** `config('sprout.services', [])`. */
  function ConfiguredServices(config: Config): (entries: seq<(ArrayKey, string)>)
    ensures config.services.None? ==> entries == []
    ensures config.services.Some? ==> entries == config.services.value
  {
    config.services.GetOr([])
  }

  /** `config('sprout.bootstrappers', [])`. */
  function ConfiguredBootstrappers(config: Config): (bootstrappers: seq<string>)
    ensures config.bootstrappers.None? ==> bootstrappers == []
    ensures config.bootstrappers.Some? ==> bootstrappers == config.bootstrappers.value
  {
    config.bootstrappers.GetOr([])
  }

  /** The overrides registered from `entries`: one per string-keyed entry, in
      order, up to the first entry whose key is not a string (which throws). */
  function RegistrationsFor(entries: seq<(ArrayKey, string)>): seq<OverrideRegistration>
  {
    if entries == [] || entries[0].0.IntKey? then []
    else [OverrideRegistration(entries[0].0.s, entries[0].1)] + RegistrationsFor(entries[1..])
  }

  /** Each string-keyed entry is registered, in order, up to the first
      non-string key, which stops registration; all entries are registered if
      and only if every key is a string. */
  lemma {:induction false} RegistrationsForSpec(entries: seq<(ArrayKey, string)>)
    ensures var r := RegistrationsFor(entries);
            |r| <= |entries| &&
            (forall i :: 0 <= i < |r| ==>
              entries[i].0 == StrKey(r[i].service) && r[i].overrideClass == entries[i].1) &&
            (|r| < |entries| ==> entries[|r|].0.IntKey?) &&
            (|r| == |entries| <==> forall i :: 0 <= i < |entries| ==> entries[i].0.StrKey?)
  {
    if entries != [] && entries[0].0.StrKey? {
      RegistrationsForSpec(entries[1..]);
      var r := RegistrationsFor(entries);
      assert forall i :: 1 <= i < |entries| ==> entries[i] == entries[1..][i - 1];
    }
  }

  /** After a run of string keys, the next entry adds its registration if its
      key is a string and none otherwise. */
  lemma {:induction false} RegistrationsForSnoc(entries: seq<(ArrayKey, string)>, i: nat)
    requires i < |entries|
    requires forall j :: 0 <= j < i ==> entries[j].0.StrKey?
    ensures RegistrationsFor(entries[..i + 1])
         == RegistrationsFor(entries[..i])
            + (if entries[i].0.StrKey? then [OverrideRegistration(entries[i].0.s, entries[i].1)] else [])
  {
    if i > 0 {
      assert entries[..i + 1][1..] == entries[1..][..i];
      assert entries[..i][1..] == entries[1..][..i - 1];
      RegistrationsForSnoc(entries[1..], i - 1);
    }
  }

  /** A non-string key at position `i`, after `i` string keys, ends
      registration: exactly the entries before it are registered. */
  lemma {:induction false} RegistrationsStop(entries: seq<(ArrayKey, string)>, i: nat)
    requires i < |entries| && entries[i].0.IntKey?
    requires forall j :: 0 <= j < i ==> entries[j].0.StrKey?
    ensures RegistrationsFor(entries) == RegistrationsFor(entries[..i])
  {
    if i > 0 {
      assert entries[..i][1..] == entries[1..][..i - 1];
      RegistrationsStop(entries[1..], i - 1);
    }
  }

  /** The listeners registered for the configured bootstrappers: one
      `CurrentTenantChanged` listener per occurrence, in configured order. */
  function BootstrapperListeners(bootstrappers: seq<string>): (r: seq<Listening>)
    ensures |r| == |bootstrappers|
    ensures forall i :: 0 <= i < |r| ==>
              r[i] == Listening(CurrentTenantChangedEvent, ListenerClass(bootstrappers[i]))
  {
    if bootstrappers == [] then []
    else [Listening(CurrentTenantChangedEvent, ListenerClass(bootstrappers[0]))]
         + BootstrapperListeners(bootstrappers[1..])
  }

  /** The listener registered for routing when the Routing hook is supported. */
  function RoutingListeners(routingSupported: bool): seq<Listening>
  {
    if routingSupported then [Listening(RouteMatched, IdentifyTenantOnRouting)] else []
  }

  class SproutServiceProvider {
    const app: Application
    var sprout: Sprout?
    var steps: seq<Step>

    constructor (app: Application)
      ensures this.app == app && sprout == null && steps == []
    {
      this.app := app;
      sprout := null;
      steps := [];
    }

    /** `register()`: create the core, then the managers, the middleware alias,
        the router mixin, and finally defer override booting to the
        application's "booted" event, as exactly one callback. */
    method Register()
      modifies this, app
      ensures steps == old(steps) + RegisterSteps
      ensures sprout != null && fresh(sprout)
      ensures sprout.hooks == app.config.hooks && sprout.overrides == [] && sprout.registrations == []
      ensures app.bootedCallbacks == old(app.bootedCallbacks) + [BootOverrides(sprout)]
    {
      RegisterSprout();
      RegisterManagers();
      RegisterMiddleware();
      RegisterRouteMixin();
      RegisterServiceOverrideBooting();
    }

    /** `registerSprout()`: a new core, built from the application's configuration. */
    method RegisterSprout()
      modifies this
      ensures steps == old(steps) + [Step.RegisterSprout]
      ensures sprout != null && fresh(sprout)
      ensures sprout.hooks == app.config.hooks && sprout.overrides == [] && sprout.registrations == []
    {
      steps := steps + [Step.RegisterSprout];
      sprout := new Sprout(app.config.hooks);
    }

    /** `registerManagers()`: container bindings only. */
    method RegisterManagers()
      modifies this`steps
      ensures steps == old(steps) + [Step.RegisterManagers]
    {
      steps := steps + [Step.RegisterManagers];
    }

    /** `registerMiddleware()`: a router alias only. */
    method RegisterMiddleware()
      modifies this`steps
      ensures steps == old(steps) + [Step.RegisterMiddleware]
    {
      steps := steps + [Step.RegisterMiddleware];
    }

    /** `registerRouteMixin()`: a router mixin only. */
    method RegisterRouteMixin()
      modifies this`steps
      ensures steps == old(steps) + [Step.RegisterRouteMixin]
    {
      steps := steps + [Step.RegisterRouteMixin];
    }

    /** `registerServiceOverrideBooting()`: the core's override booting runs
        when the application has booted, not now. */
    method RegisterServiceOverrideBooting()
      requires sprout != null
      modifies this`steps, app
      ensures steps == old(steps) + [Step.RegisterServiceOverrideBooting]
      ensures app.bootedCallbacks == old(app.bootedCallbacks) + [BootOverrides(sprout)]
    {
      steps := steps + [Step.RegisterServiceOverrideBooting];
      app.Booted(BootOverrides(sprout));
    }

    /** `boot()`: publish config, register overrides, listeners, bootstrappers.
        A service override with a non-string key throws, and the steps after
        it do not run. */
    method Boot() returns (outcome: Outcome<string>)
      requires sprout != null
      modifies this`steps, sprout, app.events
      ensures var entries := ConfiguredServices(app.config);
              var registered := RegistrationsFor(entries);
              sprout.registrations == old(sprout.registrations) + registered &&
              (outcome.Pass? <==> |registered| == |entries|)
      ensures outcome.Fail? ==>
                outcome.error == ServiceKeyMessage &&
                steps == old(steps) + [Step.PublishConfig, Step.RegisterServiceOverrides] &&
                app.events.listeners == old(app.events.listeners)
      ensures outcome.Pass? ==>
                steps == old(steps) + BootSteps &&
                app.events.listeners == old(app.events.listeners)
                  + RoutingListeners(sprout.SupportsHook(Routing))
                  + BootstrapperListeners(ConfiguredBootstrappers(app.config))
    {
      PublishConfig();
      outcome := RegisterServiceOverrides();
      if outcome.Fail? {
        return;
      }
      RegisterEventListeners();
      RegisterTenancyBootstrappers();
    }

    /** `publishConfig()`: config publishing only. */
    method PublishConfig()
      modifies this`steps
      ensures steps == old(steps) + [Step.PublishConfig]
    {
      steps := steps + [Step.PublishConfig];
    }

    /** `registerServiceOverrides()`: each string-keyed entry of
        `sprout.services` is registered with the core, in order; the first
        entry whose key is not a string throws, and it and every later entry
        stay unregistered. */
    method RegisterServiceOverrides() returns (outcome: Outcome<string>)
      requires sprout != null
      modifies this`steps, sprout
      ensures steps == old(steps) + [Step.RegisterServiceOverrides]
      ensures var entries := ConfiguredServices(app.config);
              var registered := RegistrationsFor(entries);
              sprout.registrations == old(sprout.registrations) + registered &&
              (outcome.Pass? <==> |registered| == |entries|)
      ensures outcome.Fail? ==> outcome.error == ServiceKeyMessage
    {
      steps := steps + [Step.RegisterServiceOverrides];
      var overrides := ConfiguredServices(app.config);
      ghost var before := sprout.registrations;
      for i := 0 to |overrides|
        invariant steps == old(steps) + [Step.RegisterServiceOverrides]
        invariant forall j :: 0 <= j < i ==> overrides[j].0.StrKey?
        invariant sprout.registrations == before + RegistrationsFor(overrides[..i])
      {
        RegistrationsForSnoc(overrides, i);
        if overrides[i].0.IntKey? {
          RegistrationsStop(overrides, i);
          RegistrationsForSpec(overrides);
          return Fail(ServiceKeyMessage);
        }
        sprout.RegisterOverride(overrides[i].0.s, overrides[i].1);
      }
      assert overrides[..|overrides|] == overrides;
      RegistrationsForSpec(overrides);
      return Pass;
    }

    /** `registerEventListeners()`: the routing identifier listens for
        `RouteMatched` if and only if the core supports the Routing hook. */
    method RegisterEventListeners()
      requires sprout != null
      modifies this`steps, app.events
      ensures steps == old(steps) + [Step.RegisterEventListeners]
      ensures app.events.listeners == old(app.events.listeners) + RoutingListeners(sprout.SupportsHook(Routing))
    {
      steps := steps + [Step.RegisterEventListeners];
      if sprout.SupportsHook(Routing) {
        app.events.Listen(RouteMatched, IdentifyTenantOnRouting);
      }
    }

    /** `registerTenancyBootstrappers()`: every configured bootstrapper
        listens for `CurrentTenantChanged`, once per occurrence, in order. */
    method RegisterTenancyBootstrappers()
      modifies this`steps, app.events
      ensures steps == old(steps) + [Step.RegisterTenancyBootstrappers]
      ensures app.events.listeners == old(app.events.listeners) + BootstrapperListeners(ConfiguredBootstrappers(app.config))
    {
      steps := steps + [Step.RegisterTenancyBootstrappers];
      var bootstrappers := ConfiguredBootstrappers(app.config);
      for i := 0 to |bootstrappers|
        invariant steps == old(steps) + [Step.RegisterTenancyBootstrappers]
        invariant app.events.listeners == old(app.events.listeners) + BootstrapperListeners(bootstrappers[..i])
      {
        assert BootstrapperListeners(bootstrappers[..i + 1])
            == BootstrapperListeners(bootstrappers[..i]) + [Listening(CurrentTenantChangedEvent, ListenerClass(bootstrappers[i]))];
        app.events.Listen(CurrentTenantChangedEvent, ListenerClass(bootstrappers[i]));
      }
      assert bootstrappers[..|bootstrappers|] == bootstrappers;
    }
  }
}
