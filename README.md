# Sprout tenancy wiring, modelled in Dafny

This project models four pieces of the Sprout multi-tenancy library for Laravel:

- the `CleanupServiceOverrides` listener. When a tenancy's current tenant changes, it offers every registered service override a `cleanup` for the previous tenant. It does this only when there was a previous tenant.
- the `SetCurrentTenantForJob` listener. Before a queued job runs, it reads the tenants captured at dispatch (`sprout.tenants`, tenancy name to tenant key). It then `load`s each named tenancy with its key.
- the `IdentityResolverManager` factory, which has three parts:
  - its name;
  - its config-key builder;
  - the validating constructor for the subdomain resolver.
- the `SproutServiceProvider`, which covers:
  - the order of its `register` and `boot` steps;
  - registering the configured service overrides;
  - the routing listener;
  - the tenant-changed bootstrapper listeners;
  - deferring override booting to the application's "booted" event.

The collaborators are not part of this model: `Tenancy`, `TenancyManager`, `Sprout`, the event dispatcher and the application. Their operations come in two kinds:

- Calls that change something are recorded, not executed: `load` (a tenancy keeps the list of `load` calls it got), `registerOverride` (the core keeps its registrations), `listen` (the dispatcher keeps its `(event, listener)` registrations) and `booted` (the application keeps its callbacks). The `cleanup` calls on service overrides are the list the cleanup listener's `Handle` returns.
- `TenancyManager::get`, `Sprout::getOverrides` and `Sprout::supportsHook` are lookups into state the collaborator holds: the manager's table of tenancies by name, the core's list of overrides and its set of supported hooks. Nothing records a call to them.

What a registration does to the overrides `getOverrides()` returns is left open: after `registerOverride` that list may be anything.

PHP arrays are ordered, so the job context and the `sprout.services`/`sprout.bootstrappers` configuration are sequences of entries, not Dafny maps. A thrown exception becomes a `Fail`/`Failure` value that ends the operation. Work already done before the exception stays done.

Files:
- `wrappers.dfy`: Option, Result, Outcome and the PHP `int|string` key.
- `tenancy.dfy`: tenants, tenancies, the tenancy manager and the `CurrentTenantChanged` event.
- `sprout.dfy`: the core's override registry.
- `framework.dfy`: dispatcher, application and configuration.
- one file for each modelled source file.

## Model

| member | source | states |
|---|---|---|
| `CleanupListener.CleanupServiceOverrides.Handle` | src/Listeners/CleanupServiceOverrides.php:28-38 | With no previous tenant, no cleanup call is made. Otherwise it makes exactly one call per override returned by `getOverrides()`, in registry order, each with the event's tenancy and previous tenant. The method has no `modifies` clause, so the override registry is left unchanged. |
| `CleanupListener.CleanupCallsAt` | src/Listeners/CleanupServiceOverrides.php:35-37 | A pass over the overrides makes as many calls as there are overrides. The i-th call goes to the i-th override with the event's tenancy and previous tenant. |
| `CleanupListener.CleanupCallsSnoc` | src/Listeners/CleanupServiceOverrides.php:35-37 | One more override in the registry means one more cleanup call, made last. |
| `CleanupListener.CleanupIffPrevious` | src/Listeners/CleanupServiceOverrides.php:31-37 | Some cleanup is called if and only if the event has a previous tenant and at least one override is registered. |
| `CleanupListener.CleanupCount` | src/Listeners/CleanupServiceOverrides.php:31-37 | The number of cleanup calls is 0 when the previous tenant is null, and otherwise the number of registered overrides. |
| `CleanupListener.CleanupArguments` | src/Listeners/CleanupServiceOverrides.php:36 | Every cleanup call receives the event's tenancy and previous tenant. When the new tenant differs from the previous one, no call receives the new tenant. |
| `CleanupListener.CleanupTargetsAreRegistry` | src/Listeners/CleanupServiceOverrides.php:35-37 | With a previous tenant, the overrides cleaned up, in call order, are exactly the registry. Each override is cleaned up once and no other override is. |
| `JobListener.ContextTenants` | src/Listeners/SetCurrentTenantForJob.php:26 | An absent `sprout.tenants` entry reads as empty. A present one is used as stored. |
| `JobListener.SetCurrentTenantForJob.Handle` | src/Listeners/SetCurrentTenantForJob.php:23-39 | The entries are processed in order. Each one loads its tenancy with its key, up to the first entry whose tenancy the manager cannot resolve, which fails naming it. The handler succeeds if and only if every entry's tenancy resolves. Every tenancy gets exactly `LoadsFor` of the processed entries added to its call list. Tenancies that no entry names are untouched. The ghost trace `loaded`, one `(tenancy name, key)` per `load` in the order the calls were made across all tenancies, is exactly the processed prefix of the context. |
| `JobListener.RestoredCount` | src/Listeners/SetCurrentTenantForJob.php:32-34 | Every entry before the returned point names a known tenancy. The entry at that point, if there is one, does not. |
| `JobListener.LoadOne` | src/Listeners/SetCurrentTenantForJob.php:36-37 | Loading entry i's tenancy with entry i's key extends the restored state by one entry. That tenancy's calls gain exactly that `load`, and every other tenancy's calls stay the same. |
| `JobListener.LoadsForStep` | src/Listeners/SetCurrentTenantForJob.php:32-37 | Over all tenancy names at once, processing entry i adds its `load` to the tenancy it names and nothing to any other. |
| `JobListener.LoadsForSnoc` | src/Listeners/SetCurrentTenantForJob.php:32-37 | Processing one more entry adds one `load` with its key to the tenancy it names, and nothing to any other tenancy. |
| `JobListener.LoadsForUntouched` | src/Listeners/SetCurrentTenantForJob.php:32-38 | A tenancy receives a call if and only if some context entry names it. |
| `JobListener.LoadsForOnlyCapturedKeys` | src/Listeners/SetCurrentTenantForJob.php:36-37 | Every key loaded into a tenancy was captured for that tenancy's name. |
| `JobListener.LoadsForExactlyOnce` | src/Listeners/SetCurrentTenantForJob.php:32-38 | With unique names, as PHP array keys are, the tenancy named by an entry receives exactly one call: `load` with that entry's key. |
| `JobListener.LoadCountIsEntryCount` | src/Listeners/SetCurrentTenantForJob.php:32-38 | Summed over all tenancies, the number of `load` calls equals the number of context entries. |
| `Tenancies.TenancyManager.Get` | src/Listeners/SetCurrentTenantForJob.php:34 | The lookup succeeds if and only if the manager knows the name, and then gives that name's tenancy. |
| `Tenancies.Tenancy.Load` | src/Listeners/SetCurrentTenantForJob.php:37 | A `load(key)` call is recorded on that tenancy and on no other object. |
| `IdentityResolvers.GetFactoryName` | src/Managers/IdentityResolverManager.php:20-23 | The factory name is always the constant "resolver". |
| `IdentityResolvers.GetConfigKey` | src/Managers/IdentityResolverManager.php:32-35 | The key starts with `multitenancy.resolvers.` and the rest of it is exactly the name. |
| `IdentityResolvers.ConfigKeyRoundTrip` | src/Managers/IdentityResolverManager.php:34 | Stripping the prefix from a built key gives back the name. Every key that strips to a name is the key built for that name. |
| `IdentityResolvers.ConfigKeyInjective` | src/Managers/IdentityResolverManager.php:34 | Distinct resolver names have distinct config keys. |
| `IdentityResolvers.NoDomainMessageNamesResolver` | src/Managers/IdentityResolverManager.php:50-52 | The missing-domain message is the fixed text `No domain provided for resolver [` followed by the resolver's name and a closing bracket, so different resolvers get different messages. |
| `IdentityResolvers.CreateSubdomainResolver` | src/Managers/IdentityResolverManager.php:47-61 | A missing or null `domain` fails with exactly `No domain provided for resolver [name]`. Otherwise the resolver gets the name and that exact domain. `pattern` and `parameter` are null when absent or null, and are passed through unchanged when present. |
| `Provider.ConfiguredServices` | src/SproutServiceProvider.php:111 | An absent `sprout.services` reads as empty. |
| `Provider.ConfiguredBootstrappers` | src/SproutServiceProvider.php:139 | An absent `sprout.bootstrappers` reads as empty. |
| `Provider.RegistrationsForSpec` | src/SproutServiceProvider.php:113-119 | `RegistrationsFor` registers each string-keyed entry, in config order, up to the first non-string key. Neither that entry nor any later one is registered. Every entry is registered if and only if every key is a string. |
| `Provider.RegistrationsForSnoc` | src/SproutServiceProvider.php:113-119 | After a run of string keys, the next entry adds exactly its own registration if its key is a string, and nothing otherwise. |
| `Provider.RegistrationsStop` | src/SproutServiceProvider.php:114-116 | A non-string key at position i, after i string keys, leaves exactly the entries before it registered. |
| `Provider.BootstrapperListeners` | src/SproutServiceProvider.php:141-143 | There is one `CurrentTenantChanged` listener per configured bootstrapper occurrence, in config order. |
| `Provider.SproutServiceProvider.Register` | src/SproutServiceProvider.php:30-37 | The steps run in the order sprout, managers, middleware, route mixin, override-boot hook. A new core is created, and exactly one "booted" callback that boots its overrides is queued. |
| `Provider.SproutServiceProvider.RegisterSprout` | src/SproutServiceProvider.php:39-48 | A fresh core with an empty registry is created, supporting the configured hooks. |
| `Provider.SproutServiceProvider.RegisterManagers` | src/SproutServiceProvider.php:50-71 | Only the step is recorded: no modelled state changes. |
| `Provider.SproutServiceProvider.RegisterMiddleware` | src/SproutServiceProvider.php:73-80 | Only the step is recorded: no modelled state changes. |
| `Provider.SproutServiceProvider.RegisterRouteMixin` | src/SproutServiceProvider.php:82-85 | Only the step is recorded: no modelled state changes. |
| `Provider.SproutServiceProvider.RegisterServiceOverrideBooting` | src/SproutServiceProvider.php:87-90 | Override booting is deferred: exactly one `bootOverrides` callback for this core is appended to the application's "booted" callbacks. |
| `Provider.SproutServiceProvider.Boot` | src/SproutServiceProvider.php:92-98 | The steps run in the order publish config, overrides, event listeners, bootstrappers. The registry gains `RegistrationsFor` of the services. If a service key is not a string, boot fails with that message after the overrides step, and no listener is added. Otherwise the dispatcher gains the routing listener, then the bootstrapper listeners. |
| `Provider.SproutServiceProvider.PublishConfig` | src/SproutServiceProvider.php:100-106 | Only the step is recorded: no modelled state changes. |
| `Provider.SproutServiceProvider.RegisterServiceOverrides` | src/SproutServiceProvider.php:108-120 | The core's registration record grows by exactly `RegistrationsFor(services)`. The step succeeds if and only if every key is a string, and otherwise fails with the `RuntimeException` message. |
| `Provider.SproutServiceProvider.RegisterEventListeners` | src/SproutServiceProvider.php:122-131 | The routing identifier is registered for `RouteMatched` if and only if the core supports the Routing hook. Nothing else is registered. |
| `Provider.SproutServiceProvider.RegisterTenancyBootstrappers` | src/SproutServiceProvider.php:133-144 | The dispatcher gains exactly `BootstrapperListeners` of the configured bootstrappers, after its existing listeners. |
| `Core.Sprout.RegisterOverride` | src/SproutServiceProvider.php:118 | A `registerOverride(service, class)` call is recorded in order, after the earlier ones. |
| `Core.Sprout.SupportsHook` | src/SproutServiceProvider.php:128 | A hook is supported if and only if it is among the hooks the core was configured with. |
| `Core.Sprout.GetOverrides` | src/Listeners/CleanupServiceOverrides.php:35 | The overrides returned are the ones the core holds at the time of the call, in registry order. |
| `Framework.Dispatcher.Listen` | src/SproutServiceProvider.php:129 | A `listen(event, listener)` call is appended to the dispatcher's registrations. |
| `Framework.Application.Booted` | src/SproutServiceProvider.php:89 | A callback handed to `booted` is queued after the existing ones. |

## Left out

- The implementations of `Tenancy::load`, `Sprout::registerOverride` and `bootOverrides`, and `ServiceOverride::cleanup`, are not part of this model. Calls to them are recorded, not executed. What `load` does with a key that no longer resolves is not modelled.
- `TenancyManager::get`, `Sprout::getOverrides` and `Sprout::supportsHook` are modelled as lookups into the manager's name table, the core's override list and its hook set. How those collaborators fill that state is not modelled.
- `Tenancy::identify` and the rest of the tenancy's interface are not modelled. The job listener calls only `load`.
- `Tenancies.TenancyManager.Get`: when the manager cannot resolve a name, the model assumes it throws, which ends the job handler. Lazy creation and caching of tenancies are not modelled. The manager is a fixed table of tenancies, one per name.
- `Core.Sprout.RegisterOverride`: how a registration changes the overrides that `getOverrides()` returns (instantiation, replacing a service registered twice) is not modelled. The model promises nothing about that list after a registration, so `RegisterServiceOverrides` and `Boot` state only the registration record.
- `Provider.SproutServiceProvider.RegisterSprout`: the `Sprout` class is not part of this model, and the provider builds it from the application and a settings repository only. How the core learns its supported hooks is therefore not shown. The model fixes them from the configuration when the core is built. The settings repository and the container singleton, alias and bind calls are not modelled.
- `Provider.SproutServiceProvider.Boot` and `Provider.SproutServiceProvider.Register`: the framework runs `register` before `boot`. `Boot` therefore requires that the core exists.
- Container plumbing has no modelled effect: manager singletons and aliases, the middleware alias, the router mixin and config publishing. Each is only recorded as a step.
- The `Context` facade and the `JobProcessing` event: the job's `sprout.tenants` entry is an input parameter.
- Configuration values: only strings and null are modelled. Other PHP types reaching `domain`, `pattern` or `parameter` are not modelled, and neither are exception class identities.
- The driver dispatch and caching inherited from `BaseFactory`, and the subdomain resolver's host matching, are not part of this model.
- Capturing the job context at dispatch time, resolver iteration and the tenancy state machine are outside the modelled files.
- Database-backed tenant providers are I/O and persistence. They are not modelled.
