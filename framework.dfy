/** The parts of the host framework the service provider talks to: the event
    dispatcher, the application's "booted" callbacks and the `sprout.*`
    configuration. Their implementations are not part of this model; each
    records the calls it receives. */
module Framework {
  import opened Wrappers
  import opened Core

  /** The events the provider registers listeners for. */
  datatype EventName = RouteMatched | CurrentTenantChangedEvent

  /** A listener: the built-in routing identifier, or a configured class. */
  datatype Listener = IdentifyTenantOnRouting | ListenerClass(className: string)

  /** A `$events->listen($event, $listener)` call. */
  datatype Listening = Listening(event: EventName, listener: Listener)

  class Dispatcher {
    var listeners: seq<Listening>

    constructor ()
      ensures listeners == []
    {
      listeners := [];
    }

    /** `Dispatcher::listen($event, $listener)`: the registration is appended. */
    method Listen(event: EventName, listener: Listener)
      modifies this
      ensures listeners == old(listeners) + [Listening(event, listener)]
    {
      listeners := listeners + [Listening(event, listener)];
    }
  }

  /** The configuration the provider reads: `sprout.services` (service key to
      override class, in array order), `sprout.bootstrappers` (listener
      classes, in order), each `None` when absent, and the resolution hooks
      the configuration enables. */
  datatype Config = Config(
    services: Option<seq<(ArrayKey, string)>>,
    bootstrappers: Option<seq<string>>,
    hooks: set<ResolutionHook>)

  /** A callback handed to `$app->booted(...)`: `$sprout->bootOverrides(...)`. */
  datatype BootedCallback = BootOverrides(sprout: Sprout)

  class Application {
    const config: Config
    const events: Dispatcher
    var bootedCallbacks: seq<BootedCallback>

    constructor (config: Config, events: Dispatcher)
      ensures this.config == config && this.events == events && bootedCallbacks == []
    {
      this.config := config;
      this.events := events;
      bootedCallbacks := [];
    }

    /** `Application::booted($callback)`: the callback is queued to run once
        the application has booted. */
    method Booted(callback: BootedCallback)
      modifies this
      ensures bootedCallbacks == old(bootedCallbacks) + [callback]
    {
      bootedCallbacks := bootedCallbacks + [callback];
    }
  }
}
