/** `Sprout\Managers\IdentityResolverManager`: the factory that builds identity
    resolvers from the `multitenancy.resolvers` configuration. The generic
    factory behaviour it inherits (`BaseFactory`: driver dispatch, caching) is
    not part of this model. */
module IdentityResolvers {
  import opened Wrappers

  /** A configuration value as the manager reads it: PHP `null` or a string. */
  datatype ConfigValue = Null | Str(s: string)

  /** One resolver's configuration array. */
  type ResolverConfig = map<string, ConfigValue>

  /** The subdomain resolver's constructor arguments. */
  datatype SubdomainIdentityResolver =
    SubdomainIdentityResolver(name: string, domain: string, pattern: Option<string>, parameter: Option<string>)

  /** `InvalidArgumentException` and its message. */
  datatype ConfigError = InvalidArgument(message: string)

  const ConfigPrefix: string := "multitenancy.resolvers."

  /** `getFactoryName()`: the resolver factory is always called "resolver". */
  function GetFactoryName(): (r: string)
    ensures r == "resolver"
  {
    "resolver"
  }

  /** `getConfigKey($name)`: the key starts with the resolvers' prefix and the
      rest of it is exactly the resolver's name. */
  function GetConfigKey(name: string): (key: string)
    ensures |key| == |ConfigPrefix| + |name|
    ensures key[..|ConfigPrefix|] == ConfigPrefix
    ensures key[|ConfigPrefix|..] == name
  {
    ConfigPrefix + name
  }

  /** The resolver name a config key belongs to, if it is a resolver's key. */
  function ResolverName(key: string): (r: Option<string>)
  {
    if |ConfigPrefix| <= |key| && key[..|ConfigPrefix|] == ConfigPrefix then Some(key[|ConfigPrefix|..]) else None
  }

  /** `ResolverName` undoes `GetConfigKey`, and every key it accepts is one
      `GetConfigKey` builds. */
  lemma ConfigKeyRoundTrip(name: string, key: string)
    ensures ResolverName(GetConfigKey(name)) == Some(name)
    ensures ResolverName(key) == Some(name) ==> GetConfigKey(name) == key
  {
    if ResolverName(key) == Some(name) {
      assert key == key[..|ConfigPrefix|] + key[|ConfigPrefix|..];
    }
  }

  /** Distinct resolver names have distinct config keys. */
  lemma ConfigKeyInjective(a: string, b: string)
    ensures GetConfigKey(a) == GetConfigKey(b) ==> a == b
  {
    ConfigKeyRoundTrip(a, GetConfigKey(b));
  }

  /** `isset($config[$key])`: present and not null. */
  predicate IsSet(config: ResolverConfig, key: string)
  {
    key in config && config[key] != Null
  }

  /** `$config[$key] ?? null`. */
  function OrNull(config: ResolverConfig, key: string): Option<string>
  {
    if IsSet(config, key) then Some(config[key].s) else None
  }

  /** The text of the missing-domain message before the resolver's name. */
  const NoDomainPrefix: string := "No domain provided for resolver ["

  /** The message of the missing-domain error. */
  function NoDomainMessage(name: string): string
  {
    NoDomainPrefix + name + "]"
  }

  /** The missing-domain message names the resolver: different resolvers give
      different messages, and the name sits between the brackets. */
  lemma NoDomainMessageNamesResolver(a: string, b: string)
    ensures NoDomainMessage(a)[..|NoDomainPrefix|] == NoDomainPrefix
    ensures NoDomainMessage(a)[|NoDomainPrefix|..|NoDomainMessage(a)| - 1] == a
    ensures NoDomainMessage(a) == NoDomainMessage(b) ==> a == b
  {
    var m := NoDomainMessage(a);
    assert m[|NoDomainPrefix|..|m| - 1] == a;
  }

  /** `createSubdomainResolver($config, $name)`: without a non-null domain the
      configuration is rejected with the missing-domain message; otherwise the
      resolver carries the name, the configured domain, and the configured
      pattern and parameter, null where absent or null. */
  function CreateSubdomainResolver(config: ResolverConfig, name: string): (r: Result<SubdomainIdentityResolver, ConfigError>)
    ensures r.Failure? <==> !("domain" in config && config["domain"].Str?)
    ensures r.Failure? ==> r.error == InvalidArgument(NoDomainMessage(name))
    ensures r.Success? ==>
              r.value.name == name && config["domain"] == Str(r.value.domain)
    ensures r.Success? ==>
              (r.value.pattern.None? <==> "pattern" !in config || config["pattern"] == Null) &&
              (r.value.pattern.Some? ==> config["pattern"] == Str(r.value.pattern.value))
    ensures r.Success? ==>
              (r.value.parameter.None? <==> "parameter" !in config || config["parameter"] == Null) &&
              (r.value.parameter.Some? ==> config["parameter"] == Str(r.value.parameter.value))
  {
    if !IsSet(config, "domain") then
      Failure(InvalidArgument(NoDomainMessage(name)))
    else
      Success(SubdomainIdentityResolver(name, config["domain"].s, OrNull(config, "pattern"), OrNull(config, "parameter")))
  }
}
