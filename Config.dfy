/** Connection configuration: `parseConnectionObject` in index.js. */
module Config {
  import opened Wrappers
  import Js

  const DefaultNamespace := "rr"
  const DefaultPort := 6379

  /** The caller's configuration object; every property may be missing.
      `options` is passed through to the store client untouched. */
  datatype Config = Config(
    host: Option<string>,
    port: Option<int>,
    namespace: Option<string>,
    options: Option<map<string, string>>)

  datatype StoreOptions = StoreOptions(port: int, host: string, options: map<string, string>)

  datatype Opts = Opts(namespace: string, store: StoreOptions)

  /** The only configuration error: `new Error('Invalid host.')`. */
  datatype ConfigError = InvalidHost

  /** Validates and defaults a configuration. Construction fails exactly when
      `host` is falsy; otherwise namespace falls back to "rr", port to 6379
      and options to an empty object, and the host is kept as given. */
  function ParseConnectionObject(config: Config): (r: Result<Opts, ConfigError>)
    ensures r.Failure? <==> !Js.Truthy(config.host)
    ensures r.Failure? ==> r.error == InvalidHost
    ensures r.Success? ==>
      && r.value.store.host == config.host.value
      && r.value.namespace == (if Js.Truthy(config.namespace) then config.namespace.value else DefaultNamespace)
      && r.value.store.port == (if Js.NumTruthy(config.port) then config.port.value else DefaultPort)
      && r.value.store.options == (if config.options.Some? then config.options.value else map[])
    ensures r.Success? ==> r.value.namespace != "" && r.value.store.host != "" && r.value.store.port != 0
  {
    if !Js.Truthy(config.host) then Failure(InvalidHost)
    else
      var namespace := Js.Or(config.namespace, DefaultNamespace);
      var port := if Js.NumTruthy(config.port) then config.port.value else DefaultPort;
      var options := if config.options.Some? then config.options.value else map[];
      Success(Opts(namespace, StoreOptions(port, config.host.value, options)))
  }
}
