/** The configuration store: the start-up load decision (with its
    stale-schema guard), whole-record replacement, and persistence of
    every change under one storage key. Parsing and serialising the
    stored text are parameters; browser storage is a map from keys to
    strings. */
module ConfigContext {
  import opened Wrappers
  import opened ConfigTypes
  import opened Defaults

  /** The storage key the configuration is persisted under. */
  const StorageKey := "componentConfig"

  /** Start-up fails when the stored text does not parse: the initialiser
      does not catch the parse error. */
  datatype LoadError = UnparseableStoredConfig

  /** The initialiser's decision: the initial configuration, and whether
      it removed the stored record. */
  datatype Init = Init(config: Config, removeStored: bool)

  /** A stored record from an older schema: it has an interactive-typewriter
      section, but that section has no categories. */
  predicate Stale(c: Config) {
    c.interactiveTypewriter.Some? && c.interactiveTypewriter.value.categories.None?
  }

  /** The value `getItem` returns for `key`. */
  function Lookup(storage: map<string, string>, key: string): (r: Option<string>)
    ensures r.Some? <==> key in storage
    ensures r.Some? ==> r.value == storage[key]
  {
    if key in storage then Some(storage[key]) else None
  }

  /** The state initialiser. Without a window, or with nothing (or the
      empty string) stored, the result is the default. A stored record
      that parses is kept exactly as parsed unless it is stale, in which
      case it is removed and the default is used. */
  function Initialise(hasWindow: bool, saved: Option<string>, parse: string -> Option<Config>): (r: Result<Init, LoadError>)
    ensures !hasWindow || saved.None? || saved == Some("") ==> r == Ok(Init(DefaultConfig, false))
    ensures r.Err? <==> hasWindow && saved.Some? && saved.value != "" && parse(saved.value).None?
    ensures r.Ok? ==> !Stale(r.value.config)
    ensures r.Ok? ==> (r.value.removeStored <==>
              hasWindow && saved.Some? && saved.value != "" && parse(saved.value).Some? && Stale(parse(saved.value).value))
    ensures r.Ok? && r.value.config != DefaultConfig ==> saved.Some? && parse(saved.value) == Some(r.value.config)
  {
    if !hasWindow then Ok(Init(DefaultConfig, false))
    else if saved.None? || saved.value == "" then Ok(Init(DefaultConfig, false))
    else
      match parse(saved.value)
      case None => Err(UnparseableStoredConfig)
      case Some(parsed) =>
        if Stale(parsed) then Ok(Init(DefaultConfig, true))
        else Ok(Init(parsed, false))
  }

  /** A parseable stored record that is not stale is the initial
      configuration as it is, including one with no interactive-typewriter
      section at all. */
  lemma StoredRecordKept(saved: string, parse: string -> Option<Config>)
    requires saved != "" && parse(saved).Some?
    requires parse(saved).value.interactiveTypewriter.None?
             || parse(saved).value.interactiveTypewriter.value.categories.Some?
    ensures Initialise(true, Some(saved), parse) == Ok(Init(parse(saved).value, false))
  {
  }

  /** The configuration provider of a browser tab: the current
      configuration and the browser's storage. */
  class ConfigProvider {
    var config: Config
    var storage: map<string, string>
    const serialize: Config -> string

    /** Storage holds the serialisation of the current configuration. */
    ghost predicate Persisted()
      reads this
    {
      StorageKey in storage && storage[StorageKey] == serialize(config)
    }

    /** Mounting with the initialiser's decision `init`: the stored record
        is removed if the initialiser said so, then the persist effect
        writes the initial configuration back. */
    constructor (init: Init, stored: map<string, string>, serialize: Config -> string)
      ensures this.serialize == serialize
      ensures config == init.config
      ensures storage == stored[StorageKey := serialize(init.config)]
      ensures Persisted()
    {
      var s := if init.removeStored then stored - {StorageKey} else stored;
      config := init.config;
      this.serialize := serialize;
      storage := s[StorageKey := serialize(init.config)];
      new;
      assert s[StorageKey := serialize(init.config)] == stored[StorageKey := serialize(init.config)];
    }

    /** `updateConfig`: replace the whole configuration (no merge), then
        persist it. */
    method UpdateConfig(newConfig: Config)
      modifies this
      ensures config == newConfig
      ensures storage == old(storage)[StorageKey := serialize(newConfig)]
      ensures Persisted()
    {
      config := newConfig;
      storage := storage[StorageKey := serialize(newConfig)];
    }
  }

  /** Start-up in a browser tab: run the initialiser on what storage holds
      and mount the provider, or fail when the stored text does not
      parse. */
  method Mount(stored: map<string, string>, parse: string -> Option<Config>, serialize: Config -> string)
    returns (r: Result<ConfigProvider, LoadError>)
    ensures r.Err? <==> Initialise(true, Lookup(stored, StorageKey), parse).Err?
    ensures r.Ok? ==> fresh(r.value)
    ensures r.Ok? ==> r.value.config == Initialise(true, Lookup(stored, StorageKey), parse).value.config
    ensures r.Ok? ==> r.value.Persisted() && r.value.serialize == serialize
    ensures r.Ok? ==> r.value.storage == stored[StorageKey := serialize(r.value.config)]
  {
    match Initialise(true, Lookup(stored, StorageKey), parse)
    case Err(e) =>
      r := Err(e);
    case Ok(init) =>
      var provider := new ConfigProvider(init, stored, serialize);
      r := Ok(provider);
  }
}
