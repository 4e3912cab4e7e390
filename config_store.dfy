/**
 * The module-level configuration hash shared in shape by `SZMGMT` and
 * `SZMGMT::SZONES`: a hash whose key set is fixed by its defaults and a
 * `configure(opts)` that copies in the entries of `opts` whose key, turned
 * into a symbol, is one of those keys.
 */
module ConfigStore {
  import opened Common

  /** A key of `opts`: a symbol, or a string (as loaded from JSON). */
  datatype Key = Sym(name: string) | Str(name: string)

  /** The values kept in the configuration hashes. */
  datatype Value = Text(text: string) | Texts(items: seq<string>) | Nil | Other(repr: string)

  /** `key.to_sym`: symbols and strings of the same spelling become the same key. */
  function ToSym(k: Key): string {
    k.name
  }

  /** `hash[key]`: a missing key reads as `nil`. */
  function Lookup(config: map<string, Value>, key: string): (v: Value)
    ensures key !in config ==> v == Nil
  {
    if key in config then config[key] else Nil
  }

  /** The hash after `configure(opts)`, the entries of `opts` applied in order. */
  function Configured(config: map<string, Value>, valid: set<string>, opts: seq<(Key, Value)>): (r: map<string, Value>)
    ensures config.Keys <= r.Keys <= config.Keys + valid
    decreases |opts|
  {
    if |opts| == 0 then config
    else
      var before := Configured(config, valid, opts[..|opts| - 1]);
      var (k, v) := opts[|opts| - 1];
      if ToSym(k) in valid then before[ToSym(k) := v] else before
  }

  /** The value of the last entry of `opts` whose key is spelled `name`, if any. */
  function LastValue(opts: seq<(Key, Value)>, name: string): (r: Option<Value>)
    ensures r.None? <==> forall i :: 0 <= i < |opts| ==> ToSym(opts[i].0) != name
    ensures r.Some? ==> exists i :: 0 <= i < |opts| && ToSym(opts[i].0) == name && opts[i].1 == r.value
                                   && forall j :: i < j < |opts| ==> ToSym(opts[j].0) != name
    decreases |opts|
  {
    if |opts| == 0 then None
    else if ToSym(opts[|opts| - 1].0) == name then Some(opts[|opts| - 1].1)
    else
      var r := LastValue(opts[..|opts| - 1], name);
      assert forall k :: 0 <= k < |opts| - 1 ==> opts[..|opts| - 1][k] == opts[k];
      r
  }

  /**
   * What `configure` leaves under each key: the value of the last entry
   * naming a valid key, and the old value for every other key.
   */
  lemma {:induction false} ConfiguredEntry(config: map<string, Value>, valid: set<string>, opts: seq<(Key, Value)>, name: string)
    ensures name in Configured(config, valid, opts) <==> name in config || (name in valid && LastValue(opts, name).Some?)
    ensures name in Configured(config, valid, opts) ==>
              Configured(config, valid, opts)[name] ==
                if name in valid && LastValue(opts, name).Some? then LastValue(opts, name).value else config[name]
    decreases |opts|
  {
    if |opts| > 0 {
      ConfiguredEntry(config, valid, opts[..|opts| - 1], name);
    }
  }

  /** When the hash holds exactly the valid keys, `configure` never adds or drops a key. */
  lemma ConfiguredKeys(config: map<string, Value>, opts: seq<(Key, Value)>)
    ensures Configured(config, config.Keys, opts).Keys == config.Keys
  {
    forall name | name in Configured(config, config.Keys, opts) || name in config
      ensures name in Configured(config, config.Keys, opts) <==> name in config
    {
      ConfiguredEntry(config, config.Keys, opts, name);
    }
  }

  /** Keys that no entry names, or that are not valid, keep their values. */
  lemma ConfiguredLeavesOthers(config: map<string, Value>, valid: set<string>, opts: seq<(Key, Value)>, name: string)
    requires name in config
    requires name !in valid || forall i :: 0 <= i < |opts| ==> ToSym(opts[i].0) != name
    ensures name in Configured(config, valid, opts) && Configured(config, valid, opts)[name] == config[name]
  {
    ConfiguredEntry(config, valid, opts, name);
  }

  /** Applying the same options twice is the same as applying them once. */
  lemma ConfiguredIdempotent(config: map<string, Value>, valid: set<string>, opts: seq<(Key, Value)>)
    ensures Configured(Configured(config, valid, opts), valid, opts) == Configured(config, valid, opts)
  {
    var once := Configured(config, valid, opts);
    var twice := Configured(once, valid, opts);
    forall name | name in once || name in twice
      ensures name in once && name in twice && twice[name] == once[name]
    {
      ConfiguredEntry(config, valid, opts, name);
      ConfiguredEntry(once, valid, opts, name);
    }
  }

  /** A configuration hash with the key set fixed at creation. */
  class Store {
    var configuration: map<string, Value>
    const validKeys: set<string>

    ghost predicate Valid()
      reads this
    {
      configuration.Keys == validKeys
    }

    /** `@configuration = defaults` followed by `@valid_config_keys = @configuration.keys`. */
    constructor (defaults: map<string, Value>)
      ensures Valid() && configuration == defaults && validKeys == defaults.Keys
    {
      configuration := defaults;
      validKeys := defaults.Keys;
    }

    /** `configuration`: the current hash, holding exactly the valid keys. */
    function Configuration(): (c: map<string, Value>)
      requires Valid()
      reads this
      ensures c.Keys == validKeys
    {
      configuration
    }

    /** `configure(opts)`: an in-place update of the entries whose keys are valid. */
    method Configure(opts: seq<(Key, Value)>)
      requires Valid()
      modifies this
      ensures Valid()
      ensures configuration == Configured(old(configuration), validKeys, opts)
    {
      var i := 0;
      while i < |opts|
        invariant 0 <= i <= |opts|
        invariant configuration == Configured(old(configuration), validKeys, opts[..i])
        invariant configuration.Keys == validKeys
      {
        var (key, value) := opts[i];
        assert opts[..i + 1][..i] == opts[..i];
        if ToSym(key) in validKeys {
          configuration := configuration[ToSym(key) := value];
        }
        i := i + 1;
      }
      assert opts[..i] == opts;
    }
  }
}
