/**
 * The configuration: a JSON document merged over the built-in defaults by
 * `merge_config`, which overlays a user mapping on a default mapping and
 * recurses only where both hold a mapping for the same key.
 */
module Config {
  import opened Wrappers

  /** A value `json.load` can produce: a mapping (`dict`) or anything else. */
  datatype Json =
    | Obj(members: map<string, Json>)
    | Arr(items: seq<Json>)
    | Str(s: string)
    | Int(i: int)
    | Real(r: real)
    | Bool(b: bool)
    | Null

  /** The `CONFIG` the program starts with. */
  const Defaults: map<string, Json> := map[
    "osc" := Obj(map[
      "server_ip" := Str("127.0.0.1"),
      "server_port" := Int(9000),
      "address" := Str("/avatar/parameters/")]),
    "connection" := Obj(map[
      "timeout" := Real(20.0),
      "max_retries" := Int(5),
      "retry_delay" := Int(3),
      "scan_timeout" := Int(10),
      "scan_retry_interval" := Int(5),
      "maintain_interval" := Int(1)])]

  /** True when the default and the override both hold a mapping for `key`, the only case that recurses. */
  predicate BothObjects(defaults: map<string, Json>, user: map<string, Json>, key: string) {
    key in user && user[key].Obj? && key in defaults && defaults[key].Obj?
  }

  /** The merged mapping `merge_config(defaults, user)` returns. */
  function Merge(defaults: map<string, Json>, user: map<string, Json>): (r: map<string, Json>)
    decreases Obj(user)
    ensures r.Keys == defaults.Keys + user.Keys
    ensures forall k :: k in defaults && k !in user ==> r[k] == defaults[k]
    ensures forall k :: k in user && !BothObjects(defaults, user, k) ==> r[k] == user[k]
    ensures forall k :: BothObjects(defaults, user, k) ==>
      r[k].Obj? && r[k].members.Keys == defaults[k].members.Keys + user[k].members.Keys
  {
    map k | k in defaults.Keys + user.Keys ::
      if BothObjects(defaults, user, k) then Obj(Merge(defaults[k].members, user[k].members))
      else if k in user then user[k]
      else defaults[k]
  }

  /** What `merge_config` stores under `key` when the override holds `value` there. */
  function Overlay(defaults: map<string, Json>, key: string, value: Json): Json {
    if value.Obj? && key in defaults && defaults[key].Obj? then Obj(Merge(defaults[key].members, value.members))
    else value
  }

  /**
   * `merge_config` as written: copy the defaults, then assign every key of the
   * override in turn, recursing where both sides hold a mapping.
   */
  method MergeConfig(defaults: map<string, Json>, user: map<string, Json>) returns (result: map<string, Json>)
    decreases Obj(user)
    ensures result == Merge(defaults, user)
  {
    result := defaults;
    var pending := user.Keys;
    while pending != {}
      invariant pending <= user.Keys
      invariant result == Merge(defaults, user - pending)
      decreases pending
    {
      var key :| key in pending;
      var value := user[key];
      var entry;
      if value.Obj? && key in result && result[key].Obj? {
        assert result[key] == defaults[key];
        var merged := MergeConfig(result[key].members, value.members);
        entry := Obj(merged);
      } else {
        entry := value;
      }
      MergeStep(defaults, user, pending, key, result, entry);
      result := result[key := entry];
      pending := pending - {key};
    }
    assert user - pending == user;
  }

  /** One turn of the loop in `MergeConfig` keeps its result equal to the merge of the keys assigned so far. */
  lemma MergeStep(defaults: map<string, Json>, user: map<string, Json>, pending: set<string>,
                  key: string, result: map<string, Json>, entry: Json)
    requires key in pending && pending <= user.Keys
    requires result == Merge(defaults, user - pending)
    requires entry == Overlay(defaults, key, user[key])
    ensures result[key := entry] == Merge(defaults, user - (pending - {key}))
  {
  }

  /** An override that is empty leaves the defaults as they are. */
  lemma MergeEmptyOverride(defaults: map<string, Json>)
    ensures Merge(defaults, map[]) == defaults
  {
  }

  /** Over empty defaults the override is taken as it is. */
  lemma MergeOverEmpty(user: map<string, Json>)
    ensures Merge(map[], user) == user
  {
  }

  /** Merging a configuration with itself gives it back, at every depth. */
  lemma {:induction false} MergeIdempotent(config: map<string, Json>)
    decreases Obj(config)
    ensures Merge(config, config) == config
  {
    var r := Merge(config, config);
    forall k | k in config
      ensures r[k] == config[k]
    {
      if config[k].Obj? {
        MergeIdempotent(config[k].members);
      }
    }
  }

  /** The value reached in `config` by following the keys of `path`, one nesting level per key. */
  function Lookup(config: map<string, Json>, path: seq<string>): Option<Json>
    decreases |path|
  {
    if path == [] || path[0] !in config then None
    else if |path| == 1 then Some(config[path[0]])
    else if config[path[0]].Obj? then Lookup(config[path[0]].members, path[1..])
    else None
  }

  /** Nothing in `user` lies on `path`, except mappings that the merge descends into. */
  predicate Untouched(user: map<string, Json>, path: seq<string>)
    decreases |path|
  {
    |path| > 0 &&
    (path[0] !in user || (|path| > 1 && user[path[0]].Obj? && Untouched(user[path[0]].members, path[1..])))
  }

  /** A setting the override does not reach keeps its default value, however deep it is. */
  lemma {:induction false} MergeKeepsDefault(defaults: map<string, Json>, user: map<string, Json>, path: seq<string>)
    requires Lookup(defaults, path).Some? && Untouched(user, path)
    ensures Lookup(Merge(defaults, user), path) == Lookup(defaults, path)
    decreases |path|
  {
    var k := path[0];
    var r := Merge(defaults, user);
    if k in user {
      assert BothObjects(defaults, user, k);
      MergeKeepsDefault(defaults[k].members, user[k].members, path[1..]);
    } else {
      assert r[k] == defaults[k];
    }
  }

  /** A value of the override that is not a mapping replaces whatever the defaults held there. */
  lemma {:induction false} MergeKeepsOverride(defaults: map<string, Json>, user: map<string, Json>, path: seq<string>)
    requires Lookup(user, path).Some? && !Lookup(user, path).value.Obj?
    ensures Lookup(Merge(defaults, user), path) == Lookup(user, path)
    decreases |path|
  {
    var k := path[0];
    var r := Merge(defaults, user);
    if BothObjects(defaults, user, k) {
      MergeKeepsOverride(defaults[k].members, user[k].members, path[1..]);
    } else {
      assert r[k] == user[k];
    }
  }

  /** What reading the configuration file can give `initialize_config`. */
  datatype ConfigFile =
    | Missing           // the file does not exist, so `open` raises
    | Malformed         // `json.load` raises `JSONDecodeError`
    | Loaded(content: Json)

  /**
   * `initialize_config`: the configuration after reading the file. Every failure,
   * including a file whose JSON is not an object (`merge_config` then raises on
   * `.items()`), is caught and leaves the configuration as it was.
   */
  function InitializeConfig(current: map<string, Json>, file: ConfigFile): (config: map<string, Json>)
    ensures current.Keys <= config.Keys
    ensures !(file.Loaded? && file.content.Obj?) ==> config == current
  {
    if file.Loaded? && file.content.Obj? then Merge(current, file.content.members) else current
  }

  /** Every setting of the built-in `CONFIG`, read back by its path. */
  lemma DefaultSettings()
    ensures Lookup(Defaults, ["osc", "server_ip"]) == Some(Str("127.0.0.1"))
    ensures Lookup(Defaults, ["osc", "server_port"]) == Some(Int(9000))
    ensures Lookup(Defaults, ["osc", "address"]) == Some(Str("/avatar/parameters/"))
    ensures Lookup(Defaults, ["connection", "timeout"]) == Some(Real(20.0))
    ensures Lookup(Defaults, ["connection", "max_retries"]) == Some(Int(5))
    ensures Lookup(Defaults, ["connection", "retry_delay"]) == Some(Int(3))
    ensures Lookup(Defaults, ["connection", "scan_timeout"]) == Some(Int(10))
    ensures Lookup(Defaults, ["connection", "scan_retry_interval"]) == Some(Int(5))
    ensures Lookup(Defaults, ["connection", "maintain_interval"]) == Some(Int(1))
  {
  }

  /** Overriding one connection setting changes that setting and leaves its neighbours at their defaults. */
  lemma OverrideMaxRetries(n: int)
    ensures var config := InitializeConfig(Defaults, Loaded(Obj(map["connection" := Obj(map["max_retries" := Int(n)])])));
      && Lookup(config, ["connection", "max_retries"]) == Some(Int(n))
      && Lookup(config, ["connection", "retry_delay"]) == Some(Int(3))
      && Lookup(config, ["osc", "server_port"]) == Some(Int(9000))
  {
    var user := map["connection" := Obj(map["max_retries" := Int(n)])];
    assert InitializeConfig(Defaults, Loaded(Obj(user))) == Merge(Defaults, user);
    DefaultSettings();
    assert Lookup(user, ["connection", "max_retries"]) == Some(Int(n));
    MergeKeepsOverride(Defaults, user, ["connection", "max_retries"]);
    assert Untouched(user, ["connection", "retry_delay"]);
    MergeKeepsDefault(Defaults, user, ["connection", "retry_delay"]);
    assert Untouched(user, ["osc", "server_port"]);
    MergeKeepsDefault(Defaults, user, ["osc", "server_port"]);
  }
}
