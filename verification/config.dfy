/**
 * A server's configuration (matrix/config/config.cpp): a few keys are built
 * in (the server's own identity, constants, the time model's retry backoff);
 * any other key is looked up among the world's global variables under the
 * name "config." + key.
 */
module Config {
  import opened Wrappers
  import opened UntypedDicts
  import opened TimeModels

  /** What the world tells a server about itself. */
  datatype ServerConfig = ServerConfig(id: nat, hostname: string, pool: string)

  /** A key found nowhere, or a global of another type than the one asked
      for (`std::bad_any_cast`). */
  datatype ConfigError = KeyNotFound(key: string) | BadAnyCast(key: string)

  function GlobalName(key: string): string
  {
    "config." + key
  }

  /** The global standing for `key`, or an empty `Any`. */
  function TryGetGlobal(globals: map<string, Any>, key: string): (v: Any)
    ensures GlobalName(key) !in globals ==> v == Empty
    ensures GlobalName(key) in globals ==> v == globals[GlobalName(key)]
  {
    Lookup(globals, GlobalName(key))
  }

  predicate IsBuiltinString(key: string)
  {
    key == "pool.name" || key == "pool" || key == "db.path"
  }

  predicate IsBuiltinInt64(key: string)
  {
    key == "node.id" || key == "rpc.port" ||
    key == "rpc.backoff.init" || key == "rpc.backoff.max" || key == "rpc.backoff.factor"
  }

  function GetString(server: ServerConfig, globals: map<string, Any>, key: string): (r: Result<string, ConfigError>)
    ensures key == "pool.name" || key == "pool" ==> r == Success(server.pool)
    ensures key == "db.path" ==> r == Success("/db")
    ensures !IsBuiltinString(key) ==>
      (r.Success? <==> TryGetGlobal(globals, key).AnyString?) &&
      (r.Success? ==> r.value == TryGetGlobal(globals, key).s)
    ensures r == Failure(KeyNotFound(key)) <==> !IsBuiltinString(key) && TryGetGlobal(globals, key) == Empty
  {
    if key == "pool.name" || key == "pool" then Success(server.pool)
    else if key == "db.path" then Success("/db")
    else
      match TryGetGlobal(globals, key)
      case Empty => Failure(KeyNotFound(key))
      case AnyString(s) => Success(s)
      case _ => Failure(BadAnyCast(key))
  }

  function GetInt64(server: ServerConfig, tm: TimeModel, globals: map<string, Any>, key: string): (r: Result<int, ConfigError>)
    ensures key == "node.id" ==> r == Success(server.id)
    ensures key == "rpc.port" ==> r == Success(42)
    ensures key == "rpc.backoff.init" ==> r == Success(BackoffParams(tm).init)
    ensures key == "rpc.backoff.max" ==> r == Success(BackoffParams(tm).max)
    ensures key == "rpc.backoff.factor" ==> r == Success(BackoffParams(tm).factor)
    ensures !IsBuiltinInt64(key) ==>
      (r.Success? <==> TryGetGlobal(globals, key).AnyInt64?) &&
      (r.Success? ==> r.value == TryGetGlobal(globals, key).i)
    ensures r == Failure(KeyNotFound(key)) <==> !IsBuiltinInt64(key) && TryGetGlobal(globals, key) == Empty
  {
    if key == "node.id" then Success(server.id)
    else if key == "rpc.port" then Success(42)
    else if key == "rpc.backoff.init" then Success(BackoffParams(tm).init)
    else if key == "rpc.backoff.max" then Success(BackoffParams(tm).max)
    else if key == "rpc.backoff.factor" then Success(BackoffParams(tm).factor)
    else
      match TryGetGlobal(globals, key)
      case Empty => Failure(KeyNotFound(key))
      case AnyInt64(i) => Success(i)
      case _ => Failure(BadAnyCast(key))
  }

  /** Booleans have no built-in keys: only the globals are consulted. */
  function GetBool(globals: map<string, Any>, key: string): (r: Result<bool, ConfigError>)
    ensures r.Success? <==> TryGetGlobal(globals, key).AnyBool?
    ensures r.Success? ==> r.value == TryGetGlobal(globals, key).b
    ensures r == Failure(KeyNotFound(key)) <==> TryGetGlobal(globals, key) == Empty
  {
    match TryGetGlobal(globals, key)
    case Empty => Failure(KeyNotFound(key))
    case AnyBool(b) => Success(b)
    case _ => Failure(BadAnyCast(key))
  }

  /** Built-in keys shadow globals: setting the global "config." + key of a
      built-in key changes nothing, while for any other key that global is
      what is read. */
  lemma BuiltinsShadowGlobals(server: ServerConfig, tm: TimeModel, globals: map<string, Any>, key: string, v: Any)
    ensures var g := globals[GlobalName(key) := v];
      (IsBuiltinString(key) ==> GetString(server, g, key) == GetString(server, globals, key)) &&
      (IsBuiltinInt64(key) ==> GetInt64(server, tm, g, key) == GetInt64(server, tm, globals, key)) &&
      (!IsBuiltinString(key) && v.AnyString? ==> GetString(server, g, key) == Success(v.s)) &&
      (!IsBuiltinInt64(key) && v.AnyInt64? ==> GetInt64(server, tm, g, key) == Success(v.i)) &&
      (v.AnyBool? ==> GetBool(g, key) == Success(v.b))
  {
  }
}
