/** The application's key/value preference store (Android's SharedPreferences),
    reduced to the three kinds of value the modelled code reads and writes. */
module Preferences {

  datatype Option<+T> = None | Some(value: T) {
    /** Kotlin's elvis operator `?:` on a nullable value */
    function OrElse(default: T): T {
      match this
      case Some(v) => v
      case None => default
    }
  }

  /** A typed getter that finds a value of another kind throws a ClassCastException */
  datatype ReadError = WrongKind(key: string)

  datatype Result<+T> = Ok(value: T) | Err(error: ReadError)

  datatype PrefValue = Str(s: string) | Bool(b: bool) | StrSet(items: set<string>)

  type Store = map<string, PrefValue>

  /** `getString(key, null)`: the stored string, or null when the key is absent */
  function GetString(store: Store, key: string): (r: Result<Option<string>>)
    ensures r.Err? <==> key in store && !store[key].Str?
    ensures r == Ok(None) <==> key !in store
    ensures r.Ok? && r.value.Some? ==> key in store && store[key] == Str(r.value.value)
  {
    if key !in store then Ok(None)
    else match store[key]
      case Str(s) => Ok(Some(s))
      case _ => Err(WrongKind(key))
  }

  /** `getStringSet(key, null)`: the stored set, or null when the key is absent */
  function GetStringSet(store: Store, key: string): (r: Result<Option<set<string>>>)
    ensures r.Err? <==> key in store && !store[key].StrSet?
    ensures r == Ok(None) <==> key !in store
    ensures r.Ok? && r.value.Some? ==> key in store && store[key] == StrSet(r.value.value)
  {
    if key !in store then Ok(None)
    else match store[key]
      case StrSet(items) => Ok(Some(items))
      case _ => Err(WrongKind(key))
  }

  /** `getBoolean(key, default)` */
  function GetBoolean(store: Store, key: string, default: bool): (r: Result<bool>)
    ensures r.Err? <==> key in store && !store[key].Bool?
    ensures r.Ok? ==> r.value == if key in store then store[key].b else default
  {
    if key !in store then Ok(default)
    else match store[key]
      case Bool(b) => Ok(b)
      case _ => Err(WrongKind(key))
  }

  /** The shared store object: every `edit { ... }` block collects its puts in an
      editor and commits them together; a later put to a key overrides an earlier one. */
  class SharedPreferences {
    var values: Store

    constructor (initial: Store)
      ensures values == initial
    {
      values := initial;
    }

    /** Commits the pending puts of one editor */
    method Commit(pending: Store)
      modifies this
      ensures values == old(values) + pending
      ensures values.Keys == old(values).Keys + pending.Keys
      ensures forall k :: k in pending ==> values[k] == pending[k]
      ensures forall k :: k in old(values) && k !in pending ==> values[k] == old(values)[k]
    {
      values := values + pending;
    }
  }
}
