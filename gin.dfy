/** The part of the web framework's per-request context that the identity
    middleware reads and writes: the request's headers, the key/value store
    that handlers share (`c.Set` / `c.Get`), and whether the request was
    aborted with an error response, with which status and message. */
module Gin {

  datatype Option<T> = None | Some(value: T)

  /** A value kept in the context store. Go stores values of type `any`; the
      only type the middleware cares about is `int`, so every other dynamic
      type is `Other`, named by its type, and `Nil` is a stored `nil`. */
  datatype Value = IntVal(n: int) | Nil | Other(typeName: string)

  /** What `AbortWithStatusJSON(status, {"message": message})` leaves behind. */
  datatype Abort = Abort(status: int, message: string)

  class Context {
    /** The request's headers, by canonical name, first value only. */
    const headers: map<string, string>
    /** The context's key/value store. */
    var keys: map<string, Value>
    /** None while the request may proceed; the error response once aborted. */
    var aborted: Option<Abort>

    /** A fresh context for a request carrying `headers`. */
    constructor (headers: map<string, string>)
      ensures this.headers == headers
      ensures keys == map[] && aborted == None
    {
      this.headers := headers;
      keys := map[];
      aborted := None;
    }

    /** `c.GetHeader(key)`: the header's value, or "" when it is absent, so
        an absent header and an empty one look the same to the caller. */
    function GetHeader(key: string): (v: string)
      ensures key in headers ==> v == headers[key]
      ensures key !in headers ==> v == ""
    {
      if key in headers then headers[key] else ""
    }

    /** `c.Set(key, value)`: stores one entry and leaves the others. */
    method Set(key: string, value: Value)
      modifies this`keys
      ensures keys == old(keys)[key := value]
      ensures aborted == old(aborted)
    {
      keys := keys[key := value];
    }

    /** `c.Get(key)`: the stored value and whether the key exists; a missing
        key reads as `nil`. */
    method Get(key: string) returns (value: Value, ok: bool)
      ensures ok <==> key in keys
      ensures ok ==> value == keys[key]
      ensures !ok ==> value == Nil
    {
      ok := key in keys;
      value := if ok then keys[key] else Nil;
    }

    /** `c.AbortWithStatusJSON(status, {"message": message})`: marks the
        request aborted with that status and message; the store is untouched. */
    method AbortWithStatusJSON(status: int, message: string)
      modifies this`aborted
      ensures aborted == Some(Abort(status, message))
      ensures keys == old(keys)
    {
      aborted := Some(Abort(status, message));
    }
  }
}
