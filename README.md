# Request identity middleware of the todo-app service

This project models the identity middleware of a multi-user task-list
service written in Go on the gin web framework, and proves properties about
it in Dafny:

- `userIdentity` reads the request's `Authorization` header. It rejects an
  empty header with 401 "No authorization header". It cuts the header at its
  first space (`strings.SplitN(header, " ", 2)`) and rejects a header that
  does not split into exactly the case-sensitive scheme `Bearer` and a rest
  with 401 "Invalid authorization header". It passes the rest to the token
  service's `ParseToken` and rejects a token error with that same 401
  message. Otherwise it stores the returned user id in the request context
  under `"userId"`.
- `getUserId` reads that entry back. When the entry is missing, or holds a
  value that is not an `int`, it aborts with 500 "User id not found" and
  returns `(0, error)`.

Layout:

- `strings.dfy` (module `Strings`): `Index` and `SplitN2`, the two pieces of
  Go's `strings` package that the header split depends on. `SplitN2` is
  characterised by its contract and by the uniqueness lemma `SplitN2Unique`.
- `gin.dfy` (module `Gin`): the per-request `Context` class. It holds the
  request headers, the key/value store that `c.Set`/`c.Get` use, and the
  abort record (status and message) that `AbortWithStatusJSON` writes.
- `handler.dfy` (module `Handler`): `Decide`, a pure function for the
  accept/reject decision of `userIdentity`. Beside it is a split-free
  reference description (`DecideByPrefix`: the header starts with exactly
  `"Bearer "`) and lemmas built on it. The methods `UserIdentity`,
  `GetUserId` and `NewErrorResponse` update a `Context` step by step, as the
  Go code does, and are proved against `Decide` and `UserIdOf`.

`ParseToken` is a parameter of type `string -> TokenResult`: any total
function from the token text to a user id or an error. The claim that
`ParseToken` is "not consulted" on an empty or malformed header is stated as
independence (`ParserSeesOnlyToken`): the outcome is the same for every
parser in that case.

## Model

| member | source | states |
|---|---|---|
| `Strings.Index` | internal/handler/middleware.go:23 | the separator search used by the split: -1 exactly when the character is absent, otherwise a position holding it with no earlier occurrence |
| `Strings.IndexOfFirst` | internal/handler/middleware.go:23 | any position holding the character with none before it is the one `Index` returns |
| `Strings.SplitN2` | internal/handler/middleware.go:23 | `SplitN(s, " ", 2)` gives one or two parts; two exactly when `s` has a space; one part is `s` itself; with two, the first has no space and `first + " " + second == s` |
| `Strings.SplitN2Unique` | internal/handler/middleware.go:23 | any way to write `s` as space-free head, one space and a tail is the split `SplitN2` returns (so the second part is everything after the first space) |
| `Gin.Context.GetHeader` | internal/handler/middleware.go:17 | `c.GetHeader` returns the header's value when the request carries it and "" when it is absent, so a missing header takes the "No authorization header" path |
| `Gin.Context.Set` | internal/handler/middleware.go:35 | `c.Set` stores one entry, leaves every other entry and the abort state as they were |
| `Gin.Context.Get` | internal/handler/middleware.go:39 | `c.Get` reports whether the key exists and returns its stored value, or `nil` when it is missing |
| `Gin.Context.AbortWithStatusJSON` | internal/handler/response.go:18 | the request is marked aborted with that status and message; the store is untouched |
| `Handler.NewErrorResponse` | internal/handler/response.go:16-19 | aborts with the given status and message and leaves the context store unchanged |
| `Handler.Decide` | internal/handler/middleware.go:16-36 | an empty header is always rejected; every rejection has status 401; its message is "No authorization header" exactly for the empty header and "Invalid authorization header" otherwise |
| `Handler.SchemePartIsPrefix` | internal/handler/middleware.go:23-24 | a first split part equal to `Bearer` means the header starts with `"Bearer "`, and the second part is everything after that prefix |
| `Handler.DecideByPrefix` | internal/handler/middleware.go:17-33 | split-free description of the decision: empty header gives "No authorization header"; no `"Bearer "` prefix gives "Invalid authorization header"; otherwise ParseToken's answer on the rest, with an error mapped to "Invalid authorization header" |
| `Handler.SchemeIsCaseSensitive` | internal/handler/middleware.go:24-26 | `"bearer " + token` is rejected with 401 "Invalid authorization header" for every token and every parser |
| `Handler.HeaderWithoutSpaceRejected` | internal/handler/middleware.go:23-26 | a non-empty header without a space is rejected with 401 "Invalid authorization header" |
| `Handler.TokenIsRemainder` | internal/handler/middleware.go:23-33 | for `"Bearer " + token`, with the token possibly empty or holding spaces, the outcome is exactly ParseToken's answer on that token |
| `Handler.TokenErrorLooksMalformed` | internal/handler/middleware.go:24-32 | a token that ParseToken rejects and a malformed header give the same response, so the caller cannot tell them apart |
| `Handler.ParserSeesOnlyToken` | internal/handler/middleware.go:17-32 | two parsers that agree on the bearer token give the same outcome; without the bearer prefix, every parser gives the same outcome (ParseToken is not consulted) |
| `Handler.IdentityRoundTrip` | internal/handler/middleware.go:35-51 | when ParseToken accepts the token as `u`, `"Bearer " + token` is accepted as `u`, the resulting store makes `getUserId`'s lookup find exactly `u`, and every other entry is unchanged |
| `Handler.UserIdentity` | internal/handler/middleware.go:16-36 | on a rejection the request is aborted with the rejection's 401 response and the store is unchanged; on acceptance `"userId"` is set to the parsed id, no other entry changes and no abort happens |
| `Handler.GetUserId` | internal/handler/middleware.go:38-52 | the store is never changed; a stored `int` id is returned with no error and no abort; a missing entry or a non-`int` value returns 0 and "User id not found" and aborts with 500 |
| `Handler.IdentityThenUserId` | internal/handler/middleware.go:35-51 | on a fresh request the handler behind the middleware runs exactly when `userIdentity` accepted it; then `getUserId` returns the parsed id with no error and no abort; otherwise the 401 response stands; in both cases the store is the one `userIdentity` left |

## Left out

- The JWT implementation of `ParseToken` (signature, expiry, claims): it is a function parameter. The token service's files are not part of this model.
- List and item ownership checks: they are not in the modelled files.
- Logging in `newErrorResponse` and the JSON rendering of the error body: only the recorded status and message are modelled.
- Header lookup: `Gin.Context.GetHeader` looks the name up exactly in a map of first values. The case-insensitive, canonicalised header names of Go's `net/http` and multiple values per header are not modelled. An absent header and an empty one both read as "", as in Go.
- `Gin.Context.AbortWithStatusJSON`: a second abort overwrites the recorded status and message. gin keeps the first status written and appends the bodies. Within `IdentityThenUserId` no request is aborted twice, because the handler runs only on a request that was not aborted.
- The general middleware chain (handler indexes, `c.Next`) is not modelled. `IdentityThenUserId` is the one route shape the core serves: the middleware, then a handler that runs only when the request was not aborted.
- Byte strings: Go strings are bytes, while a Dafny `string` is a sequence of characters, so `Strings.Index` positions are character positions. This changes nothing observable here: the separator is the ASCII space, which never occurs inside a multi-byte UTF-8 sequence, and `Bearer` is ASCII.
- Go's 64-bit `int` width for user ids: ids are unbounded integers. The core only stores and returns them and never computes with them.
- The mutex inside gin's `c.Set`/`c.Get` and concurrent requests: one request's context is modelled, used sequentially.
- HTTP server start-up and shutdown (`server.go`), configuration and wiring (`cmd/main.go`), the database connection (`internal/repository/postgres.go`) and the `User` record (`user.go`): these are plumbing with no logic to verify.
