# Transaction handle of the ArangoDB Go driver, in Dafny

This project models the client-side transaction record of the ArangoDB Go
driver (`transaction_impl.go`): a handle that names the collections a
server-side JavaScript transaction reads and writes, accumulates the code it
runs and the parameters bound for it, copies durability, locking and
implicit-collection settings from the call context, and in `Execute` wraps
the code into a single `function(<params>){ <code> }` and sends it in one
request.

The record is an immutable datatype (`Transactions.Transaction`) and every
operation is a pure function of it:

- `wrappers.dfy` — `Option`, which also stands for a nil Go map or context.
- `gostrings.dfy` — `strings.Join(…, ",")` and the `%q` verb, each with an
  inverse (`SplitList`, `Unquote`) and a round-trip lemma.
- `context.dfy` — context values (`Bool`, `Int`, anything else), the three
  keys, and the `WithTransaction…` helpers.
- `transactions.dfy` — construction, `AddAQL`/`AddJSQuery` and their
  parameter merge, `applyContextSettings`, collection of the parameter names
  and the wrapping of the action.
- `execution.dfy` — `Execute` as a sequence of connection calls that stops at
  the first failure.
- `intended.dfy` — the corrected variants for the two findings below.

Modelling choices:

- A Go map with unspecified iteration order is ranged over in two places. For
  the merge, `RangeAssign` proves that every order gives `dst + src`. For the
  signature, `Execute` takes the order as a parameter, required to list every
  name exactly once (`IsKeyListing`), and `CollectParamKeys` proves that the
  loop always produces such a listing.
- `Params` is `Option<map<string, Value>>` because `newTransaction` leaves it
  nil. Writing to a nil map panics, so `AddAQL` and `AddJSQuery` require
  `Params.Some? || |params| == 0`.
- The context is `Option<map<string, CtxVal>>`, with `None` standing for a nil
  context. It maps each key to the value the nearest `WithValue` stored.
  `LookupBool` and `LookupInt` are specification helpers for
  `ctx.Value(key).(bool)` and `ctx.Value(key).(int)` (lines 153-154 and
  163-164), in which the contracts are written.
- A response `result` is a `RawResult`, a value other than JSON `null`. A
  `null` result decodes to a nil pointer just like a missing one (line 80),
  so both are `Parsed(None)`.
- The connection is outside the model. A `Connection` value gives the answer
  of each step, and a run records which connection operations were called.

Three facts about the code shape the model:

- `Execute` has a value receiver (line 99). The wrapping at lines 104-105
  changes only a copy, so the stored action is never rewritten, and a second
  call wraps the original action again, once (`Execution.ExecuteTwiceWrapsOnce`).
- `applyContextSettings` reads the wait-for-sync key for `AllowImplicit`
  (lines 153-155) and never reads the allow-implicit key (see "## Findings").
- The parameter names in the signature come in map iteration order
  (lines 101-103), which Go leaves unspecified, so the model accepts any
  listing of the keys.

## Model

| member | source | states |
|---|---|---|
| Context.WithValue | transaction_impl.go:44-45 | the derived context holds the parent's values (none for a nil parent) plus the one key, which maps to the new value; every other key keeps its value |
| Context.WithTransactionAllowImplicit | transaction_impl.go:38-46 | adds exactly the allow-implicit key to the (possibly nil) parent's values, holding `value[0]` or `true` when no value is given; all other keys keep their values |
| Context.WithTransactionWaitForSync | transaction_impl.go:48-56 | adds exactly the wait-for-sync key, holding `value[0]` or `true` by default; all other keys keep their values |
| Context.WithTransactionLockTimeout | transaction_impl.go:58-62 | adds exactly the lock-timeout key, holding the given int; all other keys keep their values |
| Transactions.NewTransaction | transaction_impl.go:83-91 | a new handle keeps the database and the read and write sets; the action is empty, every flag is false, the timeout is 0 and the parameter map is nil |
| Transactions.MergeParams | transaction_impl.go:133-135 | after the merge the bound names are the old ones plus the new ones; a new name takes its new value, every other name keeps its old one; a nil map stays nil (it can be merged only with nothing) |
| Transactions.RangeAssign | transaction_impl.go:142-144 | the assignment loop gives `dst` overridden by `src`, whatever order the map is ranged in |
| Transactions.AddAQL | transaction_impl.go:131-137 | appends `db.query(<quoted query>);` to the action, merges the parameters (the later value wins), leaves the collections, settings and database alone, and returns a nil error |
| Transactions.AddJSQuery | transaction_impl.go:139-146 | appends the code verbatim, merges the parameters (the later value wins), leaves the collections, settings and database alone, and returns a nil error |
| Transactions.AqlQueryRecoverable | transaction_impl.go:132 | the text `AddAQL` appends is a `db.query(…);` call from which the exact query can be read back |
| Transactions.LaterAddWins | transaction_impl.go:142-144 | when two successive calls bind the same name, the second call's value is the one kept |
| Transactions.AddFragment | transaction_impl.go:131-146 | either kind of call appends its code and merges its parameters, leaving the rest of the record alone |
| Transactions.BuildAccumulates | transaction_impl.go:131-146 | after any sequence of calls the action is the old action followed by every fragment's code in call order; the bound names are the old ones plus every call's names; each name holds the value of the last call that bound it; the collections and settings are unchanged |
| Transactions.BuildAction | transaction_impl.go:131-146 | after any sequence of calls the action is the old action followed by each call's code, in call order |
| Transactions.BuildFrame | transaction_impl.go:131-146 | no sequence of add calls changes the database, the collections, the wait-for-sync flag or the lock timeout |
| Transactions.BuildKeys | transaction_impl.go:133-135 | after any sequence of calls the bound names are the old ones plus every name any call bound |
| Transactions.BuildLookup | transaction_impl.go:142-144 | after any sequence of calls a name holds the value of the last call that bound it, or its old value if no call did |
| Transactions.ApplyContextSettings | transaction_impl.go:149-168 | a boolean under the wait-for-sync key sets both `allowImplicit` and `waitForSync`; an int under the lock-timeout key sets `lockTimeout`; a missing or wrongly typed value, or a nil context, keeps the old value; action, parameters, read and write sets are never touched |
| Transactions.ApplyNoSettings | transaction_impl.go:150-152 | a nil context, or one without a boolean wait-for-sync or int lock-timeout value, leaves the record unchanged |
| Transactions.ApplyIdempotent | transaction_impl.go:149-168 | applying the same context twice gives the same record as applying it once |
| Transactions.AllowImplicitIgnored | transaction_impl.go:153-157 | adding the allow-implicit key to a context changes nothing in the record it produces |
| Transactions.WaitForSyncSetsBoth | transaction_impl.go:153-162 | a context from `WithTransactionWaitForSync` sets both `waitForSync` and `allowImplicit` to the helper's value, and keeps the timeout the parent context gives |
| Transactions.LockTimeoutSets | transaction_impl.go:163-167 | a context from `WithTransactionLockTimeout` sets the timeout to its value and keeps the flags the parent context gives |
| Transactions.CollectParamKeys | transaction_impl.go:100-103 | ranging over the parameter map collects every bound name exactly once, in some order; a nil map gives none |
| Transactions.KeyListingSize | transaction_impl.go:100-103 | a listing of the bound names has exactly as many entries as there are names |
| Transactions.WrapAction | transaction_impl.go:104-105 | the wrapped action starts with `function(` and the joined parameter names, and ends with the unchanged body followed by ` }` |
| Transactions.UnwrapWrap | transaction_impl.go:104-105 | when every name is non-empty and free of `,` and `)`, the wrapped action reads back as exactly the listed parameter names, in order, and the unchanged body |
| Transactions.SignatureAmbiguous | transaction_impl.go:104-105 | as written, an empty key vanishes from the signature and a key containing a comma reads back as two names |
| GoStrings.Join | transaction_impl.go:105 | joining no names gives the empty string; the join starts with the first name, and every character other than a comma comes from one of the names |
| GoStrings.SplitListJoin | transaction_impl.go:105 | joining non-empty, comma-free names with `,` can be split back into the same list, the empty list included |
| GoStrings.Quote | transaction_impl.go:132 | a quoted string is enclosed in double quotes |
| GoStrings.UnquoteQuote | transaction_impl.go:132 | the quoted form of a query unquotes back to the query |
| GoStrings.QuoteInjective | transaction_impl.go:132 | different queries have different quoted forms |
| Execution.Prepared | transaction_impl.go:104-110 | the request body is the handle with its action wrapped over the listed parameter names and the context settings applied; parameters, database and collections are the handle's own |
| Execution.Execute | transaction_impl.go:99-128 | the caller's handle is unchanged; the connection calls made are a prefix of request, body, send, status check, parse, decode; every call before the last one succeeded; the call fails exactly when its last call failed, and reports that call; a parsed response whose `result` is missing or JSON `null` panics after the parse, and decoding is reached only when the response carries a result; success returns the response's result |
| Execution.ExecuteSucceedsIff | transaction_impl.go:106-128 | the call succeeds if and only if no step fails and the response carries a result |
| Execution.WrongStatusNotDecoded | transaction_impl.go:118-120 | a status other than 201 is reported as a status failure, and the body is neither parsed nor decoded |
| Execution.ExecuteTwiceWrapsOnce | transaction_impl.go:99-105 | executing the handle an execution returns wraps the original action once, in whatever order it lists the keys, and sends otherwise the same body; with non-empty names free of `,` and `)`, its signature reads back as the names listed |
| Execution.SentCollections | transaction_impl.go:83-91 | a handle created with read set R and write set W sends exactly R and W, whatever code was added |
| Execution.SentWaitForSync | transaction_impl.go:48-56 | a context from `WithTransactionWaitForSync` with no value makes the sent body ask for wait-for-sync |
| Execution.SignatureListsParams | transaction_impl.go:100-105 | when every bound name is non-empty and free of `,` and `)`, the sent signature names exactly the bound parameters, each once |
| Intended.AllowImplicitLost | transaction_impl.go:153-155 | as written, a fresh handle with only `WithTransactionAllowImplicit` applied still has `allowImplicit` false |
| Intended.ApplyContextSettingsFixed | transaction_impl.go:149-168 | corrected: `allowImplicit` comes from the allow-implicit key; the other fields behave as in the original |
| Intended.HelpersControlOwnFlag | transaction_impl.go:38-56 | corrected: each boolean helper sets its own flag to its value and leaves the other flag as the parent context gives it |
| Intended.FixedAgreesElsewhere | transaction_impl.go:158-167 | the corrected and the original settings differ only in the collections part |
| Intended.FreshHandleRejectsParams | transaction_impl.go:83-91 | as written, a fresh handle has a nil map, so any add call that binds a parameter would panic |
| Intended.NewTransactionFixed | transaction_impl.go:83-91 | corrected: as `newTransaction`, but with an empty parameter map |
| Intended.FixedBuildsAnything | transaction_impl.go:131-146 | corrected: every sequence of add calls can be made, and the map then holds exactly the bound names, each with its last value |

## Left out

- `relPath` (lines 95-97): it depends on `path.Join` and on the database's own path, which is not part of this model.
- JSON encoding of the request and the `omitempty` tags (lines 66-77): the encoder is not part of this model. The request body is the prepared record itself.
- The connection, request and response (lines 106-127): each one is represented only by whether its step fails. `conn.Unmarshal` into the caller's destination is represented as returning the raw result. In the model, whether `SetBody` fails does not depend on the body; in Go the encoder can reject a parameter value.
- `WithStack` error wrapping: an error is represented by the call that failed.
- Context cancellation, deadlines and `contextOrBackground` beyond "nil has no values": only value lookup is modelled.
- Concurrency: a handle is used by one goroutine at a time.
- Integer width: `LockTimeout` is a Go `int` and is only copied, never computed with, so it is an unbounded `int`.
- The database pointer: only its identity is kept, as `Database(id)`.
- Transactions.UnwrapWrap: the signature reads back only for names that are non-empty and free of `,` and `)`. The code accepts any key, and other keys make the signature ambiguous: `{"": v}` gives `function(){ … }`, and the key `a,b` reads as two names (`Transactions.SignatureAmbiguous`).
- Execution.SignatureListsParams: states the signature only for the same non-empty names without `,` or `)`, for the same reason.
- Execution.ExecuteTwiceWrapsOnce: the no-double-wrap part holds for any names and any two key orders; only reading the signature back is restricted to non-empty names without `,` or `)`, for the same reason.
- Aliasing: `newTransaction` keeps the caller's `read` and `write` slices (lines 87-88), and lines 134 and 143 store parameter values that may be references. The model treats all of them as values. In Go, Execution.SentCollections holds only if the caller does not change those slices after creating the handle.
- Byte strings: a Go string is a sequence of bytes, and `%q` writes a byte that is not valid UTF-8 as `\xhh`. Strings here are sequences of Unicode scalar values, so that case cannot be represented.
- GoStrings.Quote: models `%q` exactly for ASCII. The named escapes, `\xhh` for other controls and DEL, and `\"` and `\\` are all modelled. Non-ASCII characters are copied verbatim, but Go escapes the non-printable ones as `\u`/`\U`. The Unicode printability tables are not modelled.

## Findings

| source | as written | input that shows it | evidently intended | confidence | as-written member | corrected member |
|---|---|---|---|---|---|---|
| transaction_impl.go:153-155 | `AllowImplicit` is set from the wait-for-sync key, and the allow-implicit key is never read | `WithTransactionAllowImplicit(nil)` on a fresh handle leaves `allowImplicit` false; `WithTransactionWaitForSync(nil)` sets it true | read `keyTransactionAllowImplicit` for `AllowImplicit` | high, not executed | Intended.AllowImplicitLost | Intended.ApplyContextSettingsFixed |
| transaction_impl.go:83-91 | `newTransaction` leaves `Params` nil, and `AddAQL`/`AddJSQuery` assign into it (lines 134, 143) | `AddJSQuery("", {"x": 1})` on a fresh handle assigns into a nil map and panics | create the handle with an empty parameter map | high, not executed | Intended.FreshHandleRejectsParams | Intended.NewTransactionFixed |

The main model (`Transactions`, `Execution`) keeps the behaviour as written.
The corrected definitions, and the properties proved of them, are in `Intended`.
