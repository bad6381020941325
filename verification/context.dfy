/**
 * The ambient call context as the transaction code sees it: a chain of
 * key/value pairs read through `ctx.Value(key)`, or a nil context. Only the
 * lookup behaviour matters here, so a context is the map from key to the
 * value its nearest ancestor stored; cancellation and deadlines are not
 * modelled.
 */
module Context {
  import opened Wrappers

  /** A dynamically typed context value, as far as a type switch can tell. */
  datatype CtxVal =
    | Bool(b: bool)   // a Go `bool`
    | Int(i: int)     // a Go `int`
    | Other           // anything else: another type, or a stored nil

  /** `None` is a nil context; `Some(m)` answers `Value(k)` with `m[k]` when `k in m`. */
  type Ctx = Option<map<string, CtxVal>>

  const KeyWaitForSync: string := "arangodb-transaction-waitForSync"
  const KeyLockTimeout: string := "arangodb-transaction-lockTimeout"
  const KeyAllowImplicit: string := "arangodb-transaction-allowImplicit"

  /** The values visible through a context; `contextOrBackground` turns nil into an empty one. */
  function Entries(ctx: Ctx): map<string, CtxVal>
  {
    ctx.GetOr(map[])
  }

  /** `context.WithValue(contextOrBackground(parent), key, v)`. */
  function WithValue(parent: Ctx, key: string, v: CtxVal): (r: Ctx)
    ensures r.Some?
    ensures r.value.Keys == Entries(parent).Keys + {key}
    ensures r.value[key] == v
    ensures forall k :: k in Entries(parent) && k != key ==> r.value[k] == Entries(parent)[k]
  {
    Some(Entries(parent)[key := v])
  }

  /** The value of an optional Go boolean argument: `true` unless one is given. */
  function FirstOrTrue(value: seq<bool>): bool
  {
    if |value| > 0 then value[0] else true
  }

  /** Stores the allow-implicit flag (default `true`) under its own key. */
  function WithTransactionAllowImplicit(parent: Ctx, value: seq<bool>): (r: Ctx)
    ensures r.Some?
    ensures r.value.Keys == Entries(parent).Keys + {KeyAllowImplicit}
    ensures r.value[KeyAllowImplicit] == Bool(if |value| > 0 then value[0] else true)
    ensures forall k :: k in Entries(parent) && k != KeyAllowImplicit ==> r.value[k] == Entries(parent)[k]
  {
    WithValue(parent, KeyAllowImplicit, Bool(FirstOrTrue(value)))
  }

  /** Stores the wait-for-sync flag (default `true`) under its own key. */
  function WithTransactionWaitForSync(parent: Ctx, value: seq<bool>): (r: Ctx)
    ensures r.Some?
    ensures r.value.Keys == Entries(parent).Keys + {KeyWaitForSync}
    ensures r.value[KeyWaitForSync] == Bool(if |value| > 0 then value[0] else true)
    ensures forall k :: k in Entries(parent) && k != KeyWaitForSync ==> r.value[k] == Entries(parent)[k]
  {
    WithValue(parent, KeyWaitForSync, Bool(FirstOrTrue(value)))
  }

  /** Stores the lock timeout under its own key. */
  function WithTransactionLockTimeout(parent: Ctx, value: int): (r: Ctx)
    ensures r.Some?
    ensures r.value.Keys == Entries(parent).Keys + {KeyLockTimeout}
    ensures r.value[KeyLockTimeout] == Int(value)
    ensures forall k :: k in Entries(parent) && k != KeyLockTimeout ==> r.value[k] == Entries(parent)[k]
  {
    WithValue(parent, KeyLockTimeout, Int(value))
  }

  /** `ctx.Value(key).(bool)` when the context is non-nil and the assertion succeeds. */
  function LookupBool(ctx: Ctx, key: string): Option<bool>
  {
    if ctx.Some? && key in ctx.value && ctx.value[key].Bool? then Some(ctx.value[key].b) else None
  }

  /** `ctx.Value(key).(int)` when the context is non-nil and the assertion succeeds. */
  function LookupInt(ctx: Ctx, key: string): Option<int>
  {
    if ctx.Some? && key in ctx.value && ctx.value[key].Int? then Some(ctx.value[key].i) else None
  }
}
