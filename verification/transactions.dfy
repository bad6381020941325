/**
 * The client-side transaction record of the driver: how it is created, how
 * code fragments and their parameters accumulate in it, how call-context
 * settings are copied onto it, and how its body is wrapped into a single
 * server-side function before it is sent.
 */
module Transactions {
  import opened Wrappers
  import opened GoStrings
  import opened Context

  /** A bound parameter value (a Go `interface{}` that will be sent as JSON). */
  datatype Value =
    | Null
    | Boolean(b: bool)
    | Number(n: int)
    | Text(s: string)
    | Array(items: seq<Value>)
    | Object(fields: map<string, Value>)

  /** A parameter map; `None` is a nil Go map, which can be read and ranged over but not written. */
  type Params = Option<map<string, Value>>

  /** The database the transaction runs against; only its identity matters here. */
  datatype Database = Database(id: nat)

  datatype Collections = Collections(read: seq<string>, write: seq<string>, allowImplicit: bool)

  datatype Transaction = Transaction(
    db: Database,
    collections: Collections,
    action: string,
    waitForSync: bool,
    lockTimeout: int,
    params: Params)

  /** The names bound in a parameter map; a nil map binds none. */
  function ParamKeys(p: Params): set<string>
  {
    if p.Some? then p.value.Keys else {}
  }

  /** What a parameter map yields for `k` (`m[k]` with the comma-ok form). */
  function Lookup(p: Params, k: string): Option<Value>
  {
    if p.Some? && k in p.value then Some(p.value[k]) else None
  }

  /* ---------------------------------------------------------------------- */
  /* Construction                                                            */
  /* ---------------------------------------------------------------------- */

  /** `newTransaction`: everything but the database and the collections is left at its zero value. */
  function NewTransaction(db: Database, read: seq<string>, write: seq<string>): (tx: Transaction)
    ensures tx.db == db
    ensures tx.collections.read == read && tx.collections.write == write
    ensures !tx.collections.allowImplicit
    ensures tx.action == ""
    ensures !tx.waitForSync && tx.lockTimeout == 0
    ensures tx.params.None?
  {
    Transaction(db, Collections(read, write, false), "", false, 0, None)
  }

  /* ---------------------------------------------------------------------- */
  /* Fragments and parameter merging                                         */
  /* ---------------------------------------------------------------------- */

  /** Assigning into a nil map panics, so a merge needs a map unless there is nothing to assign. */
  predicate CanMerge(p: Params, add: map<string, Value>)
  {
    p.Some? || |add| == 0
  }

  /**
   * `for key, value := range add { p[key] = value }`: the keys of `add` are
   * bound to its values, every other binding stays, and an empty `add` leaves
   * even a nil map nil.
   */
  function MergeParams(p: Params, add: map<string, Value>): (r: Params)
    requires CanMerge(p, add)
    ensures ParamKeys(r) == ParamKeys(p) + add.Keys
    ensures forall k :: Lookup(r, k) == if k in add then Some(add[k]) else Lookup(p, k)
    ensures r.None? <==> p.None?
  {
    if |add| == 0 then p else Some(p.value + add)
  }

  /** What `AddAQL` appends for a query: a `db.query` call with the query as a quoted literal. */
  function AqlCall(query: string): string
  {
    "db.query(" + Quote(query) + ");"
  }

  /** `AddAQL`: appends a `db.query` call and merges the parameters; the error is always nil. */
  function AddAQL(tx: Transaction, query: string, params: map<string, Value>): (r: (Transaction, Option<string>))
    requires CanMerge(tx.params, params)
    ensures r.1 == None
    ensures r.0.action == tx.action + "db.query(" + Quote(query) + ");"
    ensures r.0.params.None? <==> tx.params.None?
    ensures ParamKeys(r.0.params) == ParamKeys(tx.params) + params.Keys
    ensures forall k :: Lookup(r.0.params, k) == if k in params then Some(params[k]) else Lookup(tx.params, k)
    ensures r.0.db == tx.db && r.0.collections == tx.collections
    ensures r.0.waitForSync == tx.waitForSync && r.0.lockTimeout == tx.lockTimeout
  {
    (tx.(action := tx.action + AqlCall(query), params := MergeParams(tx.params, params)), None)
  }

  /** `AddJSQuery`: appends the code verbatim and merges the parameters; the error is always nil. */
  function AddJSQuery(tx: Transaction, js: string, params: map<string, Value>): (r: (Transaction, Option<string>))
    requires CanMerge(tx.params, params)
    ensures r.1 == None
    ensures r.0.action == tx.action + js
    ensures r.0.params.None? <==> tx.params.None?
    ensures ParamKeys(r.0.params) == ParamKeys(tx.params) + params.Keys
    ensures forall k :: Lookup(r.0.params, k) == if k in params then Some(params[k]) else Lookup(tx.params, k)
    ensures r.0.db == tx.db && r.0.collections == tx.collections
    ensures r.0.waitForSync == tx.waitForSync && r.0.lockTimeout == tx.lockTimeout
  {
    (tx.(action := tx.action + js, params := MergeParams(tx.params, params)), None)
  }

  /** The query of an `AddAQL` call can be read back from the text it appended. */
  lemma AqlQueryRecoverable(tx: Transaction, query: string, params: map<string, Value>)
    requires CanMerge(tx.params, params)
    ensures var a := AddAQL(tx, query, params).0.action;
            && |a| >= |tx.action| + 11
            && a[..|tx.action|] == tx.action
            && a[|tx.action|..|tx.action| + 9] == "db.query("
            && a[|a| - 2..] == ");"
            && Unquote(a[|tx.action| + 9..|a| - 2]) == Some(query)
  {
    var a := AddAQL(tx, query, params).0.action;
    var n := |tx.action|;
    assert a == tx.action + "db.query(" + Quote(query) + ");";
    assert a[n + 9..|a| - 2] == Quote(query);
    UnquoteQuote(query);
  }

  /** Two merges in a row: on a colliding name the later call's value is the one kept. */
  lemma LaterAddWins(tx: Transaction, js1: string, p1: map<string, Value>, js2: string, p2: map<string, Value>, k: string)
    requires CanMerge(tx.params, p1)
    requires k in p1 && k in p2
    ensures var t1 := AddJSQuery(tx, js1, p1).0;
            CanMerge(t1.params, p2) && Lookup(AddJSQuery(t1, js2, p2).0.params, k) == Some(p2[k])
  {
  }

  /** One call to `AddAQL` or `AddJSQuery`, as data. */
  datatype Fragment =
    | Aql(query: string, params: map<string, Value>)
    | Js(code: string, params: map<string, Value>)

  /** The text a fragment appends to the action. */
  function Code(f: Fragment): string
  {
    match f
    case Aql(q, _) => AqlCall(q)
    case Js(js, _) => js
  }

  function AddFragment(tx: Transaction, f: Fragment): (r: Transaction)
    requires CanMerge(tx.params, f.params)
    ensures r.action == tx.action + Code(f)
    ensures ParamKeys(r.params) == ParamKeys(tx.params) + f.params.Keys
    ensures forall k :: Lookup(r.params, k) == if k in f.params then Some(f.params[k]) else Lookup(tx.params, k)
    ensures r.params.None? <==> tx.params.None?
    ensures r.db == tx.db && r.collections == tx.collections
    ensures r.waitForSync == tx.waitForSync && r.lockTimeout == tx.lockTimeout
  {
    match f
    case Aql(q, p) => AddAQL(tx, q, p).0
    case Js(js, p) => AddJSQuery(tx, js, p).0
  }

  /** A sequence of calls runs without a nil-map panic: the map exists, or nobody writes into it. */
  predicate Buildable(p: Params, fs: seq<Fragment>)
  {
    p.Some? || BindsNothing(fs)
  }

  /** No call in `fs` binds a parameter. */
  predicate BindsNothing(fs: seq<Fragment>)
  {
    |fs| == 0 || (|fs[0].params| == 0 && BindsNothing(fs[1..]))
  }

  /** The handle after the calls `fs`, made one after another. */
  function Build(tx: Transaction, fs: seq<Fragment>): Transaction
    requires Buildable(tx.params, fs)
    decreases |fs|
  {
    if |fs| == 0 then tx
    else
      assert CanMerge(tx.params, fs[0].params);
      Build(AddFragment(tx, fs[0]), fs[1..])
  }

  /** All code appended by `fs`, in call order. */
  function CodeAll(fs: seq<Fragment>): string
  {
    if |fs| == 0 then "" else Code(fs[0]) + CodeAll(fs[1..])
  }

  /** Every name some call in `fs` binds. */
  function BoundKeys(fs: seq<Fragment>): set<string>
  {
    if |fs| == 0 then {} else fs[0].params.Keys + BoundKeys(fs[1..])
  }

  /** The value the last call in `fs` binding `k` gave it, searching from the end. */
  function LastBinding(fs: seq<Fragment>, k: string): Option<Value>
  {
    if |fs| == 0 then None
    else if k in fs[|fs| - 1].params then Some(fs[|fs| - 1].params[k])
    else LastBinding(fs[..|fs| - 1], k)
  }

  /** Searching from the end agrees with letting each call override the ones before it. */
  lemma {:induction false} LastBindingFirst(fs: seq<Fragment>, k: string)
    requires |fs| > 0
    ensures LastBinding(fs, k) == LastBinding(fs[1..], k).OrElse(
              if k in fs[0].params then Some(fs[0].params[k]) else None)
    decreases |fs|
  {
    if |fs| > 1 {
      var init := fs[..|fs| - 1];
      assert init[0] == fs[0];
      assert init[1..] == fs[1..][..|fs[1..]| - 1];
      assert fs[1..][|fs[1..]| - 1] == fs[|fs| - 1];
      LastBindingFirst(init, k);
    }
  }

  /** One call, then the rest: the rest can still be made without a panic. */
  lemma BuildStep(tx: Transaction, fs: seq<Fragment>)
    requires Buildable(tx.params, fs) && |fs| > 0
    ensures CanMerge(tx.params, fs[0].params)
    ensures Buildable(AddFragment(tx, fs[0]).params, fs[1..])
    ensures Build(tx, fs) == Build(AddFragment(tx, fs[0]), fs[1..])
  {
  }

  /** The calls append their code in call order. */
  lemma {:induction false} BuildAction(tx: Transaction, fs: seq<Fragment>)
    requires Buildable(tx.params, fs)
    ensures Build(tx, fs).action == tx.action + CodeAll(fs)
    decreases |fs|
  {
    if |fs| > 0 {
      var t1 := AddFragment(tx, fs[0]);
      BuildStep(tx, fs);
      BuildAction(t1, fs[1..]);
    }
  }

  /** The calls leave the database, the collections and the settings alone. */
  lemma {:induction false} BuildFrame(tx: Transaction, fs: seq<Fragment>)
    requires Buildable(tx.params, fs)
    ensures var b := Build(tx, fs);
            && b.db == tx.db && b.collections == tx.collections
            && b.waitForSync == tx.waitForSync && b.lockTimeout == tx.lockTimeout
    decreases |fs|
  {
    if |fs| > 0 {
      var t1 := AddFragment(tx, fs[0]);
      BuildStep(tx, fs);
      BuildFrame(t1, fs[1..]);
    }
  }

  /** The names bound after the calls are the old ones plus every call's names. */
  lemma {:induction false} BuildKeys(tx: Transaction, fs: seq<Fragment>)
    requires Buildable(tx.params, fs)
    ensures ParamKeys(Build(tx, fs).params) == ParamKeys(tx.params) + BoundKeys(fs)
    decreases |fs|
  {
    if |fs| > 0 {
      var t1 := AddFragment(tx, fs[0]);
      BuildStep(tx, fs);
      BuildKeys(t1, fs[1..]);
    }
  }

  /** A name holds the value of the last call that bound it, or its old value if none did. */
  lemma {:induction false} BuildLookup(tx: Transaction, fs: seq<Fragment>, k: string)
    requires Buildable(tx.params, fs)
    ensures Lookup(Build(tx, fs).params, k) == LastBinding(fs, k).OrElse(Lookup(tx.params, k))
    decreases |fs|
  {
    if |fs| > 0 {
      var t1 := AddFragment(tx, fs[0]);
      BuildStep(tx, fs);
      BuildLookup(t1, fs[1..], k);
      LastBindingFirst(fs, k);
    }
  }

  /**
   * Fragments accumulate in call order, every bound name ends up in the map
   * with the value of the last call that bound it, and the collections and
   * settings are untouched.
   */
  lemma BuildAccumulates(tx: Transaction, fs: seq<Fragment>)
    requires Buildable(tx.params, fs)
    ensures Build(tx, fs).action == tx.action + CodeAll(fs)
    ensures ParamKeys(Build(tx, fs).params) == ParamKeys(tx.params) + BoundKeys(fs)
    ensures forall k :: Lookup(Build(tx, fs).params, k) == LastBinding(fs, k).OrElse(Lookup(tx.params, k))
    ensures Build(tx, fs).db == tx.db && Build(tx, fs).collections == tx.collections
    ensures Build(tx, fs).waitForSync == tx.waitForSync && Build(tx, fs).lockTimeout == tx.lockTimeout
  {
    BuildAction(tx, fs);
    BuildFrame(tx, fs);
    BuildKeys(tx, fs);
    forall k
      ensures Lookup(Build(tx, fs).params, k) == LastBinding(fs, k).OrElse(Lookup(tx.params, k))
    {
      BuildLookup(tx, fs, k);
    }
  }

  /**
   * The Go loop behind a merge, over an arbitrary iteration order: whatever
   * order the map is ranged in, the result is `dst` overridden by `src`.
   */
  method RangeAssign(dst: map<string, Value>, src: map<string, Value>) returns (r: map<string, Value>)
    ensures r.Keys == dst.Keys + src.Keys
    ensures forall k :: k in src ==> r[k] == src[k]
    ensures forall k :: k in dst && k !in src ==> r[k] == dst[k]
  {
    r := dst;
    var todo := src.Keys;
    while todo != {}
      invariant todo <= src.Keys
      invariant r.Keys == dst.Keys + (src.Keys - todo)
      invariant forall k :: k in src && k !in todo ==> r[k] == src[k]
      invariant forall k :: k in dst && k !in src ==> r[k] == dst[k]
      invariant forall k :: k in dst && k in todo ==> r[k] == dst[k]
      decreases todo
    {
      var key :| key in todo;
      r := r[key := src[key]];
      todo := todo - {key};
    }
  }

  /* ---------------------------------------------------------------------- */
  /* Context settings                                                        */
  /* ---------------------------------------------------------------------- */

  /**
   * `applyContextSettings`, as written: a boolean under the wait-for-sync key
   * sets BOTH `AllowImplicit` and `WaitForSync`, an int under the lock-timeout
   * key sets `LockTimeout`; the allow-implicit key is never read. Absent or
   * wrongly typed values, and a nil context, change nothing.
   */
  function ApplyContextSettings(tx: Transaction, ctx: Ctx): (r: Transaction)
    ensures r.collections.allowImplicit == LookupBool(ctx, KeyWaitForSync).GetOr(tx.collections.allowImplicit)
    ensures r.waitForSync == LookupBool(ctx, KeyWaitForSync).GetOr(tx.waitForSync)
    ensures r.lockTimeout == LookupInt(ctx, KeyLockTimeout).GetOr(tx.lockTimeout)
    ensures r.db == tx.db && r.action == tx.action && r.params == tx.params
    ensures r.collections.read == tx.collections.read && r.collections.write == tx.collections.write
  {
    if ctx.None? then tx
    else
      var m := ctx.value;
      var t1 :=
        if KeyWaitForSync in m && m[KeyWaitForSync].Bool?
        then tx.(collections := tx.collections.(allowImplicit := m[KeyWaitForSync].b))
        else tx;
      var t2 :=
        if KeyWaitForSync in m && m[KeyWaitForSync].Bool?
        then t1.(waitForSync := m[KeyWaitForSync].b)
        else t1;
      if KeyLockTimeout in m && m[KeyLockTimeout].Int?
      then t2.(lockTimeout := m[KeyLockTimeout].i)
      else t2
  }

  /** A context without the recognised keys, or a nil one, leaves the record as it is. */
  lemma ApplyNoSettings(tx: Transaction, ctx: Ctx)
    requires LookupBool(ctx, KeyWaitForSync).None? && LookupInt(ctx, KeyLockTimeout).None?
    ensures ApplyContextSettings(tx, ctx) == tx
  {
  }

  /** Applying the same context twice is the same as applying it once. */
  lemma ApplyIdempotent(tx: Transaction, ctx: Ctx)
    ensures ApplyContextSettings(ApplyContextSettings(tx, ctx), ctx) == ApplyContextSettings(tx, ctx)
  {
  }

  /** `WithTransactionAllowImplicit` has no effect at all on the record. */
  lemma AllowImplicitIgnored(tx: Transaction, ctx: Ctx, value: seq<bool>)
    ensures ApplyContextSettings(tx, WithTransactionAllowImplicit(ctx, value)) == ApplyContextSettings(tx, ctx)
  {
  }

  /** `WithTransactionWaitForSync` sets the wait-for-sync flag and, through the wrong key, allow-implicit too. */
  lemma WaitForSyncSetsBoth(tx: Transaction, ctx: Ctx, value: seq<bool>)
    ensures var r := ApplyContextSettings(tx, WithTransactionWaitForSync(ctx, value));
            && r.waitForSync == FirstOrTrue(value)
            && r.collections.allowImplicit == FirstOrTrue(value)
            && r.lockTimeout == ApplyContextSettings(tx, ctx).lockTimeout
  {
  }

  /** `WithTransactionLockTimeout` sets the lock timeout and nothing else. */
  lemma LockTimeoutSets(tx: Transaction, ctx: Ctx, value: int)
    ensures var r := ApplyContextSettings(tx, WithTransactionLockTimeout(ctx, value));
            && r.lockTimeout == value
            && r.waitForSync == ApplyContextSettings(tx, ctx).waitForSync
            && r.collections == ApplyContextSettings(tx, ctx).collections
  {
  }

  /* ---------------------------------------------------------------------- */
  /* Wrapping the action                                                     */
  /* ---------------------------------------------------------------------- */

  /** `keys` names every key of `dom` exactly once, in some order. */
  predicate IsKeyListing(keys: seq<string>, dom: set<string>)
  {
    && (forall i, j :: 0 <= i < j < |keys| ==> keys[i] != keys[j])
    && (forall i :: 0 <= i < |keys| ==> keys[i] in dom)
    && (forall k :: k in dom ==> k in keys)
  }

  /**
   * The first loop of `Execute`: ranging over the parameter map appends each
   * key once, in whatever order the map yields them.
   */
  method CollectParamKeys(p: Params) returns (keys: seq<string>)
    ensures IsKeyListing(keys, ParamKeys(p))
  {
    keys := [];
    var todo := ParamKeys(p);
    while todo != {}
      invariant todo <= ParamKeys(p)
      invariant forall i, j :: 0 <= i < j < |keys| ==> keys[i] != keys[j]
      invariant forall i :: 0 <= i < |keys| ==> keys[i] in ParamKeys(p) && keys[i] !in todo
      invariant forall k :: k in ParamKeys(p) ==> k in todo || k in keys
      decreases todo
    {
      var k :| k in todo;
      keys := keys + [k];
      todo := todo - {k};
    }
  }

  /** A listing has exactly as many entries as the set has members. */
  lemma {:induction false} KeyListingSize(keys: seq<string>, dom: set<string>)
    requires IsKeyListing(keys, dom)
    ensures |keys| == |dom|
    decreases |keys|
  {
    if |keys| > 0 {
      var last := keys[|keys| - 1];
      var init := keys[..|keys| - 1];
      assert IsKeyListing(init, dom - {last}) by {
        forall k | k in dom - {last} ensures k in init {
          var i :| 0 <= i < |keys| && keys[i] == k;
          assert i != |keys| - 1;
          assert init[i] == k;
        }
      }
      KeyListingSize(init, dom - {last});
    }
  }

  /** `fmt.Sprintf("function(%s){ %s }", strings.Join(keys, ","), body)`. */
  function WrapAction(keys: seq<string>, body: string): (w: string)
    ensures |w| == |Join(keys)| + |body| + 14
    ensures w[..9] == "function(" && w[|w| - 2..] == " }"
    ensures w[9..9 + |Join(keys)|] == Join(keys)
    ensures w[9 + |Join(keys)|..12 + |Join(keys)|] == "){ "
    ensures w[|w| - |body| - 2..|w| - 2] == body
  {
    "function(" + Join(keys) + "){ " + body + " }"
  }

  /** The position of the first `c` in `s`, if any. */
  function IndexOf(s: string, c: char): (r: Option<nat>)
    ensures r.Some? ==> r.value < |s| && s[r.value] == c && c !in s[..r.value]
    ensures r.None? ==> c !in s
  {
    if |s| == 0 then None
    else if s[0] == c then Some(0)
    else match IndexOf(s[1..], c)
      case Some(i) => assert s[..i + 1] == [s[0]] + s[1..][..i]; Some(i + 1)
      case None => assert s == [s[0]] + s[1..]; None
  }

  /** Reads a wrapped action back into its parameter names and its body. */
  function UnwrapAction(w: string): Option<(seq<string>, string)>
  {
    if |w| < 9 || w[..9] != "function(" then None
    else
      var rest := w[9..];
      match IndexOf(rest, ')')
      case None => None
      case Some(i) =>
        var tail := rest[i..];
        if |tail| >= 5 && tail[..3] == "){ " && tail[|tail| - 2..] == " }"
        then Some((SplitList(rest[..i]), tail[3..|tail| - 2]))
        else None
  }

  /**
   * Names outside that form make the signature ambiguous: an empty name
   * disappears, and a name with a comma reads as two.
   */
  lemma SignatureAmbiguous(body: string)
    ensures WrapAction([""], body) == WrapAction([], body)
    ensures WrapAction(["a,b"], body) == WrapAction(["a", "b"], body)
    ensures UnwrapAction(WrapAction(["a,b"], body)) != Some((["a,b"], body))
  {
    assert Join(["a", "b"]) == "a,b";
    if UnwrapAction(WrapAction(["a,b"], body)) == Some((["a,b"], body)) {
      UnwrapWrap(["a", "b"], body);
      assert false;
    }
  }

  /** A parameter name that can appear in a signature: non-empty, without `,` or `)`. */
  predicate IsSignatureName(k: string)
  {
    IsListItem(k) && ')' !in k
  }

  /**
   * The wrapped action names exactly the listed parameters, in order, and
   * encloses the body unchanged, so wrapping once is recognisable.
   */
  lemma UnwrapWrap(keys: seq<string>, body: string)
    requires forall i :: 0 <= i < |keys| ==> IsSignatureName(keys[i])
    ensures UnwrapAction(WrapAction(keys, body)) == Some((keys, body))
  {
    JoinAvoids(keys, ')');
    UnwrapJoined(Join(keys), body);
    SplitListJoin(keys);
  }

  /** A wrapped action splits at the first `)` into the parameter text and the body. */
  lemma UnwrapJoined(j: string, body: string)
    requires ')' !in j
    ensures UnwrapAction("function(" + j + "){ " + body + " }") == Some((SplitList(j), body))
  {
    var tail := "){ " + body + " }";
    var w := "function(" + j + "){ " + body + " }";
    assert w == "function(" + (j + tail);
    assert w[..9] == "function(" && w[9..] == j + tail;
    IndexOfAfter(j, tail, ')');
    assert (j + tail)[..|j|] == j && (j + tail)[|j|..] == tail;
    assert tail[..3] == "){ " && tail[|tail| - 2..] == " }" && tail[3..|tail| - 2] == body;
  }

  /** The first `c` in `x + y` is the first character of `y` when `x` has none. */
  lemma {:induction false} IndexOfAfter(x: string, y: string, c: char)
    requires c !in x && |y| > 0 && y[0] == c
    ensures IndexOf(x + y, c) == Some(|x|)
  {
    if |x| > 0 {
      assert (x + y)[1..] == x[1..] + y;
      IndexOfAfter(x[1..], y, c);
    }
  }
}
