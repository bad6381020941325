/**
 * Two places where the record behaves differently from what its helpers and
 * its callers evidently expect, each shown on the code as written and then
 * corrected, with the intended property proved of the correction.
 */
module Intended {
  import opened Wrappers
  import opened Context
  import opened Transactions

  /* ---------------------------------------------------------------------- */
  /* The allow-implicit flag is read from the wait-for-sync key              */
  /* ---------------------------------------------------------------------- */

  /** As written: a context that only asks for implicit collections leaves a fresh handle without them. */
  lemma AllowImplicitLost(db: Database, read: seq<string>, write: seq<string>)
    ensures !ApplyContextSettings(NewTransaction(db, read, write), WithTransactionAllowImplicit(None, [])).collections.allowImplicit
  {
  }

  /** `applyContextSettings` reading each flag from its own key. */
  function ApplyContextSettingsFixed(tx: Transaction, ctx: Ctx): (r: Transaction)
    ensures r.collections.allowImplicit == LookupBool(ctx, KeyAllowImplicit).GetOr(tx.collections.allowImplicit)
    ensures r.waitForSync == LookupBool(ctx, KeyWaitForSync).GetOr(tx.waitForSync)
    ensures r.lockTimeout == LookupInt(ctx, KeyLockTimeout).GetOr(tx.lockTimeout)
    ensures r.db == tx.db && r.action == tx.action && r.params == tx.params
    ensures r.collections.read == tx.collections.read && r.collections.write == tx.collections.write
  {
    if ctx.None? then tx
    else
      var m := ctx.value;
      var t1 :=
        if KeyAllowImplicit in m && m[KeyAllowImplicit].Bool?
        then tx.(collections := tx.collections.(allowImplicit := m[KeyAllowImplicit].b))
        else tx;
      var t2 :=
        if KeyWaitForSync in m && m[KeyWaitForSync].Bool?
        then t1.(waitForSync := m[KeyWaitForSync].b)
        else t1;
      if KeyLockTimeout in m && m[KeyLockTimeout].Int?
      then t2.(lockTimeout := m[KeyLockTimeout].i)
      else t2
  }

  /** Corrected: each helper controls its own flag and no other. */
  lemma HelpersControlOwnFlag(tx: Transaction, ctx: Ctx, value: seq<bool>)
    ensures var r := ApplyContextSettingsFixed(tx, WithTransactionAllowImplicit(ctx, value));
            && r.collections.allowImplicit == FirstOrTrue(value)
            && r.waitForSync == ApplyContextSettingsFixed(tx, ctx).waitForSync
    ensures var r := ApplyContextSettingsFixed(tx, WithTransactionWaitForSync(ctx, value));
            && r.waitForSync == FirstOrTrue(value)
            && r.collections.allowImplicit == ApplyContextSettingsFixed(tx, ctx).collections.allowImplicit
  {
  }

  /** The two versions differ only in where allow-implicit comes from. */
  lemma FixedAgreesElsewhere(tx: Transaction, ctx: Ctx)
    ensures ApplyContextSettingsFixed(tx, ctx).(collections := tx.collections)
         == ApplyContextSettings(tx, ctx).(collections := tx.collections)
  {
  }

  /* ---------------------------------------------------------------------- */
  /* A fresh handle has a nil parameter map                                  */
  /* ---------------------------------------------------------------------- */

  /** As written: no call that binds a parameter can be made on a fresh handle without a panic. */
  lemma FreshHandleRejectsParams(db: Database, read: seq<string>, write: seq<string>, params: map<string, Value>)
    requires |params| > 0
    ensures !CanMerge(NewTransaction(db, read, write).params, params)
    ensures !Buildable(NewTransaction(db, read, write).params, [Js("", params)])
  {
    assert [Js("", params)][0].params == params;
  }

  /** `newTransaction` with the parameter map made, as the add operations need. */
  function NewTransactionFixed(db: Database, read: seq<string>, write: seq<string>): (tx: Transaction)
    ensures tx.params == Some(map[])
    ensures tx == NewTransaction(db, read, write).(params := Some(map[]))
  {
    Transaction(db, Collections(read, write, false), "", false, 0, Some(map[]))
  }

  /** Corrected: any sequence of calls can be made, and the map holds exactly the names they bound. */
  lemma FixedBuildsAnything(db: Database, read: seq<string>, write: seq<string>, fs: seq<Fragment>)
    ensures Buildable(NewTransactionFixed(db, read, write).params, fs)
    ensures ParamKeys(Build(NewTransactionFixed(db, read, write), fs).params) == BoundKeys(fs)
    ensures forall k :: Lookup(Build(NewTransactionFixed(db, read, write), fs).params, k) == LastBinding(fs, k)
  {
    var tx := NewTransactionFixed(db, read, write);
    BuildAccumulates(tx, fs);
    forall k ensures LastBinding(fs, k).OrElse(Lookup(tx.params, k)) == LastBinding(fs, k) {
    }
  }
}
