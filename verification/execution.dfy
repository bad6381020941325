/**
 * `Execute`: wrap the action, apply the context settings to a copy of the
 * handle, and make the single round trip through the connection. The
 * connection is not part of this model; it is represented by the answer it
 * gives at each step, and the run records which of its operations were called.
 */
module Execution {
  import opened Wrappers
  import opened GoStrings
  import opened Context
  import opened Transactions

  /** One operation invoked on the connection or its request and response. */
  datatype Call =
    | NewRequest            // conn.NewRequest("POST", path)
    | SetBody(body: Transaction)  // req.SetBody(tx), with the handle copy as it is then
    | Do                    // conn.Do(ctx, req)
    | CheckStatus           // resp.CheckStatus(201)
    | ParseBody             // resp.ParseBody("", &data)
    | Unmarshal             // conn.Unmarshal(*data.Result, result)

  /**
   * A non-null `result` payload. Decoding JSON `null` into the `*RawObject`
   * field leaves it nil, exactly like a missing field, so both are `None` below.
   */
  type RawResult = v: Value | !v.Null? witness Boolean(false)

  /** The decoded response body: unparseable, or parsed with or without a non-null `result`. */
  datatype ResponseBody = Unparseable | Parsed(result: Option<RawResult>)

  /** What the connection answers at each step of one call. */
  datatype Connection = Connection(
    newRequestFails: bool,
    setBodyFails: bool,
    doFails: bool,
    status: int,
    response: ResponseBody,
    unmarshalFails: bool)

  /** The status `Execute` accepts: 201 Created. */
  const StatusCreated: int := 201

  /**
   * How an `Execute` call ends: the decoded result, the error of the step
   * that failed (wrapped with a stack, the first failure only), or a nil
   * pointer dereference when the response had no `result`.
   */
  datatype Outcome = Succeeded(result: RawResult) | Failed(at: Call) | NilResultPanic

  /** A finished call: the caller's handle afterwards, the connection operations made, the outcome. */
  datatype Run = Run(handle: Transaction, calls: seq<Call>, outcome: Outcome)

  /** Whether the connection reports an error for a call. */
  predicate Fails(conn: Connection, c: Call)
  {
    match c
    case NewRequest => conn.newRequestFails
    case SetBody(_) => conn.setBodyFails
    case Do => conn.doFails
    case CheckStatus => conn.status != StatusCreated
    case ParseBody => conn.response.Unparseable?
    case Unmarshal => conn.unmarshalFails
  }

  /** Every operation of a successful call, in order. */
  function FullTrace(body: Transaction): seq<Call>
  {
    [NewRequest, SetBody(body), Do, CheckStatus, ParseBody, Unmarshal]
  }

  /**
   * The request body `Execute` serialises: a copy of the handle whose action
   * is wrapped with the parameter names in `order`, with the context settings
   * applied on top.
   */
  function Prepared(tx: Transaction, ctx: Ctx, order: seq<string>): (body: Transaction)
    ensures body.action == WrapAction(order, tx.action)
    ensures body.params == tx.params && body.db == tx.db
    ensures body.collections.read == tx.collections.read && body.collections.write == tx.collections.write
    ensures body.waitForSync == LookupBool(ctx, KeyWaitForSync).GetOr(tx.waitForSync)
    ensures body.collections.allowImplicit == LookupBool(ctx, KeyWaitForSync).GetOr(tx.collections.allowImplicit)
    ensures body.lockTimeout == LookupInt(ctx, KeyLockTimeout).GetOr(tx.lockTimeout)
  {
    ApplyContextSettings(tx.(action := WrapAction(order, tx.action)), ctx)
  }

  /**
   * `Execute`, with the map's iteration order given as `order`. The receiver
   * is a value, so the caller's handle comes back unchanged; the steps run in
   * order and the first failure ends the call.
   */
  function Execute(tx: Transaction, ctx: Ctx, order: seq<string>, conn: Connection): (r: Run)
    requires IsKeyListing(order, ParamKeys(tx.params))
    ensures r.handle == tx
    ensures 1 <= |r.calls| <= 6 && r.calls == FullTrace(Prepared(tx, ctx, order))[..|r.calls|]
    ensures forall i :: 0 <= i < |r.calls| - 1 ==> !Fails(conn, r.calls[i])
    ensures r.outcome.Failed? <==> Fails(conn, r.calls[|r.calls| - 1])
    ensures r.outcome.Failed? ==> r.outcome.at == r.calls[|r.calls| - 1]
    ensures Unmarshal in r.calls ==> conn.response.Parsed? && conn.response.result.Some?
    ensures r.outcome.NilResultPanic? <==> r.calls[|r.calls| - 1] == ParseBody && conn.response == Parsed(None)
    ensures r.outcome.Succeeded? ==> |r.calls| == 6 && conn.response == Parsed(Some(r.outcome.result))
  {
    var copy := tx.(action := WrapAction(order, tx.action));
    if conn.newRequestFails then Run(tx, [NewRequest], Failed(NewRequest))
    else
      var body := ApplyContextSettings(copy, ctx);
      var sent := [NewRequest, SetBody(body)];
      if conn.setBodyFails then Run(tx, sent, Failed(SetBody(body)))
      else if conn.doFails then Run(tx, sent + [Do], Failed(Do))
      else if conn.status != StatusCreated then Run(tx, sent + [Do, CheckStatus], Failed(CheckStatus))
      else
        assert FullTrace(body)[..5] == sent + [Do, CheckStatus, ParseBody];
        match conn.response
        case Unparseable => Run(tx, sent + [Do, CheckStatus, ParseBody], Failed(ParseBody))
        case Parsed(None) => Run(tx, sent + [Do, CheckStatus, ParseBody], NilResultPanic)
        case Parsed(Some(raw)) =>
          if conn.unmarshalFails then Run(tx, FullTrace(body), Failed(Unmarshal))
          else Run(tx, FullTrace(body), Succeeded(raw))
  }

  /** The call succeeds exactly when no step fails and the response carries a result. */
  lemma ExecuteSucceedsIff(tx: Transaction, ctx: Ctx, order: seq<string>, conn: Connection)
    requires IsKeyListing(order, ParamKeys(tx.params))
    ensures Execute(tx, ctx, order, conn).outcome.Succeeded? <==>
            && (forall c :: c in FullTrace(Prepared(tx, ctx, order)) ==> !Fails(conn, c))
            && conn.response.Parsed? && conn.response.result.Some?
  {
  }

  /** A status other than 201 is reported as such, and the result is never decoded. */
  lemma WrongStatusNotDecoded(tx: Transaction, ctx: Ctx, order: seq<string>, conn: Connection)
    requires IsKeyListing(order, ParamKeys(tx.params))
    requires !conn.newRequestFails && !conn.setBodyFails && !conn.doFails
    requires conn.status != StatusCreated
    ensures Execute(tx, ctx, order, conn).outcome == Failed(CheckStatus)
    ensures ParseBody !in Execute(tx, ctx, order, conn).calls
    ensures Unmarshal !in Execute(tx, ctx, order, conn).calls
  {
  }

  /**
   * Executing the handle an execution returns wraps the original action once,
   * not the wrapped one again, in whatever order the second call lists the
   * keys; the rest of the request is the same. With names a signature can
   * carry, the second signature reads back as the names listed.
   */
  lemma ExecuteTwiceWrapsOnce(tx: Transaction, ctx: Ctx, o1: seq<string>, o2: seq<string>,
                              c1: Connection, c2: Connection)
    requires IsKeyListing(o1, ParamKeys(tx.params)) && IsKeyListing(o2, ParamKeys(tx.params))
    requires !c1.newRequestFails && !c2.newRequestFails
    ensures var r1 := Execute(tx, ctx, o1, c1);
            var r2 := Execute(r1.handle, ctx, o2, c2);
            && r2.calls[1].body == r1.calls[1].body.(action := WrapAction(o2, tx.action))
            && ((forall i :: 0 <= i < |o2| ==> IsSignatureName(o2[i])) ==>
                  UnwrapAction(r2.calls[1].body.action) == Some((o2, tx.action)))
  {
    SentBody(tx, ctx, o1, c1);
    SentBody(tx, ctx, o2, c2);
    if forall i :: 0 <= i < |o2| ==> IsSignatureName(o2[i]) {
      UnwrapWrap(o2, tx.action);
    }
  }

  /** Once the request is built, the body handed to it is the prepared copy. */
  lemma SentBody(tx: Transaction, ctx: Ctx, order: seq<string>, conn: Connection)
    requires IsKeyListing(order, ParamKeys(tx.params))
    requires !conn.newRequestFails
    ensures Execute(tx, ctx, order, conn).handle == tx
    ensures Execute(tx, ctx, order, conn).calls[1] == SetBody(Prepared(tx, ctx, order))
  {
  }

  /** A handle built with read set R and write set W sends exactly R and W. */
  lemma SentCollections(db: Database, read: seq<string>, write: seq<string>, fs: seq<Fragment>,
                        ctx: Ctx, order: seq<string>, conn: Connection)
    requires Buildable(None, fs)
    requires IsKeyListing(order, ParamKeys(Build(NewTransaction(db, read, write), fs).params))
    requires !conn.newRequestFails
    ensures var body := Execute(Build(NewTransaction(db, read, write), fs), ctx, order, conn).calls[1].body;
            body.collections.read == read && body.collections.write == write
  {
    BuildAccumulates(NewTransaction(db, read, write), fs);
  }

  /** Setting wait-for-sync through the helper makes the sent request ask for it. */
  lemma SentWaitForSync(tx: Transaction, ctx: Ctx, order: seq<string>, conn: Connection)
    requires IsKeyListing(order, ParamKeys(tx.params))
    requires !conn.newRequestFails
    ensures Execute(tx, WithTransactionWaitForSync(ctx, []), order, conn).calls[1].body.waitForSync
  {
  }

  /** The sent signature lists each bound parameter name exactly once. */
  lemma SignatureListsParams(tx: Transaction, ctx: Ctx, order: seq<string>, conn: Connection)
    requires IsKeyListing(order, ParamKeys(tx.params))
    requires forall i :: 0 <= i < |order| ==> IsSignatureName(order[i])
    requires !conn.newRequestFails
    ensures var sig := UnwrapAction(Execute(tx, ctx, order, conn).calls[1].body.action);
            && sig.Some?
            && |sig.value.0| == |ParamKeys(tx.params)|
            && (forall k :: k in sig.value.0 <==> k in ParamKeys(tx.params))
  {
    UnwrapWrap(order, tx.action);
    KeyListingSize(order, ParamKeys(tx.params));
  }
}
