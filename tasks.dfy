/** The order submission task: the transaction is stored, the order is sent
    to the clearing network with its keys renamed, and the outcome is
    recorded as two events; a refused order goes to the retry queue. */
module Tasks {
  import opened Values
  import opened Ledger

  // ---------------------------------------------------------------------
  // Renaming the keys

  /** `{snake_to_camel(k): v for k, v in order.items()}` for some order of
      the keys: every renamed key comes from a key of the order and keeps
      that key's value. Which value wins when two keys are renamed alike
      depends on the dict's iteration order. */
  ghost predicate RenamedFrom(order: Dict, camel: string -> string, renamed: Dict)
  {
    && renamed.Keys == (set k | k in order :: camel(k))
    && forall c :: c in renamed ==> exists k :: k in order && camel(k) == c && renamed[c] == order[k]
  }

  /** The dict comprehension, one key at a time. */
  method RenameKeys(order: Dict, camel: string -> string) returns (renamed: Dict)
    ensures RenamedFrom(order, camel, renamed)
  {
    renamed := map[];
    var pending := order.Keys;
    while pending != {}
      invariant pending <= order.Keys
      invariant renamed.Keys == (set k | k in order && k !in pending :: camel(k))
      invariant forall c :: c in renamed ==>
        exists k :: k in order && k !in pending && camel(k) == c && renamed[c] == order[k]
      decreases pending
    {
      var k :| k in pending;
      renamed := renamed[camel(k) := order[k]];
      pending := pending - {k};
    }
  }

  /** With no two keys renamed alike, the renamed dict is determined: every
      key's value appears under its new name. */
  lemma RenamedInjective(order: Dict, camel: string -> string, renamed: Dict)
    requires RenamedFrom(order, camel, renamed)
    requires forall a, b :: a in order && b in order && camel(a) == camel(b) ==> a == b
    ensures forall k :: k in order ==> camel(k) in renamed && renamed[camel(k)] == order[k]
  {
    forall k | k in order
      ensures camel(k) in renamed && renamed[camel(k)] == order[k]
    {
      assert camel(k) in renamed.Keys;
      var j :| j in order && camel(j) == camel(k) && renamed[camel(k)] == order[j];
    }
  }

  // ---------------------------------------------------------------------
  // The collaborators

  /** What `Transaction(order_dict)` sets in the columns the store is
      queried on; the constructor itself is not part of this model. */
  datatype Columns = Columns(ordenId: Value, claveRastreo: Value)

  /** What `stpmex.Orden(**order).registra()` does on its k-th call: raise,
      or return the network's response. */
  datatype StpReply = SubmitRaises | Registered(res: StpResponse)

  /** The clearing network: every order submitted, in order. */
  class StpClient {
    const replies: nat -> StpReply
    var submitted: seq<Dict>

    constructor (replies: nat -> StpReply)
      ensures this.replies == replies && submitted == []
    {
      this.replies := replies;
      submitted := [];
    }

    /** `stpmex.Orden(**order).registra()` */
    method Registra(order: Dict) returns (reply: StpReply)
      modifies this
      ensures submitted == old(submitted) + [order] && reply == replies(|old(submitted)|)
    {
      reply := replies(|submitted|);
      submitted := submitted + [order];
    }
  }

  /** `ConfirmModeClient(NEW_ORDER_QUEUE)`: every message handed to
      `call`, in order; `failures(k)` says whether the k-th call raises. */
  class RetryQueue {
    const failures: nat -> bool
    var calls: seq<Dict>

    constructor (failures: nat -> bool)
      ensures this.failures == failures && calls == []
    {
      this.failures := failures;
      calls := [];
    }

    /** `client.call(message)`: whether it raised. */
    method Call(message: Dict) returns (raised: bool)
      modifies this
      ensures calls == old(calls) + [message] && raised == failures(|old(calls)|)
    {
      raised := failures(|calls|);
      calls := calls + [message];
    }
  }

  // ---------------------------------------------------------------------
  // send_order

  /** The database, the orders submitted and the retry calls made, and
      whether the task ended by raising. */
  datatype Dispatch = Dispatch(db: Db, submitted: seq<Dict>, calls: seq<Dict>, raised: bool)

  /** An order is accepted exactly when the network gives it a positive id. */
  predicate Accepted(res: StpResponse)
  {
    res.id > 0
  }

  /** `send_order(order)` on this database with these collaborators, the
      renamed dict being `renamed`. */
  function SentOrder(db: Db, submitted: seq<Dict>, calls: seq<Dict>, order: Dict, renamed: Dict,
                     columns: Dict -> Columns, replies: nat -> StpReply, failures: nat -> bool): (r: Dispatch)
    // the transaction is committed before anything is sent, whatever follows
    ensures |r.db.transactions| == |db.transactions| + 1
    ensures r.db.transactions[..|db.transactions|] == db.transactions
    ensures var t := r.db.transactions[|db.transactions|];
      && t.id == |db.transactions| && t.estado == Initial && t.fields == order
      && t.claveRastreo == columns(order).claveRastreo
    // the renamed order is submitted exactly once
    ensures r.submitted == submitted + [renamed]
    // the outcome
    ensures var reply := replies(|submitted|);
      && (r.raised <==> reply.SubmitRaises? || (!Accepted(reply.res) && failures(|calls|)))
      && (r.calls == if reply.Registered? && !Accepted(reply.res) then calls + [renamed] else calls)
      && (r.db.transactions[|db.transactions|].ordenId ==
            if reply.Registered? && Accepted(reply.res) then Int(reply.res.id) else columns(order).ordenId)
    // no event at all when it raises, else exactly two
    ensures r.raised ==> r.db.events == db.events
    ensures !r.raised ==> var n := |db.transactions|; var res := replies(|submitted|).res;
      r.db.events == db.events + [Event(n, Create, OrderMeta(order)),
                                  Event(n, if Accepted(res) then Complete else Error, RegistraMeta(res))]
  {
    var n := |db.transactions|;
    var cols := columns(order);
    var t := Transaction(n, cols.ordenId, cols.claveRastreo, Initial, order);
    var stored := db.transactions + [t];
    var created := Event(n, Create, OrderMeta(order));
    match replies(|submitted|)
    case SubmitRaises =>
      Dispatch(Db(stored, db.events), submitted + [renamed], calls, true)
    case Registered(res) =>
      var complete := Event(n, Complete, RegistraMeta(res));
      if Accepted(res) then
        Dispatch(Db(db.transactions + [t.(ordenId := Int(res.id))], db.events + [created, complete]),
                 submitted + [renamed], calls, false)
      else if failures(|calls|) then
        Dispatch(Db(stored, db.events), submitted + [renamed], calls + [renamed], true)
      else
        Dispatch(Db(stored, db.events + [created, complete.(kind := Error)]),
                 submitted + [renamed], calls + [renamed], false)
  }

  /** `send_order(order_dict)`: whether it raised. */
  method SendOrder(store: Store, stp: StpClient, queue: RetryQueue, order: Dict,
                   camel: string -> string, columns: Dict -> Columns) returns (raised: bool)
    requires store.Valid()
    modifies store, stp, queue
    ensures store.Valid()
    ensures |stp.submitted| == |old(stp.submitted)| + 1
    ensures RenamedFrom(order, camel, stp.submitted[|old(stp.submitted)|])
    ensures SentOrder(old(store.State()), old(stp.submitted), old(queue.calls), order,
                      stp.submitted[|old(stp.submitted)|], columns, stp.replies, queue.failures)
      == Dispatch(store.State(), stp.submitted, queue.calls, raised)
  {
    // Save transaction
    var cols := columns(order);
    var transaction := store.Insert(cols.ordenId, cols.claveRastreo, order);
    var created := Event(transaction.id, Create, OrderMeta(order));

    // Send order to STP
    var renamed := RenameKeys(order, camel);
    var reply := stp.Registra(renamed);
    if reply.SubmitRaises? {
      return true;
    }
    var res := reply.res;
    var complete := Event(transaction.id, Complete, RegistraMeta(res));
    if Accepted(res) {
      store.Update(transaction.id, transaction.(ordenId := Int(res.id)));
    } else {
      complete := complete.(kind := Error);
      raised := queue.Call(renamed);
      if raised {
        return;
      }
    }
    store.Append([created, complete]);
    raised := false;
  }

  // ---------------------------------------------------------------------
  // Properties

  /** The first event is the CREATE one with the original dict as meta, and
      both events name the new transaction. */
  lemma SentEvents(db: Db, submitted: seq<Dict>, calls: seq<Dict>, order: Dict, renamed: Dict,
                   columns: Dict -> Columns, replies: nat -> StpReply, failures: nat -> bool)
    requires !SentOrder(db, submitted, calls, order, renamed, columns, replies, failures).raised
    ensures var r := SentOrder(db, submitted, calls, order, renamed, columns, replies, failures);
      && |r.db.events| == |db.events| + 2
      && r.db.events[|db.events|] == Event(|db.transactions|, Create, OrderMeta(order))
      && r.db.events[|db.events| + 1].transactionId == r.db.transactions[|db.transactions|].id
      && (r.db.events[|db.events| + 1].kind == Complete <==> Accepted(replies(|submitted|).res))
      && (r.db.events[|db.events| + 1].kind == Error <==> !Accepted(replies(|submitted|).res))
  {
  }

  /** A refused order (id 0 or below) keeps its orden_id and goes to the
      retry queue, renamed, exactly once. */
  lemma Refused(db: Db, submitted: seq<Dict>, calls: seq<Dict>, order: Dict, renamed: Dict,
                columns: Dict -> Columns, replies: nat -> StpReply, failures: nat -> bool)
    requires replies(|submitted|).Registered? && replies(|submitted|).res.id <= 0
    ensures var r := SentOrder(db, submitted, calls, order, renamed, columns, replies, failures);
      && r.db.transactions[|db.transactions|].ordenId == columns(order).ordenId
      && r.calls == calls + [renamed]
      && (r.raised <==> failures(|calls|))
  {
  }

  /** An accepted order takes the network's id and makes no retry call. */
  lemma AcceptedOrder(db: Db, submitted: seq<Dict>, calls: seq<Dict>, order: Dict, renamed: Dict,
                      columns: Dict -> Columns, replies: nat -> StpReply, failures: nat -> bool)
    requires replies(|submitted|).Registered? && replies(|submitted|).res.id > 0
    ensures var r := SentOrder(db, submitted, calls, order, renamed, columns, replies, failures);
      && r.db.transactions[|db.transactions|].ordenId == Int(replies(|submitted|).res.id)
      && r.calls == calls
      && !r.raised
  {
  }

  /** Ids stay positions: the new transaction's id is its index. */
  lemma SentKeyed(db: Db, submitted: seq<Dict>, calls: seq<Dict>, order: Dict, renamed: Dict,
                  columns: Dict -> Columns, replies: nat -> StpReply, failures: nat -> bool)
    requires Keyed(db.transactions)
    ensures Keyed(SentOrder(db, submitted, calls, order, renamed, columns, replies, failures).db.transactions)
  {
    var r := SentOrder(db, submitted, calls, order, renamed, columns, replies, failures);
    forall i | 0 <= i < |r.db.transactions|
      ensures r.db.transactions[i].id == i
    {
      if i < |db.transactions| {
        assert r.db.transactions[i] == r.db.transactions[..|db.transactions|][i];
      }
    }
  }
}
