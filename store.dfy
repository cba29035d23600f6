/** The transaction store: transactions and their events as the database
    session holds them. A commit is an append to (or an update of) these
    sequences; the store itself never fails. */
module Ledger {
  import opened Values

  /** `Estado`: Initial is whatever state a freshly built transaction has. */
  datatype Estado = Initial | Failed

  /** Event types: the strings 'CREATE', 'COMPLETE', 'ERROR' of the order
      task, and `State.created`, `State.error` of the reconciliation. */
  datatype EventType = Create | Complete | Error | StateCreated | StateError

  /** The clearing network's answer to `registra()`: its id and the rest of
      what `str(res)` shows. */
  datatype StpResponse = StpResponse(id: int, text: string)

  /** An event's meta: the snapshot it was built from. */
  datatype Meta =
    | OrderMeta(order: Dict)               // str(order_dict)
    | RegistraMeta(response: StpResponse)  // str(res)
    | ReconMeta(record: Dict)              // 'Created by recon: ' + str(trans)
    | CallbackMeta(reply: Dict)            // str(response)

  datatype Transaction = Transaction(
    id: nat,
    ordenId: Value,
    claveRastreo: Value,
    estado: Estado,
    fields: Dict)

  datatype Event = Event(transactionId: nat, kind: EventType, meta: Meta)

  datatype Db = Db(transactions: seq<Transaction>, events: seq<Event>)

  /** Every transaction's id is its position: ids are assigned in order. */
  ghost predicate Keyed(txs: seq<Transaction>)
  {
    forall i :: 0 <= i < |txs| ==> txs[i].id == i
  }

  /** `filter_by(orden_id=..., clave_rastreo=...)`; a None tracking key
      leaves that column out of the filter. */
  predicate Matches(t: Transaction, ordenId: Value, claveRastreo: Option<Value>)
  {
    t.ordenId == ordenId && (claveRastreo.None? || t.claveRastreo == claveRastreo.value)
  }

  /** `.first()`: the index of the first matching transaction. */
  function FirstMatch(txs: seq<Transaction>, ordenId: Value, claveRastreo: Option<Value>): (r: Option<nat>)
    ensures r.Some? ==> r.value < |txs| && Matches(txs[r.value], ordenId, claveRastreo)
    ensures r.Some? ==> forall j :: 0 <= j < r.value ==> !Matches(txs[j], ordenId, claveRastreo)
    ensures r.None? <==> forall j :: 0 <= j < |txs| ==> !Matches(txs[j], ordenId, claveRastreo)
  {
    if txs == [] then None
    else if Matches(txs[0], ordenId, claveRastreo) then Some(0)
    else
      match FirstMatch(txs[1..], ordenId, claveRastreo)
      case None => None
      case Some(i) => Some(i + 1)
  }

  /** Adding transactions at the end and changing states keeps every match
      that already existed. */
  lemma {:induction false} FirstMatchGrows(txs: seq<Transaction>, more: seq<Transaction>, ordenId: Value, claveRastreo: Option<Value>)
    requires |txs| <= |more|
    requires forall i :: 0 <= i < |txs| ==>
      more[i].ordenId == txs[i].ordenId && more[i].claveRastreo == txs[i].claveRastreo
    requires FirstMatch(txs, ordenId, claveRastreo).Some?
    ensures FirstMatch(more, ordenId, claveRastreo).Some?
  {
    var i := FirstMatch(txs, ordenId, claveRastreo).value;
    assert Matches(more[i], ordenId, claveRastreo);
  }

  class Store {
    var transactions: seq<Transaction>
    var events: seq<Event>

    function State(): Db
      reads this
    {
      Db(transactions, events)
    }

    ghost predicate Valid()
      reads this
    {
      Keyed(transactions)
    }

    constructor ()
      ensures Valid() && transactions == [] && events == []
    {
      transactions, events := [], [];
    }

    /** `session.add(transaction)` followed by a commit: the row gets the
        next id. */
    method Insert(ordenId: Value, claveRastreo: Value, fields: Dict) returns (t: Transaction)
      requires Valid()
      modifies this
      ensures Valid()
      ensures t == Transaction(|old(transactions)|, ordenId, claveRastreo, Initial, fields)
      ensures transactions == old(transactions) + [t] && events == old(events)
    {
      t := Transaction(|transactions|, ordenId, claveRastreo, Initial, fields);
      transactions := transactions + [t];
    }

    /** Appending events and committing them together. */
    method Append(es: seq<Event>)
      modifies this
      ensures events == old(events) + es && transactions == old(transactions)
    {
      events := events + es;
    }

    /** `query(Transaction).filter_by(...).first()` */
    method Query(ordenId: Value, claveRastreo: Option<Value>) returns (r: Option<nat>)
      ensures r == FirstMatch(transactions, ordenId, claveRastreo)
      ensures r.Some? ==> r.value < |transactions| && Matches(transactions[r.value], ordenId, claveRastreo)
      ensures r.None? <==> forall j :: 0 <= j < |transactions| ==> !Matches(transactions[j], ordenId, claveRastreo)
    {
      var i := 0;
      while i < |transactions|
        invariant 0 <= i <= |transactions|
        invariant forall j :: 0 <= j < i ==> !Matches(transactions[j], ordenId, claveRastreo)
      {
        if Matches(transactions[i], ordenId, claveRastreo) {
          return Some(i);
        }
        i := i + 1;
      }
      return None;
    }

    /** Setting a field of the transaction at index i; committed with the
        next commit. */
    method Update(i: nat, t: Transaction)
      requires Valid() && i < |transactions| && t.id == transactions[i].id
      modifies this
      ensures Valid()
      ensures transactions == old(transactions)[i := t] && events == old(events)
    {
      transactions := transactions[i := t];
    }
  }
}
