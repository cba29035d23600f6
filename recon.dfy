/** Reconciliation of the transactions received through the clearing
    network: every report record that the database lacks and whose
    beneficiary account belongs to the institution is remapped, stored,
    announced by an event and sent to the callback. */
module Recon {
  import opened Values
  import opened Normalizer
  import opened Ledger
  import opened Report

  // ---------------------------------------------------------------------
  // Remapping a record

  /** The keys the remapping removes. */
  const Dropped: set<string> :=
    {"estado_orden", "institucion", "contraparte", "id", "rastreo", "ordenante", "beneficiario"}

  /** The keys the remapping writes, besides "monto". */
  const Added: set<string> :=
    {"clave", "clave_rastreo", "institucion_ordenante", "institucion_beneficiaria",
     "nombre_ordenante", "nombre_beneficiario", "tipo_cuenta_ordenante", "tipo_cuenta_beneficiario"}

  /** An account type as it is stored: None becomes null. */
  function TypeValue(t: Option<string>): Value
  {
    match t
    case None => Null
    case Some(s) => Str(s)
  }

  /** The number a value stands for in arithmetic (a bool is 0 or 1). */
  function Amount(v: Value): real
  {
    match v
    case Int(i) => i as real
    case Bool(b) => if b then 1.0 else 0.0
    case Num(x) => x
    case _ => 0.0
  }

  /** `v / 100`: true division; None and strings raise TypeError. */
  function Hundredth(v: Value): (r: Result<Value>)
    ensures r.Ok? <==> v.Int? || v.Bool? || v.Num?
    ensures r.Ok? ==> r.value.Num? && r.value.r * 100.0 == Amount(v)
  {
    match v
    case Int(i) => Ok(Num(i as real / 100.0))
    case Bool(b) => Ok(Num(if b then 0.01 else 0.0))
    case Num(x) => Ok(Num(x / 100.0))
    case _ => Err(TypeError)
  }

  /** Whether a record holds everything the remapping reads, with the
      types it needs. */
  predicate Remappable(trans: Dict)
  {
    && "estado_orden" in trans && "institucion" in trans && "contraparte" in trans
    && "id" in trans && "rastreo" in trans && "ordenante" in trans && "beneficiario" in trans
    && "cuenta_ordenante" in trans && trans["cuenta_ordenante"].Str?
    && "cuenta_beneficiario" in trans && trans["cuenta_beneficiario"].Str?
    && "monto" in trans && (trans["monto"].Int? || trans["monto"].Bool? || trans["monto"].Num?)
  }

  /** The record as the body of the loop leaves it once it is accepted.
      The statements run in this order: three deletions, `clave` and
      `clave_rastreo` popped from `id` and `rastreo`, both institutions
      sliced from their accounts, both names popped, both account types
      looked up, and the amount divided. None of them touches a key a later
      one reads, so each KeyError and TypeError below is the one the first
      failing statement raises. */
  function Remapped(trans: Dict, banks: map<string, string>): (r: Result<Dict>)
    ensures r.Ok? <==> Remappable(trans)
    ensures r.Err? ==> r.error.KeyError? || r.error == TypeError
    ensures r.Err? && r.error.KeyError? ==> r.error.key !in trans
    ensures r.Ok? ==> "clave" in r.value && r.value["clave"] == trans["id"]
    ensures r.Ok? ==> "clave_rastreo" in r.value && r.value["clave_rastreo"] == trans["rastreo"]
  {
    if "estado_orden" !in trans then Err(KeyError("estado_orden"))
    else if "institucion" !in trans then Err(KeyError("institucion"))
    else if "contraparte" !in trans then Err(KeyError("contraparte"))
    else if "id" !in trans then Err(KeyError("id"))
    else if "rastreo" !in trans then Err(KeyError("rastreo"))
    else if "cuenta_ordenante" !in trans then Err(KeyError("cuenta_ordenante"))
    else if !trans["cuenta_ordenante"].Str? then Err(TypeError)
    else if "cuenta_beneficiario" !in trans then Err(KeyError("cuenta_beneficiario"))
    else if !trans["cuenta_beneficiario"].Str? then Err(TypeError)
    else if "ordenante" !in trans then Err(KeyError("ordenante"))
    else if "beneficiario" !in trans then Err(KeyError("beneficiario"))
    else if "monto" !in trans then Err(KeyError("monto"))
    else
      var pesos :- Hundredth(trans["monto"]);
      var ordenante := trans["cuenta_ordenante"];
      var beneficiario := trans["cuenta_beneficiario"];
      Ok((trans - Dropped)[
        "clave" := trans["id"]][
        "clave_rastreo" := trans["rastreo"]][
        "institucion_ordenante" := Str(Slice(ordenante.s, 3))][
        "institucion_beneficiaria" := Str(Slice(beneficiario.s, 3))][
        "nombre_ordenante" := trans["ordenante"]][
        "nombre_beneficiario" := trans["beneficiario"]][
        "tipo_cuenta_ordenante" := TypeValue(AccountType(banks, ordenante).value)][
        "tipo_cuenta_beneficiario" := TypeValue(AccountType(banks, beneficiario).value)][
        "monto" := pesos])
  }

  /** The keys of an accepted record once remapped, and what each holds:
      renamed, derived from the accounts and the amount, or kept. */
  lemma RemappedFields(trans: Dict, banks: map<string, string>)
    requires Remappable(trans)
    ensures var r := Remapped(trans, banks).value;
      && r.Keys == trans.Keys - Dropped + Added
      && r["nombre_ordenante"] == trans["ordenante"]
      && r["nombre_beneficiario"] == trans["beneficiario"]
      && r["institucion_ordenante"] == Str(Slice(trans["cuenta_ordenante"].s, 3))
      && r["institucion_beneficiaria"] == Str(Slice(trans["cuenta_beneficiario"].s, 3))
      && r["tipo_cuenta_ordenante"] == TypeValue(AccountType(banks, trans["cuenta_ordenante"]).value)
      && r["tipo_cuenta_beneficiario"] == TypeValue(AccountType(banks, trans["cuenta_beneficiario"]).value)
      && r["monto"] == Hundredth(trans["monto"]).value
      && r["monto"].r * 100.0 == Amount(trans["monto"])
      && forall k :: k in trans && k !in Dropped && k !in Added && k != "monto" ==> r[k] == trans[k]
  {
  }

  // ---------------------------------------------------------------------
  // One pass over the received records

  /** The guard of the loop body: Ok(true) for a record with no transaction
      of the same id and tracking key whose beneficiary account starts with
      the prefix. The account is sliced only when no transaction matched. */
  function Screen(txs: seq<Transaction>, trans: Dict, prefix: string): (r: Result<bool>)
    ensures r.Ok? <==>
      && "id" in trans && "rastreo" in trans && "cuenta_beneficiario" in trans
      && (FirstMatch(txs, trans["id"], Some(trans["rastreo"])).None? ==> trans["cuenta_beneficiario"].Str?)
    ensures r == Ok(true) <==>
      && "id" in trans && "rastreo" in trans && "cuenta_beneficiario" in trans
      && FirstMatch(txs, trans["id"], Some(trans["rastreo"])).None?
      && trans["cuenta_beneficiario"].Str?
      && Slice(trans["cuenta_beneficiario"].s, 6) == prefix
  {
    var id :- Subscript(trans, "id");
    var rastreo :- Subscript(trans, "rastreo");
    var found := FirstMatch(txs, id, Some(rastreo));
    var beneficiario :- Subscript(trans, "cuenta_beneficiario");
    if found.Some? then Ok(false)
    else
      var text :- AsStr(beneficiario);
      Ok(Slice(text, 6) == prefix)
  }

  /** What `callback_helper.send_transaction` does on a call: raise, or
      reply with a dict. */
  datatype Answer = Raises | Replies(response: Dict)

  /** The state of a reconciliation: the database, the transactions sent to
      the callback so far, and the exception captured, which ends the loop. */
  datatype Run = Run(db: Db, sent: seq<Transaction>, captured: Option<Error>)

  /** Two rows of the same transaction: its state may differ. */
  predicate Same(t: Transaction, u: Transaction)
  {
    t.id == u.id && t.ordenId == u.ordenId && t.claveRastreo == u.claveRastreo
  }

  /** db2 keeps every transaction of db1 in place, up to its state, and
      every event, in order. */
  ghost predicate Extends(db1: Db, db2: Db)
  {
    && |db1.transactions| <= |db2.transactions|
    && (forall i :: 0 <= i < |db1.transactions| ==> Same(db1.transactions[i], db2.transactions[i]))
    && db1.events <= db2.events
  }

  lemma ExtendsTransitive(db1: Db, db2: Db, db3: Db)
    requires Extends(db1, db2) && Extends(db2, db3)
    ensures Extends(db1, db3)
  {
  }

  /** The stored part of an accepted record: its transaction and the created
      event, then the callback's answer and what a 'failed' status does. */
  function Created(run: Run, rem: Dict, answers: nat -> Answer): (r: Run)
    requires "clave" in rem && "clave_rastreo" in rem
    ensures var t := Transaction(|run.db.transactions|, rem["clave"], rem["clave_rastreo"], Initial, rem);
      && r.sent == run.sent + [t]
      && |r.db.transactions| == |run.db.transactions| + 1
      && |r.db.events| > |run.db.events|
      && r.db.events[..|run.db.events| + 1] == run.db.events + [Event(t.id, StateCreated, ReconMeta(rem))]
    ensures Extends(run.db, r.db)
    ensures Same(r.db.transactions[|run.db.transactions|], Transaction(|run.db.transactions|, rem["clave"], rem["clave_rastreo"], Initial, rem))
    ensures Keyed(run.db.transactions) ==> Keyed(r.db.transactions)
    ensures answers(|run.sent|).Raises? ==> r.captured == Some(ExternalError)
    ensures answers(|run.sent|).Replies? && "status" !in answers(|run.sent|).response ==>
      r.captured == Some(KeyError("status"))
    ensures answers(|run.sent|).Replies? && "status" in answers(|run.sent|).response ==> r.captured.None?
    // without a 'failed' status only the new row and its created event are stored
    ensures var a := answers(|run.sent|);
      var t := Transaction(|run.db.transactions|, rem["clave"], rem["clave_rastreo"], Initial, rem);
      (a.Raises? || !("status" in a.response && a.response["status"] == Str("failed"))) ==>
        r.db == Db(run.db.transactions + [t], run.db.events + [Event(t.id, StateCreated, ReconMeta(rem))])
  {
    var txs := run.db.transactions;
    var t := Transaction(|txs|, rem["clave"], rem["clave_rastreo"], Initial, rem);
    var stored := Db(txs + [t], run.db.events + [Event(t.id, StateCreated, ReconMeta(rem))]);
    var sent := run.sent + [t];
    match answers(|run.sent|)
    case Raises => Run(stored, sent, Some(ExternalError))
    case Replies(response) =>
      if "status" !in response then Run(stored, sent, Some(KeyError("status")))
      else if response["status"] != Str("failed") then Run(stored, sent, None)
      else
        // the transaction just stored matches, so the query finds one
        assert Matches(stored.transactions[|txs|], rem["clave"], None);
        var i := FirstMatch(stored.transactions, rem["clave"], None).value;
        var failed := stored.transactions[i].(estado := Failed);
        Run(Db(stored.transactions[i := failed], stored.events + [Event(failed.id, StateError, CallbackMeta(response))]), sent, None)
  }

  /** One iteration of the loop in `reconciliate_received_stp`; once an
      exception has been captured nothing more happens. */
  function Step(run: Run, trans: Dict, prefix: string, banks: map<string, string>, answers: nat -> Answer): Run
  {
    if run.captured.Some? then run
    else
      match Screen(run.db.transactions, trans, prefix)
      case Err(e) => run.(captured := Some(e))
      case Ok(accept) =>
        if !accept then run
        else
          match Remapped(trans, banks)
          case Err(e) => run.(captured := Some(e))
          case Ok(rem) => Created(run, rem, answers)
  }

  /** `reconciliate_received_stp(records)` */
  function Reconciled(run: Run, records: seq<Dict>, prefix: string, banks: map<string, string>, answers: nat -> Answer): Run
    decreases |records|
  {
    if records == [] then run
    else Reconciled(Step(run, records[0], prefix, banks, answers), records[1..], prefix, banks, answers)
  }

  /** The callback, seen from the model: the answers it gives, call by call,
      and what it was sent. */
  class CallbackHelper {
    const answers: nat -> Answer
    var sent: seq<Transaction>

    constructor (answers: nat -> Answer)
      ensures this.answers == answers && sent == []
    {
      this.answers := answers;
      sent := [];
    }

    /** `send_transaction(transaction)` */
    method SendTransaction(t: Transaction) returns (a: Answer)
      modifies this
      ensures sent == old(sent) + [t] && a == answers(|old(sent)|)
    {
      a := answers(|sent|);
      sent := sent + [t];
    }
  }

  /** The body of the loop for one record; the exception it raises, if any. */
  method ReconcileOne(store: Store, callback: CallbackHelper, trans: Dict, prefix: string, banks: map<string, string>)
    returns (captured: Option<Error>)
    requires store.Valid()
    modifies store, callback
    ensures store.Valid()
    ensures Step(Run(old(store.State()), old(callback.sent), None), trans, prefix, banks, callback.answers)
      == Run(store.State(), callback.sent, captured)
  {
    var id := Subscript(trans, "id");
    if id.Err? {
      return Some(id.error);
    }
    var rastreo := Subscript(trans, "rastreo");
    if rastreo.Err? {
      return Some(rastreo.error);
    }
    var transaction := store.Query(id.value, Some(rastreo.value));
    var beneficiario := Subscript(trans, "cuenta_beneficiario");
    if beneficiario.Err? {
      return Some(beneficiario.error);
    }
    if transaction.Some? {
      return None;
    }
    var text := AsStr(beneficiario.value);
    if text.Err? {
      return Some(text.error);
    }
    if Slice(text.value, 6) != prefix {
      return None;
    }
    var remapped := Remapped(trans, banks);
    if remapped.Err? {
      return Some(remapped.error);
    }
    var rem := remapped.value;
    var t := store.Insert(rem["clave"], rem["clave_rastreo"], rem);
    store.Append([Event(t.id, StateCreated, ReconMeta(rem))]);
    var answer := callback.SendTransaction(t);
    if answer.Raises? {
      return Some(ExternalError);
    }
    var status := Subscript(answer.response, "status");
    if status.Err? {
      return Some(status.error);
    }
    if status.value == Str("failed") {
      var found := store.Query(rem["clave"], None);
      // the transaction just inserted matches, so the query finds one
      assert Matches(store.transactions[t.id], rem["clave"], None);
      var failed := store.transactions[found.value].(estado := Failed);
      store.Update(found.value, failed);
      store.Append([Event(failed.id, StateError, CallbackMeta(answer.response))]);
    }
    return None;
  }

  /** A captured exception ends the loop: the remaining records change
      nothing. */
  lemma {:induction false} CapturedStays(run: Run, records: seq<Dict>, prefix: string, banks: map<string, string>, answers: nat -> Answer)
    requires run.captured.Some?
    ensures Reconciled(run, records, prefix, banks, answers) == run
    decreases |records|
  {
    if records != [] {
      CapturedStays(run, records[1..], prefix, banks, answers);
    }
  }

  /** `reconciliate_received_stp(records)`: the loop inside the try block;
      the exception it captures is returned. */
  method ReconcileReceived(store: Store, callback: CallbackHelper, records: seq<Dict>, prefix: string, banks: map<string, string>)
    returns (captured: Option<Error>)
    requires store.Valid()
    modifies store, callback
    ensures store.Valid()
    ensures Reconciled(Run(old(store.State()), old(callback.sent), None), records, prefix, banks, callback.answers)
      == Run(store.State(), callback.sent, captured)
  {
    ghost var start := Run(store.State(), callback.sent, None);
    captured := None;
    var i := 0;
    while i < |records| && captured.None?
      invariant 0 <= i <= |records|
      invariant store.Valid()
      invariant Reconciled(start, records, prefix, banks, callback.answers)
        == Reconciled(Run(store.State(), callback.sent, captured), records[i..], prefix, banks, callback.answers)
    {
      assert records[i..][1..] == records[i + 1..];
      captured := ReconcileOne(store, callback, records[i], prefix, banks);
      i := i + 1;
    }
    if captured.Some? {
      CapturedStays(Run(store.State(), callback.sent, captured), records[i..], prefix, banks, callback.answers);
    } else {
      assert records[i..] == [];
    }
  }

  // ---------------------------------------------------------------------
  // What a reconciliation keeps and what it changes

  /** A step only adds transactions and events and changes states. */
  lemma StepExtends(run: Run, trans: Dict, prefix: string, banks: map<string, string>, answers: nat -> Answer)
    ensures var r := Step(run, trans, prefix, banks, answers);
      Extends(run.db, r.db) && run.sent <= r.sent
  {
  }

  /** A reconciliation keeps every transaction and event it started with;
      what it sends to the callback is added to what was sent before. */
  lemma {:induction false} ReconciledExtends(run: Run, records: seq<Dict>, prefix: string, banks: map<string, string>, answers: nat -> Answer)
    ensures var r := Reconciled(run, records, prefix, banks, answers);
      Extends(run.db, r.db) && run.sent <= r.sent
    decreases |records|
  {
    if records != [] {
      var next := Step(run, records[0], prefix, banks, answers);
      StepExtends(run, records[0], prefix, banks, answers);
      ReconciledExtends(next, records[1..], prefix, banks, answers);
      ExtendsTransitive(run.db, next.db, Reconciled(next, records[1..], prefix, banks, answers).db);
    }
  }

  /** A record the loop leaves alone: it has a transaction, or its account is
      not the institution's. */
  predicate Skipped(txs: seq<Transaction>, trans: Dict, prefix: string)
  {
    Screen(txs, trans, prefix) == Ok(false)
  }

  /** A skipped record stays skipped as the database grows. */
  lemma SkippedStays(db1: Db, db2: Db, trans: Dict, prefix: string)
    requires Extends(db1, db2)
    requires Skipped(db1.transactions, trans, prefix)
    ensures Skipped(db2.transactions, trans, prefix)
  {
    var found := FirstMatch(db1.transactions, trans["id"], Some(trans["rastreo"]));
    if found.Some? {
      FirstMatchGrows(db1.transactions, db2.transactions, trans["id"], Some(trans["rastreo"]));
    }
  }

  /** After a step that raised nothing, its record is skipped: it either
      was, or its transaction now exists. */
  lemma StepSkips(run: Run, trans: Dict, prefix: string, banks: map<string, string>, answers: nat -> Answer)
    requires run.captured.None?
    ensures var r := Step(run, trans, prefix, banks, answers);
      r.captured.None? ==> Skipped(r.db.transactions, trans, prefix)
  {
    var r := Step(run, trans, prefix, banks, answers);
    var screen := Screen(run.db.transactions, trans, prefix);
    if screen == Ok(true) && Remapped(trans, banks).Ok? {
      var rem := Remapped(trans, banks).value;
      var n := |run.db.transactions|;
      assert Matches(r.db.transactions[n], trans["id"], Some(trans["rastreo"]));
    }
  }

  /** Once a reconciliation ends without an exception, every one of its
      records is skipped by the database it leaves. */
  lemma {:induction false} AllSkipped(run: Run, records: seq<Dict>, prefix: string, banks: map<string, string>, answers: nat -> Answer)
    requires run.captured.None?
    ensures var r := Reconciled(run, records, prefix, banks, answers);
      r.captured.None? ==> forall k :: 0 <= k < |records| ==> Skipped(r.db.transactions, records[k], prefix)
    decreases |records|
  {
    if records != [] {
      var next := Step(run, records[0], prefix, banks, answers);
      var r := Reconciled(next, records[1..], prefix, banks, answers);
      if next.captured.Some? {
        CapturedStays(next, records[1..], prefix, banks, answers);
      } else {
        StepSkips(run, records[0], prefix, banks, answers);
        ReconciledExtends(next, records[1..], prefix, banks, answers);
        SkippedStays(next.db, r.db, records[0], prefix);
        AllSkipped(next, records[1..], prefix, banks, answers);
        assert forall k :: 1 <= k < |records| ==> records[k] == records[1..][k - 1];
      }
    }
  }

  /** Records that are all skipped change nothing and call nothing. */
  lemma {:induction false} SkippedUnchanged(run: Run, records: seq<Dict>, prefix: string, banks: map<string, string>, answers: nat -> Answer)
    requires run.captured.None?
    requires forall k :: 0 <= k < |records| ==> Skipped(run.db.transactions, records[k], prefix)
    ensures Reconciled(run, records, prefix, banks, answers) == run
    decreases |records|
  {
    if records != [] {
      assert Step(run, records[0], prefix, banks, answers) == run;
      assert forall k :: 0 <= k < |records| - 1 ==> records[1..][k] == records[k + 1];
      SkippedUnchanged(run, records[1..], prefix, banks, answers);
    }
  }

  /** Reconciling the same records again, after a pass that raised nothing,
      adds no transaction and no event and sends nothing: the pass is
      idempotent. */
  lemma ReconcileTwice(run: Run, records: seq<Dict>, prefix: string, banks: map<string, string>, answers: nat -> Answer)
    requires run.captured.None?
    ensures var once := Reconciled(run, records, prefix, banks, answers);
      once.captured.None? ==> Reconciled(once, records, prefix, banks, answers) == once
  {
    var once := Reconciled(run, records, prefix, banks, answers);
    AllSkipped(run, records, prefix, banks, answers);
    if once.captured.None? {
      SkippedUnchanged(once, records, prefix, banks, answers);
    }
  }

  /** The transaction a 'failed' answer marks: the first one whose order id
      is the record's id. The query filters on the order id alone, so this
      is the new transaction only when no earlier one shares that id. */
  function FailedIndex(txs: seq<Transaction>, clave: Value): nat
  {
    match FirstMatch(txs, clave, None)
    case Some(i) => i
    case None => |txs|
  }

  /** A 'failed' answer marks the transaction at FailedIndex, adds its error
      event after the created one, and leaves every other row as it was. */
  lemma FailedAnswer(run: Run, rem: Dict, answers: nat -> Answer)
    requires Keyed(run.db.transactions)
    requires "clave" in rem && "clave_rastreo" in rem
    requires answers(|run.sent|).Replies?
    requires var response := answers(|run.sent|).response;
      "status" in response && response["status"] == Str("failed")
    ensures var r := Created(run, rem, answers);
      var txs := run.db.transactions;
      var t := Transaction(|txs|, rem["clave"], rem["clave_rastreo"], Initial, rem);
      var i := FailedIndex(txs, rem["clave"]);
      && r.captured.None?
      && i <= |txs|
      && r.db.transactions == (txs + [t])[i := (txs + [t])[i].(estado := Failed)]
      && r.db.events == run.db.events + [Event(|txs|, StateCreated, ReconMeta(rem)),
           Event(i, StateError, CallbackMeta(answers(|run.sent|).response))]
  {
    var txs := run.db.transactions;
    var t := Transaction(|txs|, rem["clave"], rem["clave_rastreo"], Initial, rem);
    var stored := txs + [t];
    assert Matches(stored[|txs|], rem["clave"], None);
    var i := FirstMatch(stored, rem["clave"], None).value;
    assert i == FailedIndex(txs, rem["clave"]) by {
      assert forall m :: 0 <= m < |txs| ==> stored[m] == txs[m];
      match FirstMatch(txs, rem["clave"], None)
      case Some(j) =>
        assert Matches(stored[j], rem["clave"], None);
      case None =>
    }
    assert stored[i].id == i;
  }

  /** Only when no stored transaction has the record's id as its order id
      is the new transaction the one marked failed. */
  lemma FailedMarksNew(run: Run, rem: Dict, answers: nat -> Answer)
    requires Keyed(run.db.transactions)
    requires "clave" in rem && "clave_rastreo" in rem
    requires answers(|run.sent|).Replies?
    requires var response := answers(|run.sent|).response;
      "status" in response && response["status"] == Str("failed")
    ensures var r := Created(run, rem, answers);
      r.db.transactions[|run.db.transactions|].estado == Failed
      <==> forall j :: 0 <= j < |run.db.transactions| ==> run.db.transactions[j].ordenId != rem["clave"]
  {
    FailedAnswer(run, rem, answers);
  }

  // ---------------------------------------------------------------------
  // The whole report

  /** The sections after the first, read in order and discarded. */
  const Discarded: seq<string> := [
    "STP sent successfully", "STP others", "SPEID submitted", "SPEID success",
    "SPEID others", "CUENCA created", "CUENCA submitted", "CUENCA succeeded",
    "CUENCA others", "STP/CUENCA", "STP/SPEID same status",
    "STP/SPEID different status", "SPEID/CUENCA submitted"]

  /** Reading k sections and dropping them: the first exception raised and
      where the cursor stops. */
  datatype Skimmed = Skimmed(failure: Option<Error>, cursor: nat)

  /** `get_transactions` on the report's lines, as a function of the
      cursor. */
  function Reader(lines: seq<string>): nat -> Section
  {
    (c: nat) => ParseSection(lines, c)
  }

  /** k sections read with `read` from c on. */
  function SkipWith(read: nat -> Section, c: nat, k: nat): Skimmed
    decreases k
  {
    if k == 0 then Skimmed(None, c)
    else
      var s := read(c);
      match s.records
      case Err(e) => Skimmed(Some(e), s.cursor)
      case Ok(_) => SkipWith(read, s.cursor, k - 1)
  }

  function SkipSections(lines: seq<string>, c: nat, k: nat): Skimmed
  {
    SkipWith(Reader(lines), c, k)
  }

  /** What `recon_transactions` leaves behind: the reconciliation of the
      first section and the exception that escapes, if any. */
  datatype Outcome = Outcome(run: Run, raised: Option<Error>)

  function Reconciliation(lines: seq<string>, db: Db, sent: seq<Transaction>, prefix: string,
                          banks: map<string, string>, answers: nat -> Answer): Outcome
  {
    var first := ParseSection(lines, 0);
    match first.records
    case Err(e) => Outcome(Run(db, sent, None), Some(e))
    case Ok(records) =>
      Outcome(Reconciled(Run(db, sent, None), records, prefix, banks, answers),
              SkipSections(lines, first.cursor, |Discarded|).failure)
  }

  /** `recon_transactions()` on a report file with these lines: the first
      section is reconciled, the others are read and dropped. A failure to
      read a section escapes (raised); an exception inside the
      reconciliation is captured. */
  method ReconTransactions(lines: seq<string>, store: Store, callback: CallbackHelper, prefix: string, banks: map<string, string>)
    returns (captured: Option<Error>, raised: Option<Error>)
    requires store.Valid()
    modifies store, callback
    ensures store.Valid()
    ensures Reconciliation(lines, old(store.State()), old(callback.sent), prefix, banks, callback.answers)
      == Outcome(Run(store.State(), callback.sent, captured), raised)
  {
    var f := new ReportFile(lines);
    // STP received successfully
    var transactions := GetTransactions(f);
    if transactions.Err? {
      return None, Some(transactions.error);
    }
    captured := ReconcileReceived(store, callback, transactions.value, prefix, banks);
    raised := DiscardSections(f, |Discarded|);
  }

  /** The k calls of `get_transactions` whose results are dropped. */
  method DiscardSections(f: ReportFile, k: nat) returns (raised: Option<Error>)
    modifies f
    ensures SkipSections(f.lines, old(f.cursor), k) == Skimmed(raised, f.cursor)
    decreases k
  {
    if k == 0 {
      return None;
    }
    var section := GetTransactions(f);
    if section.Err? {
      return Some(section.error);
    }
    raised := DiscardSections(f, k - 1);
  }

  /** Well-formed sections from line c on, with the counts counts[i..]. */
  ghost predicate WellFormedFrom(lines: seq<string>, c: nat, counts: seq<nat>, i: nat)
    decreases |counts| - i
  {
    i >= |counts| || (WellFormedSection(lines, c, counts[i]) && WellFormedFrom(lines, c + counts[i] + 2, counts, i + 1))
  }

  /** The lines the sections counts[i..] take: each count plus its header
      and its separator. */
  function Span(counts: seq<nat>, i: nat): nat
    decreases |counts| - i
  {
    if i >= |counts| then 0 else counts[i] + 2 + Span(counts, i + 1)
  }

  /** Sections that `read` parses without an exception from c on, the i-th
      taking counts[i] + 2 lines. */
  ghost predicate Chain(read: nat -> Section, c: nat, counts: seq<nat>, i: nat)
    decreases |counts| - i
  {
    i >= |counts| ||
    (read(c).records.Ok? && read(c).cursor == c + counts[i] + 2 && Chain(read, c + counts[i] + 2, counts, i + 1))
  }

  /** Well-formed sections form such a chain. */
  lemma {:induction false} WellFormedChain(lines: seq<string>, c: nat, counts: seq<nat>, i: nat)
    requires WellFormedFrom(lines, c, counts, i)
    ensures Chain(Reader(lines), c, counts, i)
    decreases |counts| - i
  {
    if i < |counts| {
      WellFormedSectionParses(lines, c, counts[i]);
      WellFormedChain(lines, c + counts[i] + 2, counts, i + 1);
    }
  }

  /** Reading the sections of a chain raises nothing and stops right after
      the last of them. */
  lemma {:induction false} SkipChain(read: nat -> Section, c: nat, counts: seq<nat>, i: nat, k: nat)
    requires i + k == |counts|
    requires Chain(read, c, counts, i)
    ensures SkipWith(read, c, k) == Skimmed(None, c + Span(counts, i))
    decreases k
  {
    if k > 0 {
      SkipChain(read, c + counts[i] + 2, counts, i + 1, k - 1);
    }
  }

  /** Well-formed sections after the first are all dropped without an
      exception. */
  lemma RestSkipped(lines: seq<string>, c: nat, counts: seq<nat>)
    requires |counts| == 1 + |Discarded|
    requires WellFormedFrom(lines, c, counts, 1)
    ensures SkipSections(lines, c, |Discarded|) == Skimmed(None, c + Span(counts, 1))
  {
    WellFormedChain(lines, c, counts, 1);
    SkipChain(Reader(lines), c, counts, 1, |Discarded|);
  }

  /** When the first section is read and the others are dropped without an
      exception, the outcome is the reconciliation of the first section's
      records and nothing escapes. */
  lemma ReadWithoutRaising(lines: seq<string>, db: Db, sent: seq<Transaction>, prefix: string,
                           banks: map<string, string>, answers: nat -> Answer, records: seq<Dict>, c: nat)
    requires ParseSection(lines, 0) == Section(Ok(records), c)
    requires SkipSections(lines, c, |Discarded|).failure.None?
    ensures Reconciliation(lines, db, sent, prefix, banks, answers)
      == Outcome(Reconciled(Run(db, sent, None), records, prefix, banks, answers), None)
  {
  }

  /** On a report of fourteen well-formed sections nothing escapes, and
      the database holds the reconciliation of the first section's records,
      one per record line (each the serialization of its line, by
      `WellFormedSectionParses`). */
  lemma WellFormedReport(lines: seq<string>, counts: seq<nat>, db: Db, sent: seq<Transaction>, prefix: string,
                         banks: map<string, string>, answers: nat -> Answer)
    requires |counts| == 1 + |Discarded|
    requires WellFormedFrom(lines, 0, counts, 0)
    ensures var first := ParseSection(lines, 0);
      && first.records.Ok?
      && |first.records.value| == counts[0]
      && Reconciliation(lines, db, sent, prefix, banks, answers)
         == Outcome(Reconciled(Run(db, sent, None), first.records.value, prefix, banks, answers), None)
    // the file is read up to the end of the last section
    ensures SkipSections(lines, ParseSection(lines, 0).cursor, |Discarded|) == Skimmed(None, Span(counts, 0))
  {
    WellFormedSectionParses(lines, 0, counts[0]);
    RestSkipped(lines, counts[0] + 2, counts);
    var first := ParseSection(lines, 0);
    ReadWithoutRaising(lines, db, sent, prefix, banks, answers, first.records.value, first.cursor);
  }
}
