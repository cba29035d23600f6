# speid order submission and reconciliation, modelled in Dafny

This project models the core of speid, a service that sends money-transfer
orders to the STP clearing network and reconciles STP's daily report with
its own database. The model has three parts.

- **Reconciliation** (`speid/recon.py`). The report is a sequence of lines
  read through a cursor. It holds fourteen sections. Each section has a
  header with a count in parentheses, that many record lines and a
  separator line. Each record line is a Python-style dict literal. It is
  requoted, decoded and normalised: a `'None'` value becomes `''` for
  `rfc_curp_beneficiario` and null for every other key. The first section
  holds the transfers STP received. A record that the database does not
  already hold, and whose beneficiary account starts with the institution
  prefix, is remapped. Then it is stored as a transaction, announced by a
  `created` event and sent to the callback. A `'failed'` status marks the
  transaction failed and adds an `error` event. The first exception ends the
  loop and is captured. The other thirteen sections are read and dropped.
- **Order submission** (`speid/daemon/tasks.py`). `send_order` commits the
  transaction. Then it submits the order to STP with its keys renamed. It
  records a `CREATE` event and a `COMPLETE` or `ERROR` event. A refused
  order goes to the retry queue.
- **Builder registry** (`speid/validations/speid_transaction_factory.py`).
  This is a dict of builders: filled by `register_builder`, read by
  `create`.

State that the source changes in place is a class with `modifies` clauses:

- the database session (`Ledger.Store`);
- the report file (`Report.ReportFile`);
- the callback (`Recon.CallbackHelper`);
- the STP client (`Tasks.StpClient`);
- the retry queue (`Tasks.RetryQueue`);
- the factory (`Factory.TransactionFactory`).

Each method is proved equal to a pure function:

- `Report.ParseSection` for `get_transactions`;
- `Recon.Step` and `Recon.Reconciled` for the loop;
- `Recon.Reconciliation` for `recon_transactions`;
- `Tasks.SentOrder` for `send_order`;
- `Factory.Built` for `create`.

The properties are proved about those functions.

Modules, in dependency order:

| file | module | what |
|---|---|---|
| values.dfy | Values | Python values, dicts, truthiness, slicing, exceptions |
| decimal.dfy | Decimal | decimal digits and `int()` on a string |
| json.dfy | FlatJson | `json.loads` on flat objects, the quote swap, and the rendering of a record |
| normalize.dfy | Normalizer | `serialize`, `stp_to_spei_bank_code`, `get_account_type` |
| store.dfy | Ledger | transactions, events, the session |
| report.dfy | Report | the report file, `re.search` for the count, `get_transactions` |
| recon.dfy | Recon | `reconciliate_received_stp`, `recon_transactions` |
| tasks.dfy | Tasks | `send_order` |
| factory.dfy | Factory | `TransactionFactory` |

Collaborators outside the model are parameters:

- the bank table `BANKS` is a `map<string, string>`;
- `STP_PREFIJO` is a string;
- the callback's answers and STP's replies are functions from the call
  number to the outcome;
- the retry queue's failures are a function from the call number to
  whether that call raises;
- `snake_to_camel` is a function `string -> string`;
- the columns `Transaction(order_dict)` sets are a function of the dict.

Behaviours of the code worth knowing:

- The `created` event's meta is the record after its keys are remapped
  (speid/recon.py:95, after the changes of lines 62-86).
- The institution check compares the first six characters of the
  beneficiary account with the prefix (speid/recon.py:61).
- When the retry call raises, neither event of `send_order` is committed,
  because the final add and commit come after that call
  (speid/daemon/tasks.py:36-40).
- After a `'failed'` callback status, the query filters on the order id
  alone (speid/recon.py:102-106), with no ordering, so any transaction
  with that order id may be the one marked failed. The model takes the
  earliest inserted one. With that reading, the row marked failed is the
  new transaction exactly when no earlier transaction shares the id
  (`Recon.FailedMarksNew`).

## Model

| member | source | states |
|---|---|---|
| Normalizer.Serialize | speid/recon.py:21-30 | The loop over the decoded dict leaves the result of `Serialized`: same keys; a `'None'` value becomes `''` under `rfc_curp_beneficiario` and null under any other key; every other value is kept; a decoding error is returned as is |
| Normalizer.SerializeRendered | speid/recon.py:22-30 | A record line written with single quotes decodes to its fields, with every `'None'` replaced |
| FlatJson.DecodeRound | speid/recon.py:23 | `json.loads` of a rendered flat object gives back the dict of its fields, the last of two equal keys winning |
| FlatJson.RequoteObject | speid/recon.py:22 | Replacing every `'` by `"` turns a record written with single quotes into the same record with double quotes |
| Normalizer.BankCode | speid/recon.py:33-37 | Never fails: the table's entry when the code is a key, None exactly when it is not |
| Normalizer.AccountType | speid/recon.py:40-46 | None for a falsy account; TypeError exactly for a truthy non-string; otherwise Some exactly when the first three characters are a bank code, holding at most the first two characters of that code |
| Report.ReportFile.ReadLine | speid/recon.py:121 | `readline()`: the line at the cursor and the cursor one further, or `''` and an unmoved cursor at the end |
| Report.ReadLinesWithin | speid/recon.py:124-125 | Inside the file, n reads return the next n lines concatenated and move the cursor by n |
| Report.GroupOfHeader | speid/recon.py:122 | A header `pre(g)post`, with no `(` in pre and no `)` or newline in g, yields the group g |
| Report.GroupNeedsParenthesis | speid/recon.py:122 | A header without `(` has no match, so `.group` raises |
| Report.GroupNeedsClose | speid/recon.py:122 | A header without `)` has no match either |
| Decimal.ParseIntShow | speid/recon.py:122 | `int()` of the decimal text of n, with or without a minus sign, gives n or -n |
| Decimal.ParseIntNeedsDigit | speid/recon.py:122 | `int()` of a text without a digit raises ValueError |
| Report.SplitLines | speid/recon.py:128 | `split('\n')` gives at least one piece |
| Report.SplitAfter | speid/recon.py:128 | Splitting `a + '\n' + b` gives a, then the pieces of b |
| Report.RemoveFirst | speid/recon.py:129 | `remove('')` shortens the list by one, and fails exactly when `''` is absent |
| Report.RemoveFirstRemoves | speid/recon.py:129 | `remove(x)` drops the first occurrence of x and keeps the other items in order |
| Report.SerializeAll | speid/recon.py:131 | On success, one dict per piece, in order, each the serialization of its piece |
| Report.SerializeAllFirstError | speid/recon.py:131 | A failure carries the error of the first piece that does not serialize; every piece before it serializes |
| Report.SerializeLines | speid/recon.py:131 | The map over the pieces returns `SerializeAll` of them |
| Report.BodyRecords | speid/recon.py:126-131 | An empty body gives no records |
| Report.ParseBody | speid/recon.py:126-131 | Splitting, removing `''` and serializing the body text gives `BodyRecords` of it |
| Report.ReadBody | speid/recon.py:123-125 | The loop of n reads returns the concatenated lines and the cursor of `ReadLines` |
| Report.ParseSection | speid/recon.py:120-133 | The cursor never moves backwards and never passes the end of the file |
| Report.GetTransactions | speid/recon.py:120-133 | Returns, and leaves the cursor where, `ParseSection` says |
| Report.ChompedPieces | speid/recon.py:128-131 | Each record line without its newline is a non-empty piece that serializes |
| Report.SplitRecordLines | speid/recon.py:128 | Splitting record lines at `'\n'` gives each line without its newline, then a trailing `''` |
| Report.RemoveTrailingEmpty | speid/recon.py:129 | With no other empty piece, `remove('')` drops exactly the trailing `''` |
| Report.SerializeAllOk | speid/recon.py:131 | When every piece serializes, the whole map succeeds |
| Report.BodyParses | speid/recon.py:126-131 | A non-empty body of record lines is split into those lines without their newlines, `''` is removed, and every piece serializes |
| Report.SectionBody | speid/recon.py:120-133 | A header counting n reads the next n lines as the body, then the separator only when the body parses |
| Report.BodyOfRecordLines | speid/recon.py:126-131 | A body of record lines yields one record per line, in order, each the serialization of its line |
| Report.WellFormedSectionParses | speid/recon.py:121-133 | A section with count n and n record lines yields exactly n records in file order, each the serialization of its line, and moves the cursor by exactly n + 2 |
| Report.EmptySection | speid/recon.py:123-133 | A header `(0)` gives no records and reads only the header and the separator |
| Report.HeaderWithoutCount | speid/recon.py:121-122 | A header the pattern does not match (no `(`, or no `)` to close it) raises AttributeError after reading one line |
| Report.HeaderNotANumber | speid/recon.py:121-122 | A group that `int()` rejects (no digit, or a stray character as in `1a`) raises ValueError after reading one line |
| Report.HeaderCount | speid/recon.py:122 | The header `pre(n)post` carries the count n |
| Values.Subscript | speid/recon.py:56 | `d[k]`: the value when k is a key, KeyError(k) exactly when it is not |
| Values.Slice | speid/recon.py:61 | `s[:n]`: a prefix of s of length min(n, \|s\|) |
| Values.AsStr | speid/recon.py:61 | Only a string can be sliced; anything else raises TypeError |
| Ledger.FirstMatch | speid/recon.py:53-59 | `.first()`: the index of the first transaction that matches the filter, None exactly when none matches |
| Ledger.FirstMatchGrows | speid/recon.py:53-59 | A match that exists keeps existing as transactions are added or change state |
| Ledger.Store.Query | speid/recon.py:53-59 | The query returns `FirstMatch` over the stored transactions |
| Ledger.Store.Insert | speid/recon.py:88-90 | The new row is added at the end with the next id; the events are unchanged |
| Ledger.Store.Append | speid/recon.py:97-98 | The events are added at the end; the transactions are unchanged |
| Ledger.Store.Update | speid/recon.py:107 | Only the row at that index changes, and its id stays the same |
| Recon.Screen | speid/recon.py:53-61 | Ok(true) exactly when the record has `id`, `rastreo` and a string `cuenta_beneficiario`, no stored transaction matches its id and tracking key, and the account's first six characters are the prefix; it raises exactly when a key is missing or when a non-string account is sliced |
| Recon.Hundredth | speid/recon.py:86 | `monto / 100`: a number whose hundredfold is the amount; TypeError exactly for a non-number |
| Recon.Remapped | speid/recon.py:62-86 | Succeeds exactly when every key read is present with the type it needs; a failure is the KeyError of a missing key or a TypeError; `clave` and `clave_rastreo` are the old `id` and `rastreo` |
| Recon.RemappedFields | speid/recon.py:62-86 | The remapped keys are the old keys without the three deleted and four popped ones, plus the eight written ones; also given: each renamed value, both institutions (first three characters of the account), both account types, the amount divided by 100, and every other field unchanged |
| Recon.Created | speid/recon.py:88-114 | One transaction is added, then its `created` event, and it is sent once. Nothing stored earlier is lost. A raising callback or a reply without `status` is captured. Unless the status is `'failed'`, the database holds exactly the old rows and events plus the new row and its `created` event |
| Recon.CallbackHelper.SendTransaction | speid/recon.py:100 | Records the transaction sent and gives the answer for that call |
| Recon.ReconcileOne | speid/recon.py:51-114 | One pass of the loop body leaves the store, the callback's record and the captured exception that `Step` gives |
| Recon.CapturedStays | speid/recon.py:50-117 | After an exception is captured, the remaining records change nothing |
| Recon.ReconcileReceived | speid/recon.py:49-117 | The loop leaves the state that `Reconciled` gives, and stops at the first exception |
| Recon.StepExtends | speid/recon.py:51-114 | One record only adds transactions and events and changes states; what was sent stays a prefix |
| Recon.ReconciledExtends | speid/recon.py:49-117 | The same holds for the whole pass: earlier commits remain |
| Recon.SkippedStays | speid/recon.py:53-61 | A skipped record stays skipped as the database grows |
| Recon.StepSkips | speid/recon.py:53-98 | After a record is handled without an exception, it is skipped |
| Recon.AllSkipped | speid/recon.py:49-117 | After a pass without an exception, every record of the pass is skipped |
| Recon.SkippedUnchanged | speid/recon.py:51-61 | Records that are all skipped add no transaction, no event and no callback call |
| Recon.ReconcileTwice | speid/recon.py:49-117 | After a pass without an exception, a second pass over the same records changes nothing |
| Recon.FailedAnswer | speid/recon.py:100-114 | A `'failed'` status marks the first transaction whose order id is `clave`, and adds exactly one `error` event after the `created` one; every other row stays as it was |
| Recon.FailedMarksNew | speid/recon.py:102-107 | The new transaction is the one marked failed exactly when no earlier transaction has that order id |
| Recon.ReconTransactions | speid/recon.py:155-198 | Reading the report leaves the state and the escaping exception that `Reconciliation` gives: the first section reconciled, then thirteen sections read and dropped |
| Recon.DiscardSections | speid/recon.py:161-198 | The k dropped reads stop at the first exception, at the cursor `SkipSections` gives |
| Recon.WellFormedChain | speid/recon.py:120-133 | Well-formed sections, read one after the other, each raise nothing and end exactly n + 2 lines after their header |
| Recon.SkipChain | speid/recon.py:161-198 | Dropping such a chain of sections raises nothing, and the cursor ends after the sum of their lengths |
| Recon.RestSkipped | speid/recon.py:161-198 | The thirteen well-formed sections after the first are dropped without an exception, and the cursor ends after their lines |
| Recon.ReadWithoutRaising | speid/recon.py:155-198 | When the first section reads without an exception and the dropped ones raise nothing, the outcome is the reconciliation of the first section's records, with nothing escaping |
| Recon.WellFormedReport | speid/recon.py:155-198 | On fourteen well-formed sections nothing escapes. The first section yields one record per record line, and those records are what is reconciled. The reads end after the sum of the sections' n + 2 lines |
| Tasks.RenameKeys | speid/daemon/tasks.py:22 | The renamed keys are exactly the images of the order's keys. Each keeps the value of a key it comes from |
| Tasks.RenamedInjective | speid/daemon/tasks.py:22 | When no two keys are renamed alike, every value appears under its key's new name |
| Tasks.StpClient.Registra | speid/daemon/tasks.py:23-24 | Records the order submitted and gives the reply for that call |
| Tasks.RetryQueue.Call | speid/daemon/tasks.py:35-36 | Records the message and says whether that call raises |
| Tasks.SentOrder | speid/daemon/tasks.py:10-40 | The transaction is committed before the order is sent, whatever follows. The renamed order is submitted once. The task raises exactly when the submission raises, or when a refused order's retry call raises. A refused order goes to the queue once. The orden_id becomes the network's id exactly on acceptance. No event is committed when the task raises; otherwise exactly `CREATE` with the original dict, then `COMPLETE` or `ERROR` with the reply |
| Tasks.SendOrder | speid/daemon/tasks.py:10-40 | The task leaves the store, the submissions and the retry calls that `SentOrder` gives. What it submits is a renaming of the order |
| Tasks.SentEvents | speid/daemon/tasks.py:15-19 | Without an exception there are exactly two new events, for the new transaction. The second is `COMPLETE` exactly when the id is positive and `ERROR` exactly when it is not |
| Tasks.Refused | speid/daemon/tasks.py:31-36 | An id of 0 or below keeps the orden_id and sends the renamed order to the queue exactly once |
| Tasks.AcceptedOrder | speid/daemon/tasks.py:31-32 | A positive id becomes the orden_id, with no retry call and no exception |
| Tasks.SentKeyed | speid/daemon/tasks.py:12-14 | Ids stay the positions of the transactions |
| Factory.TransactionFactory.constructor | speid/validations/speid_transaction_factory.py:6-7 | A new factory has no builders |
| Factory.TransactionFactory.RegisterBuilder | speid/validations/speid_transaction_factory.py:9-10 | The key maps to the new builder; every other key is as before |
| Factory.TransactionFactory.Create | speid/validations/speid_transaction_factory.py:12-16 | Returns `Built`. A missing key or a falsy builder raises ValueError(key) |
| Factory.Built | speid/validations/speid_transaction_factory.py:12-16 | ValueError(key) for a missing key or a falsy builder; otherwise what the builder gives for the keyword arguments |
| Factory.EmptyFails | speid/validations/speid_transaction_factory.py:6-7 | A fresh factory fails for every key |
| Factory.RegisteredBuilds | speid/validations/speid_transaction_factory.py:9-16 | After registering a callable, create calls it with the keyword arguments |
| Factory.RegisterOther | speid/validations/speid_transaction_factory.py:9-10 | Registering one key leaves create on every other key unchanged |
| Factory.Reregister | speid/validations/speid_transaction_factory.py:9-10 | Registering a key again replaces its earlier builder |

## Left out

- `download_report` and `reconciliate` (speid/recon.py:136-152, 201-203) are S3 and file I/O. The model starts from the report's lines.
- Opening the report file (speid/recon.py:156) is left out. The file is a sequence of lines with a cursor.
- The environment reads (speid/recon.py:15-18) are left out. The prefix and the bank table are parameters.
- `capture_exception` (speid/recon.py:117) is left out. The captured exception is returned instead of being sent to Sentry.
- Everything the callback, `registra()`, `Orden(**order)` or the retry client raises is a single `ExternalError`, or a `raised` flag. The model does not know their exception types.
- `json.loads` is modelled on flat objects only: strings without escapes, integers, `true`, `false` and `null`. A record using more of JSON decodes to `DecodeError`. The model also does not capture a line that decodes to something other than an object.
- `int()` is modelled on ASCII text only: surrounding whitespace, a sign, and digits with single underscores. Unicode digits and spaces are not modelled.
- Dict key order is not modelled. It affects the text of `str(...)` in event metas. It also decides which value wins when `snake_to_camel` maps two keys to one name. `Tasks.RenameKeys` therefore states only that each value comes from one of those keys.
- Float arithmetic is left out. `monto / 100` is exact division on `real`, so float rounding is not modelled.
- `Transaction.transform` (speid/recon.py:88) is not part of this model. It is assumed to set `orden_id` from `clave` and `clave_rastreo` from `clave_rastreo`, the two columns the queries at lines 56 and 104 filter on.
- `Transaction(order_dict)` (speid/daemon/tasks.py:12) is not part of this model. The columns it sets are a function of the dict.
- Python's `str` and the `'Created by recon: '` text of event metas are left out. A meta holds the dict or response it is built from.
- `get_transactions` returns `''` (a string) for an empty body. The model gives the empty record list there, and both iterate to nothing. For a non-empty body both give the list of records.
- The `ValueError` of `list.remove` is modelled as `ValueError('')`. Python's message text is not modelled.
- `Ledger.FirstMatch`: `.first()` on an unordered query (speid/recon.py:102-106, and the existence check at lines 55-58) may return any matching row. The model returns the earliest inserted match. `Recon.FailedAnswer` and `Recon.FailedMarksNew` depend on that choice.
- `Recon.Created`: the `'failed'` branch takes the earliest inserted transaction with that order id. The query can always find one (the new row matches), so the `AttributeError` on a `None` result at speid/recon.py:107 is unreachable and not modelled.
- Updating the record dict in place (`del`, `pop`, item assignment) is left out. `Recon.Remapped` builds the resulting dict as a new value. The caller's records are not seen again, so nothing reads the mutation.
- The thirteen dropped `get_transactions` calls (speid/recon.py:162-198) are one recursive method, `Recon.DiscardSections`, called with 13.
- Database commit failures, rollbacks and the session's identity map are left out. A commit is an append or an update that cannot fail.
- The Celery task machinery (`@app.task`) and concurrency between tasks are left out.
- `Recon.RemappedFields`: its body is empty. Dafny proves it from the definition of `Recon.Remapped`, whose if-chain follows the order of the statements.
