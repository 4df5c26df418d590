# MKS Finance CDC pipeline: sink decoder, upsert loop and event viewer

This project models, in Dafny, the two parts of the MKS Finance change-data-capture
pipeline that make decisions. It proves their properties.

- **The custom ODS sink** (`py_script/custom_ods_sink.py`) consumes Debezium change
  events for three MySQL tables: `customers`, `credit_applications` and
  `vehicle_ownership`.
  - It decodes Debezium's date, timestamp and Base64 decimal encodings.
  - It maps each event payload to a row.
  - It upserts the row into the PostgreSQL ODS with `INSERT ... ON CONFLICT (key) DO UPDATE`.
  - Its main loop polls Kafka, routes each message by topic, counts successes,
    commits offsets after each batch, and stops after ten empty polls in a row.
- **The CDC event viewer** (`py_script/consume_cdc_events.py`) decides, for each
  message, whether to skip it or show it. For a shown event it also works out:
  - the operation;
  - the timestamp and the table;
  - the data fields.

Modules, one file each:

| file | module | content |
|---|---|---|
| `wrappers.dfy` | `Wrappers` | `Option`, and `Result`, whose `Raises` is a Python exception that propagates |
| `json.dfy` | `Json` | decoded JSON values, Python truthiness, `dict.get`, `or`, Kafka messages |
| `strings.dfy` | `Strings` | Python's `sub in s` and `s.split(sep)`, with their algebra |
| `calendar.dfy` | `Calendar` | the proleptic Gregorian calendar of `datetime.date`, counted from 1970-01-01 |
| `bytes.dfy` | `Bytes` | big-endian unsigned and two's-complement integers (`int.from_bytes`) |
| `base64.dfy` | `Base64` | the RFC 4648 section 4 alphabet: a strict decoder and its encoder |
| `codec.dfy` | `Codec` | `convert_debezium_date`, `convert_debezium_timestamp`, `convert_debezium_decimal` |
| `records.dfy` | `Records` | the three `convert_*_record` mappers, written as column rules |
| `store.dfy` | `Store` | the three tables, the upsert, the `insert_*` functions and the `Database` class |
| `sink.dfy` | `Sink` | the poll/route/commit loop of `main`, both as a fold and as the `Run` method |
| `events.dfy` | `Events` | the per-message classification of `consume_events`, `print_event`'s choices, the counters |

Conventions:

- A Python value is a `JSON`, and Python's `None` is `Null`.
- A record is a `map<string, Cell>`:
  - plain payload values are copied into `Cell`s as they are;
  - decoded values become `DateCell`, `TimestampCell` or `DecimalCell`.
- A table maps a key value to its row.
- The `Database` class holds the three tables and performs the inserts.
- Whether a statement fails at the database is an input:
  - `executeFails` for a single insert;
  - the `Oracle` function for a whole run.
- Kafka's poll results are an input sequence of `Poll` values. A KeyboardInterrupt
  is the `Interrupt` alternative, which carries the messages handled before it.

Points where the code does something other than what its comments or its evident intent suggest; the model follows the code:

- **The sink's error containment has gaps.** The per-record handlers log and skip a
  bad event, but the checks `'payload' not in value` and `value['payload']`
  (`custom_ods_sink.py:523-528`) run outside every one of them. Any value they
  raise on ends the whole run through the outer handler (line 589), and that batch
  is never committed. This covers:
  - a truthy number;
  - a truthy boolean;
  - a string containing "payload";
  - a list holding the string "payload".

  `Sink.Unwrap` and `Sink.MessageStep` model this as the `Crashed` status.
- **Decimal bytes are not split into a scale and a value.** The comment at
  `custom_ods_sink.py:72-73` says the first decoded byte is the scale, but the code
  reads every decoded byte as the unscaled value (lines 79-83). The model does what
  the code does: the scale is always the caller's `scale=2`.
- **A falsy `op` is used as it is.** The viewer's operation is `__op` when that is
  truthy, otherwise `event_data.get('op', 'UNKNOWN')`. A present but falsy `op` (an
  empty string, for instance) is therefore used as given; it does not become
  "UNKNOWN".

## Model

| member | source | states |
|---|---|---|
| Json.GetOr | py_script/custom_ods_sink.py:98-121 | `payload.get(k, default)`: the stored value, null included, when the key is present; the default only when it is absent |
| Json.Or | py_script/consume_cdc_events.py:46 | Python `a or b`: `a` when it is truthy, otherwise `b` |
| Strings.ContainsAt | py_script/custom_ods_sink.py:531 | the substring test holds exactly when `sub` occurs at some index of `s` |
| Strings.Split | py_script/consume_cdc_events.py:54 | `split('.')` yields at least one piece, and no piece contains the separator |
| Strings.JoinSplit | py_script/consume_cdc_events.py:54 | joining the pieces with the separator gives back the topic |
| Strings.SplitCount | py_script/consume_cdc_events.py:54-55 | there is one more piece than there are separators |
| Strings.LastPiece | py_script/consume_cdc_events.py:56 | with two or more pieces, the last piece is the text after the last separator |
| Calendar.DateOfEpochDayCorrect | py_script/custom_ods_sink.py:52-53 | the date of epoch day z is a valid calendar date whose day number, counted from 1970-01-01, is z |
| Calendar.DateOfEpochDayZero | py_script/custom_ods_sink.py:52 | epoch day 0 is 1970-01-01 |
| Calendar.EpochDayRoundTrip | py_script/custom_ods_sink.py:52-53 | every valid date is the date of its own epoch day |
| Calendar.EpochDayMonotone | py_script/custom_ods_sink.py:52-53 | day numbering is strictly increasing in calendar order |
| Calendar.DateOfEpochDayMonotone | py_script/custom_ods_sink.py:52-53 | a later epoch day gives a later date |
| Calendar.DateOfEpochDayInjective | py_script/custom_ods_sink.py:52-53 | distinct epoch days give distinct dates |
| Calendar.SupportedRange | py_script/custom_ods_sink.py:52-53 | the date falls in Python's years 1 to 9999 exactly when the epoch day lies in [-719162, 2932896] |
| Bytes.Unsigned | py_script/custom_ods_sink.py:81 | n bytes read big-endian give a value below 256^n |
| Bytes.Signed | py_script/custom_ods_sink.py:81 | n ≥ 1 bytes read as two's complement give a value in [-2^(8n-1), 2^(8n-1)) |
| Bytes.ToSigned | py_script/custom_ods_sink.py:81 | every value in that range has an n-byte encoding that reads back as the value |
| Bytes.UnsignedRoundTrip | py_script/custom_ods_sink.py:81 | re-encoding the unsigned value of bytes gives back the same bytes |
| Bytes.SignedRoundTrip | py_script/custom_ods_sink.py:81 | re-encoding the signed value of bytes gives back the same bytes |
| Base64.ValueOf | py_script/custom_ods_sink.py:70 | each alphabet character decodes to the 6-bit value that encodes it; the pad character decodes to nothing |
| Base64.DecodeGroup | py_script/custom_ods_sink.py:70 | a valid 4-character group yields 1 to 3 bytes |
| Base64.Decode | py_script/custom_ods_sink.py:70 | a successful decode is empty exactly when the text is empty |
| Base64.DecodeEncode | py_script/custom_ods_sink.py:70 | decoding the Base64 encoding of any byte string gives back those bytes |
| Codec.ConvertDate | py_script/custom_ods_sink.py:48-53 | None gives None. A Python integer gives a date exactly when it is within the supported range, and that date is the valid date with that epoch day. Out-of-range integers and strings, lists or dicts raise |
| Codec.ConvertDateZero | py_script/custom_ods_sink.py:52-53 | input 0 gives 1970-01-01 |
| Codec.ConvertDateMonotone | py_script/custom_ods_sink.py:48-53 | decoding is strictly increasing, so it is injective where it succeeds |
| Codec.ConvertTimestamp | py_script/custom_ods_sink.py:55-59 | None gives None, a Python integer keeps its milliseconds, a string, list or dict raises |
| Codec.ConvertDecimal | py_script/custom_ods_sink.py:61-91 | None, malformed Base64, zero bytes and more than 8 bytes give None without raising. 1 to 8 bytes give their signed big-endian value with the caller's scale, which lies in the n-byte two's-complement range. A list gives None. It raises exactly for a number, a boolean or a dict |
| Codec.DecimalRoundTrip | py_script/custom_ods_sink.py:79-83 | for 1 ≤ n ≤ 8, every v in [-2^(8n-1), 2^(8n-1)) comes back from the Base64 text of its n-byte encoding |
| Codec.MonthlyIncomeExample | py_script/custom_ods_sink.py:79-83 | "B6Eg" with scale 2 is 500000 unscaled, that is 5000.00 |
| Records.ApplyRule | py_script/custom_ods_sink.py:98-121 | a copied column is `payload.get(field, default)` |
| Records.ConvertRecord | py_script/custom_ods_sink.py:93-136 | a mapper raises exactly when the payload is not a dict or one column's decoder raises. Otherwise the row has exactly the mapper's columns, each the value of its rule |
| Records.CustomerRecordDefaults | py_script/custom_ods_sink.py:98-121 | the customer row keeps a present field's value, null included, and uses `'Active'`, `'SYSTEM'`, `'SYSTEM'` and `'r'` only when `status`, `created_by`, `updated_by` or `__op` is absent |
| Records.CreditApplicationRecordDefaults | py_script/custom_ods_sink.py:208-247 | the same for `payment_status` `'Current'`, `collateral_status` `'Held'` and `__op` `'r'` |
| Records.VehicleOwnershipRecordDefaults | py_script/custom_ods_sink.py:328-345 | the same for `__op` `'r'`, and the key copied as it is |
| Records.ApplicationDatesFalsyAreNone | py_script/custom_ods_sink.py:228-236 | the disbursement, first-installment and last-payment dates are None for every falsy input, epoch day 0 included |
| Records.CustomerEpochDayZero | py_script/custom_ods_sink.py:124 | a customer's `date_of_birth` of 0 is 1970-01-01, not None |
| Records.VehicleEpochDayZero | py_script/custom_ods_sink.py:341 | a vehicle's `purchase_date` of 0 is 1970-01-01, not None |
| Store.SetLists | py_script/custom_ods_sink.py:161-189 | the SET lists hold every non-key column, except `created_by` for customers (likewise at lines 277-304 and 369-383) |
| Store.MapperColumns | py_script/custom_ods_sink.py:143-160 | each mapper produces exactly the columns its INSERT binds (likewise at lines 263-276 and 359-368) |
| Store.Project | py_script/custom_ods_sink.py:143-160 | the inserted row takes the record's value in every column |
| Store.Upsert | py_script/custom_ods_sink.py:143-189 | the row at the record's key is set, and rows under other keys are unchanged. On a fresh key the whole record is written; on a conflict the SET columns are overwritten and the others keep their stored values |
| Store.UpsertWellFormed | py_script/custom_ods_sink.py:161 | every row keeps exactly the table's columns and stays filed under its own key |
| Store.UpsertIdempotent | py_script/custom_ods_sink.py:161-189 | applying the same record twice gives the same table as applying it once |
| Store.UpsertLastWriteWins | py_script/custom_ods_sink.py:277-304 | with a full SET list, of two records with the same key the later one alone decides the row |
| Store.LastWriteWinsApplicationsAndVehicles | py_script/custom_ods_sink.py:369-383 | last write wins for `credit_applications` and `vehicle_ownership` |
| Store.UpsertKeepsColumn | py_script/custom_ods_sink.py:161-189 | with one column left out of the SET list, a later write with the same key overwrites every other column, and that column keeps the first writer's value |
| Store.CustomerCreatedByKept | py_script/custom_ods_sink.py:161-189 | for customers, `created_by` stays as the stored row, or else the earlier record, set it, and every other column follows the later record |
| Store.Normalize | py_script/custom_ods_sink.py:257-260 | an absent normalised column is added as None, and every existing entry is kept (also lines 355-356) |
| Store.NormalizeIdentity | py_script/custom_ods_sink.py:257-260 | normalisation changes nothing when the columns are present (also lines 355-356) |
| Store.NullFilledColumns | py_script/custom_ods_sink.py:257-260 | the normalised columns are columns of the table |
| Store.ConvertedRecordInserts | py_script/custom_ods_sink.py:257-260 | a mapper's record needs no normalisation and binds every placeholder (also lines 355-356) |
| Store.Insert | py_script/custom_ods_sink.py:192-199 | it returns True exactly when the statement does not fail and the record binds. On False every table is unchanged; on True only the target table changes, by the upsert (also lines 307-319 and 386-398) |
| Store.InsertWellFormed | py_script/custom_ods_sink.py:192-199 | an insert keeps every table well formed |
| Store.Database.constructor | py_script/custom_ods_sink.py:411-412 | the database starts with the given well-formed tables |
| Store.Database.Execute | py_script/custom_ods_sink.py:192-199 | the new tables and the flag are those of `Insert`, and the tables stay well formed |
| Store.Database.InsertCustomer | py_script/custom_ods_sink.py:138-201 | `insert_customer`, as `Insert` for customers |
| Store.Database.InsertCreditApplication | py_script/custom_ods_sink.py:252-321 | `insert_credit_application`, normalisation included |
| Store.Database.InsertVehicleOwnership | py_script/custom_ods_sink.py:350-400 | `insert_vehicle_ownership`, normalisation included |
| Sink.Route | py_script/custom_ods_sink.py:531-562 | routing tests `customers`, then `credit_applications`, then `vehicle_ownership` as substrings of the topic, and the first that matches wins |
| Sink.Unwrap | py_script/custom_ods_sink.py:519-528 | a falsy value has no payload. Only a dict with a `payload` key yields one. A truthy number or boolean, a string containing "payload" and a list holding "payload" raise; other values are skipped |
| Sink.Bump | py_script/custom_ods_sink.py:536 | one success counter rises by one, and the others and the message count stay the same |
| Sink.Target | py_script/custom_ods_sink.py:528-565 | a message is inserted exactly when its value has a payload, its topic routes to a table, and that table's mapper returns a record with a truthy key; the record inserted is the mapper's result |
| Sink.MessageStep | py_script/custom_ods_sink.py:515-573 | every message adds one to the message count, skipped ones included. The success total rises by at most one. The run crashes exactly when unwrapping raises |
| Sink.Messages | py_script/custom_ods_sink.py:513-573 | handling a batch never commits or touches the empty-poll count. A batch that completes counts all its messages, and the successes added never exceed the messages added |
| Sink.PollStep | py_script/custom_ods_sink.py:498-580 | an empty poll adds one to the empty count and drains the run at 10, with nothing else changed. A non-empty batch resets the count and, if it completes, appends one commit at the new message count. An interrupt never commits |
| Sink.StartInv | py_script/custom_ods_sink.py:488-493 | the counters start at zero, so the run invariant holds |
| Sink.MessageStepWellFormed | py_script/custom_ods_sink.py:531-573 | a message keeps the tables well formed |
| Sink.MessagesWellFormed | py_script/custom_ods_sink.py:513-573 | a batch keeps the tables well formed |
| Sink.PollStepInv | py_script/custom_ods_sink.py:498-580 | each poll keeps the run invariant |
| Sink.RunFacts | py_script/custom_ods_sink.py:496-580 | across a run the invariant holds: successes ≤ messages, commits at strictly increasing counts, fewer than 10 empty polls while running. The commit log only grows. While still running there was one commit per non-empty batch, every delivered message was counted and no interrupt occurred |
| Sink.StoppedIsFinal | py_script/custom_ods_sink.py:504-506 | a stopped run takes no further step |
| Sink.EmptyPolls | py_script/custom_ods_sink.py:500 | n empty poll results |
| Sink.EmptyPollsDrain | py_script/custom_ods_sink.py:500-507 | empty polls that bring the streak to 10 drain the run with no write, count or commit, whatever would follow |
| Sink.SkippedMessage | py_script/custom_ods_sink.py:519-525 | a falsy value, or a dict without `payload`, only counts the message |
| Sink.CounterStep | py_script/custom_ods_sink.py:531-573 | a table's counter rises exactly when the message routes there, the record converts with a truthy key and the statement does not fail. The record is then upserted into that table alone; otherwise the counter does not move |
| Sink.Accept | py_script/custom_ods_sink.py:534-537 | an insert leaves the status, the empty-poll count and the commit log alone, and it either leaves the table's counter as it was or raises it by one |
| Sink.AcceptConverted | py_script/custom_ods_sink.py:534-537 | for a converted record, a failing statement changes nothing but the message count. A succeeding one upserts the record into its table alone and raises that table's counter |
| Sink.InsertConverted | py_script/custom_ods_sink.py:534-537 | the insert of a converted record fails exactly when the statement fails |
| Sink.ProcessMessage | py_script/custom_ods_sink.py:515-573 | handling one message against the database does what `MessageStep` says |
| Sink.ProcessBatch | py_script/custom_ods_sink.py:513-573 | the loop over a batch does what `Messages` says |
| Sink.ProcessPoll | py_script/custom_ods_sink.py:498-580 | one poll against the database does what `PollStep` says |
| Sink.Run | py_script/custom_ods_sink.py:488-580 | the main loop, from zeroed counters, ends in the state of the fold over the polls, with the tables in the database |
| Events.MapOperation | py_script/consume_cdc_events.py:162-168 | `c`, `u`, `d` and `r` become `CREATE`, `UPDATE`, `DELETE` and `READ`. Other hashable values pass through unchanged; a list or a dict raises |
| Events.MapOperationIdempotent | py_script/consume_cdc_events.py:162-168 | mapping an already-mapped operation changes nothing |
| Events.ResolveOperation | py_script/consume_cdc_events.py:161-168 | the operation is `__op` when truthy, otherwise `op` when present (even falsy), otherwise `'UNKNOWN'`, then mapped |
| Events.FormatTimestamp | py_script/consume_cdc_events.py:23-27 | "N/A" exactly for a falsy input (None, 0, False). A truthy number is formatted; other truthy values raise |
| Events.Locate | py_script/consume_cdc_events.py:36-49 | the timestamp comes from root `source.ts_ms`, then root `__source_ts_ms`, then the source object (`__source`, or `source` if that is falsy), using its `ts_ms` or else its `__source_ts_ms`. Only that last branch reads the table name, defaulting to 'N/A' |
| Events.ResolveTable | py_script/consume_cdc_events.py:51-56 | a table other than 'N/A' is kept; with fewer than 3 topic parts the table is unchanged |
| Events.TableFromTopic | py_script/consume_cdc_events.py:51-56 | with no table from the source and a topic of 3 or more parts, the table is the dot-free text after the topic's last dot |
| Events.StripMetadata | py_script/consume_cdc_events.py:64-72 | removes exactly the 8 metadata keys and keeps every other entry |
| Events.DataFrom | py_script/consume_cdc_events.py:69-72 | a non-empty side object gives its fields, a falsy side gives the stripped root, and a truthy non-dict side raises |
| Events.SelectData | py_script/consume_cdc_events.py:66-84 | `CREATE`, `UPDATE` and `READ` take data from `after`, and `DELETE` from `before`; any other operation shows no data |
| Events.StrippedDataHasNoMetadata | py_script/consume_cdc_events.py:64-84 | data taken from the root never holds a metadata key |
| Events.PrintEvent | py_script/consume_cdc_events.py:29-84 | the shown event has the resolved operation, timestamp, table and data. It raises exactly when formatting the timestamp or reading the data raises |
| Events.SkipOrder | py_script/consume_cdc_events.py:133-157 | the skips apply in order, and each one decides the message: None, then a schema or history topic whatever the value, then a non-dict, then a None payload. Every other skip is noise |
| Events.NoiseExactly | py_script/consume_cdc_events.py:175-180 | an event is dropped as noise exactly when its operation is 'UNKNOWN' and every key is in {`__op`, `__source`, `__deleted`, `__source_ts_ms`} |
| Events.UnknownWithDataShown | py_script/consume_cdc_events.py:177-183 | an 'UNKNOWN' event with any other key is shown, unless printing it raises |
| Events.Emitted | py_script/consume_cdc_events.py:183-184 | no more events are counted than messages |
| Events.EmittedAppend | py_script/consume_cdc_events.py:130-184 | the counts of successive polls add up |
| Events.EmittedSkipsOnly | py_script/consume_cdc_events.py:136-143 | tombstones and schema or history messages are never counted |
| Events.Viewer.constructor | py_script/consume_cdc_events.py:114-115 | both counters start at zero |
| Events.Viewer.HandleMessage | py_script/consume_cdc_events.py:133-184 | the decision is the classification, and `event_count` rises by exactly one when the event is shown, otherwise by zero |
| Events.Viewer.HandlePoll | py_script/consume_cdc_events.py:120-184 | `poll_count` rises by one per poll, and `event_count` by the number of shown events in it |

## Left out

- Kafka consumer setup, partition discovery, assignment, seeking and offset inspection (`custom_ods_sink.py:418-484`, `consume_cdc_events.py:91-112`): network I/O, and the model takes the poll results as an input sequence.
- The Kafka poll's grouping of messages by partition: a `Poll` lists a batch's messages in the order the loop handles them.
- The viewer's poll-level `except` at `consume_cdc_events.py:192-196`, which fires only for consumer (network) errors.
- psycopg2 connections, cursors and the SQL text: the upsert is modelled on maps, and database errors (constraints, type mismatches, connection loss) are the `executeFails` input. Keys are compared as model values, without PostgreSQL's type coercions.
- `consumer.commit()` and failures of the commit itself: a commit is recorded in the run state's log.
- `Codec.ConvertTimestamp`: does not model `datetime.fromtimestamp` (local timezone, float division, platform range errors), and keeps the milliseconds as an integer.
- `Events.FormatTimestamp`: does not model the formatted text of the non-"N/A" branch, or the range errors `datetime.fromtimestamp` may raise for extreme values, because both depend on the local timezone and the platform.
- `Codec.ConvertDecimal`: does not model `float(value) / 10**scale` rounding; the result is the exact pair (unscaled, scale), and `Codec.DecimalValue` is its exact rational value.
- `Codec.ConvertDecimal`: is weaker than CPython's non-validating `base64.b64decode`, which discards characters outside the alphabet before checking padding. The model decodes strict RFC 4648 section 4 text and treats anything else as malformed, giving None.
- Floating-point JSON numbers: the JSON model has integers only.
- Printing, tracebacks, environment variables, the `time`/`uuid`-based consumer group ids and connection setup (`custom_ods_sink.py:402-416`).
- A KeyboardInterrupt arriving in the middle of an insert: interrupts fall between messages.
- `py_script/setup_cdc.py`, `py_script/verify_ods.py`, `py_script/query_ods.py`, `py_script/check_kafka_topics.py`, `py_script/check_connector_status.py`, `py_script/reset_all.py` and `py_script/setup_full_pipeline.py`: these are HTTP, docker, subprocess and database orchestration with printing, outside this model.
