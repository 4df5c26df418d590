/** The decision part of the CDC event viewer (`consume_events` and
    `print_event`): which messages are skipped, how a Debezium event is
    unwrapped, how its operation, timestamp, table and data fields are chosen,
    and the event counter. */
module Events {
  import opened Wrappers
  import opened Json
  import opened Strings

  /** Keys that on their own make an event of unknown operation noise. */
  const NoiseKeys: set<string> := {"__op", "__source", "__deleted", "__source_ts_ms"}

  /** Keys removed when the data fields are taken from the event root. */
  const MetadataKeys: set<string> :=
    {"__op", "__source", "__deleted", "__source_ts_ms", "op", "source", "before", "after"}

  /** Debezium's one-letter operation codes and their display names. */
  const OperationNames: map<string, string> :=
    map["c" := "CREATE", "u" := "UPDATE", "d" := "DELETE", "r" := "READ"]

  /** `op_map.get(operation, operation)`: a code is replaced by its name, any
      other hashable value is kept; a list or a dict is unhashable and raises. */
  function MapOperation(op: JSON): (r: Result<JSON>)
    ensures r.Raises? <==> op.Arr? || op.Obj?
    ensures op.Str? && op.s in OperationNames ==> r == Ok(Str(OperationNames[op.s]))
    ensures !op.Arr? && !op.Obj? && !(op.Str? && op.s in OperationNames) ==> r == Ok(op)
  {
    if op.Arr? || op.Obj? then Raises
    else if op.Str? && op.s in OperationNames then Ok(Str(OperationNames[op.s]))
    else Ok(op)
  }

  /** Mapping a mapped operation again changes nothing: no display name is a code. */
  lemma MapOperationIdempotent(op: JSON)
    requires MapOperation(op).Ok?
    ensures MapOperation(MapOperation(op).value) == MapOperation(op)
  {
    var r := MapOperation(op).value;
    if op.Str? && op.s in OperationNames {
      assert r.s in {"CREATE", "UPDATE", "DELETE", "READ"};
    }
  }

  /** The displayed operation: `__op` when truthy, else `op` when present (even
      a falsy one), else "UNKNOWN", then mapped. */
  function ResolveOperation(m: map<string, JSON>): (r: Result<JSON>)
    ensures Truthy(Get(m, "__op")) ==> r == MapOperation(m["__op"])
    ensures !Truthy(Get(m, "__op")) && "op" in m ==> r == MapOperation(m["op"])
    ensures !Truthy(Get(m, "__op")) && "op" !in m ==> r == Ok(Str("UNKNOWN"))
  {
    MapOperation(Or(Get(m, "__op"), GetOr(m, "op", Str("UNKNOWN"))))
  }

  /** Some key of the event is not a noise key (the `any(...)` test). */
  predicate HasData(m: map<string, JSON>) {
    exists k :: k in m && k !in NoiseKeys
  }

  /** The timestamp text of `format_timestamp`: "N/A", or the formatted local
      time of a millisecond count, which the model keeps as the count. */
  datatype TimestampText = NotAvailable | Formatted(ms: int)

  /** `format_timestamp`: "N/A" for every falsy input; a number is formatted;
      anything else raises in the division. */
  function FormatTimestamp(v: JSON): (r: Result<TimestampText>)
    ensures r == Ok(NotAvailable) <==> !Truthy(v)
    ensures Truthy(v) ==> (r.Ok? <==> v.Int? || v.Bool?)
    ensures v.Int? && v.i != 0 ==> r == Ok(Formatted(v.i))
  {
    if !Truthy(v) then Ok(NotAvailable)
    else
      match v
      case Int(i) => Ok(Formatted(i))
      case Bool(_) => Ok(Formatted(1))
      case _ => Raises
  }

  /** The timestamp and the source table as `print_event` first finds them. */
  datatype Located = Located(ts: JSON, table: JSON)

  /** `event_data.get('__source') or event_data.get('source', {})`. */
  function SourceObject(m: map<string, JSON>): JSON {
    Or(Get(m, "__source"), GetOr(m, "source", Obj(map[])))
  }

  /** The timestamp is the root key "source.ts_ms", else the root key
      "__source_ts_ms", else the source object's "ts_ms" or, failing that,
      its "__source_ts_ms"; only that last branch reads the table name. */
  function Locate(m: map<string, JSON>): (r: Located)
    ensures "source.ts_ms" in m ==> r == Located(m["source.ts_ms"], Str("N/A"))
    ensures "source.ts_ms" !in m && "__source_ts_ms" in m ==> r == Located(m["__source_ts_ms"], Str("N/A"))
    ensures "source.ts_ms" !in m && "__source_ts_ms" !in m ==>
              var src := SourceObject(m);
              (src.Obj? ==> r == Located(Or(Get(src.fields, "ts_ms"), Get(src.fields, "__source_ts_ms")),
                                         GetOr(src.fields, "table", Str("N/A"))))
              && (!src.Obj? ==> r == Located(Null, Str("N/A")))
  {
    if "source.ts_ms" in m then Located(m["source.ts_ms"], Str("N/A"))
    else if "__source_ts_ms" in m then Located(m["__source_ts_ms"], Str("N/A"))
    else
      var src := SourceObject(m);
      if src.Obj? then
        Located(Or(Get(src.fields, "ts_ms"), Get(src.fields, "__source_ts_ms")),
                GetOr(src.fields, "table", Str("N/A")))
      else Located(Null, Str("N/A"))
  }

  /** The table name: a table still "N/A" becomes the last dot-separated part
      of a topic with at least three parts. */
  function ResolveTable(table: JSON, topic: string): (r: JSON)
    ensures table != Str("N/A") ==> r == table
    ensures |Split(topic, '.')| < 3 ==> r == table
  {
    if table == Str("N/A") && topic != "" then
      var parts := Split(topic, '.');
      if |parts| >= 3 then Str(parts[|parts| - 1]) else table
    else table
  }

  /** With no table from the source object, a topic of three or more parts
      names its table by the text after its last dot. */
  lemma TableFromTopic(topic: string)
    requires |Split(topic, '.')| >= 3
    ensures var r := ResolveTable(Str("N/A"), topic);
            r.Str? && '.' !in r.s
            && exists prefix :: topic == prefix + ['.'] + r.s
  {
    var parts := Split(topic, '.');
    LastPiece(topic, '.');
    var prefix := Join(parts[..|parts| - 1], '.');
    assert topic == prefix + ['.'] + parts[|parts| - 1];
  }

  /** The event root without its metadata keys. */
  function StripMetadata(m: map<string, JSON>): (r: map<string, JSON>)
    ensures r.Keys == m.Keys - MetadataKeys
    ensures forall k :: k in r ==> r[k] == m[k]
  {
    map k | k in m && k !in MetadataKeys :: m[k]
  }

  /** `data = event_data.get(side, {})`, replaced by the stripped root when
      falsy; iterating `.items()` of a truthy non-dict raises. */
  function DataFrom(m: map<string, JSON>, side: string): (r: Result<map<string, JSON>>)
    ensures var d := GetOr(m, side, Obj(map[]));
            (!Truthy(d) ==> r == Ok(StripMetadata(m)))
            && (Truthy(d) && d.Obj? ==> r == Ok(d.fields))
            && (Truthy(d) && !d.Obj? ==> r.Raises?)
  {
    var d := GetOr(m, side, Obj(map[]));
    if !Truthy(d) then Ok(StripMetadata(m))
    else if d.Obj? then Ok(d.fields)
    else Raises
  }

  /** The data fields shown: from `after` for a create, update or read, from
      `before` for a delete, none for any other operation. */
  function SelectData(m: map<string, JSON>, op: JSON): (r: Result<Option<map<string, JSON>>>)
    ensures op in {Str("CREATE"), Str("UPDATE"), Str("READ")} ==>
              (r.Ok? <==> DataFrom(m, "after").Ok?) && (r.Ok? ==> r.value == Some(DataFrom(m, "after").value))
    ensures op == Str("DELETE") ==>
              (r.Ok? <==> DataFrom(m, "before").Ok?) && (r.Ok? ==> r.value == Some(DataFrom(m, "before").value))
    ensures op !in {Str("CREATE"), Str("UPDATE"), Str("READ"), Str("DELETE")} ==> r == Ok(None)
  {
    if op == Str("CREATE") || op == Str("UPDATE") || op == Str("READ") then
      var d :- DataFrom(m, "after");
      Ok(Some(d))
    else if op == Str("DELETE") then
      var d :- DataFrom(m, "before");
      Ok(Some(d))
    else Ok(None)
  }

  /** Data taken from the root never holds a metadata key, whatever the event. */
  lemma StrippedDataHasNoMetadata(m: map<string, JSON>, op: JSON, k: string)
    requires SelectData(m, op).Ok? && SelectData(m, op).value.Some?
    requires op == Str("DELETE") ==> !Truthy(GetOr(m, "before", Obj(map[])))
    requires op != Str("DELETE") ==> !Truthy(GetOr(m, "after", Obj(map[])))
    requires k in MetadataKeys
    ensures k !in SelectData(m, op).value.value
  {
  }

  /** What `print_event` shows for an event. */
  datatype View = View(operation: JSON, timestamp: TimestampText, table: JSON, data: Option<map<string, JSON>>)

  function PrintEvent(m: map<string, JSON>, op: JSON, topic: string): (r: Result<View>)
    ensures r.Ok? <==> FormatTimestamp(Locate(m).ts).Ok? && SelectData(m, op).Ok?
    ensures r.Ok? ==> r.value == View(op, FormatTimestamp(Locate(m).ts).value,
                                      ResolveTable(Locate(m).table, topic), SelectData(m, op).value)
  {
    var loc := Locate(m);
    var table := ResolveTable(loc.table, topic);
    var ts :- FormatTimestamp(loc.ts);
    var data :- SelectData(m, op);
    Ok(View(op, ts, table, data))
  }

  datatype SkipReason = Tombstone | SchemaTopic | NotADict | NullPayload | Noise

  /** A message is skipped, ends in an exception that the per-message handler
      reports, or is shown and counted. */
  datatype Decision = Skip(reason: SkipReason) | Failed | Emit(view: View)

  predicate IsSchemaTopic(topic: string) {
    Contains(topic, "schema") || Contains(topic, "history")
  }

  /** The event a dict value carries: its `payload` when it has one. */
  function Unwrap(m: map<string, JSON>): JSON {
    if "payload" in m then m["payload"] else Obj(m)
  }

  /** The filters of `consume_events`, in order, then `print_event`. */
  function Classify(topic: string, value: JSON): Decision {
    if value == Null then Skip(Tombstone)
    else if IsSchemaTopic(topic) then Skip(SchemaTopic)
    else if !value.Obj? then Skip(NotADict)
    else
      var event := Unwrap(value.fields);
      if event == Null then Skip(NullPayload)
      else if !event.Obj? then Failed
      else
        match ResolveOperation(event.fields)
        case Raises => Failed
        case Ok(op) =>
          if op == Str("UNKNOWN") && !HasData(event.fields) then Skip(Noise)
          else
            match PrintEvent(event.fields, op, topic)
            case Raises => Failed
            case Ok(view) => Emit(view)
  }

  /** The skips come in order and each decides the message outright: a null
      value on any topic, then a schema or history topic whatever the value,
      then a value that is not a dict, then a null payload. */
  lemma SkipOrder(topic: string, value: JSON)
    ensures value == Null ==> Classify(topic, value) == Skip(Tombstone)
    ensures value != Null && IsSchemaTopic(topic) ==> Classify(topic, value) == Skip(SchemaTopic)
    ensures value != Null && !IsSchemaTopic(topic) && !value.Obj? ==> Classify(topic, value) == Skip(NotADict)
    ensures value.Obj? && !IsSchemaTopic(topic) && "payload" in value.fields && value.fields["payload"] == Null
            ==> Classify(topic, value) == Skip(NullPayload)
    ensures Classify(topic, value).Skip? && Classify(topic, value).reason != Noise ==>
              value == Null || IsSchemaTopic(topic) || !value.Obj? || Unwrap(value.fields) == Null
  {
  }

  /** An event is dropped as noise exactly when it is a dict event whose
      operation resolves to "UNKNOWN" and whose every key is a noise key. */
  lemma NoiseExactly(topic: string, value: JSON)
    requires value.Obj? && !IsSchemaTopic(topic) && Unwrap(value.fields).Obj?
    ensures var m := Unwrap(value.fields).fields;
            Classify(topic, value) == Skip(Noise) <==>
              ResolveOperation(m) == Ok(Str("UNKNOWN")) && forall k :: k in m ==> k in NoiseKeys
  {
  }

  /** An event whose operation is unknown but which has a key outside the
      noise keys is shown, unless printing it raises. */
  lemma UnknownWithDataShown(topic: string, value: JSON, k: string)
    requires value.Obj? && !IsSchemaTopic(topic) && Unwrap(value.fields).Obj?
    requires ResolveOperation(Unwrap(value.fields).fields) == Ok(Str("UNKNOWN"))
    requires k in Unwrap(value.fields).fields && k !in NoiseKeys
    ensures Classify(topic, value).Emit? || Classify(topic, value) == Failed
  {
  }

  /** The number of messages shown and counted. */
  function Emitted(msgs: seq<Message>): (n: nat)
    ensures n <= |msgs|
    decreases |msgs|
  {
    if msgs == [] then 0
    else
      var last := msgs[|msgs| - 1];
      Emitted(msgs[..|msgs| - 1]) + (if Classify(last.topic, last.value).Emit? then 1 else 0)
  }

  /** Counting distributes over a concatenation of polls. */
  lemma {:induction false} EmittedAppend(a: seq<Message>, b: seq<Message>)
    ensures Emitted(a + b) == Emitted(a) + Emitted(b)
    decreases |b|
  {
    if b != [] {
      assert (a + b)[..|a + b| - 1] == a + b[..|b| - 1];
      EmittedAppend(a, b[..|b| - 1]);
    } else {
      assert a + b == a;
    }
  }

  /** Tombstones and messages on schema or history topics are never counted. */
  lemma {:induction false} EmittedSkipsOnly(msgs: seq<Message>)
    requires forall i :: 0 <= i < |msgs| ==> msgs[i].value == Null || IsSchemaTopic(msgs[i].topic)
    ensures Emitted(msgs) == 0
    decreases |msgs|
  {
    if msgs != [] {
      EmittedSkipsOnly(msgs[..|msgs| - 1]);
    }
  }

  /** The viewer's counters. */
  class Viewer {
    var eventCount: nat
    var pollCount: nat

    constructor ()
      ensures eventCount == 0 && pollCount == 0
    {
      eventCount, pollCount := 0, 0;
    }

    /** One message: counted exactly when it is shown. */
    method HandleMessage(msg: Message) returns (d: Decision)
      modifies this
      ensures d == Classify(msg.topic, msg.value)
      ensures eventCount == old(eventCount) + (if d.Emit? then 1 else 0)
      ensures pollCount == old(pollCount)
    {
      d := Classify(msg.topic, msg.value);
      if d.Emit? {
        eventCount := eventCount + 1;
      }
    }

    /** One poll and the messages it returned. */
    method HandlePoll(msgs: seq<Message>)
      modifies this
      ensures pollCount == old(pollCount) + 1
      ensures eventCount == old(eventCount) + Emitted(msgs)
    {
      pollCount := pollCount + 1;
      for i := 0 to |msgs|
        invariant pollCount == old(pollCount) + 1
        invariant eventCount == old(eventCount) + Emitted(msgs[..i])
      {
        assert msgs[..i + 1][..i] == msgs[..i];
        var _ := HandleMessage(msgs[i]);
      }
      assert msgs[..|msgs|] == msgs;
    }
  }
}
