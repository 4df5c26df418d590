/** The poll / route / commit loop of the ODS sink's `main`. A run is
    specified as a fold over the poll results (`RunPolls`, built from
    `PollStep` and `MessageStep`); the method `Run` is that loop written
    imperatively against a Database object, and is proved equal to the fold. */
module Sink {
  import opened Wrappers
  import opened Json
  import opened Strings
  import opened Records
  import opened Store

  /** The loop stops after this many consecutive empty polls. */
  const MaxEmptyPolls: nat := 10

  /** One result of `consumer.poll`: a batch of messages in the order the
      loop handles them (possibly none), or a KeyboardInterrupt raised after
      the first `handled` messages of a batch (none: during the poll). */
  datatype Poll =
    | Batch(msgs: seq<Message>)
    | Interrupt(handled: seq<Message>)

  /** Whether an insert's statement fails, given the tables before it, the
      target table and the record: the database errors the model does not
      interpret. */
  type Oracle = (Tables, Kind, Row) -> bool

  datatype Counts = Counts(messages: nat, customers: nat, applications: nat, vehicles: nat)

  function Total(c: Counts): nat {
    c.customers + c.applications + c.vehicles
  }

  function Count(c: Counts, kind: Kind): nat {
    match kind
    case Customers => c.customers
    case CreditApplications => c.applications
    case VehicleOwnership => c.vehicles
  }

  /** The counter of `kind` increased by one, the others unchanged. */
  function Bump(c: Counts, kind: Kind): (r: Counts)
    ensures Count(r, kind) == Count(c, kind) + 1
    ensures forall k :: k != kind ==> Count(r, k) == Count(c, k)
    ensures r.messages == c.messages && Total(r) == Total(c) + 1
  {
    match kind
    case Customers => c.(customers := c.customers + 1)
    case CreditApplications => c.(applications := c.applications + 1)
    case VehicleOwnership => c.(vehicles := c.vehicles + 1)
  }

  /** Running; stopped after ten empty polls; stopped by Ctrl-C; or ended by
      an exception that escaped the per-record handlers. */
  datatype Status = Running | Drained | Interrupted | Crashed

  datatype RunState = RunState(
    tables: Tables,
    counts: Counts,
    emptyPolls: nat,
    commits: seq<nat>,  // message_count at each consumer.commit()
    status: Status)

  function Start(tables: Tables): RunState {
    RunState(tables, Counts(0, 0, 0, 0), 0, [], Running)
  }

  /** The table a topic routes to: the substring tests in their order. */
  function Route(topic: string): (r: Option<Kind>)
    ensures r == Some(Customers) <==> Contains(topic, "customers")
    ensures r == Some(CreditApplications) <==>
              !Contains(topic, "customers") && Contains(topic, "credit_applications")
    ensures r == Some(VehicleOwnership) <==>
              !Contains(topic, "customers") && !Contains(topic, "credit_applications")
              && Contains(topic, "vehicle_ownership")
  {
    if Contains(topic, "customers") then Some(Customers)
    else if Contains(topic, "credit_applications") then Some(CreditApplications)
    else if Contains(topic, "vehicle_ownership") then Some(VehicleOwnership)
    else None
  }

  /** What the sink takes from a message value. */
  datatype Unwrapped = NoPayload | Payload(payload: JSON) | Crash

  /** `if not value: continue`, then `'payload' not in value`, then
      `value['payload']`. The membership test and the subscript run outside
      any handler: on a number they raise, and on a string or a list holding
      "payload" the subscript raises. */
  function Unwrap(v: JSON): (r: Unwrapped)
    ensures !Truthy(v) ==> r == NoPayload
    ensures r.Payload? <==> v.Obj? && "payload" in v.fields
    ensures r.Payload? ==> r.payload == v.fields["payload"]
    ensures r.Crash? <==>
              Truthy(v) && (v.Int? || v.Bool?
                            || (v.Str? && Contains(v.s, "payload"))
                            || (v.Arr? && Str("payload") in v.items))
  {
    if !Truthy(v) then NoPayload
    else
      match v
      case Obj(m) => if "payload" in m then Payload(m["payload"]) else NoPayload
      case Str(s) => if Contains(s, "payload") then Crash else NoPayload
      case Arr(a) => if Str("payload") in a then Crash else NoPayload
      case _ => Crash
  }

  /** The record mapper of a table. */
  function Convert(kind: Kind, payload: JSON): Result<Row> {
    ConvertRecord(RulesOf(kind), payload)
  }

  /** A record goes to its insert function when the mapper did not raise and
      its key column is truthy. */
  predicate Insertable(kind: Kind, rec: Result<Row>) {
    rec.Ok? && SpecOf(kind).key in rec.value && CellTruthy(rec.value[SpecOf(kind).key])
  }

  function Tick(c: Counts): Counts {
    c.(messages := c.messages + 1)
  }

  /** The table and the record a message is inserted as, if any: its value
      has a payload, its topic routes to a table, and that table's mapper
      gives a record with a truthy key. */
  function Target(msg: Message): (r: Option<(Kind, Row)>)
    ensures r.Some? <==>
              Unwrap(msg.value).Payload? && Route(msg.topic).Some?
              && Insertable(Route(msg.topic).value, Convert(Route(msg.topic).value, Unwrap(msg.value).payload))
    ensures r.Some? ==>
              Route(msg.topic) == Some(r.value.0)
              && Convert(r.value.0, Unwrap(msg.value).payload) == Ok(r.value.1)
  {
    match Unwrap(msg.value)
    case Payload(p) =>
      (match Route(msg.topic)
       case None => None
       case Some(kind) =>
         var rec := Convert(kind, p);
         if Insertable(kind, rec) then Some((kind, rec.value)) else None)
    case _ => None
  }

  /** One message of a batch. */
  function MessageStep(st: RunState, msg: Message, fails: Oracle): (r: RunState)
    requires st.status == Running
    ensures r.counts.messages == st.counts.messages + 1
    ensures r.emptyPolls == st.emptyPolls && r.commits == st.commits
    ensures r.status == Crashed <==> Unwrap(msg.value).Crash?
    ensures r.status != Crashed ==> r.status == Running
    ensures Total(r.counts) <= Total(st.counts) + 1
  {
    var c := Tick(st.counts);
    if Unwrap(msg.value).Crash? then st.(counts := c, status := Crashed)
    else
      match Target(msg)
      case None => st.(counts := c)
      case Some((kind, rec)) => Accept(st, c, kind, rec, fails)
  }

  /** The insert of an accepted record, and its counter when it succeeds. */
  function Accept(st: RunState, c: Counts, kind: Kind, rec: Row, fails: Oracle): (r: RunState)
    ensures r.status == st.status && r.emptyPolls == st.emptyPolls && r.commits == st.commits
    ensures r.counts == c || r.counts == Bump(c, kind)
  {
    var (t, ok) := Insert(kind, st.tables, rec, fails(st.tables, kind, rec));
    st.(tables := t, counts := if ok then Bump(c, kind) else c)
  }

  /** The messages of a batch, in order, until one crashes the run. */
  function Messages(st: RunState, msgs: seq<Message>, fails: Oracle): (r: RunState)
    ensures st.status != Running ==> r == st
    ensures r.emptyPolls == st.emptyPolls && r.commits == st.commits
    ensures st.status == Running ==> r.status == Running || r.status == Crashed
    ensures st.counts.messages <= r.counts.messages <= st.counts.messages + |msgs|
    ensures st.status == Running && r.status == Running ==>
              r.counts.messages == st.counts.messages + |msgs|
    ensures Total(r.counts) - Total(st.counts) <= r.counts.messages - st.counts.messages
    decreases |msgs|
  {
    if msgs == [] || st.status != Running then st
    else Messages(MessageStep(st, msgs[0], fails), msgs[1..], fails)
  }

  /** One poll: an empty one counts towards the limit; a batch resets the
      count, is handled and is then committed with the message count; an
      interrupt stops the run without a commit. */
  function PollStep(st: RunState, poll: Poll, fails: Oracle): (r: RunState)
    requires st.status == Running
    ensures poll == Batch([]) ==>
              r.tables == st.tables && r.counts == st.counts && r.commits == st.commits
              && r.emptyPolls == st.emptyPolls + 1
              && (r.status == Drained <==> st.emptyPolls + 1 >= MaxEmptyPolls)
              && (r.status != Drained ==> r.status == Running)
    ensures poll.Batch? && poll.msgs != [] ==>
              r.emptyPolls == 0
              && (r.status == Running ==> r.commits == st.commits + [st.counts.messages + |poll.msgs|])
              && (r.status != Running ==> r.status == Crashed && r.commits == st.commits)
    ensures poll.Interrupt? ==>
              r.commits == st.commits && (r.status == Interrupted || r.status == Crashed)
  {
    match poll
    case Batch(msgs) =>
      if msgs == [] then
        var e := st.emptyPolls + 1;
        st.(emptyPolls := e, status := if e >= MaxEmptyPolls then Drained else Running)
      else
        var s := Messages(st.(emptyPolls := 0), msgs, fails);
        if s.status == Running then s.(commits := s.commits + [s.counts.messages]) else s
    case Interrupt(handled) =>
      var s := Messages(if handled == [] then st else st.(emptyPolls := 0), handled, fails);
      if s.status == Running then s.(status := Interrupted) else s
  }

  /** The run over successive poll results, until it stops. */
  function RunPolls(st: RunState, polls: seq<Poll>, fails: Oracle): RunState
    decreases |polls|
  {
    if polls == [] || st.status != Running then st
    else RunPolls(PollStep(st, polls[0], fails), polls[1..], fails)
  }

  /** The number of non-empty batches among the polls. */
  function NonEmptyBatches(polls: seq<Poll>): nat
    decreases |polls|
  {
    if polls == [] then 0
    else (if polls[0].Batch? && polls[0].msgs != [] then 1 else 0) + NonEmptyBatches(polls[1..])
  }

  /** The number of messages the polls deliver. */
  function Delivered(polls: seq<Poll>): nat
    decreases |polls|
  {
    if polls == [] then 0
    else (if polls[0].Batch? then |polls[0].msgs| else |polls[0].handled|) + Delivered(polls[1..])
  }

  /** What every state of a run satisfies: the success counters sum to at
      most the message count, commits are taken at strictly increasing
      message counts none above the current one, a running loop has seen
      fewer than ten empty polls in a row, and the tables are well formed. */
  predicate Inv(st: RunState) {
    Total(st.counts) <= st.counts.messages
    && (forall i :: 0 <= i < |st.commits| ==> st.commits[i] <= st.counts.messages)
    && (forall i, j :: 0 <= i < j < |st.commits| ==> st.commits[i] < st.commits[j])
    && (st.status == Running ==> st.emptyPolls < MaxEmptyPolls)
    && TablesWellFormed(st.tables)
  }

  lemma StartInv(tables: Tables)
    requires TablesWellFormed(tables)
    ensures Inv(Start(tables))
  {
  }

  /** A message keeps the tables well formed. */
  lemma MessageStepWellFormed(st: RunState, msg: Message, fails: Oracle)
    requires st.status == Running && TablesWellFormed(st.tables)
    ensures TablesWellFormed(MessageStep(st, msg, fails).tables)
  {
    var t := Target(msg);
    if !Unwrap(msg.value).Crash? && t.Some? {
      var (kind, rec) := t.value;
      InsertWellFormed(kind, st.tables, rec, fails(st.tables, kind, rec));
    }
  }

  lemma {:induction false} MessagesWellFormed(st: RunState, msgs: seq<Message>, fails: Oracle)
    requires TablesWellFormed(st.tables)
    ensures TablesWellFormed(Messages(st, msgs, fails).tables)
    decreases |msgs|
  {
    if msgs != [] && st.status == Running {
      MessageStepWellFormed(st, msgs[0], fails);
      MessagesWellFormed(MessageStep(st, msgs[0], fails), msgs[1..], fails);
    }
  }

  lemma PollStepInv(st: RunState, poll: Poll, fails: Oracle)
    requires st.status == Running && Inv(st)
    ensures Inv(PollStep(st, poll, fails))
  {
    match poll
    case Batch(msgs) =>
      if msgs != [] {
        MessagesWellFormed(st.(emptyPolls := 0), msgs, fails);
      }
    case Interrupt(handled) =>
      MessagesWellFormed(if handled == [] then st else st.(emptyPolls := 0), handled, fails);
  }

  /** Over a whole run: the invariant holds throughout; the commit log only
      grows; and while the run is still going, every poll was handled, one
      commit was taken per non-empty batch and every message was counted. */
  lemma {:induction false} RunFacts(st: RunState, polls: seq<Poll>, fails: Oracle)
    requires Inv(st)
    ensures var r := RunPolls(st, polls, fails);
            Inv(r)
            && st.commits <= r.commits
            && (st.status == Running && r.status == Running ==>
                  |r.commits| == |st.commits| + NonEmptyBatches(polls)
                  && r.counts.messages == st.counts.messages + Delivered(polls)
                  && forall i :: 0 <= i < |polls| ==> !polls[i].Interrupt?)
    decreases |polls|
  {
    if polls != [] && st.status == Running {
      var s := PollStep(st, polls[0], fails);
      PollStepInv(st, polls[0], fails);
      RunFacts(s, polls[1..], fails);
      var r := RunPolls(s, polls[1..], fails);
      if r.status == Running {
        assert s.status == Running;
        forall i | 0 <= i < |polls|
          ensures !polls[i].Interrupt?
        {
          if i > 0 {
            assert polls[i] == polls[1..][i - 1];
          }
        }
      }
    }
  }

  /** A stopped run stays stopped and changes nothing more. */
  lemma StoppedIsFinal(st: RunState, polls: seq<Poll>, fails: Oracle)
    requires st.status != Running
    ensures RunPolls(st, polls, fails) == st
  {
  }

  function EmptyPolls(n: nat): (r: seq<Poll>)
    ensures |r| == n && forall i :: 0 <= i < n ==> r[i] == Batch([])
  {
    seq(n, _ => Batch([]))
  }

  /** Empty polls that bring the consecutive count to ten end the run, with
      nothing written, counted or committed, whatever polls would follow. */
  lemma {:induction false} EmptyPollsDrain(st: RunState, n: nat, rest: seq<Poll>, fails: Oracle)
    requires st.status == Running && n >= 1 && st.emptyPolls + n == MaxEmptyPolls
    ensures var r := RunPolls(st, EmptyPolls(n) + rest, fails);
            r.status == Drained && r.tables == st.tables && r.counts == st.counts
            && r.commits == st.commits && r.emptyPolls == MaxEmptyPolls
    decreases n
  {
    var polls := EmptyPolls(n) + rest;
    assert polls[0] == Batch([]);
    var s := PollStep(st, polls[0], fails);
    if n > 1 {
      assert polls[1..] == EmptyPolls(n - 1) + rest;
      EmptyPollsDrain(s, n - 1, rest, fails);
    }
  }

  /** A falsy value (a tombstone) or a value without a payload only counts the
      message. */
  lemma SkippedMessage(st: RunState, msg: Message, fails: Oracle)
    requires st.status == Running
    requires !Truthy(msg.value) || (msg.value.Obj? && "payload" !in msg.value.fields)
    ensures MessageStep(st, msg, fails) == st.(counts := Tick(st.counts))
  {
  }

  /** A table's success counter rises exactly when the message routes to that
      table, its record converts with a truthy key and the statement does not
      fail; the record is then upserted into that table alone. Otherwise the
      counter does not move. */
  lemma CounterStep(st: RunState, msg: Message, fails: Oracle, kind: Kind)
    requires st.status == Running
    ensures var r := MessageStep(st, msg, fails);
            var t := Target(msg);
            var accepted := t.Some? && t.value.0 == kind && !fails(st.tables, kind, t.value.1);
            (accepted ==>
               Count(r.counts, kind) == Count(st.counts, kind) + 1
               && r.tables == WithTable(st.tables, kind, Upsert(SpecOf(kind), TableOf(st.tables, kind), t.value.1)))
            && (!accepted ==> Count(r.counts, kind) == Count(st.counts, kind))
  {
    var t := Target(msg);
    if t.Some? && t.value.0 == kind {
      AcceptConverted(st, Tick(st.counts), kind, Unwrap(msg.value).payload, fails);
    }
  }

  /** A converted record's insert fails exactly when the statement does; on
      success the record is upserted into its table and its counter rises. */
  lemma AcceptConverted(st: RunState, c: Counts, kind: Kind, payload: JSON, fails: Oracle)
    requires Convert(kind, payload).Ok?
    ensures var rec := Convert(kind, payload).value;
            var spec := SpecOf(kind);
            Consistent(spec) && spec.columns <= rec.Keys
            && Accept(st, c, kind, rec, fails) ==
                 if fails(st.tables, kind, rec) then st.(counts := c)
                 else st.(tables := WithTable(st.tables, kind, Upsert(spec, TableOf(st.tables, kind), rec)),
                          counts := Bump(c, kind))
  {
    InsertConverted(kind, st.tables, payload, fails(st.tables, kind, Convert(kind, payload).value));
  }

  /** The insert of a converted record fails exactly when the statement does. */
  lemma InsertConverted(kind: Kind, t: Tables, payload: JSON, executeFails: bool)
    requires Convert(kind, payload).Ok?
    ensures var rec := Convert(kind, payload).value;
            var spec := SpecOf(kind);
            Consistent(spec) && spec.columns <= rec.Keys
            && Insert(kind, t, rec, executeFails) ==
                 if executeFails then (t, false)
                 else (WithTable(t, kind, Upsert(spec, TableOf(t, kind), rec)), true)
  {
    ConvertedRecordInserts(kind, payload);
    SetLists();
  }

  /** Handles one message against the database, as MessageStep says. */
  method ProcessMessage(db: Database, msg: Message, fails: Oracle, counts: Counts, emptyPolls: nat, commits: seq<nat>)
    returns (counts': Counts, status: Status)
    requires db.Valid()
    modifies db
    ensures db.Valid()
    ensures RunState(db.Snapshot(), counts', emptyPolls, commits, status)
            == MessageStep(RunState(old(db.Snapshot()), counts, emptyPolls, commits, Running), msg, fails)
  {
    counts' := Tick(counts);
    status := Running;
    var u := Unwrap(msg.value);
    if u.Crash? {
      status := Crashed;
      return;
    }
    if u.NoPayload? {
      return;
    }
    var route := Route(msg.topic);
    if route.None? {
      return;
    }
    var kind := route.value;
    var rec := Convert(kind, u.payload);
    if !Insertable(kind, rec) {
      return;
    }
    var executeFails := fails(db.Snapshot(), kind, rec.value);
    var ok: bool;
    match kind {
      case Customers => ok := db.InsertCustomer(rec.value, executeFails);
      case CreditApplications => ok := db.InsertCreditApplication(rec.value, executeFails);
      case VehicleOwnership => ok := db.InsertVehicleOwnership(rec.value, executeFails);
    }
    if ok {
      counts' := Bump(counts', kind);
    }
  }

  /** Handles the messages of one poll until the batch ends or one crashes. */
  method ProcessBatch(db: Database, msgs: seq<Message>, fails: Oracle, counts: Counts, emptyPolls: nat, commits: seq<nat>)
    returns (counts': Counts, status: Status)
    requires db.Valid()
    modifies db
    ensures db.Valid()
    ensures RunState(db.Snapshot(), counts', emptyPolls, commits, status)
            == Messages(RunState(old(db.Snapshot()), counts, emptyPolls, commits, Running), msgs, fails)
  {
    counts', status := counts, Running;
    var i := 0;
    while i < |msgs| && status == Running
      invariant 0 <= i <= |msgs|
      invariant db.Valid()
      invariant Messages(RunState(old(db.Snapshot()), counts, emptyPolls, commits, Running), msgs, fails)
                == Messages(RunState(db.Snapshot(), counts', emptyPolls, commits, status), msgs[i..], fails)
      decreases |msgs| - i
    {
      assert msgs[i..][1..] == msgs[i + 1..];
      counts', status := ProcessMessage(db, msgs[i], fails, counts', emptyPolls, commits);
      i := i + 1;
    }
  }

  /** Handles one poll result, as PollStep says. */
  method ProcessPoll(db: Database, poll: Poll, fails: Oracle, counts: Counts, emptyPolls: nat, commits: seq<nat>)
    returns (counts': Counts, emptyPolls': nat, commits': seq<nat>, status: Status)
    requires db.Valid()
    modifies db
    ensures db.Valid()
    ensures RunState(db.Snapshot(), counts', emptyPolls', commits', status)
            == PollStep(RunState(old(db.Snapshot()), counts, emptyPolls, commits, Running), poll, fails)
  {
    counts', emptyPolls', commits', status := counts, emptyPolls, commits, Running;
    match poll {
      case Batch(msgs) =>
        if msgs == [] {
          emptyPolls' := emptyPolls' + 1;
          if emptyPolls' >= MaxEmptyPolls {
            status := Drained;
          }
        } else {
          emptyPolls' := 0;
          counts', status := ProcessBatch(db, msgs, fails, counts', emptyPolls', commits');
          if status == Running {
            commits' := commits' + [counts'.messages];
          }
        }
      case Interrupt(handled) =>
        if handled != [] {
          emptyPolls' := 0;
        }
        counts', status := ProcessBatch(db, handled, fails, counts', emptyPolls', commits');
        if status == Running {
          status := Interrupted;
        }
    }
  }

  /** The main loop over the poll results, from a fresh set of counters. */
  method Run(db: Database, polls: seq<Poll>, fails: Oracle) returns (final: RunState)
    requires db.Valid()
    modifies db
    ensures db.Valid()
    ensures final == RunPolls(Start(old(db.Snapshot())), polls, fails)
    ensures final.tables == db.Snapshot()
  {
    var counts := Counts(0, 0, 0, 0);
    var emptyPolls: nat := 0;
    var commits: seq<nat> := [];
    var status := Running;
    var i := 0;
    while i < |polls| && status == Running
      invariant 0 <= i <= |polls|
      invariant db.Valid()
      invariant RunPolls(Start(old(db.Snapshot())), polls, fails)
                == RunPolls(RunState(db.Snapshot(), counts, emptyPolls, commits, status), polls[i..], fails)
      decreases |polls| - i
    {
      assert polls[i..][1..] == polls[i + 1..];
      counts, emptyPolls, commits, status := ProcessPoll(db, polls[i], fails, counts, emptyPolls, commits);
      i := i + 1;
    }
    final := RunState(db.Snapshot(), counts, emptyPolls, commits, status);
  }
}
