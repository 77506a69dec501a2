/**
 The charge service and its table. A request runs two statements, an insert that does nothing on a
 key conflict and then a select, and any number of requests interleave between them.
 */
module Charges {
  import opened Core
  import opened Validation
  import opened Idempotency

  datatype ChargeRow = ChargeRow(id: Uuid, key: string, payload: ChargePayload)

  datatype InsertOutcome = Created(row: ChargeRow) | Replayed(row: ChargeRow) | Conflict(row: ChargeRow)

  /** The unique constraint on idempotency_key. */
  predicate UniqueKeys(rows: seq<ChargeRow>) {
    forall i, j :: 0 <= i < j < |rows| ==> rows[i].key != rows[j].key
  }

  /** `SELECT ... WHERE idempotency_key = $1`. */
  function FindByIdempotencyKey(rows: seq<ChargeRow>, key: string): (r: Option<ChargeRow>)
    ensures r.Some? ==> r.value in rows && r.value.key == key
    ensures r.None? ==> forall row :: row in rows ==> row.key != key
  {
    if rows == [] then None
    else if rows[0].key == key then Some(rows[0])
    else FindByIdempotencyKey(rows[1..], key)
  }

  /** `INSERT ... ON CONFLICT (idempotency_key) DO NOTHING`. */
  function InsertOrNothing(rows: seq<ChargeRow>, row: ChargeRow): seq<ChargeRow> {
    if FindByIdempotencyKey(rows, row.key).None? then rows + [row] else rows
  }

  /** The atomic operation that the two statements stand for: what one caller sees. */
  function AtomicOutcome(rows: seq<ChargeRow>, row: ChargeRow): InsertOutcome {
    match FindByIdempotencyKey(rows, row.key)
    case None => Created(row)
    case Some(existing) => if existing.payload == row.payload then Replayed(existing) else Conflict(existing)
  }

  lemma {:induction false} FindAfterInsert(rows: seq<ChargeRow>, row: ChargeRow, key: string)
    ensures FindByIdempotencyKey(rows + [row], key) ==
      if FindByIdempotencyKey(rows, key).Some? then FindByIdempotencyKey(rows, key)
      else if row.key == key then Some(row) else None
  {
    if rows == [] {
      assert rows + [row] == [row];
    } else {
      assert (rows + [row])[1..] == rows[1..] + [row];
      FindAfterInsert(rows[1..], row, key);
    }
  }

  lemma InsertKeepsUnique(rows: seq<ChargeRow>, row: ChargeRow)
    requires UniqueKeys(rows)
    ensures UniqueKeys(InsertOrNothing(rows, row))
  {
  }

  // --- The service ---

  datatype Reply = BadRequest | Injected(status: nat) | Stored(outcome: InsertOutcome) | ServerError(timedOut: bool)

  function StatusOf(r: Reply): nat {
    match r
    case BadRequest => 400
    case Injected(status) => status
    case Stored(Created(_)) => 201
    case Stored(Replayed(_)) => 200
    case Stored(Conflict(_)) => 409
    case ServerError(timedOut) => if timedOut then 408 else 500
  }

  /** Received; the insert found a conflict; the insert ran but its result was never learned; answered. */
  datatype Stage = Received | Lost | Unacknowledged | Answered(reply: Reply)

  /** One request: the row it would insert and how far it has got. */
  datatype Call = Call(row: ChargeRow, stage: Stage)

  datatype Service = Service(rows: seq<ChargeRow>, calls: map<nat, Call>)

  datatype Move =
    | Arrive(c: nat, id: Uuid, header: Option<string>, body: Json)
    | Inject(c: nat, status: nat)
    | Insert(c: nat, acknowledged: bool)
    | Select(c: nat)
    | Fail(c: nat, timedOut: bool)
    | InsertLate(c: nat)

  /**
   Every request brings a new call number and a new charge id. An injected answer may have any status at all. An
   insert sent before its request was given up may still run after the failure was answered.
   */
  ghost predicate CanMove(s: Service, m: Move) {
    match m
    case Arrive(c, id, _, _) => c !in s.calls && forall c' :: c' in s.calls ==> s.calls[c'].row.id != id
    case Inject(c, _) => c in s.calls && s.calls[c].stage.Received?
    case Insert(c, _) => c in s.calls && s.calls[c].stage.Received?
    case Select(c) => c in s.calls && s.calls[c].stage.Lost?
    case Fail(c, _) => c in s.calls && !s.calls[c].stage.Answered?
    case InsertLate(c) => c in s.calls && HasFailed(s.calls[c])
  }

  predicate HasFailed(call: Call) {
    call.stage.Answered? && call.stage.reply.ServerError?
  }

  /** The key and payload checks that come before anything else. */
  function Accept(id: Uuid, header: Option<string>, body: Json): Call {
    var key := ReadKey(header);
    var payload := ParseChargePayload(body);
    if key.None? || payload.Err?
    then Call(ChargeRow(id, "", ChargePayload("", 0, "")), Answered(BadRequest))
    else Call(ChargeRow(id, key.value, payload.value), Received)
  }

  function Answer(s: Service, c: nat, stage: Stage): Service
    requires c in s.calls
  {
    s.(calls := s.calls[c := s.calls[c].(stage := stage)])
  }

  /** After the conflict: the existing row decides; its absence would be an inconsistency error. */
  function SelectReply(rows: seq<ChargeRow>, row: ChargeRow): Reply {
    match FindByIdempotencyKey(rows, row.key)
    case None => ServerError(false)
    case Some(existing) => Stored(if existing.payload == row.payload then Replayed(existing) else Conflict(existing))
  }

  ghost function Moved(s: Service, m: Move): Service
    requires CanMove(s, m)
  {
    match m
    case Arrive(c, id, header, body) => s.(calls := s.calls[c := Accept(id, header, body)])
    case Inject(c, status) => Answer(s, c, Answered(Injected(status)))
    case Insert(c, acknowledged) =>
      var row := s.calls[c].row;
      var s' := s.(rows := InsertOrNothing(s.rows, row));
      if !acknowledged then Answer(s', c, Unacknowledged)
      else if FindByIdempotencyKey(s.rows, row.key).None?
      then Answer(s', c, Answered(Stored(Created(row))))
      else Answer(s', c, Lost)
    case Select(c) => Answer(s, c, Answered(SelectReply(s.rows, s.calls[c].row)))
    case Fail(c, timedOut) => Answer(s, c, Answered(ServerError(timedOut)))
    case InsertLate(c) => s.(rows := InsertOrNothing(s.rows, s.calls[c].row))
  }

  /** What each request knows about the table. */
  predicate CallAgrees(rows: seq<ChargeRow>, call: Call) {
    var found := FindByIdempotencyKey(rows, call.row.key);
    match call.stage
    case Received => call.row !in rows
    case Lost => found.Some? && call.row !in rows
    case Answered(Stored(Created(row))) => row == call.row && found == Some(row)
    case Answered(Stored(Replayed(row))) => found == Some(row) && row.payload == call.row.payload && call.row !in rows
    case Answered(Stored(Conflict(row))) => found == Some(row) && row.payload != call.row.payload && call.row !in rows
    case Unacknowledged => true
    case Answered(Injected(_)) => call.row !in rows
    case Answered(BadRequest) => call.row !in rows
    case Answered(ServerError(_)) => true
  }

  ghost predicate Owned(s: Service, row: ChargeRow) {
    exists c :: c in s.calls && s.calls[c].row == row
  }

  predicate MayInsert(call: Call) {
    !call.stage.Answered? || HasFailed(call)
  }

  ghost predicate ServiceInv(s: Service) {
    && UniqueKeys(s.rows)
    && (forall c :: c in s.calls ==> CallAgrees(s.rows, s.calls[c]))
    && (forall c, c' :: c in s.calls && c' in s.calls && s.calls[c].row.id == s.calls[c'].row.id ==> c == c')
    && (forall row :: row in s.rows ==> row.payload.amountCents > 0 && Owned(s, row))
    && (forall c :: c in s.calls && MayInsert(s.calls[c]) ==> s.calls[c].row.payload.amountCents > 0)
  }

  /** Adding another request's row does not change what a request knows. */
  lemma AgreesAfterInsert(rows: seq<ChargeRow>, row: ChargeRow, call: Call)
    requires CallAgrees(rows, call) && call.row != row
    ensures CallAgrees(InsertOrNothing(rows, row), call)
  {
    FindAfterInsert(rows, row, call.row.key);
  }

  /** The effect of an insert statement: the table, and the one request that moved. */
  lemma InsertEffect(s: Service, c: nat, acknowledged: bool)
    requires CanMove(s, Insert(c, acknowledged))
    ensures var s' := Moved(s, Insert(c, acknowledged)); var row := s.calls[c].row;
      && s'.rows == InsertOrNothing(s.rows, row)
      && s'.rows == (if AtomicOutcome(s.rows, row).Created? then s.rows + [row] else s.rows)
      && s'.calls == s.calls[c := s'.calls[c]] && s'.calls[c].row == row && !s'.calls[c].stage.Received?
      && (ServiceInv(s) ==> CallAgrees(s'.rows, s'.calls[c]))
  {
    FindAfterInsert(s.rows, s.calls[c].row, s.calls[c].row.key);
    if ServiceInv(s) {
      assert CallAgrees(s.rows, s.calls[c]);
    }
  }

  lemma InsertKeepsService(s: Service, c: nat, acknowledged: bool)
    requires ServiceInv(s) && CanMove(s, Insert(c, acknowledged))
    ensures ServiceInv(Moved(s, Insert(c, acknowledged)))
  {
    InsertEffect(s, c, acknowledged);
    InsertKeeps(s, c, Moved(s, Insert(c, acknowledged)));
  }

  lemma InsertKeeps(s: Service, c: nat, s': Service)
    requires ServiceInv(s) && c in s.calls && MayInsert(s.calls[c]) && c in s'.calls
    requires s'.rows == InsertOrNothing(s.rows, s.calls[c].row)
    requires s'.calls == s.calls[c := s'.calls[c]] && s'.calls[c].row == s.calls[c].row
    requires CallAgrees(s'.rows, s'.calls[c])
    ensures ServiceInv(s')
  {
    InsertKeepsUnique(s.rows, s.calls[c].row);
    forall c' | c' in s'.calls ensures CallAgrees(s'.rows, s'.calls[c']) {
      if c' != c {
        AgreesAfterInsert(s.rows, s.calls[c].row, s.calls[c']);
      }
    }
    forall r | r in s'.rows ensures r.payload.amountCents > 0 && Owned(s', r) {
      SameRows(s, s', r, c);
    }
  }

  /** The rows of the requests never change, so a row keeps its owner. */
  lemma SameRows(s: Service, s': Service, r: ChargeRow, c: nat)
    requires ServiceInv(s) && c in s.calls && MayInsert(s.calls[c])
    requires s'.calls.Keys == s.calls.Keys && forall c :: c in s.calls ==> s'.calls[c].row == s.calls[c].row
    requires r in s.rows || r == s.calls[c].row
    ensures r.payload.amountCents > 0 && Owned(s', r)
  {
    if r in s.rows {
      var c' :| c' in s.calls && s.calls[c'].row == r;
      assert s'.calls[c'].row == r;
    } else {
      assert s'.calls[c].row == r;
    }
  }

  lemma ArriveKeeps(s: Service, c: nat, id: Uuid, call: Call)
    requires ServiceInv(s) && c !in s.calls && forall c' :: c' in s.calls ==> s.calls[c'].row.id != id
    requires call.row.id == id && (call.stage.Received? || call.stage == Answered(BadRequest))
    requires call.stage.Received? ==> call.row.payload.amountCents > 0
    ensures ServiceInv(s.(calls := s.calls[c := call]))
  {
    var s' := s.(calls := s.calls[c := call]);
    forall row | row in s.rows ensures Owned(s', row) && row.id != id {
      var c' :| c' in s.calls && s.calls[c'].row == row;
      assert s'.calls[c'].row == row;
    }
  }

  lemma MoveKeepsService(s: Service, m: Move)
    requires ServiceInv(s) && CanMove(s, m)
    ensures ServiceInv(Moved(s, m))
  {
    var s' := Moved(s, m);
    match m
    case Insert(c, acknowledged) => InsertKeepsService(s, c, acknowledged);
    case Arrive(c, id, header, body) =>
      ArriveKeeps(s, c, id, Accept(id, header, body));
    case Inject(c, _) => AnswerKeeps(s, c, s'.calls[c].stage);
    case Select(c) => AnswerKeeps(s, c, s'.calls[c].stage);
    case Fail(c, _) => AnswerKeeps(s, c, s'.calls[c].stage);
    case InsertLate(c) => InsertKeeps(s, c, s');
  }

  lemma AnswerKeeps(s: Service, c: nat, stage: Stage)
    requires ServiceInv(s) && c in s.calls && !s.calls[c].stage.Answered? && stage.Answered?
    requires CallAgrees(s.rows, s.calls[c].(stage := stage))
    ensures ServiceInv(Answer(s, c, stage))
  {
    forall row | row in s.rows ensures Owned(Answer(s, c, stage), row) {
      SameRows(s, Answer(s, c, stage), row, c);
    }
  }

  // --- Linearizability ---

  ghost predicate CanRun(s: Service, ms: seq<Move>)
    decreases |ms|
  {
    ms == [] || (CanMove(s, ms[0]) && CanRun(Moved(s, ms[0]), ms[1..]))
  }

  ghost function Ran(s: Service, ms: seq<Move>): Service
    requires CanRun(s, ms)
    decreases |ms|
  {
    if ms == [] then s else Ran(Moved(s, ms[0]), ms[1..])
  }

  lemma {:induction false} RunKeepsService(s: Service, ms: seq<Move>)
    requires ServiceInv(s) && CanRun(s, ms)
    ensures ServiceInv(Ran(s, ms))
    decreases |ms|
  {
    if ms != [] {
      MoveKeepsService(s, ms[0]);
      RunKeepsService(Moved(s, ms[0]), ms[1..]);
    }
  }

  /** Rows are never removed or replaced, a request keeps its own row, and an answer is final. */
  ghost predicate Grows(s: Service, s': Service, key: string, c: nat) {
    && (FindByIdempotencyKey(s.rows, key).Some? ==> FindByIdempotencyKey(s'.rows, key) == FindByIdempotencyKey(s.rows, key))
    && (c in s.calls ==> c in s'.calls && s'.calls[c].row == s.calls[c].row)
    && (c in s.calls && s.calls[c].stage.Answered? ==> s'.calls[c] == s.calls[c])
  }

  lemma MoveGrows(s: Service, m: Move, key: string, c: nat)
    requires CanMove(s, m)
    ensures Grows(s, Moved(s, m), key, c)
  {
    if m.Insert? {
      InsertEffect(s, m.c, m.acknowledged);
    }
    if m.Insert? || m.InsertLate? {
      FindAfterInsert(s.rows, s.calls[m.c].row, key);
    }
  }

  lemma {:induction false} TableOnlyGrows(s: Service, ms: seq<Move>, key: string, c: nat)
    requires CanRun(s, ms)
    ensures Grows(s, Ran(s, ms), key, c)
    decreases |ms|
  {
    if ms != [] {
      MoveGrows(s, ms[0], key, c);
      TableOnlyGrows(Moved(s, ms[0]), ms[1..], key, c);
    }
  }

  /**
   Linearizability: whatever else interleaves, a request that is finally answered from the table gets
   exactly what the atomic insert-if-absent would have said at the moment of its insert statement, and
   that statement changed the table as the atomic operation does.
   */
  lemma InsertIsLinearizationPoint(s: Service, c: nat, acknowledged: bool, ms: seq<Move>)
    requires ServiceInv(s) && CanMove(s, Insert(c, acknowledged)) && CanRun(Moved(s, Insert(c, acknowledged)), ms)
    ensures var row := s.calls[c].row;
      Moved(s, Insert(c, acknowledged)).rows == if AtomicOutcome(s.rows, row).Created? then s.rows + [row] else s.rows
    ensures var calls := Ran(Moved(s, Insert(c, acknowledged)), ms).calls;
      c in calls && (calls[c].stage.Answered? && calls[c].stage.reply.Stored? ==>
        calls[c].stage.reply.outcome == AtomicOutcome(s.rows, s.calls[c].row))
  {
    var s1 := Moved(s, Insert(c, acknowledged));
    InsertKeepsService(s, c, acknowledged);
    InsertEffect(s, c, acknowledged);
    RunKeepsService(s1, ms);
    TableOnlyGrows(s1, ms, s.calls[c].row.key, c);
    FindAfterInsert(s.rows, s.calls[c].row, s.calls[c].row.key);
    AnsweredAtomically(s.rows, Ran(s1, ms).rows, s.calls[c], Ran(s1, ms).calls[c]);
  }

  lemma AnsweredAtomically(before: seq<ChargeRow>, after: seq<ChargeRow>, call: Call, answered: Call)
    requires CallAgrees(before, call) && call.stage.Received?
    requires CallAgrees(after, answered) && answered.row == call.row
    requires FindByIdempotencyKey(after, call.row.key) ==
      if FindByIdempotencyKey(before, call.row.key).Some? then FindByIdempotencyKey(before, call.row.key) else Some(call.row)
    ensures answered.stage.Answered? && answered.stage.reply.Stored? ==>
      answered.stage.reply.outcome == AtomicOutcome(before, call.row)
  {
  }

  /** The select after a lost insert always finds the row: the inconsistency error cannot happen. */
  lemma NeverInconsistent(s: Service, c: nat)
    requires ServiceInv(s) && CanMove(s, Select(c))
    ensures SelectReply(s.rows, s.calls[c].row).Stored?
  {
    assert CallAgrees(s.rows, s.calls[c]);
  }

  /** Of all requests with one key at most one sees Created; every other answer compares with that row. */
  lemma OneWinnerPerKey(s: Service, c: nat, c': nat)
    requires ServiceInv(s) && c in s.calls && c' in s.calls && s.calls[c].row.key == s.calls[c'].row.key && c != c'
    requires s.calls[c].stage.Answered? && s.calls[c].stage.reply.Stored? && s.calls[c].stage.reply.outcome.Created?
    requires s.calls[c'].stage.Answered? && s.calls[c'].stage.reply.Stored?
    ensures s.calls[c'].stage.reply.outcome ==
      if s.calls[c'].row.payload == s.calls[c].row.payload then Replayed(s.calls[c].row) else Conflict(s.calls[c].row)
  {
    assert CallAgrees(s.rows, s.calls[c]) && CallAgrees(s.rows, s.calls[c']);
  }

  /** The request cannot say whether its row was stored: its insert was not acknowledged, or it failed. */
  predicate Unsure(call: Call) {
    call.stage.Unacknowledged? || HasFailed(call)
  }

  predicate SawCreated(call: Call) {
    call.stage.Answered? && call.stage.reply.Stored? && call.stage.reply.outcome.Created?
  }

  /** Behind every answer from the table there is a request that stored the row, and it saw Created or is unsure. */
  lemma WinnerExists(s: Service, c: nat) returns (winner: nat)
    requires ServiceInv(s) && c in s.calls && s.calls[c].stage.Answered? && s.calls[c].stage.reply.Stored?
    ensures winner in s.calls && s.calls[winner].row == s.calls[c].stage.reply.outcome.row
    ensures s.calls[winner].row.key == s.calls[c].row.key
    ensures SawCreated(s.calls[winner]) || Unsure(s.calls[winner])
  {
    var row := s.calls[c].stage.reply.outcome.row;
    assert CallAgrees(s.rows, s.calls[c]);
    assert Owned(s, row);
    winner :| winner in s.calls && s.calls[winner].row == row;
    assert CallAgrees(s.rows, s.calls[winner]);
  }

  ghost predicate NobodyUnsure(s: Service, key: string) {
    forall c :: c in s.calls && s.calls[c].row.key == key ==> !Unsure(s.calls[c])
  }

  /** If nobody with the key is unsure, exactly one of its requests saw Created, and every other answer compares with it. */
  lemma ExactlyOneWinner(s: Service, c: nat) returns (winner: nat)
    requires ServiceInv(s) && c in s.calls && s.calls[c].stage.Answered? && s.calls[c].stage.reply.Stored?
    requires NobodyUnsure(s, s.calls[c].row.key)
    ensures winner in s.calls && s.calls[winner].row.key == s.calls[c].row.key && SawCreated(s.calls[winner])
    ensures forall c' :: c' in s.calls && s.calls[c'].row.key == s.calls[c].row.key && SawCreated(s.calls[c']) ==> c' == winner
    ensures s.calls[c].stage.reply.outcome ==
      if c == winner then Created(s.calls[c].row)
      else if s.calls[c].row.payload == s.calls[winner].row.payload then Replayed(s.calls[winner].row)
      else Conflict(s.calls[winner].row)
  {
    winner := WinnerExists(s, c);
    forall c' | c' in s.calls && s.calls[c'].row.key == s.calls[c].row.key && SawCreated(s.calls[c']) ensures c' == winner {
      if c' != winner {
        OneWinnerPerKey(s, winner, c');
      }
    }
    if c != winner {
      OneWinnerPerKey(s, winner, c);
    }
  }

  // --- The repository function, run without interleaving ---

  /** What a caller learns, by the rows before: the one row under the key, if any, and its three payload fields. */
  predicate Tells(rows: seq<ChargeRow>, row: ChargeRow, outcome: InsertOutcome) {
    if forall r :: r in rows ==> r.key != row.key then outcome == Created(row)
    else
      && outcome.row in rows && outcome.row.key == row.key
      && var same := outcome.row.payload.customerId == row.payload.customerId
           && outcome.row.payload.amountCents == row.payload.amountCents && outcome.row.payload.currency == row.payload.currency;
      if same then outcome.Replayed? else outcome.Conflict?
  }

  predicate AddedUnlessTaken(rows: seq<ChargeRow>, row: ChargeRow, rows': seq<ChargeRow>) {
    rows' == if forall r :: r in rows ==> r.key != row.key then rows + [row] else rows
  }

  lemma InsertTells(rows: seq<ChargeRow>, row: ChargeRow)
    ensures Tells(rows, row, AtomicOutcome(rows, row)) && AddedUnlessTaken(rows, row, InsertOrNothing(rows, row))
  {
  }

  /**
   The status code a lone request gets, and the table after it: 400 without a key or a valid payload, then the
   injected status, then 201, 200 or 409 for a new charge, the same charge again, or another one under the key.
   */
  predicate AnswersCharge(rows: seq<ChargeRow>, id: Uuid, header: Option<string>, body: Json, injected: Option<nat>,
                          status: nat, rows': seq<ChargeRow>)
  {
    var key := ReadKey(header);
    var payload := ParseChargePayload(body);
    if key.None? || payload.Err? then status == 400 && rows' == rows
    else if injected.Some? then status == injected.value && rows' == rows
    else if forall r :: r in rows ==> r.key != key.value
    then status == 201 && rows' == rows + [ChargeRow(id, key.value, payload.value)]
    else
      && rows' == rows
      && status == if exists r :: r in rows && r.key == key.value && r.payload == payload.value then 200 else 409
  }

  /** The status code the request handler gives. */
  function LoneStatus(rows: seq<ChargeRow>, id: Uuid, header: Option<string>, body: Json, injected: Option<nat>): nat {
    var call := Accept(id, header, body);
    if call.stage.Answered? then StatusOf(BadRequest)
    else if injected.Some? then StatusOf(Injected(injected.value))
    else StatusOf(Stored(AtomicOutcome(rows, call.row)))
  }

  function LoneRows(rows: seq<ChargeRow>, id: Uuid, header: Option<string>, body: Json, injected: Option<nat>): seq<ChargeRow> {
    var call := Accept(id, header, body);
    if call.stage.Answered? || injected.Some? then rows else InsertOrNothing(rows, call.row)
  }

  lemma AnswerInFields(rows: seq<ChargeRow>, id: Uuid, header: Option<string>, body: Json, injected: Option<nat>)
    requires UniqueKeys(rows)
    ensures AnswersCharge(rows, id, header, body, injected, LoneStatus(rows, id, header, body, injected),
                          LoneRows(rows, id, header, body, injected))
  {
    var call := Accept(id, header, body);
    var found := FindByIdempotencyKey(rows, call.row.key);
    if found.Some? {
      forall r | r in rows && r.key == call.row.key ensures r == found.value {
      }
    }
  }

  class ChargeTable {
    var rows: seq<ChargeRow>

    constructor ()
      ensures rows == []
    {
      rows := [];
    }

    /** The insert, then the select only when the insert returned nothing. */
    method InsertOrGetCharge(id: Uuid, key: string, payload: ChargePayload) returns (r: Option<InsertOutcome>)
      requires UniqueKeys(rows)
      modifies this
      ensures UniqueKeys(rows)
      ensures r == Some(AtomicOutcome(old(rows), ChargeRow(id, key, payload)))
      ensures Tells(old(rows), ChargeRow(id, key, payload), r.value)
      ensures AddedUnlessTaken(old(rows), ChargeRow(id, key, payload), rows)
    {
      InsertTells(rows, ChargeRow(id, key, payload));
      var row := ChargeRow(id, key, payload);
      var conflict := FindByIdempotencyKey(rows, key);
      rows := InsertOrNothing(rows, row);
      if conflict.None? {
        return Some(Created(row));
      }
      var existing := FindByIdempotencyKey(rows, key);
      match existing
      case None => r := None;
      case Some(found) => r := Some(if found.payload == payload then Replayed(found) else Conflict(found));
    }

    /** The request handler: key, payload, injected failure, then the table. A missing row would be a server error. */
    method CreateCharge(id: Uuid, header: Option<string>, body: Json, injected: Option<nat>) returns (reply: Reply)
      requires UniqueKeys(rows)
      modifies this
      ensures UniqueKeys(rows)
      ensures var accepted := Accept(id, header, body);
        if accepted.stage.Answered? then reply == BadRequest && rows == old(rows)
        else if injected.Some? then reply == Injected(injected.value) && rows == old(rows)
        else reply == Stored(AtomicOutcome(old(rows), accepted.row)) && rows == InsertOrNothing(old(rows), accepted.row)
      ensures AnswersCharge(old(rows), id, header, body, injected, StatusOf(reply), rows)
    {
      AnswerInFields(rows, id, header, body, injected);
      var key := ReadKey(header);
      var payload := ParseChargePayload(body);
      if key.None? || payload.Err? {
        return BadRequest;
      }
      if injected.Some? {
        return Injected(injected.value);
      }
      var outcome := InsertOrGetCharge(id, key.value, payload.value);
      match outcome
      case None => reply := ServerError(false);
      case Some(stored) => reply := Stored(stored);
    }
  }
}
