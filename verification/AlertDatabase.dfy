/** The two alert tables with their foreign key: rows, counters and history across all operations. */
module AlertDatabase {
  import opened Options
  import opened Markets
  import opened AlertRules

  /** config.id is the primary key of the row.  The chat is set on creation only: the update body has no such
      field. */
  datatype Row = Row(config: Config, chatId: nat, enabled: bool, triggerCount: nat, lastTriggeredAt: Option<int>)

  datatype HistoryRow = HistoryRow(configId: int, createdAt: int)

  datatype Db = Db(rows: map<int, Row>, history: seq<HistoryRow>)

  const EMPTY := Db(map[], [])

  datatype Outcome = Done | NotFound | ForeignKeyViolation | Failed

  /** A field of a partial update: absent from the body, or sent (possibly as null). */
  datatype Field<T> = Unset | Sent(value: Option<T>)

  datatype Patch = Patch(symbol: Field<string>, exchangeA: Field<Exchange>, exchangeB: Field<Exchange>,
                         thresholdPct: Field<int>, direction: Field<Direction>, cooldownMinutes: Field<int>, enabled: Field<bool>)

  /** Null clears a filter; for every other field null is ignored. */
  function Clearable<T>(f: Field<T>, before: Option<T>): Option<T> {
    if f.Unset? then before else f.value
  }

  function Kept<T>(f: Field<T>, before: T): T {
    if f.Unset? || f.value.None? then before else f.value.value
  }

  function Patched(r: Row, p: Patch): Row {
    var c := r.config;
    r.(config := Config(c.id, Clearable(p.symbol, c.symbol), Clearable(p.exchangeA, c.exchangeA), Clearable(p.exchangeB, c.exchangeB),
                        Kept(p.thresholdPct, c.thresholdPct), Kept(p.direction, c.direction), Kept(p.cooldownMinutes, c.cooldownMinutes)),
       enabled := Kept(p.enabled, r.enabled))
  }

  datatype Op =
    | Create(config: Config, chatId: nat, enabled: bool)
    | Update(id: int, patch: Patch)
    | Delete(id: int)
    | LogTrigger(id: int, now: int, commits: bool)

  /** One transaction.  The database hands out an unused id on creation; deleting a row that history refers
      to, or writing history for a missing row, violates the foreign key and rolls back. */
  function Apply(db: Db, op: Op): Db {
    match op
    case Create(c, chat, enabled) => if c.id in db.rows then db else db.(rows := db.rows[c.id := Row(c, chat, enabled, 0, None)])
    case Update(id, p) => if id in db.rows then db.(rows := db.rows[id := Patched(db.rows[id], p)]) else db
    case Delete(id) =>
      if id in db.rows && !Referenced(db.history, id) then db.(rows := map k | k in db.rows && k != id :: db.rows[k]) else db
    case LogTrigger(id, now, commits) =>
      if id in db.rows && commits then
        var r := db.rows[id];
        Db(db.rows[id := r.(triggerCount := r.triggerCount + 1, lastTriggeredAt := Some(now))], db.history + [HistoryRow(id, now)])
      else db
  }

  predicate Referenced(history: seq<HistoryRow>, id: int) {
    exists i :: 0 <= i < |history| && history[i].configId == id
  }

  function CountOf(history: seq<HistoryRow>, id: int): nat {
    if history == [] then 0
    else CountOf(history[..|history| - 1], id) + if history[|history| - 1].configId == id then 1 else 0
  }

  function Run(ops: seq<Op>): Db {
    if ops == [] then EMPTY else Apply(Run(ops[..|ops| - 1]), ops[|ops| - 1])
  }

  class Tables {
    var rows: map<int, Row>
    var history: seq<HistoryRow>

    ghost function View(): Db
      reads this
    {
      Db(rows, history)
    }

    constructor ()
      ensures View() == EMPTY
    {
      rows, history := map[], [];
    }

    method CreateAlert(config: Config, chatId: nat, enabled: bool)
      requires config.id !in rows
      modifies this
      ensures View() == Apply(old(View()), Create(config, chatId, enabled))
    {
      rows := rows[config.id := Row(config, chatId, enabled, 0, None)];
    }

    /** Field by field, as the update handler applies the body. */
    method UpdateAlert(id: int, p: Patch) returns (outcome: Outcome)
      modifies this
      ensures View() == Apply(old(View()), Update(id, p))
      ensures outcome == if id in old(rows) then Done else NotFound
    {
      if id !in rows { return NotFound; }
      var row := rows[id];
      row := SetFilters(row, p);
      row := SetTerms(row, p);
      rows := rows[id := row];
      outcome := Done;
    }

    /** The nullable filter fields. */
    method SetFilters(row: Row, p: Patch) returns (r: Row)
      ensures r == row.(config := Config(row.config.id, Clearable(p.symbol, row.config.symbol),
                                         Clearable(p.exchangeA, row.config.exchangeA), Clearable(p.exchangeB, row.config.exchangeB),
                                         row.config.thresholdPct, row.config.direction, row.config.cooldownMinutes))
    {
      var c := row.config;
      if p.symbol.Sent? { c := c.(symbol := p.symbol.value); }
      if p.exchangeA.Sent? { c := c.(exchangeA := p.exchangeA.value); }
      if p.exchangeB.Sent? { c := c.(exchangeB := p.exchangeB.value); }
      r := row.(config := c);
    }

    /** The other fields, where null is ignored. */
    method SetTerms(row: Row, p: Patch) returns (r: Row)
      ensures r == row.(config := row.config.(thresholdPct := Kept(p.thresholdPct, row.config.thresholdPct),
                                              direction := Kept(p.direction, row.config.direction),
                                              cooldownMinutes := Kept(p.cooldownMinutes, row.config.cooldownMinutes)),
                        enabled := Kept(p.enabled, row.enabled))
    {
      var c := row.config;
      if p.thresholdPct.Sent? && p.thresholdPct.value.Some? { c := c.(thresholdPct := p.thresholdPct.value.value); }
      if p.direction.Sent? && p.direction.value.Some? { c := c.(direction := p.direction.value.value); }
      if p.cooldownMinutes.Sent? && p.cooldownMinutes.value.Some? { c := c.(cooldownMinutes := p.cooldownMinutes.value.value); }
      r := row.(config := c);
      if p.enabled.Sent? && p.enabled.value.Some? { r := r.(enabled := p.enabled.value.value); }
    }

    method DeleteAlert(id: int) returns (outcome: Outcome)
      modifies this
      ensures View() == Apply(old(View()), Delete(id))
      ensures outcome == if id !in old(rows) then NotFound
                         else if Referenced(old(history), id) then ForeignKeyViolation else Done
    {
      if id !in rows { return NotFound; }
      if exists i :: 0 <= i < |history| && history[i].configId == id { return ForeignKeyViolation; }
      rows := map k | k in rows && k != id :: rows[k];
      outcome := Done;
    }

    /** Insert and counter update in one transaction; anything that raises rolls both back. */
    method WriteHistory(id: int, now: int, commits: bool) returns (outcome: Outcome)
      modifies this
      ensures View() == Apply(old(View()), LogTrigger(id, now, commits))
    {
      var savedRows, savedHistory := rows, history;
      history := history + [HistoryRow(id, now)];
      if id !in rows {
        history := savedHistory;
        return ForeignKeyViolation;
      }
      var row := rows[id];
      rows := rows[id := row.(triggerCount := row.triggerCount + 1, lastTriggeredAt := Some(now))];
      if !commits {
        rows, history := savedRows, savedHistory;
        return Failed;
      }
      outcome := Done;
    }
  }

  /** Each counter is the number of its history rows, and every history row refers to a row that exists. */
  ghost predicate Conserved(db: Db) {
    && (forall id :: id in db.rows ==> db.rows[id].config.id == id && db.rows[id].triggerCount == CountOf(db.history, id))
    && (forall i :: 0 <= i < |db.history| ==> db.history[i].configId in db.rows)
  }

  lemma {:induction false} CountZeroIffUnreferenced(history: seq<HistoryRow>, id: int)
    ensures CountOf(history, id) == 0 <==> !Referenced(history, id)
  {
    if history != [] {
      var n := |history| - 1;
      CountZeroIffUnreferenced(history[..n], id);
      forall i | 0 <= i < n ensures history[..n][i] == history[i] { }
      if Referenced(history[..n], id) {
        var i :| 0 <= i < n && history[..n][i].configId == id;
        assert history[i].configId == id;
      }
    }
  }

  lemma CountSnoc(history: seq<HistoryRow>, h: HistoryRow, id: int)
    ensures CountOf(history + [h], id) == CountOf(history, id) + if h.configId == id then 1 else 0
  {
    assert (history + [h])[..|history|] == history;
  }

  lemma ApplyKeepsConserved(db: Db, op: Op)
    requires Conserved(db)
    ensures Conserved(Apply(db, op))
  {
    match op
    case Create(c, _, _) => CountZeroIffUnreferenced(db.history, c.id);
    case Update(_, _) =>
    case Delete(_) =>
    case LogTrigger(id, now, commits) =>
      forall k { CountSnoc(db.history, HistoryRow(id, now), k); }
  }

  /** Counter conservation in every reachable database state. */
  lemma {:induction false} CounterConservation(ops: seq<Op>)
    ensures Conserved(Run(ops))
  {
    if ops != [] {
      CounterConservation(ops[..|ops| - 1]);
      ApplyKeepsConserved(Run(ops[..|ops| - 1]), ops[|ops| - 1]);
    }
  }

  /** What this means for deletion: in every reachable state a delete removes the row exactly when the row
      exists and has never triggered. */
  lemma DeletableIffNeverTriggered(ops: seq<Op>, id: int)
    ensures var db := Run(ops);
            (id in db.rows && id !in Apply(db, Delete(id)).rows) <==> (id in db.rows && db.rows[id].triggerCount == 0)
  {
    CounterConservation(ops);
    CountZeroIffUnreferenced(Run(ops).history, id);
  }

  predicate Writes(op: Op, id: int) {
    op.LogTrigger? && op.id == id && op.commits
  }

  /** The counter of a surviving alert never goes down, and history is append-only. */
  lemma HistoryOnlyGrows(db: Db, op: Op)
    ensures db.history <= Apply(db, op).history
    ensures forall id :: id in db.rows && id in Apply(db, op).rows ==>
              Apply(db, op).rows[id].triggerCount == db.rows[id].triggerCount + if Writes(op, id) then 1 else 0
  {
  }

  /** The alert an operation is about. */
  function Subject(op: Op): int {
    match op
    case Create(c, _, _) => c.id
    case Update(id, _) => id
    case Delete(id) => id
    case LogTrigger(id, _, _) => id
  }

  /** Frame: whatever the operation and its outcome, every other alert is there before exactly when it is
      there after, with the same row and the same number of history rows. */
  lemma OthersUntouched(db: Db, op: Op, id: int)
    requires id != Subject(op)
    ensures id in Apply(db, op).rows <==> id in db.rows
    ensures id in db.rows ==> Apply(db, op).rows[id] == db.rows[id]
    ensures CountOf(Apply(db, op).history, id) == CountOf(db.history, id)
  {
    if op.LogTrigger? {
      CountSnoc(db.history, HistoryRow(op.id, op.now), id);
    }
  }

  /** Creation adds exactly the row that was sent, never triggered, and nothing else. */
  lemma CreateAddsTheRow(db: Db, c: Config, chatId: nat, enabled: bool)
    requires c.id !in db.rows
    ensures var after := Apply(db, Create(c, chatId, enabled));
            && after.rows.Keys == db.rows.Keys + {c.id}
            && (var row := after.rows[c.id];
                && row.config.symbol == c.symbol && row.config.exchangeA == c.exchangeA && row.config.exchangeB == c.exchangeB
                && row.config.thresholdPct == c.thresholdPct && row.config.direction == c.direction
                && row.config.cooldownMinutes == c.cooldownMinutes && row.chatId == chatId && row.enabled == enabled
                && row.triggerCount == 0 && row.lastTriggeredAt == None)
            && (forall id :: id in db.rows ==> after.rows[id] == db.rows[id])
            && after.history == db.history
  {
  }

  /** Deletion of an alert without history leaves exactly the other alerts, as they were; with history, or of
      an alert that is not there, it changes nothing. */
  lemma DeleteRemovesOnlyIt(db: Db, id: int)
    ensures var after := Apply(db, Delete(id));
            if id in db.rows && CountOf(db.history, id) == 0 then
              after.rows.Keys == db.rows.Keys - {id} && after.history == db.history
              && forall other :: other in after.rows ==> after.rows[other] == db.rows[other]
            else after == db
  {
    CountZeroIffUnreferenced(db.history, id);
  }

  /** A partial update, field by field: a filter that is not sent stays and a null clears it; any other field
      takes a value that is sent, and stays when it is not sent or null; the identity, the chat, the counter
      and the trigger time stay, and so does history. */
  lemma UpdateFieldByField(db: Db, id: int, p: Patch)
    requires id in db.rows
    ensures var r := db.rows[id]; var after := Apply(db, Update(id, p)); var q := after.rows[id];
            && after.rows.Keys == db.rows.Keys && after.history == db.history
            && q.config.id == r.config.id && q.chatId == r.chatId && q.triggerCount == r.triggerCount && q.lastTriggeredAt == r.lastTriggeredAt
            && (p.symbol == Unset ==> q.config.symbol == r.config.symbol) && (p.symbol == Sent(None) ==> q.config.symbol == None)
            && (forall x :: p.symbol == Sent(Some(x)) ==> q.config.symbol == Some(x))
            && (p.exchangeA == Unset ==> q.config.exchangeA == r.config.exchangeA) && (p.exchangeA == Sent(None) ==> q.config.exchangeA == None)
            && (forall x :: p.exchangeA == Sent(Some(x)) ==> q.config.exchangeA == Some(x))
            && (p.exchangeB == Unset ==> q.config.exchangeB == r.config.exchangeB) && (p.exchangeB == Sent(None) ==> q.config.exchangeB == None)
            && (forall x :: p.exchangeB == Sent(Some(x)) ==> q.config.exchangeB == Some(x))
  {
  }

  lemma UpdateTerms(db: Db, id: int, p: Patch)
    requires id in db.rows
    ensures var r, q := db.rows[id], Apply(db, Update(id, p)).rows[id];
            && (p.thresholdPct in {Unset, Sent(None)} ==> q.config.thresholdPct == r.config.thresholdPct)
            && (forall x :: p.thresholdPct == Sent(Some(x)) ==> q.config.thresholdPct == x)
            && (p.direction in {Unset, Sent(None)} ==> q.config.direction == r.config.direction)
            && (forall x :: p.direction == Sent(Some(x)) ==> q.config.direction == x)
            && (p.cooldownMinutes in {Unset, Sent(None)} ==> q.config.cooldownMinutes == r.config.cooldownMinutes)
            && (forall x :: p.cooldownMinutes == Sent(Some(x)) ==> q.config.cooldownMinutes == x)
            && (p.enabled in {Unset, Sent(None)} ==> q.enabled == r.enabled)
            && (forall x :: p.enabled == Sent(Some(x)) ==> q.enabled == x)
  {
  }

  /** A committed trigger appends one history row of its alert and counts it, with its time; a failed one, or
      one of an alert that is gone, leaves both tables as they were. */
  lemma TriggerIsLogged(db: Db, id: int, now: int, commits: bool)
    ensures var after := Apply(db, LogTrigger(id, now, commits));
            if id in db.rows && commits then
              && after.rows.Keys == db.rows.Keys && after.history == db.history + [HistoryRow(id, now)]
              && after.rows[id].triggerCount == db.rows[id].triggerCount + 1 && after.rows[id].lastTriggeredAt == Some(now)
              && after.rows[id].config == db.rows[id].config && after.rows[id].enabled == db.rows[id].enabled
              && after.rows[id].chatId == db.rows[id].chatId
            else after == db
  {
  }
}
