/** `BatchWriter` (src/pae/ingest/writer.py): rows buffered per table, flushed by
    inserts that may fail and that let other code run while they are awaited. */
module BatchWriter {
  import opened Prelude

  type Name = string
  type Row = int

  /** The rows one await is sending. */
  datatype Sending = Sending(table: Name, rows: seq<Row>)

  /** What the writer holds, with the history needed to speak about loss:
      `written` is what the database accepted, `added` every row ever handed in. */
  datatype State = State(
    buffers: map<Name, seq<Row>>, sending: Option<Sending>,
    written: map<Name, seq<Row>>, added: map<Name, seq<Row>>, lost: map<Name, nat>)

  function RowsOf(m: map<Name, seq<Row>>, t: Name): seq<Row> { if t in m then m[t] else [] }

  function LostOf(s: State, t: Name): nat { if t in s.lost then s.lost[t] else 0 }

  datatype Op =
    | Add(table: Name, row: Row)
    | StartInsert(name: Name)     // flush reaches a non-empty table and awaits the insert
    | FinishInsert(ok: bool)      // the await returns or raises

  predicate Enabled(s: State, op: Op) {
    match op
    case Add(_, _) => true
    case StartInsert(t) => s.sending.None? && t in s.buffers && s.buffers[t] != []
    case FinishInsert(_) => s.sending.Some?
  }

  /** Rows that arrived in the table of the awaited insert since it started. */
  function Arrived(s: State): nat
    requires s.sending.Some?
  {
    var now := |RowsOf(s.buffers, s.sending.value.table)|;
    if now < |s.sending.value.rows| then 0 else now - |s.sending.value.rows|
  }

  function Next(s: State, op: Op): State
    requires Enabled(s, op)
  {
    match op
    case Add(t, row) =>
      s.(buffers := s.buffers[t := RowsOf(s.buffers, t) + [row]], added := s.added[t := RowsOf(s.added, t) + [row]])
    case StartInsert(t) =>
      s.(sending := Some(Sending(t, s.buffers[t])))
    case FinishInsert(ok) =>
      var Sending(t, rows) := s.sending.value;
      if ok then
        s.(sending := None, written := s.written[t := RowsOf(s.written, t) + rows],
           buffers := s.buffers[t := []], lost := s.lost[t := LostOf(s, t) + Arrived(s)])
      else s.(sending := None)
  }

  const START := State(map[], None, map[], map[], map[])

  // -------------------------------------------------------------- invariants

  ghost predicate Conserved(s: State, t: Name) {
    RowsOf(s.written, t) + RowsOf(s.buffers, t) == RowsOf(s.added, t)
  }

  /** Every row is written, buffered or counted as lost; where none is lost, written
      rows followed by buffered rows are exactly the added rows in order. */
  ghost predicate Accounted(s: State, t: Name) {
    && |RowsOf(s.written, t)| + |RowsOf(s.buffers, t)| + LostOf(s, t) == |RowsOf(s.added, t)|
    && (LostOf(s, t) == 0 ==> Conserved(s, t))
    && (s.sending.Some? && s.sending.value.table == t ==> s.sending.value.rows <= RowsOf(s.buffers, t))
  }

  ghost predicate Inv(s: State) {
    forall t: Name :: Accounted(s, t)
  }

  lemma StepAccounts(s: State, op: Op, t: Name)
    requires Accounted(s, t) && Enabled(s, op)
    ensures Accounted(Next(s, op), t)
  {
    match op
    case Add(u, row) =>
      assert t == u && LostOf(s, t) == 0 ==>
        RowsOf(s.written, t) + (RowsOf(s.buffers, t) + [row]) == (RowsOf(s.written, t) + RowsOf(s.buffers, t)) + [row];
    case StartInsert(_) =>
    case FinishInsert(ok) =>
      var Sending(u, rows) := s.sending.value;
      if ok && t == u && Arrived(s) == 0 {
        assert rows == RowsOf(s.buffers, t);
        assert RowsOf(s.written, t) + rows + [] == RowsOf(s.written, t) + rows;
      }
  }

  lemma InvIsKept(s: State, op: Op)
    requires Inv(s) && Enabled(s, op)
    ensures Inv(Next(s, op))
  {
    hide Accounted;
    forall t: Name ensures Accounted(Next(s, op), t) {
      assert Accounted(s, t);
      StepAccounts(s, op, t);
    }
  }

  predicate Runs(s: State, ops: seq<Op>)
    decreases |ops|
  {
    ops == [] || (Enabled(s, ops[0]) && Runs(Next(s, ops[0]), ops[1..]))
  }

  function Final(s: State, ops: seq<Op>): State
    requires Runs(s, ops)
    decreases |ops|
  {
    if ops == [] then s else Final(Next(s, ops[0]), ops[1..])
  }

  lemma {:induction false} InvOnRuns(s: State, ops: seq<Op>)
    requires Inv(s) && Runs(s, ops)
    ensures Inv(Final(s, ops))
    decreases |ops|
  {
    if ops != [] {
      InvIsKept(s, ops[0]);
      InvOnRuns(Next(s, ops[0]), ops[1..]);
    }
  }

  /** No row of table t was added while an insert into t was awaited that then succeeded. */
  predicate QuietInserts(s: State, ops: seq<Op>, t: Name)
    requires Runs(s, ops)
    decreases |ops|
  {
    ops != [] ==>
      && (ops[0] == FinishInsert(true) && s.sending.value.table == t ==> Arrived(s) == 0)
      && QuietInserts(Next(s, ops[0]), ops[1..], t)
  }

  lemma {:induction false} LossIsArrivals(s: State, ops: seq<Op>, t: Name)
    requires Runs(s, ops)
    ensures LostOf(Final(s, ops), t) >= LostOf(s, t)
    ensures LostOf(Final(s, ops), t) == LostOf(s, t) <==> QuietInserts(s, ops, t)
    decreases |ops|
  {
    if ops != [] {
      LossIsArrivals(Next(s, ops[0]), ops[1..], t);
    }
  }

  /** Over every run, with any inserts failing: written rows followed by buffered
      rows are the added rows, in order and each once, exactly when no row was
      added to the table inside one of its successful inserts. */
  lemma ConservedExactlyWhenQuiet(ops: seq<Op>, t: Name)
    requires Runs(START, ops)
    ensures Conserved(Final(START, ops), t) <==> QuietInserts(START, ops, t)
  {
    assert Inv(START);
    InvOnRuns(START, ops);
    LossIsArrivals(START, ops, t);
    assert Accounted(Final(START, ops), t);
  }

  /** A row added inside its table's insert is lost when the insert succeeds, and
      kept when it fails. */
  lemma AddInsideInsertIsLost(t: Name, a: Row, b: Row)
    ensures Runs(START, [Add(t, a), StartInsert(t), Add(t, b), FinishInsert(true)])
    ensures var s := Final(START, [Add(t, a), StartInsert(t), Add(t, b), FinishInsert(true)]);
            RowsOf(s.written, t) == [a] && RowsOf(s.buffers, t) == [] && RowsOf(s.added, t) == [a, b]
  {
    var s1 := Next(START, Add(t, a));
    var s2 := Next(s1, StartInsert(t));
    var s3 := Next(s2, Add(t, b));
    var s4 := Next(s3, FinishInsert(true));
    var ops := [Add(t, a), StartInsert(t), Add(t, b), FinishInsert(true)];
    assert ops[1..] == [StartInsert(t), Add(t, b), FinishInsert(true)];
    assert ops[1..][1..] == [Add(t, b), FinishInsert(true)];
    assert ops[1..][1..][1..] == [FinishInsert(true)];
    assert ops[1..][1..][1..][1..] == [];
    assert Runs(s3, [FinishInsert(true)]) && Final(s3, [FinishInsert(true)]) == s4;
    assert Runs(s2, ops[1..][1..]) && Final(s2, ops[1..][1..]) == s4;
    assert Runs(s1, ops[1..]) && Final(s1, ops[1..]) == s4;
  }

  // ---------------------------------------------------------------- the class

  class Writer {
    var buffers: map<Name, seq<Row>>
    var order: seq<Name>              // the dictionary's insertion order
    ghost var model: State

    ghost predicate Valid()
      reads this
    {
      && model.buffers == buffers && model.sending == None && Inv(model)
      && (forall t :: t in buffers <==> t in order)
      && (forall i, j :: 0 <= i < j < |order| ==> order[i] != order[j])
    }

    constructor ()
      ensures Valid() && model == START
    {
      buffers := map[];
      order := [];
      model := START;
    }

    method AddRow(table: Name, row: Row)
      requires Valid()
      modifies this
      ensures Valid() && model == Next(old(model), Add(table, row))
    {
      InvIsKept(model, Add(table, row));
      if table !in buffers {
        order := order + [table];
        buffers := buffers[table := []];
      }
      buffers := buffers[table := buffers[table] + [row]];
      model := Next(model, Add(table, row));
    }

    /** A flush nobody interrupts: each table's rows are written or kept, all of them. */
    method Flush(accepts: Name -> bool)
      requires Valid()
      modifies this
      ensures Valid() && model.added == old(model).added
      ensures forall t: Name :: TableFlushed(old(model), model, accepts, t, t in old(buffers))
    {
      ghost var start := model;
      for k := 0 to |order|
        invariant Valid() && order == old(order) && buffers.Keys == old(buffers).Keys && model.added == start.added
        invariant forall t: Name :: TableFlushed(start, model, accepts, t, t in order[..k])
      {
        var t := order[k];
        var rows := buffers[t];
        assert t in order && order[..k + 1] == order[..k] + [t] && t !in order[..k];
        FlushOne(start, model, accepts, order[..k], t);
        if rows != [] {
          var ok := accepts(t);
          InvIsKept(model, StartInsert(t));
          InvIsKept(Next(model, StartInsert(t)), FinishInsert(ok));
          model := Next(Next(model, StartInsert(t)), FinishInsert(ok));
          if ok {
            buffers := buffers[t := []];
          }
        }
      }
      assert order[..|order|] == order;
    }
  }

  /** What an uninterrupted flush has done to table t once it has visited it. */
  ghost predicate TableFlushed(start: State, now: State, accepts: Name -> bool, t: Name, visited: bool) {
    && RowsOf(now.buffers, t) == (if visited && accepts(t) then [] else RowsOf(start.buffers, t))
    && RowsOf(now.written, t) == RowsOf(start.written, t)
        + (if visited && accepts(t) then RowsOf(start.buffers, t) else [])
    && LostOf(now, t) == LostOf(start, t)
  }

  /** One uninterrupted insert of table t. */
  function Inserted(s: State, t: Name, ok: bool): State
    requires s.sending.None? && t in s.buffers && s.buffers[t] != []
  {
    Next(Next(s, StartInsert(t)), FinishInsert(ok))
  }

  lemma InsertedEffect(s: State, t: Name, ok: bool, u: Name)
    requires s.sending.None? && t in s.buffers && s.buffers[t] != []
    ensures RowsOf(Inserted(s, t, ok).buffers, u) == if ok && u == t then [] else RowsOf(s.buffers, u)
    ensures RowsOf(Inserted(s, t, ok).written, u) == RowsOf(s.written, u) + if ok && u == t then s.buffers[t] else []
    ensures LostOf(Inserted(s, t, ok), u) == LostOf(s, u)
  {
  }

  lemma FlushTable(start: State, now: State, accepts: Name -> bool, done: bool, t: Name, u: Name)
    requires TableFlushed(start, now, accepts, u, done) && TableFlushed(start, now, accepts, t, false)
    requires now.sending.None? && t in now.buffers
    ensures now.buffers[t] == [] ==> TableFlushed(start, now, accepts, u, done || u == t)
    ensures now.buffers[t] != [] ==>
              TableFlushed(start, Inserted(now, t, accepts(t)), accepts, u, done || u == t)
  {
    hide Inserted;
    if now.buffers[t] != [] {
      InsertedEffect(now, t, accepts(t), u);
    }
  }

  lemma FlushOne(start: State, now: State, accepts: Name -> bool, done: seq<Name>, t: Name)
    requires forall u: Name :: TableFlushed(start, now, accepts, u, u in done)
    requires now.sending.None? && t !in done && t in now.buffers
    ensures now.buffers[t] == [] ==> forall u: Name :: TableFlushed(start, now, accepts, u, u in done + [t])
    ensures now.buffers[t] != [] ==>
              forall u: Name :: TableFlushed(start, Inserted(now, t, accepts(t)), accepts, u, u in done + [t])
  {
    hide TableFlushed, Inserted;
    assert TableFlushed(start, now, accepts, t, t in done);
    forall u: Name
      ensures u in done + [t] <==> u in done || u == t
      ensures now.buffers[t] == [] ==> TableFlushed(start, now, accepts, u, u in done || u == t)
      ensures now.buffers[t] != [] ==>
                TableFlushed(start, Inserted(now, t, accepts(t)), accepts, u, u in done || u == t)
    {
      FlushTable(start, now, accepts, u in done, t, u);
    }
  }
}
