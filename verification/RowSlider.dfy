/** The basement-tablet row slider (ha/basement_tablet/entities.py, helpers.py):
    two automations that trigger each other, as a state machine whose steps may
    interleave in any order. */
module RowSlider {

  /** Rows front to rear; each row lists which of its lights are on. */
  type Rows = seq<seq<bool>>

  predicate AllOn(row: seq<bool>) {
    forall i :: 0 <= i < |row| ==> row[i]
  }

  predicate NonEmptyRows(rows: Rows) {
    forall r :: 0 <= r < |rows| ==> rows[r] != []
  }

  /** Slider value -> should row r be lit? Row r (from 0) of n is the source's row
      r + 1, lit iff value >= (n + 1) - (r + 1). */
  predicate RowIsOn(value: int, r: nat, n: nat) {
    value >= n - r
  }

  /** How many rows, counted from the rear, are on without interruption. */
  function ValueOf(rows: Rows): (v: nat)
    ensures v <= |rows|
  {
    if rows == [] then 0
    else
      var rest := ValueOf(rows[1..]);
      if rest == |rows| - 1 && AllOn(rows[0]) then rest + 1 else rest
  }

  /** The elif chain of the rendered template, for the four rows of the room. */
  function TemplateValue(r1: bool, r2: bool, r3: bool, r4: bool): nat {
    if r1 && r2 && r3 && r4 then 4
    else if r2 && r3 && r4 then 3
    else if r3 && r4 then 2
    else if r4 then 1
    else 0
  }

  lemma TemplateIsValue(rows: Rows)
    requires |rows| == 4
    ensures TemplateValue(AllOn(rows[0]), AllOn(rows[1]), AllOn(rows[2]), AllOn(rows[3])) == ValueOf(rows)
  {
    assert rows[1..][1..] == rows[2..] && rows[2..][1..] == rows[3..] && rows[3..][1..] == [];
    assert ValueOf(rows[3..]) == if AllOn(rows[3]) then 1 else 0;
    assert ValueOf(rows[2..]) == if ValueOf(rows[3..]) == 1 && AllOn(rows[2]) then 2 else ValueOf(rows[3..]);
    assert ValueOf(rows[1..]) == if ValueOf(rows[2..]) == 2 && AllOn(rows[1]) then 3 else ValueOf(rows[2..]);
  }

  /** v rows are on from the rear, and the row in front of them is not. */
  predicate CountsRearRows(rows: Rows, v: nat) {
    && v <= |rows|
    && (forall r :: |rows| - v <= r < |rows| ==> AllOn(rows[r]))
    && (v < |rows| ==> !AllOn(rows[|rows| - v - 1]))
  }

  /** ValueOf is the largest such count, and the only one. */
  lemma {:induction false} ValueCounts(rows: Rows, v: nat)
    ensures CountsRearRows(rows, v) <==> v == ValueOf(rows)
  {
    if rows != [] {
      var rest := rows[1..];
      ValueCounts(rest, ValueOf(rest));
      assert forall r :: 0 <= r < |rest| ==> rest[r] == rows[r + 1];
      assert CountsRearRows(rows, ValueOf(rows));
      if v < ValueOf(rows) {
        CountsIsUnique(rows, v, ValueOf(rows));
      } else if ValueOf(rows) < v <= |rows| {
        CountsIsUnique(rows, ValueOf(rows), v);
      }
    }
  }

  lemma CountsIsUnique(rows: Rows, v: nat, w: nat)
    requires v < w <= |rows|
    ensures !(CountsRearRows(rows, v) && CountsRearRows(rows, w))
  {
  }

  // ------------------------------------------------------ applying the slider

  function ApplyAll(value: int, rows: Rows): Rows {
    seq(|rows|, r requires 0 <= r < |rows| => seq(|rows[r]|, i => RowIsOn(value, r, |rows|)))
  }

  predicate Conforms(value: int, rows: Rows, r: nat)
    requires r < |rows|
  {
    forall i :: 0 <= i < |rows[r]| ==> rows[r][i] == RowIsOn(value, r, |rows|)
  }

  /** Rows that obey the slider read back as the slider's value. */
  lemma ConformingValue(value: nat, rows: Rows)
    requires value <= |rows| && NonEmptyRows(rows)
    requires forall r :: 0 <= r < |rows| ==> Conforms(value, rows, r)
    ensures ValueOf(rows) == value
  {
    forall r | |rows| - value <= r < |rows| ensures AllOn(rows[r]) {
      assert Conforms(value, rows, r);
    }
    if value < |rows| {
      var r := |rows| - value - 1;
      assert Conforms(value, rows, r) && rows[r] != [] && !rows[r][0];
    }
    ValueCounts(rows, value);
  }

  /** Slider to rows and back is the identity. */
  lemma ApplyThenRead(value: nat, rows: Rows)
    requires value <= |rows| && NonEmptyRows(rows)
    ensures ValueOf(ApplyAll(value, rows)) == value
  {
    var applied := ApplyAll(value, rows);
    forall r | 0 <= r < |applied| ensures Conforms(value, applied, r) && applied[r] != [] {
      assert |applied[r]| == |rows[r]|;
    }
    ConformingValue(value, applied);
  }

  // --------------------------------------------------------- the two automations

  /** Progress of the apply run: about to evaluate a row's condition, or sending a
      row's command to the lights that have not obeyed it yet, in any order. */
  datatype Apply = Idle | Choosing(row: nat) | Sending(row: nat, on: bool, todo: set<nat>)

  datatype State = State(slider: nat, rows: Rows, apply: Apply, syncPending: bool)

  datatype Step =
    | Slide(value: nat)                             // the user moves the slider
    | External(row: nat, light: nat, lit: bool)     // a light changes elsewhere
    | Choose                                        // the apply run evaluates a row's condition
    | Send(lamp: nat)                               // one light obeys the row's command
    | Sync                                          // the debounce elapses: rows -> slider

  predicate Internal(step: Step) {
    step.Choose? || step.Send? || step.Sync?
  }

  function LightsBelow(n: nat): (lights: set<nat>)
    ensures |lights| == n && forall i: nat :: i in lights <==> i < n
  {
    if n == 0 then {} else LightsBelow(n - 1) + {n - 1}
  }

  predicate Enabled(s: State, step: Step) {
    match step
    case Slide(v) => v <= |s.rows|
    case External(r, l, _) => r < |s.rows| && l < |s.rows[r]|
    case Choose => s.apply.Choosing? && s.apply.row < |s.rows|
    case Send(l) => s.apply.Sending? && s.apply.row < |s.rows| && l in s.apply.todo && l < |s.rows[s.apply.row]|
    case Sync => s.syncPending
  }

  /** A changed slider (re)starts the apply run; an unchanged set_value is silent. */
  function SetSlider(s: State, v: nat): State {
    if v == s.slider then s
    else s.(slider := v, apply := if s.rows == [] then Idle else Choosing(0))
  }

  /** A changed light (re)starts the debounce; an unchanged one is silent. */
  function SetLight(s: State, r: nat, l: nat, lit: bool): State
    requires r < |s.rows| && l < |s.rows[r]|
  {
    if s.rows[r][l] == lit then s
    else s.(rows := s.rows[r := s.rows[r][l := lit]], syncPending := true)
  }

  function AfterRow(r: nat, n: nat): Apply {
    if r + 1 < n then Choosing(r + 1) else Idle
  }

  function Next(s: State, step: Step): State
    requires Enabled(s, step)
  {
    match step
    case Slide(v) => SetSlider(s, v)
    case External(r, l, lit) => SetLight(s, r, l, lit)
    case Choose =>
      var r := s.apply.row;
      s.(apply := if s.rows[r] == [] then AfterRow(r, |s.rows|)
                  else Sending(r, RowIsOn(s.slider, r, |s.rows|), LightsBelow(|s.rows[r]|)))
    case Send(l) =>
      var Sending(r, on, todo) := s.apply;
      var rest := todo - {l};
      SetLight(s, r, l, on).(apply := if rest == {} then AfterRow(r, |s.rows|) else Sending(r, on, rest))
    case Sync => SetSlider(s, ValueOf(s.rows)).(syncPending := false)
  }

  // ------------------------------------------------------------- the invariant

  predicate Settled(s: State) {
    s.slider == ValueOf(s.rows)
  }

  /** The apply run's bookkeeping: the command in flight is the one the present
      slider asks for, because a slider change restarts the run. */
  predicate Sound(s: State) {
    && s.slider <= |s.rows| && NonEmptyRows(s.rows)
    && match s.apply
       case Idle => true
       case Choosing(r) => r < |s.rows|
       case Sending(r, on, todo) =>
         r < |s.rows| && on == RowIsOn(s.slider, r, |s.rows|) && todo != {} && forall l :: l in todo ==> l < |s.rows[r]|
  }

  /** Everything the run has passed obeys the slider. */
  predicate Tracking(s: State)
    requires Sound(s)
  {
    match s.apply
    case Idle => false
    case Choosing(r) => forall q :: 0 <= q < r ==> Conforms(s.slider, s.rows, q)
    case Sending(r, on, todo) =>
      && (forall q :: 0 <= q < r ==> Conforms(s.slider, s.rows, q))
      && (forall l: nat :: l < |s.rows[r]| && l !in todo ==> s.rows[r][l] == on)
  }

  /** Unless a sync is on its way, slider and rows agree or the apply run is
      bringing them to agree. */
  predicate Inv(s: State) {
    Sound(s) && (s.syncPending || Settled(s) || Tracking(s))
  }

  lemma DarkenKeepsValue(rows: Rows, r: nat, l: nat)
    requires r < |rows| && l < |rows[r]| && !RowIsOn(ValueOf(rows), r, |rows|)
    ensures ValueOf(rows[r := rows[r][l := false]]) == ValueOf(rows)
  {
    var v, dark := ValueOf(rows), rows[r := rows[r][l := false]];
    ValueCounts(rows, v);
    assert !AllOn(dark[r]) by { assert !dark[r][l]; }
    forall q | |rows| - v <= q < |rows| ensures AllOn(dark[q]) {
      assert AllOn(rows[q]) && dark[q] == rows[q];
    }
    ValueCounts(dark, v);
  }

  /** Once slider and rows agree, no step of the automations parts them again. */
  lemma SettledIsStable(s: State, step: Step)
    requires Sound(s) && Settled(s) && Enabled(s, step) && Internal(step)
    ensures Settled(Next(s, step)) && Next(s, step).slider == s.slider
  {
    if step.Send? {
      var Sending(r, on, todo) := s.apply;
      var l := step.lamp;
      if on {
        ValueCounts(s.rows, s.slider);
        assert AllOn(s.rows[r]) && s.rows[r][l];
      } else if s.rows[r][l] {
        DarkenKeepsValue(s.rows, r, l);
      }
    }
  }

  lemma SoundIsKept(s: State, step: Step)
    requires Sound(s) && Enabled(s, step)
    ensures Sound(Next(s, step)) && |Next(s, step).rows| == |s.rows|
  {
  }

  lemma SendKeepsTracking(s: State, l: nat)
    requires Sound(s) && Tracking(s) && Enabled(s, Send(l)) && !Next(s, Send(l)).syncPending
    ensures Sound(Next(s, Send(l)))
    ensures Settled(Next(s, Send(l))) || Tracking(Next(s, Send(l)))
  {
    SoundIsKept(s, Send(l));
    var Sending(r, on, todo) := s.apply;
    var t := Next(s, Send(l));
    assert t.rows == s.rows && s.rows[r][l] == on;
    if todo - {l} == {} {
      forall i | 0 <= i < |s.rows[r]| ensures s.rows[r][i] == on {
        if i in todo {
          assert i !in todo - {l};
        }
      }
      assert Conforms(s.slider, s.rows, r);
      if r + 1 == |s.rows| {
        ConformingValue(s.slider, s.rows);
      }
    }
  }

  /** The invariant survives every step of every participant. */
  lemma InvIsKept(s: State, step: Step)
    requires Inv(s) && Enabled(s, step)
    ensures Inv(Next(s, step))
  {
    SoundIsKept(s, step);
    if Internal(step) && Settled(s) {
      SettledIsStable(s, step);
    } else if step.Send? && !Next(s, step).syncPending {
      SendKeepsTracking(s, step.lamp);
    }
  }

  // ------------------------------------------------------------ whole runs

  /** The states a list of steps goes through, if each is enabled in turn. */
  predicate Runs(s: State, steps: seq<Step>)
    decreases |steps|
  {
    steps == [] || (Enabled(s, steps[0]) && Runs(Next(s, steps[0]), steps[1..]))
  }

  function Final(s: State, steps: seq<Step>): State
    requires Runs(s, steps)
    decreases |steps|
  {
    if steps == [] then s else Final(Next(s, steps[0]), steps[1..])
  }

  predicate Quiet(s: State) {
    s.apply.Idle? && !s.syncPending
  }

  /** Whatever the users and lights did, and however the automations interleaved
      with them: when nothing is pending, the slider tells the truth. */
  lemma {:induction false} QuietMeansTruthful(s: State, steps: seq<Step>)
    requires Inv(s) && Runs(s, steps)
    ensures Inv(Final(s, steps))
    ensures Quiet(Final(s, steps)) ==> Final(s, steps).slider == ValueOf(Final(s, steps).rows)
    decreases |steps|
  {
    if steps != [] {
      InvIsKept(s, steps[0]);
      QuietMeansTruthful(Next(s, steps[0]), steps[1..]);
    }
  }

  /** Steps left for the rows from r on: one decision each, one per light. */
  function Work(rows: Rows, r: nat): nat
    decreases |rows| - r
  {
    if r >= |rows| then 0 else 1 + |rows[r]| + Work(rows, r + 1)
  }

  function Remaining(s: State): nat {
    match s.apply
    case Idle => 0
    case Choosing(r) => Work(s.rows, r)
    case Sending(r, _, todo) => |todo| + Work(s.rows, r + 1)
  }

  /** Bounds the steps the automations can still take on their own. */
  function Measure(s: State): nat {
    (if Settled(s) then 0 else 2 * Work(s.rows, 0) + 2) + 2 * Remaining(s) + (if s.syncPending then 1 else 0)
  }

  lemma {:induction false} WorkBySize(rows: Rows, other: Rows, r: nat)
    requires |rows| == |other| && forall q :: 0 <= q < |rows| ==> |rows[q]| == |other[q]|
    ensures Work(rows, r) == Work(other, r)
    decreases |rows| - r
  {
    if r < |rows| {
      WorkBySize(rows, other, r + 1);
    }
  }

  lemma SendCosts(s: State, l: nat)
    requires Sound(s) && Enabled(s, Send(l))
    ensures Remaining(Next(s, Send(l))) < Remaining(s) && Work(Next(s, Send(l)).rows, 0) == Work(s.rows, 0)
  {
    var t := Next(s, Send(l));
    WorkBySize(s.rows, t.rows, 0);
    WorkBySize(s.rows, t.rows, s.apply.row + 1);
    assert |s.apply.todo - {l}| == |s.apply.todo| - 1;
  }

  lemma ChooseCosts(s: State)
    requires Sound(s) && Enabled(s, Choose)
    ensures Remaining(Next(s, Choose)) < Remaining(s) && Next(s, Choose).rows == s.rows
  {
  }

  lemma StepsCostMeasure(s: State, step: Step)
    requires Sound(s) && Enabled(s, step) && Internal(step)
    ensures Measure(Next(s, step)) < Measure(s)
  {
    if Settled(s) {
      SettledIsStable(s, step);
    }
    match step
    case Choose => ChooseCosts(s);
    case Send(l) => SendCosts(s, l);
    case Sync =>
  }

  /** Once the inputs stop, the automations take at most Measure(s) steps in any
      order, and then slider and rows agree. */
  lemma {:induction false} LoopSettles(s: State, steps: seq<Step>)
    requires Inv(s) && Runs(s, steps) && forall i :: 0 <= i < |steps| ==> Internal(steps[i])
    ensures |steps| + Measure(Final(s, steps)) <= Measure(s)
    ensures Inv(Final(s, steps))
    ensures Quiet(Final(s, steps)) || exists step :: Internal(step) && Enabled(Final(s, steps), step)
    ensures Quiet(Final(s, steps)) ==> Settled(Final(s, steps))
    decreases |steps|
  {
    if steps == [] {
      SomethingEnabled(s);
    } else {
      InvIsKept(s, steps[0]);
      StepsCostMeasure(s, steps[0]);
      LoopSettles(Next(s, steps[0]), steps[1..]);
    }
  }

  lemma SomethingEnabled(s: State)
    requires Sound(s)
    ensures Quiet(s) || exists step :: Internal(step) && Enabled(s, step)
  {
    if s.syncPending {
      assert Enabled(s, Sync);
    } else if s.apply.Choosing? {
      assert Enabled(s, Choose);
    } else if s.apply.Sending? {
      var l :| l in s.apply.todo;
      assert Enabled(s, Send(l));
    }
  }
}
