/** internal/runner/runner.go, Run, one access to the workspace at a time: what a goroutine
    inside Run does between two steps of the others, and where it would end if it were
    left alone. */
module SandboxSteps {
  import opened Graphs
  import opened Keys
  import opened Stores
  import opened Scheduler
  import opened Runners

  // ---- Run, one access to the workspace at a time ----

  /** Where a goroutine inside Run stands: checking that its inputs exist, linking them,
      its command reading them, the harvest (whose destination is removed before the
      rename), checking the outputs, or about to return. */
  datatype Local =
    | Checking(i: nat)
    | Linking
    | Reading(i: nat, view: map<Path, string>)
    | Moving(files: Tree, i: nat)
    | Replacing(files: Tree, i: nat)
    | Confirming(i: nat)
    | Done(outcome: Outcome)

  predicate InRange(a: Action, l: Local) {
    match l
    case Checking(i) => i <= |a.inputs|
    case Linking => true
    case Reading(i, _) => i <= |a.inputs|
    case Moving(_, i) => i <= |a.outputs|
    case Replacing(files, i) => i < |a.outputs| && a.outputs[i] in files
    case Confirming(i) => i <= |a.outputs|
    case Done(_) => true
  }

  /** One step. */
  ghost function Advance(m: Machine, a: Action, l: Local, ws: Tree): (Local, Tree)
    requires a.command != [] && InRange(a, l) && !l.Done?
  {
    match l
    case Checking(i) =>
      if i == |a.inputs| then (Linking, ws)
      else if a.inputs[i] in ws then (Checking(i + 1), ws)
      else (Done(Fails(a, false)), ws)
    case Linking => (if NoDup(a.inputs) then Reading(0, map[]) else Done(Fails(a, false)), ws)
    case Reading(i, view) =>
      if i < |a.inputs| then (Reading(i + 1, Read(view, a.inputs[i], ws)), ws)
      else
        (match m.w.exec(CoveredOf(m, a, view))
         case Broke => (Done(Fails(a, true)), ws)
         case Exited(files) => (Moving(files, 0), ws))
    case Moving(files, i) =>
      if i == |a.outputs| then (Confirming(0), ws)
      else if a.outputs[i] !in files then (Done(Fails(a, true)), ws)
      else (Replacing(files, i), ws - {a.outputs[i]})
    case Replacing(files, i) =>
      (Moving(files - {a.outputs[i]}, i + 1), ws[a.outputs[i] := files[a.outputs[i]]])
    case Confirming(i) =>
      if i == |a.outputs| then (Done(RanOK), ws)
      else if a.outputs[i] in ws then (Confirming(i + 1), ws)
      else (Done(Fails(a, true)), ws)
  }

  function Read(view: map<Path, string>, p: Path, ws: Tree): map<Path, string> {
    if p in ws then view[p := ws[p].bytes] else view
  }

  // ---- where a run would end if it were left alone ----

  function ReadOn(inputs: seq<Path>, i: nat, view: map<Path, string>, ws: Tree): map<Path, string>
    requires i <= |inputs|
    decreases |inputs| - i
  {
    if i == |inputs| then view else ReadOn(inputs, i + 1, Read(view, inputs[i], ws), ws)
  }

  function AfterMove(a: Action, files: Tree, i: nat, ws: Tree): Ran
    requires i <= |a.outputs|
  {
    var (ws', moved) := Harvest(files, a.outputs, i, ws);
    Ran(ws', if moved && AllPresent(ws', a.outputs) then RanOK else Fails(a, true))
  }

  ghost function AfterRead(m: Machine, a: Action, view: map<Path, string>, ws: Tree): Ran
    requires a.command != []
  {
    match m.w.exec(CoveredOf(m, a, view))
    case Broke => Ran(ws, Fails(a, true))
    case Exited(files) => AfterMove(a, files, 0, ws)
  }

  predicate PresentFrom(ws: Tree, ps: seq<Path>, i: nat) { forall k :: i <= k < |ps| ==> ps[k] in ws }

  ghost function Finish(m: Machine, a: Action, l: Local, ws: Tree): Ran
    requires a.command != [] && InRange(a, l)
  {
    match l
    case Checking(i) => if PresentFrom(ws, a.inputs, i) then Execute(m, a, ws, false) else Ran(ws, Fails(a, false))
    case Linking => Execute(m, a, ws, false)
    case Reading(i, view) => AfterRead(m, a, ReadOn(a.inputs, i, view, ws), ws)
    case Moving(files, i) => AfterMove(a, files, i, ws)
    case Replacing(files, i) => AfterMove(a, files - {a.outputs[i]}, i + 1, ws[a.outputs[i] := files[a.outputs[i]]])
    case Confirming(i) => Ran(ws, if PresentFrom(ws, a.outputs, i) then RanOK else Fails(a, true))
    case Done(outcome) => Ran(ws, outcome)
  }

  lemma {:induction false} ReadOnAt(inputs: seq<Path>, i: nat, view: map<Path, string>, ws: Tree, p: Path)
    requires i <= |inputs|
    ensures var v := ReadOn(inputs, i, view, ws);
      if p in ws && (exists k :: i <= k < |inputs| && inputs[k] == p) then p in v && v[p] == ws[p].bytes
      else (p in v <==> p in view) && (p in v ==> v[p] == view[p])
    decreases |inputs| - i
  {
    if i < |inputs| {
      var view' := Read(view, inputs[i], ws);
      ReadOnAt(inputs, i + 1, view', ws, p);
      var later := exists k :: i + 1 <= k < |inputs| && inputs[k] == p;
      assert (exists k :: i <= k < |inputs| && inputs[k] == p) <==> inputs[i] == p || later;
    }
  }

  /** Reading every input yields what the sandbox links. */
  lemma ReadAll(a: Action, ws: Tree)
    ensures Links(a, ReadOn(a.inputs, 0, map[], ws)) == Links(a, View(ws))
  {
    var v := ReadOn(a.inputs, 0, map[], ws);
    forall p ensures p in v <==> p in ws && p in a.inputs { ReadOnAt(a.inputs, 0, map[], ws, p); }
    forall p | p in v ensures v[p] == ws[p].bytes { ReadOnAt(a.inputs, 0, map[], ws, p); }
  }

  /** Run, left alone, is RunPlain. */
  lemma FinishFromStart(m: Machine, a: Action, ws: Tree)
    requires a.command != []
    ensures Finish(m, a, Checking(0), ws) == RunPlain(m, a, ws, false)
  {
    if PresentFrom(ws, a.inputs, 0) {
      forall p | p in a.inputs ensures p in View(ws) {}
    } else {
      var k :| 0 <= k < |a.inputs| && a.inputs[k] !in ws;
      assert a.inputs[k] in a.inputs;
    }
  }

  lemma LinkingStep(m: Machine, a: Action, ws: Tree)
    requires a.command != [] && NoDup(a.inputs)
    ensures AfterRead(m, a, ReadOn(a.inputs, 0, map[], ws), ws) == Execute(m, a, ws, false)
  {
    ReadAll(a, ws);
    assert CoveredOf(m, a, ReadOn(a.inputs, 0, map[], ws)) == CoveredOf(m, a, View(ws));
  }

  lemma FinishCheckStep(m: Machine, a: Action, l: Local, ws: Tree)
    requires a.command != [] && InRange(a, l) && l.Checking?
    ensures var (l', ws') := Advance(m, a, l, ws);
      InRange(a, l') && ws' == ws && Finish(m, a, l', ws) == Finish(m, a, l, ws)
  {
    assert l.i < |a.inputs| ==>
      (PresentFrom(ws, a.inputs, l.i) <==> a.inputs[l.i] in ws && PresentFrom(ws, a.inputs, l.i + 1));
  }

  lemma FinishReadStep(m: Machine, a: Action, l: Local, ws: Tree)
    requires a.command != [] && InRange(a, l) && (l.Linking? || l.Reading?)
    ensures var (l', ws') := Advance(m, a, l, ws);
      InRange(a, l') && ws' == ws && Finish(m, a, l', ws) == Finish(m, a, l, ws)
  {
    if l.Linking? && NoDup(a.inputs) { LinkingStep(m, a, ws); }
  }

  lemma FinishMoveStep(m: Machine, a: Action, l: Local, ws: Tree)
    requires a.command != [] && InRange(a, l) && (l.Moving? || l.Replacing? || l.Confirming?)
    ensures var (l', ws') := Advance(m, a, l, ws); InRange(a, l') && Finish(m, a, l', ws') == Finish(m, a, l, ws)
  {
    if l.Moving? && l.i < |a.outputs| && a.outputs[l.i] in l.files {
      var o := a.outputs[l.i];
      assert (ws - {o})[o := l.files[o]] == ws[o := l.files[o]];
    }
  }

  /** A step of its own does not change where a run ends. */
  lemma FinishStep(m: Machine, a: Action, l: Local, ws: Tree)
    requires a.command != [] && InRange(a, l) && !l.Done?
    ensures var (l', ws') := Advance(m, a, l, ws); InRange(a, l') && Finish(m, a, l', ws') == Finish(m, a, l, ws)
  {
    if l.Checking? {
      FinishCheckStep(m, a, l, ws);
    } else if l.Linking? || l.Reading? {
      FinishReadStep(m, a, l, ws);
    } else {
      FinishMoveStep(m, a, l, ws);
    }
  }

  /** A step of its own writes at most one declared output. */
  lemma AdvanceFrame(m: Machine, a: Action, l: Local, ws: Tree, p: Path)
    requires a.command != [] && InRange(a, l) && !l.Done? && p !in a.outputs
    ensures SameAt(Advance(m, a, l, ws).1, ws, p)
  {
  }

  // ---- where it ends depends on its own files alone ----

  ghost predicate Agree(ws1: Tree, ws2: Tree, ps: seq<Path>) { forall p :: p in ps ==> SameAt(ws1, ws2, p) }

  /** The two ends have the same outcome and the same declared outputs. */
  ghost predicate SameEnd(a: Action, r1: Ran, r2: Ran) { r1.outcome == r2.outcome && Agree(r1.ws, r2.ws, a.outputs) }

  lemma AfterMoveLocal(a: Action, files: Tree, i: nat, ws1: Tree, ws2: Tree)
    requires i <= |a.outputs| && Agree(ws1, ws2, a.outputs)
    ensures SameEnd(a, AfterMove(a, files, i, ws1), AfterMove(a, files, i, ws2))
  {
    forall p | p in a.outputs
      ensures SameAt(Harvest(files, a.outputs, i, ws1).0, Harvest(files, a.outputs, i, ws2).0, p)
    {
      HarvestLocal(files, a.outputs, i, ws1, ws2, p);
    }
    HarvestAt(files, a.outputs, i, ws1, "");
    HarvestAt(files, a.outputs, i, ws2, "");
    assert forall k :: 0 <= k < |a.outputs| ==> a.outputs[k] in a.outputs;
  }

  lemma {:induction false} ReadOnLocal(inputs: seq<Path>, i: nat, view: map<Path, string>, ws1: Tree, ws2: Tree)
    requires i <= |inputs| && Agree(ws1, ws2, inputs)
    ensures ReadOn(inputs, i, view, ws1) == ReadOn(inputs, i, view, ws2)
    decreases |inputs| - i
  {
    if i < |inputs| {
      assert inputs[i] in inputs;
      assert SameAt(ws1, ws2, inputs[i]);
      ReadOnLocal(inputs, i + 1, Read(view, inputs[i], ws1), ws1, ws2);
    }
  }

  lemma AfterReadLocal(m: Machine, a: Action, view: map<Path, string>, ws1: Tree, ws2: Tree)
    requires a.command != [] && Agree(ws1, ws2, a.outputs)
    ensures SameEnd(a, AfterRead(m, a, view, ws1), AfterRead(m, a, view, ws2))
  {
    var r := m.w.exec(CoveredOf(m, a, view));
    if r.Exited? { AfterMoveLocal(a, r.files, 0, ws1, ws2); }
  }

  lemma ExecuteLocal(m: Machine, a: Action, ws1: Tree, ws2: Tree)
    requires a.command != [] && Agree(ws1, ws2, a.inputs) && Agree(ws1, ws2, a.outputs)
    ensures SameEnd(a, Execute(m, a, ws1, false), Execute(m, a, ws2, false))
  {
    if NoDup(a.inputs) {
      LinkingStep(m, a, ws1);
      LinkingStep(m, a, ws2);
      ReadOnLocal(a.inputs, 0, map[], ws1, ws2);
      AfterReadLocal(m, a, ReadOn(a.inputs, 0, map[], ws1), ws1, ws2);
    }
  }

  lemma PresentLocal(ws1: Tree, ws2: Tree, ps: seq<Path>, i: nat)
    requires Agree(ws1, ws2, ps)
    ensures PresentFrom(ws1, ps, i) <==> PresentFrom(ws2, ps, i)
  {
    forall k | i <= k < |ps| ensures ps[k] in ws1 <==> ps[k] in ws2 { assert SameAt(ws1, ws2, ps[k]); }
  }

  /** What others do elsewhere in the workspace does not change where a run ends. */
  lemma FinishLocal(m: Machine, a: Action, l: Local, ws1: Tree, ws2: Tree)
    requires a.command != [] && InRange(a, l) && Agree(ws1, ws2, a.inputs) && Agree(ws1, ws2, a.outputs)
    ensures SameEnd(a, Finish(m, a, l, ws1), Finish(m, a, l, ws2))
  {
    match l {
      case Checking(i) =>
        PresentLocal(ws1, ws2, a.inputs, i);
        ExecuteLocal(m, a, ws1, ws2);
      case Linking => ExecuteLocal(m, a, ws1, ws2);
      case Reading(i, view) =>
        ReadOnLocal(a.inputs, i, view, ws1, ws2);
        AfterReadLocal(m, a, ReadOn(a.inputs, i, view, ws1), ws1, ws2);
      case Moving(files, i) => AfterMoveLocal(a, files, i, ws1, ws2);
      case Replacing(files, i) =>
        var o := a.outputs[i];
        AfterMoveLocal(a, files - {o}, i + 1, ws1[o := files[o]], ws2[o := files[o]]);
      case Confirming(i) => PresentLocal(ws1, ws2, a.outputs, i);
      case Done(_) =>
    }
  }

  /** How many steps a run inside Run has left at most. */
  function WorkLeft(a: Action, l: Local): nat
    requires InRange(a, l)
  {
    var ins, outs := |a.inputs|, |a.outputs|;
    match l
    case Checking(i) => 5 + 3 * outs + ins + (ins - i)
    case Linking => 4 + 3 * outs + ins
    case Reading(i, _) => 3 + 3 * outs + (ins - i)
    case Moving(_, i) => 2 + outs + 2 * (outs - i)
    case Replacing(_, i) => 1 + outs + 2 * (outs - i)
    case Confirming(i) => 1 + (outs - i)
    case Done(_) => 0
  }

  lemma ReadingDrops(m: Machine, a: Action, l: Local, ws: Tree)
    requires a.command != [] && InRange(a, l) && (l.Checking? || l.Linking? || l.Reading?)
    ensures var l' := Advance(m, a, l, ws).0; InRange(a, l') && WorkLeft(a, l') < WorkLeft(a, l)
  {
  }

  lemma MovingDrops(m: Machine, a: Action, l: Local, ws: Tree)
    requires a.command != [] && InRange(a, l) && (l.Moving? || l.Replacing? || l.Confirming?)
    ensures var l' := Advance(m, a, l, ws).0; InRange(a, l') && WorkLeft(a, l') < WorkLeft(a, l)
  {
  }

  lemma WorkDrops(m: Machine, a: Action, l: Local, ws: Tree)
    requires a.command != [] && InRange(a, l) && !l.Done?
    ensures var l' := Advance(m, a, l, ws).0; InRange(a, l') && WorkLeft(a, l') < WorkLeft(a, l)
  {
    if l.Checking? || l.Linking? || l.Reading? { ReadingDrops(m, a, l, ws); } else { MovingDrops(m, a, l, ws); }
  }
}
