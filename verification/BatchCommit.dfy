// The two-phase commit of a batch of generated files: `planGeneratedFile`, `commitPlannedWrite`
// and `applyGeneratedFiles` of cli/src/config-files.ts, on a disk that maps paths to contents.
module BatchCommit {
  import opened Sequences

  type Disk = map<string, string>

  // A missing file reads as empty.
  function Read(disk: Disk, path: string): string { if path in disk then disk[path] else "" }

  ghost predicate Same(a: Disk, b: Disk, path: string) {
    (path in a <==> path in b) && Read(a, path) == Read(b, path)
  }

  // A target with what the names beside it are made of: the time of the commit and the process.
  datatype Slot = Slot(path: string, stamp: string, pid: string)
  {
    function Backup(): string { path + ".backup-" + stamp }

    function Temp(): string { path + ".freellmapi-" + pid + ".tmp" }
  }

  datatype Target<G> = Target(slot: Slot, file: G)

  // What renders a file over the content that is there.
  type Renderer<!G> = (G, string) -> Result<string, string>

  datatype Plan = Plan(slot: Slot, present: bool, previous: string, rendered: string)
  {
    predicate Changed() { rendered != previous }
  }

  datatype ApplyResult = ApplyResult(
    path: string, changed: bool, backupPath: Option<string>, rendered: string, previous: string)

  // ---- Planning ----

  function PlanOf<G>(disk: Disk, target: Target<G>, render: Renderer<G>): Result<Plan, string> {
    var previous := Read(disk, target.slot.path);
    match render(target.file, previous)
    case Ok(text) => Ok(Plan(target.slot, target.slot.path in disk, previous, text))
    case Err(e) => Err(e)
  }

  // The plans for all targets, or the first error.
  function PlansOf<G>(disk: Disk, targets: seq<Target<G>>, render: Renderer<G>): Result<seq<Plan>, string> {
    if targets == [] then Ok([])
    else
      match PlanOf(disk, targets[0], render)
      case Err(e) => Err(e)
      case Ok(plan) =>
        match PlansOf(disk, targets[1..], render)
        case Err(e) => Err(e)
        case Ok(plans) => Ok([plan] + plans)
  }

  lemma {:induction false} PlansAre<G>(disk: Disk, targets: seq<Target<G>>, render: Renderer<G>)
    ensures PlansOf(disk, targets, render).Err? <==>
            exists i :: 0 <= i < |targets| && PlanOf(disk, targets[i], render).Err?
    ensures PlansOf(disk, targets, render).Ok? ==>
              var plans := PlansOf(disk, targets, render).value;
              && |plans| == |targets|
              && forall i :: 0 <= i < |targets| ==> PlanOf(disk, targets[i], render) == Ok(plans[i])
  {
    if targets != [] {
      PlansAre(disk, targets[1..], render);
      assert targets == [targets[0]] + targets[1..];
    }
  }

  // ---- Committing ----

  // What a commit does to the disk, one file operation at a time.
  datatype Step = Copy(from: string, to: string) | Write(path: string, text: string) | Rename(from: string, to: string)

  function Do(disk: Disk, step: Step): Disk {
    match step
    case Copy(from, to) => disk[to := Read(disk, from)]
    case Write(path, text) => disk[path := text]
    case Rename(from, to) => (disk - {from})[to := Read(disk, from)]
  }

  function Run(disk: Disk, steps: seq<Step>): Disk
    decreases steps
  {
    if steps == [] then disk else Run(Do(disk, steps[0]), steps[1..])
  }

  lemma {:induction false} RunAppend(disk: Disk, a: seq<Step>, b: seq<Step>)
    ensures Run(disk, a + b) == Run(Run(disk, a), b)
    decreases a
  {
    if a == [] {
      assert a + b == b;
    } else {
      assert (a + b)[1..] == a[1..] + b;
      RunAppend(Do(disk, a[0]), a[1..], b);
    }
  }

  function Steps(plan: Plan): seq<Step> {
    var slot := plan.slot;
    if !plan.Changed() then []
    else (if plan.present then [Copy(slot.path, slot.Backup())] else [])
         + [Write(slot.Temp(), plan.rendered), Rename(slot.Temp(), slot.path)]
  }

  function AllSteps(plans: seq<Plan>): seq<Step> {
    if plans == [] then [] else AllSteps(plans[..|plans| - 1]) + Steps(plans[|plans| - 1])
  }

  function ResultOf(plan: Plan, dryRun: bool): ApplyResult {
    ApplyResult(plan.slot.path, plan.Changed(),
                if !dryRun && plan.Changed() && plan.present then Some(plan.slot.Backup()) else None,
                plan.rendered, plan.previous)
  }

  function ResultsOf(plans: seq<Plan>, dryRun: bool): (r: seq<ApplyResult>)
    ensures |r| == |plans|
  {
    seq(|plans|, i requires 0 <= i < |plans| => ResultOf(plans[i], dryRun))
  }

  class FileSystem {
    var disk: Disk

    constructor (disk: Disk)
      ensures this.disk == disk
    {
      this.disk := disk;
    }

    method CopyFile(from: string, to: string)
      requires from in disk
      modifies this
      ensures disk == Do(old(disk), Copy(from, to))
    {
      disk := disk[to := disk[from]];
    }

    method WriteFile(path: string, text: string)
      modifies this
      ensures disk == Do(old(disk), Write(path, text))
    {
      disk := disk[path := text];
    }

    method RenameFile(from: string, to: string)
      requires from in disk
      modifies this
      ensures disk == Do(old(disk), Rename(from, to))
    {
      var text := disk[from];
      disk := disk - {from};
      disk := disk[to := text];
    }

    // `commitPlannedWrite`
    method CommitPlannedWrite(plan: Plan) returns (result: ApplyResult)
      requires plan.present ==> plan.slot.path in disk
      modifies this
      ensures disk == Run(old(disk), Steps(plan))
      ensures result == ResultOf(plan, false)
    {
      var slot := plan.slot;
      result := ResultOf(plan, true);
      if !plan.Changed() {
        return;
      }
      ghost var done: seq<Step> := [];
      if plan.present {
        CopyFile(slot.path, slot.Backup());
        result := result.(backupPath := Some(slot.Backup()));
        done := [Copy(slot.path, slot.Backup())];
        RunOne(old(disk), done[0]);
      }
      ghost var copied := disk;
      WriteFile(slot.Temp(), plan.rendered);
      RenameFile(slot.Temp(), slot.path);
      RunTwo(copied, Write(slot.Temp(), plan.rendered), Rename(slot.Temp(), slot.path));
      RunAppend(old(disk), done, [Write(slot.Temp(), plan.rendered), Rename(slot.Temp(), slot.path)]);
    }

    // Every target is read and merged; the disk is not written.
    method PlanGeneratedFiles<G>(targets: seq<Target<G>>, render: Renderer<G>)
      returns (planned: Result<seq<Plan>, string>)
      ensures planned == PlansOf(disk, targets, render)
    {
      var plans := [];
      var i := 0;
      assert targets[..0] == [];
      while i < |targets|
        invariant i <= |targets|
        invariant PlansOf(disk, targets[..i], render) == Ok(plans)
      {
        var plan := PlanOf(disk, targets[i], render);
        PlansAppend(disk, targets[..i], targets[i], render);
        assert targets[..i] + [targets[i]] == targets[..i + 1];
        if plan.Err? {
          PlansFail(disk, targets, i + 1, render);
          return Err(plan.error);
        }
        plans := plans + [plan.value];
        i := i + 1;
      }
      assert targets[..i] == targets;
      return Ok(plans);
    }

    method CommitPlannedWrites(plans: seq<Plan>) returns (written: seq<ApplyResult>)
      requires AllFrom(disk, plans) && PlansClear(plans)
      modifies this
      ensures disk == Run(old(disk), AllSteps(plans))
      ensures written == ResultsOf(plans, false)
    {
      written := [];
      var i := 0;
      while i < |plans|
        invariant i <= |plans|
        invariant disk == Run(old(disk), AllSteps(plans[..i]))
        invariant written == ResultsOf(plans[..i], false)
      {
        PresentStays(old(disk), plans, i);
        ghost var before := disk;
        var result := CommitPlannedWrite(plans[i]);
        written := written + [result];
        assert disk == Run(before, Steps(plans[i])) && result == ResultOf(plans[i], false);
        OneMore(old(disk), plans, i);
        i := i + 1;
      }
      assert plans[..i] == plans;
    }

    // `applyGeneratedFiles`
    method ApplyGeneratedFiles<G>(targets: seq<Target<G>>, dryRun: bool, render: Renderer<G>)
      returns (results: Result<seq<ApplyResult>, string>)
      requires Clear(Slots(targets))
      modifies this
      ensures results.Err? <==>
              exists i :: 0 <= i < |targets| && render(targets[i].file, Read(old(disk), targets[i].slot.path)).Err?
      ensures results.Ok? ==> AllTold(old(disk), targets, dryRun, render, results.value)
      ensures var planned := PlansOf(old(disk), targets, render);
              && results == (if planned.Err? then Err(planned.error) else Ok(ResultsOf(planned.value, dryRun)))
              && disk == (if planned.Err? || dryRun then old(disk) else Run(old(disk), AllSteps(planned.value)))
    {
      var planned := PlanGeneratedFiles(targets, render);
      PlanningFails(disk, targets, render);
      if planned.Err? {
        return Err(planned.error);
      }
      ResultsTell(disk, targets, dryRun, render);
      if dryRun {
        return Ok(ResultsOf(planned.value, true));
      }
      PlannedClear(disk, targets, render);
      var written := CommitPlannedWrites(planned.value);
      return Ok(written);
    }
  }

  lemma StepsMore(plans: seq<Plan>, plan: Plan)
    ensures AllSteps(plans + [plan]) == AllSteps(plans) + Steps(plan)
    ensures ResultsOf(plans + [plan], false) == ResultsOf(plans, false) + [ResultOf(plan, false)]
  {
    assert (plans + [plan])[..|plans|] == plans;
  }

  lemma OneMore(disk: Disk, plans: seq<Plan>, i: nat)
    requires i < |plans|
    ensures Run(disk, AllSteps(plans[..i + 1])) == Run(Run(disk, AllSteps(plans[..i])), Steps(plans[i]))
    ensures ResultsOf(plans[..i + 1], false) == ResultsOf(plans[..i], false) + [ResultOf(plans[i], false)]
  {
    assert plans[..i + 1] == plans[..i] + [plans[i]];
    StepsMore(plans[..i], plans[i]);
    RunAppend(disk, AllSteps(plans[..i]), Steps(plans[i]));
  }

  lemma RunOne(disk: Disk, step: Step)
    ensures Run(disk, [step]) == Do(disk, step)
  {
    assert [step][1..] == [];
  }

  lemma RunTwo(disk: Disk, a: Step, b: Step)
    ensures Run(disk, [a, b]) == Do(Do(disk, a), b)
  {
    assert [a, b][1..] == [b];
    RunOne(Do(disk, a), b);
  }

  lemma {:induction false} PlansAppend<G>(disk: Disk, targets: seq<Target<G>>, target: Target<G>, render: Renderer<G>)
    requires PlansOf(disk, targets, render).Ok?
    ensures var plan := PlanOf(disk, target, render);
            PlansOf(disk, targets + [target], render)
            == if plan.Err? then Err(plan.error) else Ok(PlansOf(disk, targets, render).value + [plan.value])
  {
    var all := targets + [target];
    if targets == [] {
      assert all[0] == target && all[1..] == [];
      assert PlansOf(disk, all[1..], render) == Ok([]);
      match PlanOf(disk, target, render) {
        case Err(e) =>
        case Ok(plan) => assert [plan] + [] == [] + [plan];
      }
    } else {
      var first, rest := PlanOf(disk, targets[0], render), PlansOf(disk, targets[1..], render);
      PlansAppend(disk, targets[1..], target, render);
      assert all[0] == targets[0] && all[1..] == targets[1..] + [target];
      match PlanOf(disk, target, render) {
        case Err(e) =>
        case Ok(plan) => Associate([first.value], rest.value, [plan]);
      }
    }
  }

  lemma {:induction false} PlansFail<G>(disk: Disk, targets: seq<Target<G>>, n: nat, render: Renderer<G>)
    requires n <= |targets| && PlansOf(disk, targets[..n], render).Err?
    ensures PlansOf(disk, targets, render) == PlansOf(disk, targets[..n], render)
  {
    if n > 0 && PlanOf(disk, targets[0], render).Ok? {
      assert targets[..n][1..] == targets[1..][..n - 1];
      PlansFail(disk, targets[1..], n - 1, render);
    }
  }

  // ---- Names that do not collide ----

  predicate SlotsApart(a: Slot, b: Slot) {
    && a.path != b.path && a.Backup() != b.path && a.Temp() != b.path
    && a.Backup() != b.Backup() && a.Backup() != b.Temp() && a.Temp() != b.Temp()
  }

  // No target is another one, a backup or a temporary file, and no backup is any other file.
  predicate Apart(slots: seq<Slot>) {
    forall i, j :: 0 <= i < |slots| && 0 <= j < |slots| && i != j ==> SlotsApart(slots[i], slots[j])
  }

  // No target is a temporary file of the batch.
  predicate Clear(slots: seq<Slot>) {
    forall i, j :: 0 <= i < |slots| && 0 <= j < |slots| ==> slots[i].Temp() != slots[j].path
  }

  function Slots<G>(targets: seq<Target<G>>): seq<Slot> {
    seq(|targets|, i requires 0 <= i < |targets| => targets[i].slot)
  }

  lemma SlotsAre<G>(targets: seq<Target<G>>)
    ensures forall i :: 0 <= i < |targets| ==> Slots(targets)[i] == targets[i].slot
  {
  }

  // The names beside one target are never in each other's way.
  lemma OwnNames(s: Slot)
    ensures s.Backup() != s.path && s.Temp() != s.path && s.Backup() != s.Temp()
  {
    assert s.Backup()[|s.path| + 1] == 'b' && s.Temp()[|s.path| + 1] == 'f';
  }

  lemma PrefixesOfOne(a: string, b: string, all: string)
    requires a <= all && b <= all
    ensures a <= b || b <= a
  {
    if |a| <= |b| {
      assert a == all[..|a|] && b == all[..|b|] && b[..|a|] == a;
    } else {
      assert a == all[..|a|] && b == all[..|b|] && a[..|b|] == b;
    }
  }

  lemma ApartIsClear(slots: seq<Slot>)
    requires Apart(slots)
    ensures Clear(slots)
  {
    forall i, j | 0 <= i < |slots| && 0 <= j < |slots|
      ensures slots[i].Temp() != slots[j].path
    {
      OwnNames(slots[i]);
      if i != j {
        assert SlotsApart(slots[i], slots[j]);
      }
    }
  }

  // Names are apart when no target's path begins with another's.
  lemma PrefixFreeIsApart(slots: seq<Slot>)
    requires forall i, j :: 0 <= i < |slots| && 0 <= j < |slots| && i != j ==> !(slots[i].path <= slots[j].path)
    ensures Apart(slots)
  {
    forall i, j | 0 <= i < |slots| && 0 <= j < |slots| && i != j
      ensures SlotsApart(slots[i], slots[j])
    {
      var a, b := slots[i], slots[j];
      assert !(a.path <= b.path) && !(b.path <= a.path);
      if a.Backup() == b.Backup() || a.Backup() == b.Temp() {
        PrefixesOfOne(a.path, b.path, a.Backup());
      }
      if a.Temp() == b.Temp() {
        PrefixesOfOne(a.path, b.path, a.Temp());
      }
    }
  }

  // ---- What a batch leaves on the disk ----

  // The plan was made from this disk.
  ghost predicate From(disk: Disk, plan: Plan) {
    plan.present == (plan.slot.path in disk) && plan.previous == Read(disk, plan.slot.path)
  }

  ghost predicate AllFrom(disk: Disk, plans: seq<Plan>) {
    forall i :: 0 <= i < |plans| ==> From(disk, plans[i])
  }

  predicate PlansApart(plans: seq<Plan>) {
    forall i, j :: 0 <= i < |plans| && 0 <= j < |plans| && i != j ==> SlotsApart(plans[i].slot, plans[j].slot)
  }

  predicate PlansClear(plans: seq<Plan>) {
    forall i, j :: 0 <= i < |plans| && 0 <= j < |plans| ==> plans[i].slot.Temp() != plans[j].slot.path
  }

  predicate Beside(path: string, plan: Plan) {
    path == plan.slot.path || path == plan.slot.Backup() || path == plan.slot.Temp()
  }

  // Whether the commit of the plans may touch a path.
  predicate Touched(path: string, plans: seq<Plan>) {
    exists i :: 0 <= i < |plans| && plans[i].Changed() && Beside(path, plans[i])
  }

  ghost predicate Backed(before: Disk, disk: Disk, plan: Plan) {
    plan.present ==> plan.slot.Backup() in disk && disk[plan.slot.Backup()] == Read(before, plan.slot.path)
  }

  // The target as it was, or complete with its old content beside it.
  ghost predicate Intact(before: Disk, disk: Disk, plan: Plan) {
    || Same(before, disk, plan.slot.path)
    || (plan.slot.path in disk && disk[plan.slot.path] == plan.rendered && Backed(before, disk, plan))
  }

  ghost predicate Committed(before: Disk, disk: Disk, plan: Plan) {
    && Read(disk, plan.slot.path) == plan.rendered
    && (plan.Changed() ==> plan.slot.path in disk && plan.slot.Temp() !in disk && Backed(before, disk, plan))
    && (!plan.Changed() ==> Same(before, disk, plan.slot.path))
  }

  ghost predicate AllIntact(before: Disk, disk: Disk, plans: seq<Plan>) {
    forall i :: 0 <= i < |plans| ==> Intact(before, disk, plans[i])
  }

  ghost predicate AllCommitted(before: Disk, disk: Disk, plans: seq<Plan>) {
    forall i :: 0 <= i < |plans| ==> Committed(before, disk, plans[i])
  }

  // The disks differ only in what a plan, or some of the plans, may touch.
  ghost predicate OnlyBeside(a: Disk, b: Disk, plan: Plan) {
    forall path :: !(plan.Changed() && Beside(path, plan)) ==> Same(a, b, path)
  }

  ghost predicate OnlyTouched(a: Disk, b: Disk, plans: seq<Plan>) {
    forall path :: !Touched(path, plans) ==> Same(a, b, path)
  }

  // What is on the disk when the process stops after some steps, the next one half done:
  // a copy or a write may have left anything, a rename is done or not.
  function Stopped(disk: Disk, steps: seq<Step>, n: nat, torn: Option<string>): Disk
    requires n <= |steps|
  {
    var reached := Run(disk, steps[..n]);
    if n == |steps| || torn == None then reached
    else
      match steps[n]
      case Copy(_, to) => reached[to := torn.value]
      case Write(path, _) => reached[path := torn.value]
      case Rename(_, _) => reached
  }

  lemma StoppedIntact(before: Disk, disk: Disk, plan: Plan, n: nat, torn: Option<string>)
    requires n <= |Steps(plan)| && From(before, plan) && Same(before, disk, plan.slot.path)
    ensures Intact(before, Stopped(disk, Steps(plan), n, torn), plan)
  {
    OwnNames(plan.slot);
    if plan.Changed() {
      PrefixRuns(disk, plan, n);
    }
  }

  lemma PrefixBeside(disk: Disk, plan: Plan, n: nat)
    requires n <= |Steps(plan)| && plan.Changed()
    ensures OnlyBeside(disk, Run(disk, Steps(plan)[..n]), plan)
  {
    PrefixRuns(disk, plan, n);
  }

  // The path that a step writes.
  function Written(step: Step): string {
    match step
    case Copy(_, to) => to
    case Write(path, _) => path
    case Rename(_, to) => to
  }

  lemma StepsBeside(plan: Plan, n: nat)
    requires n < |Steps(plan)|
    ensures plan.Changed() && Beside(Written(Steps(plan)[n]), plan)
  {
  }

  lemma StoppedBeside(disk: Disk, plan: Plan, n: nat, torn: Option<string>)
    requires n <= |Steps(plan)|
    ensures OnlyBeside(disk, Stopped(disk, Steps(plan), n, torn), plan)
  {
    if plan.Changed() {
      PrefixBeside(disk, plan, n);
      if n < |Steps(plan)| {
        StepsBeside(plan, n);
      }
    }
  }

  // One commit, stopped anywhere.
  lemma OneStopped(before: Disk, disk: Disk, plan: Plan, n: nat, torn: Option<string>)
    requires n <= |Steps(plan)| && From(before, plan) && Same(before, disk, plan.slot.path)
    ensures Intact(before, Stopped(disk, Steps(plan), n, torn), plan)
    ensures OnlyBeside(disk, Stopped(disk, Steps(plan), n, torn), plan)
  {
    StoppedIntact(before, disk, plan, n, torn);
    StoppedBeside(disk, plan, n, torn);
  }

  // What the disk holds after each number of steps of a commit.
  lemma PrefixRuns(disk: Disk, plan: Plan, n: nat)
    requires n <= |Steps(plan)| && plan.Changed()
    ensures var slot := plan.slot;
            var backup, temp := Copy(slot.path, slot.Backup()), Write(slot.Temp(), plan.rendered);
            var copied := if plan.present then Do(disk, backup) else disk;
            var k := if plan.present then 1 else 0;
            Run(disk, Steps(plan)[..n])
            == if n < k then disk else if n == k then copied
               else if n == k + 1 then Do(copied, temp)
               else Do(Do(copied, temp), Rename(slot.Temp(), slot.path))
  {
    var slot := plan.slot;
    var backup := Copy(slot.path, slot.Backup());
    var temp, move := Write(slot.Temp(), plan.rendered), Rename(slot.Temp(), slot.path);
    var steps := Steps(plan)[..n];
    if plan.present {
      if n == 1 {
        assert steps == [backup];
        RunOne(disk, backup);
      } else if n == 2 {
        assert steps == [backup, temp];
        RunTwo(disk, backup, temp);
      } else if n == 3 {
        assert steps == [backup] + [temp, move];
        RunAppend(disk, [backup], [temp, move]);
        RunOne(disk, backup);
        RunTwo(Do(disk, backup), temp, move);
      }
    } else if n == 1 {
      assert steps == [temp];
      RunOne(disk, temp);
    } else if n == 2 {
      assert steps == [temp, move];
      RunTwo(disk, temp, move);
    }
  }

  lemma OneCommitted(before: Disk, disk: Disk, plan: Plan)
    requires From(before, plan) && Same(before, disk, plan.slot.path)
    ensures Committed(before, Run(disk, Steps(plan)), plan)
    ensures OnlyBeside(disk, Run(disk, Steps(plan)), plan)
  {
    OwnNames(plan.slot);
    if plan.Changed() {
      assert Steps(plan)[..|Steps(plan)|] == Steps(plan);
      PrefixRuns(disk, plan, |Steps(plan)|);
    }
  }

  // What one commit leaves is not disturbed by another one.
  lemma Undisturbed(before: Disk, a: Disk, b: Disk, mine: Plan, other: Plan)
    requires SlotsApart(mine.slot, other.slot) && SlotsApart(other.slot, mine.slot)
    requires OnlyBeside(a, b, other)
    ensures Intact(before, a, mine) ==> Intact(before, b, mine)
    ensures Committed(before, a, mine) ==> Committed(before, b, mine)
  {
    var slot := mine.slot;
    assert !Beside(slot.path, other) && !Beside(slot.Backup(), other) && !Beside(slot.Temp(), other);
    assert Same(a, b, slot.path) && Same(a, b, slot.Backup()) && Same(a, b, slot.Temp());
  }

  // A whole batch: every target has its rendering and, when it was there and changed, a backup
  // of its old content; no temporary file stays; no other path is touched.
  lemma {:induction false} BatchCommitted(before: Disk, plans: seq<Plan>)
    requires AllFrom(before, plans) && PlansApart(plans)
    ensures AllCommitted(before, Run(before, AllSteps(plans)), plans)
    ensures OnlyTouched(before, Run(before, AllSteps(plans)), plans)
  {
    if plans != [] {
      var k := |plans| - 1;
      var front, last := plans[..k], plans[k];
      BatchCommitted(before, front);
      var middle := Run(before, AllSteps(front));
      RunAppend(before, AllSteps(front), Steps(last));
      LastUntouched(plans);
      OneCommitted(before, middle, last);
      OthersUndisturbed(before, middle, Run(middle, Steps(last)), plans);
      FrameGrows(before, middle, Run(middle, Steps(last)), plans);
    }
  }

  lemma OthersUndisturbed(before: Disk, a: Disk, b: Disk, plans: seq<Plan>)
    requires plans != [] && PlansApart(plans) && OnlyBeside(a, b, plans[|plans| - 1])
    ensures var k := |plans| - 1;
      && (AllIntact(before, a, plans[..k]) && Intact(before, b, plans[k]) ==> AllIntact(before, b, plans))
      && (AllCommitted(before, a, plans[..k]) && Committed(before, b, plans[k]) ==> AllCommitted(before, b, plans))
  {
    var k := |plans| - 1;
    forall i | 0 <= i < k
      ensures Intact(before, a, plans[..k][i]) ==> Intact(before, b, plans[i])
      ensures Committed(before, a, plans[..k][i]) ==> Committed(before, b, plans[i])
    {
      Undisturbed(before, a, b, plans[i], plans[k]);
    }
  }

  lemma FrameGrows(before: Disk, a: Disk, b: Disk, plans: seq<Plan>)
    requires plans != []
    requires OnlyTouched(before, a, plans[..|plans| - 1]) && OnlyBeside(a, b, plans[|plans| - 1])
    ensures OnlyTouched(before, b, plans)
  {
    var k := |plans| - 1;
    forall path | !Touched(path, plans)
      ensures Same(before, b, path)
    {
      assert !(plans[k].Changed() && Beside(path, plans[k]));
      assert Same(a, b, path);
      if Touched(path, plans[..k]) {
        TouchedFront(plans, path);
      }
    }
  }

  // Wherever the process stops, every target is as it was, or complete with a backup of its
  // old content, and no other path is touched.
  lemma {:induction false} BatchStopped(before: Disk, plans: seq<Plan>, n: nat, torn: Option<string>)
    requires n <= |AllSteps(plans)| && AllFrom(before, plans) && PlansApart(plans)
    ensures AllIntact(before, Stopped(before, AllSteps(plans), n, torn), plans)
    ensures OnlyTouched(before, Stopped(before, AllSteps(plans), n, torn), plans)
  {
    if plans != [] {
      var k := |plans| - 1;
      var steps := AllSteps(plans[..k]);
      if n < |steps| {
        BatchStopped(before, plans[..k], n, torn);
        StoppedEarly(before, steps, Steps(plans[k]), n, torn);
        StoppedInFront(before, Stopped(before, steps, n, torn), plans);
      } else {
        StoppedLate(before, steps, Steps(plans[k]), n - |steps|, torn);
        StoppedInLast(before, plans, n - |steps|, torn);
      }
    }
  }

  lemma StoppedInFront(before: Disk, disk: Disk, plans: seq<Plan>)
    requires plans != [] && PlansApart(plans)
    requires AllIntact(before, disk, plans[..|plans| - 1]) && OnlyTouched(before, disk, plans[..|plans| - 1])
    ensures AllIntact(before, disk, plans) && OnlyTouched(before, disk, plans)
  {
    LastUntouched(plans);
    OthersUndisturbed(before, disk, disk, plans);
    FrameGrows(before, disk, disk, plans);
  }

  lemma StoppedInLast(before: Disk, plans: seq<Plan>, n: nat, torn: Option<string>)
    requires plans != [] && AllFrom(before, plans) && PlansApart(plans) && n <= |Steps(plans[|plans| - 1])|
    ensures var middle := Run(before, AllSteps(plans[..|plans| - 1]));
            var disk := Stopped(middle, Steps(plans[|plans| - 1]), n, torn);
            AllIntact(before, disk, plans) && OnlyTouched(before, disk, plans)
  {
    var k := |plans| - 1;
    var middle := Run(before, AllSteps(plans[..k]));
    BatchCommitted(before, plans[..k]);
    CommittedIsIntact(before, middle, plans[..k]);
    LastUntouched(plans);
    OneStopped(before, middle, plans[k], n, torn);
    var disk := Stopped(middle, Steps(plans[k]), n, torn);
    OthersUndisturbed(before, middle, disk, plans);
    FrameGrows(before, middle, disk, plans);
  }

  lemma CommittedIsIntact(before: Disk, disk: Disk, plans: seq<Plan>)
    requires AllCommitted(before, disk, plans)
    ensures AllIntact(before, disk, plans)
  {
    forall i | 0 <= i < |plans|
      ensures Intact(before, disk, plans[i])
    {
      assert Committed(before, disk, plans[i]);
    }
  }

  lemma StoppedEarly(disk: Disk, a: seq<Step>, b: seq<Step>, n: nat, torn: Option<string>)
    requires n < |a|
    ensures Stopped(disk, a + b, n, torn) == Stopped(disk, a, n, torn)
  {
    assert (a + b)[..n] == a[..n] && (a + b)[n] == a[n];
  }

  lemma StoppedLate(disk: Disk, a: seq<Step>, b: seq<Step>, n: nat, torn: Option<string>)
    requires n <= |b|
    ensures Stopped(disk, a + b, |a| + n, torn) == Stopped(Run(disk, a), b, n, torn)
  {
    assert (a + b)[..|a| + n] == a + b[..n];
    RunAppend(disk, a, b[..n]);
  }

  lemma LastUntouched(plans: seq<Plan>)
    requires plans != [] && PlansApart(plans)
    ensures var k := |plans| - 1; !Touched(plans[k].slot.path, plans[..k])
  {
    var k := |plans| - 1;
    forall i | 0 <= i < k
      ensures !Beside(plans[k].slot.path, plans[..k][i])
    {
      assert SlotsApart(plans[i].slot, plans[k].slot);
    }
  }

  lemma TouchedFront(plans: seq<Plan>, path: string)
    requires plans != [] && Touched(path, plans[..|plans| - 1])
    ensures Touched(path, plans)
  {
    var k := |plans| - 1;
    var i :| 0 <= i < k && plans[..k][i].Changed() && Beside(path, plans[..k][i]);
    assert plans[i].Changed() && Beside(path, plans[i]);
  }

  // A target that was there is still there when its turn comes.
  lemma PresentStays(before: Disk, plans: seq<Plan>, i: nat)
    requires i < |plans| && AllFrom(before, plans) && PlansClear(plans)
    ensures plans[i].present ==> plans[i].slot.path in Run(before, AllSteps(plans[..i]))
  {
    if !plans[i].present { return; }
    var path := plans[i].slot.path;
    StepsLeave(plans[..i], path);
    RunLeaves(before, AllSteps(plans[..i]), path);
  }

  // No step takes a path away.
  predicate Leaves(steps: seq<Step>, path: string) {
    forall k :: 0 <= k < |steps| && steps[k].Rename? ==> steps[k].from != path
  }

  lemma {:induction false} RunLeaves(disk: Disk, steps: seq<Step>, path: string)
    requires path in disk && Leaves(steps, path)
    ensures path in Run(disk, steps)
    decreases steps
  {
    if steps != [] {
      assert steps[0].Rename? ==> steps[0].from != path;
      RunLeaves(Do(disk, steps[0]), steps[1..], path);
    }
  }

  lemma {:induction false} StepsLeave(plans: seq<Plan>, path: string)
    requires forall i :: 0 <= i < |plans| ==> plans[i].slot.Temp() != path
    ensures Leaves(AllSteps(plans), path)
  {
    if plans != [] {
      var k := |plans| - 1;
      StepsLeave(plans[..k], path);
      var front: seq<Step>, last: seq<Step> := AllSteps(plans[..k]), Steps(plans[k]);
      var all: seq<Step> := front + last;
      forall m | 0 <= m < |all| && all[m].Rename?
        ensures all[m].from != path
      {
        if m >= |front| { assert all[m] == last[m - |front|]; }
      }
    }
  }

  lemma PlannedSlots<G>(disk: Disk, targets: seq<Target<G>>, render: Renderer<G>)
    requires PlansOf(disk, targets, render).Ok?
    ensures var plans := PlansOf(disk, targets, render).value;
      && AllFrom(disk, plans) && |plans| == |targets|
      && forall i :: 0 <= i < |plans| ==> plans[i].slot == Slots(targets)[i]
  {
    PlansAre(disk, targets, render);
    SlotsAre(targets);
    var plans := PlansOf(disk, targets, render).value;
    forall i | 0 <= i < |plans|
      ensures From(disk, plans[i]) && plans[i].slot == targets[i].slot
    {
      assert PlanOf(disk, targets[i], render) == Ok(plans[i]);
    }
  }

  lemma PlannedClear<G>(disk: Disk, targets: seq<Target<G>>, render: Renderer<G>)
    requires PlansOf(disk, targets, render).Ok? && Clear(Slots(targets))
    ensures var plans := PlansOf(disk, targets, render).value;
            AllFrom(disk, plans) && PlansClear(plans)
  {
    PlannedSlots(disk, targets, render);
  }

  lemma PlannedFrom<G>(disk: Disk, targets: seq<Target<G>>, render: Renderer<G>)
    requires PlansOf(disk, targets, render).Ok? && Apart(Slots(targets))
    ensures var plans := PlansOf(disk, targets, render).value;
            AllFrom(disk, plans) && PlansApart(plans)
  {
    PlannedSlots(disk, targets, render);
  }

  // A path named more than once: the last plan that changes it stays, when no later commit
  // touches the path in another way.
  lemma {:induction false} LastPlanStays(before: Disk, plans: seq<Plan>, i: nat)
    requires i < |plans| && plans[i].Changed()
    requires forall k :: i < k < |plans| && plans[k].Changed() ==> !Beside(plans[i].slot.path, plans[k])
    ensures var after := Run(before, AllSteps(plans));
            plans[i].slot.path in after && after[plans[i].slot.path] == plans[i].rendered
  {
    var n := |plans| - 1;
    RunAppend(before, AllSteps(plans[..n]), Steps(plans[n]));
    OneRun(Run(before, AllSteps(plans[..n])), plans[n]);
    if i < n {
      LastPlanStays(before, plans[..n], i);
    }
  }

  // What a commit does on any disk.
  lemma OneRun(disk: Disk, plan: Plan)
    ensures OnlyBeside(disk, Run(disk, Steps(plan)), plan)
    ensures var after := Run(disk, Steps(plan));
            plan.Changed() ==> plan.slot.path in after && after[plan.slot.path] == plan.rendered
  {
    OwnNames(plan.slot);
    if plan.Changed() {
      assert Steps(plan)[..|Steps(plan)|] == Steps(plan);
      PrefixRuns(disk, plan, |Steps(plan)|);
    }
  }

  // ---- The promises ----

  // When any target cannot be rendered, there is no plan and nothing is written.
  lemma PlanningFails<G>(disk: Disk, targets: seq<Target<G>>, render: Renderer<G>)
    ensures PlansOf(disk, targets, render).Err? <==>
            exists i :: 0 <= i < |targets| && render(targets[i].file, Read(disk, targets[i].slot.path)).Err?
  {
    PlansAre(disk, targets, render);
    forall i | 0 <= i < |targets|
      ensures PlanOf(disk, targets[i], render).Err? == render(targets[i].file, Read(disk, targets[i].slot.path)).Err?
    {
    }
  }

  // What is reported of a target: where it is, what is there, what it is to hold, and the backup
  // that a commit leaves of a file that is there and changes.
  ghost predicate Told<G>(disk: Disk, target: Target<G>, dryRun: bool, render: Renderer<G>, result: ApplyResult) {
    var path := target.slot.path;
    && result.path == path
    && result.previous == (if path in disk then disk[path] else "")
    && render(target.file, result.previous) == Ok(result.rendered)
    && (result.changed <==> result.rendered != result.previous)
    && result.backupPath == if path in disk && result.rendered != result.previous && !dryRun
                            then Some(path + ".backup-" + target.slot.stamp) else None
  }

  ghost predicate AllTold<G>(disk: Disk, targets: seq<Target<G>>, dryRun: bool, render: Renderer<G>,
                             results: seq<ApplyResult>) {
    && |results| == |targets|
    && forall i :: 0 <= i < |targets| ==> Told(disk, targets[i], dryRun, render, results[i])
  }

  lemma ResultsTell<G>(disk: Disk, targets: seq<Target<G>>, dryRun: bool, render: Renderer<G>)
    requires PlansOf(disk, targets, render).Ok?
    ensures AllTold(disk, targets, dryRun, render, ResultsOf(PlansOf(disk, targets, render).value, dryRun))
  {
    PlansAre(disk, targets, render);
    var plans := PlansOf(disk, targets, render).value;
    forall i | 0 <= i < |targets|
      ensures Told(disk, targets[i], dryRun, render, ResultOf(plans[i], dryRun))
    {
      assert PlanOf(disk, targets[i], render) == Ok(plans[i]);
    }
  }

  // A target after a commit: what is rendered over its old content stands there; if that is new,
  // no temporary file stays, and a file that was there has its old content beside it.
  ghost predicate Applied<G>(disk: Disk, after: Disk, target: Target<G>, render: Renderer<G>) {
    var path, stamp, pid := target.slot.path, target.slot.stamp, target.slot.pid;
    var content := if path in disk then disk[path] else "";
    var text := render(target.file, content);
    && text.Ok?
    && (if path in after then after[path] == text.value else path !in disk && text.value == "")
    && (text.value != content ==>
          && path in after && path + ".freellmapi-" + pid + ".tmp" !in after
          && (path in disk ==> path + ".backup-" + stamp in after && after[path + ".backup-" + stamp] == content))
  }

  // None of the three names of a target.
  predicate Away<G>(path: string, target: Target<G>) {
    path !in [target.slot.path, target.slot.path + ".backup-" + target.slot.stamp,
              target.slot.path + ".freellmapi-" + target.slot.pid + ".tmp"]
  }

  lemma PlanApplied<G>(disk: Disk, after: Disk, target: Target<G>, render: Renderer<G>, plan: Plan)
    requires PlanOf(disk, target, render) == Ok(plan) && Committed(disk, after, plan)
    ensures Applied(disk, after, target, render)
  {
  }

  lemma AwayIsUntouched<G>(targets: seq<Target<G>>, plans: seq<Plan>, path: string)
    requires |plans| == |targets| && forall i :: 0 <= i < |plans| ==> plans[i].slot == targets[i].slot
    requires forall i :: 0 <= i < |targets| ==> Away(path, targets[i])
    ensures !Touched(path, plans)
  {
    forall i | 0 <= i < |plans|
      ensures !Beside(path, plans[i])
    {
      assert Away(path, targets[i]);
    }
  }

  // No path is touched but the three names of each target.
  lemma BatchStaysBeside<G>(disk: Disk, targets: seq<Target<G>>, render: Renderer<G>, path: string)
    requires Apart(Slots(targets)) && PlansOf(disk, targets, render).Ok?
    requires forall i :: 0 <= i < |targets| ==> Away(path, targets[i])
    ensures Same(disk, Run(disk, AllSteps(PlansOf(disk, targets, render).value)), path)
  {
    var plans := PlansOf(disk, targets, render).value;
    PlannedFrom(disk, targets, render);
    PlannedSlots(disk, targets, render);
    SlotsAre(targets);
    BatchCommitted(disk, plans);
    AwayIsUntouched(targets, plans, path);
  }

  // A batch in terms of its targets and the disk.
  lemma BatchApplied<G>(disk: Disk, targets: seq<Target<G>>, render: Renderer<G>)
    requires Apart(Slots(targets)) && PlansOf(disk, targets, render).Ok?
    ensures var after := Run(disk, AllSteps(PlansOf(disk, targets, render).value));
            forall i :: 0 <= i < |targets| ==> Applied(disk, after, targets[i], render)
  {
    var plans := PlansOf(disk, targets, render).value;
    PlannedFrom(disk, targets, render);
    BatchCommitted(disk, plans);
    PlansAre(disk, targets, render);
    forall i | 0 <= i < |targets|
      ensures Applied(disk, Run(disk, AllSteps(plans)), targets[i], render)
    {
      PlanApplied(disk, Run(disk, AllSteps(plans)), targets[i], render, plans[i]);
    }
  }

  // The same files for the same paths.
  ghost predicate SameFiles<G>(targets: seq<Target<G>>, again: seq<Target<G>>) {
    && |again| == |targets|
    && forall i :: 0 <= i < |targets| ==>
         again[i].slot.path == targets[i].slot.path && again[i].file == targets[i].file
  }

  // The second batch writes nothing.
  ghost predicate NothingLeft<G>(disk: Disk, again: seq<Target<G>>, render: Renderer<G>) {
    PlansOf(disk, again, render).Ok? && AllSteps(PlansOf(disk, again, render).value) == []
  }

  // The same batch applied again writes nothing exactly when rendering over each rendering
  // changes nothing; the time and the process of the second batch are its own.
  lemma {:induction false} AppliedTwice<G>(disk: Disk, targets: seq<Target<G>>, again: seq<Target<G>>,
        render: Renderer<G>)
    requires Apart(Slots(targets)) && PlansOf(disk, targets, render).Ok? && SameFiles(targets, again)
    ensures NothingLeft(Run(disk, AllSteps(PlansOf(disk, targets, render).value)), again, render)
       <==> forall i :: 0 <= i < |targets| ==>
              var plan := PlanOf(disk, targets[i], render);
              plan.Ok? && render(targets[i].file, plan.value.rendered) == Ok(plan.value.rendered)
  {
    var plans := PlansOf(disk, targets, render).value;
    var after := Run(disk, AllSteps(plans));
    PlannedFrom(disk, targets, render);
    BatchCommitted(disk, plans);
    PlansAre(disk, targets, render);
    forall i | 0 <= i < |targets|
      ensures PlanOf(disk, targets[i], render).Ok?
      ensures var text := PlanOf(disk, targets[i], render).value.rendered;
              render(targets[i].file, text) == Ok(text) <==> Unchanged(after, again[i], render)
    {
      OneAgain(disk, after, targets[i], again[i], plans[i], render);
    }
    NothingLeftMeans(after, again, render);
  }

  ghost predicate Unchanged<G>(disk: Disk, target: Target<G>, render: Renderer<G>) {
    PlanOf(disk, target, render).Ok? && !PlanOf(disk, target, render).value.Changed()
  }

  lemma OneAgain<G>(before: Disk, after: Disk, target: Target<G>, again: Target<G>, plan: Plan, render: Renderer<G>)
    requires PlanOf(before, target, render) == Ok(plan) && Committed(before, after, plan)
    requires again.slot.path == target.slot.path && again.file == target.file
    ensures render(target.file, plan.rendered) == Ok(plan.rendered) <==> Unchanged(after, again, render)
  {
  }

  lemma NothingLeftMeans<G>(disk: Disk, targets: seq<Target<G>>, render: Renderer<G>)
    ensures NothingLeft(disk, targets, render)
       <==> forall i :: 0 <= i < |targets| ==> Unchanged(disk, targets[i], render)
  {
    PlansAre(disk, targets, render);
    if PlansOf(disk, targets, render).Ok? {
      NothingChanged(PlansOf(disk, targets, render).value);
    }
  }

  lemma {:induction false} NothingChanged(plans: seq<Plan>)
    ensures AllSteps(plans) == [] <==> forall i :: 0 <= i < |plans| ==> !plans[i].Changed()
  {
    if plans != [] {
      var k := |plans| - 1;
      NothingChanged(plans[..k]);
      assert |AllSteps(plans)| == |AllSteps(plans[..k])| + |Steps(plans[k])|;
      SomeSteps(plans[k]);
      assert forall i :: 0 <= i < k ==> plans[..k][i] == plans[i];
    }
  }

  lemma SomeSteps(plan: Plan)
    ensures |Steps(plan)| == 0 <==> !plan.Changed()
  {
  }
}
