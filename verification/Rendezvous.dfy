/**
 * The rendezvous of N ranks over one artifact directory.
 *
 * Every rank runs the same entry: make the directory, read the meta, and then reuse the
 * bundle, wait for rank 0, or (rank 0 only) generate a new bundle and swap it in by renames.
 * Every path leaves through one barrier.  Ranks interleave at the grain of one filesystem
 * operation, so a late rank's mkdir may land between rank 0's two renames.
 */
module Rendezvous {
  import opened Common

  type Files = map<string, string>

  datatype Dir = Absent | Present(files: Files)

  const META := "codegen_meta.json"

  /** What does not change during one launch. */
  datatype Job = Job(
    ranks: nat,
    signature: string,
    parse: string -> Option<string>,        // the signature a meta file's text holds, None if malformed
    before: Dir,                            // the artifact directory when the launch starts
    content: seq<(string, string)>,         // the new bundle's files, in the order they are staged
    meta: string,                           // the new bundle's meta, staged last
    barrierOnReuse: bool)                   // the source crosses the barrier on the reuse path too
  {
    ghost predicate Valid() {
      && ranks >= 1
      && parse(meta) == Some(signature)
      && forall i | 0 <= i < |content| :: content[i].0 != META
    }
  }

  datatype Pc =
    | Entering | Cleaning | Reading | Waiting
    | Making | Staging(next: nat) | StagingMeta | Probing | MovingAside | MovingIn | DroppingBackup
    | ToBarrier | InBarrier | Returned
    | Raised

  datatype State = State(visible: Dir, temp: Dir, backup: Dir, pcs: seq<Pc>, arrivals: seq<nat>)

  function ReadMeta(job: Job, dir: Dir): Option<string> {
    if dir.Present? && META in dir.files then job.parse(dir.files[META]) else None
  }

  predicate Matches(job: Job, dir: Dir) {
    ReadMeta(job, dir) == Some(job.signature)
  }

  function EnsureDir(dir: Dir): Dir {
    if dir.Absent? then Present(map[]) else dir
  }

  /** The first n content files of the new bundle. */
  function StagedFiles(job: Job, n: nat): Files
    requires n <= |job.content|
  {
    if n == 0 then map[] else StagedFiles(job, n - 1)[job.content[n - 1].0 := job.content[n - 1].1]
  }

  function NewBundle(job: Job): Dir {
    Present(StagedFiles(job, |job.content|)[META := job.meta])
  }

  predicate Rank(job: Job, s: State, r: nat) {
    |s.pcs| == |s.arrivals| == job.ranks && r < job.ranks
  }

  predicate AllArrived(s: State, n: nat) {
    forall j | 0 <= j < |s.arrivals| :: n <= s.arrivals[j]
  }

  /** Whether rank r's next operation can return; only a barrier blocks. */
  predicate Enabled(job: Job, s: State, r: nat)
    requires Rank(job, s, r)
  {
    match s.pcs[r]
    case Returned => false
    case Raised => false
    case InBarrier => AllArrived(s, s.arrivals[r])
    case _ => true
  }

  function Goto(s: State, r: nat, pc: Pc): State
    requires r < |s.pcs|
  {
    s.(pcs := s.pcs[r := pc])
  }

  /** The state after rank r's next operation. */
  function Next(job: Job, s: State, r: nat): State
    requires Rank(job, s, r)
  {
    match s.pcs[r]
    case Entering =>
      Goto(s.(visible := EnsureDir(s.visible)), r, if r == 0 then Cleaning else Reading)
    case Cleaning =>
      Goto(s.(temp := Absent, backup := Absent), r, Reading)
    case Reading =>
      if Matches(job, s.visible) then Goto(s, r, if job.barrierOnReuse then ToBarrier else Returned)
      else Goto(s, r, if r == 0 then Making else Waiting)
    case Waiting =>
      if Matches(job, s.visible) then Goto(s, r, ToBarrier) else s
    case Making =>
      Goto(s.(visible := EnsureDir(s.visible), temp := Present(map[])), r, Staging(0))
    case Staging(k) =>
      if k >= |job.content| then Goto(s, r, StagingMeta)
      else if s.temp.Absent? then Goto(s, r, Raised)
      else Goto(s.(temp := Present(s.temp.files[job.content[k].0 := job.content[k].1])), r, Staging(k + 1))
    case StagingMeta =>
      if s.temp.Absent? then Goto(s, r, Raised)
      else Goto(s.(temp := Present(s.temp.files[META := job.meta])), r, Probing)
    case Probing =>
      Goto(s, r, if s.visible.Present? then MovingAside else MovingIn)
    case MovingAside =>
      if s.visible.Absent? then Goto(s, r, Raised)
      else Goto(s.(visible := Absent, backup := s.visible), r, MovingIn)
    case MovingIn =>
      // A directory can be renamed over an empty one, not over a non-empty one.
      if s.visible.Absent? || s.visible.files == map[] then
        Goto(s.(visible := s.temp, temp := Absent), r, DroppingBackup)
      else Goto(s, r, Raised)
    case DroppingBackup =>
      Goto(s.(backup := Absent), r, ToBarrier)
    case ToBarrier =>
      Goto(s.(arrivals := s.arrivals[r := s.arrivals[r] + 1]), r, InBarrier)
    case InBarrier =>
      Goto(s, r, Returned)
    case Returned => s
    case Raised => s
  }

  predicate Initial(job: Job, s: State) {
    && |s.pcs| == |s.arrivals| == job.ranks
    && s.visible == job.before
    && (forall r | 0 <= r < job.ranks :: s.pcs[r] == Entering)
    && (forall r | 0 <= r < job.ranks :: s.arrivals[r] == 0)
  }

  /** A run: one state per operation, the i-th done by rank schedule[i]. */
  ghost predicate IsRun(job: Job, run: seq<State>, schedule: seq<nat>) {
    && |run| == |schedule| + 1
    && Initial(job, run[0])
    && forall i {:trigger schedule[i]} | 0 <= i < |schedule| ::
         && Rank(job, run[i], schedule[i])
         && Enabled(job, run[i], schedule[i])
         && run[i + 1] == Next(job, run[i], schedule[i])
  }

  // ---- the invariant ------------------------------------------------------

  /** Whether a rank has found the bundle ready and is on its way out. */
  predicate Leaving(pc: Pc) {
    pc in {ToBarrier, InBarrier, Returned}
  }

  /** Where rank 0 is between deciding to generate and making the bundle visible. */
  predicate Generating(pc: Pc) {
    pc.Making? || pc.Staging? || pc in {StagingMeta, Probing, MovingAside, MovingIn}
  }

  ghost predicate Untouched(job: Job, dir: Dir) {
    dir == job.before || dir == EnsureDir(job.before)
  }

  /** What rank 0's position says of the three directories. */
  ghost predicate Rank0Inv(job: Job, s: State)
    requires Rank(job, s, 0)
  {
    && (Generating(s.pcs[0]) ==> !Matches(job, job.before))
    && match s.pcs[0]
       case Entering => Untouched(job, s.visible)
       case Cleaning => s.visible == EnsureDir(job.before)
       case Reading => s.visible == EnsureDir(job.before)
       case Making => s.visible == EnsureDir(job.before)
       case Staging(k) =>
         && k <= |job.content|
         && s.visible == EnsureDir(job.before)
         && s.temp == Present(StagedFiles(job, k))
       case StagingMeta =>
         && s.visible == EnsureDir(job.before)
         && s.temp == Present(StagedFiles(job, |job.content|))
       case Probing => s.visible == EnsureDir(job.before) && s.temp == NewBundle(job)
       case MovingAside => s.visible == EnsureDir(job.before) && s.temp == NewBundle(job)
       case MovingIn =>
         && (s.visible == Absent || s.visible == Present(map[]))
         && s.temp == NewBundle(job)
         && s.backup == EnsureDir(job.before)
       case DroppingBackup => s.visible == NewBundle(job)
       case Waiting => false
       case Raised => false
       case _ => s.visible == NewBundle(job) || (s.visible == job.before && Matches(job, job.before))
  }

  /** Each rank arrives once, and none returns before all have. */
  ghost predicate ArrivalsInv(job: Job, s: State) {
    && |s.pcs| == |s.arrivals| == job.ranks
    && forall r | 0 <= r < job.ranks ::
         && s.arrivals[r] == (if s.pcs[r] in {InBarrier, Returned} then 1 else 0)
         && (s.pcs[r] == Returned ==> AllArrived(s, 1))
  }

  ghost predicate Inv(job: Job, s: State) {
    && job.Valid()
    && |s.pcs| == |s.arrivals| == job.ranks
    && Rank0Inv(job, s)
    && (forall r | 1 <= r < job.ranks :: s.pcs[r] in {Entering, Reading, Waiting} || Leaving(s.pcs[r]))
    && (forall r | 0 <= r < job.ranks :: Leaving(s.pcs[r]) ==> Matches(job, s.visible))
    && (job.barrierOnReuse ==> ArrivalsInv(job, s))
  }

  lemma InitialInv(job: Job, s: State)
    requires job.Valid() && Initial(job, s)
    ensures Inv(job, s)
  {
  }

  lemma NewBundleMatches(job: Job)
    requires job.Valid()
    ensures Matches(job, NewBundle(job))
  {
  }

  /** Once the meta on disk matches, no operation of any rank changes the directory. */
  lemma MatchingIsStable(job: Job, s: State, r: nat)
    requires Inv(job, s) && Rank(job, s, r) && Matches(job, s.visible)
    ensures Next(job, s, r).visible == s.visible
  {
  }

  /** Rank 0's operations take it through its positions ... */
  lemma Rank0StepInv(job: Job, s: State)
    requires Inv(job, s) && Rank(job, s, 0) && Enabled(job, s, 0)
    ensures Rank0Inv(job, Next(job, s, 0))
  {
    NewBundleMatches(job);
  }

  /** ... and another rank's change nothing that rank 0 relies on. */
  lemma OtherStepInv(job: Job, s: State, r: nat)
    requires Inv(job, s) && Rank(job, s, r) && Enabled(job, s, r) && r != 0
    ensures Rank0Inv(job, Next(job, s, r))
    ensures Next(job, s, r).pcs[r] in {Entering, Reading, Waiting} || Leaving(Next(job, s, r).pcs[r])
  {
  }

  lemma NextArrivals(job: Job, s: State, r: nat)
    requires Inv(job, s) && Rank(job, s, r) && Enabled(job, s, r) && job.barrierOnReuse
    ensures ArrivalsInv(job, Next(job, s, r))
  {
  }

  lemma NextInv(job: Job, s: State, r: nat)
    requires Inv(job, s) && Rank(job, s, r) && Enabled(job, s, r)
    ensures Inv(job, Next(job, s, r))
  {
    var t := Next(job, s, r);
    if r == 0 { Rank0StepInv(job, s); } else { OtherStepInv(job, s, r); }
    if job.barrierOnReuse { NextArrivals(job, s, r); }
    NewBundleMatches(job);
    forall j | 0 <= j < job.ranks && Leaving(t.pcs[j])
      ensures Matches(job, t.visible)
    {
      if Leaving(s.pcs[j]) { MatchingIsStable(job, s, r); }
    }
  }

  lemma {:induction false} RunInv(job: Job, run: seq<State>, schedule: seq<nat>, i: nat)
    requires job.Valid() && IsRun(job, run, schedule) && i < |run|
    ensures Inv(job, run[i])
  {
    if i == 0 {
      InitialInv(job, run[0]);
    } else {
      RunInv(job, run, schedule, i - 1);
      NextInv(job, run[i - 1], schedule[i - 1]);
    }
  }

  // ---- safety over every run ------------------------------------------------

  /** At any moment of any run, a reader sees nothing, an empty directory, or one complete bundle. */
  lemma VisibleIsNeverAMix(job: Job, run: seq<State>, schedule: seq<nat>, i: nat)
    requires job.Valid() && IsRun(job, run, schedule) && i < |run|
    ensures run[i].visible in {Absent, Present(map[]), job.before, NewBundle(job)}
    ensures Matches(job, run[i].visible) ==>
              run[i].visible == NewBundle(job) || (run[i].visible == job.before && Matches(job, job.before))
    ensures forall r | 0 <= r < |run[i].pcs| :: run[i].pcs[r] != Raised
  {
    RunInv(job, run, schedule, i);
  }

  /**
   * Where there was a bundle before, the directory is missing or empty exactly while rank 0 is
   * between its two renames; at every other moment a reader sees one complete bundle.
   */
  lemma MissingExactlyInTheGap(job: Job, run: seq<State>, schedule: seq<nat>, i: nat)
    requires job.Valid() && IsRun(job, run, schedule) && i < |run|
    requires job.before.Present? && job.before.files != map[]
    ensures |run[i].pcs| == job.ranks
    ensures run[i].visible in {Absent, Present(map[])} <==> run[i].pcs[0] == MovingIn
    ensures run[i].visible in {job.before, NewBundle(job)} <==> run[i].pcs[0] != MovingIn
  {
    RunInv(job, run, schedule, i);
    assert META in NewBundle(job).files;
  }

  lemma {:induction false} MatchingStaysVisible(job: Job, run: seq<State>, schedule: seq<nat>, i: nat, j: nat)
    requires job.Valid() && IsRun(job, run, schedule) && i <= j < |run|
    requires Matches(job, run[i].visible)
    ensures run[j].visible == run[i].visible
  {
    if i < j {
      MatchingStaysVisible(job, run, schedule, i, j - 1);
      RunInv(job, run, schedule, j - 1);
      MatchingIsStable(job, run[j - 1], schedule[j - 1]);
    }
  }

  /**
   * Once any rank has returned, the bundle of the current signature is visible for the rest of
   * the run, and every rank has crossed, or is inside, its one barrier.
   */
  lemma ReturnedMeansReady(job: Job, run: seq<State>, schedule: seq<nat>, i: nat, r: nat, j: nat)
    requires job.Valid() && IsRun(job, run, schedule) && i <= j < |run|
    requires Rank(job, run[i], r) && run[i].pcs[r] == Returned
    ensures Matches(job, run[j].visible) && run[j].visible == run[i].visible
    ensures run[j].visible == NewBundle(job) || run[j].visible == job.before
    ensures job.barrierOnReuse ==>
              forall q | 0 <= q < |run[i].pcs| :: run[i].arrivals[q] == 1 && run[i].pcs[q] in {InBarrier, Returned}
  {
    RunInv(job, run, schedule, i);
    MatchingStaysVisible(job, run, schedule, i, j);
    VisibleIsNeverAMix(job, run, schedule, j);
  }

  // ---- progress -------------------------------------------------------------

  /** The operations a rank at this position still has before it returns, a failed poll not counted. */
  function Remaining(job: Job, pc: Pc): nat {
    var n := |job.content|;
    match pc
    case Entering => 12 + n
    case Cleaning => 11 + n
    case Reading => 10 + n
    case Making => 9 + n
    case Staging(k) => 8 + Max(n - k, 0)
    case StagingMeta => 7
    case Probing => 6
    case MovingAside => 5
    case MovingIn => 4
    case DroppingBackup => 3
    case Waiting => 3
    case ToBarrier => 2
    case InBarrier => 1
    case _ => 0
  }

  function Measure(job: Job, pcs: seq<Pc>): nat {
    if pcs == [] then 0 else Measure(job, pcs[..|pcs| - 1]) + Remaining(job, pcs[|pcs| - 1])
  }

  lemma {:induction false} MeasureUpdate(job: Job, pcs: seq<Pc>, r: nat, pc: Pc)
    requires r < |pcs|
    ensures Measure(job, pcs[r := pc]) == Measure(job, pcs) - Remaining(job, pcs[r]) + Remaining(job, pc)
  {
    var n := |pcs| - 1;
    if r == n {
      assert pcs[r := pc][..n] == pcs[..n];
    } else {
      MeasureUpdate(job, pcs[..n], r, pc);
      assert pcs[r := pc][..n] == pcs[..n][r := pc];
    }
  }

  /** Whether rank r's next operation is more than a failed poll. */
  predicate Productive(job: Job, s: State, r: nat)
    requires Rank(job, s, r)
  {
    Enabled(job, s, r) && (s.pcs[r] == Waiting ==> Matches(job, s.visible))
  }

  /** An operation moves its own rank only, and a productive one moves it forward. */
  lemma NextPc(job: Job, s: State, r: nat) returns (pc: Pc)
    requires Inv(job, s) && Rank(job, s, r) && Productive(job, s, r)
    ensures Next(job, s, r).pcs == s.pcs[r := pc]
    ensures Remaining(job, pc) < Remaining(job, s.pcs[r])
  {
    pc := Next(job, s, r).pcs[r];
  }

  /** A productive operation lowers the measure; any other changes nothing. */
  lemma StepsLowerTheMeasure(job: Job, s: State, r: nat)
    requires Inv(job, s) && Rank(job, s, r) && Enabled(job, s, r)
    ensures Productive(job, s, r) ==> Measure(job, Next(job, s, r).pcs) < Measure(job, s.pcs)
    ensures !Productive(job, s, r) ==> Next(job, s, r) == s
  {
    if Productive(job, s, r) {
      var pc := NextPc(job, s, r);
      MeasureUpdate(job, s.pcs, r, pc);
    }
  }

  /** The rank a scheduler can always pick: rank 0 until it is out, then any rank short of the barrier. */
  lemma {:induction false} NeverStuck(job: Job, s: State) returns (r: nat)
    requires Inv(job, s) && job.barrierOnReuse
    requires exists q :: 0 <= q < job.ranks && s.pcs[q] != Returned
    ensures Rank(job, s, r) && Productive(job, s, r)
    ensures Measure(job, Next(job, s, r).pcs) < Measure(job, s.pcs)
  {
    if s.pcs[0] !in {InBarrier, Returned} {
      r := 0;
    } else if q :| 1 <= q < job.ranks && s.pcs[q] !in {InBarrier, Returned} {
      r := q;
    } else {
      var q :| 0 <= q < job.ranks && s.pcs[q] != Returned;
      r := q;
    }
    StepsLowerTheMeasure(job, s, r);
  }

  /** How many operations of a run are productive. */
  ghost function ProductiveSteps(job: Job, run: seq<State>, schedule: seq<nat>, n: nat): nat
    requires IsRun(job, run, schedule) && n <= |schedule|
  {
    if n == 0 then 0
    else ProductiveSteps(job, run, schedule, n - 1) + (if Productive(job, run[n - 1], schedule[n - 1]) then 1 else 0)
  }

  /** However the ranks interleave, all but a bounded number of operations are failed polls. */
  lemma {:induction false} ProductiveStepsAreBounded(job: Job, run: seq<State>, schedule: seq<nat>, n: nat)
    requires job.Valid() && IsRun(job, run, schedule) && n <= |schedule|
    ensures ProductiveSteps(job, run, schedule, n) + Measure(job, run[n].pcs) <= Measure(job, run[0].pcs)
  {
    if n > 0 {
      ProductiveStepsAreBounded(job, run, schedule, n - 1);
      RunInv(job, run, schedule, n - 1);
      StepsLowerTheMeasure(job, run[n - 1], schedule[n - 1]);
    }
  }

  predicate AllReturned(s: State) {
    forall r | 0 <= r < |s.pcs| :: s.pcs[r] == Returned
  }

  /** Every rank has arrived at the barrier exactly once. */
  predicate OneArrivalEach(s: State, ranks: nat) {
    |s.arrivals| == ranks && forall r | 0 <= r < ranks :: s.arrivals[r] == 1
  }

  /** A run may go on with any operation that can return. */
  lemma ExtendRun(job: Job, run: seq<State>, schedule: seq<nat>, r: nat)
    requires IsRun(job, run, schedule) && Rank(job, run[|run| - 1], r) && Enabled(job, run[|run| - 1], r)
    ensures IsRun(job, run + [Next(job, run[|run| - 1], r)], schedule + [r])
  {
    var run', schedule' := run + [Next(job, run[|run| - 1], r)], schedule + [r];
    forall i {:trigger schedule'[i]} | 0 <= i < |schedule'|
      ensures Rank(job, run'[i], schedule'[i]) && Enabled(job, run'[i], schedule'[i])
      ensures run'[i + 1] == Next(job, run'[i], schedule'[i])
    {
      if i < |schedule| { assert schedule'[i] == schedule[i] && run'[i] == run[i] && run'[i + 1] == run[i + 1]; }
    }
  }

  /** Every run, wherever it has got to, can go on until all ranks have returned, each after one barrier. */
  lemma {:induction false} EveryRunCanComplete(job: Job, run: seq<State>, schedule: seq<nat>)
    returns (run': seq<State>, schedule': seq<nat>)
    requires job.Valid() && job.barrierOnReuse && IsRun(job, run, schedule)
    ensures IsRun(job, run', schedule') && run <= run' && AllReturned(run'[|run'| - 1])
    ensures OneArrivalEach(run'[|run'| - 1], job.ranks) && Matches(job, run'[|run'| - 1].visible)
    decreases Measure(job, run[|run| - 1].pcs)
  {
    var s := run[|run| - 1];
    RunInv(job, run, schedule, |run| - 1);
    if AllReturned(s) {
      run', schedule' := run, schedule;
    } else {
      var r := NeverStuck(job, s);
      ExtendRun(job, run, schedule, r);
      run', schedule' := EveryRunCanComplete(job, run + [Next(job, s, r)], schedule + [r]);
    }
  }

  // ---- fair runs -------------------------------------------------------------------

  /** A stretch of a run in which every rank moves, or at some moment has nothing productive to do. */
  ghost predicate FairRound(job: Job, run: seq<State>, schedule: seq<nat>, i: nat, j: nat)
    requires IsRun(job, run, schedule)
  {
    i <= j < |run| && forall r | 0 <= r < job.ranks :: Moves(schedule, r, i, j) || Idles(job, run, r, i, j)
  }

  ghost predicate Moves(schedule: seq<nat>, r: nat, i: nat, j: nat)
    requires j <= |schedule|
  {
    exists k :: i <= k < j && schedule[k] == r
  }

  ghost predicate Idles(job: Job, run: seq<State>, r: nat, i: nat, j: nat)
    requires j < |run|
  {
    exists k :: i <= k <= j && !(Rank(job, run[k], r) && Productive(job, run[k], r))
  }

  /** What a rank can do next it can still do after any other rank's operation. */
  lemma StaysProductive(job: Job, s: State, r: nat, q: nat)
    requires Inv(job, s) && Rank(job, s, r) && Rank(job, s, q) && q != r
    requires Productive(job, s, r) && Enabled(job, s, q)
    ensures Rank(job, Next(job, s, q), r) && Productive(job, Next(job, s, q), r)
  {
    if Matches(job, s.visible) { MatchingIsStable(job, s, q); }
  }

  lemma {:induction false} ProductiveUntilMoved(job: Job, run: seq<State>, schedule: seq<nat>, r: nat, i: nat, j: nat)
    requires job.Valid() && IsRun(job, run, schedule) && i <= j < |run|
    requires Rank(job, run[i], r) && Productive(job, run[i], r) && !Moves(schedule, r, i, j)
    ensures Rank(job, run[j], r) && Productive(job, run[j], r)
    decreases j - i
  {
    if i < j {
      RunInv(job, run, schedule, i);
      assert schedule[i] != r;
      StaysProductive(job, run[i], r, schedule[i]);
      ProductiveUntilMoved(job, run, schedule, r, i + 1, j);
    }
  }

  lemma StepNeverRaises(job: Job, run: seq<State>, schedule: seq<nat>, i: nat)
    requires job.Valid() && IsRun(job, run, schedule) && i < |schedule|
    ensures Measure(job, run[i + 1].pcs) <= Measure(job, run[i].pcs)
    ensures Productive(job, run[i], schedule[i]) ==> Measure(job, run[i + 1].pcs) < Measure(job, run[i].pcs)
  {
    RunInv(job, run, schedule, i);
    StepsLowerTheMeasure(job, run[i], schedule[i]);
  }

  lemma {:induction false} MeasureNeverRises(job: Job, run: seq<State>, schedule: seq<nat>, i: nat, j: nat)
    requires job.Valid() && IsRun(job, run, schedule) && i <= j < |run|
    ensures Measure(job, run[j].pcs) <= Measure(job, run[i].pcs)
  {
    if i < j {
      MeasureNeverRises(job, run, schedule, i, j - 1);
      StepNeverRaises(job, run, schedule, j - 1);
    }
  }

  /** A stretch of a run that holds a productive operation lowers the measure. */
  lemma ProductiveMoveLowers(job: Job, run: seq<State>, schedule: seq<nat>, i: nat, k: nat, j: nat)
    requires job.Valid() && IsRun(job, run, schedule) && i <= k < j < |run|
    requires Productive(job, run[k], schedule[k])
    ensures Measure(job, run[j].pcs) < Measure(job, run[i].pcs)
  {
    MeasureNeverRises(job, run, schedule, i, k);
    StepNeverRaises(job, run, schedule, k);
    MeasureNeverRises(job, run, schedule, k + 1, j);
  }

  /** In a fair round a rank that starts with something productive to do does it. */
  lemma FairRoundMoves(job: Job, run: seq<State>, schedule: seq<nat>, r: nat, i: nat, j: nat) returns (k: nat)
    requires job.Valid() && IsRun(job, run, schedule) && FairRound(job, run, schedule, i, j)
    requires Rank(job, run[i], r) && Productive(job, run[i], r)
    ensures i <= k < j && schedule[k] == r && Productive(job, run[k], r)
  {
    if !Moves(schedule, r, i, j) {
      NeverIdles(job, run, schedule, r, i, j);
    }
    k := FirstMove(schedule, r, i, j);
    ProductiveUntilMoved(job, run, schedule, r, i, k);
  }

  /** A fair round starting with a rank still inside lowers the measure. */
  lemma FairRoundsProgress(job: Job, run: seq<State>, schedule: seq<nat>, i: nat, j: nat)
    requires job.Valid() && job.barrierOnReuse && IsRun(job, run, schedule) && FairRound(job, run, schedule, i, j)
    requires !AllReturned(run[i])
    ensures Measure(job, run[j].pcs) < Measure(job, run[i].pcs)
  {
    RunInv(job, run, schedule, i);
    var r := NeverStuck(job, run[i]);
    var k := FairRoundMoves(job, run, schedule, r, i, j);
    ProductiveMoveLowers(job, run, schedule, i, k, j);
  }

  lemma NeverIdles(job: Job, run: seq<State>, schedule: seq<nat>, r: nat, i: nat, j: nat)
    requires job.Valid() && IsRun(job, run, schedule) && i <= j < |run|
    requires Rank(job, run[i], r) && Productive(job, run[i], r) && !Moves(schedule, r, i, j)
    ensures !Idles(job, run, r, i, j)
  {
    forall k | i <= k <= j
      ensures Rank(job, run[k], r) && Productive(job, run[k], r)
    {
      ProductiveUntilMoved(job, run, schedule, r, i, k);
    }
  }

  lemma {:induction false} FirstMove(schedule: seq<nat>, r: nat, i: nat, j: nat) returns (k: nat)
    requires j <= |schedule| && Moves(schedule, r, i, j)
    ensures i <= k < j && schedule[k] == r && !Moves(schedule, r, i, k)
    decreases j - i
  {
    if schedule[i] == r {
      k := i;
    } else {
      k := FirstMove(schedule, r, i + 1, j);
    }
  }

  /** A run cut into fair rounds, one after the other. */
  ghost predicate FairRounds(job: Job, run: seq<State>, schedule: seq<nat>, cuts: seq<nat>)
    requires IsRun(job, run, schedule)
  {
    cuts != [] &&
    forall c {:trigger cuts[c]} | 0 <= c < |cuts| - 1 :: FairRound(job, run, schedule, cuts[c], cuts[c + 1])
  }

  lemma {:induction false} FairRoundsLower(job: Job, run: seq<State>, schedule: seq<nat>, cuts: seq<nat>, n: nat)
    requires job.Valid() && job.barrierOnReuse && IsRun(job, run, schedule) && FairRounds(job, run, schedule, cuts)
    requires n < |cuts| && cuts[0] < |run|
    ensures cuts[0] <= cuts[n] < |run|
    ensures AllReturned(run[cuts[n]]) || Measure(job, run[cuts[n]].pcs) + n <= Measure(job, run[cuts[0]].pcs)
  {
    if n > 0 {
      FairRoundsLower(job, run, schedule, cuts, n - 1);
      var i, j := cuts[n - 1], cuts[n];
      assert FairRound(job, run, schedule, i, j);
      if AllReturned(run[i]) {
        NothingAfterReturned(job, run, schedule, i);
      } else {
        FairRoundsProgress(job, run, schedule, i, j);
      }
    }
  }

  /** With every rank returned the run is over. */
  lemma NothingAfterReturned(job: Job, run: seq<State>, schedule: seq<nat>, i: nat)
    requires IsRun(job, run, schedule) && i <= |schedule|
    ensures AllReturned(run[i]) ==> i == |schedule|
  {
    if i < |schedule| {
      assert Enabled(job, run[i], schedule[i]);
    }
  }

  /**
   * However the ranks interleave, a run that gives every rank its turn has all of them back: after as
   * many fair rounds as the ranks have operations, every rank has returned.
   */
  lemma FairRunsReturn(job: Job, run: seq<State>, schedule: seq<nat>, cuts: seq<nat>)
    requires job.Valid() && job.barrierOnReuse && IsRun(job, run, schedule) && FairRounds(job, run, schedule, cuts)
    requires cuts[0] < |run| && |cuts| > Measure(job, run[cuts[0]].pcs) + 1
    ensures cuts[|cuts| - 1] < |run| && AllReturned(run[cuts[|cuts| - 1]])
    ensures Matches(job, run[cuts[|cuts| - 1]].visible)
  {
    FairRoundsLower(job, run, schedule, cuts, |cuts| - 1);
    RunInv(job, run, schedule, cuts[|cuts| - 1]);
  }

  // ---- what a rank that skips the barrier does --------------------------------

  ghost predicate Reachable(job: Job, s: State) {
    exists run, schedule :: IsRun(job, run, schedule) && run[|run| - 1] == s
  }

  lemma ReachNext(job: Job, s: State, r: nat)
    requires Reachable(job, s) && Rank(job, s, r) && Enabled(job, s, r)
    ensures Reachable(job, Next(job, s, r))
  {
    var run, schedule :| IsRun(job, run, schedule) && run[|run| - 1] == s;
    ExtendRun(job, run, schedule, r);
    var run', schedule' := run + [Next(job, s, r)], schedule + [r];
    assert IsRun(job, run', schedule');
  }

  /** Rank 0 alone stages what is left of the bundle. */
  lemma {:induction false} StageTheRest(job: Job, s: State, k: nat) returns (t: State)
    requires job.Valid() && Reachable(job, s) && Rank(job, s, 0) && s.pcs[0] == Staging(k) && s.temp.Present?
    requires k <= |job.content|
    ensures Reachable(job, t) && Rank(job, t, 0) && t.pcs == s.pcs[0 := StagingMeta] && t.temp.Present?
    ensures t.visible == s.visible && t.arrivals == s.arrivals
    decreases |job.content| - k
  {
    ReachNext(job, s, 0);
    t := Next(job, s, 0);
    if k < |job.content| {
      t := StageTheRest(job, t, k + 1);
    }
  }

  /** Only rank 0 has started. */
  ghost predicate Rank0Alone(job: Job, s: State) {
    && Reachable(job, s) && Rank(job, s, 0)
    && forall r | 1 <= r < job.ranks :: s.pcs[r] == Entering && s.arrivals[r] == 0
  }

  lemma {:induction false} DecideToGenerate(job: Job) returns (s: State)
    requires job.Valid() && !Matches(job, job.before)
    ensures Rank0Alone(job, s) && s.pcs[0] == Making && s.arrivals[0] == 0
    ensures s.visible == EnsureDir(job.before)
  {
    s := State(job.before, Absent, Absent, seq(job.ranks, _ => Entering), seq(job.ranks, _ => 0));
    assert IsRun(job, [s], []);
    ReachNext(job, s, 0);
    s := Next(job, s, 0);
    ReachNext(job, s, 0);
    s := Next(job, s, 0);
    ReachNext(job, s, 0);
    s := Next(job, s, 0);
  }

  lemma {:induction false} StageAll(job: Job) returns (s: State)
    requires job.Valid() && !Matches(job, job.before)
    ensures Rank0Alone(job, s) && s.pcs[0] == Probing && s.arrivals[0] == 0
    ensures s.visible.Present? && s.temp.Present? && Matches(job, s.temp)
  {
    s := DecideToGenerate(job);
    ReachNext(job, s, 0);
    s := Next(job, s, 0);
    s := StageTheRest(job, s, 0);
    ReachNext(job, s, 0);
    s := Next(job, s, 0);
  }

  /** Rank 0 alone has moved the old bundle aside. */
  lemma {:induction false} OpenTheGap(job: Job) returns (s: State)
    requires job.Valid() && !Matches(job, job.before)
    ensures Rank0Alone(job, s) && s.pcs[0] == MovingIn && s.arrivals[0] == 0
    ensures s.visible == Absent && s.temp.Present? && Matches(job, s.temp)
  {
    s := StageAll(job);
    ReachNext(job, s, 0);
    s := Next(job, s, 0);
    ReachNext(job, s, 0);
    s := Next(job, s, 0);
  }

  /**
   * Whenever rank 0 regenerates, a reader may find no directory at all, and with a second rank an empty
   * one that this rank makes in the gap: the switch is not one a reader never sees between.
   */
  lemma ReadersMaySeeNothing(job: Job)
    requires job.Valid() && !Matches(job, job.before)
    ensures exists s :: Reachable(job, s) && s.visible == Absent
    ensures job.ranks >= 2 ==>
              exists s :: Reachable(job, s) && Rank(job, s, 0) && s.visible == Present(map[]) && s.pcs[0] == MovingIn
  {
    var s := OpenTheGap(job);
    if job.ranks >= 2 {
      ReachNext(job, s, 1);
      assert Next(job, s, 1).visible == Present(map[]) && Next(job, s, 1).pcs[0] == MovingIn;
    }
  }

  /** Rank 0 alone makes the new bundle visible before any other rank has started. */
  lemma {:induction false} SwapFirst(job: Job) returns (s: State)
    requires job.Valid() && !Matches(job, job.before)
    ensures Rank0Alone(job, s) && s.pcs[0] == DroppingBackup && s.arrivals[0] == 0
    ensures Matches(job, s.visible)
  {
    s := OpenTheGap(job);
    ReachNext(job, s, 0);
    s := Next(job, s, 0);
  }

  /** Rank 0 waits inside the barrier for a rank that has left without crossing it. */
  ghost predicate Abandoned(job: Job, s: State, r: nat) {
    Rank(job, s, r) && s.pcs[0] == InBarrier && s.arrivals[0] == 1 && s.pcs[r] == Returned && s.arrivals[r] == 0
  }

  /** If the reuse path skipped the barrier, a late rank would take it and leave rank 0 behind. */
  lemma SkippingTheBarrierAbandonsRank0(job: Job)
    requires job.Valid() && !job.barrierOnReuse && job.ranks >= 2 && !Matches(job, job.before)
    ensures exists s :: Reachable(job, s) && Abandoned(job, s, 1)
  {
    var s := SwapFirst(job);
    ReachNext(job, s, 0);
    s := Next(job, s, 0);
    ReachNext(job, s, 0);
    s := Next(job, s, 0);
    ReachNext(job, s, 1);
    s := Next(job, s, 1);
    ReachNext(job, s, 1);
    s := Next(job, s, 1);
    assert Abandoned(job, s, 1);
  }

  lemma AbandonedStep(job: Job, s: State, r: nat, q: nat)
    requires Abandoned(job, s, r) && Rank(job, s, q) && Enabled(job, s, q)
    ensures Abandoned(job, Next(job, s, q), r)
  {
    assert !AllArrived(s, 1) by { assert s.arrivals[r] == 0; }
  }

  /** ... for good: however the run goes on, nothing releases rank 0. */
  lemma {:induction false} AbandonedForGood(job: Job, run: seq<State>, schedule: seq<nat>, r: nat, i: nat, j: nat)
    requires IsRun(job, run, schedule) && i <= j < |run| && Abandoned(job, run[i], r)
    ensures Abandoned(job, run[j], r) && !Enabled(job, run[j], 0)
    decreases j - i
  {
    if i < j {
      AbandonedStep(job, run[i], r, schedule[i]);
      AbandonedForGood(job, run, schedule, r, i + 1, j);
    } else {
      assert !AllArrived(run[i], 1) by { assert run[i].arrivals[r] == 0; }
    }
  }
}
