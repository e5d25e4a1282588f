/** The create-only file writers: write a temporary file, sync it, link it to its destination, remove
    the temporary name. Any number of writers interleave over one file system of names, inodes and
    contents; every call may fail, a writer may crash anywhere, and the power may fail, which tears
    whatever is not synced, may lose directory entries and may bring removed ones back (no writer syncs
    the directory).
    link() is as in POSIX.1-2017, System Interfaces: it fails with EEXIST when the new name exists. */
module CreateOnlyFile {
  type Path = string
  type Inode = nat
  type WriterId = nat

  /** A temporary name carries a fresh UUID: no writer shares it, and it is no destination. */
  datatype Name = Destination(path: Path) | Temporary(writer: WriterId)

  datatype File = File(data: string, synced: bool)

  // The evidence writer of the smoke test, and the dataset writer of the two dataset commands.
  datatype Kind = Evidence | Dataset

  datatype Job = Job(kind: Kind, path: Path, content: string)

  // What the caller is told; any thrown error but the one for an existing file is Failed.
  datatype Outcome = Success | AlreadyExists | Failed

  /** Where a writer is: the call it makes next. */
  datatype Phase =
    | Writing(inode: Inode)                  // writeFile, then sync
    | Closing(inode: Inode, intact: bool)    // close, after a successful sync or a failure
    | Linking(inode: Inode)
    | Removing(outcome: Outcome)             // rm, then report the outcome
    | Finished(outcome: Outcome)
    | Crashed

  datatype LinkResult = Linked | Exists | OtherError

  datatype Step =
    | Open(w: WriterId, inode: Inode)
    | OpenFails(w: WriterId)
    | Write(w: WriterId, upTo: nat)
    | Sync(w: WriterId)
    | WriteFails(w: WriterId)
    | Close(w: WriterId, ok: bool)
    | Link(w: WriterId, result: LinkResult)
    | Remove(w: WriterId, ok: bool)
    | Crash(w: WriterId)
    | PowerLoss(torn: map<Inode, string>, lost: set<Name>, restored: set<WriterId>)

  /** `removed` remembers the temporary names removed since the last power loss. */
  datatype System = System(
    names: map<Name, Inode>,
    files: map<Inode, File>,
    phases: map<WriterId, Phase>,
    removed: map<WriterId, Inode>)

  const EMPTY := System(map[], map[], map[], map[])

  predicate At(s: System, w: WriterId, p: Phase) {
    w in s.phases && s.phases[w] == p
  }

  predicate Enabled(jobs: WriterId -> Job, s: System, step: Step) {
    match step
    case Open(w, inode) => w !in s.phases && inode !in s.files && Temporary(w) !in s.names
    case OpenFails(w) => w !in s.phases
    case Write(w, upTo) =>
      && w in s.phases && s.phases[w].Writing? && s.phases[w].inode in s.files
      && |s.files[s.phases[w].inode].data| <= upTo <= |jobs(w).content|
    case Sync(w) =>
      && w in s.phases && s.phases[w].Writing? && s.phases[w].inode in s.files
      && s.files[s.phases[w].inode].data == jobs(w).content
    case WriteFails(w) => w in s.phases && s.phases[w].Writing?
    case Close(w, _) => w in s.phases && s.phases[w].Closing?
    case Link(w, result) =>
      && w in s.phases && s.phases[w].Linking?
      && (result == Linked ==> Destination(jobs(w).path) !in s.names)
      && (result == Exists ==> Destination(jobs(w).path) in s.names)
    case Remove(w, _) => w in s.phases && s.phases[w].Removing?
    case Crash(w) => w in s.phases && !s.phases[w].Finished?
    case PowerLoss(_, _, restored) => restored <= s.removed.Keys
  }

  function Torn(f: File, i: Inode, torn: map<Inode, string>): File {
    if f.synced || i !in torn then f else File(torn[i], false)
  }

  function Move(s: System, w: WriterId, p: Phase): System {
    s.(phases := s.phases[w := p])
  }

  function Forget(s: System, w: WriterId): System {
    if Temporary(w) in s.names then
      s.(names := s.names - {Temporary(w)}, removed := s.removed[w := s.names[Temporary(w)]])
    else s
  }

  function Restored(removed: map<WriterId, Inode>, restored: set<WriterId>): (back: map<Name, Inode>)
    requires restored <= removed.Keys
    ensures forall n :: n in back <==> n.Temporary? && n.writer in restored
    ensures forall w | w in restored :: back[Temporary(w)] == removed[w]
  {
    map w | w in restored :: Temporary(w) := removed[w]
  }

  function TornFiles(files: map<Inode, File>, torn: map<Inode, string>): (after: map<Inode, File>)
    ensures after.Keys == files.Keys && forall i | i in files :: after[i] == Torn(files[i], i, torn)
  {
    map i | i in files :: Torn(files[i], i, torn)
  }

  function Stopped(phases: map<WriterId, Phase>): (after: map<WriterId, Phase>)
    ensures after.Keys == phases.Keys
    ensures forall w | w in phases :: after[w] == if phases[w].Finished? then phases[w] else Crashed
  {
    map w | w in phases :: if phases[w].Finished? then phases[w] else Crashed
  }

  function AfterPowerLoss(s: System, torn: map<Inode, string>, lost: set<Name>, restored: set<WriterId>): System
    requires restored <= s.removed.Keys
  {
    System(s.names - lost + Restored(s.removed, restored), TornFiles(s.files, torn), Stopped(s.phases), map[])
  }

  function After(jobs: WriterId -> Job, s: System, step: Step): System
    requires Enabled(jobs, s, step)
  {
    match step
    case Open(w, inode) =>
      Move(s, w, Writing(inode)).(names := s.names[Temporary(w) := inode], files := s.files[inode := File("", false)])
    case OpenFails(w) => Move(s, w, if jobs(w).kind == Evidence then Finished(Failed) else Removing(Failed))
    case Write(w, upTo) => s.(files := s.files[s.phases[w].inode := File(jobs(w).content[..upTo], false)])
    case Sync(w) =>
      Move(s, w, Closing(s.phases[w].inode, true)).(files := s.files[s.phases[w].inode := File(jobs(w).content, true)])
    case WriteFails(w) => Move(s, w, Closing(s.phases[w].inode, false))
    case Close(w, ok) =>
      if !ok && jobs(w).kind == Evidence then Move(s, w, Finished(Failed))
      else if ok && s.phases[w].intact then Move(s, w, Linking(s.phases[w].inode))
      else Move(s, w, Removing(Failed))
    case Link(w, result) =>
      (match result
       case Linked => Move(s, w, Removing(Success)).(names := s.names[Destination(jobs(w).path) := s.phases[w].inode])
       case Exists => Move(s, w, Removing(AlreadyExists))
       case OtherError => Move(s, w, Removing(Failed)))
    case Remove(w, ok) =>
      if ok then Move(Forget(s, w), w, Finished(s.phases[w].outcome))
      else Move(s, w, Finished(Failed))
    case Crash(w) => Move(s, w, Crashed)
    case PowerLoss(torn, lost, restored) =>
      AfterPowerLoss(s, torn, lost, restored)
  }

  ghost predicate IsRun(jobs: WriterId -> Job, ss: seq<System>, steps: seq<Step>) {
    && |ss| == |steps| + 1 && ss[0] == EMPTY
    && forall k | 0 <= k < |steps| :: Enabled(jobs, ss[k], steps[k]) && ss[k + 1] == After(jobs, ss[k], steps[k])
  }

  predicate LeavesAlone(step: Step, n: Name) {
    step.PowerLoss? ==> n !in step.lost && (n.Temporary? ==> n.writer !in step.restored)
  }

  /** No power loss among the steps takes the name from the directory or brings it back. */
  predicate Keeps(steps: seq<Step>, n: Name) {
    forall k | 0 <= k < |steps| :: LeavesAlone(steps[k], n)
  }

  // ---- What the file system keeps -----------------------------------------------------------------

  predicate IsComplete(s: System, i: Inode, content: string) {
    i in s.files && s.files[i] == File(content, true)
  }

  predicate HasOpen(s: System, w: WriterId, i: Inode) {
    && w in s.phases
    && (s.phases[w].Writing? || s.phases[w].Closing? || s.phases[w].Linking?)
    && s.phases[w].inode == i
  }

  // A file being written has one name and one writer.
  ghost predicate IsPrivate(s: System, w: WriterId, i: Inode) {
    && (forall n | n in s.names && s.names[n] == i :: n == Temporary(w))
    && (forall v | HasOpen(s, v, i) :: v == w)
  }

  ghost predicate PhaseSound(jobs: WriterId -> Job, s: System, w: WriterId)
    requires w in s.phases
  {
    match s.phases[w]
    case Writing(inode) => inode in s.files && IsPrivate(s, w, inode)
    case Closing(inode, intact) => inode in s.files && (intact ==> IsComplete(s, inode, jobs(w).content))
    case Linking(inode) => IsComplete(s, inode, jobs(w).content)
    case _ => true
  }

  /** The inode holds what some writer that ran was asked to write to the path: all of it, and synced. */
  ghost predicate Whole(jobs: WriterId -> Job, s: System, p: Path, i: Inode) {
    exists w: WriterId :: w in s.phases && jobs(w).path == p && IsComplete(s, i, jobs(w).content)
  }

  ghost predicate Sound(jobs: WriterId -> Job, s: System) {
    && (forall n | n in s.names :: s.names[n] in s.files)
    && (forall w | w in s.removed :: s.removed[w] in s.files)
    && (forall w | w in s.phases :: PhaseSound(jobs, s, w))
    && (forall p | Destination(p) in s.names :: Whole(jobs, s, p, s.names[Destination(p)]))
  }

  /** No step touches a synced file, or takes one away. */
  lemma SyncedFilesStay(jobs: WriterId -> Job, s: System, step: Step, i: Inode)
    requires Sound(jobs, s) && Enabled(jobs, s, step)
    requires i in s.files && s.files[i].synced
    requires forall w | w in s.phases && s.phases[w].Writing? :: s.phases[w].inode != i
    ensures var s' := After(jobs, s, step); i in s'.files && s'.files[i] == s.files[i]
  {
  }

  /** Only an open brings a file into use. */
  lemma HeldFilesWereHeld(jobs: WriterId -> Job, s: System, step: Step, u: WriterId, i: Inode)
    requires Enabled(jobs, s, step) && HasOpen(After(jobs, s, step), u, i)
    ensures HasOpen(s, u, i) || (step.Open? && step.w == u && step.inode == i)
  {
  }

  /** Only an open and a link give a file a name. */
  lemma NamesComeByOpenOrLink(jobs: WriterId -> Job, s: System, step: Step, n: Name)
    requires Enabled(jobs, s, step) && !step.PowerLoss? && n in After(jobs, s, step).names
    ensures var i := After(jobs, s, step).names[n];
            || (n in s.names && s.names[n] == i)
            || (step.Open? && step.inode == i)
            || (step.Link? && HasOpen(s, step.w, i))
  {
  }

  lemma StaysPrivate(jobs: WriterId -> Job, s: System, step: Step, v: WriterId)
    requires Sound(jobs, s) && Enabled(jobs, s, step) && !step.PowerLoss?
    requires v in s.phases && s.phases[v].Writing? && After(jobs, s, step).phases[v].Writing?
    ensures IsPrivate(After(jobs, s, step), v, s.phases[v].inode)
  {
    var s', i := After(jobs, s, step), s.phases[v].inode;
    assert PhaseSound(jobs, s, v);
    forall u | HasOpen(s', u, i)
      ensures u == v
    {
      HeldFilesWereHeld(jobs, s, step, u, i);
    }
    forall n | n in s'.names && s'.names[n] == i
      ensures n == Temporary(v)
    {
      NamesComeByOpenOrLink(jobs, s, step, n);
    }
  }

  lemma OpenedIsPrivate(jobs: WriterId -> Job, s: System, step: Step)
    requires Sound(jobs, s) && Enabled(jobs, s, step) && step.Open?
    ensures PhaseSound(jobs, After(jobs, s, step), step.w)
  {
    forall u | u in s.phases
      ensures !HasOpen(s, u, step.inode)
    {
      assert PhaseSound(jobs, s, u);
    }
    var s' := After(jobs, s, step);
    assert forall u | HasOpen(s', u, step.inode) && u != step.w :: HasOpen(s, u, step.inode);
  }

  /** A file that is closed by its writer is not among those a step changes. */
  lemma ClosedStaysSound(jobs: WriterId -> Job, s: System, step: Step, v: WriterId)
    requires Sound(jobs, s) && Enabled(jobs, s, step) && !step.PowerLoss?
    requires v in s.phases && !s.phases[v].Writing?
    ensures PhaseSound(jobs, After(jobs, s, step), v)
  {
    assert PhaseSound(jobs, s, v);
    if step.Write? || step.Sync? {
      assert PhaseSound(jobs, s, step.w);
      assert HasOpen(s, step.w, s.phases[step.w].inode);
      if !s.phases[v].Removing? && !s.phases[v].Finished? && !s.phases[v].Crashed? {
        assert HasOpen(s, v, s.phases[v].inode);
      }
    }
  }

  lemma PhaseStaysSound(jobs: WriterId -> Job, s: System, step: Step, v: WriterId)
    requires Sound(jobs, s) && Enabled(jobs, s, step) && !step.PowerLoss? && v in After(jobs, s, step).phases
    ensures PhaseSound(jobs, After(jobs, s, step), v)
  {
    if step.Open? && step.w == v {
      OpenedIsPrivate(jobs, s, step);
    } else if v in s.phases {
      if s.phases[v].Writing? {
        assert PhaseSound(jobs, s, v);
        if After(jobs, s, step).phases[v].Writing? { StaysPrivate(jobs, s, step, v); }
      } else {
        ClosedStaysSound(jobs, s, step, v);
      }
    }
  }

  lemma NoWriterHolds(jobs: WriterId -> Job, s: System, p: Path)
    requires Sound(jobs, s) && Destination(p) in s.names
    ensures forall w | w in s.phases && s.phases[w].Writing? :: s.phases[w].inode != s.names[Destination(p)]
  {
    forall w | w in s.phases && s.phases[w].Writing?
      ensures s.phases[w].inode != s.names[Destination(p)]
    {
      assert PhaseSound(jobs, s, w);
    }
  }

  lemma LinkedIsWhole(jobs: WriterId -> Job, s: System, step: Step)
    requires Sound(jobs, s) && Enabled(jobs, s, step) && step.Link? && step.result == Linked
    ensures var s', p := After(jobs, s, step), jobs(step.w).path;
            Destination(p) in s'.names && Whole(jobs, s', p, s'.names[Destination(p)])
  {
    assert PhaseSound(jobs, s, step.w);
    assert IsComplete(After(jobs, s, step), s.phases[step.w].inode, jobs(step.w).content);
  }

  lemma OldDestinationStaysWhole(jobs: WriterId -> Job, s: System, step: Step, p: Path)
    requires Sound(jobs, s) && Enabled(jobs, s, step) && Destination(p) in s.names
    ensures Whole(jobs, After(jobs, s, step), p, s.names[Destination(p)])
  {
    var i := s.names[Destination(p)];
    var w :| w in s.phases && jobs(w).path == p && IsComplete(s, i, jobs(w).content);
    NoWriterHolds(jobs, s, p);
    SyncedFilesStay(jobs, s, step, i);
    assert w in After(jobs, s, step).phases && IsComplete(After(jobs, s, step), i, jobs(w).content);
  }

  /** A destination is there because it was, or because the step links it. */
  lemma DestinationsComeByLink(jobs: WriterId -> Job, s: System, step: Step, p: Path)
    requires Enabled(jobs, s, step) && Destination(p) in After(jobs, s, step).names
    ensures var s' := After(jobs, s, step);
            || (Destination(p) in s.names && s'.names[Destination(p)] == s.names[Destination(p)])
            || (step.Link? && step.result == Linked && jobs(step.w).path == p)
  {
  }

  lemma DestinationsStayWhole(jobs: WriterId -> Job, s: System, step: Step, p: Path)
    requires Sound(jobs, s) && Enabled(jobs, s, step) && Destination(p) in After(jobs, s, step).names
    ensures Whole(jobs, After(jobs, s, step), p, After(jobs, s, step).names[Destination(p)])
  {
    DestinationsComeByLink(jobs, s, step, p);
    if step.Link? && step.result == Linked && jobs(step.w).path == p {
      LinkedIsWhole(jobs, s, step);
    } else {
      OldDestinationStaysWhole(jobs, s, step, p);
    }
  }

  lemma NamesStayKnown(jobs: WriterId -> Job, s: System, step: Step)
    requires Sound(jobs, s) && Enabled(jobs, s, step)
    ensures var s' := After(jobs, s, step);
            && (forall n | n in s'.names :: s'.names[n] in s'.files)
            && (forall w | w in s'.removed :: s'.removed[w] in s'.files)
  {
    if step.Link? { assert PhaseSound(jobs, s, step.w); }
  }

  /** Every step of every writer, crashes and power losses included, keeps destinations whole and files
      being written private. */
  lemma StepKeepsSound(jobs: WriterId -> Job, s: System, step: Step)
    requires Sound(jobs, s) && Enabled(jobs, s, step)
    ensures Sound(jobs, After(jobs, s, step))
  {
    var s' := After(jobs, s, step);
    NamesStayKnown(jobs, s, step);
    forall w | w in s'.phases
      ensures PhaseSound(jobs, s', w)
    {
      if !step.PowerLoss? { PhaseStaysSound(jobs, s, step, w); }
    }
    forall p | Destination(p) in s'.names
      ensures Whole(jobs, s', p, s'.names[Destination(p)])
    {
      DestinationsStayWhole(jobs, s, step, p);
    }
  }

  lemma {:induction false} SoundInRun(jobs: WriterId -> Job, ss: seq<System>, steps: seq<Step>, i: nat)
    requires IsRun(jobs, ss, steps) && i < |ss|
    ensures Sound(jobs, ss[i])
  {
    if i == 0 {
    } else {
      SoundInRun(jobs, ss, steps, i - 1);
      StepKeepsSound(jobs, ss[i - 1], steps[i - 1]);
    }
  }

  /** In every state of every run, whatever failed or crashed, a destination is absent or holds one
      whole synced document that some writer was asked to write there. */
  lemma DestinationIsAbsentOrWhole(jobs: WriterId -> Job, ss: seq<System>, steps: seq<Step>, i: nat, p: Path)
    requires IsRun(jobs, ss, steps) && i < |ss| && Destination(p) in ss[i].names
    ensures Whole(jobs, ss[i], p, ss[i].names[Destination(p)])
  {
    SoundInRun(jobs, ss, steps, i);
  }

  /** Once present, a destination keeps its inode and its contents for as long as no power loss takes
      its directory entry. */
  lemma {:induction false} DestinationNeverChanges(
    jobs: WriterId -> Job, ss: seq<System>, steps: seq<Step>, i: nat, j: nat, p: Path)
    requires IsRun(jobs, ss, steps) && i <= j < |ss| && Destination(p) in ss[i].names
    requires Keeps(steps[i..j], Destination(p))
    ensures Destination(p) in ss[j].names && ss[j].names[Destination(p)] == ss[i].names[Destination(p)]
    ensures var inode := ss[i].names[Destination(p)];
            inode in ss[i].files && inode in ss[j].files && ss[j].files[inode] == ss[i].files[inode]
    decreases j - i
  {
    SoundInRun(jobs, ss, steps, i);
    assert Whole(jobs, ss[i], p, ss[i].names[Destination(p)]);
    if i < j {
      var step := steps[i];
      NoWriterHolds(jobs, ss[i], p);
      SyncedFilesStay(jobs, ss[i], step, ss[i].names[Destination(p)]);
      assert steps[i..j][0] == step && steps[i..j][1..] == steps[i + 1..j];
      assert ss[i + 1] == After(jobs, ss[i], step);
      DestinationNeverChanges(jobs, ss, steps, i + 1, j, p);
    }
  }

  // ---- Who reports success ------------------------------------------------------------------------

  /** The writer's link was made, and it has not crashed or failed to clean up since. */
  predicate Won(s: System, w: WriterId) {
    w in s.phases && (s.phases[w] == Removing(Success) || s.phases[w] == Finished(Success))
  }

  ghost predicate OneWinner(jobs: WriterId -> Job, s: System, p: Path) {
    && (forall u | Won(s, u) && jobs(u).path == p ::
          Destination(p) in s.names && IsComplete(s, s.names[Destination(p)], jobs(u).content))
    && (forall u, v | Won(s, u) && Won(s, v) && jobs(u).path == p && jobs(v).path == p :: u == v)
  }

  /** Only the link makes a winner. */
  lemma WinnersComeByLink(jobs: WriterId -> Job, s: System, step: Step, u: WriterId)
    requires Enabled(jobs, s, step) && Won(After(jobs, s, step), u)
    ensures Won(s, u) || (step.Link? && step.result == Linked && step.w == u)
  {
  }

  lemma LinkMakesOneWinner(jobs: WriterId -> Job, s: System, step: Step)
    requires step.Link? && step.result == Linked
    requires Sound(jobs, s) && OneWinner(jobs, s, jobs(step.w).path) && Enabled(jobs, s, step)
    ensures OneWinner(jobs, After(jobs, s, step), jobs(step.w).path)
  {
    assert PhaseSound(jobs, s, step.w);
    forall u | Won(After(jobs, s, step), u) && u != step.w
      ensures Won(s, u)
    {
      WinnersComeByLink(jobs, s, step, u);
    }
  }

  lemma WinnerKeepsDestination(jobs: WriterId -> Job, s: System, step: Step, u: WriterId)
    requires Sound(jobs, s) && OneWinner(jobs, s, jobs(u).path) && Enabled(jobs, s, step) && Won(s, u)
    requires LeavesAlone(step, Destination(jobs(u).path))
    ensures var s', d := After(jobs, s, step), Destination(jobs(u).path);
            d in s'.names && IsComplete(s', s'.names[d], jobs(u).content)
  {
    NoWriterHolds(jobs, s, jobs(u).path);
    SyncedFilesStay(jobs, s, step, s.names[Destination(jobs(u).path)]);
  }

  lemma StepKeepsOneWinner(jobs: WriterId -> Job, s: System, step: Step, p: Path)
    requires Sound(jobs, s) && OneWinner(jobs, s, p) && Enabled(jobs, s, step)
    requires LeavesAlone(step, Destination(p))
    ensures OneWinner(jobs, After(jobs, s, step), p)
  {
    if step.Link? && step.result == Linked && jobs(step.w).path == p {
      LinkMakesOneWinner(jobs, s, step);
    } else {
      forall u | Won(After(jobs, s, step), u) && jobs(u).path == p
        ensures Won(s, u)
      {
        WinnersComeByLink(jobs, s, step, u);
      }
      forall u | Won(s, u) && jobs(u).path == p
        ensures Destination(p) in After(jobs, s, step).names
        ensures IsComplete(After(jobs, s, step), After(jobs, s, step).names[Destination(p)], jobs(u).content)
      {
        WinnerKeepsDestination(jobs, s, step, u);
      }
    }
  }

  lemma {:induction false} OneWinnerInRun(jobs: WriterId -> Job, ss: seq<System>, steps: seq<Step>, i: nat, p: Path)
    requires IsRun(jobs, ss, steps) && i < |ss| && Keeps(steps[..i], Destination(p))
    ensures OneWinner(jobs, ss[i], p)
  {
    if i == 0 {
    } else {
      assert steps[..i][i - 1] == steps[i - 1] && steps[..i - 1] == steps[..i][..i - 1];
      OneWinnerInRun(jobs, ss, steps, i - 1, p);
      SoundInRun(jobs, ss, steps, i - 1);
      StepKeepsOneWinner(jobs, ss[i - 1], steps[i - 1], p);
    }
  }

  /** Of all the writers to one path at most one reports success, and the destination then holds its
      document: unless a power loss has taken the directory entry. */
  lemma AtMostOneSuccess(jobs: WriterId -> Job, ss: seq<System>, steps: seq<Step>, i: nat, u: WriterId)
    requires IsRun(jobs, ss, steps) && i < |ss| && Keeps(steps[..i], Destination(jobs(u).path))
    requires At(ss[i], u, Finished(Success))
    ensures Destination(jobs(u).path) in ss[i].names
    ensures IsComplete(ss[i], ss[i].names[Destination(jobs(u).path)], jobs(u).content)
    ensures forall v | At(ss[i], v, Finished(Success)) && jobs(v).path == jobs(u).path :: v == u
  {
    OneWinnerInRun(jobs, ss, steps, i, jobs(u).path);
    assert Won(ss[i], u);
    assert forall v | At(ss[i], v, Finished(Success)) :: Won(ss[i], v);
  }

  predicate Faultless(step: Step) {
    match step
    case Close(_, ok) => ok
    case Link(_, result) => result != OtherError
    case Remove(_, ok) => ok
    case _ => step.Open? || step.Write? || step.Sync?
  }

  ghost predicate Decided(jobs: WriterId -> Job, s: System, p: Path) {
    && (forall w | w in s.phases && s.phases[w].Closing? :: s.phases[w].intact)
    && (forall w | w in s.phases && !s.phases[w].Writing? && !s.phases[w].Closing? && !s.phases[w].Linking? ::
          !s.phases[w].Crashed? && s.phases[w].outcome != Failed && (jobs(w).path == p ==> Destination(p) in s.names))
    && (Destination(p) in s.names ==> exists w :: Won(s, w) && jobs(w).path == p)
  }

  lemma StepKeepsDecided(jobs: WriterId -> Job, s: System, step: Step, p: Path)
    requires Decided(jobs, s, p) && Enabled(jobs, s, step) && Faultless(step)
    ensures Decided(jobs, After(jobs, s, step), p)
  {
    var s' := After(jobs, s, step);
    if Destination(p) in s.names {
      var w :| Won(s, w) && jobs(w).path == p;
      assert Won(s', w);
    } else if Destination(p) in s'.names {
      assert Won(s', step.w);
    }
  }

  lemma {:induction false} DecidedInRun(jobs: WriterId -> Job, ss: seq<System>, steps: seq<Step>, i: nat, p: Path)
    requires IsRun(jobs, ss, steps) && i < |ss| && (forall k | 0 <= k < i :: Faultless(steps[k]))
    ensures Decided(jobs, ss[i], p)
  {
    if i == 0 {
    } else {
      DecidedInRun(jobs, ss, steps, i - 1, p);
      StepKeepsDecided(jobs, ss[i - 1], steps[i - 1], p);
    }
  }

  /** When nothing fails and all the writers to a path have finished, however they interleaved, exactly
      one of them reports success, every other one that the file already exists. */
  lemma ExactlyOneWinsWithoutFaults(jobs: WriterId -> Job, ss: seq<System>, steps: seq<Step>, i: nat, w: WriterId)
    returns (winner: WriterId)
    requires IsRun(jobs, ss, steps) && i < |ss| && (forall k | 0 <= k < i :: Faultless(steps[k]))
    requires w in ss[i].phases
    requires forall v | v in ss[i].phases && jobs(v).path == jobs(w).path :: ss[i].phases[v].Finished?
    ensures jobs(winner).path == jobs(w).path && winner in ss[i].phases
    ensures forall v | v in ss[i].phases && jobs(v).path == jobs(w).path ::
              ss[i].phases[v].outcome == if v == winner then Success else AlreadyExists
  {
    var p := jobs(w).path;
    DecidedInRun(jobs, ss, steps, i, p);
    winner :| Won(ss[i], winner) && jobs(winner).path == p;
    OneWinnerInRun(jobs, ss, steps, i, p);
    assert forall v | v in ss[i].phases && ss[i].phases[v] == Finished(Success) :: Won(ss[i], v);
  }

  // ---- What a finished writer reports and leaves behind --------------------------------------------

  /** The step is among the first `n`. */
  predicate Made(steps: seq<Step>, n: nat, step: Step)
    requires n <= |steps|
  {
    exists k | 0 <= k < n :: steps[k] == step
  }

  predicate Opened(steps: seq<Step>, n: nat, w: WriterId)
    requires n <= |steps|
  {
    exists k | 0 <= k < n :: steps[k].Open? && steps[k].w == w
  }

  /** What one writer has done so far, as far as its report and its temporary file are concerned. */
  datatype Deeds = Deeds(began: bool, linked: bool, existed: bool, removed: bool, leftOpen: bool, leftNamed: bool)

  ghost function DeedsOf(steps: seq<Step>, n: nat, w: WriterId): Deeds
    requires n <= |steps|
  {
    Deeds(Opened(steps, n, w), Made(steps, n, Link(w, Linked)), Made(steps, n, Link(w, Exists)),
          Made(steps, n, Remove(w, true)), Made(steps, n, Close(w, false)), Made(steps, n, Remove(w, false)))
  }

  function Doing(d: Deeds, step: Step): Deeds {
    match step
    case Open(_, _) => d.(began := true)
    case Close(_, ok) => if ok then d else d.(leftOpen := true)
    case Link(_, result) =>
      if result == Linked then d.(linked := true) else if result == Exists then d.(existed := true) else d
    case Remove(_, ok) => if ok then d.(removed := true) else d.(leftNamed := true)
    case _ => d
  }

  predicate IsBy(step: Step, w: WriterId) { !step.PowerLoss? && step.w == w }

  lemma MadeOneMore(steps: seq<Step>, n: nat, x: Step)
    requires n < |steps|
    ensures Made(steps, n + 1, x) <==> Made(steps, n, x) || x == steps[n]
  {
  }

  lemma DeedsOneMore(steps: seq<Step>, n: nat, w: WriterId)
    requires n < |steps|
    ensures DeedsOf(steps, n + 1, w) == DeedsAfter(DeedsOf(steps, n, w), steps[n], w)
  {
    MadeOneMore(steps, n, Link(w, Linked));
    MadeOneMore(steps, n, Link(w, Exists));
    MadeOneMore(steps, n, Remove(w, true));
    MadeOneMore(steps, n, Close(w, false));
    MadeOneMore(steps, n, Remove(w, false));
    assert Opened(steps, n + 1, w) <==> Opened(steps, n, w) || (steps[n].Open? && steps[n].w == w);
  }

  /** Where a writer is agrees with what it has done. */
  predicate Told(s: System, w: WriterId, d: Deeds) {
    if w !in s.phases then !d.linked && !d.existed && !d.removed
    else
      match s.phases[w]
      case Removing(outcome) =>
        (outcome == Success <==> d.linked) && (outcome == AlreadyExists <==> d.existed) && !d.removed
      case Finished(outcome) =>
        (outcome == Success <==> d.linked && d.removed) && (outcome == AlreadyExists <==> d.existed && d.removed)
      case Crashed => true
      case _ => !d.linked && !d.existed && !d.removed
  }

  /** So does its temporary name. */
  predicate Left(kind: Kind, s: System, w: WriterId, d: Deeds) {
    var missed, named := d.leftNamed || (d.leftOpen && kind == Evidence), Temporary(w) in s.names;
    if w !in s.phases then !d.began && !named && !missed
    else
      match s.phases[w]
      case Removing(_) => (named <==> d.began) && !missed
      case Finished(_) => named <==> d.began && missed
      case Crashed => true
      case _ => d.began && named && !missed
  }

  lemma OwnStepKeepsTold(jobs: WriterId -> Job, s: System, step: Step, d: Deeds)
    requires !step.PowerLoss? && Enabled(jobs, s, step) && Told(s, step.w, d)
    ensures Told(After(jobs, s, step), step.w, Doing(d, step))
  {
  }

  lemma OwnStepKeepsLeft(jobs: WriterId -> Job, s: System, step: Step, d: Deeds)
    requires !step.PowerLoss? && Enabled(jobs, s, step) && Left(jobs(step.w).kind, s, step.w, d)
    ensures Left(jobs(step.w).kind, After(jobs, s, step), step.w, Doing(d, step))
  {
  }

  /** A step of another writer, or a power loss, leaves a writer where it is, or crashed. */
  lemma OthersStep(jobs: WriterId -> Job, s: System, step: Step, w: WriterId)
    requires Enabled(jobs, s, step) && !IsBy(step, w)
    ensures var s' := After(jobs, s, step);
            && (w in s.phases <==> w in s'.phases)
            && (w in s.phases ==> s'.phases[w] == s.phases[w] || s'.phases[w] == Crashed)
            && (LeavesAlone(step, Temporary(w)) ==> (Temporary(w) in s.names <==> Temporary(w) in s'.names))
  {
  }

  function DeedsAfter(d: Deeds, step: Step, w: WriterId): Deeds {
    if IsBy(step, w) then Doing(d, step) else d
  }

  lemma StepKeepsTold(jobs: WriterId -> Job, s: System, step: Step, w: WriterId, d: Deeds)
    requires Enabled(jobs, s, step) && Told(s, w, d)
    ensures Told(After(jobs, s, step), w, DeedsAfter(d, step, w))
  {
    if IsBy(step, w) {
      OwnStepKeepsTold(jobs, s, step, d);
    } else {
      OthersStep(jobs, s, step, w);
    }
  }

  lemma StepKeepsLeft(jobs: WriterId -> Job, s: System, step: Step, w: WriterId, d: Deeds)
    requires Enabled(jobs, s, step) && Left(jobs(w).kind, s, w, d) && LeavesAlone(step, Temporary(w))
    ensures Left(jobs(w).kind, After(jobs, s, step), w, DeedsAfter(d, step, w))
  {
    if IsBy(step, w) {
      OwnStepKeepsLeft(jobs, s, step, d);
    } else {
      OthersStep(jobs, s, step, w);
    }
  }

  lemma StepOfRun(jobs: WriterId -> Job, ss: seq<System>, steps: seq<Step>, i: nat)
    requires IsRun(jobs, ss, steps) && 0 < i < |ss|
    ensures Enabled(jobs, ss[i - 1], steps[i - 1]) && ss[i] == After(jobs, ss[i - 1], steps[i - 1])
  {
    assert ss[i - 1 + 1] == ss[i];
  }

  lemma {:induction false} ToldInRun(jobs: WriterId -> Job, ss: seq<System>, steps: seq<Step>, i: nat, w: WriterId)
    requires IsRun(jobs, ss, steps) && i < |ss|
    ensures Told(ss[i], w, DeedsOf(steps, i, w))
  {
    if i == 0 {
    } else {
      ToldInRun(jobs, ss, steps, i - 1, w);
      StepOfRun(jobs, ss, steps, i);
      DeedsOneMore(steps, i - 1, w);
      StepKeepsTold(jobs, ss[i - 1], steps[i - 1], w, DeedsOf(steps, i - 1, w));
    }
  }

  lemma {:induction false} LeftInRun(jobs: WriterId -> Job, ss: seq<System>, steps: seq<Step>, i: nat, w: WriterId)
    requires IsRun(jobs, ss, steps) && i < |ss|
    requires forall k | 0 <= k < i :: LeavesAlone(steps[k], Temporary(w))
    ensures Left(jobs(w).kind, ss[i], w, DeedsOf(steps, i, w))
  {
    if i == 0 {
    } else {
      LeftInRun(jobs, ss, steps, i - 1, w);
      StepOfRun(jobs, ss, steps, i);
      DeedsOneMore(steps, i - 1, w);
      StepKeepsLeft(jobs, ss[i - 1], steps[i - 1], w, DeedsOf(steps, i - 1, w));
    }
  }

  /** A finished writer reports success exactly when its link and its cleanup both succeeded: if the
      cleanup fails after the link, it reports a failure although the file is in place. */
  lemma SuccessExactly(jobs: WriterId -> Job, ss: seq<System>, steps: seq<Step>, i: nat, w: WriterId)
    requires IsRun(jobs, ss, steps) && i < |ss| && w in ss[i].phases && ss[i].phases[w].Finished?
    ensures ss[i].phases[w].outcome == Success <==> Made(steps, i, Link(w, Linked)) && Made(steps, i, Remove(w, true))
    ensures ss[i].phases[w].outcome == AlreadyExists <==>
              Made(steps, i, Link(w, Exists)) && Made(steps, i, Remove(w, true))
  {
    ToldInRun(jobs, ss, steps, i, w);
  }

  /** A finished writer leaves its temporary file behind exactly when the cleanup failed or, for the
      evidence writer, when the close failed; the dataset writers clean up after a failed close too.
      Power losses that take the temporary name, or bring it back, are set aside. */
  lemma TemporaryLeftExactly(jobs: WriterId -> Job, ss: seq<System>, steps: seq<Step>, i: nat, w: WriterId)
    requires IsRun(jobs, ss, steps) && i < |ss| && w in ss[i].phases && ss[i].phases[w].Finished?
    requires forall k | 0 <= k < i :: LeavesAlone(steps[k], Temporary(w))
    ensures Temporary(w) in ss[i].names <==>
              && Opened(steps, i, w)
              && (Made(steps, i, Remove(w, false)) || (Made(steps, i, Close(w, false)) && jobs(w).kind == Evidence))
  {
    LeftInRun(jobs, ss, steps, i, w);
  }

  // ---- The writers, as the programs run them -----------------------------------------------------

  /** What the calls of one writer come to. A write may stop short; a link may fail for a reason other
      than an existing file. */
  datatype Fate = Fate(opens: bool, writes: bool, written: nat, syncs: bool, closes: bool, links: bool, removes: bool)
  {
    predicate Ready() { opens && writes && syncs && closes }
  }

  lemma RunOneMore(jobs: WriterId -> Job, ss: seq<System>, steps: seq<Step>, step: Step)
    requires IsRun(jobs, ss, steps) && Enabled(jobs, ss[|steps|], step)
    ensures IsRun(jobs, ss + [After(jobs, ss[|steps|], step)], steps + [step])
  {
    var ss', steps' := ss + [After(jobs, ss[|steps|], step)], steps + [step];
    forall k | 0 <= k < |steps'|
      ensures Enabled(jobs, ss'[k], steps'[k]) && ss'[k + 1] == After(jobs, ss'[k], steps'[k])
    {
      assert k < |steps| ==> steps'[k] == steps[k] && ss'[k + 1] == ss[k + 1];
    }
  }

  /** The names after a write without interference: the destination is added if it was linked, the
      temporary name if it was left behind. */
  function NamesAfter(before: map<Name, Inode>, dest: Path, w: WriterId, inode: Inode, linked: bool, left: bool):
    map<Name, Inode>
  {
    before + (if linked then map[Destination(dest) := inode] else map[])
           + (if left then map[Temporary(w) := inode] else map[])
  }

  lemma NamesBefore(before: map<Name, Inode>, dest: Path, w: WriterId, inode: Inode)
    requires Temporary(w) !in before
    ensures before[Temporary(w) := inode] - {Temporary(w)} == before - {Temporary(w)} == before
    ensures NamesAfter(before, dest, w, inode, false, false) == before
    ensures NamesAfter(before, dest, w, inode, false, true) == before[Temporary(w) := inode]
  {
  }

  class FileSystem {
    const jobs: WriterId -> Job
    var names: map<Name, Inode>
    var files: map<Inode, File>
    ghost var phases: map<WriterId, Phase>
    ghost var removed: map<WriterId, Inode>
    ghost var states: seq<System>
    ghost var steps: seq<Step>

    ghost function State(): System
      reads this
    {
      System(names, files, phases, removed)
    }

    /** The file system is in the last state of a run. */
    ghost predicate Valid()
      reads this
    {
      IsRun(jobs, states, steps) && State() == states[|steps|]
    }

    constructor (jobs: WriterId -> Job)
      ensures Valid() && State() == EMPTY && this.jobs == jobs
    {
      this.jobs := jobs;
      names, files, phases, removed := map[], map[], map[], map[];
      states, steps := [EMPTY], [];
    }

    /** Extends the run by the step whose effects have just been made. */
    ghost method Record(step: Step, after: System)
      requires IsRun(jobs, states + [after], steps + [step])
      requires names == after.names && files == after.files
      modifies this`phases, this`removed, this`states, this`steps
      ensures Valid() && phases == after.phases
    {
      phases, removed, states, steps := after.phases, after.removed, states + [after], steps + [step];
      assert State() == after;
    }

    method OpenTemporary(w: WriterId, inode: Inode, ok: bool)
      requires Valid() && w !in phases && inode !in files && Temporary(w) !in names
      modifies this
      ensures Valid() && names == if ok then old(names)[Temporary(w) := inode] else old(names)
      ensures files == if ok then old(files)[inode := File("", false)] else old(files)
      ensures phases == old(phases)[w := if ok then Writing(inode) else
                                         if jobs(w).kind == Evidence then Finished(Failed) else Removing(Failed)]
    {
      ghost var before, step := State(), if ok then Open(w, inode) else OpenFails(w);
      if ok {
        names := names[Temporary(w) := inode];
        files := files[inode := File("", false)];
      }
      RunOneMore(jobs, states, steps, step);
      Record(step, After(jobs, before, step));
    }

    method WriteTo(w: WriterId, inode: Inode, upTo: nat)
      requires Valid() && w in phases && phases[w] == Writing(inode) && inode in files && files[inode].data == ""
      requires upTo <= |jobs(w).content|
      modifies this
      ensures Valid() && phases == old(phases) && names == old(names)
      ensures files == old(files)[inode := File(jobs(w).content[..upTo], false)]
    {
      ghost var before := State();
      files := files[inode := File(jobs(w).content[..upTo], false)];
      RunOneMore(jobs, states, steps, Write(w, upTo));
      Record(Write(w, upTo), After(jobs, before, Write(w, upTo)));
    }

    /** writeFile and then sync; either may fail. */
    method WriteAndSync(w: WriterId, inode: Inode, fate: Fate) returns (ok: bool)
      requires Valid() && w in phases && phases[w] == Writing(inode) && inode in files && files[inode].data == ""
      modifies this
      ensures Valid() && ok == (fate.writes && fate.syncs)
      ensures phases == old(phases)[w := Closing(inode, ok)] && names == old(names)
      ensures files.Keys == old(files).Keys
    {
      var content := jobs(w).content;
      WriteTo(w, inode, if fate.writes || fate.written > |content| then |content| else fate.written);
      ok := fate.writes && fate.syncs;
      ghost var before, step := State(), if ok then Sync(w) else WriteFails(w);
      if ok {
        assert content[..|content|] == content;
        files := files[inode := File(content, true)];
      }
      RunOneMore(jobs, states, steps, step);
      Record(step, After(jobs, before, step));
    }

    method CloseFile(w: WriterId, ok: bool)
      requires Valid() && w in phases && phases[w].Closing?
      modifies this
      ensures Valid() && names == old(names) && files == old(files)
      ensures phases == old(phases)[w := if !ok && jobs(w).kind == Evidence then Finished(Failed)
                                         else if ok && old(phases)[w].intact then Linking(old(phases)[w].inode)
                                         else Removing(Failed)]
    {
      RunOneMore(jobs, states, steps, Close(w, ok));
      Record(Close(w, ok), After(jobs, State(), Close(w, ok)));
    }

    method LinkToDestination(w: WriterId, inode: Inode, ok: bool) returns (result: LinkResult)
      requires Valid() && w in phases && phases[w] == Linking(inode)
      modifies this
      ensures result == if !ok then OtherError else if Destination(jobs(w).path) in old(names) then Exists else Linked
      ensures Valid() && files == old(files)
      ensures names == if result == Linked then old(names)[Destination(jobs(w).path) := inode] else old(names)
      ensures phases == old(phases)[w := Removing(match result
                                                  case Linked => Success
                                                  case Exists => AlreadyExists
                                                  case OtherError => Failed)]
    {
      ghost var before := State();
      result := if !ok then OtherError else if Destination(jobs(w).path) in names then Exists else Linked;
      if result == Linked { names := names[Destination(jobs(w).path) := inode]; }
      RunOneMore(jobs, states, steps, Link(w, result));
      Record(Link(w, result), After(jobs, before, Link(w, result)));
    }

    method RemoveTemporary(w: WriterId, ok: bool)
      requires Valid() && w in phases && phases[w].Removing?
      modifies this
      ensures Valid() && files == old(files)
      ensures names == if ok then old(names) - {Temporary(w)} else old(names)
      ensures phases == old(phases)[w := Finished(if ok then old(phases)[w].outcome else Failed)]
    {
      ghost var before := State();
      if ok { names := names - {Temporary(w)}; }
      RunOneMore(jobs, states, steps, Remove(w, ok));
      Record(Remove(w, ok), After(jobs, before, Remove(w, ok)));
    }

    /** The calls up to the close: the temporary file is there exactly when it could be opened. */
    method WriteTemporary(w: WriterId, inode: Inode, fate: Fate) returns (ok: bool)
      requires Valid() && w !in phases && inode !in files && Temporary(w) !in names
      modifies this
      ensures Valid() && ok == fate.Ready() && files.Keys <= old(files).Keys + {inode}
      ensures names == if fate.opens then old(names)[Temporary(w) := inode] else old(names)
      ensures phases == old(phases)[w := if ok then Linking(inode)
                                         else if jobs(w).kind == Evidence && (!fate.opens || !fate.closes)
                                         then Finished(Failed)
                                         else Removing(Failed)]
    {
      OpenTemporary(w, inode, fate.opens);
      if !fate.opens { return false; }
      ok := WriteAndSync(w, inode, fate);
      CloseFile(w, fate.closes);
      ok := ok && fate.closes;
    }

    /** The link and the cleanup. */
    method Publish(w: WriterId, inode: Inode, fate: Fate) returns (outcome: Outcome)
      requires Valid() && w in phases && phases[w] == Linking(inode)
      requires Temporary(w) in names && names[Temporary(w)] == inode
      modifies this
      ensures Valid() && phases == old(phases)[w := Finished(outcome)] && files == old(files)
      ensures var free := Destination(jobs(w).path) !in old(names);
              && (outcome == Success <==> fate.links && fate.removes && free)
              && (outcome == AlreadyExists <==> fate.links && fate.removes && !free)
              && names == NamesAfter(old(names) - {Temporary(w)}, jobs(w).path, w, inode, fate.links && free,
                                     !fate.removes)
    {
      var result := LinkToDestination(w, inode, fate.links);
      RemoveTemporary(w, fate.removes);
      outcome := if !fate.removes || result == OtherError then Failed
                 else if result == Linked then Success else AlreadyExists;
    }

    method WriteStage4EvidenceFile(w: WriterId, inode: Inode, fate: Fate) returns (outcome: Outcome)
      requires Valid() && w !in phases && inode !in files && Temporary(w) !in names && jobs(w).kind == Evidence
      modifies this
      ensures Valid() && phases == old(phases)[w := Finished(outcome)]
      ensures files.Keys <= old(files).Keys + {inode}
      ensures var free := Destination(jobs(w).path) !in old(names);
              && (outcome == Success <==> fate.Ready() && fate.links && fate.removes && free)
              && (outcome == AlreadyExists <==> fate.Ready() && fate.links && fate.removes && !free)
              && names == NamesAfter(old(names), jobs(w).path, w, inode, fate.Ready() && fate.links && free,
                          fate.opens && (!fate.closes || !fate.removes))
    {
      var ready := WriteTemporary(w, inode, fate);
      NamesBefore(old(names), jobs(w).path, w, inode);
      if ready {
        outcome := Publish(w, inode, fate);
      } else {
        outcome := Failed;
        if fate.opens && fate.closes {
          RemoveTemporary(w, fate.removes);
        }
      }
    }

    method WriteCreateOnly(w: WriterId, inode: Inode, fate: Fate) returns (outcome: Outcome)
      requires Valid() && w !in phases && inode !in files && Temporary(w) !in names && jobs(w).kind == Dataset
      modifies this
      ensures Valid() && phases == old(phases)[w := Finished(outcome)]
      ensures files.Keys <= old(files).Keys + {inode}
      ensures var free := Destination(jobs(w).path) !in old(names);
              && (outcome == Success <==> fate.Ready() && fate.links && fate.removes && free)
              && (outcome == AlreadyExists <==> fate.Ready() && fate.links && fate.removes && !free)
              && names == NamesAfter(old(names), jobs(w).path, w, inode, fate.Ready() && fate.links && free,
                                     fate.opens && !fate.removes)
    {
      var ready := WriteTemporary(w, inode, fate);
      NamesBefore(old(names), jobs(w).path, w, inode);
      if ready {
        outcome := Publish(w, inode, fate);
      } else {
        RemoveTemporary(w, fate.removes);
        outcome := Failed;
      }
    }
  }
}
