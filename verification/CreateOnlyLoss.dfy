/** What an unsynced directory costs the create-only writers: exactly the paths whose entries a power
    loss may take can be reported as written more than once. */
module CreateOnlyLoss {
  import opened CreateOnlyFile

  // ---- An undisturbed write -----------------------------------------------------------------------

  lemma Extend(jobs: WriterId -> Job, ss: seq<System>, steps: seq<Step>, s: System, step: Step)
    returns (longer: seq<System>, more: seq<Step>, s': System)
    requires IsRun(jobs, ss, steps) && ss[|steps|] == s && Enabled(jobs, s, step)
    ensures IsRun(jobs, longer, more) && more == steps + [step]
    ensures longer[|more|] == s' == After(jobs, s, step)
  {
    s' := After(jobs, s, step);
    RunOneMore(jobs, ss, steps, step);
    longer, more := ss + [s'], steps + [step];
  }

  function FileSteps(w: WriterId, inode: Inode, content: string): seq<Step> {
    [Open(w, inode)] + [Write(w, |content|)] + [Sync(w)]
  }

  function WriterSteps(w: WriterId, inode: Inode, content: string): seq<Step> {
    FileSteps(w, inode, content) + [Close(w, true)] + [Link(w, Linked)] + [Remove(w, true)]
  }

  /** The temporary file is written and synced. */
  lemma WritesFile(jobs: WriterId -> Job, ss: seq<System>, steps: seq<Step>, s: System, w: WriterId, inode: Inode)
    returns (longer: seq<System>, more: seq<Step>, s': System)
    requires IsRun(jobs, ss, steps) && ss[|steps|] == s
    requires w !in s.phases && inode !in s.files && Temporary(w) !in s.names
    ensures IsRun(jobs, longer, more) && longer[|more|] == s'
    ensures more == steps + FileSteps(w, inode, jobs(w).content)
    ensures s' == System(s.names[Temporary(w) := inode], s.files[inode := File(jobs(w).content, true)],
                         s.phases[w := Closing(inode, true)], s.removed)
  {
    var content := jobs(w).content;
    longer, more, s' := Extend(jobs, ss, steps, s, Open(w, inode));
    assert content[..|content|] == content;
    longer, more, s' := Extend(jobs, longer, more, s', Write(w, |content|));
    longer, more, s' := Extend(jobs, longer, more, s', Sync(w));
    assert s'.files == s.files[inode := File(content, true)];
    assert s'.phases == s.phases[w := Closing(inode, true)];
  }

  /** The synced file is closed, linked to a destination that is absent, and its temporary name removed. */
  lemma FileIsPublished(jobs: WriterId -> Job, ss: seq<System>, steps: seq<Step>, s: System, w: WriterId, inode: Inode)
    returns (longer: seq<System>, more: seq<Step>, s': System)
    requires IsRun(jobs, ss, steps) && ss[|steps|] == s
    requires At(s, w, Closing(inode, true)) && Destination(jobs(w).path) !in s.names && Temporary(w) in s.names
    ensures IsRun(jobs, longer, more) && longer[|more|] == s'
    ensures more == steps + [Close(w, true)] + [Link(w, Linked)] + [Remove(w, true)]
    ensures s'.names == s.names[Destination(jobs(w).path) := inode] - {Temporary(w)}
    ensures s'.files == s.files && s'.phases == s.phases[w := Finished(Success)]
  {
    longer, more, s' := Extend(jobs, ss, steps, s, Close(w, true));
    longer, more, s' := Extend(jobs, longer, more, s', Link(w, Linked));
    longer, more, s' := Extend(jobs, longer, more, s', Remove(w, true));
    assert s'.phases == s.phases[w := Finished(Success)];
  }

  /** A writer whose calls all go well, to a destination that is absent, reports success. */
  lemma WriterSucceeds(jobs: WriterId -> Job, ss: seq<System>, steps: seq<Step>, s: System, w: WriterId, inode: Inode)
    returns (longer: seq<System>, more: seq<Step>, s': System)
    requires IsRun(jobs, ss, steps) && ss[|steps|] == s
    requires w !in s.phases && inode !in s.files && Temporary(w) !in s.names && Destination(jobs(w).path) !in s.names
    ensures IsRun(jobs, longer, more) && longer[|more|] == s'
    ensures more == steps + WriterSteps(w, inode, jobs(w).content)
    ensures s'.names == s.names[Destination(jobs(w).path) := inode]
    ensures s'.files == s.files[inode := File(jobs(w).content, true)] && s'.phases == s.phases[w := Finished(Success)]
  {
    longer, more, s' := WritesFile(jobs, ss, steps, s, w, inode);
    longer, more, s' := FileIsPublished(jobs, longer, more, s', w, inode);
    assert s'.names == s.names[Destination(jobs(w).path) := inode];
    assert s'.phases == s.phases[w := Finished(Success)];
  }

  // ---- A loss between two writes ------------------------------------------------------------------

  lemma NothingTorn(files: map<Inode, File>)
    ensures TornFiles(files, map[]) == files
  {
  }

  lemma NothingRestored(names: map<Name, Inode>, removed: map<WriterId, Inode>)
    ensures names + Restored(removed, {}) == names
  {
  }

  /** A power loss that only takes directory entries. */
  lemma OnlyEntriesLost(jobs: WriterId -> Job, s: System, lost: set<Name>)
    ensures Enabled(jobs, s, PowerLoss(map[], lost, {}))
    ensures After(jobs, s, PowerLoss(map[], lost, {})) == System(s.names - lost, s.files, Stopped(s.phases), map[])
  {
    NothingTorn(s.files);
    NothingRestored(s.names - lost, s.removed);
  }

  /** The power losses of the run take no destination but those of `paths`. */
  predicate LosesOnly(steps: seq<Step>, paths: set<Path>) {
    forall k | 0 <= k < |steps| && steps[k].PowerLoss? ::
      forall n | n in steps[k].lost :: n.Destination? ==> n.path in paths
  }

  lemma LosesJoin(first: seq<Step>, second: seq<Step>, paths: set<Path>)
    requires LosesOnly(first, paths) && LosesOnly(second, paths)
    ensures LosesOnly(first + second, paths)
  {
  }

  lemma WritersLoseNothing(w: WriterId, inode: Inode, content: string, paths: set<Path>)
    ensures LosesOnly(WriterSteps(w, inode, content), paths)
  {
  }

  lemma LosesOne(p: Path)
    ensures LosesOnly([PowerLoss(map[], {Destination(p)}, {})], {p})
  {
  }

  lemma FirstSucceeds(jobs: WriterId -> Job, u: WriterId)
    returns (ss: seq<System>, steps: seq<Step>, s: System)
    ensures IsRun(jobs, ss, steps) && ss[|steps|] == s && LosesOnly(steps, {jobs(u).path})
    ensures s.names.Keys == {Destination(jobs(u).path)} && s.files.Keys == {0} && s.phases.Keys == {u}
    ensures At(s, u, Finished(Success))
  {
    ss, steps, s := WriterSucceeds(jobs, [EMPTY], [], EMPTY, u, 0);
    WritersLoseNothing(u, 0, jobs(u).content, {jobs(u).path});
    LosesJoin([], WriterSteps(u, 0, jobs(u).content), {jobs(u).path});
  }

  /** The first writer reports success, and the power loss takes the entry it reported. */
  lemma SuccessIsLost(jobs: WriterId -> Job, u: WriterId)
    returns (ss: seq<System>, steps: seq<Step>, s: System)
    ensures IsRun(jobs, ss, steps) && ss[|steps|] == s && LosesOnly(steps, {jobs(u).path})
    ensures s.names.Keys == {} && s.files.Keys == {0} && s.phases.Keys == {u}
    ensures At(s, u, Finished(Success))
  {
    var step := PowerLoss(map[], {Destination(jobs(u).path)}, {});
    ss, steps, s := FirstSucceeds(jobs, u);
    LosesOne(jobs(u).path);
    LosesJoin(steps, [step], {jobs(u).path});
    OnlyEntriesLost(jobs, s, step.lost);
    ss, steps, s := Extend(jobs, ss, steps, s, step);
  }

  /** Why no power loss may take the destination's entry: without a sync of the directory the first
      report of success can be followed by a second. */
  lemma LossAllowsTwoSuccesses(jobs: WriterId -> Job, u: WriterId, v: WriterId)
    returns (ss: seq<System>, steps: seq<Step>)
    requires u != v && jobs(u).path == jobs(v).path
    ensures IsRun(jobs, ss, steps) && LosesOnly(steps, {jobs(u).path})
    ensures At(ss[|steps|], u, Finished(Success)) && At(ss[|steps|], v, Finished(Success))
  {
    var s: System;
    ss, steps, s := SuccessIsLost(jobs, u);
    WritersLoseNothing(v, 1, jobs(v).content, {jobs(u).path});
    LosesJoin(steps, WriterSteps(v, 1, jobs(v).content), {jobs(u).path});
    ss, steps, s := WriterSucceeds(jobs, ss, steps, s, v, 1);
  }

  /** However writers interleave, fail and crash, no two of them report success for the path, if power
      losses take no destinations but those of `paths`. */
  ghost predicate SucceedsOnce(jobs: WriterId -> Job, p: Path, paths: set<Path>) {
    forall ss: seq<System>, steps: seq<Step>, i: nat, u: WriterId, v: WriterId |
      && IsRun(jobs, ss, steps) && LosesOnly(steps, paths) && i < |ss|
      && jobs(u).path == p && jobs(v).path == p
      && At(ss[i], u, Finished(Success)) && At(ss[i], v, Finished(Success)) ::
        u == v
  }

  lemma KeptPathSucceedsOnce(jobs: WriterId -> Job, paths: set<Path>, ss: seq<System>, steps: seq<Step>, i: nat,
                             u: WriterId, v: WriterId)
    requires IsRun(jobs, ss, steps) && LosesOnly(steps, paths) && i < |ss| && jobs(u).path !in paths
    requires jobs(v).path == jobs(u).path && At(ss[i], u, Finished(Success)) && At(ss[i], v, Finished(Success))
    ensures u == v
  {
    forall k | 0 <= k < i
      ensures LeavesAlone(steps[..i][k], Destination(jobs(u).path))
    {
      assert steps[..i][k] == steps[k];
    }
    AtMostOneSuccess(jobs, ss, steps, i, u);
  }

  lemma LostPathSucceedsTwice(jobs: WriterId -> Job, paths: set<Path>, u: WriterId, v: WriterId)
    requires u != v && jobs(u).path == jobs(v).path && jobs(u).path in paths
    ensures !SucceedsOnce(jobs, jobs(u).path, paths)
  {
    var ss, steps := LossAllowsTwoSuccesses(jobs, u, v);
    assert LosesOnly(steps, paths);
    assert |steps| < |ss|;
  }

  /** For a path with two writers or more: at most one of them ever reports success if and only if no
      power loss may take the path's entry. */
  lemma SucceedsOnceExactlyWhenKept(jobs: WriterId -> Job, p: Path, paths: set<Path>, u: WriterId, v: WriterId)
    requires u != v && jobs(u).path == p && jobs(v).path == p
    ensures SucceedsOnce(jobs, p, paths) <==> p !in paths
  {
    if p in paths {
      LostPathSucceedsTwice(jobs, paths, u, v);
    } else {
      forall ss: seq<System>, steps: seq<Step>, i: nat, x: WriterId, y: WriterId |
        && IsRun(jobs, ss, steps) && LosesOnly(steps, paths) && i < |ss|
        && jobs(x).path == p && jobs(y).path == p
        && At(ss[i], x, Finished(Success)) && At(ss[i], y, Finished(Success))
        ensures x == y
      {
        KeptPathSucceedsOnce(jobs, paths, ss, steps, i, x, y);
      }
    }
  }
}
