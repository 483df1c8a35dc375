/** How long files stay: not removed by the clean-up before RETENTION, and gone within twice that. */
module MediaRetention {
  import opened Wrappers
  import opened UploadProtocol
  import opened MediaHistory
  import opened MediaSafety

  /** The next tick is due within RETENTION. */
  ghost predicate Clocked(s: State) {
    s.now <= s.nextTick <= s.now + RETENTION
  }

  /** No file will be older than twice RETENTION when the next tick is due. */
  ghost predicate InWindow(s: State) {
    forall p :: p in s.files ==> s.nextTick <= s.files[p].modified + RETENTION + RETENTION
  }

  lemma {:induction false} StepKeepsWindow(s: State, step: Step)
    requires Sound(s) && Clocked(s) && Enabled(s, step)
    ensures Clocked(Apply(s, step))
    ensures InWindow(s) || step.Cleanup? ==> InWindow(Apply(s, step))
  {
  }

  /**
   From the first clean-up on, in every history of uploads, refusals, dropped calls
   and clean-ups, a file that is there was last written at most twice RETENTION ago.
   */
  lemma {:induction false} GoneInTime(s: State, steps: seq<Step>)
    requires Sound(s) && Clocked(s) && Possible(s, steps)
    requires InWindow(s) || (exists step :: step in steps && step.Cleanup?)
    ensures var t := Run(s, steps);
            forall p :: p in t.files ==> t.now <= t.files[p].modified + RETENTION + RETENTION
    ensures InWindow(Run(s, steps)) && Clocked(Run(s, steps))
    decreases steps
  {
    if steps != [] {
      StepKeepsSound(s, steps[0]);
      StepKeepsWindow(s, steps[0]);
      GoneInTime(Apply(s, steps[0]), steps[1..]);
    }
  }

  /** The upload that owns a file, if any, is not refused. */
  ghost predicate NotRefused(s: State, t: State, p: Path) {
    forall id :: id in s.uploads && p in Paths(s.uploads[id]) ==> id in t.uploads && !t.uploads[id].Refused?
  }

  /** What is refused stays refused, and uploads are not forgotten. */
  lemma {:induction false} RefusedStays(s: State, steps: seq<Step>, id: int)
    requires Possible(s, steps) && id in s.uploads
    ensures id in Run(s, steps).uploads
    ensures s.uploads[id].Refused? ==> Run(s, steps).uploads[id].Refused?
    decreases steps
  {
    if steps != [] { RefusedStays(Apply(s, steps[0]), steps[1..], id); }
  }

  lemma {:induction false} TimePasses(s: State, steps: seq<Step>)
    requires Possible(s, steps)
    ensures s.now <= Run(s, steps).now
    decreases steps
  {
    if steps != [] { TimePasses(Apply(s, steps[0]), steps[1..]); }
  }

  /** A step takes a file away only by refusing its upload or by a clean-up more than RETENTION after its last write. */
  lemma {:induction false} StepRemoves(s: State, step: Step, p: Path)
    requires Sound(s) && Enabled(s, step) && p in s.files
    ensures var t := Apply(s, step);
      || (p in t.files && t.files[p].modified >= s.files[p].modified)
      || (step.Cleanup? && s.files[p].modified + RETENTION < s.now)
      || (exists id :: id in s.uploads && p in Paths(s.uploads[id]) && t.uploads[id].Refused?)
  {
    match step
    case Deliver(id, item, path, fails) => assert p != path;
    case Put(id, data, path, fate) => assert p != path;
    case _ =>
  }

  lemma {:induction false} DeliverPaths(s: State, id: int, item: Item, path: Path, fails: bool)
    requires Sound(s) && ReceivesAs(s, id, Chunked) && path !in s.used
    ensures PathsGrow(s, DeliverTo(s, id, item, path, fails), id)
  {
    var u := s.uploads[id];
    if u.Storing? && Take(u.receiver, item, path, fails).Ok? && item.payload.value.FileMetadata? {
      var file := item.payload.value;
      OneMorePath(u.receiver.stored, Describe(path, file.fileName, file.contentType));
    }
  }

  lemma {:induction false} PutPaths(s: State, id: int, data: Bytes, path: Path, fate: Fate)
    requires Sound(s) && ReceivesAs(s, id, Inline) && path !in s.used
    ensures PathsGrow(s, PutFile(s, id, data, path, fate), id)
  {
    if data != [] && fate.Works? {
      OneMorePath(SoFar(s.uploads[id]).stored, MediaFile(path, DEFAULT_MIME, None));
    }
  }

  /** The upload has been refused, or it has kept its files and what has come to them is new and there. */
  ghost predicate PathsGrow(s: State, t: State, id: int)
    requires id in s.uploads
  {
    id in t.uploads &&
    (t.uploads[id].Refused?
     || (Paths(s.uploads[id]) <= Paths(t.uploads[id])
         && forall p :: p in Paths(t.uploads[id]) && p !in Paths(s.uploads[id]) ==> p !in s.used && p in t.files))
  }

  lemma {:induction false} StepPaths(s: State, step: Step, id: int)
    requires Sound(s) && Enabled(s, step) && id in s.uploads
    ensures PathsGrow(s, Apply(s, step), id)
  {
    if step.Deliver? && step.id == id {
      DeliverPaths(s, id, step.item, step.path, step.fails);
    } else if step.Put? && step.id == id {
      PutPaths(s, id, step.data, step.path, step.fate);
    }
  }

  /** An upload takes no one else's files. */
  lemma {:induction false} OwnershipKept(s: State, step: Step, p: Path)
    requires Sound(s) && Enabled(s, step) && p in s.used
    ensures var t := Apply(s, step);
      forall id :: id in t.uploads && p in Paths(t.uploads[id]) ==> id in s.uploads && p in Paths(s.uploads[id])
  {
    var t := Apply(s, step);
    forall id | id in t.uploads && p in Paths(t.uploads[id]) ensures id in s.uploads && p in Paths(s.uploads[id]) {
      if id in s.uploads { StepPaths(s, step, id); }
    }
  }

  /**
   A file is kept until RETENTION after its last write, whatever else happens,
   unless its own upload is refused.
   */
  lemma {:induction false} KeptInTime(s: State, steps: seq<Step>, p: Path)
    requires Sound(s) && Possible(s, steps) && p in s.files
    requires Run(s, steps).now <= s.files[p].modified + RETENTION
    requires NotRefused(s, Run(s, steps), p)
    ensures p in Run(s, steps).files && Run(s, steps).files[p].modified >= s.files[p].modified
    decreases steps
  {
    if steps != [] {
      var t, rest := Apply(s, steps[0]), steps[1..];
      StepKeepsSound(s, steps[0]);
      StepRemoves(s, steps[0], p);
      OwnershipKept(s, steps[0], p);
      TimePasses(t, rest);
      forall id | id in s.uploads && p in Paths(s.uploads[id]) ensures !t.uploads[id].Refused? {
        RefusedStays(t, rest, id);
      }
      KeptInTime(t, rest, p);
    }
  }

  /** The clean-up finds a file that was last written more than RETENTION ago. */
  ghost predicate Overdue(s: State, step: Step, p: Path) {
    step.Cleanup? && p in s.files && s.files[p].modified + RETENTION < s.now
  }

  /** Some clean-up of the history finds the file overdue. */
  ghost predicate SweptAway(s: State, steps: seq<Step>, p: Path)
    requires Possible(s, steps)
    decreases steps
  {
    steps != [] && (Overdue(s, steps[0], p) || SweptAway(Apply(s, steps[0]), steps[1..], p))
  }

  /** A name that is gone does not come back. */
  lemma {:induction false} GoneForGood(s: State, steps: seq<Step>, p: Path)
    requires Possible(s, steps) && p in s.used && p !in s.files
    ensures p !in Run(s, steps).files && !SweptAway(s, steps, p)
    decreases steps
  {
    if steps != [] {
      GoneAfterStep(s, steps[0], p);
      GoneForGood(Apply(s, steps[0]), steps[1..], p);
    }
  }

  lemma {:induction false} GoneAfterStep(s: State, step: Step, p: Path)
    requires Enabled(s, step) && p in s.used && p !in s.files
    ensures p in Apply(s, step).used && p !in Apply(s, step).files
  {
  }

  /** What a step does to a file whose upload it does not refuse. */
  lemma {:induction false} StepSweeps(s: State, step: Step, id: int, p: Path)
    requires Sound(s) && Enabled(s, step) && p in s.files
    requires id in s.uploads && p in Paths(s.uploads[id]) && !Apply(s, step).uploads[id].Refused?
    ensures p in Apply(s, step).used && (p !in Apply(s, step).files <==> Overdue(s, step, p))
  {
    StepRemoves(s, step, p);
    forall j | j in s.uploads && p in Paths(s.uploads[j]) ensures j == id {}
    if step.Cleanup? { assert s.files[p].modified >= 0.0; }
  }

  /** A file of the upload that is there stays exactly until a clean-up finds it overdue. */
  lemma {:induction false} LostIffSwept(s: State, steps: seq<Step>, id: int, p: Path)
    requires Sound(s) && Possible(s, steps) && p in s.files
    requires id in s.uploads && p in Paths(s.uploads[id])
    requires id in Run(s, steps).uploads && !Run(s, steps).uploads[id].Refused?
    ensures p !in Run(s, steps).files <==> SweptAway(s, steps, p)
    decreases steps
  {
    if steps != [] {
      var t, rest := Apply(s, steps[0]), steps[1..];
      StepKeepsSound(s, steps[0]);
      RefusedStays(s, [steps[0]], id);
      RefusedStays(t, rest, id);
      StepSweeps(s, steps[0], id, p);
      if p in t.files {
        StepPaths(s, steps[0], id);
        LostIffSwept(t, rest, id, p);
      } else {
        GoneForGood(t, rest, p);
      }
    }
  }

  /** A file that is an upload's in the end, and whose name has been drawn, is that upload's already. */
  lemma {:induction false} OwnedBefore(s: State, steps: seq<Step>, id: int, p: Path)
    requires Sound(s) && Possible(s, steps) && p in s.used
    requires id in Run(s, steps).uploads && p in Paths(Run(s, steps).uploads[id])
    ensures id in s.uploads && p in Paths(s.uploads[id])
    decreases steps
  {
    if steps != [] {
      StepKeepsSound(s, steps[0]);
      OwnedBefore(Apply(s, steps[0]), steps[1..], id, p);
      OwnershipKept(s, steps[0], p);
    }
  }

  /** A file of an upload is missing in the end exactly if some clean-up has found it overdue. */
  lemma {:induction false} MissingIffSwept(s: State, steps: seq<Step>, id: int, p: Path)
    requires Sound(s) && Possible(s, steps) && (id in s.uploads ==> p !in Paths(s.uploads[id]))
    requires id in Run(s, steps).uploads && p in Paths(Run(s, steps).uploads[id])
    ensures p !in Run(s, steps).files <==> SweptAway(s, steps, p)
    decreases steps
  {
    if p in s.used { OwnedBefore(s, steps, id, p); }
    var t, rest := Apply(s, steps[0]), steps[1..];
    StepKeepsSound(s, steps[0]);
    if id in t.uploads && p in Paths(t.uploads[id]) {
      if id in s.uploads { StepPaths(s, steps[0], id); }
      LostIffSwept(t, rest, id, p);
    } else {
      MissingIffSwept(t, rest, id, p);
    }
  }

  /**
   An upload that is not refused, in particular one that is accepted, is complete in
   the end exactly if no clean-up has found one of its files overdue.
   */
  lemma {:induction false} IntactIffNotSwept(s: State, steps: seq<Step>, id: int)
    requires Sound(s) && Possible(s, steps) && id !in s.uploads
    requires id in Run(s, steps).uploads && Run(s, steps).uploads[id].Storing?
    ensures var r := Run(s, steps).uploads[id].receiver;
      Intact(Run(s, steps), r) <==> forall k :: 0 <= k < |r.stored| ==> !SweptAway(s, steps, r.stored[k].path)
  {
    HistoryIsSound(s, steps);
    var t := Run(s, steps);
    var r := t.uploads[id].receiver;
    assert UploadSound(t, t.uploads[id]);
    forall k | 0 <= k < |r.stored| ensures !Present(t, r, k) <==> SweptAway(s, steps, r.stored[k].path) {
      MissingIffSwept(s, steps, id, r.stored[k].path);
    }
  }
}
