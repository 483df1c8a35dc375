/**
 An upload that is refused leaves no trace: the directory, the other uploads and
 the clock are what they would have been had it never been made. The one exception
 is the file of a whole-file write that failed after creating it.
 */
module MediaErasure {
  import opened Wrappers
  import opened UploadProtocol
  import opened MediaHistory
  import opened MediaSafety

  predicate About(step: Step, id: int) {
    match step
    case Open(i) => i == id
    case Deliver(i, _, _, _) => i == id
    case Put(i, _, _, _) => i == id
    case End(i) => i == id
    case Drop(i) => i == id
    case _ => false
  }

  /** The history without one upload. */
  function Without(steps: seq<Step>, id: int): seq<Step> {
    if steps == [] then []
    else if About(steps[0], id) then Without(steps[1..], id)
    else [steps[0]] + Without(steps[1..], id)
  }

  /** The file that a step of the upload leaves behind, which no one will remove but the clean-up. */
  function LeftBy(step: Step, id: int): set<Path> {
    if step.Put? && step.id == id && step.data != [] && step.fate.WriteFails? then {step.path} else {}
  }

  function Leftovers(steps: seq<Step>, id: int): set<Path> {
    if steps == [] then {} else LeftBy(steps[0], id) + Leftovers(steps[1..], id)
  }

  /** What the steps of an upload received in chunks never leave. */
  lemma {:induction false} ChunkedLeavesNothing(steps: seq<Step>, id: int)
    requires forall step :: step in steps && step.Put? ==> step.id != id
    ensures Leftovers(steps, id) == {}
    decreases steps
  {
    if steps != [] {
      assert steps[0] in steps;
      ChunkedLeavesNothing(steps[1..], id);
    }
  }

  /** The files of an upload in a state. */
  function Owned(s: State, id: int): set<Path> {
    if id in s.uploads then Paths(s.uploads[id]) else {}
  }

  /** Names that were drawn for files that belong to no upload. */
  ghost predicate Ownerless(s: State, left: set<Path>) {
    left <= s.used && forall j :: j in s.uploads ==> Paths(s.uploads[j]) !! left
  }

  /** b is a without the upload, without its files and without what it left. */
  ghost predicate Erased(a: State, b: State, id: int, left: set<Path>) {
    && a.now == b.now && a.nextTick == b.nextTick
    && b.uploads == a.uploads - {id}
    && b.files == a.files - (Owned(a, id) + left)
    && b.used <= a.used && (Owned(a, id) + left) !! b.used
    && Ownerless(a, left)
  }

  /** A message taken changes only the upload's own files. */
  lemma {:induction false} TakeChangesOwn(files: Files, r: Receiver, item: Item, path: Path, fails: bool,
                                          next: Receiver, now: Time)
    requires Take(r, item, path, fails) == Ok(next) && path !in files && (r.current.Some? ==> r.stored != [])
    ensures PathsOf(r.stored) <= PathsOf(next.stored) <= PathsOf(r.stored) + {path}
    ensures AfterItem(files, r, item, path, now) - PathsOf(next.stored) == files - PathsOf(r.stored)
  {
    match item.payload
    case Some(FileMetadata(fileName, size, contentType)) =>
      OneMorePath(r.stored, Describe(path, fileName, contentType));
    case Some(Chunk(data)) =>
      assert r.stored[|r.stored| - 1].path in PathsOf(r.stored);
  }

  lemma {:induction false} OwnDeliverInvisible(a: State, b: State, id: int, left: set<Path>, item: Item, path: Path,
                                               fails: bool)
    requires Sound(a) && Erased(a, b, id, left) && ReceivesAs(a, id, Chunked) && path !in a.used
    ensures Erased(DeliverTo(a, id, item, path, fails), b, id, left)
  {
    var t := DeliverTo(a, id, item, path, fails);
    assert t.uploads - {id} == a.uploads - {id};
    if a.uploads[id].Storing? && t.uploads[id].Storing? {
      assert UploadSound(a, a.uploads[id]);
      var r, next := a.uploads[id].receiver, t.uploads[id].receiver;
      TakeChangesOwn(a.files, r, item, path, fails, next, a.now);
      assert t.files - (PathsOf(next.stored) + left) == (t.files - PathsOf(next.stored)) - left;
    }
  }

  lemma {:induction false} OwnPutInvisible(a: State, b: State, id: int, left: set<Path>, data: Bytes, path: Path,
                                           fate: Fate)
    requires Sound(a) && Erased(a, b, id, left) && ReceivesAs(a, id, Inline) && path !in a.used
    ensures Erased(PutFile(a, id, data, path, fate), b, id, left + LeftBy(Put(id, data, path, fate), id))
  {
    var t := PutFile(a, id, data, path, fate);
    assert t.uploads - {id} == a.uploads - {id};
    assert path !in a.files;
    if data != [] && fate.Works? {
      OneMorePath(SoFar(a.uploads[id]).stored, MediaFile(path, DEFAULT_MIME, None));
      assert Paths(t.uploads[id]) == Owned(a, id) + {path};
    }
  }

  lemma {:induction false} OwnStepInvisible(a: State, b: State, id: int, left: set<Path>, step: Step)
    requires Sound(a) && Erased(a, b, id, left) && Enabled(a, step) && About(step, id)
    ensures Erased(Apply(a, step), b, id, left + LeftBy(step, id))
  {
    assert left + {} == left;
    assert Apply(a, step).uploads - {id} == a.uploads - {id};
    if step.Deliver? {
      OwnDeliverInvisible(a, b, id, left, step.item, step.path, step.fails);
    } else if step.Put? {
      OwnPutInvisible(a, b, id, left, step.data, step.path, step.fate);
    }
  }

  /** A message of another upload has the same effect with and without the erased files. */
  lemma {:induction false} AfterItemWithout(files: Files, erased: set<Path>, r: Receiver, item: Item, path: Path,
                                            now: Time)
    requires path !in erased && PathsOf(r.stored) !! erased
    ensures AfterItem(files - erased, r, item, path, now) == AfterItem(files, r, item, path, now) - erased
  {
    match item
    case Request(Some(Chunk(data))) =>
      if r.stored != [] {
        assert r.stored[|r.stored| - 1].path in PathsOf(r.stored);
      }
    case _ =>
  }

  /** Another upload moves on, alike with and without the erased one. */
  lemma {:induction false} OtherMovesOn(a: State, b: State, id: int, left: set<Path>, j: int, u: Upload, files: Files,
                                        path: Path)
    requires Sound(a) && Erased(a, b, id, left) && j != id && j in a.uploads && path !in a.used
    requires Paths(u) <= Paths(a.uploads[j]) + {path}
    ensures j in b.uploads
    ensures var erased := Owned(a, id) + left;
            Erased(a.(files := files, uploads := a.uploads[j := u], used := a.used + {path}),
                   b.(files := files - erased, uploads := b.uploads[j := u], used := b.used + {path}), id, left)
  {
    if id in a.uploads { PathsAreUsed(a, id); }
    assert a.uploads[j := u] - {id} == b.uploads[j := u];
  }

  /** The same without a new name. */
  lemma {:induction false} OtherChanges(a: State, b: State, id: int, left: set<Path>, j: int, u: Upload)
    requires Erased(a, b, id, left) && j != id && j in a.uploads && Paths(u) <= Paths(a.uploads[j])
    ensures j in b.uploads
    ensures Erased(a.(uploads := a.uploads[j := u]), b.(uploads := b.uploads[j := u]), id, left)
  {
    assert a.uploads[j := u] - {id} == b.uploads[j := u];
  }

  lemma {:induction false} OtherRefused(a: State, b: State, id: int, left: set<Path>, j: int)
    requires Sound(a) && Erased(a, b, id, left) && j != id && j in a.uploads
    ensures j in b.uploads && Erased(Refuse(a, j), Refuse(b, j), id, left)
  {
    var erased := Owned(a, id) + left;
    assert a.uploads[j := Refused] - {id} == b.uploads[j := Refused];
    assert (a.files - erased) - Paths(a.uploads[j]) == (a.files - Paths(a.uploads[j])) - erased;
  }

  lemma {:induction false} OtherDeliver(a: State, b: State, id: int, left: set<Path>, j: int, item: Item, path: Path,
                                        fails: bool)
    requires Sound(a) && Erased(a, b, id, left) && j != id && ReceivesAs(a, j, Chunked) && path !in a.used
    ensures ReceivesAs(b, j, Chunked)
    ensures Erased(DeliverTo(a, j, item, path, fails), DeliverTo(b, j, item, path, fails), id, left)
  {
    OtherRefused(a, b, id, left, j);
    if id in a.uploads { PathsAreUsed(a, id); }
    assert b.uploads[j] == a.uploads[j];
    var u, erased := a.uploads[j], Owned(a, id) + left;
    if u.Storing? {
      var r, taken := u.receiver, Take(u.receiver, item, path, fails);
      AfterItemWithout(a.files, erased, r, item, path, a.now);
      if taken.Ok? {
        assert UploadSound(a, u);
        TakeChangesOwn(a.files, r, item, path, fails, taken.value, a.now);
        var next := Storing(Chunked, taken.value, u.since, Receiving);
        OtherMovesOn(a, b, id, left, j, next, AfterItem(a.files, r, item, path, a.now), path);
      }
    } else {
      match Begin([item])
      case Ok(first) => OtherChanges(a, b, id, left, j, Storing(Chunked, first, a.now, Receiving));
      case Err(_) =>
    }
  }

  lemma {:induction false} OtherLeaves(a: State, b: State, id: int, left: set<Path>, path: Path, file: File)
    requires Sound(a) && Erased(a, b, id, left) && path !in a.used
    ensures Erased(a.(files := a.files[path := file], used := a.used + {path}),
                   b.(files := b.files[path := file], used := b.used + {path}), id, left)
  {
    if id in a.uploads { PathsAreUsed(a, id); }
    assert a.files[path := file] - (Owned(a, id) + left) == (a.files - (Owned(a, id) + left))[path := file];
  }

  lemma {:induction false} OtherPut(a: State, b: State, id: int, left: set<Path>, j: int, data: Bytes, path: Path,
                                    fate: Fate)
    requires Sound(a) && Erased(a, b, id, left) && j != id && ReceivesAs(a, j, Inline) && path !in a.used
    ensures ReceivesAs(b, j, Inline)
    ensures Erased(PutFile(a, j, data, path, fate), PutFile(b, j, data, path, fate), id, left)
  {
    OtherRefused(a, b, id, left, j);
    if id in a.uploads { PathsAreUsed(a, id); }
    assert b.uploads[j] == a.uploads[j];
    if data != [] && fate.WriteFails? {
      RefuseKeepsSound(a, j);
      OtherLeaves(Refuse(a, j), Refuse(b, j), id, left, path, File(fate.part, a.now));
    }
    if data != [] && fate.Works? {
      var file, erased := File(data, a.now), Owned(a, id) + left;
      OneMorePath(SoFar(a.uploads[j]).stored, MediaFile(path, DEFAULT_MIME, None));
      assert a.files[path := file] - erased == (a.files - erased)[path := file];
      OtherMovesOn(a, b, id, left, j, PutFile(a, j, data, path, fate).uploads[j], a.files[path := file], path);
    }
  }

  lemma {:induction false} OtherEnds(a: State, b: State, id: int, left: set<Path>, j: int)
    requires Sound(a) && Erased(a, b, id, left) && j != id && Receives(a, j)
    ensures Receives(b, j) && b.uploads[j] == a.uploads[j]
    ensures Erased(EndOf(a, j), EndOf(b, j), id, left)
    ensures Erased(Apply(a, Drop(j)), Apply(b, Drop(j)), id, left)
  {
    OtherRefused(a, b, id, left, j);
    assert b.uploads[j] == a.uploads[j];
    OtherChanges(a, b, id, left, j, Refused);
    if a.uploads[j].Storing? {
      OtherChanges(a, b, id, left, j, a.uploads[j].(ending := Accepted));
      OtherChanges(a, b, id, left, j, a.uploads[j].(ending := Dropped));
    }
  }

  lemma {:induction false} SweptWithout(files: Files, erased: set<Path>, now: Time)
    ensures Swept(files - erased, now) == Swept(files, now) - erased
  {
  }

  lemma {:induction false} OtherStepSame(a: State, b: State, id: int, left: set<Path>, step: Step)
    requires Sound(a) && Erased(a, b, id, left) && Enabled(a, step) && !About(step, id)
    ensures Enabled(b, step) && Erased(Apply(a, step), Apply(b, step), id, left)
  {
    match step
    case Open(j) => assert a.uploads[j := Waiting] - {id} == b.uploads[j := Waiting];
    case Deliver(j, item, path, fails) => OtherDeliver(a, b, id, left, j, item, path, fails);
    case Put(j, data, path, fate) => OtherPut(a, b, id, left, j, data, path, fate);
    case End(j) => OtherEnds(a, b, id, left, j);
    case Drop(j) => OtherEnds(a, b, id, left, j);
    case Wait(until) =>
    case Cleanup => SweptWithout(a.files, Owned(a, id) + left, a.now);
  }

  lemma {:induction false} ErasedThroughout(a: State, b: State, id: int, left: set<Path>, steps: seq<Step>)
    requires Sound(a) && Erased(a, b, id, left) && Possible(a, steps)
    ensures Possible(b, Without(steps, id))
    ensures Erased(Run(a, steps), Run(b, Without(steps, id)), id, left + Leftovers(steps, id))
    decreases steps
  {
    assert left + {} == left;
    if steps != [] {
      var step, rest := steps[0], steps[1..];
      StepKeepsSound(a, step);
      if About(step, id) {
        OwnStepInvisible(a, b, id, left, step);
        ErasedThroughout(Apply(a, step), b, id, left + LeftBy(step, id), rest);
        assert left + Leftovers(steps, id) == (left + LeftBy(step, id)) + Leftovers(rest, id);
      } else {
        OtherStepSame(a, b, id, left, step);
        ErasedThroughout(Apply(a, step), Apply(b, step), id, left, rest);
        assert Leftovers(steps, id) == Leftovers(rest, id);
        assert Without(steps, id)[1..] == Without(rest, id);
      }
    }
  }

  /**
   The refused upload can be struck from the history without anyone noticing, but
   for the file that a failed whole-file write may have left.
   */
  lemma {:induction false} RefusedLeavesNoTrace(s: State, steps: seq<Step>, id: int)
    requires Sound(s) && id !in s.uploads && Possible(s, steps)
    requires id in Run(s, steps).uploads && Run(s, steps).uploads[id].Refused?
    ensures Possible(s, Without(steps, id))
    ensures var (with, without) := (Run(s, steps), Run(s, Without(steps, id)));
      && with.files - Leftovers(steps, id) == without.files
      && with.uploads - {id} == without.uploads
      && with.now == without.now
  {
    assert s.uploads - {id} == s.uploads && s.files - {} == s.files;
    ErasedThroughout(s, s, id, {}, steps);
    assert {} + Leftovers(steps, id) == Leftovers(steps, id);
  }
}
