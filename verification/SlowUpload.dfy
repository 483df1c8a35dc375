/**
 An accepted upload whose first file is gone: it took longer than RETENTION, and a
 clean-up came by between its files.
 */
module SlowUpload {
  import opened Wrappers
  import opened UploadProtocol
  import opened MediaHistory
  import opened MediaSafety

  /** The server has just started and made its first clean-up. */
  const START := State(0.0, RETENTION, map[], map[], {})

  const METADATA := Request(Some(Metadata(0, 2, MULTIPLE)))
  const ANNOUNCE := Request(Some(FileMetadata("", 1, "")))
  const ONE_BYTE := Request(Some(Chunk([0])))

  /** An upload of two files of one byte, with two clean-ups in between. */
  const OPENING := [Open(0), Wait(1.0), Deliver(0, METADATA, "m", false)]
  const FIRST_FILE := [Deliver(0, ANNOUNCE, "first", false), Deliver(0, ONE_BYTE, "c", false)]
  const TWO_CLEANUPS := [Wait(600.0), Cleanup, Wait(1200.0), Cleanup]
  const SECOND_FILE := [Deliver(0, ANNOUNCE, "second", false), Deliver(0, ONE_BYTE, "d", false), End(0)]

  /** The upload is under way, with some files stored and the last one open or not. */
  ghost predicate Under(s: State, current: Option<Current>, stored: nat) {
    && 0 in s.uploads && s.uploads[0].Storing? && s.uploads[0].kind == Chunked && s.uploads[0].ending == Receiving
    && var r := s.uploads[0].receiver;
       r.expectedCount == 2 && r.current == current && |r.stored| == |r.contents| == stored
       && (stored > 0 ==> r.stored[0].path == "first")
  }

  /** One step of a list of steps, from position k on. */
  lemma {:induction false} RunStep(s: State, steps: seq<Step>, k: nat) returns (t: State)
    requires k < |steps| && Enabled(s, steps[k])
    ensures t == Apply(s, steps[k])
    ensures Possible(t, steps[k + 1..]) ==>
              Possible(s, steps[k..]) && Run(s, steps[k..]) == Run(t, steps[k + 1..])
  {
    t := Apply(s, steps[k]);
    assert steps[k..][0] == steps[k] && steps[k..][1..] == steps[k + 1..];
  }

  lemma {:induction false} RunConcat(s: State, a: seq<Step>, b: seq<Step>)
    requires Possible(s, a) && Possible(Run(s, a), b)
    ensures Possible(s, a + b) && Run(s, a + b) == Run(Run(s, a), b)
    decreases a
  {
    if a == [] {
      assert a + b == b;
    } else {
      RunConcat(Apply(s, a[0]), a[1..], b);
      assert (a + b)[1..] == a[1..] + b;
    }
  }

  lemma {:induction false} Opened() returns (s: State)
    ensures Possible(START, OPENING) && Run(START, OPENING) == s
    ensures Under(s, None, 0) && s.used == {} && s.files == map[] && s.now == 1.0 && s.nextTick == 600.0
  {
    assert OPENING[0..] == OPENING && OPENING[3..] == [];
    s := RunStep(START, OPENING, 0);
    s := RunStep(s, OPENING, 1);
    s := RunStep(s, OPENING, 2);
  }

  lemma {:induction false} FirstFileStored(s: State) returns (t: State)
    requires Under(s, None, 0) && s.used == {} && s.files == map[] && s.now == 1.0 && s.nextTick == 600.0
    ensures Possible(s, FIRST_FILE) && Run(s, FIRST_FILE) == t
    ensures Under(t, None, 1) && t.used == {"first", "c"}
    ensures t.now == 1.0 && t.nextTick == 600.0 && "first" in t.files && t.files["first"].modified == 1.0
  {
    assert FIRST_FILE[0..] == FIRST_FILE && FIRST_FILE[2..] == [];
    t := RunStep(s, FIRST_FILE, 0);
    assert Under(t, Some(Current(1, 0)), 1) && t.used == {"first"} && t.files == map["first" := File([], 1.0)];
    t := RunStep(t, FIRST_FILE, 1);
  }

  lemma {:induction false} FirstFileSwept(s: State) returns (t: State)
    requires Under(s, None, 1) && s.now == 1.0 && s.nextTick == 600.0
    requires "first" in s.files && s.files["first"].modified == 1.0
    ensures Possible(s, TWO_CLEANUPS) && Run(s, TWO_CLEANUPS) == t
    ensures Under(t, None, 1) && t.used == s.used && "first" !in t.files
  {
    assert TWO_CLEANUPS[0..] == TWO_CLEANUPS && TWO_CLEANUPS[4..] == [];
    t := RunStep(s, TWO_CLEANUPS, 0);
    t := RunStep(t, TWO_CLEANUPS, 1);
    t := RunStep(t, TWO_CLEANUPS, 2);
    t := RunStep(t, TWO_CLEANUPS, 3);
  }

  lemma {:induction false} SecondFileStored(s: State) returns (t: State)
    requires Under(s, None, 1) && s.used == {"first", "c"} && "first" !in s.files
    ensures Possible(s, SECOND_FILE) && Run(s, SECOND_FILE) == t
    ensures 0 in t.uploads && t.uploads[0].Storing? && t.uploads[0].ending == Accepted
    ensures var r := t.uploads[0].receiver; |r.stored| == 2 && r.stored[0].path == "first" && "first" !in t.files
  {
    assert SECOND_FILE[0..] == SECOND_FILE && SECOND_FILE[3..] == [];
    t := RunStep(s, SECOND_FILE, 0);
    assert Under(t, Some(Current(1, 0)), 2) && "first" !in t.files && t.used == {"first", "c", "second"};
    t := RunStep(t, SECOND_FILE, 1);
    assert Under(t, None, 2) && "first" !in t.files;
    t := RunStep(t, SECOND_FILE, 2);
  }

  /** The upload is accepted, and its first file is gone. */
  lemma {:induction false} AcceptedButIncomplete()
    ensures Sound(START)
    ensures var steps := ((OPENING + FIRST_FILE) + TWO_CLEANUPS) + SECOND_FILE;
      && Possible(START, steps)
      && var end := Run(START, steps);
         && 0 in end.uploads && end.uploads[0].Storing? && end.uploads[0].ending == Accepted
         && var r := end.uploads[0].receiver;
            |r.stored| == 2 && r.stored[0].path !in end.files
  {
    var s := Opened();
    var t := FirstFileStored(s);
    var u := FirstFileSwept(t);
    var v := SecondFileStored(u);
    RunConcat(START, OPENING, FIRST_FILE);
    RunConcat(START, OPENING + FIRST_FILE, TWO_CLEANUPS);
    RunConcat(START, (OPENING + FIRST_FILE) + TWO_CLEANUPS, SECOND_FILE);
  }
}
