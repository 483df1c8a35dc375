/** What holds in every history of the media directory. */
module MediaSafety {
  import opened Wrappers
  import opened UploadProtocol
  import opened MediaHistory

  /** File i of an upload is there. */
  predicate Present(s: State, r: Receiver, k: nat)
    requires k < |r.stored|
  {
    r.stored[k].path in s.files
  }

  /** The state of an upload that stores files makes sense. */
  ghost predicate WellKept(s: State, r: Receiver) {
    && |r.contents| == |r.stored| && (r.current.Some? ==> r.stored != [])
    && (forall k :: 0 <= k < |r.stored| ==> r.stored[k].path in s.used)
    && (forall k, l :: 0 <= k < l < |r.stored| ==> r.stored[k].path != r.stored[l].path)
  }

  /** A file of the upload that is there holds exactly the bytes received for it. */
  ghost predicate Exact(s: State, r: Receiver) {
    |r.contents| == |r.stored| &&
    forall k: nat :: k < |r.stored| && Present(s, r, k) ==> s.files[r.stored[k].path].data == r.contents[k]
  }

  /** For RETENTION after the metadata, every file of the upload is there. */
  ghost predicate Retained(s: State, r: Receiver, since: Time) {
    s.now <= since + RETENTION ==>
      forall k: nat :: k < |r.stored| ==> Present(s, r, k) && s.files[r.stored[k].path].modified >= since
  }

  ghost predicate UploadSound(s: State, u: Upload) {
    u.Storing? ==>
      WellKept(s, u.receiver) && Exact(s, u.receiver) && Retained(s, u.receiver, u.since) && 0.0 <= u.since <= s.now
  }

  ghost predicate Disjoint(uploads: map<int, Upload>) {
    forall i, j :: i in uploads && j in uploads && i != j ==> Paths(uploads[i]) !! Paths(uploads[j])
  }

  ghost predicate FilesSound(s: State) {
    0.0 <= s.now && forall p :: p in s.files ==> p in s.used && 0.0 <= s.files[p].modified <= s.now
  }

  ghost predicate Sound(s: State) {
    FilesSound(s) && Disjoint(s.uploads) && forall id :: id in s.uploads ==> UploadSound(s, s.uploads[id])
  }

  /** Two directories agree on some paths. */
  ghost predicate Agree(a: Files, b: Files, paths: set<Path>) {
    forall p :: p in paths ==> (p in a <==> p in b) && (p in a ==> a[p] == b[p])
  }

  /** An upload does not notice changes to other files. */
  lemma {:induction false} Unaffected(s: State, t: State, u: Upload)
    requires UploadSound(s, u) && s.now == t.now && s.used <= t.used && Agree(s.files, t.files, Paths(u))
    ensures UploadSound(t, u)
  {
    if u.Storing? {
      forall k: nat | k < |u.receiver.stored| ensures u.receiver.stored[k].path in Paths(u) {}
    }
  }

  lemma {:induction false} PathsAreUsed(s: State, id: int)
    requires Sound(s) && id in s.uploads
    ensures Paths(s.uploads[id]) <= s.used
  {
    assert UploadSound(s, s.uploads[id]);
  }

  lemma {:induction false} OneMorePath(stored: seq<MediaFile>, file: MediaFile)
    ensures PathsOf(stored + [file]) == PathsOf(stored) + {file.path}
  {
    var more := stored + [file];
    assert more[|stored|] == file && forall k :: 0 <= k < |stored| ==> more[k] == stored[k];
  }

  lemma {:induction false} RefuseKeepsSound(s: State, id: int)
    requires Sound(s) && id in s.uploads
    ensures Sound(Refuse(s, id))
  {
    var t := Refuse(s, id);
    forall j | j in t.uploads ensures UploadSound(t, t.uploads[j]) {
      if j != id { Unaffected(s, t, s.uploads[j]); }
    }
  }

  /** One upload moves on; the others keep their files. */
  lemma {:induction false} ProgressKeepsSound(s: State, t: State, id: int, u: Upload, path: Path)
    requires Sound(s) && id in s.uploads && path !in s.used
    requires t.now == s.now && t.uploads == s.uploads[id := u] && t.used == s.used + {path}
    requires Paths(s.uploads[id]) <= Paths(u) <= Paths(s.uploads[id]) + {path}
    requires Agree(s.files, t.files, s.used - Paths(s.uploads[id]))
    requires FilesSound(t) && UploadSound(t, u)
    ensures Sound(t)
  {
    forall j | j in t.uploads ensures UploadSound(t, t.uploads[j]) && (j != id ==> Paths(t.uploads[j]) !! Paths(u)) {
      if j != id {
        PathsAreUsed(s, j);
        Unaffected(s, t, s.uploads[j]);
      }
    }
  }

  /** What an upload has stored makes sense, and it began at the given time. */
  ghost predicate StoresSince(s: State, id: int, r: Receiver, since: Time) {
    && id in s.uploads && PathsOf(r.stored) == Paths(s.uploads[id])
    && WellKept(s, r) && Exact(s, r) && Retained(s, r, since) && 0.0 <= since <= s.now
  }

  /** One more file for the upload. */
  ghost predicate OneMoreFile(r: Receiver, next: Receiver, path: Path, data: Bytes) {
    && |next.stored| == |r.stored| + 1 && next.stored[..|r.stored|] == r.stored && next.stored[|r.stored|].path == path
    && next.contents == r.contents + [data]
  }

  lemma {:induction false} FileKeepsSound(s: State, id: int, r: Receiver, since: Time, kind: Kind, next: Receiver,
                                          path: Path, data: Bytes)
    requires Sound(s) && StoresSince(s, id, r, since) && path !in s.used && OneMoreFile(r, next, path, data)
    ensures Sound(s.(files := s.files[path := File(data, s.now)],
                     uploads := s.uploads[id := Storing(kind, next, since, Receiving)],
                     used := s.used + {path}))
  {
    var u := Storing(kind, next, since, Receiving);
    var t := s.(files := s.files[path := File(data, s.now)], uploads := s.uploads[id := u], used := s.used + {path});
    FileAnnounced(s, t, id, r, since, kind, next, path, data);
    assert Paths(s.uploads[id]) <= Paths(u) <= Paths(s.uploads[id]) + {path} by {
      assert forall k: nat :: k < |r.stored| ==> next.stored[k] == next.stored[..|r.stored|][k] == r.stored[k];
    }
    ProgressKeepsSound(s, t, id, u, path);
  }

  /** An upload with one more file, which is new. */
  lemma {:induction false} FileAnnounced(s: State, t: State, id: int, r: Receiver, since: Time, kind: Kind,
                                         next: Receiver, path: Path, data: Bytes)
    requires FilesSound(s) && StoresSince(s, id, r, since) && path !in s.used
    requires t.now == s.now && t.used == s.used + {path} && t.files == s.files[path := File(data, s.now)]
    requires OneMoreFile(r, next, path, data)
    ensures UploadSound(t, Storing(kind, next, since, Receiving)) && FilesSound(t)
  {
    assert forall k: nat :: k < |r.stored| ==> next.stored[k] == next.stored[..|r.stored|][k] == r.stored[k];
    assert forall k: nat :: k < |r.stored| ==> next.stored[k].path != path;
  }

  lemma {:induction false} ChunkKeepsSound(s: State, id: int, r: Receiver, since: Time, data: Bytes, path: Path)
    requires Sound(s) && id in s.uploads && s.uploads[id] == Storing(Chunked, r, since, Receiving) && path !in s.used
    requires TakeChunk(r, data, false).Ok?
    ensures Sound(s.(files := Written(s.files, r.stored[|r.stored| - 1].path, data, s.now),
                     uploads := s.uploads[id := Storing(Chunked, TakeChunk(r, data, false).value, since, Receiving)],
                     used := s.used + {path}))
  {
    assert UploadSound(s, s.uploads[id]);
    var n := |r.stored| - 1;
    var last := r.stored[n].path;
    var next := TakeChunk(r, data, false).value;
    var u := Storing(Chunked, next, since, Receiving);
    var t := s.(files := Written(s.files, last, data, s.now), uploads := s.uploads[id := u], used := s.used + {path});
    assert last in Paths(s.uploads[id]);
    forall k: nat | k < |r.stored| && Present(t, next, k)
      ensures t.files[next.stored[k].path].data == next.contents[k]
    {
      assert Present(s, r, k);
      if k == n {
        assert data == [] ==> r.contents[n] + data == r.contents[n];
      }
    }
    assert UploadSound(t, u);
    ProgressKeepsSound(s, t, id, u, path);
  }

  lemma {:induction false} BeginKeepsSound(s: State, id: int, first: Receiver, path: Path)
    requires Sound(s) && id in s.uploads && s.uploads[id].Waiting?
    requires first.stored == [] && first.contents == [] && first.current.None?
    ensures Sound(s.(uploads := s.uploads[id := Storing(Chunked, first, s.now, Receiving)]))
  {
    var u := Storing(Chunked, first, s.now, Receiving);
    var t := s.(uploads := s.uploads[id := u]);
    forall j | j in t.uploads ensures UploadSound(t, t.uploads[j]) {
      if j != id { Unaffected(s, t, s.uploads[j]); }
    }
  }

  lemma {:induction false} DeliverKeepsSound(s: State, id: int, item: Item, path: Path, fails: bool)
    requires Sound(s) && ReceivesAs(s, id, Chunked) && path !in s.used
    ensures Sound(DeliverTo(s, id, item, path, fails))
  {
    RefuseKeepsSound(s, id);
    var u := s.uploads[id];
    if u.Storing? {
      TakeKeepsSound(s, id, u.receiver, u.since, item, path, fails);
    } else {
      match Begin([item])
      case Ok(first) => BeginKeepsSound(s, id, first, path);
      case Err(_) =>
    }
  }

  lemma {:induction false} TakeKeepsSound(s: State, id: int, r: Receiver, since: Time, item: Item, path: Path,
                                          fails: bool)
    requires Sound(s) && ReceivesAs(s, id, Chunked) && path !in s.used
    requires s.uploads[id] == Storing(Chunked, r, since, Receiving)
    ensures Sound(DeliverTo(s, id, item, path, fails))
  {
    RefuseKeepsSound(s, id);
    if Take(r, item, path, fails).Ok? {
      match item.payload
      case Some(FileMetadata(fileName, size, contentType)) =>
        assert UploadSound(s, s.uploads[id]);
        var next := TakeFile(r, fileName, size, contentType, path, false).value;
        FileKeepsSound(s, id, r, since, Chunked, next, path, []);
      case Some(Chunk(data)) =>
        assert UploadSound(s, s.uploads[id]);
        ChunkKeepsSound(s, id, r, since, data, path);
    }
  }

  /** Ending or dropping an upload does not touch its files. */
  lemma {:induction false} EndingKeepsSound(s: State, id: int, ending: Ending)
    requires Sound(s) && id in s.uploads && s.uploads[id].Storing?
    ensures Sound(s.(uploads := s.uploads[id := s.uploads[id].(ending := ending)]))
  {
    var u := s.uploads[id].(ending := ending);
    var t := s.(uploads := s.uploads[id := u]);
    assert UploadSound(s, s.uploads[id]) && Paths(u) == Paths(s.uploads[id]);
    forall j | j in t.uploads ensures UploadSound(t, t.uploads[j]) {
      if j != id { Unaffected(s, t, s.uploads[j]); }
    }
  }

  /** A file left behind by a write that failed belongs to no upload. */
  lemma {:induction false} LeftoverKeepsSound(s: State, path: Path, data: Bytes)
    requires Sound(s) && path !in s.used
    ensures Sound(s.(files := s.files[path := File(data, s.now)], used := s.used + {path}))
  {
    var t := s.(files := s.files[path := File(data, s.now)], used := s.used + {path});
    forall j | j in t.uploads ensures UploadSound(t, t.uploads[j]) {
      PathsAreUsed(s, j);
      Unaffected(s, t, s.uploads[j]);
    }
  }

  lemma {:induction false} PutKeepsSound(s: State, id: int, data: Bytes, path: Path, fate: Fate)
    requires Sound(s) && ReceivesAs(s, id, Inline) && path !in s.used
    ensures Sound(PutFile(s, id, data, path, fate))
  {
    RefuseKeepsSound(s, id);
    if data != [] && fate.WriteFails? {
      LeftoverKeepsSound(Refuse(s, id), path, fate.part);
    }
    if data != [] && fate.Works? {
      assert UploadSound(s, s.uploads[id]);
      var r := SoFar(s.uploads[id]);
      var since := if s.uploads[id].Storing? then s.uploads[id].since else s.now;
      var next := r.(stored := r.stored + [MediaFile(path, DEFAULT_MIME, None)], contents := r.contents + [data]);
      FileKeepsSound(s, id, r, since, Inline, next, path, data);
    }
  }

  /** The clean-up only removes files last written more than RETENTION ago. */
  lemma {:induction false} CleanupKeepsSound(s: State)
    requires Sound(s)
    ensures Sound(s.(files := Swept(s.files, s.now), nextTick := s.nextTick + RETENTION))
  {
    var t := s.(files := Swept(s.files, s.now), nextTick := s.nextTick + RETENTION);
    forall j | j in t.uploads ensures UploadSound(t, t.uploads[j]) {
      assert UploadSound(s, s.uploads[j]);
      if t.uploads[j].Storing? {
        assert Exact(t, t.uploads[j].receiver);
        assert Retained(t, t.uploads[j].receiver, t.uploads[j].since);
      }
    }
  }

  lemma {:induction false} WaitKeepsSound(s: State, until: Time)
    requires Sound(s) && until >= s.now
    ensures Sound(s.(now := until))
  {
    var t := s.(now := until);
    forall j | j in t.uploads ensures UploadSound(t, t.uploads[j]) {
      assert UploadSound(s, s.uploads[j]);
      if t.uploads[j].Storing? {
        assert Exact(t, t.uploads[j].receiver);
      }
    }
  }

  lemma {:induction false} StepKeepsSound(s: State, step: Step)
    requires Sound(s) && Enabled(s, step)
    ensures Sound(Apply(s, step))
  {
    match step
    case Open(id) =>
      var t := Apply(s, step);
      forall j | j in t.uploads ensures UploadSound(t, t.uploads[j]) {
        if j != id { Unaffected(s, t, s.uploads[j]); }
      }
    case Deliver(id, item, path, fails) => DeliverKeepsSound(s, id, item, path, fails);
    case End(id) =>
      RefuseKeepsSound(s, id);
      if s.uploads[id].Storing? { EndingKeepsSound(s, id, Accepted); }
    case Drop(id) =>
      RefuseKeepsSound(s, id);
      if s.uploads[id].Storing? { EndingKeepsSound(s, id, Dropped); }
      else { assert s.files - {} == s.files; }
    case Put(id, data, path, fate) => PutKeepsSound(s, id, data, path, fate);
    case Wait(until) => WaitKeepsSound(s, until);
    case Cleanup => CleanupKeepsSound(s);
  }

  /**
   In every history, each upload's files that are there hold exactly the bytes it
   sent, whatever the other uploads and the clean-up do; and all of them are there
   while the upload is not older than RETENTION.
   */
  lemma {:induction false} HistoryIsSound(s: State, steps: seq<Step>)
    requires Sound(s) && Possible(s, steps)
    ensures Sound(Run(s, steps))
    decreases steps
  {
    if steps != [] {
      StepKeepsSound(s, steps[0]);
      HistoryIsSound(Apply(s, steps[0]), steps[1..]);
    }
  }

  /** Every file of the upload is there with the bytes received for it. */
  ghost predicate Intact(s: State, r: Receiver) {
    Exact(s, r) && forall k: nat :: k < |r.stored| ==> Present(s, r, k)
  }

  /** An upload accepted within RETENTION of its metadata is complete: every file announced, every byte received. */
  lemma {:induction false} AcceptedIsComplete(s: State, steps: seq<Step>, id: int)
    requires Sound(s) && Possible(s, steps) && id in Run(s, steps).uploads
    requires var u := Run(s, steps).uploads[id];
             u.Storing? && u.ending == Accepted && Run(s, steps).now <= u.since + RETENTION
    ensures Intact(Run(s, steps), Run(s, steps).uploads[id].receiver)
  {
    HistoryIsSound(s, steps);
    var t := Run(s, steps);
    assert UploadSound(t, t.uploads[id]);
  }
}
