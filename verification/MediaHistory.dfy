/**
 The media directory over time: any number of uploads, whose messages interleave,
 and of requests that carry their files and store them one by one; uploads dropped
 by their caller; and the clean-up that runs every RETENTION seconds. Clocks are
 ideal: a tick is never late, and a write stamps its file with the current time.
 */
module MediaHistory {
  import opened Wrappers
  import opened UploadProtocol

  type Time = real

  const RETENTION: Time := 600.0

  datatype File = File(data: Bytes, modified: Time)
  type Files = map<Path, File>

  /**
   An upload: before its first message, with files stored (still receiving,
   accepted, or dropped without an answer), or refused. It is received in chunks, or
   inline, in a request that carries the files; then the receiver has only the files
   and their bytes. `since` is when its metadata or its first file arrived.
   */
  datatype Kind = Chunked | Inline
  datatype Ending = Receiving | Accepted | Dropped
  datatype Upload = Waiting | Storing(kind: Kind, receiver: Receiver, since: Time, ending: Ending) | Refused

  /** What becomes of a file that is written as a whole: a write that fails leaves a part of it. */
  datatype Fate = Works | CreationFails | WriteFails(part: Bytes)

  datatype State = State(now: Time, nextTick: Time, files: Files, uploads: map<int, Upload>, used: set<Path>)

  /** `path` is the name drawn for a new file; `fails` is the fate of the disk operation. */
  datatype Step =
    | Open(id: int)
    | Deliver(id: int, item: Item, path: Path, fails: bool)
    | End(id: int)
    | Drop(id: int)
    | Put(id: int, data: Bytes, path: Path, fate: Fate)
    | Wait(until: Time)
    | Cleanup

  function Paths(u: Upload): set<Path> {
    if u.Storing? then PathsOf(u.receiver.stored) else {}
  }

  predicate Receives(s: State, id: int) {
    id in s.uploads && (s.uploads[id].Waiting? || (s.uploads[id].Storing? && s.uploads[id].ending == Receiving))
  }

  predicate ReceivesAs(s: State, id: int, kind: Kind) {
    Receives(s, id) && (s.uploads[id].Storing? ==> s.uploads[id].kind == kind)
  }

  /** Names are fresh, only open uploads receive, and time does not pass a tick that is due. */
  predicate Enabled(s: State, step: Step) {
    match step
    case Open(id) => id !in s.uploads
    case Deliver(id, _, path, _) => ReceivesAs(s, id, Chunked) && path !in s.used
    case Put(id, data, path, fate) =>
      ReceivesAs(s, id, Inline) && path !in s.used && (fate.WriteFails? ==> fate.part <= data)
    case End(id) => Receives(s, id)
    case Drop(id) => Receives(s, id)
    case Wait(until) => s.now <= until <= s.nextTick
    case Cleanup => s.now == s.nextTick
  }

  /** Bytes written to a file; a file that is gone stays gone, and an empty write is none. */
  function Written(files: Files, path: Path, data: Bytes, now: Time): Files {
    if path in files && data != [] then files[path := File(files[path].data + data, now)] else files
  }

  /** The disk after a message that was taken. */
  function AfterItem(files: Files, r: Receiver, item: Item, path: Path, now: Time): Files {
    match item
    case Request(Some(FileMetadata(_, _, _))) => files[path := File([], now)]
    case Request(Some(Chunk(data))) =>
      if r.stored == [] then files else Written(files, r.stored[|r.stored| - 1].path, data, now)
    case _ => files
  }

  /** An upload refused: its files are removed. */
  function Refuse(s: State, id: int): State
    requires id in s.uploads
  {
    s.(files := s.files - Paths(s.uploads[id]), uploads := s.uploads[id := Refused])
  }

  function DeliverTo(s: State, id: int, item: Item, path: Path, fails: bool): State
    requires ReceivesAs(s, id, Chunked)
  {
    match s.uploads[id]
    case Storing(_, r, since, _) =>
      (match Take(r, item, path, fails)
       case Err(_) => Refuse(s, id)
       case Ok(next) =>
         s.(files := AfterItem(s.files, r, item, path, s.now),
            uploads := s.uploads[id := Storing(Chunked, next, since, Receiving)],
            used := s.used + {path}))
    case _ =>
      match Begin([item])
      case Err(_) => Refuse(s, id)
      case Ok(first) => s.(uploads := s.uploads[id := Storing(Chunked, first, s.now, Receiving)])
  }

  /** What an inline upload has stored so far: nothing, before its first file. */
  function SoFar(u: Upload): Receiver {
    if u.Storing? then u.receiver else Receiver(0, 0, SINGLE, None, [], [], 0)
  }

  /** The next file of an inline upload. A file whose own write fails is not among those removed. */
  function PutFile(s: State, id: int, data: Bytes, path: Path, fate: Fate): State
    requires ReceivesAs(s, id, Inline)
  {
    if data == [] then Refuse(s, id)
    else
      match fate
      case CreationFails => Refuse(s, id)
      case WriteFails(part) =>
        var t := Refuse(s, id);
        t.(files := t.files[path := File(part, s.now)], used := t.used + {path})
      case Works =>
        var r := SoFar(s.uploads[id]);
        var next := r.(stored := r.stored + [MediaFile(path, DEFAULT_MIME, None)], contents := r.contents + [data]);
        var since := if s.uploads[id].Storing? then s.uploads[id].since else s.now;
        s.(files := s.files[path := File(data, s.now)],
           uploads := s.uploads[id := Storing(Inline, next, since, Receiving)],
           used := s.used + {path})
  }

  function EndOf(s: State, id: int): State
    requires Receives(s, id)
  {
    match s.uploads[id]
    case Storing(kind, r, since, _) =>
      if kind.Inline? || Finish(r).Ok? then s.(uploads := s.uploads[id := Storing(kind, r, since, Accepted)])
      else Refuse(s, id)
    case _ => Refuse(s, id)
  }

  /** The oldest modification time that is kept. */
  function Cutoff(now: Time): Time {
    if now >= RETENTION then now - RETENTION else 0.0
  }

  function Swept(files: Files, now: Time): Files {
    map p | p in files && files[p].modified >= Cutoff(now) :: files[p]
  }

  function Apply(s: State, step: Step): State
    requires Enabled(s, step)
  {
    match step
    case Open(id) => s.(uploads := s.uploads[id := Waiting])
    case Deliver(id, item, path, fails) => DeliverTo(s, id, item, path, fails)
    case End(id) => EndOf(s, id)
    case Drop(id) =>
      if s.uploads[id].Storing? then s.(uploads := s.uploads[id := s.uploads[id].(ending := Dropped)])
      else s.(uploads := s.uploads[id := Refused])
    case Put(id, data, path, fate) => PutFile(s, id, data, path, fate)
    case Wait(until) => s.(now := until)
    case Cleanup => s.(files := Swept(s.files, s.now), nextTick := s.nextTick + RETENTION)
  }

  ghost predicate Possible(s: State, steps: seq<Step>)
    decreases steps
  {
    steps == [] || (Enabled(s, steps[0]) && Possible(Apply(s, steps[0]), steps[1..]))
  }

  ghost function Run(s: State, steps: seq<Step>): State
    requires Possible(s, steps)
    decreases steps
  {
    if steps == [] then s else Run(Apply(s, steps[0]), steps[1..])
  }
}
