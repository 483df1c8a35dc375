/**
 Which uploads are accepted: in every history, exactly those whose messages the
 protocol of UploadProtocol accepts, whatever comes between the messages; and what
 each step does to the directory.
 */
module MediaAcceptance {
  import opened Wrappers
  import opened UploadProtocol
  import opened MediaHistory

  /** A message delivered, with the name and the fate of the disk operation that it may cause. */
  datatype Delivery = Delivery(item: Item, path: Path, fails: bool)

  /** The messages that a history delivers to an upload. */
  function DeliveriesTo(steps: seq<Step>, id: int): seq<Delivery> {
    if steps == [] then [] else DeliveredBy(steps[0], id) + DeliveriesTo(steps[1..], id)
  }

  function DeliveredBy(step: Step, id: int): seq<Delivery> {
    if step.Deliver? && step.id == id then [Delivery(step.item, step.path, step.fails)] else []
  }

  /** The files that a history puts into an inline upload. */
  function PutsTo(steps: seq<Step>, id: int): seq<Bytes> {
    if steps == [] then [] else PutBy(steps[0], id) + PutsTo(steps[1..], id)
  }

  function PutBy(step: Step, id: int): seq<Bytes> {
    if step.Put? && step.id == id then [step.data] else []
  }

  function Items(deliveries: seq<Delivery>): (items: seq<Item>)
    ensures |items| == |deliveries| && forall i :: 0 <= i < |items| ==> items[i] == deliveries[i].item
  {
    if deliveries == [] then [] else [deliveries[0].item] + Items(deliveries[1..])
  }

  function TakeEach(s: Receiver, deliveries: seq<Delivery>): Result<Receiver, Status>
    decreases deliveries
  {
    if deliveries == [] then Ok(s)
    else
      match Take(s, deliveries[0].item, deliveries[0].path, deliveries[0].fails)
      case Err(status) => Err(status)
      case Ok(next) => TakeEach(next, deliveries[1..])
  }

  /** The receiver after the given messages, before the end of the stream. */
  function Received(deliveries: seq<Delivery>): Result<Receiver, Status> {
    match Begin(Items(deliveries))
    case Err(status) => Err(status)
    case Ok(first) => TakeEach(first, deliveries[1..])
  }

  lemma {:induction false} TakeOneMore(s: Receiver, deliveries: seq<Delivery>, d: Delivery)
    ensures var taken := TakeEach(s, deliveries);
            TakeEach(s, deliveries + [d]) == if taken.Ok? then Take(taken.value, d.item, d.path, d.fails) else taken
    decreases deliveries
  {
    if deliveries == [] {
      assert [] + [d] == [d] && [d][1..] == [];
    } else {
      assert (deliveries + [d])[1..] == deliveries[1..] + [d];
      var next := Take(s, deliveries[0].item, deliveries[0].path, deliveries[0].fails);
      if next.Ok? { TakeOneMore(next.value, deliveries[1..], d); }
    }
  }

  lemma {:induction false} ReceiveOneMore(deliveries: seq<Delivery>, d: Delivery)
    ensures deliveries == [] ==> Received(deliveries + [d]) == Begin([d.item])
    ensures deliveries != [] && Received(deliveries).Ok? ==>
              Received(deliveries + [d]) == Take(Received(deliveries).value, d.item, d.path, d.fails)
  {
    var more := deliveries + [d];
    if deliveries == [] {
      assert more[1..] == [];
    } else {
      assert more[1..] == deliveries[1..] + [d] && Items(more)[0] == Items(deliveries)[0];
      assert Begin(Items(more)) == Begin(Items(deliveries));
      if Received(deliveries).Ok? { TakeOneMore(Begin(Items(deliveries)).value, deliveries[1..], d); }
    }
  }

  /** The schedules only matter from the next name and the next operation on. */
  lemma {:induction false} SameFromHere(s: Receiver, items: seq<Item>, names: Names, faults: Faults, names': Names,
                                        faults': Faults)
    requires forall k: nat :: k >= |s.stored| ==> names(k) == names'(k)
    requires forall k: nat :: k >= s.operations ==> faults(k) == faults'(k)
    ensures TakeAll(s, items, names, faults) == TakeAll(s, items, names', faults')
    decreases items
  {
    if items != [] {
      var next := Take(s, items[0], names(|s.stored|), faults(s.operations));
      if next.Ok? { SameFromHere(next.value, items[1..], names, faults, names', faults'); }
    }
  }

  predicate IsFile(item: Item) {
    item.Request? && item.payload.Some? && item.payload.value.FileMetadata?
  }

  lemma {:induction false} OnlyFilesNeedNames(s: Receiver, item: Item, path: Path, other: Path, fails: bool)
    requires !IsFile(item)
    ensures Take(s, item, path, fails) == Take(s, item, other, fails)
  {
  }

  lemma {:induction false} ScheduleFirst(s: Receiver, d: Delivery, next: Receiver, rest: seq<Item>, later: Names,
                                         fates: Faults)
    returns (names: Names, faults: Faults)
    requires Take(s, d.item, d.path, d.fails) == Ok(next)
    ensures Take(s, d.item, names(|s.stored|), faults(s.operations)) == Ok(next)
    ensures TakeAll(next, rest, names, faults) == TakeAll(next, rest, later, fates)
  {
    names := (k: nat) => if k == |s.stored| && IsFile(d.item) then d.path else later(k);
    faults := (k: nat) => if k == s.operations then d.fails else fates(k);
    if !IsFile(d.item) { OnlyFilesNeedNames(s, d.item, d.path, names(|s.stored|), d.fails); }
    SameFromHere(next, rest, later, fates, names, faults);
  }

  /** The names and fates of the messages make up schedules, with which the protocol does the same. */
  lemma {:induction false} Schedules(s: Receiver, deliveries: seq<Delivery>) returns (names: Names, faults: Faults)
    ensures TakeEach(s, deliveries) == TakeAll(s, Items(deliveries), names, faults)
    decreases deliveries
  {
    names, faults := (k: nat) => "", (k: nat) => false;
    if deliveries != [] {
      var d := deliveries[0];
      var next := Take(s, d.item, d.path, d.fails);
      assert Items(deliveries)[0] == d.item && Items(deliveries)[1..] == Items(deliveries[1..]);
      if next.Err? {
        names, faults := (k: nat) => d.path, (k: nat) => d.fails;
      } else {
        var later, fates := Schedules(next.value, deliveries[1..]);
        names, faults := ScheduleFirst(s, d, next.value, Items(deliveries[1..]), later, fates);
      }
    }
  }

  lemma {:induction false} ReceivedByProtocol(deliveries: seq<Delivery>) returns (names: Names, faults: Faults)
    ensures var all, r := Received(deliveries), Receive(Items(deliveries), names, faults);
      && (all.Err? ==> r == Err(all.error))
      && (all.Ok? ==> r == Finish(all.value))
  {
    names, faults := (k: nat) => "", (k: nat) => false;
    var first := Begin(Items(deliveries));
    if first.Ok? {
      names, faults := Schedules(first.value, deliveries[1..]);
      assert Items(deliveries)[1..] == Items(deliveries[1..]);
    }
  }

  /** How an upload stands with what it was sent. */
  ghost predicate StandsWith(s: State, id: int, deliveries: seq<Delivery>, puts: seq<Bytes>) {
    if id !in s.uploads || s.uploads[id].Waiting? then deliveries == [] && puts == []
    else if s.uploads[id].Refused? then true
    else if s.uploads[id].kind == Chunked then
      && puts == [] && deliveries != [] && Received(deliveries) == Ok(s.uploads[id].receiver)
      && (s.uploads[id].ending == Accepted ==> Finish(s.uploads[id].receiver).Ok?)
    else
      deliveries == [] && puts != [] && s.uploads[id].receiver.contents == puts
      && |s.uploads[id].receiver.stored| == |puts|
  }

  lemma {:induction false} DeliverStands(s: State, id: int, item: Item, path: Path, fails: bool,
                                         deliveries: seq<Delivery>, puts: seq<Bytes>)
    requires ReceivesAs(s, id, Chunked) && StandsWith(s, id, deliveries, puts)
    ensures StandsWith(DeliverTo(s, id, item, path, fails), id, deliveries + [Delivery(item, path, fails)], puts)
  {
    ReceiveOneMore(deliveries, Delivery(item, path, fails));
  }

  lemma {:induction false} PutStands(s: State, id: int, data: Bytes, path: Path, fate: Fate,
                                     deliveries: seq<Delivery>, puts: seq<Bytes>)
    requires ReceivesAs(s, id, Inline) && StandsWith(s, id, deliveries, puts)
    ensures StandsWith(PutFile(s, id, data, path, fate), id, deliveries, puts + [data])
  {
  }

  lemma {:induction false} StepStands(s: State, step: Step, id: int, deliveries: seq<Delivery>, puts: seq<Bytes>)
    requires Enabled(s, step) && StandsWith(s, id, deliveries, puts)
    ensures StandsWith(Apply(s, step), id, deliveries + DeliveredBy(step, id), puts + PutBy(step, id))
  {
    assert deliveries + [] == deliveries && puts + [] == puts;
    if step.Deliver? && step.id == id {
      DeliverStands(s, id, step.item, step.path, step.fails, deliveries, puts);
    } else if step.Put? && step.id == id {
      PutStands(s, id, step.data, step.path, step.fate, deliveries, puts);
    }
  }

  lemma {:induction false} SentInTurn(steps: seq<Step>, id: int, deliveries: seq<Delivery>, puts: seq<Bytes>)
    requires steps != []
    ensures deliveries + DeliveriesTo(steps, id) ==
              (deliveries + DeliveredBy(steps[0], id)) + DeliveriesTo(steps[1..], id)
    ensures puts + PutsTo(steps, id) == (puts + PutBy(steps[0], id)) + PutsTo(steps[1..], id)
  {
  }

  lemma {:induction false} HistoryStandsFrom(s: State, steps: seq<Step>, id: int, deliveries: seq<Delivery>,
                                             puts: seq<Bytes>)
    requires Possible(s, steps) && StandsWith(s, id, deliveries, puts)
    ensures StandsWith(Run(s, steps), id, deliveries + DeliveriesTo(steps, id), puts + PutsTo(steps, id))
    decreases steps
  {
    if steps == [] {
      assert deliveries + [] == deliveries && puts + [] == puts;
    } else {
      StepStands(s, steps[0], id, deliveries, puts);
      SentInTurn(steps, id, deliveries, puts);
      HistoryStandsFrom(Apply(s, steps[0]), steps[1..], id, deliveries + DeliveredBy(steps[0], id),
                        puts + PutBy(steps[0], id));
    }
  }

  /** In every history, an upload stands with what it was sent. */
  lemma {:induction false} HistoryStands(s: State, steps: seq<Step>, id: int)
    requires Possible(s, steps) && id !in s.uploads
    ensures StandsWith(Run(s, steps), id, DeliveriesTo(steps, id), PutsTo(steps, id))
  {
    assert [] + DeliveriesTo(steps, id) == DeliveriesTo(steps, id) && [] + PutsTo(steps, id) == PutsTo(steps, id);
    HistoryStandsFrom(s, steps, id, [], []);
  }

  /**
   An accepted upload has all it announced: the protocol accepts the messages it was
   sent, with the outcome that the upload shows.
   */
  lemma {:induction false} AcceptedByProtocol(s: State, steps: seq<Step>, id: int)
    returns (names: Names, faults: Faults)
    requires Possible(s, steps) && id !in s.uploads && id in Run(s, steps).uploads
    requires var u := Run(s, steps).uploads[id]; u.Storing? && u.kind == Chunked && u.ending == Accepted
    ensures var r := Run(s, steps).uploads[id].receiver;
      && Receive(Items(DeliveriesTo(steps, id)), names, faults) == Ok(r)
      && r.current.None? && |r.stored| == r.expectedCount >= 1
  {
    HistoryStands(s, steps, id);
    names, faults := ReceivedByProtocol(DeliveriesTo(steps, id));
    CountKept(Begin(Items(DeliveriesTo(steps, id))).value, DeliveriesTo(steps, id)[1..]);
  }

  lemma {:induction false} CountKept(s: Receiver, deliveries: seq<Delivery>)
    ensures var all := TakeEach(s, deliveries); all.Ok? ==> all.value.expectedCount == s.expectedCount
    decreases deliveries
  {
    if deliveries != [] {
      var next := Take(s, deliveries[0].item, deliveries[0].path, deliveries[0].fails);
      if next.Ok? { CountKept(next.value, deliveries[1..]); }
    }
  }

  /** The upload ends accepted, and the directory stays as it is; or refused, and its files are removed. */
  ghost predicate Decided(s: State, t: State, id: int, accepted: bool)
    requires id in s.uploads
  {
    && id in t.uploads
    && if accepted then t.uploads[id].Storing? && t.uploads[id].ending == Accepted && t.files == s.files
       else t.uploads[id].Refused? && t.files == s.files - Paths(s.uploads[id])
  }

  /** The end of the stream accepts exactly what the protocol accepts. */
  lemma {:induction false} EndDecides(s: State, steps: seq<Step>, id: int) returns (names: Names, faults: Faults)
    requires Possible(s, steps) && id !in s.uploads && Enabled(Run(s, steps), End(id))
    requires ReceivesAs(Run(s, steps), id, Chunked)
    ensures var t := Run(s, steps);
            Decided(t, Apply(t, End(id)), id, Receive(Items(DeliveriesTo(steps, id)), names, faults).Ok?)
  {
    HistoryStands(s, steps, id);
    var deliveries := DeliveriesTo(steps, id);
    names, faults := ReceivedByProtocol(deliveries);
  }

  /** A message refuses its upload exactly if the protocol refuses the messages up to it. */
  lemma {:induction false} DeliverDecides(s: State, steps: seq<Step>, id: int, item: Item, path: Path, fails: bool)
    requires Possible(s, steps) && id !in s.uploads && Enabled(Run(s, steps), Deliver(id, item, path, fails))
    ensures var t := Run(s, steps);
            var u := Apply(t, Deliver(id, item, path, fails));
            var r := Received(DeliveriesTo(steps, id) + [Delivery(item, path, fails)]);
      && id in u.uploads
      && (r.Err? ==> u.uploads[id].Refused? && u.files == t.files - Paths(t.uploads[id]))
      && (r.Ok? ==> u.uploads[id].Storing? && u.uploads[id].receiver == r.value)
  {
    HistoryStands(s, steps, id);
    var deliveries := DeliveriesTo(steps, id);
    ReceiveOneMore(deliveries, Delivery(item, path, fails));
  }

  /** An inline upload that ends has at least one file, is accepted, and holds the files put into it. */
  lemma {:induction false} InlineAccepted(s: State, steps: seq<Step>, id: int)
    requires Possible(s, steps) && id !in s.uploads && Enabled(Run(s, steps), End(id))
    requires Run(s, steps).uploads[id].Storing? && Run(s, steps).uploads[id].kind == Inline
    ensures var t := Run(s, steps);
      && Decided(t, Apply(t, End(id)), id, true)
      && PutsTo(steps, id) != [] && t.uploads[id].receiver.contents == PutsTo(steps, id)
      && |t.uploads[id].receiver.stored| == |PutsTo(steps, id)|
  {
    HistoryStands(s, steps, id);
  }

  /** A file announced and taken is there, empty and new; a chunk taken is added to the last file, if that is there. */
  lemma {:induction false} TakenIsWritten(s: State, id: int, item: Item, path: Path, fails: bool)
    requires Enabled(s, Deliver(id, item, path, fails)) && s.uploads[id].Storing?
    requires Take(s.uploads[id].receiver, item, path, fails).Ok?
    ensures var t, stored := Apply(s, Deliver(id, item, path, fails)), s.uploads[id].receiver.stored;
      match item.payload
      case Some(FileMetadata(_, _, _)) => t.files == s.files[path := File([], s.now)]
      case Some(Chunk(data)) => stored != [] ==>
        var last := stored[|stored| - 1].path;
        if last in s.files && data != [] then t.files == s.files[last := File(s.files[last].data + data, s.now)]
        else t.files == s.files
      case _ => false
  {
  }

  /** What becomes of the directory when a file is put into an inline upload. */
  lemma {:induction false} PutIsWritten(s: State, id: int, data: Bytes, path: Path, fate: Fate)
    requires Enabled(s, Put(id, data, path, fate))
    ensures var t, kept := Apply(s, Put(id, data, path, fate)), s.files - Paths(s.uploads[id]);
      && (data == [] || fate.CreationFails? ==> t.uploads[id].Refused? && t.files == kept)
      && (data != [] && fate.WriteFails? ==>
            t.uploads[id].Refused? && t.files == kept[path := File(fate.part, s.now)])
      && (data != [] && fate.Works? ==>
            t.uploads[id].Storing? && t.files == s.files[path := File(data, s.now)])
  {
  }

  /** A caller that goes away leaves its files; a clean-up takes those last written more than 600 seconds ago. */
  lemma {:induction false} OtherStepsOnFiles(s: State, step: Step)
    requires Enabled(s, step)
    ensures step.Open? || step.Drop? || step.Wait? ==> Apply(s, step).files == s.files
    ensures step.Drop? && s.uploads[step.id].Storing? ==>
              var u := Apply(s, step).uploads[step.id];
              u.Storing? && u.ending == Dropped && u.receiver == s.uploads[step.id].receiver
    ensures step.Wait? ==> Apply(s, step).now == step.until
    ensures step.Cleanup? ==> forall p :: p in s.files && s.files[p].modified >= 0.0 ==>
              (p in Apply(s, step).files <==> s.files[p].modified + 600.0 >= s.now)
    ensures step.Cleanup? ==> Apply(s, step).nextTick == s.nextTick + 600.0 && Apply(s, step).uploads == s.uploads
  {
  }
}
