/**
 The client: a map from file identities to transfers, driven by arriving datagrams.  `Client` is
 the state as a value and `Step` its reaction to one datagram; the class `BlockClient`, whose
 transfers are `SyncStatus` objects changed in place, is proved to do exactly that.
 */
module BlockClients {
  import opened Bytes
  import opened FileInfos
  import opened Messages
  import opened SyncStatuses
  import BlockServers

  /** What a datagram says about one file. */
  datatype Note =
    | InfoNote(path: seq<byte>)
    | BlockNote(block: uint4, data: seq<byte>)
    | GoodbyeNote(clients: Result<seq<uint4>>)

  datatype Arrival = Ignored | Rejected | About(info: FileInfo, note: Note)

  /** The metadata that a message of this type must carry. */
  function MetadataSize(kind: uint4): nat {
    if kind == MESSAGE_TYPE_BLOCK then BLOCK_SIZE else SIZE
  }

  predicate Handled(kind: uint4) {
    kind == MESSAGE_TYPE_INFO || kind == MESSAGE_TYPE_BLOCK || kind == MESSAGE_TYPE_SGOODBYE
  }

  /** The program defines what happens: the payload lies inside the packet, and a block number is
      below the block count that comes with it.  The source checks neither. */
  predicate Proper(datagram: seq<byte>) {
    Receive(datagram).Ok? ==>
      var message := Receive(datagram).value;
      && GetOffset(message) + GetLength(message) == |message|
      && (GetType(message) == MESSAGE_TYPE_BLOCK && GetMetadata(message, BLOCK_SIZE).Ok? ==>
        var meta := GetMetadata(message, BLOCK_SIZE).value;
        BlockFromBytes(meta) < GetBlockCount(FromBytes(meta)))
  }

  function Read(datagram: seq<byte>): Arrival
    requires Proper(datagram)
  {
    match Receive(datagram)
    case Err(_) => Rejected
    case Ok(message) =>
      var kind := GetType(message);
      if !Handled(kind) then Ignored
      else
        match GetMetadata(message, MetadataSize(kind))
        case Err(_) => Rejected
        case Ok(meta) =>
          About(FromBytes(meta),
            if kind == MESSAGE_TYPE_INFO then InfoNote(GetText(message))
            else if kind == MESSAGE_TYPE_BLOCK then BlockNote(BlockFromBytes(meta), GetText(message))
            else GoodbyeNote(GetArray(message)))
  }

  /** What cannot be read: a datagram that is no packet, and an announcement, a block or a server
      goodbye with metadata of another size. */
  lemma RejectedExactly(datagram: seq<byte>)
    requires Proper(datagram)
    ensures Receive(datagram).Err? ==> Read(datagram).Rejected?
    ensures Receive(datagram).Ok? ==>
      var message := Receive(datagram).value;
      var kind := GetType(message);
      Read(datagram).Rejected? <==>
        || (kind in {MESSAGE_TYPE_INFO, MESSAGE_TYPE_SGOODBYE} && GetOffset(message) != 56)
        || (kind == MESSAGE_TYPE_BLOCK && GetOffset(message) != 60)
  {
    hide Receive, GetType, GetOffset, GetText, GetLength, GetArray, FromBytes, BlockFromBytes, GetBlockCount;
  }

  // One transfer.

  /** `done`: both sides have finished and the entry is dropped.  `ok`: no exception. */
  datatype Applied = Applied(w: World, done: bool, replies: nat, ok: bool)

  predicate NoteFits(st: Status, note: Note) {
    note.BlockNote? ==> note.block < |st.blocks|
  }

  function Finish(w: World, replies: nat): Applied {
    Applied(Perform(w, CallSync), SyncCompleted(w.st), replies, true)
  }

  function Apply(w: World, note: Note, id: uint4): (a: Applied)
    requires NoteFits(w.st, note)
    ensures |a.w.st.blocks| == |w.st.blocks|
  {
    match note
    case InfoNote(path) => Finish(Perform(w, CallPath(path)), 0)
    case BlockNote(block, data) => Finish(Perform(w, CallWrite(block, data)), 0)
    case GoodbyeNote(clients) =>
      var left := Leave(w, clients, id);
      if left.ok then Finish(left.w, left.replies) else left
  }

  /** On a server goodbye: if the transfer is complete, look for this client among those named. */
  function Leave(w: World, clients: Result<seq<uint4>>, id: uint4): (a: Applied)
    ensures |a.w.st.blocks| == |w.st.blocks| && !a.done
  {
    if !Completed(w.st) then Applied(w, false, 0, true)
    else
      var moved := Perform(w, CallTransfer);
      if clients.Err? then Applied(moved, false, 0, false)
      else
        var n := multiset(clients.value)[id];
        Applied(if n > 0 then Perform(moved, CallGoodbye) else moved, false, n, true)
  }

  // The whole client.

  type Entries = map<FileInfo, Status>

  datatype Client = Client(
    id: uint4,
    entries: Entries,
    disk: DiskFiles,
    outbox: seq<seq<byte>>,
    said: seq<seq<byte>>,   // history of the socket
    alive: bool)

  function Lookup(entries: Entries, info: FileInfo): Status {
    if info in entries then entries[info] else NewStatus(GetBlockCount(info))
  }

  predicate Fits(entries: Entries) {
    forall f :: f in entries ==> |entries[f].blocks| == GetBlockCount(f)
  }

  function CGoodbye(id: uint4): seq<byte> {
    Build(id, MESSAGE_TYPE_CGOODBYE, [], 0, [])
  }

  /** The first message of `start`: the number of this host, and no text. */
  function CHello(id: uint4, host: uint4): seq<byte> {
    Build(id, MESSAGE_TYPE_CHELLO, LittleEndian(host), 0, [])
  }

  /** The client at the beginning of its loop. */
  function StartState(id: uint4, host: uint4, disk: DiskFiles): Client {
    Client(id, map[], disk, [CHello(id, host)], [], true)
  }

  function Repeat(p: seq<byte>, n: nat): (s: seq<seq<byte>>)
    ensures |s| == n
  {
    seq(n, _ => p)
  }

  lemma BlockFits(datagram: seq<byte>, entries: Entries)
    requires Proper(datagram) && Fits(entries) && Receive(datagram).Ok?
    ensures
      var message := Receive(datagram).value;
      && GetOffset(message) <= |message|
      && (GetType(message) == MESSAGE_TYPE_BLOCK && GetMetadata(message, BLOCK_SIZE).Ok? ==>
        var meta := GetMetadata(message, BLOCK_SIZE).value;
        NoteFits(Lookup(entries, FromBytes(meta)), BlockNote(BlockFromBytes(meta), GetText(message))))
  {
    hide Receive, GetType, GetMetadata, GetText, GetOffset, GetLength, FromBytes, BlockFromBytes, GetBlockCount;
  }

  lemma ReadFits(datagram: seq<byte>, entries: Entries)
    requires Proper(datagram) && Fits(entries) && Read(datagram).About?
    ensures NoteFits(Lookup(entries, Read(datagram).info), Read(datagram).note)
  {
    hide Receive, GetType, GetMetadata, GetText, GetArray;
    hide GetOffset, GetLength, FromBytes, BlockFromBytes, GetBlockCount;
  }

  /** `process_message`.  An exception ends the client. */
  function Step(c: Client, datagram: seq<byte>): (c': Client)
    requires Fits(c.entries) && Proper(datagram)
    ensures Fits(c'.entries) && c'.id == c.id
  {
    hide GetBlockCount, Apply, Read, Proper;
    if !c.alive then c
    else
      match Read(datagram)
      case Ignored => c
      case Rejected => c.(alive := false)
      case About(info, note) =>
        ReadFits(datagram, c.entries);
        Reaction(c, info, note)
  }

  /** The reaction to a note about one file. */
  function Reaction(c: Client, info: FileInfo, note: Note): (c': Client)
    requires NoteFits(Lookup(c.entries, info), note)
    ensures c'.id == c.id
    ensures Fits(c.entries) ==> Fits(c'.entries)
  {
    hide GetBlockCount, Apply;
    After(c, info, Apply(World(Lookup(c.entries, info), c.disk), note, c.id))
  }

  function After(c: Client, info: FileInfo, a: Applied): (c': Client)
    ensures c'.id == c.id
  {
    var others := c.entries - {info};
    c.(entries := if a.done then others else others[info := a.w.st],
       disk := a.w.disk,
       outbox := c.outbox + Repeat(CGoodbye(c.id), a.replies),
       alive := a.ok)
  }

  function Run(c: Client, ds: seq<seq<byte>>): (c': Client)
    requires Fits(c.entries) && forall d :: d in ds ==> Proper(d)
    ensures Fits(c'.entries) && c'.id == c.id
  {
    hide GetBlockCount, Proper;
    if ds == [] then c
    else
      var front, last := ds[..|ds| - 1], ds[|ds| - 1];
      assert last in ds;
      Step(Run(c, front), last)
  }

  lemma OutboxGrows(c: Client, datagram: seq<byte>)
    requires Fits(c.entries) && Proper(datagram)
    ensures c.outbox <= Step(c, datagram).outbox && c.said == Step(c, datagram).said
  {
    hide GetBlockCount, Proper, Read, Apply;
  }

  /** `select`: read first, then write the oldest packet, unless reading failed. */
  function Select(c: Client, e: BlockServers.Event): (c': Client)
    requires Fits(c.entries) && (e.incoming.Some? ==> Proper(e.incoming.value))
    ensures Fits(c'.entries) && c'.id == c.id
  {
    hide GetBlockCount, Proper, Step;
    var status := BlockServers.SelectStatus(e.incoming.Some?, e.writable, c.outbox != []);
    BlockServers.SelectStatusExact(e.incoming.Some?, e.writable, c.outbox != []);
    var read := if BlockServers.Reads(status) then OutboxGrows(c, e.incoming.value); Step(c, e.incoming.value) else c;
    if read.alive && BlockServers.Writes(status) then
      read.(outbox := read.outbox[1..], said := read.said + [read.outbox[0]])
    else read
  }

  /** What a pass sends: the oldest packet that was queued before it, if the socket is writable and
      reading met no exception. */
  lemma SendsExactly(c: Client, e: BlockServers.Event)
    requires Fits(c.entries) && (e.incoming.Some? ==> Proper(e.incoming.value))
    ensures Select(c, e).said ==
      c.said + if Select(c, e).alive && e.writable && c.outbox != [] then [c.outbox[0]] else []
  {
    hide GetBlockCount, Proper, Step;
    BlockServers.SelectStatusExact(e.incoming.Some?, e.writable, c.outbox != []);
    if e.incoming.Some? {
      OutboxGrows(c, e.incoming.value);
    }
  }

  predicate AllProper(es: seq<BlockServers.Event>) {
    forall e :: e in es && e.incoming.Some? ==> Proper(e.incoming.value)
  }

  /** The loop of `start`. */
  function Passes(c: Client, es: seq<BlockServers.Event>): (c': Client)
    requires Fits(c.entries) && AllProper(es)
    ensures Fits(c'.entries) && c'.id == c.id
  {
    hide GetBlockCount, Proper, Select;
    if es == [] then c
    else
      var front, last := es[..|es| - 1], es[|es| - 1];
      assert last in es;
      Select(Passes(c, front), last)
  }

  /** What arrives in these passes. */
  function Arrivals(es: seq<BlockServers.Event>): (ds: seq<seq<byte>>)
    requires AllProper(es)
    ensures forall d :: d in ds ==> Proper(d)
  {
    hide Proper;
    if es == [] then []
    else
      var front, last := es[..|es| - 1], es[|es| - 1];
      assert last in es;
      Arrivals(front) + if last.incoming.Some? then [last.incoming.value] else []
  }

  /** The same client, but for how far its packets have got. */
  predicate SameReader(c: Client, c': Client) {
    && c.id == c'.id && c.entries == c'.entries && c.disk == c'.disk && c.alive == c'.alive
    && c.said + c.outbox == c'.said + c'.outbox
  }

  lemma StepSameReader(c: Client, c': Client, datagram: seq<byte>)
    requires Fits(c.entries) && Proper(datagram) && SameReader(c, c')
    ensures SameReader(Step(c, datagram), Step(c', datagram))
  {
    hide GetBlockCount, Proper, Read, Apply, CGoodbye;
    if c.alive && Read(datagram).About? {
      var info, note := Read(datagram).info, Read(datagram).note;
      ReadFits(datagram, c.entries);
      var replies := Repeat(CGoodbye(c.id), Apply(World(Lookup(c.entries, info), c.disk), note, c.id).replies);
      assert c.said + (c.outbox + replies) == c.said + c.outbox + replies;
      assert c'.said + (c'.outbox + replies) == c'.said + c'.outbox + replies;
    }
  }

  /** A pass changes the transfers as reading what arrives in it does, and moves packets from the
      queue to the socket in the order in which they were queued. */
  lemma SelectSameReader(c: Client, c': Client, e: BlockServers.Event)
    requires Fits(c.entries) && (e.incoming.Some? ==> Proper(e.incoming.value)) && SameReader(c, c')
    ensures SameReader(Select(c, e), if e.incoming.Some? then Step(c', e.incoming.value) else c')
  {
    hide GetBlockCount, Proper, Step;
    BlockServers.SelectStatusExact(e.incoming.Some?, e.writable, c.outbox != []);
    if e.incoming.Some? {
      StepSameReader(c, c', e.incoming.value);
      OutboxGrows(c, e.incoming.value);
    }
  }

  /** The loop reads all that arrives while it runs, in order, and what it has sent, followed by
      what is still queued, is what was queued. */
  lemma {:induction false} PassesRead(c: Client, es: seq<BlockServers.Event>)
    requires Fits(c.entries) && AllProper(es)
    ensures SameReader(Passes(c, es), Run(c, Arrivals(es)))
  {
    hide GetBlockCount, Proper, Step, Select, SameReader;
    if es == [] {
      SameAsItself(c);
    } else {
      var front, last := es[..|es| - 1], es[|es| - 1];
      assert last in es;
      PassesRead(c, front);
      SelectSameReader(Passes(c, front), Run(c, Arrivals(front)), last);
      var ds := Arrivals(front);
      if last.incoming.Some? {
        assert (ds + [last.incoming.value])[..|ds|] == ds;
      } else {
        assert ds + [] == ds;
      }
    }
  }

  lemma SameAsItself(c: Client)
    ensures SameReader(c, c)
  {
  }

  // What the client says.

  /** One hello, and then only goodbyes. */
  ghost predicate Spoken(c: Client) {
    exists host: uint4, n: nat :: c.said + c.outbox == Speech(c.id, host, n)
  }

  function Speech(id: uint4, host: uint4, n: nat): seq<seq<byte>> {
    [CHello(id, host)] + Repeat(CGoodbye(id), n)
  }

  lemma SpeechGrows(id: uint4, host: uint4, n: nat, k: nat)
    ensures Speech(id, host, n) + Repeat(CGoodbye(id), k) == Speech(id, host, n + k)
  {
    hide CHello, CGoodbye;
  }

  /** Every packet of the client passes the length check of sending. */
  lemma SpeechCanBeSent(id: uint4, host: uint4)
    ensures LengthChecks(CHello(id, host)) && LengthChecks(CGoodbye(id))
  {
    hide Build, GetLength, GetOffset, LittleEndian;
    BuildFields(id, MESSAGE_TYPE_CHELLO, LittleEndian(host), 0, []);
    BuildFields(id, MESSAGE_TYPE_CGOODBYE, [], 0, []);
  }

  /** And clients, which listen where it is sent to, ignore it. */
  lemma SpeechIgnored(id: uint4, host: uint4)
    ensures Proper(CHello(id, host)) && Read(CHello(id, host)) == Ignored
    ensures Proper(CGoodbye(id)) && Read(CGoodbye(id)) == Ignored
  {
    hide Build, Receive, GetType, GetLength, GetOffset, GetMetadata, GetText, GetArray, LittleEndian;
    PacketFields(id, MESSAGE_TYPE_CHELLO, LittleEndian(host), []);
    PacketFields(id, MESSAGE_TYPE_CGOODBYE, [], []);
    assert Packet(id, MESSAGE_TYPE_CHELLO, LittleEndian(host), []) == CHello(id, host);
    assert Packet(id, MESSAGE_TYPE_CGOODBYE, [], []) == CGoodbye(id);
  }

  /** Whatever a client has sent or will send can be sent, and is ignored by any client. */
  lemma SpokenIgnored(c: Client)
    requires Spoken(c)
    ensures forall p :: p in c.said + c.outbox ==> LengthChecks(p) && Proper(p) && Read(p) == Ignored
  {
    hide CHello, CGoodbye, LengthChecks, Proper, Read;
    var host, n :| c.said + c.outbox == Speech(c.id, host, n);
    SpeechCanBeSent(c.id, host);
    SpeechIgnored(c.id, host);
  }

  predicate AllCheck(queue: seq<seq<byte>>) {
    forall p :: p in queue ==> LengthChecks(p)
  }

  lemma RepliesCheck(queue: seq<seq<byte>>, id: uint4, n: nat)
    requires AllCheck(queue)
    ensures AllCheck(queue + Repeat(CGoodbye(id), n))
  {
    hide LengthChecks, CHello, CGoodbye;
    SpeechCanBeSent(id, 0);
  }

  /** They carry its number, and the hello that of its host. */
  lemma SpeechReads(id: uint4, host: uint4)
    ensures GetType(CHello(id, host)) == 6 && GetSender(CHello(id, host)) == id
    ensures GetMetadata(CHello(id, host), 4) == Ok(LittleEndian(host))
    ensures GetType(CGoodbye(id)) == 4 && GetSender(CGoodbye(id)) == id
  {
    hide Build, GetType, GetSender, GetOffset, GetMetadata, LittleEndian;
    BuildFields(id, MESSAGE_TYPE_CHELLO, LittleEndian(host), 0, []);
    BuildParts(id, MESSAGE_TYPE_CHELLO, LittleEndian(host), 0, []);
    BuildFields(id, MESSAGE_TYPE_CGOODBYE, [], 0, []);
  }

  lemma StepSpoken(c: Client, datagram: seq<byte>)
    requires Fits(c.entries) && Proper(datagram) && Spoken(c)
    ensures Spoken(Step(c, datagram))
  {
    hide GetBlockCount, Proper, Read, Apply, CGoodbye, Speech;
    if c.alive && Read(datagram).About? {
      var info, note := Read(datagram).info, Read(datagram).note;
      ReadFits(datagram, c.entries);
      var host, n :| c.said + c.outbox == Speech(c.id, host, n);
      var k := Apply(World(Lookup(c.entries, info), c.disk), note, c.id).replies;
      SpeechGrows(c.id, host, n, k);
      var c' := Step(c, datagram);
      assert c.said + (c.outbox + Repeat(CGoodbye(c.id), k)) == c.said + c.outbox + Repeat(CGoodbye(c.id), k);
      assert c'.said + c'.outbox == Speech(c'.id, host, n + k);
    }
  }

  lemma SelectSpoken(c: Client, e: BlockServers.Event)
    requires Fits(c.entries) && (e.incoming.Some? ==> Proper(e.incoming.value)) && Spoken(c)
    ensures Spoken(Select(c, e))
  {
    hide GetBlockCount, Proper, Step, Select, Speech;
    SameAsItself(c);
    SelectSameReader(c, c, e);
    if e.incoming.Some? {
      StepSpoken(c, e.incoming.value);
    }
  }

  // When transfers end.

  /** No transfer that is still listed has been acknowledged. */
  predicate Waiting(entries: Entries) {
    forall f :: f in entries ==> !entries[f].goodbye
  }

  /** A goodbye from the server for file `f` that names this client. */
  predicate NamesClient(datagram: seq<byte>, f: FileInfo, id: uint4)
    requires Proper(datagram)
  {
    Read(datagram).About? && Read(datagram).info == f && Read(datagram).note.GoodbyeNote? &&
    Read(datagram).note.clients.Ok? && id in Read(datagram).note.clients.value
  }

  /** How many replies a note about a transfer gets: one for every time that the list of a goodbye
      names the client, if no block is missing and the path is known. */
  function Answers(st: Status, note: Note, id: uint4): nat {
    if note.GoodbyeNote? && note.clients.Ok? && st.remaining == 0 && st.path != [] then multiset(note.clients.value)[id]
    else 0
  }

  lemma ApplyWaiting(w: World, note: Note, id: uint4)
    requires !w.st.goodbye && NoteFits(w.st, note)
    ensures
      var a := Apply(w, note, id);
      && (a.done <==> Answers(w.st, note, id) > 0) && a.replies == Answers(w.st, note, id)
      && (!a.done ==> !a.w.st.goodbye)
      && (a.w.disk != w.disk ==> note.GoodbyeNote? && Completed(w.st))
  {
  }

  /** After every note the transfer is looked at once more: one that is acknowledged, complete and
      has a path is installed and ends. */
  lemma ApplyFinishes(w: World, note: Note, id: uint4)
    requires NoteFits(w.st, note)
    ensures
      var a := Apply(w, note, id);
      && (a.ok ==> (a.done <==> a.w.st.goodbye && a.w.st.remaining == 0 && a.w.st.path != []))
      && (a.done ==> a.w.st.moved)
  {
  }

  /** Announcements and blocks never install or drop anything.  A transfer is dropped exactly by a
      goodbye that names this client when no block is missing and the path is known; then, and only
      then, replies are queued, one for every time it is named. */
  lemma StepWaiting(c: Client, datagram: seq<byte>, f: FileInfo)
    requires Fits(c.entries) && Proper(datagram) && Waiting(c.entries) && c.alive
    ensures Waiting(Step(c, datagram).entries)
    ensures f in c.entries && f !in Step(c, datagram).entries <==>
      f in c.entries && NamesClient(datagram, f, c.id) && Completed(c.entries[f])
    ensures Step(c, datagram).disk != c.disk ==>
      Read(datagram).About? && Read(datagram).note.GoodbyeNote? && Completed(Lookup(c.entries, Read(datagram).info))
    ensures Step(c, datagram).outbox == c.outbox + Repeat(CGoodbye(c.id),
      if Read(datagram).About? then
        Answers(Lookup(c.entries, Read(datagram).info), Read(datagram).note, c.id)
      else 0)
  {
    hide GetBlockCount, Proper, Read, Apply, Fits;
    if Read(datagram).About? {
      var info, note := Read(datagram).info, Read(datagram).note;
      ReadFits(datagram, c.entries);
      ApplyWaiting(World(Lookup(c.entries, info), c.disk), note, c.id);
    }
  }

  /** In every run. */
  lemma {:induction false} RunWaiting(c: Client, ds: seq<seq<byte>>)
    requires c.entries == map[] && forall d :: d in ds ==> Proper(d)
    ensures Waiting(Run(c, ds).entries)
  {
    hide GetBlockCount, Proper, Step;
    if ds == [] {
    } else {
      var front, last := ds[..|ds| - 1], ds[|ds| - 1];
      assert last in ds;
      RunWaiting(c, front);
      var before := Run(c, front);
      if before.alive {
        StepWaiting(before, last, FileInfo(Zeros(33), 0));
      } else {
        DeadStays(before, last);
      }
    }
  }

  lemma DeadStays(c: Client, datagram: seq<byte>)
    requires Fits(c.entries) && Proper(datagram) && !c.alive
    ensures Step(c, datagram) == c
  {
    hide GetBlockCount, Apply, Read, Proper;
  }

  // Exceptions.

  /** The datagrams on which the client stops: what cannot be read, and a server goodbye for a
      complete transfer whose list of clients cannot be read. */
  predicate Fatal(c: Client, datagram: seq<byte>)
    requires Proper(datagram)
  {
    match Read(datagram)
    case Ignored => false
    case Rejected => true
    case About(info, note) => note.GoodbyeNote? && note.clients.Err? && Completed(Lookup(c.entries, info))
  }

  lemma DiesExactly(c: Client, datagram: seq<byte>)
    requires Fits(c.entries) && Proper(datagram) && c.alive
    ensures Step(c, datagram).alive <==> !Fatal(c, datagram)
  {
    hide GetBlockCount, Proper, Read;
    if Read(datagram).About? {
      ReadFits(datagram, c.entries);
    }
  }

  lemma AliveBefore(c: Client, datagram: seq<byte>)
    requires Fits(c.entries) && Proper(datagram)
    ensures Step(c, datagram).alive ==> c.alive
  {
    hide GetBlockCount, Apply, Read, Proper;
  }

  /** The datagrams handled before the client stops, with the one that stops it. */
  function Heard(c: Client, ds: seq<seq<byte>>): (own: seq<seq<byte>>)
    requires Fits(c.entries) && forall d :: d in ds ==> Proper(d)
    ensures forall d :: d in own ==> d in ds
  {
    hide GetBlockCount, Proper, Step;
    if ds == [] then []
    else
      var front, last := ds[..|ds| - 1], ds[|ds| - 1];
      assert last in ds;
      Heard(c, front) + if Run(c, front).alive then [last] else []
  }

  lemma RunSnoc(c: Client, ds: seq<seq<byte>>, d: seq<byte>)
    requires Fits(c.entries) && (forall x :: x in ds ==> Proper(x)) && Proper(d)
    ensures Run(c, ds + [d]) == Step(Run(c, ds), d)
    ensures Heard(c, ds + [d]) == if Run(c, ds).alive then Heard(c, ds) + [d] else Heard(c, ds)
  {
    hide GetBlockCount, Proper, Step;
    assert (ds + [d])[..|ds|] == ds;
    assert Heard(c, ds) + [] == Heard(c, ds);
  }

  /** They are the first ones to arrive, and all of them if the client does not stop. */
  lemma {:induction false} HeardFirst(c: Client, ds: seq<seq<byte>>)
    requires Fits(c.entries) && forall d :: d in ds ==> Proper(d)
    ensures Heard(c, ds) <= ds
    ensures Run(c, ds).alive ==> Heard(c, ds) == ds
  {
    hide GetBlockCount, Proper, Step, Run, Heard;
    if ds == [] {
      HeardNone(c);
    } else {
      var front, last := ds[..|ds| - 1], ds[|ds| - 1];
      assert last in ds && ds == front + [last];
      HeardFirst(c, front);
      RunSnoc(c, front, last);
      AliveBefore(Run(c, front), last);
    }
  }

  lemma HeardNone(c: Client)
    requires Fits(c.entries)
    ensures Heard(c, []) == [] && Run(c, []) == c
  {
  }

  // Transfers do not interfere.

  predicate Concerns(datagram: seq<byte>, f: FileInfo)
    requires Proper(datagram)
  {
    Read(datagram).About? && Read(datagram).info == f
  }

  /** The datagrams about file `f`. */
  function Only(ds: seq<seq<byte>>, f: FileInfo): (own: seq<seq<byte>>)
    requires forall d :: d in ds ==> Proper(d)
    ensures forall d :: d in own ==> d in ds
  {
    if ds == [] then []
    else
      var front, last := ds[..|ds| - 1], ds[|ds| - 1];
      assert last in ds;
      Only(front, f) + if Concerns(last, f) then [last] else []
  }

  /** The same entry, or none, for `f`. */
  predicate SameEntry(x: Entries, y: Entries, f: FileInfo) {
    (f in x <==> f in y) && (f in x ==> x[f] == y[f])
  }

  lemma ApplyIgnoresDisk(w: World, w': World, note: Note, id: uint4)
    requires w.st == w'.st && NoteFits(w.st, note)
    ensures
      var a, a' := Apply(w, note, id), Apply(w', note, id);
      a.w.st == a'.w.st && a.done == a'.done && a.replies == a'.replies && a.ok == a'.ok
  {
  }

  lemma ReactionSameEntry(c: Client, c': Client, info: FileInfo, note: Note, f: FileInfo)
    requires NoteFits(Lookup(c.entries, info), note)
    requires SameEntry(c.entries, c'.entries, f) && c.id == c'.id
    ensures info != f ==> SameEntry(Reaction(c, info, note).entries, c'.entries, f)
    ensures info == f ==>
      && NoteFits(Lookup(c'.entries, info), note)
      && SameEntry(Reaction(c, info, note).entries, Reaction(c', info, note).entries, f)
      && Reaction(c, info, note).alive == Reaction(c', info, note).alive
  {
    hide GetBlockCount, Apply;
    if info == f {
      ApplyIgnoresDisk(World(Lookup(c.entries, f), c.disk), World(Lookup(c'.entries, f), c'.disk), note, c.id);
    }
  }

  lemma StepSameEntry(c: Client, c': Client, datagram: seq<byte>, f: FileInfo)
    requires Fits(c.entries) && Fits(c'.entries) && Proper(datagram)
    requires SameEntry(c.entries, c'.entries, f) && c.id == c'.id && c.alive && c'.alive
    ensures
      var next := if Concerns(datagram, f) then Step(c', datagram) else c';
      SameEntry(Step(c, datagram).entries, next.entries, f) && (Step(c, datagram).alive ==> next.alive)
  {
    hide GetBlockCount, Reaction, Read, Proper, SameEntry, Fits, Lookup;
    if Read(datagram).About? {
      ReadFits(datagram, c.entries);
      ReadFits(datagram, c'.entries);
      ReactionSameEntry(c, c', Read(datagram).info, Read(datagram).note, f);
    }
  }

  /** Whatever else arrives in between, the entry of file `f`, with its creation and its removal,
      is what the datagrams about `f` alone would have made it, up to the datagram, about
      whatever file, that stops the client. */
  lemma {:induction false} NonInterference(c: Client, ds: seq<seq<byte>>, f: FileInfo)
    requires Fits(c.entries) && (forall d :: d in ds ==> Proper(d))
    ensures SameEntry(Run(c, ds).entries, Run(c, Only(Heard(c, ds), f)).entries, f)
    ensures Run(c, ds).alive ==> Run(c, Only(ds, f)).alive
  {
    hide GetBlockCount, Step, Proper, Read, Run, Heard, Only, SameEntry;
    HeardFirst(c, ds);
    if ds == [] {
      OnlyNone(c, f);
    } else {
      var front, last := ds[..|ds| - 1], ds[|ds| - 1];
      assert last in ds && ds == front + [last];
      NonInterference(c, front, f);
      HeardFirst(c, front);
      RunSnoc(c, front, last);
      AliveBefore(Run(c, front), last);
      if Run(c, front).alive {
        OnlySnoc(c, front, last, f);
        StepSameEntry(Run(c, front), Run(c, Only(front, f)), last, f);
      } else {
        DeadStays(Run(c, front), last);
      }
    }
  }

  lemma OnlyNone(c: Client, f: FileInfo)
    requires Fits(c.entries)
    ensures Heard(c, []) == [] && Only([], f) == [] && Run(c, []) == c && SameEntry(c.entries, c.entries, f)
  {
  }

  lemma OnlySnoc(c: Client, ds: seq<seq<byte>>, d: seq<byte>, f: FileInfo)
    requires Fits(c.entries) && (forall d :: d in ds ==> Proper(d)) && Proper(d)
    ensures Run(c, Only(ds + [d], f)) == if Concerns(d, f) then Step(Run(c, Only(ds, f)), d) else Run(c, Only(ds, f))
  {
    hide GetBlockCount, Step, Proper, Read;
    assert (ds + [d])[..|ds|] == ds;
    var own := Only(ds, f);
    if Concerns(d, f) {
      assert (own + [d])[..|own|] == own;
    } else {
      assert own + [] == own;
    }
  }

  class BlockClient {
    const id: uint4
    const host: uint4
    const disk: Disk
    var syncSet: map<FileInfo, SyncStatus>
    var messageQueue: seq<seq<byte>>
    var sent: seq<seq<byte>>  // what was handed to the socket
    var alive: bool

    ghost predicate Valid()
      reads this`syncSet, this`messageQueue, set f | f in syncSet :: syncSet[f]
    {
      && AllCheck(messageQueue)
      && (forall f :: f in syncSet ==> syncSet[f].Valid())
      && (forall f, g :: f in syncSet && g in syncSet && f != g ==> syncSet[f] != syncSet[g])
    }

    ghost function Transfers(): set<SyncStatus>
      reads this`syncSet
    {
      set f | f in syncSet :: syncSet[f]
    }

    ghost function Entries(): Entries
      reads this`syncSet, set f | f in syncSet :: syncSet[f]
    {
      map f | f in syncSet :: syncSet[f].Model()
    }

    ghost function Model(): Client
      reads this, disk, set f | f in syncSet :: syncSet[f]
    {
      Client(id, Entries(), disk.files, messageQueue, sent, alive)
    }

    constructor (id: uint4, host: uint4, disk: Disk)
      ensures Valid() && this.disk == disk && this.host == host
      ensures Model() == Client(id, map[], disk.files, [], [], true)
    {
      this.id, this.host, this.disk := id, host, disk;
      syncSet, messageQueue, sent, alive := map[], [], [], true;
    }

    /** The entries of all files but one. */
    ghost function Others(info: FileInfo): Entries
      reads this`syncSet, set f | f in syncSet && f != info :: syncSet[f]
    {
      map f | f in syncSet && f != info :: syncSet[f].Model()
    }

    lemma EntriesSplit(info: FileInfo)
      requires Valid()
      ensures Others(info) == Entries() - {info}
      ensures info in syncSet ==> Entries() == Others(info)[info := syncSet[info].Model()]
    {
      hide Sound;
    }

    /** The transfer of a file, created if this is the first that is heard of it. */
    method GetSyncStatus(info: FileInfo) returns (status: SyncStatus)
      requires Valid()
      modifies this`syncSet
      ensures Valid() && info in syncSet && syncSet[info] == status
      ensures fresh(Transfers() - old(Transfers())) && fresh({status} - old(Transfers()))
      ensures status.Model() == Lookup(old(Entries()), info)
      ensures Others(info) == old(Entries()) - {info}
    {
      hide AllCheck;
      hide GetBlockCount, NewStatus, Sound;
      EntriesSplit(info);
      ghost var others := Others(info);
      if info !in syncSet {
        status := new SyncStatus(info);
        syncSet := syncSet[info := status];
      } else {
        status := syncSet[info];
      }
      assert Others(info) == others;
    }

    /** `if (status.sync_complete()) sync_set.erase(info)`. */
    method FinishSync(info: FileInfo, status: SyncStatus, ghost w: World, ghost others: Entries)
      requires Valid() && info in syncSet && syncSet[info] == status
      requires w == World(status.Model(), disk.files) && Others(info) == others && info !in others
      modifies this`syncSet, status, disk
      ensures Valid()
      ensures Transfers() <= old(Transfers())
      ensures Entries() == if SyncCompleted(w.st) then others else others[info := Perform(w, CallSync).st]
      ensures disk.files == Perform(w, CallSync).disk
    {
      hide AllCheck;
      hide Sound, AfterSync, InstallAfterSync, Entries, Others;
      var done := status.SyncComplete(disk);
      assert Others(info) == others;
      EntriesSplit(info);
      if done {
        Erase(info);
      }
    }

    method Erase(info: FileInfo)
      requires Valid()
      modifies this`syncSet
      ensures Valid() && Entries() == old(Others(info)) && Transfers() <= old(Transfers())
    {
      hide Sound;
      syncSet := syncSet - {info};
    }

    // One call on one transfer leaves the others alone.

    method Announce(info: FileInfo, status: SyncStatus, path: seq<byte>)
      requires Valid() && info in syncSet && syncSet[info] == status
      modifies status
      ensures Valid() && Others(info) == old(Others(info)) && syncSet[info] == status
      ensures status.Model() == old(status.Model()).(path := path)
    {
      hide AllCheck, Sound;
      status.SetPath(path);
    }

    method Store(info: FileInfo, status: SyncStatus, block: uint4, message: seq<byte>)
      requires Valid() && info in syncSet && syncSet[info] == status
      requires block < |status.blockArray| && GetOffset(message) <= |message|
      modifies status
      ensures Valid() && Others(info) == old(Others(info)) && syncSet[info] == status
      ensures status.Model() == WriteBlock(old(status.Model()), block, GetText(message))
    {
      hide AllCheck, Sound, GetOffset, WriteBlock;
      status.WriteBlockData(block, message);
    }

    method Depart(info: FileInfo, status: SyncStatus, message: seq<byte>) returns (ok: bool)
      requires Valid() && info in syncSet && syncSet[info] == status
      requires GetOffset(message) + GetLength(message) == |message|
      modifies status, disk, this`messageQueue
      ensures Valid() && Others(info) == old(Others(info)) && syncSet[info] == status
      ensures
        var a := Leave(old(World(status.Model(), disk.files)), GetArray(message), id);
        && World(status.Model(), disk.files) == a.w && ok == a.ok
        && messageQueue == old(messageQueue) + Repeat(CGoodbye(id), a.replies)
    {
      hide AllCheck, Sound, GetOffset, GetLength, GetArray, Leave, CGoodbye;
      ghost var queue := messageQueue;
      ok := TakeLeave(status, message);
      RepliesCheck(queue, id, |messageQueue| - |queue|);
    }

    // The handlers.

    method HandleInfo(message: seq<byte>)
      requires Valid() && alive && GetOffset(message) <= |message|
      modifies this, disk, Transfers()
      ensures fresh(Transfers() - old(Transfers()))
      ensures Valid()
      ensures Model() == match GetMetadata(message, SIZE)
        case Err(_) => old(Model()).(alive := false)
        case Ok(meta) => Reaction(old(Model()), FromBytes(meta), InfoNote(GetText(message)))
    {
      hide Valid, GetMetadata, GetOffset, FromBytes, GetBlockCount, AfterSync, InstallAfterSync;
      hide Entries, Others, Lookup;
      match GetMetadata(message, SIZE)
      case Err(_) =>
        alive := false;
      case Ok(meta) =>
        var info := FromBytes(meta);
        var status := GetSyncStatus(info);
        Announce(info, status, GetText(message));
        FinishSync(info, status, World(status.Model(), disk.files), Others(info));
    }

    method HandleBlock(message: seq<byte>)
      requires Valid() && alive && GetOffset(message) <= |message|
      requires GetMetadata(message, BLOCK_SIZE).Ok? ==>
        var meta := GetMetadata(message, BLOCK_SIZE).value;
        NoteFits(Lookup(Entries(), FromBytes(meta)), BlockNote(BlockFromBytes(meta), GetText(message)))
      modifies this, disk, Transfers()
      ensures fresh(Transfers() - old(Transfers()))
      ensures Valid()
      ensures Model() == match GetMetadata(message, BLOCK_SIZE)
        case Err(_) => old(Model()).(alive := false)
        case Ok(meta) => Reaction(old(Model()), FromBytes(meta), BlockNote(BlockFromBytes(meta), GetText(message)))
    {
      hide Valid, GetMetadata, GetOffset, FromBytes, BlockFromBytes, GetBlockCount, AfterSync, InstallAfterSync;
      hide WriteBlock, Entries, Others, Lookup;
      match GetMetadata(message, BLOCK_SIZE)
      case Err(_) =>
        alive := false;
      case Ok(meta) =>
        var info, block := FromBytes(meta), BlockFromBytes(meta);
        var status := GetSyncStatus(info);
        Store(info, status, block, message);
        FinishSync(info, status, World(status.Model(), disk.files), Others(info));
    }

    method HandleSGoodbye(message: seq<byte>)
      requires Valid() && alive && GetOffset(message) + GetLength(message) == |message|
      modifies this, disk, Transfers()
      ensures fresh(Transfers() - old(Transfers()))
      ensures Valid()
      ensures Model() == match GetMetadata(message, SIZE)
        case Err(_) => old(Model()).(alive := false)
        case Ok(meta) => Reaction(old(Model()), FromBytes(meta), GoodbyeNote(GetArray(message)))
    {
      hide Valid, GetMetadata, GetOffset, GetLength, GetArray, FromBytes, GetBlockCount, CGoodbye;
      hide AfterSync, InstallAfterSync, Entries, Others, Leave, Lookup;
      match GetMetadata(message, SIZE)
      case Err(_) =>
        alive := false;
      case Ok(meta) =>
        var info := FromBytes(meta);
        var status := GetSyncStatus(info);
        var ok := Depart(info, status, message);
        if ok {
          FinishSync(info, status, World(status.Model(), disk.files), Others(info));
        } else {
          EntriesSplit(info);
          alive := false;
        }
    }

    /** The part of the handler that looks at the list of clients; false if that throws. */
    method TakeLeave(status: SyncStatus, message: seq<byte>) returns (ok: bool)
      requires status.Valid() && GetOffset(message) + GetLength(message) == |message|
      modifies status, disk, this`messageQueue
      ensures status.Valid()
      ensures
        var a := Leave(old(World(status.Model(), disk.files)), GetArray(message), id);
        && World(status.Model(), disk.files) == a.w && ok == a.ok
        && messageQueue == old(messageQueue) + Repeat(CGoodbye(id), a.replies)
    {
      hide GetArray, GetOffset, GetLength, Sound, CGoodbye;
      var done := status.TransferComplete(disk);
      ok := true;
      if done {
        match GetArray(message)
        case Err(_) =>
          ok := false;
        case Ok(clients) =>
          Acknowledge(status, clients);
      }
    }

    /** One reply for every occurrence of this client among those the server names. */
    method Acknowledge(status: SyncStatus, clients: seq<uint4>)
      requires status.Valid()
      modifies status, this`messageQueue
      ensures status.Valid()
      ensures status.Model() ==
          if id in clients then old(status.Model()).(goodbye := true) else old(status.Model())
      ensures messageQueue == old(messageQueue) + Repeat(CGoodbye(id), multiset(clients)[id])
    {
      hide Sound, Build;
      for i := 0 to |clients|
        invariant status.Valid()
        invariant status.Model() ==
            if id in clients[..i] then old(status.Model()).(goodbye := true) else old(status.Model())
        invariant messageQueue == old(messageQueue) + Repeat(CGoodbye(id), multiset(clients[..i])[id])
      {
        assert clients[..i + 1] == clients[..i] + [clients[i]];
        if clients[i] == id {
          status.SetGoodbyeReceived();
          var reply := new Message.WithReserve(id, MESSAGE_TYPE_CGOODBYE, [], 0);
          assert Zeros(0) == [];
          messageQueue := messageQueue + [reply.buffer];
        }
      }
      assert clients[..|clients|] == clients;
    }

    method ProcessMessage(datagram: seq<byte>)
      requires Valid() && alive && Fits(Entries()) && Proper(datagram)
      modifies this, disk, Transfers()
      ensures fresh(Transfers() - old(Transfers()))
      ensures Valid() && Model() == Step(old(Model()), datagram)
    {
      hide Valid, Entries, Others, Fits;
      hide Receive, GetType, GetMetadata, GetOffset, GetLength, GetText, GetArray, FromBytes, BlockFromBytes;
      hide GetBlockCount, Reaction;
      var received := ReceiveMessage(datagram);
      match received
      case Err(_) =>
        alive := false;
      case Ok(message) =>
        var kind := GetType(message);
        if kind == MESSAGE_TYPE_INFO {
          HandleInfo(message);
        } else if kind == MESSAGE_TYPE_BLOCK {
          BlockFits(datagram, Entries());
          HandleBlock(message);
        } else if kind == MESSAGE_TYPE_SGOODBYE {
          HandleSGoodbye(message);
        }
    }

    /** One pass of the loop.  The packet-length check of sending never fails. */
    method SelectOn(e: BlockServers.Event)
      requires Valid() && alive && Fits(Entries()) && (e.incoming.Some? ==> Proper(e.incoming.value))
      modifies this, disk, Transfers()
      ensures fresh(Transfers() - old(Transfers()))
      ensures Valid() && Model() == Select(old(Model()), e)
    {
      hide GetBlockCount, Proper, Step, Entries, Fits, LengthChecks;
      var status := BlockServers.SelectStatus(e.incoming.Some?, e.writable, messageQueue != []);
      BlockServers.SelectStatusExact(e.incoming.Some?, e.writable, messageQueue != []);
      if BlockServers.Reads(status) {
        OutboxGrows(Model(), e.incoming.value);
        ProcessMessage(e.incoming.value);
      }
      if alive && BlockServers.Writes(status) {
        var front := messageQueue[0];
        assert LengthChecks(front);
        sent := sent + [front];
        messageQueue := messageQueue[1..];
      }
    }

    /** `start`, for as long as `events` says what the calls of `select` find. */
    method Start(events: seq<BlockServers.Event>)
      requires Valid() && AllProper(events) && Model() == Client(id, map[], disk.files, [], [], true)
      modifies this, disk, Transfers()
      ensures Valid() && Model() == Passes(StartState(id, host, old(disk.files)), events)
    {
      hide GetBlockCount, Proper, Select, LengthChecks, Build;
      var hello := new Message.WithReserve(id, MESSAGE_TYPE_CHELLO, LittleEndian(host), 0);
      assert Zeros(0) == [];
      SpeechCanBeSent(id, host);
      messageQueue := messageQueue + [hello.buffer];
      ghost var start := Model();
      assert start == StartState(id, host, old(disk.files));
      var used := 0;
      while alive && used < |events|
        invariant Valid() && used <= |events|
        invariant fresh(Transfers() - old(Transfers()))
        invariant Model() == Passes(start, events[..used])
        decreases |events| - used
      {
        assert events[used] in events;
        PassesSnoc(start, events, used);
        SelectOn(events[used]);
        used := used + 1;
      }
      PassesStop(start, events, used);
    }
  }

  lemma PassesSnoc(c: Client, es: seq<BlockServers.Event>, n: nat)
    requires Fits(c.entries) && AllProper(es) && n < |es|
    ensures es[n] in es && Passes(c, es[..n + 1]) == Select(Passes(c, es[..n]), es[n])
  {
    hide GetBlockCount, Proper, Select;
    assert es[..n + 1][..n] == es[..n];
  }

  /** A client that has failed does not move. */
  lemma {:induction false} PassesStop(c: Client, es: seq<BlockServers.Event>, n: nat)
    requires Fits(c.entries) && AllProper(es) && n <= |es|
    requires n < |es| ==> !Passes(c, es[..n]).alive
    ensures Passes(c, es) == Passes(c, es[..n])
    decreases |es|
  {
    hide GetBlockCount, Proper, Read, Apply;
    if n == |es| {
      assert es[..n] == es;
    } else {
      var front := es[..|es| - 1];
      assert front[..n] == es[..n];
      PassesStop(c, front, n);
      assert es[|es| - 1] in es;
    }
  }
}
