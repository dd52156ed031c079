/**
 The whole system: any number of servers, one client, and a network that may lose, repeat and
 reorder whatever the servers have sent.  A run is any sequence of moves of its parts.
 */
module Transfer {
  import opened Bytes
  import opened Streams
  import opened FileInfos
  import opened Messages
  import opened SyncStatuses
  import BlockServers
  import opened BlockClients

  type Source = BlockServers.Source
  type Server = BlockServers.Server

  datatype System = System(servers: seq<Server>, client: Client)

  /** A pass of server `i`; and the passes of the client: one in which packet `j` arrives of those
      that server `i` has sent, for the first time or again; one in which a server goodbye arrives,
      which the servers of this program never send; one in which something else arrives, like the
      packets of clients, that is about no file; one in which nothing arrives. */
  datatype Move =
    | Serve(i: nat, event: BlockServers.Event)
    | Deliver(i: nat, j: nat, writable: bool)
    | Goodbye(datagram: seq<byte>, writable: bool)
    | Stray(datagram: seq<byte>, writable: bool)
    | Quiet(writable: bool)

  /** Outside the inputs that the client's program defines, anything may happen. */
  predicate ClientPass(c: Client, e: BlockServers.Event, c': Client) {
    Fits(c.entries) && (e.incoming.Some? ==> Proper(e.incoming.value)) ==> c' == BlockClients.Select(c, e)
  }

  predicate IsGoodbye(datagram: seq<byte>) {
    Proper(datagram) && Read(datagram).About? && Read(datagram).note.GoodbyeNote?
  }

  predicate Possible(s: System, move: Move) {
    match move
    case Serve(i, _) => i < |s.servers|
    case Deliver(i, j, _) => i < |s.servers| && j < |s.servers[i].sent|
    case Goodbye(datagram, _) => IsGoodbye(datagram)
    case Stray(datagram, _) => Proper(datagram) && !Read(datagram).About?
    case Quiet(_) => true
  }

  /** What the client finds in its pass. */
  function Finds(s: System, move: Move): BlockServers.Event
    requires Possible(s, move) && !move.Serve?
  {
    match move
    case Deliver(i, j, writable) =>
      BlockServers.Event(Some(BlockServers.PacketOf(s.servers[i].source, s.servers[i].sent[j])), writable)
    case Goodbye(datagram, writable) => BlockServers.Event(Some(datagram), writable)
    case Stray(datagram, writable) => BlockServers.Event(Some(datagram), writable)
    case Quiet(writable) => BlockServers.Event(None, writable)
  }

  predicate Moves(s: System, move: Move, s': System) {
    && Possible(s, move)
    && if move.Serve? then
         s' == s.(servers := s.servers[move.i := BlockServers.Step(s.servers[move.i], move.event)])
       else
         s'.servers == s.servers && ClientPass(s.client, Finds(s, move), s'.client)
  }

  /** What is assumed of the files served: at most 4 GiB, a path that fits a packet length, and
      identities that determine the content. */
  predicate Servable(source: Source) {
    |source.content| <= TWO_TO_THE_32 && |source.path| < 0x1_0000_0000 - 56
  }

  function Identity(source: Source): FileInfo {
    InfoOf(source.content)
  }

  predicate Assumed(sources: seq<Source>) {
    && (forall i :: 0 <= i < |sources| ==> Servable(sources[i]))
    && (forall i, j :: 0 <= i < |sources| && 0 <= j < |sources| && Identity(sources[i]) == Identity(sources[j]) ==>
      sources[i].content == sources[j].content)
  }

  ghost predicate Begins(s: System, sources: seq<Source>) {
    && |s.servers| == |sources|
    && (forall i :: 0 <= i < |sources| ==> s.servers[i] == BlockServers.StartState(sources[i]))
    && exists host: uint4 :: s.client == BlockClients.StartState(s.client.id, host, map[])
  }

  ghost predicate IsRun(states: seq<System>, moves: seq<Move>, sources: seq<Source>) {
    && |states| == |moves| + 1
    && Assumed(sources) && Begins(states[0], sources)
    && forall n :: 0 <= n < |moves| ==> Moves(states[n], moves[n], states[n + 1])
  }

  // The invariant.

  ghost predicate HasBlocks(st: Status, content: seq<byte>) {
    exists got :: Holds(st, Blocks(content), got) && FromFile(got, content)
  }

  predicate AnnouncedBy(source: Source, info: FileInfo, path: seq<byte>) {
    Identity(source) == info && source.path == path
  }

  ghost predicate Announced(sources: seq<Source>, info: FileInfo, path: seq<byte>) {
    exists i :: 0 <= i < |sources| && AnnouncedBy(sources[i], info, path)
  }

  /** What the client believes of a file is true: the blocks it has are those of the file, and
      the path is one the file is announced under. */
  ghost predicate Faithful(st: Status, info: FileInfo, sources: seq<Source>) {
    && Sound(st)
    && (forall i :: 0 <= i < |sources| && Identity(sources[i]) == info ==> HasBlocks(st, sources[i].content))
    && (st.path != [] ==> Announced(sources, info, st.path))
  }

  predicate ServedAs(source: Source, path: seq<byte>, content: seq<byte>) {
    source.path == path && source.content == content
  }

  /** Every installed file is one of the files served, under its own path. */
  ghost predicate DiskFaithful(disk: DiskFiles, sources: seq<Source>) {
    forall p :: p in disk ==> exists i :: 0 <= i < |sources| && ServedAs(sources[i], p, disk[p])
  }

  ghost predicate ClientFaithful(c: Client, sources: seq<Source>) {
    && Fits(c.entries)
    && (forall f :: f in c.entries ==> Faithful(c.entries[f], f, sources))
    && DiskFaithful(c.disk, sources)
  }

  ghost predicate Invariant(s: System, sources: seq<Source>) {
    && |s.servers| == |sources|
    && (forall i :: 0 <= i < |sources| ==> s.servers[i].source == sources[i] && BlockServers.Ordered(s.servers[i]))
    && ClientKeeps(s.client, sources)
  }

  /** No transfer has been acknowledged, and nothing was said but a hello and goodbyes. */
  ghost predicate ClientKeeps(c: Client, sources: seq<Source>) {
    ClientFaithful(c, sources) && Waiting(c.entries) && Spoken(c)
  }

  // What a packet of a server says.

  ghost predicate NoteTrue(note: Note, info: FileInfo, sources: seq<Source>) {
    match note
    case InfoNote(path) => Announced(sources, info, path)
    case BlockNote(k, data) =>
      forall i :: 0 <= i < |sources| && Identity(sources[i]) == info ==> data == BlockAt(sources[i].content, k)
    case GoodbyeNote(_) => true
  }

  lemma CountIsBlocks(source: Source)
    requires Servable(source)
    ensures BlockServers.Count(source) == GetBlockCount(Identity(source)) == Blocks(source.content)
  {
    hide InfoOf, GetBlockCount;
    InfoOfBlockCount(source.content);
    assert Blocks(source.content) <= 0x40_0000;
  }

  lemma PayloadIsBlock(source: Source, k: nat)
    requires Servable(source) && k < Blocks(source.content)
    ensures BlockServers.SentPayload(source.content, k) == BlockAt(source.content, k)
  {
    assert BLOCKSIZE * k < TWO_TO_THE_32;
  }

  lemma InfoPacketRead(source: Source)
    requires Servable(source)
    ensures
      var p := BlockServers.PacketOf(source, BlockServers.InfoItem);
      Proper(p) && Read(p) == if |source.path| <= 4056 then About(Identity(source), InfoNote(source.path)) else Rejected
  {
    hide InfoOf, Packet, Receive, GetType, GetOffset, GetLength, GetText, GetMetadata, ToBytes, FromBytes;
    var info := Identity(source);
    PacketFields(source.id, MESSAGE_TYPE_INFO, ToBytes(info), source.path);
    ImageRoundTrip(info, []);
    assert ToBytes(info) + [] == ToBytes(info);
  }

  lemma BlockPacketRead(source: Source, k: nat)
    requires Servable(source) && k < BlockServers.Count(source)
    ensures
      var p := BlockServers.PacketOf(source, BlockServers.BlockItem(k));
      Proper(p) && Read(p) == About(Identity(source), BlockNote(k, BlockAt(source.content, k)))
  {
    hide InfoOf, Packet, Receive, GetType, GetOffset;
    hide GetLength, GetText, GetMetadata, FromBytes, BlockFromBytes, BlockImage;
    hide Blocks, BlockServers.SentPayload, BlockAt, GetBlockCount, BlockServers.Count;
    var info, data := Identity(source), BlockServers.SentPayload(source.content, k);
    CountIsBlocks(source);
    PayloadIsBlock(source, k);
    assert |BlockAt(source.content, k)| <= BLOCKSIZE by { BlockSize(source.content, k); }
    PacketFields(source.id, MESSAGE_TYPE_BLOCK, BlockImage(info, k), data);
    BlockImageRoundTrip(info, k);
  }

  /** A server goodbye, which any server could send, is read as the list that was put in. */
  lemma GoodbyePacketRead(sender: uint4, info: FileInfo, clients: seq<uint4>)
    requires 56 + 4 * |clients| <= 4112
    ensures
      var p := Packet(sender, MESSAGE_TYPE_SGOODBYE, ToBytes(info), ArrayImage(clients));
      GetType(p) == 5 && Proper(p) && Read(p) == About(info, GoodbyeNote(Ok(clients)))
  {
    hide Packet, Receive, GetType, GetOffset, GetLength, GetText, GetArray, GetMetadata, ToBytes, FromBytes, ArrayImage;
    PacketFields(sender, MESSAGE_TYPE_SGOODBYE, ToBytes(info), ArrayImage(clients));
    ArrayRoundTrip(sender, MESSAGE_TYPE_SGOODBYE, ToBytes(info), clients);
    ImageRoundTrip(info, []);
    assert ToBytes(info) + [] == ToBytes(info);
  }

  lemma BlockSize(content: seq<byte>, k: nat)
    ensures |BlockAt(content, k)| <= BLOCKSIZE
  {
  }

  /** Whatever a server has ever sent is properly formed and true. */
  lemma SentIsTrue(server: Server, j: nat, i: nat, sources: seq<Source>)
    requires Assumed(sources) && i < |sources| && server.source == sources[i]
    requires BlockServers.Ordered(server) && j < |server.sent|
    ensures
      var p := BlockServers.PacketOf(server.source, server.sent[j]);
      Proper(p) && (Read(p).About? ==> NoteTrue(Read(p).note, Read(p).info, sources))
  {
    hide Proper, Read, BlockServers.PacketOf, BlockAt, Identity, BlockServers.Count;
    var item := server.sent[j];
    match item
    case InfoItem =>
      InfoPacketRead(server.source);
      assert AnnouncedBy(sources[i], Identity(server.source), server.source.path);
    case BlockItem(k) =>
      assert server.enqueued[j] == item;
      NumberOf(server.enqueued, j);
      BlockPacketRead(server.source, k);
  }

  lemma {:induction false} NumberOf(items: seq<BlockServers.Item>, j: nat)
    requires j < |items| && items[j].BlockItem?
    ensures items[j].block in BlockServers.BlockNumbers(items)
  {
    var front, last := items[..|items| - 1], items[|items| - 1];
    if j < |front| {
      NumberOf(front, j);
    } else {
      assert last.block in BlockServers.BlockNumbers(front) + [last.block];
    }
  }

  // What the client does with a true note.

  lemma NewIsFaithful(info: FileInfo, sources: seq<Source>)
    requires Assumed(sources)
    ensures Faithful(NewStatus(GetBlockCount(info)), info, sources)
  {
    hide Blocks, Identity, GetBlockCount, InfoOf;
    var st := NewStatus(GetBlockCount(info));
    CountFalseNone(st.blocks);
    forall i | 0 <= i < |sources| && Identity(sources[i]) == info
      ensures HasBlocks(st, sources[i].content)
    {
      CountIsBlocks(sources[i]);
      assert Holds(st, Blocks(sources[i].content), map[]) && FromFile(map[], sources[i].content);
    }
  }

  /** Calls that do not write keep what is held. */
  lemma SameBlocks(st: Status, st': Status, content: seq<byte>)
    requires HasBlocks(st, content)
    requires st'.blocks == st.blocks && st'.remaining == st.remaining && st'.file == st.file
    ensures HasBlocks(st', content)
  {
    hide Blocks, Holds, FromFile;
    var got :| Holds(st, Blocks(content), got) && FromFile(got, content);
    SameHeld(st, st', Blocks(content), got);
  }

  lemma SameHeld(st: Status, st': Status, n: nat, got: map<nat, seq<byte>>)
    requires Holds(st, n, got)
    requires st'.blocks == st.blocks && st'.remaining == st.remaining && st'.file == st.file
    ensures Holds(st', n, got)
  {
    hide Cell;
  }

  lemma WriteFaithful(st: Status, k: nat, content: seq<byte>)
    requires HasBlocks(st, content) && k < |st.blocks|
    ensures HasBlocks(WriteBlock(st, k, BlockAt(content, k)), content)
  {
    hide Blocks, Cell, Holds, BlockAt;
    var got :| Holds(st, Blocks(content), got) && FromFile(got, content);
    var d := SyncStatuses.Delivery(k, BlockAt(content, k));
    BlockSize(content, k);
    HeldSize(st, Blocks(content), got);
    WriteHolds(st, Blocks(content), got, d);
    assert FromFile(Learn(got, d), content);
  }

  lemma HeldSize(st: Status, n: nat, got: map<nat, seq<byte>>)
    requires Holds(st, n, got)
    ensures |st.blocks| == n
  {
  }

  ghost predicate WorldFaithful(w: World, info: FileInfo, sources: seq<Source>) {
    Faithful(w.st, info, sources) && DiskFaithful(w.disk, sources)
  }

  /** A call whose argument is true. */
  ghost predicate CallTrue(call: Call, info: FileInfo, sources: seq<Source>) {
    match call
    case CallWrite(k, data) =>
      forall i :: 0 <= i < |sources| && Identity(sources[i]) == info ==> data == BlockAt(sources[i].content, k)
    case CallPath(path) => Announced(sources, info, path)
    case _ => true
  }

  lemma PerformFaithful(w: World, call: Call, info: FileInfo, sources: seq<Source>)
    requires WorldFaithful(w, info, sources) && Callable(w.st, call) && CallTrue(call, info, sources)
    ensures WorldFaithful(Perform(w, call), info, sources)
  {
    hide Identity, BlockAt, HasBlocks, Sound, WriteBlock, Perform;
    InstallsOnlyComplete(w, call);
    PerformBlocks(w, call);
    PerformStatus(w, call, info, sources);
    if Perform(w, call).disk != w.disk {
      InstallFaithful(w, info, sources);
    }
  }

  lemma PerformBlocks(w: World, call: Call)
    requires Callable(w.st, call)
    ensures
      var st, st' := w.st, Perform(w, call).st;
      if call.CallWrite? then st' == WriteBlock(st, call.block, call.data)
      else st'.blocks == st.blocks && st'.remaining == st.remaining && st'.file == st.file
    ensures Perform(w, call).st.path == if call.CallPath? then call.path else w.st.path
  {
    hide WriteAt;
  }

  lemma PerformStatus(w: World, call: Call, info: FileInfo, sources: seq<Source>)
    requires WorldFaithful(w, info, sources) && Callable(w.st, call) && CallTrue(call, info, sources)
    ensures Faithful(Perform(w, call).st, info, sources)
  {
    hide Identity, BlockAt, HasBlocks, Sound, WriteBlock, Perform;
    InstallsOnlyComplete(w, call);
    PerformBlocks(w, call);
    forall i | 0 <= i < |sources| && Identity(sources[i]) == info
      ensures HasBlocks(Perform(w, call).st, sources[i].content)
    {
      if call.CallWrite? {
        WriteFaithful(w.st, call.block, sources[i].content);
      } else {
        SameBlocks(w.st, Perform(w, call).st, sources[i].content);
      }
    }
  }

  /** A complete transfer with a path holds a file that is served under that path. */
  lemma InstallFaithful(w: World, info: FileInfo, sources: seq<Source>)
    requires WorldFaithful(w, info, sources)
    requires w.st.remaining == 0 && w.st.path != []
    ensures DiskFaithful(w.disk[w.st.path := w.st.file], sources)
  {
    hide Identity, HasBlocks, Sound;
    var i :| 0 <= i < |sources| && AnnouncedBy(sources[i], info, w.st.path);
    CompleteIsSource(w.st, sources[i].content);
    assert ServedAs(sources[i], w.st.path, w.st.file);
  }

  lemma CompleteIsSource(st: Status, content: seq<byte>)
    requires HasBlocks(st, content) && Sound(st) && st.remaining == 0
    ensures st.file == content
  {
    hide Blocks, Holds, Sound;
    var got :| Holds(st, Blocks(content), got) && FromFile(got, content);
    CompleteFile(st, got, content);
  }

  lemma FinishFaithful(w: World, replies: nat, info: FileInfo, sources: seq<Source>)
    requires WorldFaithful(w, info, sources)
    ensures WorldFaithful(Finish(w, replies).w, info, sources)
  {
    hide WorldFaithful, Perform;
    PerformFaithful(w, CallSync, info, sources);
  }

  lemma LeaveFaithful(w: World, clients: Result<seq<uint4>>, id: uint4, info: FileInfo, sources: seq<Source>)
    requires WorldFaithful(w, info, sources)
    ensures WorldFaithful(Leave(w, clients, id).w, info, sources)
  {
    hide WorldFaithful, Perform;
    PerformFaithful(w, CallTransfer, info, sources);
    PerformFaithful(Perform(w, CallTransfer), CallGoodbye, info, sources);
  }

  lemma ApplyFaithful(w: World, note: Note, id: uint4, info: FileInfo, sources: seq<Source>)
    requires WorldFaithful(w, info, sources) && NoteFits(w.st, note) && NoteTrue(note, info, sources)
    ensures WorldFaithful(Apply(w, note, id).w, info, sources)
  {
    hide WorldFaithful, Perform, Leave, Finish;
    match note
    case InfoNote(path) =>
      PerformFaithful(w, CallPath(path), info, sources);
      FinishFaithful(Perform(w, CallPath(path)), 0, info, sources);
    case BlockNote(k, data) =>
      PerformFaithful(w, CallWrite(k, data), info, sources);
      FinishFaithful(Perform(w, CallWrite(k, data)), 0, info, sources);
    case GoodbyeNote(clients) =>
      var left := Leave(w, clients, id);
      LeaveFaithful(w, clients, id, info, sources);
      FinishFaithful(left.w, left.replies, info, sources);
  }

  lemma ReceiveFaithful(c: Client, datagram: seq<byte>, sources: seq<Source>)
    requires Assumed(sources) && ClientFaithful(c, sources) && Proper(datagram)
    requires Read(datagram).About? ==> NoteTrue(Read(datagram).note, Read(datagram).info, sources)
    ensures ClientFaithful(BlockClients.Step(c, datagram), sources)
  {
    hide Read, Proper, Assumed, Apply, Faithful, DiskFaithful, GetBlockCount;
    if c.alive && Read(datagram).About? {
      var info, note := Read(datagram).info, Read(datagram).note;
      ReadFits(datagram, c.entries);
      NewIsFaithful(info, sources);
      ApplyFaithful(World(Lookup(c.entries, info), c.disk), note, c.id, info, sources);
    }
  }

  // Every run.

  /** A pass of the client in which nothing or a true datagram arrives. */
  lemma PassKeeps(c: Client, e: BlockServers.Event, sources: seq<Source>)
    requires Assumed(sources) && ClientKeeps(c, sources)
    requires e.incoming.Some? ==> Proper(e.incoming.value)
    requires e.incoming.Some? && Read(e.incoming.value).About? ==>
      NoteTrue(Read(e.incoming.value).note, Read(e.incoming.value).info, sources)
    ensures ClientKeeps(BlockClients.Select(c, e), sources)
  {
    hide Proper, Read, Assumed, NoteTrue, BlockClients.Step;
    hide BlockClients.Select, Spoken, Faithful, DiskFaithful, GetBlockCount;
    SameAsItself(c);
    SelectSameReader(c, c, e);
    SelectSpoken(c, e);
    if e.incoming.Some? {
      ReceiveFaithful(c, e.incoming.value, sources);
      StepKeepsWaiting(c, e.incoming.value);
    }
  }

  lemma StepKeepsWaiting(c: Client, datagram: seq<byte>)
    requires Fits(c.entries) && Proper(datagram) && Waiting(c.entries)
    ensures Waiting(BlockClients.Step(c, datagram).entries)
  {
    hide Proper, Read, GetBlockCount, BlockClients.Step, Waiting;
    if c.alive {
      StepWaiting(c, datagram, FileInfo(Zeros(33), 0));
    } else {
      DeadStays(c, datagram);
    }
  }

  lemma MoveKeeps(s: System, move: Move, s': System, sources: seq<Source>)
    requires Assumed(sources) && Invariant(s, sources) && Moves(s, move, s')
    ensures Invariant(s', sources)
  {
    hide Proper, Read, Assumed, BlockServers.Step, BlockServers.PacketOf, BlockServers.Ordered, BlockClients.Select;
    hide Waiting, Spoken, Faithful, DiskFaithful, GetBlockCount;
    if move.Serve? {
      BlockServers.StepKeeps(s.servers[move.i], move.event);
    } else {
      FindsTrue(s, move, sources);
      PassKeeps(s.client, Finds(s, move), sources);
    }
  }

  /** Whatever the client finds is properly formed and true. */
  lemma FindsTrue(s: System, move: Move, sources: seq<Source>)
    requires Assumed(sources) && Invariant(s, sources) && Possible(s, move) && !move.Serve?
    ensures
      var e := Finds(s, move);
      e.incoming.Some? ==>
        && Proper(e.incoming.value)
        && (Read(e.incoming.value).About? ==>
            NoteTrue(Read(e.incoming.value).note, Read(e.incoming.value).info, sources))
  {
    hide Proper, Read, Assumed, BlockServers.PacketOf, BlockServers.Ordered, ClientKeeps;
    if move.Deliver? {
      SentIsTrue(s.servers[move.i], move.j, move.i, sources);
    }
  }

  lemma StartKeeps(s: System, sources: seq<Source>)
    requires Assumed(sources) && Begins(s, sources)
    ensures Invariant(s, sources)
  {
    hide BlockServers.Ordered, Assumed, CHello, CGoodbye;
    forall i | 0 <= i < |sources|
      ensures BlockServers.Ordered(s.servers[i])
    {
      BlockServers.RunKeeps(sources[i], []);
    }
    var host: uint4 :| s.client == BlockClients.StartState(s.client.id, host, map[]);
    assert s.client.said + s.client.outbox == Speech(s.client.id, host, 0);
  }

  lemma {:induction false} RunKeeps(states: seq<System>, moves: seq<Move>, sources: seq<Source>, n: nat)
    requires IsRun(states, moves, sources) && n < |states|
    ensures Invariant(states[n], sources)
  {
    hide Invariant, Moves, Assumed, Begins;
    if n == 0 {
      StartKeeps(states[0], sources);
    } else {
      RunKeeps(states, moves, sources, n - 1);
      MoveKeeps(states[n - 1], moves[n - 1], states[n], sources);
    }
  }

  /** End to end: in every state of every run, a transfer with no missing block holds the file
      that is served under its identity, byte for byte. */
  lemma EndToEnd(states: seq<System>, moves: seq<Move>, sources: seq<Source>, n: nat, i: nat)
    requires IsRun(states, moves, sources) && n < |states| && i < |sources|
    ensures
      var entries, info := states[n].client.entries, Identity(sources[i]);
      info in entries && entries[info].remaining == 0 ==> entries[info].file == sources[i].content
  {
    hide IsRun, HasBlocks, Sound, Identity;
    RunKeeps(states, moves, sources, n);
    var entries, info := states[n].client.entries, Identity(sources[i]);
    if info in entries && entries[info].remaining == 0 {
      CompleteIsSource(entries[info], sources[i].content);
    }
  }

  /** And every file that the client has installed is one of the files served, whole, under the
      path that its server announced. */
  lemma InstalledIsServed(states: seq<System>, moves: seq<Move>, sources: seq<Source>, n: nat, path: seq<byte>)
    requires IsRun(states, moves, sources) && n < |states| && path in states[n].client.disk
    ensures exists i :: 0 <= i < |sources| && ServedAs(sources[i], path, states[n].client.disk[path])
  {
    hide IsRun, Faithful;
    RunKeeps(states, moves, sources, n);
  }

  /** All that the client has sent is one hello, first, and goodbyes. */
  lemma ClientSays(states: seq<System>, moves: seq<Move>, sources: seq<Source>, n: nat)
    requires IsRun(states, moves, sources) && n < |states|
    ensures
      var c := states[n].client;
      exists host: uint4, k: nat :: c.said <= Speech(c.id, host, k)
  {
    hide IsRun, Waiting, ClientFaithful, Speech;
    RunKeeps(states, moves, sources, n);
    var c := states[n].client;
    var host, k :| c.said + c.outbox == Speech(c.id, host, k);
    assert c.said <= Speech(c.id, host, k);
  }

  /** All of which reaches clients as a stray datagram, and is ignored. */
  lemma SaidIsStray(states: seq<System>, moves: seq<Move>, sources: seq<Source>, n: nat, j: nat, writable: bool)
    requires IsRun(states, moves, sources) && n < |states| && j < |states[n].client.said|
    ensures
      var p := states[n].client.said[j];
      Possible(states[n], Stray(p, writable)) && Read(p) == Ignored
  {
    hide IsRun, Waiting, ClientFaithful, Spoken, Proper, Read;
    RunKeeps(states, moves, sources, n);
    var c := states[n].client;
    SpokenIgnored(c);
    assert c.said[j] == (c.said + c.outbox)[j];
  }

  // Installed files stay.

  lemma MoveKeepsInstalled(s: System, move: Move, s': System, sources: seq<Source>, path: seq<byte>)
    requires Assumed(sources) && Invariant(s, sources) && Moves(s, move, s') && path in s.client.disk
    ensures path in s'.client.disk
  {
    hide Proper, Read, Assumed, BlockServers.Step, BlockServers.PacketOf, BlockServers.Ordered, BlockClients.Select;
    hide Waiting, Spoken, Faithful, DiskFaithful, GetBlockCount, BlockClients.Step, NoteTrue;
    if !move.Serve? {
      var c, e := s.client, Finds(s, move);
      FindsTrue(s, move, sources);
      SameAsItself(c);
      SelectSameReader(c, c, e);
      if e.incoming.Some? {
        StepKeepsInstalled(c, e.incoming.value, path);
      }
    }
  }

  lemma ApplyKeepsInstalled(w: World, note: Note, id: uint4, path: seq<byte>)
    requires NoteFits(w.st, note) && path in w.disk
    ensures path in Apply(w, note, id).w.disk
  {
    hide WriteBlock;
  }

  lemma StepKeepsInstalled(c: Client, datagram: seq<byte>, path: seq<byte>)
    requires Fits(c.entries) && Proper(datagram) && path in c.disk
    ensures path in BlockClients.Step(c, datagram).disk
  {
    hide Proper, Read, GetBlockCount, Apply;
    if c.alive && Read(datagram).About? {
      var info, note := Read(datagram).info, Read(datagram).note;
      ReadFits(datagram, c.entries);
      ApplyKeepsInstalled(World(Lookup(c.entries, info), c.disk), note, c.id, path);
    }
  }

  /** No two different files are served under this path. */
  predicate OneContent(sources: seq<Source>, path: seq<byte>) {
    forall i, j :: 0 <= i < |sources| && 0 <= j < |sources| && sources[i].path == path == sources[j].path ==>
      sources[i].content == sources[j].content
  }

  /** Once installed, a file is there, with the same content, in every later state, if no two
      different files are served under its path. */
  lemma {:induction false} InstalledStays(states: seq<System>, moves: seq<Move>, sources: seq<Source>,
      m: nat, n: nat, path: seq<byte>)
    requires IsRun(states, moves, sources) && m <= n < |states| && path in states[m].client.disk
    requires OneContent(sources, path)
    ensures path in states[n].client.disk && states[n].client.disk[path] == states[m].client.disk[path]
    decreases n
  {
    hide Invariant, Moves, Assumed, Begins;
    if m == n {
    } else {
      InstalledStays(states, moves, sources, m, n - 1, path);
      RunKeeps(states, moves, sources, n - 1);
      MoveKeepsInstalled(states[n - 1], moves[n - 1], states[n], sources, path);
      InstalledIsServed(states, moves, sources, m, path);
      InstalledIsServed(states, moves, sources, n, path);
    }
  }

  // The handshake.

  /** The hello that a client sends first registers its host, whatever number it has. */
  lemma HelloRegisters(server: Server, id: uint4, host: uint4)
    ensures BlockServers.Process(server, CHello(id, host)) == server.(hosts := server.hosts + {LittleEndian(host)})
  {
    hide Build, Receive, GetType, GetMetadata, LittleEndian;
    assert Packet(id, MESSAGE_TYPE_CHELLO, LittleEndian(host), []) == CHello(id, host);
    PacketFields(id, MESSAGE_TYPE_CHELLO, LittleEndian(host), []);
  }

  /** The acknowledgement that a client sends carries no host, so any server that handles it
      stops with an exception: the closing handshake never succeeds. */
  lemma AcknowledgementStopsServer(server: Server, id: uint4)
    ensures !BlockServers.Process(server, CGoodbye(id)).alive
  {
    hide Build, Receive, GetType, GetMetadata;
    assert Packet(id, MESSAGE_TYPE_CGOODBYE, [], []) == CGoodbye(id);
    PacketFields(id, MESSAGE_TYPE_CGOODBYE, [], []);
    PacketRoundTrip(id, MESSAGE_TYPE_CGOODBYE, [], []);
  }
}
