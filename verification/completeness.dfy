/**
 Enough packets complete a transfer: for a client that gets the packets of one file, and in the
 runs of the whole system, with loss, repetition, reordering and other files in between.
 */
module Completeness {
  import opened Bytes
  import opened Streams
  import opened FileInfos
  import opened Messages
  import opened SyncStatuses
  import BlockServers
  import opened BlockClients
  import opened Transfer

  type Event = BlockServers.Event

  // Packets alone.

  predicate OfSource(source: Source, items: seq<BlockServers.Item>) {
    forall j :: 0 <= j < |items| && items[j].BlockItem? ==> items[j].block < BlockServers.Count(source)
  }

  /** The entry has seen exactly these blocks, and no goodbye. */
  predicate Seen(st: Status, items: seq<BlockServers.Item>, n: nat) {
    && |st.blocks| == n && !st.goodbye
    && forall k :: 0 <= k < n ==> (st.blocks[k] <==> BlockServers.BlockItem(k) in items)
  }

  predicate Tracks(c: Client, source: Source, items: seq<BlockServers.Item>) {
    && Fits(c.entries) && c.alive
    && (items != [] ==> Identity(source) in c.entries)
    && Seen(Lookup(c.entries, Identity(source)), items, BlockServers.Count(source))
  }

  lemma ItemsProper(source: Source, items: seq<BlockServers.Item>)
    requires Servable(source) && OfSource(source, items)
    ensures forall d :: d in BlockServers.PacketsOf(source, items) ==> Proper(d)
  {
    hide Proper, BlockServers.PacketOf, Read, BlockServers.Count;
    forall d | d in BlockServers.PacketsOf(source, items)
      ensures Proper(d)
    {
      var j :| 0 <= j < |items| && d == BlockServers.PacketOf(source, items[j]);
      match items[j]
      case InfoItem => InfoPacketRead(source);
      case BlockItem(k) => BlockPacketRead(source, k);
    }
  }

  lemma StepTracks(c: Client, source: Source, items: seq<BlockServers.Item>, item: BlockServers.Item)
    requires Servable(source) && (item.InfoItem? ==> |source.path| <= 4056)
    requires OfSource(source, [item]) && Tracks(c, source, items)
    ensures
      var p := BlockServers.PacketOf(source, item);
      Proper(p) && Tracks(BlockClients.Step(c, p), source, items + [item])
  {
    hide Proper, Read, BlockServers.PacketOf, BlockAt, Identity, BlockServers.Count, GetBlockCount, Fits, WriteAt;
    CountIsBlocks(source);
    assert [item][0] == item;
    match item
    case InfoItem =>
      InfoPacketRead(source);
    case BlockItem(k) =>
      BlockPacketRead(source, k);
  }

  lemma {:induction false} RunTracks(c: Client, source: Source, items: seq<BlockServers.Item>)
    requires Servable(source) && OfSource(source, items)
    requires BlockServers.InfoItem in items ==> |source.path| <= 4056
    requires c.entries == map[] && c.alive
    requires forall d :: d in BlockServers.PacketsOf(source, items) ==> Proper(d)
    ensures Tracks(BlockClients.Run(c, BlockServers.PacketsOf(source, items)), source, items)
  {
    hide Proper, BlockServers.PacketOf, Identity, BlockServers.Count, GetBlockCount, BlockClients.Step;
    if items == [] {
      CountIsBlocks(source);
    } else {
      var front, last := items[..|items| - 1], items[|items| - 1];
      BlockServers.PacketsOfSnoc(source, front, last);
      assert items == front + [last] && last in items;
      var ds := BlockServers.PacketsOf(source, items);
      assert ds[..|ds| - 1] == BlockServers.PacketsOf(source, front);
      RunTracks(c, source, front);
      StepTracks(BlockClients.Run(c, BlockServers.PacketsOf(source, front)), source, front, last);
    }
  }

  lemma {:induction false} RunFaithful(c: Client, source: Source, items: seq<BlockServers.Item>)
    requires Servable(source) && OfSource(source, items) && c.entries == map[] && c.disk == map[]
    requires forall d :: d in BlockServers.PacketsOf(source, items) ==> Proper(d)
    ensures ClientFaithful(BlockClients.Run(c, BlockServers.PacketsOf(source, items)), [source])
  {
    hide Proper, Read, BlockServers.PacketOf, Identity;
    hide BlockServers.Count, GetBlockCount, BlockClients.Step, Faithful, BlockAt;
    if items == [] {
    } else {
      var front, last := items[..|items| - 1], items[|items| - 1];
      BlockServers.PacketsOfSnoc(source, front, last);
      assert items == front + [last];
      var ds := BlockServers.PacketsOf(source, items);
      assert ds[..|ds| - 1] == BlockServers.PacketsOf(source, front);
      assert ds[|ds| - 1] in ds;
      RunFaithful(c, source, front);
      var sources := [source];
      match last {
        case InfoItem =>
          InfoPacketRead(source);
          assert AnnouncedBy(sources[0], Identity(source), source.path);
        case BlockItem(k) =>
          BlockPacketRead(source, k);
      }
      ReceiveFaithful(BlockClients.Run(c, BlockServers.PacketsOf(source, front)), ds[|ds| - 1], sources);
    }
  }

  /** Any packets of a file, at least one, in any order and with any repetition: if every block is
      among them, the client ends with no missing block and with the whole file.  Announcements
      may be lost. */
  lemma PacketsSuffice(c: Client, source: Source, items: seq<BlockServers.Item>)
    requires Servable(source) && OfSource(source, items)
    requires BlockServers.InfoItem in items ==> |source.path| <= 4056
    requires c.entries == map[] && c.disk == map[] && c.alive
    requires items != [] && forall k :: 0 <= k < BlockServers.Count(source) ==> BlockServers.BlockItem(k) in items
    ensures
      var ds := BlockServers.PacketsOf(source, items);
      && (forall d :: d in ds ==> Proper(d))
      && var entries, info := BlockClients.Run(c, ds).entries, Identity(source);
         info in entries && entries[info].remaining == 0 && entries[info].file == source.content
  {
    hide Proper, BlockServers.PacketOf, Identity, BlockServers.Count, HasBlocks, BlockClients.Run, GetBlockCount;
    ItemsProper(source, items);
    RunTracks(c, source, items);
    RunFaithful(c, source, items);
    var st := BlockClients.Run(c, BlockServers.PacketsOf(source, items)).entries[Identity(source)];
    CountFalseZero(st.blocks);
    assert Identity([source][0]) == Identity(source);
    CompleteIsSource(st, source.content);
  }

  // Runs of the system.

  /** This move brings the client a packet about file `f`, by any of the servers. */
  predicate Delivers(s: System, move: Move, f: FileInfo, item: BlockServers.Item) {
    && move.Deliver? && move.i < |s.servers| && move.j < |s.servers[move.i].sent|
    && Identity(s.servers[move.i].source) == f && s.servers[move.i].sent[move.j] == item
  }

  /** A packet about file `f` has arrived before move `n`. */
  ghost predicate Arrived(states: seq<System>, moves: seq<Move>, n: nat, f: FileInfo, item: BlockServers.Item)
    requires n <= |moves| < |states|
  {
    exists m :: 0 <= m < n && Delivers(states[m], moves[m], f, item)
  }

  /** No server goodbye about file `f` that names this client. */
  predicate NoGoodbye(move: Move, f: FileInfo, id: uint4) {
    move.Goodbye? && IsGoodbye(move.datagram) ==> !NamesClient(move.datagram, f, id)
  }

  /** The client has made use of the packet. */
  predicate Marked(c: Client, f: FileInfo, item: BlockServers.Item) {
    f in c.entries && (item.BlockItem? ==> item.block < |c.entries[f].blocks| && c.entries[f].blocks[item.block])
  }

  lemma StepMarked(c: Client, datagram: seq<byte>, f: FileInfo, item: BlockServers.Item)
    requires Fits(c.entries) && Proper(datagram) && Waiting(c.entries) && Marked(c, f, item)
    requires !NamesClient(datagram, f, c.id)
    ensures Marked(BlockClients.Step(c, datagram), f, item)
  {
    hide Proper, Read, GetBlockCount, Apply, BlockServers.Count;
    if c.alive && Read(datagram).About? {
      var info, note := Read(datagram).info, Read(datagram).note;
      ReadFits(datagram, c.entries);
      if info == f {
        ApplyMarked(World(c.entries[f], c.disk), note, c.id);
      }
    }
  }

  /** Nothing but a goodbye that names this client drops a transfer, and nothing clears a mark. */
  lemma ApplyMarked(w: World, note: Note, id: uint4)
    requires NoteFits(w.st, note) && !w.st.goodbye
    requires note.GoodbyeNote? && note.clients.Ok? ==> id !in note.clients.value
    ensures
      var a := Apply(w, note, id);
      && !a.done && (a.ok || note.GoodbyeNote?) && |a.w.st.blocks| == |w.st.blocks|
      && (forall k :: 0 <= k < |w.st.blocks| && w.st.blocks[k] ==> a.w.st.blocks[k])
      && (note.BlockNote? ==> a.w.st.blocks[note.block])
  {
    hide WriteAt;
  }

  /** The arrival of a packet is made use of, unless it is an announcement too long to receive. */
  lemma StepMarks(c: Client, source: Source, item: BlockServers.Item)
    requires Servable(source) && OfSource(source, [item]) && Fits(c.entries) && Waiting(c.entries) && c.alive
    ensures
      var p := BlockServers.PacketOf(source, item);
      && Proper(p) && !(Read(p).About? && Read(p).note.GoodbyeNote?)
      && (Fatal(c, p) <==> item.InfoItem? && |source.path| > 4056)
      && (!Fatal(c, p) ==> Marked(BlockClients.Step(c, p), Identity(source), item))
  {
    hide Proper, Read, GetBlockCount, Apply, Identity, BlockServers.Count, BlockServers.PacketOf, BlockAt;
    CountIsBlocks(source);
    var f := Identity(source);
    assert [item][0] == item;
    var w := World(Lookup(c.entries, f), c.disk);
    match item
    case InfoItem =>
      InfoPacketRead(source);
      ApplyMarked(w, InfoNote(source.path), c.id);
    case BlockItem(k) =>
      BlockPacketRead(source, k);
      ApplyMarked(w, BlockNote(k, BlockAt(source.content, k)), c.id);
  }

  lemma SentInRange(server: Server, j: nat)
    requires BlockServers.Ordered(server) && j < |server.sent|
    ensures OfSource(server.source, [server.sent[j]])
  {
    hide BlockServers.Count;
    assert server.enqueued[j] == server.sent[j];
    if server.sent[j].BlockItem? {
      NumberOf(server.enqueued, j);
    }
  }

  /** No pass of a living client drops a mark, and a pass that brings a packet makes one. */
  lemma PassMarked(s: System, move: Move, s': System, sources: seq<Source>, f: FileInfo, item: BlockServers.Item)
    requires Assumed(sources) && Invariant(s, sources) && Moves(s, move, s')
    requires NoGoodbye(move, f, s.client.id) && s'.client.alive
    ensures s.client.alive
    ensures Marked(s.client, f, item) || Delivers(s, move, f, item) ==> Marked(s'.client, f, item)
  {
    hide Proper, Read, GetBlockCount, Identity, BlockServers.Count, BlockServers.PacketOf, BlockServers.Ordered, Marked;
    hide BlockServers.Step, BlockClients.Step, BlockClients.Select, ClientFaithful;
    hide Waiting, Spoken, NoteTrue, Fatal, OfSource;
    if !move.Serve? {
      var c, e := s.client, Finds(s, move);
      InvariantFits(s, sources);
      FindsTrue(s, move, sources);
      SameAsItself(c);
      SelectSameReader(c, c, e);
      if e.incoming.Some? {
        AliveBefore(c, e.incoming.value);
        DiesExactly(c, e.incoming.value);
        if move.Deliver? {
          var server := s.servers[move.i];
          SentInRange(server, move.j);
          StepMarks(c, server.source, server.sent[move.j]);
        }
        if Marked(c, f, item) {
          StepMarked(c, e.incoming.value, f, item);
        }
      }
      MarkedSame(BlockClients.Select(c, e),
        if e.incoming.Some? then BlockClients.Step(c, e.incoming.value) else c, f, item);
    }
  }

  lemma InvariantFits(s: System, sources: seq<Source>)
    requires Invariant(s, sources)
    ensures Fits(s.client.entries) && Waiting(s.client.entries)
  {
    hide Faithful, DiskFaithful, Spoken, BlockServers.Ordered, GetBlockCount;
  }

  lemma MarkedSame(c: Client, c': Client, f: FileInfo, item: BlockServers.Item)
    requires c.entries == c'.entries
    ensures Marked(c, f, item) == Marked(c', f, item)
  {
  }

  lemma {:induction false} ArrivedMarked(states: seq<System>, moves: seq<Move>, sources: seq<Source>,
      n: nat, f: FileInfo, item: BlockServers.Item)
    requires IsRun(states, moves, sources) && n < |states| && states[n].client.alive
    requires forall m :: 0 <= m < n ==> NoGoodbye(moves[m], f, states[m].client.id)
    requires Arrived(states, moves, n, f, item)
    ensures Marked(states[n].client, f, item)
  {
    hide Invariant, Moves, Assumed, Begins, NoGoodbye, Delivers, Marked;
    var m :| 0 <= m < n && Delivers(states[m], moves[m], f, item);
    RunKeeps(states, moves, sources, n - 1);
    PassMarked(states[n - 1], moves[n - 1], states[n], sources, f, item);
    if m < n - 1 {
      ArrivedMarked(states, moves, sources, n - 1, f, item);
    }
  }

  /** If anything about a file has arrived, and every one of its blocks at least once, from whichever
      servers, then a living client has the whole file. */
  lemma DeliveredSuffices(states: seq<System>, moves: seq<Move>, sources: seq<Source>,
      n: nat, i: nat, item: BlockServers.Item)
    requires IsRun(states, moves, sources) && n < |states| && i < |sources| && states[n].client.alive
    requires forall m :: 0 <= m < n ==> NoGoodbye(moves[m], Identity(sources[i]), states[m].client.id)
    requires Arrived(states, moves, n, Identity(sources[i]), item)
    requires forall k :: 0 <= k < BlockServers.Count(sources[i]) ==>
      Arrived(states, moves, n, Identity(sources[i]), BlockServers.BlockItem(k))
    ensures
      var entries, info := states[n].client.entries, Identity(sources[i]);
      info in entries && entries[info].remaining == 0 && entries[info].file == sources[i].content
  {
    hide IsRun, Arrived, NoGoodbye, Identity, BlockServers.Count, GetBlockCount, Invariant;
    var entries, info := states[n].client.entries, Identity(sources[i]);
    ArrivedMarked(states, moves, sources, n, info, item);
    forall k | 0 <= k < BlockServers.Count(sources[i])
      ensures Marked(states[n].client, info, BlockServers.BlockItem(k))
    {
      ArrivedMarked(states, moves, sources, n, info, BlockServers.BlockItem(k));
    }
    EntryShape(states, moves, sources, n, i);
    forall k | 0 <= k < |entries[info].blocks|
      ensures entries[info].blocks[k]
    {
      assert Marked(states[n].client, info, BlockServers.BlockItem(k));
    }
    CountFalseZero(entries[info].blocks);
    EndToEnd(states, moves, sources, n, i);
  }

  lemma EntryShape(states: seq<System>, moves: seq<Move>, sources: seq<Source>, n: nat, i: nat)
    requires IsRun(states, moves, sources) && n < |states| && i < |sources|
    requires Identity(sources[i]) in states[n].client.entries
    ensures
      var st := states[n].client.entries[Identity(sources[i])];
      |st.blocks| == BlockServers.Count(sources[i]) && Sound(st)
  {
    hide Identity, Moves, Begins, HasBlocks, Announced;
    hide Sound, BlockServers.Count, GetBlockCount, Blocks, Waiting, Spoken;
    RunKeeps(states, moves, sources, n);
    CountIsBlocks(sources[i]);
  }

  // What servers send.

  /** A server goodbye has a list of clients that can be read; a stray datagram is ignored. */
  predicate Readable(move: Move) {
    && (move.Goodbye? && IsGoodbye(move.datagram) ==> Read(move.datagram).note.clients.Ok?)
    && (move.Stray? && Proper(move.datagram) ==> Read(move.datagram).Ignored?)
  }

  /** Paths that fit a packet, goodbyes that can be read and ignored datagrams never stop the
      client. */
  lemma {:induction false} Survives(states: seq<System>, moves: seq<Move>, sources: seq<Source>, n: nat)
    requires IsRun(states, moves, sources) && n < |states|
    requires forall i :: 0 <= i < |sources| ==> |sources[i].path| <= 4056
    requires forall m :: 0 <= m < n ==> Readable(moves[m])
    ensures states[n].client.alive
  {
    hide Invariant, Moves, Assumed, Readable;
    if n == 0 {
    } else {
      Survives(states, moves, sources, n - 1);
      RunKeeps(states, moves, sources, n - 1);
      MoveSurvives(states[n - 1], moves[n - 1], states[n], sources);
    }
  }

  lemma MoveSurvives(s: System, move: Move, s': System, sources: seq<Source>)
    requires Assumed(sources) && Invariant(s, sources) && Moves(s, move, s') && s.client.alive && Readable(move)
    requires forall i :: 0 <= i < |sources| ==> |sources[i].path| <= 4056
    ensures s'.client.alive
  {
    hide Proper, Read, GetBlockCount, Identity, BlockServers.Count, BlockServers.PacketOf, BlockServers.Ordered, Marked;
    hide BlockServers.Step, BlockClients.Step, BlockClients.Select, ClientFaithful, Waiting, Spoken, NoteTrue, OfSource;
    if !move.Serve? {
      var c, e := s.client, Finds(s, move);
      InvariantFits(s, sources);
      FindsTrue(s, move, sources);
      SameAsItself(c);
      SelectSameReader(c, c, e);
      if e.incoming.Some? {
        DiesExactly(c, e.incoming.value);
      }
      if move.Deliver? {
        var server := s.servers[move.i];
        SentInRange(server, move.j);
        StepMarks(c, server.source, server.sent[move.j]);
      }
    }
  }

  /** What server `i` finds in its passes. */
  function EventsOf(moves: seq<Move>, i: nat): seq<Event> {
    if moves == [] then []
    else
      var front, last := moves[..|moves| - 1], moves[|moves| - 1];
      EventsOf(front, i) + if last.Serve? && last.i == i then [last.event] else []
  }

  /** In a run of the system each server runs by itself. */
  lemma {:induction false} ServerIsRun(states: seq<System>, moves: seq<Move>, sources: seq<Source>, n: nat, i: nat)
    requires IsRun(states, moves, sources) && n < |states| && i < |sources|
    ensures |states[n].servers| == |sources|
    ensures states[n].servers[i] == BlockServers.Run(BlockServers.StartState(sources[i]), EventsOf(moves[..n], i))
  {
    hide BlockServers.Step, Assumed, ClientPass, IsGoodbye, BlockServers.PacketOf;
    if n == 0 {
      assert moves[..0] == [];
    } else {
      ServerIsRun(states, moves, sources, n - 1, i);
      assert moves[..n][..n - 1] == moves[..n - 1];
      var es := EventsOf(moves[..n - 1], i);
      if moves[n - 1].Serve? && moves[n - 1].i == i {
        BlockServers.RunSnoc(BlockServers.StartState(sources[i]), es, moves[n - 1].event);
      } else {
        assert es + [] == es;
      }
    }
  }

  lemma {:induction false} SentGrows(states: seq<System>, moves: seq<Move>, sources: seq<Source>,
      m: nat, n: nat, i: nat)
    requires IsRun(states, moves, sources) && m <= n < |states| && i < |sources|
    ensures |states[m].servers| == |states[n].servers| == |sources|
    ensures states[m].servers[i].sent <= states[n].servers[i].sent
    decreases n
  {
    hide BlockServers.Step, Assumed, ClientPass, IsGoodbye, BlockServers.PacketOf;
    ServerIsRun(states, moves, sources, m, i);
    if m == n {
    } else {
      SentGrows(states, moves, sources, m, n - 1, i);
      assert Moves(states[n - 1], moves[n - 1], states[n - 1 + 1]);
      if moves[n - 1].Serve? {
        StepSentGrows(states[n - 1].servers[moves[n - 1].i], moves[n - 1].event);
      }
    }
  }

  lemma StepSentGrows(s: Server, e: Event)
    ensures s.sent <= BlockServers.Step(s, e).sent
    ensures |s.enqueued| <= |BlockServers.Step(s, e).enqueued|
  {
    hide BlockServers.Process, BlockServers.Count;
  }

  lemma {:induction false} SentNotEmpty(source: Source, es: seq<BlockServers.Event>)
    ensures BlockServers.Run(BlockServers.StartState(source), es).enqueued != []
  {
    hide BlockServers.Step;
    if es == [] {
    } else {
      SentNotEmpty(source, es[..|es| - 1]);
      StepSentGrows(BlockServers.Run(BlockServers.StartState(source), es[..|es| - 1]), es[|es| - 1]);
    }
  }

  /** When the block numbers are 0 to n - 1, those blocks and no others are among the items. */
  lemma NumbersBound(items: seq<BlockServers.Item>, n: nat)
    requires BlockServers.BlockNumbers(items) == seq(n, i => i)
    ensures forall j :: 0 <= j < |items| && items[j].BlockItem? ==> items[j].block < n
    ensures forall k :: 0 <= k < n ==> BlockServers.BlockItem(k) in items
  {
    forall j | 0 <= j < |items| && items[j].BlockItem?
      ensures items[j].block < n
    {
      NumberOf(items, j);
    }
    forall k | 0 <= k < n
      ensures BlockServers.BlockItem(k) in items
    {
      ItemOf(items, k);
    }
  }

  lemma {:induction false} ItemOf(items: seq<BlockServers.Item>, i: nat)
    requires i < |BlockServers.BlockNumbers(items)|
    ensures BlockServers.BlockItem(BlockServers.BlockNumbers(items)[i]) in items
  {
    var front := items[..|items| - 1];
    if i < |BlockServers.BlockNumbers(front)| {
      ItemOf(front, i);
    }
  }

  predicate IsDelivery(move: Move, i: nat, j: nat) {
    move.Deliver? && move.i == i && move.j == j
  }

  ghost predicate Reached(moves: seq<Move>, n: nat, i: nat, j: nat)
    requires n <= |moves|
  {
    exists m :: 0 <= m < n && IsDelivery(moves[m], i, j)
  }

  /** Every packet that server `i` has sent has reached the client at least once. */
  ghost predicate AllDelivered(states: seq<System>, moves: seq<Move>, n: nat, i: nat)
    requires n <= |moves| < |states| && i < |states[n].servers|
  {
    forall j :: 0 <= j < |states[n].servers[i].sent| ==> Reached(moves, n, i, j)
  }

  lemma SentArrived(states: seq<System>, moves: seq<Move>, sources: seq<Source>,
      n: nat, i: nat, item: BlockServers.Item)
    requires IsRun(states, moves, sources) && n < |states| && i < |sources| && i < |states[n].servers|
    requires AllDelivered(states, moves, n, i) && item in states[n].servers[i].sent
    ensures Arrived(states, moves, n, Identity(sources[i]), item)
  {
    hide Identity, Assumed, BlockServers.Step, BlockServers.Run, ClientPass, IsGoodbye, BlockServers.PacketOf;
    var j :| 0 <= j < |states[n].servers[i].sent| && states[n].servers[i].sent[j] == item;
    assert Reached(moves, n, i, j);
    var m :| 0 <= m < n && IsDelivery(moves[m], i, j);
    SentGrows(states, moves, sources, m, n, i);
    ServerIsRun(states, moves, sources, m, i);
    assert Moves(states[m], moves[m], states[m + 1]);
    assert Delivers(states[m], moves[m], Identity(sources[i]), item);
  }

  /** End to end, the other way: take a server whose block loop met no exception and, before its
      last pass, at most three requests and idle passes, and whose queue is empty now.  If all it
      sent has reached the client, with whatever repetition, in whatever order and with whatever
      in between, then the client has the whole file. */
  lemma SentSuffices(states: seq<System>, moves: seq<Move>, sources: seq<Source>, n: nat, i: nat)
    requires IsRun(states, moves, sources) && n < |states| && i < |sources| && i < |states[n].servers|
    requires forall k :: 0 <= k < |sources| ==> |sources[k].path| <= 4056
    requires forall m :: 0 <= m < n ==>
      NoGoodbye(moves[m], Identity(sources[i]), states[m].client.id) && Readable(moves[m])
    requires
      var es, count := EventsOf(moves[..n], i), BlockServers.Count(sources[i]);
      && count <= |es| && BlockServers.AllHarmless(es[..count])
      && (count > 0 ==> BlockServers.Requests(es[..count - 1]) + BlockServers.Idles(es[..count - 1]) <= 3)
    requires states[n].servers[i].queue == [] && AllDelivered(states, moves, n, i)
    ensures
      var entries, info := states[n].client.entries, Identity(sources[i]);
      info in entries && entries[info].remaining == 0 && entries[info].file == sources[i].content
  {
    assert |states| == |moves| + 1;
    hide IsRun, Arrived, NoGoodbye, Readable, Identity, BlockServers.Count, AllDelivered, BlockServers.BlockNumbers;
    hide BlockServers.Run, BlockServers.AllHarmless;
    var es := EventsOf(moves[..n], i);
    var server := states[n].servers[i];
    ServerIsRun(states, moves, sources, n, i);
    Survives(states, moves, sources, n);
    BlockServers.WholeFileSent(sources[i], es);
    NumbersBound(server.sent, BlockServers.Count(sources[i]));
    BlockServers.RunKeeps(sources[i], es);
    SentNotEmpty(sources[i], es);
    assert server.sent + [] == server.sent;
    SentArrived(states, moves, sources, n, i, server.sent[0]);
    forall k | 0 <= k < BlockServers.Count(sources[i])
      ensures Arrived(states, moves, n, Identity(sources[i]), BlockServers.BlockItem(k))
    {
      SentArrived(states, moves, sources, n, i, BlockServers.BlockItem(k));
    }
    DeliveredSuffices(states, moves, sources, n, i, server.sent[0]);
  }

  // Exceptions.

  /** A header of zeros and nothing else is enough to stop a client: a file announced after it is not known,
      although its own datagrams alone would have made it known. */
  lemma StrayHeaderStops(c: Client, source: Source)
    requires Servable(source) && |source.path| <= 4056
    requires Fits(c.entries) && Waiting(c.entries) && c.alive && Identity(source) !in c.entries
    ensures
      var f, stray, p := Identity(source), Zeros(HEADER_SIZE), BlockServers.PacketOf(source, BlockServers.InfoItem);
      && Proper(stray) && Proper(p) && !Concerns(stray, f)
      && f !in BlockClients.Run(c, [stray, p]).entries
      && f in BlockClients.Run(c, Only([stray, p], f)).entries
  {
    hide Proper, Read, GetBlockCount, Identity, BlockServers.PacketOf, BlockClients.Step, BlockClients.Run, Only;
    var f, stray, p := Identity(source), Zeros(HEADER_SIZE), BlockServers.PacketOf(source, BlockServers.InfoItem);
    StrayRejected(stray);
    DiesExactly(c, stray);
    RejectedKeeps(c, stray);
    InfoPacketRead(source);
    StepMarks(c, source, BlockServers.InfoItem);
    assert [stray, p] == [] + [stray] + [p];
    HeardNone(c);
    OnlyNone(c, f);
    BlockClients.RunSnoc(c, [], stray);
    BlockClients.RunSnoc(c, [] + [stray], p);
    OnlySnoc(c, [], stray, f);
    OnlySnoc(c, [] + [stray], p, f);
    DeadStays(BlockClients.Step(c, stray), p);
  }

  lemma StrayRejected(stray: seq<byte>)
    requires stray == Zeros(HEADER_SIZE)
    ensures Proper(stray) && Read(stray) == Rejected
  {
    assert HeaderOf(stray) == stray == stray[..HEADER_SIZE];
    assert stray[4..8] == [0, 0, 0, 0] && stray[12..14] == [0, 0];
  }

  lemma RejectedKeeps(c: Client, datagram: seq<byte>)
    requires Fits(c.entries) && Proper(datagram) && Read(datagram).Rejected?
    ensures BlockClients.Step(c, datagram).entries == c.entries
  {
    hide Proper, Read, GetBlockCount;
  }
}
