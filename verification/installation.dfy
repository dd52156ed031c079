/**
 What installs a file: which moves change the disk, and when a served file gets there.
 */
module Installation {
  import opened Bytes
  import opened Streams
  import opened FileInfos
  import opened Messages
  import opened SyncStatuses
  import BlockServers
  import opened BlockClients
  import opened Transfer
  import opened Completeness

  // What changes the disk.

  /** A goodbye for a listed and complete transfer, with a path, that was not installed before. */
  predicate Installs(c: Client, datagram: seq<byte>)
    requires Proper(datagram)
  {
    && c.alive && Read(datagram).About? && Read(datagram).note.GoodbyeNote?
    && Read(datagram).info in c.entries
    && Completed(c.entries[Read(datagram).info]) && !c.entries[Read(datagram).info].moved
  }

  function Installed(c: Client, datagram: seq<byte>): Status
    requires Proper(datagram) && Installs(c, datagram)
  {
    c.entries[Read(datagram).info]
  }

  /** Exactly such a goodbye changes the disk. */
  lemma StepDisk(c: Client, datagram: seq<byte>)
    requires Fits(c.entries) && Proper(datagram) && Waiting(c.entries)
    ensures BlockClients.Step(c, datagram).disk ==
      if Installs(c, datagram) then c.disk[Installed(c, datagram).path := Installed(c, datagram).file] else c.disk
  {
    hide Proper, Read, GetBlockCount, Apply;
    if c.alive && Read(datagram).About? {
      var info, note := Read(datagram).info, Read(datagram).note;
      ReadFits(datagram, c.entries);
      ApplyDisk(World(Lookup(c.entries, info), c.disk), note, c.id);
    }
  }

  lemma ApplyDisk(w: World, note: Note, id: uint4)
    requires NoteFits(w.st, note) && !w.st.goodbye
    ensures Apply(w, note, id).w.disk == if note.GoodbyeNote? then Install(w.st, w.disk) else w.disk
  {
    hide WriteAt;
  }

  predicate InstallsNow(s: System, move: Move) {
    move.Goodbye? && IsGoodbye(move.datagram) && Installs(s.client, move.datagram)
  }

  /** The same in a run: no other move changes the disk. */
  lemma MoveDisk(s: System, move: Move, s': System, sources: seq<Source>)
    requires Assumed(sources) && Invariant(s, sources) && Moves(s, move, s')
    ensures s'.client.disk ==
      if InstallsNow(s, move) then
        s.client.disk[Installed(s.client, move.datagram).path := Installed(s.client, move.datagram).file]
      else s.client.disk
  {
    hide Proper, Read, GetBlockCount, Identity, BlockServers.Count, BlockServers.PacketOf, BlockServers.Ordered, Marked;
    hide BlockServers.Step, BlockClients.Step, BlockClients.Select, ClientFaithful, Waiting, Spoken, NoteTrue;
    hide OfSource, Fatal, Completed;
    if !move.Serve? {
      var c, e := s.client, Finds(s, move);
      InvariantFits(s, sources);
      FindsTrue(s, move, sources);
      SameAsItself(c);
      SelectSameReader(c, c, e);
      if e.incoming.Some? {
        StepDisk(c, e.incoming.value);
      }
      if move.Deliver? && c.alive {
        var server := s.servers[move.i];
        SentInRange(server, move.j);
        StepMarks(c, server.source, server.sent[move.j]);
      }
    }
  }

  /** An installed file is replaced exactly by a goodbye for another complete transfer with the same
      path and other content. */
  lemma ReplacedExactly(states: seq<System>, moves: seq<Move>, sources: seq<Source>, n: nat, path: seq<byte>)
    requires IsRun(states, moves, sources) && n < |moves| && path in states[n].client.disk
    ensures path in states[n + 1].client.disk
    ensures
      var c, c' := states[n].client, states[n + 1].client;
      c'.disk[path] != c.disk[path] <==>
        && InstallsNow(states[n], moves[n])
        && Installed(c, moves[n].datagram).path == path && Installed(c, moves[n].datagram).file != c.disk[path]
  {
    hide Assumed, Begins, Invariant, InstallsNow, Installed, Moves;
    RunKeeps(states, moves, sources, n);
    MoveDisk(states[n], moves[n], states[n + 1], sources);
  }

  /** A goodbye for a complete transfer of a served file puts that file under the announced path. */
  lemma GoodbyeInstalls(states: seq<System>, moves: seq<Move>, sources: seq<Source>, n: nat, i: nat)
    requires IsRun(states, moves, sources) && n < |moves| && i < |sources|
    requires InstallsNow(states[n], moves[n]) && Read(moves[n].datagram).info == Identity(sources[i])
    ensures
      var path, disk := Installed(states[n].client, moves[n].datagram).path, states[n + 1].client.disk;
      path in disk && disk[path] == sources[i].content
  {
    hide Assumed, Begins, Invariant, Moves, Proper, Read, Identity;
    RunKeeps(states, moves, sources, n);
    MoveDisk(states[n], moves[n], states[n + 1], sources);
    EndToEnd(states, moves, sources, n, i);
  }

  // The path of a transfer.

  predicate GoodbyeAbout(move: Move, f: FileInfo) {
    move.Goodbye? && IsGoodbye(move.datagram) && Read(move.datagram).info == f
  }

  /** The path in the announcement of file `f` that arrived last before move `n`. */
  function LatestPath(states: seq<System>, moves: seq<Move>, n: nat, f: FileInfo): seq<byte>
    requires n <= |moves| < |states|
  {
    if n == 0 then []
    else if Delivers(states[n - 1], moves[n - 1], f, BlockServers.InfoItem) then
      states[n - 1].servers[moves[n - 1].i].source.path
    else LatestPath(states, moves, n - 1, f)
  }

  lemma ApplyPath(w: World, note: Note, id: uint4)
    requires NoteFits(w.st, note) && !w.st.goodbye
    requires note.GoodbyeNote? && note.clients.Ok? ==> id !in note.clients.value
    ensures
      var a := Apply(w, note, id);
      && !a.done && a.w.st.path == (if note.InfoNote? then note.path else w.st.path)
      && (!note.GoodbyeNote? ==> a.w.st.moved == w.st.moved)
  {
    hide WriteAt;
  }

  lemma StepPath(c: Client, datagram: seq<byte>, f: FileInfo)
    requires Fits(c.entries) && Proper(datagram) && Waiting(c.entries) && c.alive && !NamesClient(datagram, f, c.id)
    ensures
      var st, st' := Lookup(c.entries, f), Lookup(BlockClients.Step(c, datagram).entries, f);
      var concerns := Read(datagram).About? && Read(datagram).info == f;
      && st'.path == (if concerns && Read(datagram).note.InfoNote? then Read(datagram).note.path else st.path)
      && (!(concerns && Read(datagram).note.GoodbyeNote?) ==> st'.moved == st.moved)
  {
    hide Proper, Read, GetBlockCount, Apply, NewStatus;
    if Read(datagram).About? {
      var info, note := Read(datagram).info, Read(datagram).note;
      ReadFits(datagram, c.entries);
      NewPath(info);
      if info == f {
        ApplyPath(World(Lookup(c.entries, f), c.disk), note, c.id);
      }
    }
  }

  lemma NewPath(info: FileInfo)
    ensures NewStatus(GetBlockCount(info)).path == [] && !NewStatus(GetBlockCount(info)).moved
    ensures !NewStatus(GetBlockCount(info)).goodbye
  {
    hide GetBlockCount;
  }

  /** What an item of a server says to a client that survives it. */
  lemma ItemRead(source: Source, item: BlockServers.Item)
    requires Servable(source) && OfSource(source, [item])
    ensures
      var p := BlockServers.PacketOf(source, item);
      Proper(p) && if Read(p).About? then
        && Read(p).info == Identity(source) && !Read(p).note.GoodbyeNote?
        && (Read(p).note.InfoNote? <==> item.InfoItem?) && (item.InfoItem? ==> Read(p).note.path == source.path)
      else Read(p).Rejected?
  {
    hide Proper, Read, Identity, BlockServers.Count, BlockServers.PacketOf, BlockAt;
    assert [item][0] == item;
    match item
    case InfoItem => InfoPacketRead(source);
    case BlockItem(k) => BlockPacketRead(source, k);
  }

  /** The path changes with an announcement of the file and with nothing else. */
  lemma PassPath(s: System, move: Move, s': System, sources: seq<Source>, f: FileInfo)
    requires Assumed(sources) && Invariant(s, sources) && Moves(s, move, s') && s'.client.alive
    requires NoGoodbye(move, f, s.client.id)
    ensures
      var st, st' := Lookup(s.client.entries, f), Lookup(s'.client.entries, f);
      && s.client.alive
      && st'.path == (if Delivers(s, move, f, BlockServers.InfoItem) then s.servers[move.i].source.path else st.path)
      && (!GoodbyeAbout(move, f) ==> st'.moved == st.moved)
  {
    hide Proper, Read, GetBlockCount, Identity, BlockServers.Count, BlockServers.PacketOf, BlockServers.Ordered;
    hide BlockServers.Step, BlockClients.Step, BlockClients.Select, ClientFaithful, Waiting, Spoken, NoteTrue;
    hide OfSource, Fatal, Lookup;
    if !move.Serve? {
      var c, e := s.client, Finds(s, move);
      InvariantFits(s, sources);
      FindsTrue(s, move, sources);
      SameAsItself(c);
      SelectSameReader(c, c, e);
      if e.incoming.Some? {
        AliveBefore(c, e.incoming.value);
        if move.Deliver? {
          var server := s.servers[move.i];
          SentInRange(server, move.j);
          ItemRead(server.source, server.sent[move.j]);
        }
        if Read(e.incoming.value).Rejected? {
          RejectedDies(c, e.incoming.value);
        }
        StepPath(c, e.incoming.value, f);
      }
      LookupSame(BlockClients.Select(c, e), if e.incoming.Some? then BlockClients.Step(c, e.incoming.value) else c, f);
    }
  }

  lemma RejectedDies(c: Client, datagram: seq<byte>)
    requires Fits(c.entries) && Proper(datagram) && Read(datagram).Rejected?
    ensures !BlockClients.Step(c, datagram).alive
  {
    hide Proper, Read, GetBlockCount;
  }

  lemma LookupSame(c: Client, c': Client, f: FileInfo)
    requires c.entries == c'.entries
    ensures Lookup(c.entries, f) == Lookup(c'.entries, f)
  {
  }

  /** In every run the path of a transfer is the one announced last, and it is not installed before a
      goodbye about it. */
  lemma {:induction false} PathIsLatest(states: seq<System>, moves: seq<Move>, sources: seq<Source>,
      n: nat, f: FileInfo)
    requires IsRun(states, moves, sources) && n < |states| && states[n].client.alive
    requires forall m :: 0 <= m < n ==> NoGoodbye(moves[m], f, states[m].client.id)
    ensures Lookup(states[n].client.entries, f).path == LatestPath(states, moves, n, f)
    ensures (forall m :: 0 <= m < n ==> !GoodbyeAbout(moves[m], f)) ==> !Lookup(states[n].client.entries, f).moved
  {
    hide Invariant, Moves, Assumed, NoGoodbye, Delivers, NewStatus, GetBlockCount, GoodbyeAbout, CHello;
    if n == 0 {
      NewPath(f);
    } else {
      RunKeeps(states, moves, sources, n - 1);
      PassPath(states[n - 1], moves[n - 1], states[n], sources, f);
      PathIsLatest(states, moves, sources, n - 1, f);
    }
  }

  lemma {:induction false} LatestArrived(states: seq<System>, moves: seq<Move>, n: nat, f: FileInfo)
    requires n <= |moves| < |states| && LatestPath(states, moves, n, f) != []
    ensures Arrived(states, moves, n, f, BlockServers.InfoItem)
  {
    hide Delivers;
    if !Delivers(states[n - 1], moves[n - 1], f, BlockServers.InfoItem) {
      LatestArrived(states, moves, n - 1, f);
    }
  }

  // From arrival to installation.

  /** What a goodbye does to a complete transfer with a path. */
  lemma StepGoodbye(c: Client, datagram: seq<byte>)
    requires Fits(c.entries) && Waiting(c.entries) && c.alive && IsGoodbye(datagram)
    requires
      var info := Read(datagram).info;
      info in c.entries && c.entries[info].remaining == 0 && c.entries[info].path != []
    ensures
      var c', info, clients := BlockClients.Step(c, datagram), Read(datagram).info, Read(datagram).note.clients;
      && (c'.alive <==> clients.Ok?)
      && (info !in c'.entries <==> clients.Ok? && c.id in clients.value)
      && c'.said == c.said
      && (clients.Ok? ==> c'.outbox == c.outbox + Repeat(CGoodbye(c.id), multiset(clients.value)[c.id]))
  {
    hide Proper, Read, GetBlockCount, BlockClients.Step, Fits, Waiting;
    DiesExactly(c, datagram);
    OutboxGrows(c, datagram);
    StepWaiting(c, datagram, Read(datagram).info);
  }

  /** From end to end: when every block of a served file and an announcement with a path that is not
      empty have arrived, then the first goodbye about the file puts it on the disk, whole, under the
      path announced last.  The client goes on if it can read the list in the goodbye; if the list
      names it, the transfer is dropped, and there is one reply for every time it is named. */
  lemma DeliveredIsInstalled(states: seq<System>, moves: seq<Move>, sources: seq<Source>, n: nat, i: nat)
    requires IsRun(states, moves, sources) && n < |moves| && i < |sources| && states[n].client.alive
    requires forall m :: 0 <= m < n ==> !GoodbyeAbout(moves[m], Identity(sources[i]))
    requires LatestPath(states, moves, n, Identity(sources[i])) != []
    requires forall k :: 0 <= k < BlockServers.Count(sources[i]) ==>
      Arrived(states, moves, n, Identity(sources[i]), BlockServers.BlockItem(k))
    requires GoodbyeAbout(moves[n], Identity(sources[i]))
    ensures
      var c, c', f := states[n].client, states[n + 1].client, Identity(sources[i]);
      var path, clients := LatestPath(states, moves, n, f), Read(moves[n].datagram).note.clients;
      && path in c'.disk && c'.disk[path] == sources[i].content
      && (c'.alive <==> clients.Ok?)
      && (f !in c'.entries <==> clients.Ok? && c.id in clients.value)
      && (clients.Ok? ==>
        c'.said + c'.outbox == c.said + c.outbox + Repeat(CGoodbye(c.id), multiset(clients.value)[c.id]))
  {
    hide Assumed, Begins, Invariant, Proper, Read, Identity, BlockClients.Step, BlockClients.Select, GetBlockCount;
    hide Arrived, BlockServers.Count, LatestPath, Waiting, Fits, CGoodbye;
    var c, f, e := states[n].client, Identity(sources[i]), Finds(states[n], moves[n]);
    RunKeeps(states, moves, sources, n);
    InvariantFits(states[n], sources);
    LatestArrived(states, moves, n, f);
    NoneNames(states, moves, n, f);
    DeliveredSuffices(states, moves, sources, n, i, BlockServers.InfoItem);
    PathIsLatest(states, moves, sources, n, f);
    assert Moves(states[n], moves[n], states[n + 1]);
    MoveDisk(states[n], moves[n], states[n + 1], sources);
    StepGoodbye(c, moves[n].datagram);
    SameAsItself(c);
    SelectSameReader(c, c, e);
    var clients := Read(moves[n].datagram).note.clients;
    if clients.Ok? {
      var replies := Repeat(CGoodbye(c.id), multiset(clients.value)[c.id]);
      assert c.said + (c.outbox + replies) == c.said + c.outbox + replies;
    }
  }

  lemma NoneNames(states: seq<System>, moves: seq<Move>, n: nat, f: FileInfo)
    requires n <= |moves| < |states| && forall m :: 0 <= m < n ==> !GoodbyeAbout(moves[m], f)
    ensures forall m :: 0 <= m < n ==> NoGoodbye(moves[m], f, states[m].client.id)
  {
    hide Proper, Read;
  }
}
