/**
 The server: a block loop with a bounded message queue, then a drain loop, both driven by what
 the socket reports.  `Server` is the state as a value, one `Step` is one pass of either loop,
 and the class `BlockServer` is proved to do exactly that.
 */
module BlockServers {
  import opened Bytes
  import opened Streams
  import opened FileInfos
  import opened Messages

  // The socket's `select`.

  datatype SocketStatus = READ | WRITE | BOTH | NONE

  /** `poll` says whether the write set was passed to the system call.  When it was not, the
      bit set in it beforehand is still there afterwards. */
  function SelectStatus(readable: bool, writable: bool, poll: bool): SocketStatus {
    var ready := readable || (poll && writable);
    var writeBit := if poll then writable else true;
    if !ready then NONE
    else if readable && writeBit && poll then BOTH
    else if readable then READ
    else if writeBit then WRITE
    else NONE
  }

  predicate Reads(status: SocketStatus) {
    status == READ || status == BOTH
  }

  predicate Writes(status: SocketStatus) {
    status == WRITE || status == BOTH
  }

  /** A status allows reading exactly when something arrived, and writing exactly when the
      socket is writable and writing was asked for: the left-over bit never shows. */
  lemma SelectStatusExact(readable: bool, writable: bool, poll: bool)
    ensures Reads(SelectStatus(readable, writable, poll)) <==> readable
    ensures Writes(SelectStatus(readable, writable, poll)) <==> writable && poll
  {
  }

  /** What one call of `select` finds: an arriving datagram, room to send. */
  datatype Event = Event(incoming: Option<seq<byte>>, writable: bool)

  // The state.

  /** What is served; the file does not change while it is served. */
  datatype Source = Source(id: uint4, path: seq<byte>, content: seq<byte>)

  datatype Item = InfoItem | BlockItem(block: nat)

  datatype Server = Server(
    source: Source,
    cursor: nat,             // next block of the block loop
    hosts: set<seq<byte>>,
    queue: seq<Item>,
    sent: seq<Item>,         // history of the socket
    enqueued: seq<Item>,     // history of the queue
    alive: bool)             // no exception so far

  function Count(source: Source): uint4 {
    GetBlockCount(InfoOf(source.content))
  }

  /** `seekg(BLOCKSIZE * i)` in 32-bit arithmetic, and what is read from there. */
  function SentPayload(content: seq<byte>, block: nat): seq<byte> {
    Slice(content, BLOCKSIZE * block % TWO_TO_THE_32, BLOCKSIZE)
  }

  /** The packet of a queue item. */
  function PacketOf(source: Source, item: Item): seq<byte> {
    match item
    case InfoItem => Packet(source.id, MESSAGE_TYPE_INFO, ToBytes(InfoOf(source.content)), source.path)
    case BlockItem(k) =>
      Packet(source.id, MESSAGE_TYPE_BLOCK, BlockImage(InfoOf(source.content), k % TWO_TO_THE_32),
        SentPayload(source.content, k))
  }

  function PacketsOf(source: Source, items: seq<Item>): (ps: seq<seq<byte>>)
    ensures |ps| == |items|
  {
    seq(|items|, i requires 0 <= i < |items| => PacketOf(source, items[i]))
  }

  function Enqueue(s: Server, item: Item): Server {
    s.(queue := s.queue + [item], enqueued := s.enqueued + [item])
  }

  function StartState(source: Source): Server {
    Enqueue(Server(source, 0, {}, [], [], [], true), InfoItem)
  }

  const HOST_SIZE := 4

  /** `process_message` and the handlers.  An exception ends the server. */
  function Process(s: Server, datagram: seq<byte>): (s': Server)
    ensures s'.source == s.source && s'.cursor == s.cursor && s'.sent == s.sent && (s'.alive ==> s.alive)
    ensures s' == s.(hosts := s'.hosts, alive := s'.alive) || s' == Enqueue(s, InfoItem).(hosts := s'.hosts)
  {
    match Receive(datagram)
    case Err(_) => s.(alive := false)
    case Ok(message) =>
      var kind, host := GetType(message), GetMetadata(message, HOST_SIZE);
      if kind == MESSAGE_TYPE_CHELLO then
        if host.Err? then s.(alive := false) else s.(hosts := s.hosts + {host.value})
      else if kind == MESSAGE_TYPE_GETINFO then
        if host.Err? then s.(alive := false) else Enqueue(s.(hosts := s.hosts + {host.value}), InfoItem)
      else if kind == MESSAGE_TYPE_GETBLOCK then
        if host.Err? then s.(alive := false)
        else
          match GetMetadata(message, BLOCK_SIZE)
          case Err(_) => s.(hosts := s.hosts + {host.value}, alive := false)
          case Ok(_) => OneMetadataType(message); assert false; s
      else if kind == MESSAGE_TYPE_CGOODBYE then
        if host.Err? then s.(alive := false) else s.(hosts := s.hosts - {host.value})
      else s
  }

  /** A message carries metadata of one size: of a host or of a block, never both. */
  lemma OneMetadataType(message: seq<byte>)
    ensures GetMetadata(message, HOST_SIZE).Ok? ==> GetMetadata(message, BLOCK_SIZE).Err?
  {
    hide GetOffset;
  }

  /** So `handle_getblock`, which asks for a host and then for a block, always throws. */
  lemma BlockRequestStops(s: Server, datagram: seq<byte>)
    requires Receive(datagram).Ok? ==> GetType(Receive(datagram).value) == 2
    ensures !Process(s, datagram).alive
  {
    hide Receive, GetType, GetMetadata;
    if Receive(datagram).Ok? {
      OneMetadataType(Receive(datagram).value);
    }
  }

  /** A datagram of a type that the server does not know, or a greeting or goodbye that carries a
      host. */
  predicate Harmless(datagram: seq<byte>) {
    && Receive(datagram).Ok?
    && var message := Receive(datagram).value;
       var kind := GetType(message);
       && kind != MESSAGE_TYPE_GETBLOCK
       && (kind in {MESSAGE_TYPE_CHELLO, MESSAGE_TYPE_GETINFO, MESSAGE_TYPE_CGOODBYE} ==>
         GetOffset(message) == HEADER_SIZE + HOST_SIZE)
  }

  /** Announcements, blocks, server goodbyes and types that do not exist are ignored. */
  lemma OthersIgnored(s: Server, datagram: seq<byte>)
    requires Receive(datagram).Ok? && GetType(Receive(datagram).value) !in {2, 3, 4, 6}
    ensures Process(s, datagram) == s
  {
    hide Receive, GetType, GetMetadata;
  }

  /** Any other datagram is an exception. */
  lemma SurvivesExactly(s: Server, datagram: seq<byte>)
    requires s.alive
    ensures Process(s, datagram).alive <==> Harmless(datagram)
  {
    hide Receive, GetType, GetOffset;
    if Receive(datagram).Ok? && GetType(Receive(datagram).value) == MESSAGE_TYPE_GETBLOCK {
      BlockRequestStops(s, datagram);
    }
  }

  function SendFront(s: Server): Server
    requires s.queue != []
  {
    s.(queue := s.queue[1..], sent := s.sent + [s.queue[0]])
  }

  /** `select`: read first, then write, unless reading failed. */
  function Select(s: Server, e: Event): (s': Server)
    ensures s'.source == s.source && s'.cursor == s.cursor
  {
    hide Process;
    var status := SelectStatus(e.incoming.Some?, e.writable, s.queue != []);
    SelectStatusExact(e.incoming.Some?, e.writable, s.queue != []);
    var read := if Reads(status) then Process(s, e.incoming.value) else s;
    if read.alive && Writes(status) then SendFront(read) else read
  }

  predicate Finished(s: Server) {
    s.cursor >= Count(s.source) && s.hosts == {} && s.queue == []
  }

  /** One pass: of the block loop while there are blocks, then of the drain loop. */
  function Step(s: Server, e: Event): (s': Server)
    ensures s'.source == s.source
  {
    hide Count, Select;
    if !s.alive || Finished(s) then s
    else if s.cursor < Count(s.source) then
      var offered := if |s.queue| < 5 then Enqueue(s, BlockItem(s.cursor)) else s;
      var selected := Select(offered, e);
      if selected.alive then selected.(cursor := s.cursor + 1) else selected
    else Select(s, e)
  }

  function Run(s: Server, es: seq<Event>): (s': Server)
    ensures s'.source == s.source
  {
    if es == [] then s else Step(Run(s, es[..|es| - 1]), es[|es| - 1])
  }

  // First in, first out.

  /** Nothing is lost, invented or reordered by the queue. */
  predicate Conserved(s: Server) {
    s.sent + s.queue == s.enqueued
  }

  function BlockNumbers(items: seq<Item>): (ks: seq<nat>)
    ensures |ks| <= |items|
  {
    if items == [] then []
    else
      var front, last := BlockNumbers(items[..|items| - 1]), items[|items| - 1];
      if last.BlockItem? then front + [last.block] else front
  }

  predicate Increasing(ks: seq<nat>) {
    forall i, j :: 0 <= i < j < |ks| ==> ks[i] < ks[j]
  }

  predicate Below(ks: seq<nat>, n: nat) {
    forall i :: 0 <= i < |ks| ==> ks[i] < n
  }

  ghost predicate Ordered(s: Server) {
    && Conserved(s)
    && s.cursor <= Count(s.source)
    && Increasing(BlockNumbers(s.enqueued))
    && Below(BlockNumbers(s.enqueued), if s.alive then s.cursor else Count(s.source))
  }

  lemma BlockNumbersSnoc(items: seq<Item>, item: Item)
    ensures BlockNumbers(items + [item]) == BlockNumbers(items) + if item.BlockItem? then [item.block] else []
  {
    assert (items + [item])[..|items|] == items;
  }

  lemma SelectKeeps(s: Server, e: Event)
    requires Conserved(s)
    ensures Conserved(Select(s, e)) && BlockNumbers(Select(s, e).enqueued) == BlockNumbers(s.enqueued)
  {
    hide BlockNumbers, Process;
    SelectStatusExact(e.incoming.Some?, e.writable, s.queue != []);
    BlockNumbersSnoc(s.enqueued, InfoItem);
    assert s.sent + (s.queue + [InfoItem]) == s.enqueued + [InfoItem];
  }

  lemma StepKeeps(s: Server, e: Event)
    requires Ordered(s)
    ensures Ordered(Step(s, e))
  {
    hide BlockNumbers, Select, Count;
    if s.alive && !Finished(s) {
      var offered := if s.cursor < Count(s.source) && |s.queue| < 5 then Enqueue(s, BlockItem(s.cursor)) else s;
      BlockNumbersSnoc(s.enqueued, BlockItem(s.cursor));
      assert s.sent + (s.queue + [BlockItem(s.cursor)]) == s.enqueued + [BlockItem(s.cursor)];
      SelectKeeps(offered, e);
    }
  }

  /** In every run: sent followed by queued is enqueued, and the enqueued blocks have strictly
      increasing numbers below the block count. */
  lemma {:induction false} RunKeeps(source: Source, es: seq<Event>)
    ensures Ordered(Run(StartState(source), es))
  {
    hide Step, Count;
    if es == [] {
      assert [InfoItem][..0] == [];
    } else {
      RunKeeps(source, es[..|es| - 1]);
      StepKeeps(Run(StartState(source), es[..|es| - 1]), es[|es| - 1]);
    }
  }

  // How long the queue gets.

  /** A request for the file information that the server answers. */
  predicate AsksForInfo(e: Event) {
    && e.incoming.Some?
    && Receive(e.incoming.value).Ok?
    && GetType(Receive(e.incoming.value).value) == MESSAGE_TYPE_GETINFO
  }

  /** How many of these passes handled such a request, and how many could not write. */
  function Requests(es: seq<Event>): nat {
    if es == [] then 0 else Requests(es[..|es| - 1]) + if AsksForInfo(es[|es| - 1]) then 1 else 0
  }

  function Idles(es: seq<Event>): nat {
    if es == [] then 0 else Idles(es[..|es| - 1]) + if es[|es| - 1].writable then 0 else 1
  }

  /** In how many of these passes the queue was full, so that a block was left out. */
  function Skips(source: Source, es: seq<Event>): nat {
    if es == [] then 0
    else
      var front := es[..|es| - 1];
      Skips(source, front) + if |Run(StartState(source), front).queue| < 5 then 0 else 1
  }

  lemma SelectGrows(s: Server, e: Event)
    requires s.queue != [] && Select(s, e).alive
    ensures |Select(s, e).queue| == |s.queue| + (if AsksForInfo(e) then 1 else 0) - if e.writable then 1 else 0
  {
    hide Receive, GetType, GetMetadata;
    SelectStatusExact(e.incoming.Some?, e.writable, true);
  }

  /** The queue of a run that is still in the block loop, exactly: the first item, one for every
      request, one for every pass that could not write, less one for every block left out. */
  lemma {:induction false} QueueAccounting(source: Source, es: seq<Event>)
    requires |es| <= Count(source) && Run(StartState(source), es).alive
    ensures Run(StartState(source), es).cursor == |es|
    ensures |Run(StartState(source), es).queue| == 1 + Requests(es) + Idles(es) - Skips(source, es)
    ensures |BlockNumbers(Run(StartState(source), es).enqueued)| == |es| - Skips(source, es)
  {
    hide Count, Step, AsksForInfo;
    if es == [] {
      assert [InfoItem][..0] == [];
    } else {
      var front, e := es[..|es| - 1], es[|es| - 1];
      var s := Run(StartState(source), front);
      BlockPassAlive(s, e);
      QueueAccounting(source, front);
      RunKeeps(source, front);
      BlockPassGrows(s, e);
    }
  }

  lemma BlockPassAlive(s: Server, e: Event)
    requires Step(s, e).alive
    ensures s.alive
  {
    hide Count, Select;
  }

  predicate AllHarmless(es: seq<Event>) {
    forall e :: e in es && e.incoming.Some? ==> Harmless(e.incoming.value)
  }

  lemma SelectSurvives(s: Server, e: Event)
    requires s.alive
    ensures Select(s, e).alive <==> (e.incoming.Some? ==> Harmless(e.incoming.value))
  {
    hide Process, Harmless;
    SelectStatusExact(e.incoming.Some?, e.writable, s.queue != []);
    if e.incoming.Some? {
      SurvivesExactly(s, e.incoming.value);
    }
  }

  /** What ends the block loop with an exception, exactly. */
  lemma {:induction false} LoopAliveExact(source: Source, es: seq<Event>)
    requires |es| <= Count(source)
    ensures Run(StartState(source), es).alive <==> AllHarmless(es)
  {
    hide Count, Select, Harmless;
    if es == [] {
    } else {
      var front, e := es[..|es| - 1], es[|es| - 1];
      assert es == front + [e];
      LoopAliveExact(source, front);
      var s := Run(StartState(source), front);
      if s.alive {
        QueueAccounting(source, front);
        SelectSurvives(if |s.queue| < 5 then Enqueue(s, BlockItem(s.cursor)) else s, e);
      }
    }
  }

  /** One pass of the block loop. */
  lemma BlockPassGrows(s: Server, e: Event)
    requires Ordered(s) && s.alive && s.cursor < Count(s.source) && Step(s, e).alive
    ensures Step(s, e).cursor == s.cursor + 1
    ensures |Step(s, e).queue| == |s.queue| + (if |s.queue| < 5 then 1 else 0) +
      (if AsksForInfo(e) then 1 else 0) - if e.writable then 1 else 0
    ensures |BlockNumbers(Step(s, e).enqueued)| == |BlockNumbers(s.enqueued)| + if |s.queue| < 5 then 1 else 0
  {
    hide Count, Select, AsksForInfo, BlockNumbers;
    var offered := if |s.queue| < 5 then Enqueue(s, BlockItem(s.cursor)) else s;
    SelectGrows(offered, e);
    BlockNumbersSnoc(s.enqueued, BlockItem(s.cursor));
    assert s.sent + (s.queue + [BlockItem(s.cursor)]) == s.enqueued + [BlockItem(s.cursor)];
    SelectKeeps(offered, e);
  }

  lemma SelectBound(s: Server, e: Event)
    ensures |Select(s, e).queue| <= |s.queue| + if AsksForInfo(e) then 1 else 0
  {
    hide Receive, GetType, GetMetadata;
    SelectStatusExact(e.incoming.Some?, e.writable, s.queue != []);
  }

  /** The queue is limited to five items and one for every request, in both loops of every run. */
  lemma {:induction false} QueueBound(source: Source, es: seq<Event>)
    ensures |Run(StartState(source), es).queue| <= 5 + Requests(es)
  {
    hide Count, Select, AsksForInfo;
    if es == [] {
    } else {
      var front, e := es[..|es| - 1], es[|es| - 1];
      var s := Run(StartState(source), front);
      QueueBound(source, front);
      SelectBound(s, e);
      SelectBound(Enqueue(s, BlockItem(s.cursor)), e);
    }
  }

  /** A request for the file information when the socket is not writable. */
  function Ask(id: uint4, host: uint4): Event {
    Event(Some(Packet(id, MESSAGE_TYPE_GETINFO, LittleEndian(host), [])), false)
  }

  /** A hello when the socket is not writable. */
  function Greeting(id: uint4, host: uint4): Event {
    Event(Some(Packet(id, MESSAGE_TYPE_CHELLO, LittleEndian(host), [])), false)
  }

  function Greetings(id: uint4, host: uint4, n: nat): seq<Event> {
    if n == 0 then [] else Greetings(id, host, n - 1) + [Greeting(id, host)]
  }

  /** Four hellos, then `n` requests. */
  function Flood(id: uint4, host: uint4, n: nat): seq<Event> {
    if n == 0 then Greetings(id, host, 4) else Flood(id, host, n - 1) + [Ask(id, host)]
  }

  /** What a call of `select` without a time-out can find: it does not return before the socket is
      readable or writable. */
  predicate Arises(e: Event) {
    e.incoming.Some? || e.writable
  }

  lemma AskIsRead(s: Server, id: uint4, host: uint4)
    ensures AsksForInfo(Ask(id, host)) && GetType(Ask(id, host).incoming.value) == 3
    ensures Process(s, Ask(id, host).incoming.value) == Enqueue(s, InfoItem).(hosts := s.hosts + {LittleEndian(host)})
  {
    hide Packet, Receive, GetType, GetMetadata, LittleEndian;
    PacketFields(id, MESSAGE_TYPE_GETINFO, LittleEndian(host), []);
  }

  lemma AskGrows(s: Server, id: uint4, host: uint4)
    requires s.alive && |s.queue| >= 5
    ensures Step(s, Ask(id, host)).alive && |Step(s, Ask(id, host)).queue| == |s.queue| + 1
  {
    hide Count, Process, AsksForInfo, Packet;
    AskIsRead(s, id, host);
    SelectStatusExact(true, false, true);
  }

  lemma GreetingIsRead(s: Server, id: uint4, host: uint4)
    ensures !AsksForInfo(Greeting(id, host))
    ensures Process(s, Greeting(id, host).incoming.value) == s.(hosts := s.hosts + {LittleEndian(host)})
  {
    hide Packet, Receive, GetType, GetMetadata, LittleEndian;
    PacketFields(id, MESSAGE_TYPE_CHELLO, LittleEndian(host), []);
  }

  lemma GreetingGrows(s: Server, id: uint4, host: uint4)
    requires s.alive && |s.queue| < 5 && s.cursor < Count(s.source)
    ensures
      var s' := Step(s, Greeting(id, host));
      s'.alive && |s'.queue| == |s.queue| + 1 && s'.cursor == s.cursor + 1
  {
    hide Count, Process, AsksForInfo, Packet;
    GreetingIsRead(Enqueue(s, BlockItem(s.cursor)), id, host);
    SelectStatusExact(true, false, true);
  }

  lemma RunSnoc(s: Server, es: seq<Event>, e: Event)
    ensures Run(s, es + [e]) == Step(Run(s, es), e)
    ensures Requests(es + [e]) == Requests(es) + if AsksForInfo(e) then 1 else 0
  {
    hide Step, AsksForInfo;
    assert (es + [e])[..|es|] == es;
  }

  /** And the limit is reached, by passes that do arise, so the queue has no bound of its own. */
  lemma {:induction false} QueueBoundReached(source: Source, id: uint4, host: uint4, n: nat)
    requires Count(source) >= 4
    ensures
      var es := Flood(id, host, n);
      && Requests(es) == n && Run(StartState(source), es).alive
      && |Run(StartState(source), es).queue| == 5 + n
      && forall e :: e in es ==> Arises(e)
  {
    hide Count, Step, Process, Run, Requests, AsksForInfo, Packet;
    if n == 0 {
      GreetingsFill(source, id, host, 4);
    } else {
      var front := Flood(id, host, n - 1);
      QueueBoundReached(source, id, host, n - 1);
      AskIsRead(Run(StartState(source), front), id, host);
      AskGrows(Run(StartState(source), front), id, host);
      RunSnoc(StartState(source), front, Ask(id, host));
    }
  }

  lemma {:induction false} GreetingsFill(source: Source, id: uint4, host: uint4, n: nat)
    requires n <= 4 <= Count(source)
    ensures
      var es := Greetings(id, host, n);
      var s := Run(StartState(source), es);
      && Requests(es) == 0 && s.alive && |s.queue| == 1 + n && s.cursor == n
      && forall e :: e in es ==> Arises(e)
  {
    hide Count, Step, Process, AsksForInfo, Packet;
    if n == 0 {
    } else {
      GreetingsFill(source, id, host, n - 1);
      var s := Run(StartState(source), Greetings(id, host, n - 1));
      GreetingIsRead(s, id, host);
      GreetingGrows(s, id, host);
      RunSnoc(StartState(source), Greetings(id, host, n - 1), Greeting(id, host));
    }
  }

  /** No block was left out and the next one will not be, exactly as long as requests and idle
      passes together are at most three. */
  lemma {:induction false} FirstSkipExact(source: Source, es: seq<Event>)
    requires |es| <= Count(source) && Run(StartState(source), es).alive
    ensures Skips(source, es) == 0 && |Run(StartState(source), es).queue| < 5 <==> Requests(es) + Idles(es) <= 3
  {
    hide Count, Select;
    QueueAccounting(source, es);
    if es == [] {
    } else if Requests(es) + Idles(es) <= 3 {
      var front := es[..|es| - 1];
      FirstSkipExact(source, front);
    }
  }

  /** With nothing left out, every block was enqueued exactly once and in order. */
  lemma EveryBlockEnqueued(source: Source, es: seq<Event>)
    requires |es| <= Count(source) && Run(StartState(source), es).alive
    ensures BlockNumbers(Run(StartState(source), es).enqueued) == seq(|es|, i => i) <==> Skips(source, es) == 0
  {
    hide Count, Step, Run, BlockNumbers;
    QueueAccounting(source, es);
    RunKeeps(source, es);
    if Skips(source, es) == 0 {
      OnlyIdentity(BlockNumbers(Run(StartState(source), es).enqueued), |es|);
    }
  }

  /** The block loop enqueues the whole file exactly if, before its last pass, requests and idle
      passes together were at most three. */
  lemma WholeFileExact(source: Source, es: seq<Event>)
    requires |es| == Count(source) > 0 && Run(StartState(source), es).alive
    ensures
      var before := es[..|es| - 1];
      BlockNumbers(Run(StartState(source), es).enqueued) == seq(|es|, i => i) <==> Requests(before) + Idles(before) <= 3
  {
    hide Count, Select, BlockNumbers;
    EveryBlockEnqueued(source, es);
    FirstSkipExact(source, es[..|es| - 1]);
  }

  /** After the block loop no block is enqueued. */
  lemma {:induction false} NumbersFixed(source: Source, es: seq<Event>, n: nat)
    requires n <= |es| && Run(StartState(source), es[..n]).cursor >= Count(source)
    ensures Run(StartState(source), es).cursor >= Count(source)
    ensures BlockNumbers(Run(StartState(source), es).enqueued) ==
      BlockNumbers(Run(StartState(source), es[..n]).enqueued)
    decreases |es|
  {
    hide Count, Select, BlockNumbers;
    if n == |es| {
      assert es[..n] == es;
    } else {
      var front, e := es[..|es| - 1], es[|es| - 1];
      assert front[..n] == es[..n];
      NumbersFixed(source, front, n);
      RunKeeps(source, front);
      SelectKeeps(Run(StartState(source), front), e);
    }
  }

  /** When no exception ends the block loop, and requests and idle passes were at most three
      before its last pass, an emptied queue means that every block was sent, once and in order. */
  lemma WholeFileSent(source: Source, es: seq<Event>)
    requires Count(source) <= |es| && AllHarmless(es[..Count(source)])
    requires Run(StartState(source), es).queue == []
    requires Count(source) > 0 ==> Requests(es[..Count(source) - 1]) + Idles(es[..Count(source) - 1]) <= 3
    ensures BlockNumbers(Run(StartState(source), es).sent) == seq(Count(source), i => i)
  {
    hide Count, Step, BlockNumbers, AllHarmless;
    var n := Count(source);
    var loop := es[..n];
    LoopAliveExact(source, loop);
    QueueAccounting(source, loop);
    NumbersFixed(source, es, n);
    RunKeeps(source, es);
    var s := Run(StartState(source), es);
    assert s.sent == s.enqueued;
    if n > 0 {
      assert loop[..|loop| - 1] == es[..n - 1];
      WholeFileExact(source, loop);
    } else {
      RunKeeps(source, loop);
      assert loop == [];
      NoNumbers(source, loop);
    }
  }

  lemma NoNumbers(source: Source, es: seq<Event>)
    requires es == []
    ensures BlockNumbers(Run(StartState(source), es).enqueued) == seq(0, i => i)
  {
    assert [InfoItem][..0] == [];
  }

  /** `n` strictly increasing numbers below `n` are all of them. */
  lemma OnlyIdentity(ks: seq<nat>, n: nat)
    requires |ks| == n && Increasing(ks) && Below(ks, n)
    ensures ks == seq(n, i => i)
  {
    forall i | 0 <= i < n
      ensures ks[i] == i
    {
      AtLeastIndex(ks, i);
      AtMostIndex(ks, n, i);
    }
  }

  lemma {:induction false} AtLeastIndex(ks: seq<nat>, i: nat)
    requires Increasing(ks) && i < |ks|
    ensures ks[i] >= i
  {
    if i == 0 {
    } else {
      AtLeastIndex(ks, i - 1);
    }
  }

  lemma {:induction false} AtMostIndex(ks: seq<nat>, n: nat, i: nat)
    requires |ks| == n && Increasing(ks) && Below(ks, n) && i < n
    ensures ks[i] <= i
    decreases n - i
  {
    if i + 1 == n {
    } else {
      AtMostIndex(ks, n, i + 1);
    }
  }

  // Hosts.

  /** A hello or a request that names host `h`, even if the request is for a block and then throws. */
  predicate Greets(e: Event, h: seq<byte>) {
    && e.incoming.Some? && Receive(e.incoming.value).Ok?
    && (var message := Receive(e.incoming.value).value;
        && GetType(message) in {MESSAGE_TYPE_CHELLO, MESSAGE_TYPE_GETINFO, MESSAGE_TYPE_GETBLOCK}
        && GetMetadata(message, HOST_SIZE) == Ok(h))
  }

  predicate Leaves(e: Event, h: seq<byte>) {
    && e.incoming.Some? && Receive(e.incoming.value).Ok?
    && (var message := Receive(e.incoming.value).value;
        GetType(message) == MESSAGE_TYPE_CGOODBYE && GetMetadata(message, HOST_SIZE) == Ok(h))
  }

  /** Which hosts are known after a pass. */
  lemma SelectHosts(s: Server, e: Event, h: seq<byte>)
    ensures h in Select(s, e).hosts <==> Greets(e, h) || (h in s.hosts && !Leaves(e, h))
  {
    hide Receive, GetType, GetMetadata;
    SelectStatusExact(e.incoming.Some?, e.writable, s.queue != []);
    if e.incoming.Some? && Receive(e.incoming.value).Ok? {
      OneMetadataType(Receive(e.incoming.value).value);
    }
  }

  /** What a pass sends: the oldest item that was queued before it, if the socket is writable and
      reading met no exception. */
  lemma SendsExactly(s: Server, e: Event)
    ensures Select(s, e).sent ==
      s.sent + if Select(s, e).alive && e.writable && s.queue != [] then [s.queue[0]] else []
  {
    hide Process;
    SelectStatusExact(e.incoming.Some?, e.writable, s.queue != []);
    if e.incoming.Some? {
      ProcessKeepsFront(s, e.incoming.value);
    }
  }

  lemma ProcessKeepsFront(s: Server, datagram: seq<byte>)
    ensures s.queue <= Process(s, datagram).queue
    ensures Process(s, datagram).alive ==> s.alive
  {
  }

  /** A server that met no exception has stopped, whatever happens, exactly when all blocks are
      behind it, no host is known and the queue is empty. */
  lemma StopsExactly(s: Server)
    requires s.alive
    ensures (forall e :: Step(s, e) == s) <==> s.cursor >= Count(s.source) && s.hosts == {} && s.queue == []
  {
    hide Count, Process, AsksForInfo, Packet;
    if s.cursor < Count(s.source) {
      assert Step(s, Event(None, false)).cursor == s.cursor + 1;
    } else if s.queue != [] {
      assert Step(s, Event(None, true)).queue == s.queue[1..];
    } else if s.hosts != {} {
      AskIsRead(s, 0, 0);
      SelectStatusExact(true, false, false);
      assert |Step(s, Ask(0, 0)).queue| == 1;
    }
  }

  lemma GreetedIsKnown(s: Server, e: Event, h: seq<byte>)
    requires s.alive && !Finished(s) && Greets(e, h)
    ensures h in Step(s, e).hosts
  {
    hide Select, Count, Greets, Leaves;
    SelectHosts(s, e, h);
    SelectHosts(Enqueue(s, BlockItem(s.cursor)), e, h);
  }

  /** The drain loop never ends while a host that greeted has not left. */
  lemma {:induction false} WaitsForHost(s: Server, es: seq<Event>, h: seq<byte>)
    requires h in s.hosts && forall e :: e in es ==> !Leaves(e, h)
    ensures h in Run(s, es).hosts && !Finished(Run(s, es))
  {
    hide Select, Count, Greets, Leaves;
    if es == [] {
    } else {
      var before, e := Run(s, es[..|es| - 1]), es[|es| - 1];
      assert e in es;
      WaitsForHost(s, es[..|es| - 1], h);
      SelectHosts(before, e, h);
      SelectHosts(Enqueue(before, BlockItem(before.cursor)), e, h);
    }
  }

  // Payloads.

  /** The 32-bit seek is right for every block that is sent of every content of a given size
      exactly if at most 2^22 blocks are sent. */
  lemma SeekExact(n: nat)
    ensures
      (forall content: seq<byte>, k: nat :: |content| == n && k < BlockCount(n) ==>
        SentPayload(content, k) == Slice(content, BLOCKSIZE * k, BLOCKSIZE))
      <==> BlockCount(n) <= 0x40_0000
  {
    if BlockCount(n) > 0x40_0000 {
      WrongPayload(n);
    }
  }

  /** A file that the wrapping offset misrepresents. */
  function Telltale(n: nat): (content: seq<byte>)
    ensures |content| == n
  {
    seq(n, i => if i == 0 then 1 else 0)
  }

  /** With more blocks, block 2^22 is sent with the bytes of block 0. */
  lemma WrongPayload(n: nat)
    requires BlockCount(n) > 0x40_0000
    ensures
      var k := 0x40_0000;
      && k < BlockCount(n) && n > TWO_TO_THE_32
      && SentPayload(Telltale(n), k) == Slice(Telltale(n), 0, BLOCKSIZE)
      && SentPayload(Telltale(n), k) != Slice(Telltale(n), BLOCKSIZE * k, BLOCKSIZE)
  {
    MoreThanWraps(n);
    assert SentPayload(Telltale(n), 0x40_0000)[0] == Telltale(n)[0];
    assert Slice(Telltale(n), TWO_TO_THE_32, BLOCKSIZE)[0] == Telltale(n)[TWO_TO_THE_32];
  }

  lemma MoreThanWraps(n: nat)
    requires BlockCount(n) > 0x40_0000
    ensures n > TWO_TO_THE_32
  {
  }

  /** Every read before the last block is full, so the stream stays good until then. */
  lemma ReadIsFull(n: nat, k: nat)
    requires k + 1 < BlockCount(n)
    ensures BLOCKSIZE * k % TWO_TO_THE_32 + BLOCKSIZE <= n
  {
    if n <= TWO_TO_THE_32 {
      assert BLOCKSIZE * (k + 1) < n;
    } else {
      assert BLOCKSIZE * k % TWO_TO_THE_32 % BLOCKSIZE == 0;
    }
  }

  class BlockServer {
    const id: uint4
    const path: seq<byte>
    const input: InputStream
    const fileInfo: FileInfo
    var hostInfo: set<seq<byte>>
    var messageQueue: seq<seq<byte>>
    var sent: seq<seq<byte>>  // what was handed to the socket
    ghost var model: Server

    ghost function TheSource(): Source
    {
      Source(id, path, input.content)
    }

    ghost predicate Valid()
      reads this
    {
      && model.source == TheSource()
      && fileInfo == InfoOf(input.content)
      && |path| < 0x1_0000_0000 - 56
      && hostInfo == model.hosts
      && messageQueue == PacketsOf(model.source, model.queue)
      && sent == PacketsOf(model.source, model.sent)
    }

    constructor (id: uint4, content: seq<byte>, path: seq<byte>)
      requires |path| < 0x1_0000_0000 - 56
      ensures Valid() && fresh(input) && input.good && TheSource() == Source(id, path, content)
      ensures model == Server(TheSource(), 0, {}, [], [], [], true)
    {
      hide InfoOf;
      this.id := id;
      this.path := path;
      var stream := new InputStream(content);
      input := stream;
      var info := Create(content);
      fileInfo := info;
      hostInfo, messageQueue, sent := {}, [], [];
      model := Server(Source(id, path, content), 0, {}, [], [], [], true);
    }

    method PushInfo()
      requires Valid()
      modifies this
      ensures Valid() && model == Enqueue(old(model), InfoItem)
      ensures hostInfo == old(hostInfo)
    {
      hide InfoOf, Packet, ToBytes, PacketsOf;
      var message := new Message.WithText(id, MESSAGE_TYPE_INFO, FileInfos.ToBytes(fileInfo), path);
      PacketsOfSnoc(model.source, model.queue, InfoItem);
      messageQueue := messageQueue + [message.buffer];
      model := Enqueue(model, InfoItem);
    }

    /** Pushes an empty block message and fills it from the file. */
    method PushBlock(i: BlockInfo)
      requires Valid() && input.good && i.fileInfo == fileInfo && i.GetBlock() == model.cursor
      modifies this, input
      ensures Valid() && model == Enqueue(old(model), BlockItem(model.cursor))
      ensures input.good || |SentPayload(input.content, model.cursor)| < BLOCKSIZE
    {
      hide InfoOf, Packet, BlockImage, Build, WithPayload, GetOffset, GetLength, Htonl, PacketsOf, Slice, GetBlockCount;
      var k := i.GetBlock();
      var message := new Message.WithReserve(id, MESSAGE_TYPE_BLOCK, i.Image(), BLOCKSIZE);
      ghost var empty := message.buffer;
      BuildFields(id, MESSAGE_TYPE_BLOCK, BlockImage(fileInfo, k), 0, Zeros(BLOCKSIZE));
      input.Seek(BLOCKSIZE * k % TWO_TO_THE_32);
      var data := message.Fill(input);
      RefillIsPacket(id, MESSAGE_TYPE_BLOCK, BlockImage(fileInfo, k), 0, Zeros(BLOCKSIZE), data);
      PacketsOfSnoc(model.source, model.queue, BlockItem(k));
      messageQueue := messageQueue + [message.buffer];
      model := Enqueue(model, BlockItem(k));
    }

    /** `process_message`; false if it throws. */
    method ProcessMessage(datagram: seq<byte>) returns (ok: bool)
      requires Valid() && model.alive
      modifies this
      ensures Valid() && model == Process(old(model), datagram) && ok == model.alive
    {
      hide InfoOf, Receive, GetType, GetMetadata, Valid;
      assert hostInfo == model.hosts by { ModelFields(); }
      var received := ReceiveMessage(datagram);
      match received
      case Err(_) =>
        ok := Throw();
      case Ok(message) =>
        var kind, host := GetType(message), GetMetadata(message, HOST_SIZE);
        if kind == MESSAGE_TYPE_CHELLO || kind == MESSAGE_TYPE_GETINFO || kind == MESSAGE_TYPE_GETBLOCK {
          if host.Err? {
            ok := Throw();
          } else {
            SetHosts(hostInfo + {host.value});
            if kind == MESSAGE_TYPE_GETINFO {
              PushInfo();
              ok := true;
            } else if kind == MESSAGE_TYPE_GETBLOCK {
              match GetMetadata(message, BLOCK_SIZE) {
                case Err(_) =>
                  ok := Throw();
                case Ok(_) =>
                  OneMetadataType(message);
                  assert false;
              }
            } else {
              ok := true;
            }
          }
        } else if kind == MESSAGE_TYPE_CGOODBYE {
          if host.Err? {
            ok := Throw();
          } else {
            SetHosts(hostInfo - {host.value});
            ok := true;
          }
        } else {
          ok := true;
        }
    }

    lemma ModelFields()
      requires Valid()
      ensures hostInfo == model.hosts
    {
    }

    method SetHosts(hosts: set<seq<byte>>)
      requires Valid()
      modifies this
      ensures Valid() && model == old(model).(hosts := hosts) && hostInfo == hosts
    {
      hide InfoOf;
      hostInfo := hosts;
      model := model.(hosts := hosts);
    }

    method Throw() returns (ok: bool)
      requires Valid()
      modifies this
      ensures Valid() && model == old(model).(alive := false) && !ok
    {
      hide InfoOf;
      model := model.(alive := false);
      ok := false;
    }

    /** `select`; false if it throws.  The packet-length check of sending never fails. */
    method SelectOn(e: Event) returns (ok: bool)
      requires Valid() && model.alive
      modifies this
      ensures Valid() && model == Select(old(model), e) && ok == model.alive
    {
      hide InfoOf, Process, PacketOf;
      var status := SelectStatus(e.incoming.Some?, e.writable, messageQueue != []);
      SelectStatusExact(e.incoming.Some?, e.writable, messageQueue != []);
      ok := true;
      if Reads(status) {
        ok := ProcessMessage(e.incoming.value);
      }
      if ok && Writes(status) {
        Send();
      }
    }

    /** `socket << front` and `pop_front`. */
    method Send()
      requires Valid() && model.queue != []
      modifies this
      ensures Valid() && model == SendFront(old(model))
    {
      hide InfoOf, PacketOf, LengthChecks;
      var front := messageQueue[0];
      PacketCanBeSent(model.source, model.queue[0]);
      assert LengthChecks(front);
      PacketsOfSnoc(model.source, model.sent, model.queue[0]);
      sent := sent + [front];
      messageQueue := messageQueue[1..];
      model := SendFront(model);
    }

    /** One pass of the block loop; false if it throws. */
    method BlockPass(i: BlockInfo, e: Event) returns (ok: bool)
      requires Valid() && model.alive && model.cursor < Count(TheSource())
      requires input.good && i.fileInfo == fileInfo && i.GetBlock() == model.cursor
      modifies this, input, i
      ensures Valid() && model == Step(old(model), e) && ok == model.alive
      ensures ok ==> i.GetBlock() == model.cursor
      ensures model.cursor < Count(TheSource()) ==> ok ==> input.good
    {
      hide InfoOf, Select, Count, PacketOf, Htonl;
      PayloadIsFull(TheSource(), model.cursor);
      if |messageQueue| < 5 {
        PushBlock(i);
      }
      ok := SelectOn(e);
      if ok {
        i.Increment();
        model := model.(cursor := model.cursor + 1);
      }
    }

    /** `start`, for as long as `events` says what the calls of `select` find. */
    method Start(events: seq<Event>) returns (ok: bool)
      requires Valid() && input.good && model == Server(TheSource(), 0, {}, [], [], [], true)
      modifies this, input
      ensures Valid() && model == Run(StartState(TheSource()), events)
      ensures ok == model.alive
    {
      hide InfoOf, Step, Select, Count, PacketOf, Htonl, Valid;
      PushInfo();
      var i := new BlockInfo(fileInfo, 0);
      ghost var start := model;
      var used := 0;
      ok := true;
      Fields();
      while ok && i.GetBlock() < GetBlockCount(fileInfo) && used < |events|
        invariant Valid() && ok == model.alive && used <= |events|
        invariant fresh(i) && i.fileInfo == fileInfo
        invariant ok ==> i.GetBlock() == model.cursor
        invariant ok && model.cursor < Count(TheSource()) ==> input.good
        invariant model == Run(start, events[..used]) && model.source == TheSource()
        decreases |events| - used
      {
        Fields();
        ok := BlockPass(i, events[used]);
        RunNext(start, events, used);
        used := used + 1;
        Fields();
      }
      Fields();
      while ok && (hostInfo != {} || |messageQueue| > 0) && used < |events|
        invariant Valid() && ok == model.alive && used <= |events|
        invariant used < |events| ==> !ok || model.cursor >= Count(TheSource())
        invariant model == Run(start, events[..used]) && model.source == TheSource()
        decreases |events| - used
      {
        Fields();
        DrainStep(model, events[used]);
        ok := SelectOn(events[used]);
        RunNext(start, events, used);
        used := used + 1;
        Fields();
      }
      Fields();
      RunStops(start, events, used);
    }

    lemma Fields()
      requires Valid()
      ensures model.source == TheSource() && GetBlockCount(fileInfo) == Count(TheSource())
      ensures hostInfo == model.hosts && |messageQueue| == |model.queue|
    {
      hide InfoOf, PacketOf, Htonl;
    }
  }

  lemma PacketsOfSnoc(source: Source, items: seq<Item>, item: Item)
    ensures PacketsOf(source, items + [item]) == PacketsOf(source, items) + [PacketOf(source, item)]
  {
    hide PacketOf;
  }

  lemma PacketCanBeSent(source: Source, item: Item)
    requires |source.path| < 0x1_0000_0000 - 56
    ensures LengthChecks(PacketOf(source, item))
  {
    hide InfoOf, LengthChecks, Build, Slice, BlockImage, ToBytes;
    var info := InfoOf(source.content);
    match item
    case InfoItem =>
      PacketLengthExact(source.id, MESSAGE_TYPE_INFO, ToBytes(info), source.path);
      BuildFields(source.id, MESSAGE_TYPE_INFO, ToBytes(info), |source.path| % TWO_TO_THE_32, source.path);
    case BlockItem(k) =>
      var data := SentPayload(source.content, k);
      PacketLengthExact(source.id, MESSAGE_TYPE_BLOCK, BlockImage(info, k % TWO_TO_THE_32), data);
      BuildFields(source.id, MESSAGE_TYPE_BLOCK, BlockImage(info, k % TWO_TO_THE_32), |data| % TWO_TO_THE_32, data);
  }

  /** Every packet carries its type and the number of its server. */
  lemma PacketSender(source: Source, item: Item)
    ensures GetType(PacketOf(source, item)) == if item.InfoItem? then 0 else 1
    ensures GetSender(PacketOf(source, item)) == source.id
  {
    hide InfoOf, GetType, GetSender, Packet, Slice, BlockImage, ToBytes;
    var info := InfoOf(source.content);
    match item
    case InfoItem =>
      PacketRoundTrip(source.id, MESSAGE_TYPE_INFO, ToBytes(info), source.path);
    case BlockItem(k) =>
      var meta := BlockImage(info, k % TWO_TO_THE_32);
      PacketRoundTrip(source.id, MESSAGE_TYPE_BLOCK, meta, SentPayload(source.content, k));
  }

  lemma PayloadIsFull(source: Source, k: nat)
    ensures k + 1 < Count(source) ==> |SentPayload(source.content, k)| == BLOCKSIZE
    ensures Count(source) == GetBlockCount(InfoOf(source.content)) < TWO_TO_THE_32
  {
    hide InfoOf, Htonl;
    InfoOfBlockCount(source.content);
    if k + 1 < BlockCount(|source.content|) {
      ReadIsFull(|source.content|, k);
    }
  }

  lemma DrainStep(s: Server, e: Event)
    requires s.alive && s.cursor >= Count(s.source) && (s.hosts != {} || s.queue != [])
    ensures Step(s, e) == Select(s, e)
  {
    hide Count, Select;
  }

  lemma RunNext(s: Server, es: seq<Event>, n: nat)
    requires n < |es|
    ensures Run(s, es[..n + 1]) == Step(Run(s, es[..n]), es[n])
  {
    hide Step;
    assert es[..n + 1][..n] == es[..n];
  }

  /** A server that has failed or finished does not move. */
  lemma {:induction false} RunStops(s: Server, es: seq<Event>, n: nat)
    requires n <= |es|
    requires n < |es| ==> !Run(s, es[..n]).alive || Finished(Run(s, es[..n]))
    ensures Run(s, es) == Run(s, es[..n])
    decreases |es|
  {
    hide Select, Count;
    if n == |es| {
      assert es[..n] == es;
    } else {
      var front := es[..|es| - 1];
      assert front[..n] == es[..n];
      RunStops(s, front, n);
    }
  }
}
