/**
 One transfer on the client: which blocks have arrived, the temporary file they are written
 into, and the installation of that file under its final name.

 `Status` is the state as a value; the class `SyncStatus` is the object that changes in place
 and is proved against it.  The temporary file belongs to its transfer alone (fresh temporary
 names), so its content is part of the state; installed files are on a shared `Disk`.
 */
module SyncStatuses {
  import opened Bytes
  import opened Streams
  import opened FileInfos
  import opened Messages

  datatype Status = Status(
    path: seq<byte>,
    blocks: seq<bool>,
    remaining: int,
    file: seq<byte>,
    moved: bool,      // the output is closed and the temporary file renamed
    goodbye: bool)

  type DiskFiles = map<seq<byte>, seq<byte>>

  /** A new transfer of `n` blocks. */
  function NewStatus(n: nat): Status {
    Status([], seq(n, _ => false), n, [], false, false)
  }

  function WriteBlock(st: Status, block: nat, data: seq<byte>): Status
    requires block < |st.blocks|
  {
    if st.blocks[block] then st
    else st.(file := WriteAt(st.file, BLOCKSIZE * block, data),
          blocks := st.blocks[block := true], remaining := st.remaining - 1)
  }

  predicate Completed(st: Status) {
    st.remaining == 0 && st.path != []
  }

  /** The state after `transfer_complete`. */
  function AfterTransfer(st: Status): Status {
    if Completed(st) then st.(moved := true) else st
  }

  /** The disk after `transfer_complete`.  Renaming a second time finds no temporary file. */
  function Install(st: Status, disk: DiskFiles): DiskFiles {
    if Completed(st) && !st.moved then disk[st.path := st.file] else disk
  }

  /** `sync_complete`, which looks at the transfer only after a goodbye. */
  predicate SyncCompleted(st: Status) {
    st.goodbye && Completed(st)
  }

  function AfterSync(st: Status): Status {
    if st.goodbye then AfterTransfer(st) else st
  }

  function InstallAfterSync(st: Status, disk: DiskFiles): DiskFiles {
    if st.goodbye then Install(st, disk) else disk
  }

  // What every operation keeps.

  function CountFalse(s: seq<bool>): (n: nat) {
    if s == [] then 0 else CountFalse(s[..|s| - 1]) + if s[|s| - 1] then 0 else 1
  }

  lemma {:induction false} CountFalseUpdate(s: seq<bool>, k: nat)
    requires k < |s| && !s[k]
    ensures CountFalse(s[k := true]) == CountFalse(s) - 1
  {
    var front, last := s[..|s| - 1], |s| - 1;
    if k == last {
      assert s[k := true][..last] == front;
    } else {
      assert s[k := true][..last] == front[k := true];
      CountFalseUpdate(front, k);
    }
  }

  lemma {:induction false} CountFalseZero(s: seq<bool>)
    ensures CountFalse(s) == 0 <==> forall k :: 0 <= k < |s| ==> s[k]
  {
    if s == [] {
    } else {
      CountFalseZero(s[..|s| - 1]);
    }
  }

  lemma {:induction false} CountFalseNone(s: seq<bool>)
    requires forall k :: 0 <= k < |s| ==> !s[k]
    ensures CountFalse(s) == |s|
  {
    if s == [] {
    } else {
      CountFalseNone(s[..|s| - 1]);
    }
  }

  predicate Sound(st: Status) {
    && st.remaining == CountFalse(st.blocks)
    && (st.moved ==> st.remaining == 0)
  }

  class Disk {
    var files: DiskFiles
  }

  class SyncStatus {
    var path: seq<byte>
    var blockArray: seq<bool>
    var remainingBlocks: nat
    var output: seq<byte>
    var moved: bool
    var goodbyeReceived: bool

    function Model(): Status
      reads this
    {
      Status(path, blockArray, remainingBlocks, output, moved, goodbyeReceived)
    }

    ghost predicate Valid()
      reads this
    {
      Sound(Model())
    }

    constructor (info: FileInfo)
      ensures Valid() && Model() == NewStatus(GetBlockCount(info))
    {
      hide Htonl;
      path := [];
      blockArray := seq(GetBlockCount(info), _ => false);
      remainingBlocks := GetBlockCount(info);
      output := [];
      moved := false;
      goodbyeReceived := false;
      new;
      CountFalseNone(blockArray);
    }

    /** A block already written is left alone; otherwise seek, write, mark and count down. */
    method WriteBlockData(block: nat, message: seq<byte>)
      requires Valid() && block < |blockArray| && GetOffset(message) <= |message|
      modifies this
      ensures Valid() && Model() == WriteBlock(old(Model()), block, GetText(message))
    {
      hide GetOffset;
      if !blockArray[block] {
        CountFalseUpdate(blockArray, block);
        output := WriteAt(output, BLOCKSIZE * block, GetText(message));
        blockArray := blockArray[block := true];
        remainingBlocks := remainingBlocks - 1;
      }
    }

    method SetPath(path: seq<byte>)
      requires Valid()
      modifies this
      ensures Valid() && Model() == old(Model()).(path := path)
    {
      this.path := path;
    }

    method SetGoodbyeReceived()
      requires Valid()
      modifies this
      ensures Valid() && Model() == old(Model()).(goodbye := true)
    {
      goodbyeReceived := true;
    }

    /** `close` and `rename`: without effect if the temporary file is already gone. */
    method Rename(disk: Disk)
      modifies this, disk
      ensures Model() == old(Model()).(moved := true)
      ensures disk.files == if old(moved) then old(disk.files) else old(disk.files)[path := output]
    {
      if !moved {
        disk.files := disk.files[path := output];
        moved := true;
      }
    }

    method TransferComplete(disk: Disk) returns (done: bool)
      requires Valid()
      modifies this, disk
      ensures Valid() && (done <==> old(remainingBlocks) == 0 && old(path) != [])
      ensures Model() == AfterTransfer(old(Model()))
      ensures disk.files == Install(old(Model()), old(disk.files))
    {
      if remainingBlocks == 0 && path != [] {
        Rename(disk);
        return true;
      } else {
        return false;
      }
    }

    method SyncComplete(disk: Disk) returns (done: bool)
      requires Valid()
      modifies this, disk
      ensures Valid() && (done <==> old(goodbyeReceived) && old(remainingBlocks) == 0 && old(path) != [])
      ensures Model() == AfterSync(old(Model()))
      ensures disk.files == InstallAfterSync(old(Model()), old(disk.files))
    {
      if !goodbyeReceived {
        return false;
      }
      done := TransferComplete(disk);
    }
  }

  // What the temporary file holds.

  datatype Delivery = Delivery(block: nat, data: seq<byte>)

  /** The byte at position `j` when exactly the payloads in `got` have been written. */
  function Cell(got: map<nat, seq<byte>>, j: nat): byte {
    if j / BLOCKSIZE in got && j % BLOCKSIZE < |got[j / BLOCKSIZE]| then got[j / BLOCKSIZE][j % BLOCKSIZE] else 0
  }

  predicate EndsAt(got: map<nat, seq<byte>>, k: nat, length: nat) {
    k in got && got[k] != [] && length == BLOCKSIZE * k + |got[k]|
  }

  /** The state says: the payloads in `got`, by block number, and nothing else. */
  ghost predicate Holds(st: Status, n: nat, got: map<nat, seq<byte>>) {
    && |st.blocks| == n
    && (forall k :: k in got ==> k < n && |got[k]| <= BLOCKSIZE)
    && (forall k :: 0 <= k < n ==> (st.blocks[k] <==> k in got))
    && st.remaining == n - |got|
    && (forall k :: k in got && got[k] != [] ==> BLOCKSIZE * k + |got[k]| <= |st.file|)
    && (st.file == [] || exists k :: EndsAt(got, k, |st.file|))
    && (forall j :: 0 <= j < |st.file| ==> st.file[j] == Cell(got, j))
  }

  /** `got` after one more delivery: the first payload for a block stays. */
  function Learn(got: map<nat, seq<byte>>, d: Delivery): map<nat, seq<byte>> {
    if d.block in got then got else got[d.block := d.data]
  }

  lemma CellBlock(j: nat, k: nat)
    ensures BLOCKSIZE * k <= j < BLOCKSIZE * k + BLOCKSIZE <==> j / BLOCKSIZE == k
    ensures j / BLOCKSIZE == k ==> j % BLOCKSIZE == j - BLOCKSIZE * k
  {
  }

  lemma CellLearn(got: map<nat, seq<byte>>, d: Delivery, j: nat)
    requires d.block !in got && |d.data| <= BLOCKSIZE
    ensures Cell(Learn(got, d), j) ==
      if BLOCKSIZE * d.block <= j < BLOCKSIZE * d.block + |d.data| then d.data[j - BLOCKSIZE * d.block]
      else Cell(got, j)
  {
    CellBlock(j, d.block);
  }

  lemma CellBeyond(st: Status, n: nat, got: map<nat, seq<byte>>, j: nat)
    requires Holds(st, n, got) && |st.file| <= j
    ensures Cell(got, j) == 0
  {
    CellBlock(j, j / BLOCKSIZE);
  }

  /** One delivery, new or repeated, in any order. */
  lemma WriteHolds(st: Status, n: nat, got: map<nat, seq<byte>>, d: Delivery)
    requires Holds(st, n, got) && d.block < n && |d.data| <= BLOCKSIZE
    ensures Holds(WriteBlock(st, d.block, d.data), n, Learn(got, d))
  {
    if d.block !in got {
      WriteCells(st, n, got, d);
      WriteExtent(st, n, got, d);
    }
  }

  lemma WriteCells(st: Status, n: nat, got: map<nat, seq<byte>>, d: Delivery)
    requires Holds(st, n, got) && d.block < n && |d.data| <= BLOCKSIZE && d.block !in got
    ensures
      var file := WriteAt(st.file, BLOCKSIZE * d.block, d.data);
      forall j :: 0 <= j < |file| ==> file[j] == Cell(Learn(got, d), j)
  {
    hide Cell, Learn;
    var file := WriteAt(st.file, BLOCKSIZE * d.block, d.data);
    forall j | 0 <= j < |file|
      ensures file[j] == Cell(Learn(got, d), j)
    {
      CellLearn(got, d, j);
      if |st.file| <= j {
        CellBeyond(st, n, got, j);
      }
    }
  }

  lemma WriteExtent(st: Status, n: nat, got: map<nat, seq<byte>>, d: Delivery)
    requires Holds(st, n, got) && d.block < n && |d.data| <= BLOCKSIZE && d.block !in got
    ensures
      var file, got' := WriteAt(st.file, BLOCKSIZE * d.block, d.data), Learn(got, d);
      && (forall k :: k in got' && got'[k] != [] ==> BLOCKSIZE * k + |got'[k]| <= |file|)
      && (file == [] || exists k :: EndsAt(got', k, |file|))
  {
    hide Cell;
    var file, got' := WriteAt(st.file, BLOCKSIZE * d.block, d.data), Learn(got, d);
    if file != [] {
      if |file| == |st.file| {
        var k :| EndsAt(got, k, |st.file|);
        assert EndsAt(got', k, |file|);
      } else {
        assert EndsAt(got', d.block, |file|);
      }
    }
  }

  /** What is held determines bitmap, counter and file. */
  lemma HoldsDetermines(st: Status, st': Status, n: nat, got: map<nat, seq<byte>>)
    requires Holds(st, n, got) && Holds(st', n, got)
    ensures st.blocks == st'.blocks && st.remaining == st'.remaining && st.file == st'.file
  {
    hide Cell;
  }

  // Runs of deliveries.

  predicate InRange(ds: seq<Delivery>, n: nat) {
    forall d :: d in ds ==> d.block < n && |d.data| <= BLOCKSIZE
  }

  function Deliver(st: Status, ds: seq<Delivery>): (st': Status)
    requires forall d :: d in ds ==> d.block < |st.blocks|
    ensures |st'.blocks| == |st.blocks|
  {
    if ds == [] then st
    else var last := ds[|ds| - 1]; WriteBlock(Deliver(st, ds[..|ds| - 1]), last.block, last.data)
  }

  /** The first payload delivered for each block. */
  function First(ds: seq<Delivery>): map<nat, seq<byte>> {
    if ds == [] then map[] else Learn(First(ds[..|ds| - 1]), ds[|ds| - 1])
  }

  /** After any deliveries, in any order and with any repetition: the bit of a block is set
      exactly if it was delivered, the counter is the number of blocks not delivered, and the
      file holds the first payload delivered for each. */
  lemma {:induction false} DeliverHolds(n: nat, ds: seq<Delivery>)
    requires InRange(ds, n)
    ensures Holds(Deliver(NewStatus(n), ds), n, First(ds))
  {
    if ds == [] {
    } else {
      DeliverHolds(n, ds[..|ds| - 1]);
      WriteHolds(Deliver(NewStatus(n), ds[..|ds| - 1]), n, First(ds[..|ds| - 1]), ds[|ds| - 1]);
    }
  }

  lemma {:induction false} DeliverSound(n: nat, ds: seq<Delivery>)
    requires InRange(ds, n)
    ensures Sound(Deliver(NewStatus(n), ds))
  {
    if ds == [] {
      CountFalseNone(NewStatus(n).blocks);
    } else {
      var front, last := ds[..|ds| - 1], ds[|ds| - 1];
      DeliverSound(n, front);
      var st := Deliver(NewStatus(n), front);
      if !st.blocks[last.block] {
        CountFalseUpdate(st.blocks, last.block);
        if st.moved {
          CountFalseZero(st.blocks);
        }
      }
    }
  }

  predicate Delivered(ds: seq<Delivery>, k: nat, data: seq<byte>) {
    Delivery(k, data) in ds
  }

  /** Every payload learned was delivered, and every block delivered was learned. */
  lemma {:induction false} FirstIsDelivered(ds: seq<Delivery>)
    ensures forall k :: k in First(ds) ==> Delivered(ds, k, First(ds)[k])
    ensures forall d :: d in ds ==> d.block in First(ds)
  {
    if ds == [] {
    } else {
      FirstIsDelivered(ds[..|ds| - 1]);
    }
  }

  /** Each block has one payload, whichever packet brings it. */
  ghost predicate Consistent(ds: seq<Delivery>, payload: nat -> seq<byte>) {
    forall d :: d in ds ==> d.data == payload(d.block)
  }

  /** Order and repetition do not matter: two sequences with the same deliveries leave the same
      bitmap, counter and file. */
  lemma Confluence(n: nat, ds: seq<Delivery>, ds': seq<Delivery>, payload: nat -> seq<byte>)
    requires InRange(ds, n) && InRange(ds', n)
    requires Consistent(ds, payload) && (forall d :: d in ds <==> d in ds')
    ensures
      var st, st' := Deliver(NewStatus(n), ds), Deliver(NewStatus(n), ds');
      st.blocks == st'.blocks && st.remaining == st'.remaining && st.file == st'.file
  {
    hide Cell, Learn;
    FirstIsDelivered(ds);
    FirstIsDelivered(ds');
    forall k
      ensures k in First(ds) <==> k in First(ds')
    {
      if k in First(ds) {
        assert Delivered(ds, k, First(ds)[k]);
      }
      if k in First(ds') {
        assert Delivered(ds', k, First(ds')[k]);
      }
    }
    forall k | k in First(ds)
      ensures First(ds)[k] == First(ds')[k]
    {
      assert Delivered(ds, k, First(ds)[k]) && Delivered(ds', k, First(ds')[k]);
    }
    assert First(ds) == First(ds');
    DeliverHolds(n, ds);
    DeliverHolds(n, ds');
    HoldsDetermines(Deliver(NewStatus(n), ds), Deliver(NewStatus(n), ds'), n, First(ds));
  }

  // Completeness.

  /** Block `k` of a file: 1024 bytes, or what is left. */
  function BlockAt(content: seq<byte>, k: nat): seq<byte> {
    Slice(content, BLOCKSIZE * k, BLOCKSIZE)
  }

  /** How many blocks cover a file, without the 32-bit limit. */
  function Blocks(content: seq<byte>): nat {
    (|content| + BLOCKSIZE - 1) / BLOCKSIZE
  }

  ghost predicate FromFile(got: map<nat, seq<byte>>, content: seq<byte>) {
    forall k :: k in got ==> got[k] == BlockAt(content, k)
  }

  lemma LastBlock(content: seq<byte>)
    requires content != []
    ensures Blocks(content) > 0
    ensures BLOCKSIZE * (Blocks(content) - 1) < |content| <= BLOCKSIZE * Blocks(content)
  {
  }

  /** When no block is missing the temporary file is the source, byte for byte and in length. */
  lemma CompleteFile(st: Status, got: map<nat, seq<byte>>, content: seq<byte>)
    requires Holds(st, Blocks(content), got) && FromFile(got, content)
    requires Sound(st) && st.remaining == 0
    ensures st.file == content
  {
    hide Cell, Blocks;
    CountFalseZero(st.blocks);
    if content == [] {
      EmptyHasNoBlocks();
      assert forall k :: k !in got;
    } else {
      LastBlock(content);
      assert Blocks(content) - 1 in got;
      ExtentOfFile(st, got, content);
      forall j | 0 <= j < |content|
        ensures st.file[j] == content[j]
      {
        CellOfFile(got, content, j);
      }
    }
  }

  lemma EmptyHasNoBlocks()
    ensures Blocks([]) == 0
  {
  }

  lemma ExtentOfFile(st: Status, got: map<nat, seq<byte>>, content: seq<byte>)
    requires Holds(st, Blocks(content), got) && FromFile(got, content) && content != []
    requires Blocks(content) - 1 in got
    ensures |st.file| == |content|
  {
    hide Cell, Blocks;
    var last := Blocks(content) - 1;
    LastBlock(content);
    assert got[last] == BlockAt(content, last);
    assert BLOCKSIZE * last + |got[last]| == |content|;
    var k :| EndsAt(got, k, |st.file|);
    assert got[k] == BlockAt(content, k);
  }

  lemma CellOfFile(got: map<nat, seq<byte>>, content: seq<byte>, j: nat)
    requires FromFile(got, content) && j < |content|
    requires forall k :: 0 <= k < Blocks(content) ==> k in got
    ensures Cell(got, j) == content[j]
  {
    var k := j / BLOCKSIZE;
    assert 0 <= k < Blocks(content);
    assert got[k] == BlockAt(content, k);
    CellBlock(j, k);
  }

  // Installation.

  datatype Call =
    | CallWrite(block: nat, data: seq<byte>)
    | CallPath(path: seq<byte>)
    | CallGoodbye
    | CallTransfer
    | CallSync

  datatype World = World(st: Status, disk: DiskFiles)

  predicate Callable(st: Status, call: Call) {
    call.CallWrite? ==> call.block < |st.blocks|
  }

  /** One call on a status. */
  function Perform(w: World, call: Call): (w': World)
    requires Callable(w.st, call)
    ensures |w'.st.blocks| == |w.st.blocks|
  {
    match call
    case CallWrite(block, data) => w.(st := WriteBlock(w.st, block, data))
    case CallPath(path) => w.(st := w.st.(path := path))
    case CallGoodbye => w.(st := w.st.(goodbye := true))
    case CallTransfer => World(AfterTransfer(w.st), Install(w.st, w.disk))
    case CallSync => World(AfterSync(w.st), InstallAfterSync(w.st, w.disk))
  }

  function PerformAll(w: World, calls: seq<Call>): (w': World)
    requires forall c :: c in calls ==> Callable(w.st, c)
    ensures |w'.st.blocks| == |w.st.blocks|
  {
    if calls == [] then w
    else
      var front, last := calls[..|calls| - 1], calls[|calls| - 1];
      assert last in calls;
      assert Callable(w.st, last);
      Perform(PerformAll(w, front), last)
  }

  /** A call changes the disk only by installing a file with no missing block under a path that
      is not empty, at most once, and never by a write. */
  lemma InstallsOnlyComplete(w: World, call: Call)
    requires Sound(w.st) && Callable(w.st, call)
    ensures Sound(Perform(w, call).st)
    ensures Perform(w, call).disk != w.disk ==>
      && !call.CallWrite? && !w.st.moved && w.st.remaining == 0 && w.st.path != []
      && (forall k :: 0 <= k < |w.st.blocks| ==> w.st.blocks[k])
      && Perform(w, call).disk == w.disk[w.st.path := w.st.file] && Perform(w, call).st.moved
  {
    CountFalseZero(w.st.blocks);
    if call.CallWrite? && !w.st.blocks[call.block] {
      CountFalseUpdate(w.st.blocks, call.block);
    }
  }

  /** And a file with no missing block and a path that is not empty is installed, under that path,
      the first time it is looked at. */
  lemma CompleteIsInstalled(w: World)
    ensures
      var w' := Perform(w, CallTransfer);
      if w.st.remaining == 0 && w.st.path != [] then
        w'.st == w.st.(moved := true) && (!w.st.moved ==> w'.disk == w.disk[w.st.path := w.st.file])
      else w' == w
    ensures Perform(w, CallSync) == if w.st.goodbye then Perform(w, CallTransfer) else w
  {
  }

  /** After the installation nothing that this transfer does changes any file again. */
  lemma {:induction false} InstalledIsFinal(w: World, calls: seq<Call>)
    requires Sound(w.st) && w.st.moved
    requires forall c :: c in calls ==> Callable(w.st, c)
    ensures
      var w' := PerformAll(w, calls);
      Sound(w'.st) && w'.st.moved && w'.st.file == w.st.file && w'.disk == w.disk
  {
    if calls == [] {
    } else {
      var before := PerformAll(w, calls[..|calls| - 1]);
      InstalledIsFinal(w, calls[..|calls| - 1]);
      assert calls[|calls| - 1] in calls;
      InstallsOnlyComplete(before, calls[|calls| - 1]);
      CountFalseZero(before.st.blocks);
    }
  }
}
