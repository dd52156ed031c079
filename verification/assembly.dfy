/**
 What the packets of one file make when they are put together, for files of every size: the
 32-bit seek of the server and the 32-bit block count are right up to 4 GiB and no further.
 */
module Assembly {
  import opened Bytes
  import opened Streams
  import opened FileInfos
  import opened SyncStatuses
  import BlockServers

  /** Every packet that the block loop can send of a file, once. */
  function Deliveries(content: seq<byte>): (ds: seq<Delivery>)
    ensures InRange(ds, BlockCount(|content|))
  {
    seq(BlockCount(|content|), k requires 0 <= k < BlockCount(|content|) =>
      Delivery(k, BlockServers.SentPayload(content, k)))
  }

  /** The temporary file that they make. */
  function Assembled(content: seq<byte>): seq<byte> {
    Deliver(NewStatus(BlockCount(|content|)), Deliveries(content)).file
  }

  lemma AssembledHolds(content: seq<byte>)
    ensures
      var n := BlockCount(|content|);
      var st, got := Deliver(NewStatus(n), Deliveries(content)), First(Deliveries(content));
      && Holds(st, n, got) && Sound(st) && st.remaining == 0
      && (forall k :: k in got <==> 0 <= k < n)
      && forall k :: k in got ==> got[k] == BlockServers.SentPayload(content, k)
  {
    hide Cell, Learn, BlockServers.SentPayload, Sound, Deliver;
    var ds, n := Deliveries(content), BlockCount(|content|);
    var st, got := Deliver(NewStatus(n), ds), First(ds);
    DeliverHolds(n, ds);
    DeliverSound(n, ds);
    FirstIsDelivered(ds);
    forall k | k in got
      ensures got[k] == BlockServers.SentPayload(content, k)
    {
      assert Delivered(ds, k, got[k]);
    }
    forall k: nat | k < n
      ensures k in got
    {
      assert ds[k] in ds && ds[k].block == k;
    }
    AllHeld(st, n, got);
  }

  lemma AllHeld(st: Status, n: nat, got: map<nat, seq<byte>>)
    requires Holds(st, n, got) && Sound(st) && forall k: nat :: k < n ==> k in got
    ensures st.remaining == 0
  {
    hide Cell;
    CountFalseZero(st.blocks);
  }

  lemma SmallAssembled(content: seq<byte>)
    requires |content| <= TWO_TO_THE_32
    ensures Assembled(content) == content
  {
    hide Holds, Sound, Deliver, Deliveries, BlockServers.SentPayload, BlockAt;
    AssembledHolds(content);
    assert Blocks(content) == BlockCount(|content|);
    var st, got := Deliver(NewStatus(BlockCount(|content|)), Deliveries(content)), First(Deliveries(content));
    forall k | k in got
      ensures got[k] == BlockAt(content, k)
    {
      PayloadIsBlockFor(content, k);
    }
    CompleteFile(st, got, content);
  }

  lemma PayloadIsBlockFor(content: seq<byte>, k: nat)
    requires |content| <= TWO_TO_THE_32 && k < BlockCount(|content|)
    ensures BlockServers.SentPayload(content, k) == BlockAt(content, k)
  {
    BlockServers.SeekExact(|content|);
  }

  /** A larger file is not what its packets make: either block 2^22 has the wrong bytes, or the
      block count has wrapped around and the end of the file is missing. */
  lemma LargeNotAssembled(n: nat)
    requires n > TWO_TO_THE_32
    ensures Assembled(BlockServers.Telltale(n)) != BlockServers.Telltale(n)
  {
    hide Cell, Deliver, Deliveries, Sound, BlockServers.SentPayload;
    var content := BlockServers.Telltale(n);
    AssembledHolds(content);
    var count, got, file := BlockCount(n), First(Deliveries(content)), Assembled(content);
    if |file| == n {
      var k :| EndsAt(got, k, |file|);
      assert count > 0x40_0000;
      BlockServers.WrongPayload(n);
      FirstByte(got, 0x40_0000, content);
      assert file[TWO_TO_THE_32] == Cell(got, TWO_TO_THE_32);
    }
  }

  lemma FirstByte(got: map<nat, seq<byte>>, k: nat, content: seq<byte>)
    requires k in got && got[k] == Slice(content, 0, BLOCKSIZE) && content != []
    ensures Cell(got, BLOCKSIZE * k) == content[0]
  {
    CellBlock(BLOCKSIZE * k, k);
  }

  /** Files of a given size are all transferred correctly exactly if the size is at most 4 GiB. */
  lemma AssembledExact(n: nat)
    ensures (forall content: seq<byte> :: |content| == n ==> Assembled(content) == content) <==> n <= TWO_TO_THE_32
  {
    hide Assembled;
    if n <= TWO_TO_THE_32 {
      forall content: seq<byte> | |content| == n
        ensures Assembled(content) == content
      {
        SmallAssembled(content);
      }
    } else {
      LargeNotAssembled(n);
      assert |BlockServers.Telltale(n)| == n;
    }
  }
}
