/** What a publisher of the ring is told: which packets are too large, when one is
    dropped, and how it lies in its slot. */
module ShmRules {
  import opened Bytes
  import opened ShmRing

  /** A slot holds the packet's length and then the packet. */
  lemma RecordIs(packet: seq<byte>)
    ensures Record(packet) == LittleEndian(|packet|, 4) + packet
  {
  }

  /** A packet is too large exactly when it does not fit its slot behind its
      length. One that fits is dropped, and counted, exactly when every slot is
      taken as far as the producer can see; otherwise its writing begins. */
  lemma PublishIff(sh: Shape, r: Ring, packet: seq<byte>, view: nat)
    requires ShapeOk(sh) && Inv(sh, r) && r.producer.Resting? && r.producerSaw <= view <= |r.received|
    ensures var n := Next(sh, r, BeginPublish(packet, view));
            && (n.Some? <==> |packet| + 4 <= sh.slotBytes && |packet| < U32_LIMIT)
            && (n.Some? && |r.published| == view + sh.Capacity() ==> n.value == r.(dropped := r.dropped + 1, producerSaw := view))
            && (n.Some? && |r.published| < view + sh.Capacity() ==> n.value == r.(producer := Writing(packet, 0), producerSaw := view))
  {
    hide Contents, Copying, Faithful, SlotsSized;
    CapacityFits(sh);
    if Next(sh, r, BeginPublish(packet, view)).Some? {
      WrappedDistance(|r.published|, view);
    }
  }

  /** A receive takes the oldest packet not yet received, cut to the caller's
      buffer, and moves on by one. */
  lemma ReceiptIs(sh: Shape, r: Ring)
    requires ShapeOk(sh) && Inv(sh, r) && Next(sh, r, EndReceive).Some?
    ensures var n := Next(sh, r, EndReceive).value;
            && |n.received| == |r.received| + 1 && n.received[..|r.received|] == r.received
            && |r.received| < |r.published|
            && n.received[|r.received|].limit == r.consumer.limit
            && var packet := r.published[|r.received|];
               var cut := if r.consumer.limit < |packet| then r.consumer.limit else |packet|;
               n.received[|r.received|].bytes == packet[..cut]
  {
    NextKeeps(sh, r, EndReceive);
    hide Contents, Copying, SlotsSized, Cursors;
  }
}
