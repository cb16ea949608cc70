/** A command packet on its way: built, split into short messages, delivered in
    any order, put together and read. */
module OtaPath {
  import opened Common
  import opened SmsFrame
  import opened SmsDelivery
  import opened CommandPacket

  lemma ArrivesOrStalls(packet: seq<byte>, maxPartSize: int, maxParts: int, refNum: byte, msisdn: string,
                        s: Store, a: seq<Sms>, last: Sms)
    requires s.Valid() && PartKey(msisdn, refNum) !in s.parts
    requires SplitSpec(packet, maxPartSize, maxParts, refNum).Ok? && |packet| > maxPartSize - 3
    requires LastMissing(a, last, SplitMessage(packet, maxPartSize, refNum, msisdn))
    ensures Add(After(s, a), msisdn, last.raw).1 ==
              if |SplitSpec(packet, maxPartSize, maxParts, refNum).value| == 255 then Diverges else Complete(packet)
  {
    var m := SplitMessage(packet, maxPartSize, refNum, msisdn);
    LastMissingCompletes(a, last, m);
    SplitReassembles(packet, maxPartSize, maxParts, refNum, msisdn, s, a, last, []);
    DeliveredOnce(s, a, last, [], m);
  }

  /** The receiver's reading of what the reassembler hands out, if it does. */
  function Read(cr: Crypto, o: Outcome, key: seq<byte>): Option<Command>
    requires cr.Sound()
  {
    if o.Complete? then ParseCommand(cr, o.payload, key) else None
  }

  /** Every field of the command arrives, padded and signed as it was built, whatever the order and repetition of
      the short messages and whatever else comes between them, if and only if
      the packet was not split into 255 parts. */
  lemma CommandArrives(cr: Crypto, sp: SecurityProfile, input: Input, packet: seq<byte>, maxPartSize: int,
                       maxParts: int, refNum: byte, msisdn: string, s: Store, a: seq<Sms>, last: Sms)
    requires cr.Sound() && input.Valid() && sp.InRange() && BuildCommandPacket(cr, sp, input) == Ok(packet)
    requires |packet| - 2 <= 65535
    requires s.Valid() && PartKey(msisdn, refNum) !in s.parts
    requires SplitSpec(packet, maxPartSize, maxParts, refNum).Ok? && |packet| > maxPartSize - 3
    requires LastMissing(a, last, SplitMessage(packet, maxPartSize, refNum, msisdn))
    ensures |packet| >= 16
    ensures Conveys(cr, sp, input, packet, Read(cr, Add(After(s, a), msisdn, last.raw).1, input.cipheringKey)) <==>
            |SplitSpec(packet, maxPartSize, maxParts, refNum).value| != 255
  {
    CommandRoundTrip(cr, sp, input);
    ArrivesOrStalls(packet, maxPartSize, maxParts, refNum, msisdn, s, a, last);
  }
}
