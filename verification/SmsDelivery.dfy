/** Whole deliveries: any interleaving of short messages through one
    reassembler, and what the receiver gets out of it. */
module SmsDelivery {
  import opened Common
  import opened SmsFrame

  /** A received short message: sender and user data. */
  datatype Sms = Sms(msisdn: string, raw: seq<byte>)

  /** One concatenated message: its sender, reference and pieces in order. */
  datatype Message = Message(msisdn: string, refNum: byte, pieces: seq<seq<byte>>) {
    ghost predicate Valid() {
      1 <= |pieces| <= 255
    }

    function Key(): string {
      PartKey(msisdn, refNum)
    }

    /** The short message that carries piece p, counting from 1. */
    function Part(p: int): Sms
      requires Valid() && 1 <= p <= |pieces|
    {
      Sms(msisdn, FrameOtaSms(pieces[p - 1], Some(ConcatInfo(refNum, |pieces|, p))))
    }
  }

  /** x belongs to the concatenation identified by m's sender and reference. */
  predicate Concerns(x: Sms, m: Message) {
    x.msisdn == m.msisdn && UdhOf(x.raw).concat.Some? && UdhOf(x.raw).concat.value.refNum == m.refNum
  }

  /** Everything received under m's sender and reference is a part of m. */
  ghost predicate Faithful(t: seq<Sms>, m: Message)
    requires m.Valid()
  {
    forall x :: x in t && Concerns(x, m) ==> exists p :: 1 <= p <= |m.pieces| && x == m.Part(p)
  }

  function After(s: Store, t: seq<Sms>): (s': Store)
    requires s.Valid()
    ensures s'.Valid()
  {
    if t == [] then s
    else Add(After(s, t[..|t| - 1]), t[|t| - 1].msisdn, t[|t| - 1].raw).0
  }

  /** Part numbers of m among the messages of t. */
  function Seen(t: seq<Sms>, m: Message): set<int> {
    if t == [] then {}
    else
      var x := t[|t| - 1];
      Seen(t[..|t| - 1], m) + if Concerns(x, m) then {UdhOf(x.raw).concat.value.part} else {}
  }

  /** The payloads handed out on m's key while t is received. */
  function Deliveries(s: Store, t: seq<Sms>, m: Message): seq<seq<byte>>
    requires s.Valid()
  {
    if t == [] then []
    else
      var x, past := t[|t| - 1], t[..|t| - 1];
      var o := Add(After(s, past), x.msisdn, x.raw).1;
      Deliveries(s, past, m) + if Concerns(x, m) && o.Complete? then [o.payload] else []
  }

  // ------------------------------------------------------------------ frames

  lemma AddElsewhere(s: Store, x: Sms, m: Message)
    requires s.Valid() && !Concerns(x, m)
    ensures var s' := Add(s, x.msisdn, x.raw).0;
            && (m.Key() in s'.parts <==> m.Key() in s.parts)
            && (m.Key() in s.parts ==> s'.parts[m.Key()] == s.parts[m.Key()] && s'.total[m.Key()] == s.total[m.Key()])
  {
    var c := UdhOf(x.raw).concat;
    if c.Some? && PartKey(x.msisdn, c.value.refNum) == m.Key() {
      PartKeyInjective(x.msisdn, c.value.refNum, m.msisdn, m.refNum);
    }
  }

  lemma PartDecodes(m: Message, p: int)
    requires m.Valid() && 1 <= p <= |m.pieces|
    ensures UdhOf(m.Part(p).raw) == Udh(7, Some(ConcatInfo(m.refNum, |m.pieces|, p)), m.pieces[p - 1])
    ensures Concerns(m.Part(p), m)
  {
    UdhOfConcat(m.pieces[p - 1], ConcatInfo(m.refNum, |m.pieces|, p));
  }

  lemma {:induction false} SeenInRange(t: seq<Sms>, m: Message)
    requires m.Valid() && Faithful(t, m)
    ensures Seen(t, m) <= Upto(|m.pieces|)
  {
    if t != [] {
      var x := t[|t| - 1];
      SeenInRange(t[..|t| - 1], m);
      if Concerns(x, m) {
        assert x in t;
        var p :| 1 <= p <= |m.pieces| && x == m.Part(p);
        PartDecodes(m, p);
      }
    }
  }

  // ---------------------------------------------------------------- progress

  /** The store holds exactly the given parts of m. */
  ghost predicate Holds(s: Store, m: Message, ps: set<int>)
    requires m.Valid() && s.Valid() && ps <= Upto(|m.pieces|)
  {
    if ps == {} then m.Key() !in s.parts
    else
      && m.Key() in s.parts
      && s.total[m.Key()] == |m.pieces|
      && s.parts[m.Key()] == Pieces(m, ps)
  }

  function Pieces(m: Message, ps: set<int>): map<int, seq<byte>>
    requires m.Valid() && ps <= Upto(|m.pieces|)
  {
    map p | p in ps :: m.pieces[p - 1]
  }

  lemma {:induction false} AssembleFlattens(got: map<int, seq<byte>>, pieces: seq<seq<byte>>, n: nat)
    requires n <= |pieces|
    requires forall p :: 1 <= p <= n ==> p in got && got[p] == pieces[p - 1]
    ensures Assemble(got, n) == Flatten(pieces[..n])
  {
    if n > 0 {
      AssembleFlattens(got, pieces, n - 1);
      assert pieces[..n] == pieces[..n - 1] + [pieces[n - 1]];
      FlattenOne(pieces[..n - 1], pieces[n - 1]);
    }
  }

  lemma AddStoresPiece(s: Store, m: Message, ps: set<int>, p: int)
    requires m.Valid() && s.Valid() && ps <= Upto(|m.pieces|) && Holds(s, m, ps)
    requires 1 <= p <= |m.pieces|
    ensures Add(s, m.msisdn, m.Part(p).raw) ==
              var key, n, got := m.Key(), |m.pieces|, Pieces(m, ps + {p});
              if |got| % 256 < n then (Store(s.parts[key := got], s.total[key := n]), Pending)
              else if n == 255 then (Store(s.parts[key := got], s.total[key := n]), Diverges)
              else (Store(s.parts - {key}, s.total - {key}), Complete(Assemble(got, n)))
  {
    PartDecodes(m, p);
    OnePieceMore(m, ps, p);
    var held := if m.Key() in s.parts then s.parts[m.Key()] else map[];
    assert held == Pieces(m, ps);
  }

  lemma OnePieceMore(m: Message, ps: set<int>, p: int)
    requires m.Valid() && ps <= Upto(|m.pieces|) && 1 <= p <= |m.pieces|
    ensures Pieces(m, ps)[p := m.pieces[p - 1]] == Pieces(m, ps + {p})
  {
  }

  lemma PiecesCounted(m: Message, ps: set<int>)
    requires m.Valid() && ps <= Upto(|m.pieces|)
    ensures |Pieces(m, ps)| % 256 < |m.pieces| <==> ps != Upto(|m.pieces|)
  {
    var size := |Pieces(m, ps)|;
    assert size == |ps| by {
      assert Pieces(m, ps).Keys == ps;
    }
    FullWhenCounted(ps, |m.pieces|);
    SmallRemainder(size);
  }

  lemma SmallRemainder(n: nat)
    requires n < 256
    ensures n % 256 == n
  {
  }

  lemma AllPiecesFlatten(m: Message)
    requires m.Valid()
    ensures Assemble(Pieces(m, Upto(|m.pieces|)), |m.pieces|) == Flatten(m.pieces)
  {
    var n, got := |m.pieces|, Pieces(m, Upto(|m.pieces|));
    AssembleFlattens(got, m.pieces, n);
    assert m.pieces[..n] == m.pieces;
  }

  /** What any part of m does to a store holding ps: the caller waits until
      the last missing part, then gets the whole message, unless it has 255 parts. */
  lemma AddPartOutcome(s: Store, m: Message, ps: set<int>, p: int)
    requires m.Valid() && s.Valid() && ps < Upto(|m.pieces|) && Holds(s, m, ps)
    requires 1 <= p <= |m.pieces|
    ensures var (s', o) := Add(s, m.msisdn, m.Part(p).raw);
            var n := |m.pieces|;
            if ps + {p} != Upto(n) then o == Pending && Holds(s', m, ps + {p})
            else if n == 255 then o == Diverges
            else o == Complete(Flatten(m.pieces)) && Holds(s', m, {})
  {
    AddStoresPiece(s, m, ps, p);
    PiecesCounted(m, ps + {p});
    AllPiecesFlatten(m);
  }

  /** While parts of m are still missing the store holds those that came, in
      whatever order, however often, and whatever else came between them. */
  lemma {:induction false} StoreTracksSeen(s: Store, t: seq<Sms>, m: Message)
    requires m.Valid() && s.Valid() && m.Key() !in s.parts && Faithful(t, m)
    requires Seen(t, m) != Upto(|m.pieces|)
    ensures Seen(t, m) <= Upto(|m.pieces|)
    ensures Holds(After(s, t), m, Seen(t, m))
    ensures Deliveries(s, t, m) == []
  {
    SeenInRange(t, m);
    if t != [] {
      var x, past := t[|t| - 1], t[..|t| - 1];
      SeenInRange(past, m);
      StoreTracksSeen(s, past, m);
      if Concerns(x, m) {
        assert x in t;
        var p :| 1 <= p <= |m.pieces| && x == m.Part(p);
        PartDecodes(m, p);
        AddPartOutcome(After(s, past), m, Seen(past, m), p);
      } else {
        AddElsewhere(After(s, past), x, m);
      }
    }
  }

  /** Messages that do not concern m neither deliver m nor revive its key. */
  lemma {:induction false} QuietAfter(s: Store, a: seq<Sms>, b: seq<Sms>, m: Message)
    requires s.Valid() && m.Key() !in After(s, a).parts
    requires forall x :: x in b ==> !Concerns(x, m)
    ensures m.Key() !in After(s, a + b).parts
    ensures Deliveries(s, a + b, m) == Deliveries(s, a, m)
    decreases |b|
  {
    if b == [] {
      assert a + b == a;
    } else {
      var c := b[..|b| - 1];
      QuietAfter(s, a, c, m);
      assert (a + b)[..|a + b| - 1] == a + c;
      AddElsewhere(After(s, a + c), b[|b| - 1], m);
    }
  }

  // ------------------------------------------------------------ main results

  /** The receiver gets a message exactly once and intact, on its last missing
      part: a is what came before, x that part, b what came later. */
  lemma DeliveredOnce(s: Store, a: seq<Sms>, x: Sms, b: seq<Sms>, m: Message)
    requires m.Valid() && s.Valid() && m.Key() !in s.parts && Faithful(a + [x], m)
    requires Seen(a, m) != Upto(|m.pieces|) && Seen(a + [x], m) == Upto(|m.pieces|)
    requires forall y :: y in b ==> !Concerns(y, m)
    ensures |m.pieces| != 255 ==>
              && Add(After(s, a), x.msisdn, x.raw).1 == Complete(Flatten(m.pieces))
              && Deliveries(s, a + [x] + b, m) == [Flatten(m.pieces)]
              && m.Key() !in After(s, a + [x] + b).parts
    ensures |m.pieces| == 255 ==> Add(After(s, a), x.msisdn, x.raw).1 == Diverges
  {
    var t := a + [x];
    assert t[..|t| - 1] == a && t[|t| - 1] == x;
    assert Concerns(x, m);
    assert forall y :: y in a ==> y in t;
    SeenInRange(a, m);
    StoreTracksSeen(s, a, m);
    assert x in t;
    var p :| 1 <= p <= |m.pieces| && x == m.Part(p);
    PartDecodes(m, p);
    AddPartOutcome(After(s, a), m, Seen(a, m), p);
    if |m.pieces| != 255 {
      QuietAfter(s, t, b, m);
    }
  }

  lemma {:induction false} SeenGathersParts(t: seq<Sms>, m: Message, p: int)
    requires m.Valid() && 1 <= p <= |m.pieces| && m.Part(p) in t
    ensures p in Seen(t, m)
  {
    PartDecodes(m, p);
    if m.Part(p) != t[|t| - 1] {
      SeenGathersParts(t[..|t| - 1], m, p);
    }
  }

  lemma {:induction false} UnseenPart(t: seq<Sms>, m: Message, p: int)
    requires m.Valid() && 1 <= p <= |m.pieces| && Faithful(t, m) && m.Part(p) !in t
    ensures p !in Seen(t, m)
  {
    if t != [] {
      var x := t[|t| - 1];
      UnseenPart(t[..|t| - 1], m, p);
      if Concerns(x, m) {
        assert x in t;
        var q :| 1 <= q <= |m.pieces| && x == m.Part(q);
        PartDecodes(m, q);
      }
    }
  }

  /** `last` is the part of m still missing after a, and all others are in a. */
  ghost predicate LastMissing(a: seq<Sms>, last: Sms, m: Message)
    requires m.Valid()
  {
    && Faithful(a + [last], m) && Concerns(last, m) && last !in a
    && forall p {:trigger m.Part(p)} :: 1 <= p <= |m.pieces| ==> m.Part(p) in a + [last]
  }

  lemma LastMissingCompletes(a: seq<Sms>, last: Sms, m: Message)
    requires m.Valid() && LastMissing(a, last, m)
    ensures Seen(a, m) != Upto(|m.pieces|) && Seen(a + [last], m) == Upto(|m.pieces|)
  {
    var t, n := a + [last], |m.pieces|;
    assert last in t;
    var p :| 1 <= p <= n && last == m.Part(p);
    assert forall y :: y in a ==> y in t;
    UnseenPart(a, m, p);
    SeenInRange(t, m);
    forall q | 1 <= q <= n ensures q in Seen(t, m) {
      assert m.Part(q) in t;
      SeenGathersParts(t, m, q);
    }
  }

  /** The message a successful multi-part split stands for. */
  function SplitMessage(packet: seq<byte>, maxPartSize: int, refNum: byte, msisdn: string): Message
    requires maxPartSize > 8
  {
    Message(msisdn, refNum, Chunks(packet, maxPartSize - 8))
  }

  /** Round trip of a packet through the splitter, any network order and
      repetition, and the reassembler: the packet comes out once and intact if
      and only if it was not split into 255 parts. */
  lemma SplitReassembles(packet: seq<byte>, maxPartSize: int, maxParts: int, refNum: byte, msisdn: string,
                         s: Store, a: seq<Sms>, last: Sms, b: seq<Sms>)
    requires s.Valid() && PartKey(msisdn, refNum) !in s.parts
    requires SplitSpec(packet, maxPartSize, maxParts, refNum).Ok? && |packet| > maxPartSize - 3
    requires LastMissing(a, last, SplitMessage(packet, maxPartSize, refNum, msisdn))
    requires forall y :: y in b ==> !Concerns(y, SplitMessage(packet, maxPartSize, refNum, msisdn))
    ensures var n := |SplitSpec(packet, maxPartSize, maxParts, refNum).value|;
            var m := SplitMessage(packet, maxPartSize, refNum, msisdn);
            && (n != 255 <==> Add(After(s, a), msisdn, last.raw).1 == Complete(packet))
            && (n != 255 ==> Deliveries(s, a + [last] + b, m) == [packet])
  {
    var m := SplitMessage(packet, maxPartSize, refNum, msisdn);
    LastMissingCompletes(a, last, m);
    ChunksFlatten(packet, maxPartSize - 8);
    DeliveredOnce(s, a, last, b, m);
  }

  /** The frames of a split are the parts of its message, in order. */
  lemma SplitFramesAreParts(packet: seq<byte>, maxPartSize: int, maxParts: int, refNum: byte, msisdn: string, i: nat)
    requires SplitSpec(packet, maxPartSize, maxParts, refNum).Ok? && |packet| > maxPartSize - 3
    requires i < |SplitSpec(packet, maxPartSize, maxParts, refNum).value|
    ensures SplitMessage(packet, maxPartSize, refNum, msisdn).Part(i + 1)
         == Sms(msisdn, SplitSpec(packet, maxPartSize, maxParts, refNum).value[i])
  {
  }

  /** A packet that fits one short message comes straight back, and the store
      is not touched. */
  lemma SingleReassembles(packet: seq<byte>, maxPartSize: int, maxParts: int, refNum: byte, msisdn: string, s: Store)
    requires s.Valid()
    requires SplitSpec(packet, maxPartSize, maxParts, refNum).Ok? && |packet| <= maxPartSize - 3
    ensures var frames := SplitSpec(packet, maxPartSize, maxParts, refNum).value;
            |frames| == 1 && Add(s, msisdn, frames[0]) == (s, Complete(packet))
  {
    UdhOfSingle(packet);
  }

  /** The gathering loop's 8-bit variable after n rounds. */
  function LoopVariable(n: nat): byte {
    (1 + n) % 256
  }

  /** The loop ends exactly for totals below 255. */
  lemma GatherEndsExactly(total: byte)
    ensures (exists n :: LoopVariable(n) > total) <==> total < 255
  {
    if total < 255 {
      assert LoopVariable(total) == total + 1;
    }
  }

  // ------------------------------------------------------------ what frames announce

  /** The frame is a header of these elements, with its length in front, and the
      data. */
  ghost predicate Announces(frame: seq<byte>, es: seq<Element>, data: seq<byte>) {
    && (forall e :: e in es ==> |e.body| < 256) && |PrintElements(es)| < 256
    && frame == [|PrintElements(es)|] + PrintElements(es) + data
  }

  /** A frame announces a secured packet by the empty element 0x70, after the
      concatenation element 0x00 if there is one. */
  lemma FrameAnnounces(packet: seq<byte>, concat: Option<ConcatInfo>)
    ensures var parts := match concat case None => [] case Some(c) => [Element(0x00, [c.refNum, c.total, c.part])];
            Announces(FrameOtaSms(packet, concat), parts + [Element(0x70, [])], packet)
  {
    var secured := Element(0x70, []);
    assert [secured][1..] == [] && PrintElements([secured]) == [0x70, 0];
    match concat
    case None => assert [] + [secured] == [secured];
    case Some(c) =>
      var es := [Element(0x00, [c.refNum, c.total, c.part])] + [secured];
      assert es[1..] == [secured];
      assert PrintElements(es) == [0x00, 3, c.refNum, c.total, c.part, 0x70, 0];
  }

  /** Every frame of a split does, frame i as part i + 1 of all the frames. */
  lemma SplitAnnounces(packet: seq<byte>, maxPartSize: int, maxParts: int, refNum: byte, i: nat)
    requires SplitSpec(packet, maxPartSize, maxParts, refNum).Ok?
    requires i < |SplitSpec(packet, maxPartSize, maxParts, refNum).value|
    ensures var frames := SplitSpec(packet, maxPartSize, maxParts, refNum).value;
            var secured := Element(0x70, []);
            if |packet| <= maxPartSize - 3 then |frames| == 1 && Announces(frames[0], [secured], packet)
            else
              && |frames| == |Chunks(packet, maxPartSize - 8)| == (|packet| + maxPartSize - 9) / (maxPartSize - 8) <= 255
              && Announces(frames[i], [Element(0x00, [refNum, |frames|, i + 1]), secured], Chunks(packet, maxPartSize - 8)[i])
  {
    var frames := SplitSpec(packet, maxPartSize, maxParts, refNum).value;
    if |packet| <= maxPartSize - 3 {
      FrameAnnounces(packet, None);
      assert [] + [Element(0x70, [])] == [Element(0x70, [])];
    } else {
      var pieces := Chunks(packet, maxPartSize - 8);
      ChunksCount(packet, maxPartSize - 8);
      FrameAnnounces(pieces[i], Some(ConcatInfo(refNum, |pieces|, i + 1)));
      assert [Element(0x00, [refNum, |frames|, i + 1])] + [Element(0x70, [])] ==
             [Element(0x00, [refNum, |frames|, i + 1]), Element(0x70, [])];
    }
  }

  /** Exactly when a split fails, and why: no room for a header, too many parts for the
      limit given, or too many for one octet. */
  lemma SplitFailsExactly(packet: seq<byte>, maxPartSize: int, maxParts: int, refNum: byte)
    ensures var r := SplitSpec(packet, maxPartSize, maxParts, refNum);
            if maxPartSize <= 3 then r == Err(TooSmallForSingle)
            else if |packet| + 3 <= maxPartSize then r.Ok?
            else if maxPartSize <= 8 then r == Err(TooSmallForConcat)
            else
              var parts := (|packet| + maxPartSize - 9) / (maxPartSize - 8);
              if parts > maxParts then r == Err(OverLimit(parts)) else if parts > 255 then r == Err(Over255(parts)) else r.Ok?
  {
    if maxPartSize > 8 && |packet| + 3 > maxPartSize {
      ChunksCount(packet, maxPartSize - 8);
    }
  }

  // ---------------------------------------------------------- any header, any traffic

  /** What is left where no further element fits: an octet at most, or an element cut
      short. */
  predicate CutShort(junk: seq<byte>) {
    |junk| <= 1 || junk[1] > |junk| - 2
  }

  /** Every stretch of octets is elements and then a rest that is cut short, and the
      scan goes by the elements. */
  lemma {:induction false} ScanDecomposes(raw: seq<byte>, pos: nat, end: nat, found: Option<ConcatInfo>)
    returns (es: seq<Element>, junk: seq<byte>)
    requires pos <= end <= |raw|
    ensures (forall e :: e in es ==> |e.body| < 256) && raw[pos..end] == PrintElements(es) + junk && CutShort(junk)
    ensures ScanElements(raw, pos, end, found) == LastConcat(es, found)
    decreases end - pos
  {
    if pos + 1 >= end || pos + 2 + raw[pos + 1] > end {
      es, junk := [], raw[pos..end];
      if pos + 1 < end {
        assert junk[1] == raw[pos + 1];
      }
    } else {
      var e := Element(raw[pos], raw[pos + 2..pos + 2 + raw[pos + 1]]);
      var found' := if e.iei == 0 && |e.body| >= 3 then Some(ConcatInfo(e.body[0], e.body[1], e.body[2])) else found;
      ScanOne(raw, pos, end, e, found);
      var rest;
      rest, junk := ScanDecomposes(raw, pos + 2 + |e.body|, end, found');
      es := [e] + rest;
      assert es[1..] == rest;
      JoinSlices(raw, pos, end, e, PrintElements(rest) + junk);
    }
  }

  lemma JoinSlices(raw: seq<byte>, pos: nat, end: nat, e: Element, tail: seq<byte>)
    requires pos + 2 + |e.body| <= end <= |raw| && |e.body| < 256
    requires raw[pos] == e.iei && raw[pos + 1] == |e.body| && raw[pos + 2..pos + 2 + |e.body|] == e.body
    requires raw[pos + 2 + |e.body|..end] == tail
    ensures raw[pos..end] == [e.iei, |e.body|] + e.body + tail
  {
    assert raw[pos..end] == raw[pos..pos + 2] + raw[pos + 2..pos + 2 + |e.body|] + raw[pos + 2 + |e.body|..end];
  }

  /** What the reader makes of any octets: where the header length exceeds them, all is
      payload; else the elements of the header, up to one cut short, tell the
      concatenation, and the payload comes after the header. */
  lemma UdhExactly(raw: seq<byte>) returns (es: seq<Element>, junk: seq<byte>)
    ensures raw == [] || |raw| <= raw[0] ==> UdhOf(raw) == Udh(0, None, raw)
    ensures raw != [] && |raw| > raw[0] ==>
              && (forall e :: e in es ==> |e.body| < 256) && CutShort(junk)
              && raw == [raw[0]] + PrintElements(es) + junk + UdhOf(raw).payload
              && |PrintElements(es) + junk| == raw[0] == UdhOf(raw).length && UdhOf(raw).concat == LastConcat(es, None)
  {
    es, junk := [], [];
    if raw != [] && |raw| > raw[0] {
      es, junk := ScanDecomposes(raw, 1, raw[0] as int + 1, None);
      var n := raw[0] as int + 1;
      assert raw == [raw[0]] + raw[1..n] + raw[n..];
    }
  }

  /** The first part received fixes the total: while a reference is held it stays, and
      it alone decides when the parts are complete. */
  lemma FirstTotalStays(s: Store, x: Sms, key: string)
    requires s.Valid() && key in s.total
    ensures var (s', o) := Add(s, x.msisdn, x.raw);
            && (key in s'.total ==> s'.total[key] == s.total[key])
            && (key !in s'.total ==>
                  && UdhOf(x.raw).concat.Some? && PartKey(x.msisdn, UdhOf(x.raw).concat.value.refNum) == key
                  && var got := s.parts[key][UdhOf(x.raw).concat.value.part := UdhOf(x.raw).payload];
                     |got| % 256 >= s.total[key] && o == Complete(Assemble(got, s.total[key])))
  {
  }
}
