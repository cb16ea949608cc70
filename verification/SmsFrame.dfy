/** SMS framing and reassembly of secured packets: the user data header of
    section 9.2.3.24 of 3GPP TS 23.040, with 8-bit reference concatenation. */
module SmsFrame {
  import opened Common

  datatype ConcatInfo = ConcatInfo(refNum: byte, total: byte, part: byte)

  function FrameOtaSms(packet: seq<byte>, concat: Option<ConcatInfo>): seq<byte> {
    match concat
    case None => [2, 0x70, 0] + packet
    case Some(c) =>
      [7, 0, 3, c.refNum, c.total, c.part, 0x70, 0] + packet
  }

  // ---------------------------------------------------------------- splitting

  /** The frames sent for the pieces of one packet: piece i carries part i + 1. */
  function Frames(pieces: seq<seq<byte>>, total: byte, refNum: byte): (fs: seq<seq<byte>>)
    requires |pieces| <= total
    ensures |fs| == |pieces|
  {
    seq(|pieces|, i requires 0 <= i < |pieces| =>
      FrameOtaSms(pieces[i], Some(ConcatInfo(refNum, total, i + 1))))
  }

  datatype SplitError = TooSmallForSingle | TooSmallForConcat | OverLimit(needed: int) | Over255(needed: int)

  /** The outcome the splitter owes for every input; `refNum` is its random
      message reference. */
  function SplitSpec(packet: seq<byte>, maxPartSize: int, maxParts: int, refNum: byte)
    : Result<seq<seq<byte>>, SplitError>
  {
    if maxPartSize <= 3 then Err(TooSmallForSingle)
    else if |packet| <= maxPartSize - 3 then Ok([FrameOtaSms(packet, None)])
    else if maxPartSize <= 8 then Err(TooSmallForConcat)
    else
      var pieces := Chunks(packet, maxPartSize - 8);
      if |pieces| > maxParts then Err(OverLimit(|pieces|))
      else if |pieces| > 255 then Err(Over255(|pieces|))
      else Ok(Frames(pieces, |pieces|, refNum))
  }

  /** The splitting loop: `offset` walks the packet, one frame per turn. */
  method FramePieces(packet: seq<byte>, cap: nat, totalParts: byte, refNum: byte) returns (parts: seq<seq<byte>>)
    requires cap > 0 && totalParts == |Chunks(packet, cap)|
    ensures parts == Frames(Chunks(packet, cap), totalParts, refNum)
  {
    ghost var pieces := Chunks(packet, cap);
    parts := [];
    var offset, i := 0, 0;
    while i < totalParts
      invariant 0 <= i <= totalParts && 0 <= offset <= |packet|
      invariant i < totalParts ==> pieces[i..] == Chunks(packet[offset..], cap)
      invariant |parts| == i && parts == Frames(pieces, totalParts, refNum)[..i]
    {
      var end := if offset + cap > |packet| then |packet| else offset + cap;
      var chunk := packet[offset..end];
      ChunksStep(packet, cap, offset, pieces, i);
      parts := parts + [FrameOtaSms(chunk, Some(ConcatInfo(refNum, totalParts, i + 1)))];
      offset, i := end, i + 1;
    }
  }

  method SplitForConcat(packet: seq<byte>, maxPartSize: int, maxParts: int, refNum: byte)
    returns (r: Result<seq<seq<byte>>, SplitError>)
    ensures r == SplitSpec(packet, maxPartSize, maxParts, refNum)
  {
    var singleCapacity := maxPartSize - 3;
    if singleCapacity <= 0 {
      return Err(TooSmallForSingle);
    }
    if |packet| <= singleCapacity {
      return Ok([FrameOtaSms(packet, None)]);
    }
    var perPartCapacity := maxPartSize - 8;
    if perPartCapacity <= 0 {
      return Err(TooSmallForConcat);
    }
    var totalParts := (|packet| + perPartCapacity - 1) / perPartCapacity;
    ChunksCount(packet, perPartCapacity);
    if totalParts > maxParts {
      return Err(OverLimit(totalParts));
    }
    if totalParts > 255 {
      return Err(Over255(totalParts));
    }
    var parts := FramePieces(packet, perPartCapacity, totalParts, refNum);
    return Ok(parts);
  }

  /** Every frame of a successful split fits the part size. */
  lemma SplitFits(packet: seq<byte>, maxPartSize: int, maxParts: int, refNum: byte, frame: seq<byte>)
    requires SplitSpec(packet, maxPartSize, maxParts, refNum).Ok?
    requires frame in SplitSpec(packet, maxPartSize, maxParts, refNum).value
    ensures |frame| <= maxPartSize
  {
    if |packet| > maxPartSize - 3 {
      ChunksSizes(packet, maxPartSize - 8);
    }
  }

  // ------------------------------------------------- user data header parsing

  datatype Udh = Udh(length: nat, concat: Option<ConcatInfo>, payload: seq<byte>)

  /** The concatenation element in force after scanning raw[pos..end]. */
  function ScanElements(raw: seq<byte>, pos: nat, end: nat, found: Option<ConcatInfo>): Option<ConcatInfo>
    requires pos <= end <= |raw|
    decreases end - pos
  {
    if pos + 1 >= end then found
    else
      var ieLen: nat := raw[pos + 1];
      var body := pos + 2;
      if body + ieLen > end then found
      else
        var found' :=
          if raw[pos] == 0 && ieLen >= 3 then
            Some(ConcatInfo(raw[body], raw[body + 1], raw[body + 2]))
          else found;
        ScanElements(raw, body + ieLen, end, found')
  }

  function UdhOf(raw: seq<byte>): Udh {
    if raw == [] || |raw| <= raw[0] then Udh(0, None, raw)
    else
      var length: nat := raw[0];
      Udh(length, ScanElements(raw, 1, length + 1, None), raw[length + 1..])
  }

  method ParseUdh(raw: seq<byte>) returns (u: Udh)
    ensures u == UdhOf(raw)
  {
    if |raw| == 0 {
      return Udh(0, None, raw);
    }
    var udhLen: nat := raw[0];
    if |raw| < udhLen + 1 {
      return Udh(0, None, raw);
    }
    var payload := raw[udhLen + 1..];
    var concat: Option<ConcatInfo> := None;
    var pos := 1;
    var endUdh := udhLen + 1;
    while pos < endUdh
      invariant 1 <= pos <= endUdh <= |raw|
      invariant ScanElements(raw, pos, endUdh, concat) == ScanElements(raw, 1, endUdh, None)
      decreases endUdh - pos
    {
      if pos + 1 >= endUdh {
        break;
      }
      var iei := raw[pos];
      var ieLen: nat := raw[pos + 1];
      if pos + 2 + ieLen > endUdh {
        break;
      }
      pos := pos + 2;
      if iei == 0 && ieLen >= 3 {
        concat := Some(ConcatInfo(raw[pos], raw[pos + 1], raw[pos + 2]));
      }
      pos := pos + ieLen;
    }
    return Udh(udhLen, concat, payload);
  }

  /** An information element: identifier and body. */
  datatype Element = Element(iei: byte, body: seq<byte>)

  function PrintElements(es: seq<Element>): seq<byte>
    requires forall e :: e in es ==> |e.body| < 256
  {
    if es == [] then []
    else [es[0].iei, |es[0].body|] + es[0].body + PrintElements(es[1..])
  }

  /** What a header of these elements says about concatenation: the last
      element with identifier 0 and at least three octets wins. */
  function LastConcat(es: seq<Element>, found: Option<ConcatInfo>): Option<ConcatInfo> {
    if es == [] then found
    else if es[0].iei == 0 && |es[0].body| >= 3 then
      LastConcat(es[1..], Some(ConcatInfo(es[0].body[0], es[0].body[1], es[0].body[2])))
    else LastConcat(es[1..], found)
  }

  lemma {:induction false} ScanInvertsPrint(raw: seq<byte>, pos: nat, end: nat, es: seq<Element>, found: Option<ConcatInfo>)
    requires forall e :: e in es ==> |e.body| < 256
    requires pos <= end <= |raw| && raw[pos..end] == PrintElements(es)
    ensures ScanElements(raw, pos, end, found) == LastConcat(es, found)
    decreases |es|
  {
    if es != [] {
      var e, tail := es[0], PrintElements(es[1..]);
      var next := pos + 2 + |e.body|;
      assert raw[pos..end] == [e.iei, |e.body|] + e.body + tail;
      PrintedFirst(raw, pos, end, e, tail);
      var found' :=
        if e.iei == 0 && |e.body| >= 3 then Some(ConcatInfo(e.body[0], e.body[1], e.body[2]))
        else found;
      ScanOne(raw, pos, end, e, found);
      ScanInvertsPrint(raw, next, end, es[1..], found');
    }
  }

  lemma PrintedFirst(raw: seq<byte>, pos: nat, end: nat, e: Element, tail: seq<byte>)
    requires |e.body| < 256 && pos <= end <= |raw| && raw[pos..end] == [e.iei, |e.body|] + e.body + tail
    ensures pos + 2 + |e.body| <= end && raw[pos] == e.iei && raw[pos + 1] == |e.body|
    ensures raw[pos + 2..pos + 2 + |e.body|] == e.body && raw[pos + 2 + |e.body|..end] == tail
  {
    var part := raw[pos..end];
    assert part[0] == e.iei && part[1] == |e.body|;
    assert part[2..2 + |e.body|] == e.body && part[2 + |e.body|..] == tail;
    SliceOfSlice(raw, pos, end, 2, 2 + |e.body|);
    SliceOfSlice(raw, pos, end, 2 + |e.body|, end - pos);
    assert part[2 + |e.body|..end - pos] == part[2 + |e.body|..];
  }

  lemma SliceOfSlice(raw: seq<byte>, pos: nat, end: nat, a: nat, b: nat)
    requires pos <= end <= |raw| && a <= b <= end - pos
    ensures raw[pos..end][a..b] == raw[pos + a..pos + b]
  {
    var x, y := raw[pos..end][a..b], raw[pos + a..pos + b];
    forall i | 0 <= i < b - a ensures x[i] == y[i] {
    }
  }

  /** Scanning one element. */
  lemma ScanOne(raw: seq<byte>, pos: nat, end: nat, e: Element, found: Option<ConcatInfo>)
    requires |e.body| < 256 && pos + 2 + |e.body| <= end <= |raw|
    requires raw[pos] == e.iei && raw[pos + 1] == |e.body| && raw[pos + 2..pos + 2 + |e.body|] == e.body
    ensures ScanElements(raw, pos, end, found) ==
              ScanElements(raw, pos + 2 + |e.body|, end,
                           if e.iei == 0 && |e.body| >= 3 then Some(ConcatInfo(e.body[0], e.body[1], e.body[2])) else found)
  {
    var body := raw[pos + 2..pos + 2 + |e.body|];
    if |e.body| >= 3 {
      assert raw[pos + 2] == body[0] && raw[pos + 3] == body[1] && raw[pos + 4] == body[2];
    }
  }

  /** The parser inverts the printer on every header of well-formed elements. */
  lemma UdhInvertsPrint(es: seq<Element>, payload: seq<byte>)
    requires forall e :: e in es ==> |e.body| < 256
    requires |PrintElements(es)| < 256
    ensures UdhOf([|PrintElements(es)|] + PrintElements(es) + payload)
         == Udh(|PrintElements(es)|, LastConcat(es, None), payload)
  {
    var n := |PrintElements(es)|;
    var raw := [n] + PrintElements(es) + payload;
    assert raw[1..n + 1] == PrintElements(es) && raw[n + 1..] == payload;
    ScanInvertsPrint(raw, 1, n + 1, es, None);
  }

  const TOOLKIT := Element(0x70, [])

  lemma UdhOfSingle(packet: seq<byte>)
    ensures UdhOf(FrameOtaSms(packet, None)) == Udh(2, None, packet)
  {
    assert PrintElements([TOOLKIT]) == [0x70, 0];
    assert [TOOLKIT][1..] == [];
    UdhInvertsPrint([TOOLKIT], packet);
    assert FrameOtaSms(packet, None) == [2] + PrintElements([TOOLKIT]) + packet;
  }

  lemma UdhOfConcat(packet: seq<byte>, c: ConcatInfo)
    ensures UdhOf(FrameOtaSms(packet, Some(c))) == Udh(7, Some(c), packet)
  {
    var join := Element(0, [c.refNum, c.total, c.part]);
    var es := [join, TOOLKIT];
    assert es[1..] == [TOOLKIT] && [TOOLKIT][1..] == [];
    assert PrintElements([TOOLKIT]) == [0x70, 0];
    assert PrintElements(es) == [0, 3, c.refNum, c.total, c.part, 0x70, 0];
    assert LastConcat(es, None) == LastConcat([TOOLKIT], Some(c)) == Some(c);
    UdhInvertsPrint(es, packet);
    assert FrameOtaSms(packet, Some(c)) == [7] + PrintElements(es) + packet;
  }

  // -------------------------------------------------------------- reassembly

  /** What one call of the reassembler yields.  `Diverges` is the call that
      never returns: its 8-bit loop variable cannot exceed a total of 255. */
  datatype Outcome = Pending | Complete(payload: seq<byte>) | Diverges

  datatype Store = Store(parts: map<string, map<int, seq<byte>>>, total: map<string, byte>) {
    ghost predicate Valid() {
      parts.Keys == total.Keys
    }
  }

  function PartKey(msisdn: string, refNum: byte): string {
    msisdn + ":" + [refNum as char]
  }

  lemma PartKeyInjective(m1: string, r1: byte, m2: string, r2: byte)
    requires PartKey(m1, r1) == PartKey(m2, r2)
    ensures m1 == m2 && r1 == r2
  {
    var k1, k2 := PartKey(m1, r1), PartKey(m2, r2);
    assert k1[|k1| - 1] == k2[|k2| - 1];
    assert k1[..|k1| - 2] == m1 && k2[..|k2| - 2] == m2;
  }

  /** Parts 1..n in order, absent ones contributing nothing. */
  function Assemble(got: map<int, seq<byte>>, n: nat): seq<byte> {
    if n == 0 then [] else Assemble(got, n - 1) + if n in got then got[n] else []
  }

  /** One call on a store: the new store and what the caller sees. */
  function Add(s: Store, msisdn: string, raw: seq<byte>): (r: (Store, Outcome))
    requires s.Valid()
    ensures r.0.Valid()
  {
    var u := UdhOf(raw);
    match u.concat
    case None => (s, Complete(u.payload))
    case Some(c) =>
      var key := PartKey(msisdn, c.refNum);
      var got := (if key in s.parts then s.parts[key] else map[])[c.part := u.payload];
      var total := if key in s.total then s.total[key] else c.total;
      if |got| % 256 < total then (Store(s.parts[key := got], s.total[key := total]), Pending)
      else if total == 255 then (Store(s.parts[key := got], s.total[key := total]), Diverges)
      else (Store(s.parts - {key}, s.total - {key}), Complete(Assemble(got, total)))
  }

  class Reassembler {
    var parts: map<string, map<int, seq<byte>>>
    var total: map<string, byte>

    ghost function Contents(): Store
      reads this
    {
      Store(parts, total)
    }

    constructor ()
      ensures Contents() == Store(map[], map[])
    {
      parts, total := map[], map[];
    }

    /** The gathering loop, whose variable is 8 bits wide. */
    static method Gather(got: map<int, seq<byte>>, totalParts: byte) returns (assembled: seq<byte>)
      requires totalParts < 255
      ensures assembled == Assemble(got, totalParts)
    {
      assembled := [];
      var i: byte := 1;
      while i <= totalParts
        invariant 1 <= i <= totalParts + 1
        invariant assembled == Assemble(got, i - 1)
      {
        assembled := assembled + if i in got then got[i] else [];
        i := (i + 1) % 256;
      }
    }

    method AddPart(msisdn: string, raw: seq<byte>) returns (o: Outcome)
      requires Contents().Valid()
      modifies this
      ensures Contents().Valid()
      ensures (Contents(), o) == Add(old(Contents()), msisdn, raw)
    {
      var u := ParseUdh(raw);
      if u.concat.None? {
        return Complete(u.payload);
      }
      var c := u.concat.value;
      var key := PartKey(msisdn, c.refNum);
      var got, want := map[], c.total;
      if key in parts {
        got, want := parts[key], total[key];
      }
      got := got[c.part := u.payload];
      if |got| % 256 < want || want == 255 {
        parts, total := parts[key := got], total[key := want];
        // With a total of 255 and every part held, i <= totalParts holds for
        // each 8-bit i and the gathering loop is endless.
        return if |got| % 256 < want then Pending else Diverges;
      }
      var assembled := Gather(got, want);
      parts, total := parts - {key}, total - {key};
      return Complete(assembled);
    }
  }
}
