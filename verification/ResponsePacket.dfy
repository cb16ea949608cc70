/** Response packets of section 5.2 of GSM 03.48: the cursor-driven parser and
    a printer it inverts. */
module ResponsePacket {
  import opened Common
  import opened Cipher
  import opened CommandPacket

  datatype Response = Response(tar: seq<byte>, counter: seq<byte>, pcntr: byte, statusCode: byte,
                               signature: seq<byte>, data: seq<byte>)

  datatype ParseError =
    | NoLength | Truncated | NoHeaderLength | NoTar | NoCounter | NoPaddingCount | NoStatus | NoSignature
    | Undecipherable(cause: Error)

  function SignatureSpan(rhl: byte): nat {
    if rhl < 10 then 0 else rhl - 10
  }

  /** Padding is dropped only when the data is long enough to hold it. */
  function Strip(data: seq<byte>, pcntr: byte): seq<byte> {
    if pcntr > 0 && |data| >= pcntr then data[..|data| - pcntr] else data
  }

  function Decipher(cr: Crypto, sp: SecurityProfile, key: seq<byte>, data: seq<byte>): Result<seq<byte>, Error>
    requires cr.Sound()
  {
    if sp.porCiphered && data != [] then DecryptData(cr, sp.kic.mode, key, data) else Ok(data)
  }

  /** The data field: from the end of the header to the end the length announces. */
  function DataField(raw: seq<byte>): seq<byte>
    requires |raw| >= 13 && |raw| >= 2 + Word(raw[0], raw[1])
  {
    var pos, end := 13 + SignatureSpan(raw[2]), 2 + Word(raw[0], raw[1]);
    if pos < end then raw[pos..end] else []
  }

  /** What the parser owes for every octet string. */
  function ResponseOf(cr: Crypto, sp: SecurityProfile, raw: seq<byte>, key: seq<byte>): Result<Response, ParseError>
    requires cr.Sound()
  {
    if |raw| < 2 then Err(NoLength)
    else if |raw| < 2 + Word(raw[0], raw[1]) then Err(Truncated)
    else if |raw| < 3 then Err(NoHeaderLength)
    else if |raw| < 6 then Err(NoTar)
    else if |raw| < 11 then Err(NoCounter)
    else if |raw| < 12 then Err(NoPaddingCount)
    else if |raw| < 13 then Err(NoStatus)
    else
      var pos := 13 + SignatureSpan(raw[2]);
      if |raw| < pos then Err(NoSignature)
      else
        match Decipher(cr, sp, key, DataField(raw))
        case Err(e) => Err(Undecipherable(e))
        case Ok(data) =>
          Ok(Response(raw[3..6], raw[6..11], raw[11], raw[12], raw[13..pos], Strip(data, raw[11])))
  }

  method ParseResponsePacket(cr: Crypto, sp: SecurityProfile, raw: seq<byte>, key: seq<byte>)
    returns (r: Result<Response, ParseError>)
    requires cr.Sound()
    ensures r == ResponseOf(cr, sp, raw, key)
  {
    if |raw| < 2 { return Err(NoLength); }
    var rpl := Word(raw[0], raw[1]);
    if |raw| < 2 + rpl { return Err(Truncated); }
    var pos := 2;
    if pos >= |raw| { return Err(NoHeaderLength); }
    var rhl := raw[pos];
    pos := pos + 1;
    if pos + 3 > |raw| { return Err(NoTar); }
    var tar := raw[pos..pos + 3];
    pos := pos + 3;
    if pos + 5 > |raw| { return Err(NoCounter); }
    var counter := raw[pos..pos + 5];
    pos := pos + 5;
    if pos >= |raw| { return Err(NoPaddingCount); }
    var pcntr := raw[pos];
    pos := pos + 1;
    if pos >= |raw| { return Err(NoStatus); }
    var statusCode := raw[pos];
    pos := pos + 1;
    var sigLen: int := if rhl >= 10 then rhl - 10 else 0;
    var signature: seq<byte> := [];
    if sigLen > 0 {
      if pos + sigLen > |raw| { return Err(NoSignature); }
      signature := raw[pos..pos + sigLen];
      pos := pos + sigLen;
    }
    assert signature == raw[13..pos];
    var dataEnd := 2 + rpl;
    var data: seq<byte> := if pos < dataEnd then raw[pos..dataEnd] else [];
    assert data == DataField(raw);
    var plain := ReadData(cr, sp, key, data, pcntr);
    if plain.Err? { return Err(Undecipherable(plain.error)); }
    return Ok(Response(tar, counter, pcntr, statusCode, signature, plain.value));
  }

  method ReadData(cr: Crypto, sp: SecurityProfile, key: seq<byte>, field: seq<byte>, pcntr: byte)
    returns (r: Result<seq<byte>, Error>)
    requires cr.Sound()
    ensures r == match Decipher(cr, sp, key, field) case Err(e) => Err(e) case Ok(data) => Ok(Strip(data, pcntr))
  {
    var data := field;
    if sp.porCiphered && |data| > 0 {
      var decrypted := DecryptData(cr, sp.kic.mode, key, data);
      if decrypted.Err? { return decrypted; }
      data := decrypted.value;
    }
    if pcntr > 0 && |data| >= pcntr {
      data := data[..|data| - pcntr];
    }
    return Ok(data);
  }

  // ------------------------------------------------------------------ printer

  ghost predicate Printable(sp: SecurityProfile, key: seq<byte>, r: Response) {
    && |r.tar| == 3 && |r.counter| == 5 && |r.signature| <= 245
    && 11 + |r.signature| + |r.data| + r.pcntr <= 65535
    && (sp.porCiphered && |r.data| + r.pcntr > 0 ==>
          && !sp.kic.mode.AesCbc? && |key| >= sp.kic.mode.KeyLength()
          && (|r.data| + r.pcntr) % 8 == 0)
  }

  function Body(cr: Crypto, sp: SecurityProfile, key: seq<byte>, r: Response): (b: seq<byte>)
    requires cr.Sound() && Printable(sp, key, r)
    ensures |b| == |r.data| + r.pcntr
  {
    var padded := r.data + Zeros(r.pcntr);
    if sp.porCiphered && padded != [] then EncryptData(cr, sp.kic.mode, key, padded).value else padded
  }

  /** What a card sends: its fields, the padded data ciphered if the profile says so. */
  function PrintResponse(cr: Crypto, sp: SecurityProfile, key: seq<byte>, r: Response): seq<byte>
    requires cr.Sound() && Printable(sp, key, r)
  {
    var rest := [10 + |r.signature|] + r.tar + r.counter + [r.pcntr, r.statusCode] + r.signature + Body(cr, sp, key, r);
    [|rest| / 256, |rest| % 256] + rest
  }

  // -------------------------------------------------------------- main results

  /** Parsing a printed response returns it, whatever follows it in the buffer. */
  lemma ParseInvertsPrint(cr: Crypto, sp: SecurityProfile, key: seq<byte>, r: Response, extra: seq<byte>)
    requires cr.Sound() && Printable(sp, key, r)
    ensures ResponseOf(cr, sp, PrintResponse(cr, sp, key, r) + extra, key) == Ok(r)
  {
    var body := Body(cr, sp, key, r);
    var raw := PrintResponse(cr, sp, key, r) + extra;
    var pos, rpl := 13 + |r.signature|, 11 + |r.signature| + |body|;
    assert Word(raw[0], raw[1]) == rpl;
    assert raw[3..6] == r.tar;
    assert raw[6..11] == r.counter;
    assert raw[13..pos] == r.signature;
    assert raw[pos..2 + rpl] == body;
    assert DataField(raw) == body;
    BodyDeciphers(cr, sp, key, r);
    assert Strip(r.data + Zeros(r.pcntr), r.pcntr) == r.data;
  }

  lemma BodyDeciphers(cr: Crypto, sp: SecurityProfile, key: seq<byte>, r: Response)
    requires cr.Sound() && Printable(sp, key, r)
    ensures Decipher(cr, sp, key, Body(cr, sp, key, r)) == Ok(r.data + Zeros(r.pcntr))
  {
    var padded := r.data + Zeros(r.pcntr);
    if sp.porCiphered && padded != [] {
      DecryptUndoesEncrypt(cr, sp.kic.mode, key, padded);
    }
  }

  /** Bytes after an accepted packet never change the reading. */
  lemma TrailingIgnored(cr: Crypto, sp: SecurityProfile, raw: seq<byte>, key: seq<byte>, extra: seq<byte>)
    requires cr.Sound() && ResponseOf(cr, sp, raw, key).Ok?
    ensures ResponseOf(cr, sp, raw + extra, key) == ResponseOf(cr, sp, raw, key)
  {
    var all, pos := raw + extra, 13 + SignatureSpan(raw[2]);
    assert all[3..6] == raw[3..6];
    assert all[6..11] == raw[6..11];
    assert all[13..pos] == raw[13..pos];
    assert DataField(all) == DataField(raw);
  }

  /** Exactly which octet strings are accepted. */
  lemma AcceptsExactly(cr: Crypto, sp: SecurityProfile, raw: seq<byte>, key: seq<byte>)
    requires cr.Sound()
    ensures ResponseOf(cr, sp, raw, key).Ok? <==>
      && |raw| >= 13 && |raw| >= 2 + Word(raw[0], raw[1]) && |raw| >= 13 + SignatureSpan(raw[2])
      && (sp.porCiphered && DataField(raw) != [] ==>
            && !sp.kic.mode.AesCbc? && |key| >= sp.kic.mode.KeyLength()
            && |DataField(raw)| % 8 == 0)
  {
    if |raw| >= 13 && |raw| >= 2 + Word(raw[0], raw[1]) && |key| >= sp.kic.mode.KeyLength() && !sp.kic.mode.AesCbc? {
      assert DecryptionBlock(cr, sp.kic.mode, key).value.size == 8;
    }
  }

  /** Of a packet that is refused, the error names the first thing that is missing. */
  lemma RefusesExactly(cr: Crypto, sp: SecurityProfile, raw: seq<byte>, key: seq<byte>, e: ParseError)
    requires cr.Sound() && ResponseOf(cr, sp, raw, key) == Err(e)
    ensures e == NoLength <==> |raw| < 2
    ensures |raw| >= 2 ==> (e == Truncated <==> |raw| < 2 + Word(raw[0], raw[1]))
    ensures |raw| >= 2 && |raw| >= 2 + Word(raw[0], raw[1]) ==>
              && (e == NoHeaderLength <==> |raw| == 2)
              && (e == NoTar <==> 3 <= |raw| < 3 + 3) && (e == NoCounter <==> 6 <= |raw| < 6 + 5)
              && (e == NoPaddingCount <==> |raw| == 11) && (e == NoStatus <==> |raw| == 12)
              && (|raw| >= 13 ==> (e == NoSignature <==> |raw| < 3 + raw[2] as int))
  {
  }
}
