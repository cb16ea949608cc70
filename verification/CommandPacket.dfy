/** Command packets of section 5.1 of GSM 03.48: the builder with software
    cryptography, and a reference parser that undoes it. */
module CommandPacket {
  import opened Common
  import opened Cipher

  datatype CertMode = CertNone | CertRC | CertCC | CertDS {
    function Code(): (c: byte)
      ensures c < 4
    {
      match this case CertNone => 0 case CertRC => 1 case CertCC => 2 case CertDS => 3
    }
  }

  datatype CipherMode = DesCbc | TripleDes2 | TripleDes3 | AesCbc {
    function Code(): (c: byte)
      ensures c < 4
    {
      match this case DesCbc => 0 case TripleDes2 => 1 case TripleDes3 => 2 case AesCbc => 3
    }

    /** Shortest key the mode accepts. */
    function KeyLength(): nat {
      match this case DesCbc => 8 case TripleDes2 => 16 case TripleDes3 => 24 case AesCbc => 16
    }
  }

  datatype KeyId = KeyId(algo: byte, mode: CipherMode, keyset: byte) {
    predicate InRange() {
      algo < 4 && keyset < 8
    }
  }

  datatype SecurityProfile = SecurityProfile(
    certMode: CertMode, ciphered: bool, counterMode: byte,
    porMode: byte, porCertMode: CertMode, porCiphered: bool, porProtocol: byte,
    kic: KeyId, kid: KeyId)
  {
    predicate InRange() {
      counterMode < 4 && porMode < 4 && porProtocol < 4 && kic.InRange() && kid.InRange()
    }
  }

  datatype Input = Input(tar: seq<byte>, counter: seq<byte>, cipheringKey: seq<byte>, signingKey: seq<byte>,
                         userData: seq<byte>)
  {
    ghost predicate Valid() {
      |tar| == 3 && |counter| == 5
    }
  }

  /** The block ciphers a key selects. */
  datatype Crypto = Crypto(des: seq<byte> -> Block, tripleDes: seq<byte> -> Block, aes: seq<byte> -> Block) {
    ghost predicate Sound() {
      forall key ::
        && des(key).Permutes() && des(key).size == 8
        && tripleDes(key).Permutes() && tripleDes(key).size == 8
        && aes(key).Permutes() && aes(key).size == 16
    }
  }

  // ------------------------------------------------------------- bit fields
  // Fields occupy disjoint bits, so or-ing shifted fields is adding them.

  function EncodeSpi1(sp: SecurityProfile): byte {
    sp.certMode.Code() + (if sp.ciphered then 4 else 0) + sp.counterMode % 4 * 8
  }

  function EncodeSpi2(sp: SecurityProfile): byte {
    sp.porMode % 4 + sp.porCertMode.Code() * 4 + (if sp.porCiphered then 16 else 0) + sp.porProtocol % 4 * 32
  }

  function EncodeKeyId(k: KeyId): byte {
    k.algo % 4 + k.mode.Code() * 4 + k.keyset % 8 * 16
  }

  function DecodeCert(b: byte): CertMode {
    if b % 4 == 0 then CertNone else if b % 4 == 1 then CertRC else if b % 4 == 2 then CertCC else CertDS
  }

  function DecodeMode(b: byte): CipherMode {
    if b % 4 == 0 then DesCbc else if b % 4 == 1 then TripleDes2 else if b % 4 == 2 then TripleDes3 else AesCbc
  }

  function DecodeKeyId(b: byte): KeyId {
    KeyId(b % 4, DecodeMode(b / 4), b / 16 % 8)
  }

  function DecodeProfile(spi1: byte, spi2: byte, kic: byte, kid: byte): SecurityProfile {
    SecurityProfile(
      DecodeCert(spi1), spi1 / 4 % 2 == 1, spi1 / 8 % 4,
      spi2 % 4, DecodeCert(spi2 / 4), spi2 / 16 % 2 == 1, spi2 / 32 % 4,
      DecodeKeyId(kic), DecodeKeyId(kid))
  }

  lemma Fields(a: nat, b: nat, m: nat)
    requires m > 0 && a < m
    ensures (a + b * m) % m == a && (a + b * m) / m == b
  {
    DivideUnique(a + b * m, m, b, a);
  }

  lemma KeyIdRoundTrip(k: KeyId)
    ensures DecodeKeyId(EncodeKeyId(k)) == k.(algo := k.algo % 4, keyset := k.keyset % 8)
  {
    var e := EncodeKeyId(k);
    Fields(k.algo % 4, k.mode.Code() + k.keyset % 8 * 4, 4);
    Fields(k.algo % 4 + k.mode.Code() * 4, k.keyset % 8, 16);
    Fields(k.mode.Code(), k.keyset % 8, 4);
    assert DecodeMode(e / 4) == k.mode;
  }

  lemma Spi1RoundTrip(sp: SecurityProfile)
    ensures var b := EncodeSpi1(sp);
            DecodeCert(b) == sp.certMode && (b / 4 % 2 == 1) == sp.ciphered && b / 8 % 4 == sp.counterMode % 4
  {
    var c := if sp.ciphered then 1 else 0;
    Fields(sp.certMode.Code(), c + sp.counterMode % 4 * 2, 4);
    Fields(c, sp.counterMode % 4, 2);
    Fields(sp.certMode.Code() + c * 4, sp.counterMode % 4, 8);
  }

  lemma Spi2RoundTrip(sp: SecurityProfile)
    ensures var b := EncodeSpi2(sp);
            && b % 4 == sp.porMode % 4 && DecodeCert(b / 4) == sp.porCertMode
            && (b / 16 % 2 == 1) == sp.porCiphered && b / 32 % 4 == sp.porProtocol % 4
  {
    var c := if sp.porCiphered then 1 else 0;
    var p, q, r := sp.porMode % 4, sp.porCertMode.Code(), sp.porProtocol % 4;
    Fields(p, q + c * 4 + r * 8, 4);
    Fields(q, c + r * 2, 4);
    Fields(p + q * 4, c + r * 2, 16);
    Fields(c, r, 2);
    Fields(p + q * 4 + c * 16, r, 32);
  }

  lemma Fits(n: byte, m: nat)
    requires m > 0
    ensures n % m == n <==> n < m
  {
    if n < m {
      DivideUnique(n, m, 0, n);
    }
  }

  /** The four indicator octets determine the profile exactly when its fields
      fit their bits. */
  lemma ProfileRoundTrip(sp: SecurityProfile)
    ensures DecodeProfile(EncodeSpi1(sp), EncodeSpi2(sp), EncodeKeyId(sp.kic), EncodeKeyId(sp.kid)) == sp
       <==> sp.InRange()
  {
    var d := DecodeProfile(EncodeSpi1(sp), EncodeSpi2(sp), EncodeKeyId(sp.kic), EncodeKeyId(sp.kid));
    assert d == sp.(counterMode := d.counterMode, porMode := d.porMode, porProtocol := d.porProtocol,
                    kic := d.kic, kid := d.kid)
        && d.counterMode == sp.counterMode % 4 && d.porMode == sp.porMode % 4 && d.porProtocol == sp.porProtocol % 4
    by {
      Spi1RoundTrip(sp);
      Spi2RoundTrip(sp);
    }
    KeyIdRoundTrip(sp.kic);
    KeyIdRoundTrip(sp.kid);
    Fits(sp.counterMode, 4);
    Fits(sp.porMode, 4);
    Fits(sp.porProtocol, 4);
    Fits(sp.kic.algo, 4);
    Fits(sp.kic.keyset, 8);
    Fits(sp.kid.algo, 4);
    Fits(sp.kid.keyset, 8);
  }

  // ---------------------------------------------------------------- building

  datatype Error = MacUnsupported | MacKeyShort | SignatureUnsupported | CipherUnsupported | CipherKeyShort | Unaligned

  function SignatureLength(sp: SecurityProfile): nat {
    match sp.certMode case CertNone => 0 case CertRC => 4 case CertCC => 8 case CertDS => 0
  }

  function CipherBlockSize(sp: SecurityProfile): nat {
    if sp.kic.mode.AesCbc? then 16 else 8
  }

  /** Zero padding to a block boundary; empty data becomes one whole block. */
  function PadCount(length: nat, size: nat): (n: byte)
    requires 0 < size <= 16
    ensures (length + n) % size == 0 && (if length == 0 then n == size else n < size)
  {
    if length == 0 then size
    else if length % size == 0 then 0
    else
      DivideUnique(length + (size - length % size), size, length / size + 1, 0);
      size - length % size
  }

  function Padding(sp: SecurityProfile, data: seq<byte>): byte {
    if sp.ciphered then PadCount(|data|, CipherBlockSize(sp)) else 0
  }

  /** SPI, KIc, KID, TAR, CNTR and PCNTR: the thirteen signed header octets. */
  function Header(sp: SecurityProfile, input: Input): (h: seq<byte>)
    requires input.Valid()
    ensures |h| == 13
  {
    [EncodeSpi1(sp), EncodeSpi2(sp), EncodeKeyId(sp.kic), EncodeKeyId(sp.kid)]
    + input.tar + input.counter + [Padding(sp, input.userData)]
  }

  /** Retail MAC of ISO 9797-1 (algorithm 3), or plain CBC-MAC with one key. */
  function RetailMac(cr: Crypto, mode: CipherMode, key: seq<byte>, data: seq<byte>): (r: Result<seq<byte>, Error>)
    requires cr.Sound() && |data| % 8 == 0
    ensures r.Ok? ==> |r.value| == 8
    ensures r.Ok? <==> !mode.AesCbc? && |key| >= mode.KeyLength()
  {
    if mode.AesCbc? then Err(MacUnsupported)
    else if |key| < mode.KeyLength() then Err(MacKeyShort)
    else
      var chain := CbcMac(cr.des(key[..8]), Zeros(8), data);
      match mode
      case DesCbc => Ok(chain)
      case TripleDes2 => Ok(cr.des(key[..8]).encrypt(cr.des(key[8..16]).decrypt(chain)))
      case TripleDes3 => Ok(cr.des(key[16..24]).encrypt(cr.des(key[8..16]).decrypt(chain)))
  }

  /** The last block of the data's chained encryption. */
  function LastChained(b: Block, data: seq<byte>): seq<byte>
    requires b.Permutes() && b.size == 8 && |data| % 8 == 0 && |data| >= 8
  {
    CbcEncrypt(b, Zeros(8), data)[|data| - 8..]
  }

  lemma Uncovers(outer: Block, x: seq<byte>)
    requires outer.Permutes() && |x| == outer.size
    ensures outer.decrypt(outer.encrypt(x)) == x
  {
  }

  /** A MAC is the last block of the data's chained encryption under the first
      key; with more keys, that block deciphered under the second one shows when
      the outer encryption is undone. */
  lemma RetailMacOpens(cr: Crypto, mode: CipherMode, key: seq<byte>, data: seq<byte>)
    requires cr.Sound() && |data| % 8 == 0 && |data| >= 8 && RetailMac(cr, mode, key, data).Ok?
    ensures var mac, last := RetailMac(cr, mode, key, data).value, LastChained(cr.des(key[..8]), data);
            if mode.DesCbc? then mac == last
            else
              var outer := if mode.TripleDes2? then key[..8] else key[16..24];
              cr.des(outer).decrypt(mac) == cr.des(key[8..16]).decrypt(last)
  {
    var first := cr.des(key[..8]);
    CbcMacIsLastBlock(first, Zeros(8), data);
    var last := CbcMac(first, Zeros(8), data);
    if mode.TripleDes2? {
      Uncovers(first, cr.des(key[8..16]).decrypt(last));
    } else if mode.TripleDes3? {
      Uncovers(cr.des(key[16..24]), cr.des(key[8..16]).decrypt(last));
    }
  }

  function Aligned8(data: seq<byte>): (out: seq<byte>)
    ensures |out| % 8 == 0
  {
    if |data| % 8 == 0 then data else data + Zeros(8 - |data| % 8)
  }

  function SignatureOf(cr: Crypto, sp: SecurityProfile, input: Input): (r: Result<seq<byte>, Error>)
    requires cr.Sound() && input.Valid()
    ensures r.Ok? ==> |r.value| == SignatureLength(sp)
  {
    var covered := Header(sp, input) + input.userData + Zeros(Padding(sp, input.userData));
    match sp.certMode
    case CertNone => Ok([])
    case CertRC => Ok(Crc(covered, 4))
    case CertCC => RetailMac(cr, sp.kid.mode, input.signingKey, Aligned8(covered))
    case CertDS => Err(SignatureUnsupported)
  }

  function EncryptionBlock(cr: Crypto, mode: CipherMode, key: seq<byte>): Result<Block, Error> {
    if |key| < mode.KeyLength() then Err(CipherKeyShort)
    else
      match mode
      case DesCbc => Ok(cr.des(key[..8]))
      case TripleDes2 => Ok(cr.tripleDes(key[..16] + key[..8]))
      case TripleDes3 => Ok(cr.tripleDes(key[..24]))
      case AesCbc => Ok(cr.aes(if |key| >= 32 then key[..32] else if |key| >= 24 then key[..24] else key[..16]))
  }

  function EncryptData(cr: Crypto, mode: CipherMode, key: seq<byte>, data: seq<byte>): Result<seq<byte>, Error>
    requires cr.Sound()
  {
    match EncryptionBlock(cr, mode, key)
    case Err(e) => Err(e)
    case Ok(c) => if |data| % c.size != 0 then Err(Unaligned) else Ok(CbcEncrypt(c, Zeros(c.size), data))
  }

  /** Response decryption has no AES case. */
  function DecryptionBlock(cr: Crypto, mode: CipherMode, key: seq<byte>): Result<Block, Error> {
    if mode.AesCbc? then Err(CipherUnsupported) else EncryptionBlock(cr, mode, key)
  }

  function DecryptData(cr: Crypto, mode: CipherMode, key: seq<byte>, data: seq<byte>): Result<seq<byte>, Error>
    requires cr.Sound()
  {
    match DecryptionBlock(cr, mode, key)
    case Err(e) => Err(e)
    case Ok(c) => if |data| % c.size != 0 then Err(Unaligned) else Ok(CbcDecrypt(c, Zeros(c.size), data))
  }

  /** Decryption undoes encryption exactly for the DES family. */
  lemma DecryptUndoesEncrypt(cr: Crypto, mode: CipherMode, key: seq<byte>, data: seq<byte>)
    requires cr.Sound() && EncryptData(cr, mode, key, data).Ok?
    ensures DecryptData(cr, mode, key, EncryptData(cr, mode, key, data).value) == Ok(data) <==> !mode.AesCbc?
  {
    var c := EncryptionBlock(cr, mode, key).value;
    BlockSound(cr, mode, key);
    CbcRoundTrip(c, Zeros(c.size), data);
  }

  lemma BlockSound(cr: Crypto, mode: CipherMode, key: seq<byte>)
    requires cr.Sound() && EncryptionBlock(cr, mode, key).Ok?
    ensures var c := EncryptionBlock(cr, mode, key).value; c.Permutes() && c.size == if mode.AesCbc? then 16 else 8
  {
  }

  function SecuredData(cr: Crypto, sp: SecurityProfile, input: Input): Result<seq<byte>, Error>
    requires cr.Sound() && input.Valid()
  {
    match SignatureOf(cr, sp, input)
    case Err(e) => Err(e)
    case Ok(signature) =>
      var plain := signature + input.userData + Zeros(Padding(sp, input.userData));
      if sp.ciphered then EncryptData(cr, sp.kic.mode, input.cipheringKey, plain) else Ok(plain)
  }

  function BuildCommandPacket(cr: Crypto, sp: SecurityProfile, input: Input): Result<seq<byte>, Error>
    requires cr.Sound() && input.Valid()
  {
    match SecuredData(cr, sp, input)
    case Err(e) => Err(e)
    case Ok(secured) =>
      var cpl := 1 + 13 + |secured|;
      Ok([cpl / 256 % 256, cpl % 256, 13 + SignatureLength(sp)] + Header(sp, input) + secured)
  }

  // ---------------------------------------------------- when a build succeeds

  predicate SignatureSucceeds(sp: SecurityProfile, input: Input) {
    match sp.certMode
    case CertNone => true
    case CertRC => true
    case CertCC => !sp.kid.mode.AesCbc? && |input.signingKey| >= KeyOctets(sp.kid.mode)
    case CertDS => false
  }

  /** Octets a key must have: one, two or three DES keys, or the shortest AES key. */
  function KeyOctets(mode: CipherMode): nat {
    if mode == DesCbc then 8 else if mode == TripleDes3 then 24 else 16
  }

  predicate EncryptionSucceeds(sp: SecurityProfile, input: Input) {
    && |input.cipheringKey| >= KeyOctets(sp.kic.mode)
    && (sp.certMode.CertNone? || (sp.certMode.CertCC? && !sp.kic.mode.AesCbc?))
  }

  lemma SumAligned(a: nat, b: nat, d: nat)
    requires d > 0 && b % d == 0
    ensures (a + b) % d == a % d
  {
    assert (a / d + b / d) * d == a / d * d + b / d * d;
    DivideUnique(a + b, d, a / d + b / d, a % d);
  }

  lemma SignatureExactly(cr: Crypto, sp: SecurityProfile, input: Input)
    requires cr.Sound() && input.Valid()
    ensures SignatureOf(cr, sp, input).Ok? <==> SignatureSucceeds(sp, input)
  {
  }

  lemma SignatureAligned(sp: SecurityProfile)
    requires !sp.certMode.CertDS?
    ensures SignatureLength(sp) % CipherBlockSize(sp) == 0
       <==> sp.certMode.CertNone? || (sp.certMode.CertCC? && !sp.kic.mode.AesCbc?)
  {
  }

  /** The signature is not padded, so a ciphered build only succeeds when its
      length is itself a multiple of the cipher's block. */
  lemma BuildSucceedsExactly(cr: Crypto, sp: SecurityProfile, input: Input)
    requires cr.Sound() && input.Valid()
    ensures BuildCommandPacket(cr, sp, input).Ok?
       <==> SignatureSucceeds(sp, input) && (sp.ciphered ==> EncryptionSucceeds(sp, input))
  {
    SignatureExactly(cr, sp, input);
    var signature := SignatureOf(cr, sp, input);
    if signature.Ok? && sp.ciphered && |input.cipheringKey| >= sp.kic.mode.KeyLength() {
      var c := EncryptionBlock(cr, sp.kic.mode, input.cipheringKey).value;
      assert c.size == CipherBlockSize(sp);
      SignatureAligned(sp);
      SumAligned(SignatureLength(sp), |input.userData| + Padding(sp, input.userData), c.size);
    }
  }

  /** With keys long enough, a ciphered build succeeds if and only if there is
      no signature, or a checksum with AES on neither side. */
  lemma CipheredBuildSucceeds(cr: Crypto, sp: SecurityProfile, input: Input)
    requires cr.Sound() && input.Valid() && sp.ciphered
    requires |input.cipheringKey| >= 24 && |input.signingKey| >= 24
    ensures BuildCommandPacket(cr, sp, input).Ok?
       <==> sp.certMode.CertNone? || (sp.certMode.CertCC? && !sp.kic.mode.AesCbc? && !sp.kid.mode.AesCbc?)
  {
    BuildSucceedsExactly(cr, sp, input);
  }

  // --------------------------------------------------------- reference parser

  datatype Command = Command(profile: SecurityProfile, tar: seq<byte>, counter: seq<byte>, pcntr: byte,
                             signature: seq<byte>, userData: seq<byte>)

  function Word(high: byte, low: byte): nat {
    high as int * 256 + low as int
  }

  /** A receiver's reading of a packet, holding the ciphering key. */
  function ParseCommand(cr: Crypto, packet: seq<byte>, key: seq<byte>): Option<Command>
    requires cr.Sound()
  {
    if |packet| < 16 || Word(packet[0], packet[1]) != |packet| - 2 || packet[2] < 13 then None
    else
      var profile := DecodeProfile(packet[3], packet[4], packet[5], packet[6]);
      var pcntr := packet[15];
      var sigLen := packet[2] - 13;
      match Reveal(cr, profile, key, packet[16..])
      case None => None
      case Some(plain) =>
        if |plain| < sigLen + pcntr then None
        else Some(Command(profile, packet[7..10], packet[10..15], pcntr,
                          plain[..sigLen], plain[sigLen..|plain| - pcntr]))
  }

  function Reveal(cr: Crypto, profile: SecurityProfile, key: seq<byte>, secured: seq<byte>): Option<seq<byte>>
    requires cr.Sound()
  {
    if !profile.ciphered then Some(secured)
    else
      match EncryptionBlock(cr, profile.kic.mode, key)
      case Err(_) => None
      case Ok(c) => if |secured| % c.size != 0 then None else Some(CbcDecrypt(c, Zeros(c.size), secured))
  }

  lemma RevealUndoes(cr: Crypto, sp: SecurityProfile, input: Input)
    requires cr.Sound() && input.Valid() && SecuredData(cr, sp, input).Ok?
    ensures Reveal(cr, sp, input.cipheringKey, SecuredData(cr, sp, input).value)
         == Some(SignatureOf(cr, sp, input).value + input.userData + Zeros(Padding(sp, input.userData)))
  {
    if sp.ciphered {
      var plain := SignatureOf(cr, sp, input).value + input.userData + Zeros(Padding(sp, input.userData));
      var c := EncryptionBlock(cr, sp.kic.mode, input.cipheringKey).value;
      CbcRoundTrip(c, Zeros(c.size), plain);
    }
  }

  /** The fields of the reading of a built packet. */
  lemma CommandReads(cr: Crypto, sp: SecurityProfile, input: Input)
    requires cr.Sound() && input.Valid() && sp.InRange() && BuildCommandPacket(cr, sp, input).Ok?
    ensures var packet := BuildCommandPacket(cr, sp, input).value;
            ParseCommand(cr, packet, input.cipheringKey)
              == Some(Command(sp, input.tar, input.counter, Padding(sp, input.userData),
                              SignatureOf(cr, sp, input).value, input.userData))
            <==> |packet| - 2 <= 65535
  {
    var packet := BuildCommandPacket(cr, sp, input).value;
    var secured := SecuredData(cr, sp, input).value;
    var header := Header(sp, input);
    assert packet[3..16] == header && packet[16..] == secured;
    assert packet[7..10] == packet[3..16][4..7] && packet[10..15] == packet[3..16][7..12];
    assert header[4..7] == input.tar;
    assert header[7..12] == input.counter;
    assert packet[15] == header[12];
    assert packet[3] == header[0] && packet[4] == header[1] && packet[5] == header[2] && packet[6] == header[3];
    ProfileRoundTrip(sp);
    RevealUndoes(cr, sp, input);
    LengthOctets(|packet| - 2);
    var signature, pad := SignatureOf(cr, sp, input).value, Padding(sp, input.userData);
    var plain := signature + input.userData + Zeros(pad);
    assert plain[..|signature|] == signature;
    assert plain[|signature|..|plain| - pad] == input.userData;
  }

  lemma LengthOctets(n: nat)
    ensures n / 256 % 256 * 256 + n % 256 == n <==> n <= 65535
  {
    assert n == n / 256 * 256 + n % 256;
  }

  // --------------------------------------------------------- what a receiver checks

  /** The padding of n octets of data: none without ciphering, else up to the next
      multiple of the cipher's block, a whole block for no data. */
  predicate Padded(sp: SecurityProfile, n: nat, pcntr: byte) {
    if !sp.ciphered then pcntr == 0
    else
      var size := if sp.kic.mode.AesCbc? then 16 else 8;
      (n + pcntr) % size == 0 && if n == 0 then pcntr == size else pcntr < size
  }

  /** The signature in front of plain holds for the header octets and the rest of
      plain: check octets that fold their positions, or the MAC of both, filled with
      zeros to whole blocks. */
  ghost predicate Signed(cr: Crypto, sp: SecurityProfile, key: seq<byte>, header: seq<byte>, plain: seq<byte>)
    requires cr.Sound()
  {
    match sp.certMode
    case CertNone => true
    case CertRC => |plain| >= 4 && forall j :: 0 <= j < 4 ==> plain[j] == Stride(header + plain[4..], 4, j)
    case CertCC =>
      && |plain| >= 8
      && exists fill :: fill < 8 && MacHolds(cr, sp.kid.mode, key, header + plain[8..] + Zeros(fill), plain[..8])
    case CertDS => false
  }

  ghost predicate MacHolds(cr: Crypto, mode: CipherMode, key: seq<byte>, data: seq<byte>, mac: seq<byte>)
    requires cr.Sound()
  {
    |data| % 8 == 0 && RetailMac(cr, mode, key, data) == Ok(mac)
  }

  /** The reading c of the packet is what was put in, padded and signed. */
  ghost predicate Conveys(cr: Crypto, sp: SecurityProfile, input: Input, packet: seq<byte>, c: Option<Command>)
    requires cr.Sound() && |packet| >= 16
  {
    && c.Some? && c.value.profile == sp && c.value.tar == input.tar && c.value.counter == input.counter
    && c.value.userData == input.userData && Padded(sp, |input.userData|, c.value.pcntr)
    && Signed(cr, sp, input.signingKey, packet[3..16], c.value.signature + c.value.userData + Zeros(c.value.pcntr))
  }

  lemma SignatureHolds(cr: Crypto, sp: SecurityProfile, input: Input)
    requires cr.Sound() && input.Valid() && SignatureOf(cr, sp, input).Ok?
    ensures Signed(cr, sp, input.signingKey, Header(sp, input),
                   SignatureOf(cr, sp, input).value + input.userData + Zeros(Padding(sp, input.userData)))
  {
    var signature, padded := SignatureOf(cr, sp, input).value, input.userData + Zeros(Padding(sp, input.userData));
    var plain, n := signature + input.userData + Zeros(Padding(sp, input.userData)), |signature|;
    assert plain[..n] == signature && plain[n..] == padded;
    var covered := Header(sp, input) + input.userData + Zeros(Padding(sp, input.userData));
    assert Header(sp, input) + plain[n..] == covered;
    if sp.certMode.CertCC? {
      MacFilled(cr, sp, input, covered, signature);
    }
  }

  lemma MacFilled(cr: Crypto, sp: SecurityProfile, input: Input, covered: seq<byte>, mac: seq<byte>)
    requires cr.Sound() && RetailMac(cr, sp.kid.mode, input.signingKey, Aligned8(covered)) == Ok(mac)
    ensures exists fill :: fill < 8 && MacHolds(cr, sp.kid.mode, input.signingKey, covered + Zeros(fill), mac)
  {
    var fill: nat := if |covered| % 8 == 0 then 0 else 8 - |covered| % 8;
    assert covered + Zeros(0) == covered;
    assert MacHolds(cr, sp.kid.mode, input.signingKey, covered + Zeros(fill), mac);
  }

  /** Where the parts of a built packet stand. */
  lemma PacketParts(cr: Crypto, sp: SecurityProfile, input: Input)
    requires cr.Sound() && input.Valid() && BuildCommandPacket(cr, sp, input).Ok?
    ensures var packet := BuildCommandPacket(cr, sp, input).value;
            && SecuredData(cr, sp, input).Ok? && |packet| >= 16
            && packet[3..16] == Header(sp, input) && packet[16..] == SecuredData(cr, sp, input).value
            && packet[15] == Padding(sp, input.userData)
  {
    var packet := BuildCommandPacket(cr, sp, input).value;
    assert packet[3..16] == Header(sp, input);
    assert packet[15] == packet[3..16][12];
  }

  lemma Behind(signature: seq<byte>, data: seq<byte>, pad: seq<byte>)
    ensures var plain := signature + data + pad; plain[|plain| - |data| - |pad|..] == data + pad
  {
    assert |signature + data + pad| - |data| - |pad| == |signature|;
  }

  /** What a receiver finds in the secured octets: the signature, which holds for the
      header and the rest, and at the end the data with its padding. */
  ghost predicate Checks(cr: Crypto, sp: SecurityProfile, input: Input, header: seq<byte>, pcntr: byte, secured: seq<byte>)
    requires cr.Sound()
  {
    var plain := Reveal(cr, sp, input.cipheringKey, secured);
    && Padded(sp, |input.userData|, pcntr)
    && plain.Some? && Signed(cr, sp, input.signingKey, header, plain.value)
    && |plain.value| >= |input.userData| + pcntr
    && plain.value[|plain.value| - |input.userData| - pcntr..] == input.userData + Zeros(pcntr)
  }

  lemma SecuredChecks(cr: Crypto, sp: SecurityProfile, input: Input)
    requires cr.Sound() && input.Valid() && SecuredData(cr, sp, input).Ok?
    ensures Checks(cr, sp, input, Header(sp, input), Padding(sp, input.userData), SecuredData(cr, sp, input).value)
  {
    RevealUndoes(cr, sp, input);
    SignatureHolds(cr, sp, input);
    Behind(SignatureOf(cr, sp, input).value, input.userData, Zeros(Padding(sp, input.userData)));
    PaddingPads(sp, input.userData);
  }

  lemma PaddingPads(sp: SecurityProfile, data: seq<byte>)
    ensures Padded(sp, |data|, Padding(sp, data))
  {
  }

  /** A built packet's signature holds for its own octets: with the ciphering key a
      receiver gets it and the padded data, with the signing key it can check that
      the data and every header octet are those that were signed. */
  lemma SignatureChecks(cr: Crypto, sp: SecurityProfile, input: Input)
    requires cr.Sound() && input.Valid() && BuildCommandPacket(cr, sp, input).Ok?
    ensures var packet := BuildCommandPacket(cr, sp, input).value;
            |packet| >= 16 && Checks(cr, sp, input, packet[3..16], packet[15], packet[16..])
  {
    PacketParts(cr, sp, input);
    SecuredChecks(cr, sp, input);
  }

  /** Every field a receiver needs comes back from a built packet, padded and signed
      as it should be, for all in-range profiles, if and only if the length fits its
      two octets. */
  lemma CommandRoundTrip(cr: Crypto, sp: SecurityProfile, input: Input)
    requires cr.Sound() && input.Valid() && sp.InRange() && BuildCommandPacket(cr, sp, input).Ok?
    ensures var packet := BuildCommandPacket(cr, sp, input).value;
            && |packet| >= 16
            && (Conveys(cr, sp, input, packet, ParseCommand(cr, packet, input.cipheringKey)) <==> |packet| - 2 <= 65535)
  {
    var packet := BuildCommandPacket(cr, sp, input).value;
    PacketParts(cr, sp, input);
    if |packet| - 2 <= 65535 {
      FitConveys(cr, sp, input);
    } else {
      PacketLength(cr, sp, input);
      LengthOctets(|packet| - 2);
      WrongLength(cr, packet, input.cipheringKey);
    }
  }

  lemma FitConveys(cr: Crypto, sp: SecurityProfile, input: Input)
    requires cr.Sound() && input.Valid() && sp.InRange() && BuildCommandPacket(cr, sp, input).Ok?
    requires |BuildCommandPacket(cr, sp, input).value| - 2 <= 65535
    ensures var packet := BuildCommandPacket(cr, sp, input).value;
            |packet| >= 16 && Conveys(cr, sp, input, packet, ParseCommand(cr, packet, input.cipheringKey))
  {
    PacketParts(cr, sp, input);
    CommandReads(cr, sp, input);
    SignatureHolds(cr, sp, input);
    PaddingPads(sp, input.userData);
    ReadingConveys(cr, sp, input, BuildCommandPacket(cr, sp, input).value, SignatureOf(cr, sp, input).value,
                   Padding(sp, input.userData));
  }

  lemma ReadingConveys(cr: Crypto, sp: SecurityProfile, input: Input, packet: seq<byte>, signature: seq<byte>, pad: byte)
    requires cr.Sound() && |packet| >= 16 && Padded(sp, |input.userData|, pad)
    requires Signed(cr, sp, input.signingKey, packet[3..16], signature + input.userData + Zeros(pad))
    ensures Conveys(cr, sp, input, packet, Some(Command(sp, input.tar, input.counter, pad, signature, input.userData)))
  {
  }

  lemma PacketLength(cr: Crypto, sp: SecurityProfile, input: Input)
    requires cr.Sound() && input.Valid() && BuildCommandPacket(cr, sp, input).Ok?
    ensures var packet := BuildCommandPacket(cr, sp, input).value;
            |packet| >= 2 && packet[0] == (|packet| - 2) / 256 % 256 && packet[1] == (|packet| - 2) % 256
  {
  }

  lemma WrongLength(cr: Crypto, packet: seq<byte>, key: seq<byte>)
    requires cr.Sound() && |packet| >= 2 && Word(packet[0], packet[1]) != |packet| - 2
    ensures ParseCommand(cr, packet, key).None?
  {
  }

  // ---------------------------------------------------------------------- key use

  ghost predicate ThreeTimes(cr: Crypto, k1: seq<byte>, k2: seq<byte>, k3: seq<byte>, x: seq<byte>) {
    |k1| == |k2| == |k3| == 8 && |x| == 8 ==>
      cr.tripleDes(k1 + k2 + k3).encrypt(x) == cr.des(k3).encrypt(cr.des(k2).decrypt(cr.des(k1).encrypt(x)))
  }

  /** Triple DES is single DES three times: encrypt, decrypt, encrypt. */
  ghost predicate Standard(cr: Crypto) {
    forall k1, k2, k3, x :: ThreeTimes(cr, k1, k2, k3, x)
  }

  predicate Agree(a: Block, b: Block, x: seq<byte>) {
    |x| == a.size ==> a.encrypt(x) == b.encrypt(x)
  }

  lemma {:induction false} SameChaining(a: Block, b: Block, iv: seq<byte>, data: seq<byte>)
    requires a.Permutes() && b.Permutes() && a.size == b.size == |iv| && |data| % a.size == 0
    requires forall x :: Agree(a, b, x)
    ensures CbcEncrypt(a, iv, data) == CbcEncrypt(b, iv, data)
    decreases |data|
  {
    if data != [] {
      MultipleShrinks(|data|, a.size);
      assert Agree(a, b, XorSeq(iv, data[..a.size]));
      SameChaining(a, b, a.encrypt(XorSeq(iv, data[..a.size])), data[a.size..]);
    }
  }

  lemma EqualKeysAgree(cr: Crypto, k: seq<byte>, x: seq<byte>)
    requires cr.Sound() && Standard(cr) && |k| == 8
    ensures Agree(cr.tripleDes(k + k + k), cr.des(k), x)
  {
    assert cr.tripleDes(k + k + k).size == 8;
    if |x| == 8 {
      EqualKeysOnBlock(cr, k, x);
    }
  }

  lemma SameEncryption(a: Block, b: Block, data: seq<byte>)
    requires a.Permutes() && b.Permutes() && a.size == b.size == 8 && |data| % 8 == 0
    requires forall x :: Agree(a, b, x)
    ensures CbcEncrypt(a, Zeros(8), data) == CbcEncrypt(b, Zeros(8), data)
  {
    SameChaining(a, b, Zeros(8), data);
  }

  lemma EqualKeysOnBlock(cr: Crypto, k: seq<byte>, x: seq<byte>)
    requires cr.Sound() && Standard(cr) && |k| == 8 && |x| == 8
    ensures cr.tripleDes(k + k + k).encrypt(x) == cr.des(k).encrypt(x)
  {
    assert ThreeTimes(cr, k, k, k, x);
    Uncovers(cr.des(k), x);
  }

  /** Two keys are used as three, the first of them twice. */
  lemma TwoKeysAreThree(cr: Crypto, k1: seq<byte>, k2: seq<byte>, extra: seq<byte>, data: seq<byte>)
    requires cr.Sound() && |k1| == |k2| == 8
    ensures EncryptData(cr, TripleDes2, k1 + k2 + extra, data) == EncryptData(cr, TripleDes3, k1 + k2 + k1, data)
  {
    var key := k1 + k2 + extra;
    assert key[..16] == k1 + k2 && key[..8] == k1 && (k1 + k2 + k1)[..24] == k1 + k2 + k1;
  }

  /** And equal ones as one. */
  lemma EqualKeysAreOne(cr: Crypto, k: seq<byte>, extra: seq<byte>, data: seq<byte>)
    requires cr.Sound() && Standard(cr) && |k| == 8
    ensures EncryptData(cr, TripleDes2, k + k, data) == EncryptData(cr, DesCbc, k + extra, data)
  {
    assert (k + k)[..16] + (k + k)[..8] == k + k + k && (k + extra)[..8] == k;
    var three, one := cr.tripleDes(k + k + k), cr.des(k);
    assert three.size == 8 && one.size == 8;
    if |data| % 8 == 0 {
      forall x ensures Agree(three, one, x) {
        EqualKeysAgree(cr, k, x);
      }
      SameEncryption(three, one, data);
    }
  }

  lemma AesBlock(cr: Crypto, key: seq<byte>, extra: seq<byte>)
    requires |key| in {16, 24, 32} && (|key| == 32 || |extra| < 8)
    ensures EncryptionBlock(cr, AesCbc, key + extra) == Ok(cr.aes(key))
  {
    assert (key + extra)[..|key|] == key;
  }

  /** Of an AES key as many octets are used as make the longest key there is. */
  lemma AesKeyUsed(cr: Crypto, key: seq<byte>, extra: seq<byte>, data: seq<byte>)
    requires cr.Sound() && |key| in {16, 24, 32} && |data| % 16 == 0
    requires |key| == 32 || |extra| < 8
    ensures EncryptData(cr, AesCbc, key + extra, data) == Ok(CbcEncrypt(cr.aes(key), Zeros(16), data))
  {
    AesBlock(cr, key, extra);
    BlockSound(cr, AesCbc, key + extra);
  }
}
