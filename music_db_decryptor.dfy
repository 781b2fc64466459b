/**
 * MusicDbDecryptor: the key check, AES-128-ECB decryption of a block-aligned buffer, and the
 * framing of a MusicDB file: an "hfma" envelope, then a payload whose first cryptSize bytes
 * are encrypted and whose remaining bytes are stored as they are; the concatenation of the
 * decrypted prefix and the plain tail is a zlib stream.
 *
 * The AES block decryption and zlib inflation are library calls and are parameters here.
 */
module MusicDbDecryptor {
  import opened Wrappers
  import opened Bytes
  import opened BinaryReaders

  /** A 16-byte AES block, or a 16-byte AES-128 key. */
  type Block = b: seq<Byte> | |b| == 16 witness [0, 0, 0, 0, 0, 0, 0, 0, 0, 0, 0, 0, 0, 0, 0, 0]

  /** AES-128 decryption of one block under a key (Aes.Create with CipherMode.ECB). */
  type BlockCipher = (Block, Block) -> Block

  /** zlib decompression (InflaterInputStream); None when the stream is not valid zlib. */
  type Inflater = seq<Byte> -> Option<seq<Byte>>

  /** "hfma", the envelope signature. */
  const HFMA: seq<Byte> := [0x68, 0x66, 0x6D, 0x61]

  /** Why GetAesKeyFromEnvironment refuses the key. */
  datatype KeyError = KeyMissing | KeyWrongLength(length: nat)

  /**
   * Encoding.ASCII.GetBytes: one byte per character, '?' for a character outside ASCII
   * (a supplementary character is one replacement too, so the length is the number of
   * Unicode scalar values).
   */
  function AsciiEncode(s: string): (r: seq<Byte>)
    ensures |r| == |s|
    ensures forall i | 0 <= i < |s| :: s[i] as int < 128 ==> r[i] == s[i] as int
  {
    seq(|s|, i requires 0 <= i < |s| => if s[i] as int < 128 then s[i] as int else '?' as int)
  }

  /** GetAesKeyFromEnvironment: the MUSICDB_AES_KEY value must be set, non-empty and 16 ASCII bytes long. */
  function GetAesKey(env: Option<string>): (r: Result<Block, KeyError>)
    ensures r.Success? <==> env.Some? && |env.value| == 16
    ensures r.Success? ==> r.value == AsciiEncode(env.value)
    ensures env.None? || env.value == "" ==> r == Failure(KeyMissing)
    ensures env.Some? && env.value != "" && |env.value| != 16 ==> r == Failure(KeyWrongLength(|env.value|))
  {
    if env.None? || env.value == "" then Failure(KeyMissing)
    else
      var bytes := AsciiEncode(env.value);
      if |bytes| != 16 then Failure(KeyWrongLength(|bytes|)) else Success(bytes)
  }

  /** ECB: every 16-byte block decrypted on its own, in order. */
  function Ecb(cipher: BlockCipher, key: Block, data: seq<Byte>): (r: seq<Byte>)
    requires |data| % 16 == 0
    ensures |r| == |data|
    decreases |data|
  {
    if |data| == 0 then [] else cipher(key, data[..16]) + Ecb(cipher, key, data[16..])
  }

  /** Block k of the ECB output is the decryption of block k of the input. */
  lemma {:induction false} EcbBlock(cipher: BlockCipher, key: Block, data: seq<Byte>, k: nat)
    requires |data| % 16 == 0 && 16 * k + 16 <= |data|
    ensures Ecb(cipher, key, data)[16 * k..16 * k + 16] == cipher(key, data[16 * k..16 * k + 16])
    decreases k
  {
    if k > 0 {
      var rest := data[16..];
      EcbBlock(cipher, key, rest, k - 1);
      assert rest[16 * (k - 1)..16 * (k - 1) + 16] == data[16 * k..16 * k + 16];
      var head := cipher(key, data[..16]);
      assert Ecb(cipher, key, data) == head + Ecb(cipher, key, rest);
      assert Ecb(cipher, key, data)[16 * k..16 * k + 16] == Ecb(cipher, key, rest)[16 * (k - 1)..16 * (k - 1) + 16];
    }
  }

  /**
   * Decrypt: an empty buffer decrypts to an empty buffer; TransformFinalBlock without padding
   * rejects a buffer whose length is not a whole number of blocks.
   */
  function Decrypt(cipher: BlockCipher, key: Block, data: seq<Byte>): (r: Option<seq<Byte>>)
    ensures |data| == 0 ==> r == Some([])
    ensures r.Some? <==> |data| % 16 == 0
    ensures r.Some? ==> |r.value| == |data|
  {
    if |data| == 0 then Some([])
    else if |data| % 16 != 0 then None
    else Some(Ecb(cipher, key, data))
  }

  /** IsEncrypted: true for every buffer of at least one block, whatever the block decrypts to. */
  function IsEncrypted(cipher: BlockCipher, key: Block, data: seq<Byte>): (r: bool)
    ensures r <==> |data| >= 16
  {
    if |data| < 16 then false
    else
      var decrypted := Decrypt(cipher, key, data[..16]);
      true
  }

  /** C#'s long division, which truncates toward zero. */
  function TruncDiv(a: int, b: nat): (q: int)
    requires b > 0
    ensures a >= 0 ==> q == a / b
    ensures a < 0 ==> q == -((-a) / b)
  {
    if a >= 0 then a / b else -((-a) / b)
  }

  /** C#'s unchecked (int) conversion: the low 32 bits as a two's-complement value. */
  function WrapInt32(x: int): (r: int)
    ensures -TWO_31 <= r < TWO_31
    ensures -TWO_31 <= x < TWO_31 ==> r == x
  {
    (x + TWO_31) % TWO_32 - TWO_31
  }

  /** The number of encrypted payload bytes: the header's maximum when it is set and smaller than the payload, else the payload rounded down to whole blocks. */
  function CryptSize(payloadLength: int, maxCryptSize: nat): (r: int)
    ensures 0 < maxCryptSize < payloadLength ==> r == maxCryptSize
    ensures !(0 < maxCryptSize < payloadLength) ==> r == TruncDiv(payloadLength, 16) * 16
  {
    if 0 < maxCryptSize && maxCryptSize < payloadLength then maxCryptSize
    else TruncDiv(payloadLength, 16) * 16
  }

  /** The encrypted size never exceeds a non-negative payload; when the header's maximum is not used it is a whole number of blocks and leaves less than a block. */
  lemma {:induction false} CryptSizeBounds(payloadLength: int, maxCryptSize: nat)
    requires payloadLength >= 0
    ensures 0 <= CryptSize(payloadLength, maxCryptSize) <= payloadLength
    ensures !(0 < maxCryptSize < payloadLength) ==>
              CryptSize(payloadLength, maxCryptSize) % 16 == 0
              && payloadLength - CryptSize(payloadLength, maxCryptSize) < 16
  {
  }

  /** Why DecryptAndDecompressFile throws. */
  datatype DecryptError =
    | BadSignature    // InvalidDataException
    | EndOfStream     // the header is shorter than 88 bytes
    | NegativeCount   // ReadBytes of a count that is negative after the (int) conversion
    | Misaligned      // CryptographicException: the encrypted prefix is not block-aligned
    | BadZlib         // the inflater rejects the stream

  /** What DecryptAndDecompressFile returns. */
  datatype Decrypted = Decrypted(envelopeLength: nat, maxCryptSize: nat, data: seq<Byte>)

  /** The file starts with "hfma" and holds the 88 header bytes the decryptor reads. */
  predicate HasEnvelope(file: seq<Byte>)
  {
    |file| >= 88 && file[..4] == HFMA
  }

  /**
   * DecryptAndDecompressFile: the signature, the envelope length at 4, the maximum encrypted
   * size at 84; from the end of the envelope, cryptSize bytes to decrypt, then the remaining
   * payload bytes as they are; the concatenation inflated.
   */
  function DecryptAndDecompress(file: seq<Byte>, key: Block, cipher: BlockCipher, inflate: Inflater): Result<Decrypted, DecryptError>
  {
    var sig := Available(file, 0, 4);
    if sig != HFMA then Failure(BadSignature)
    else if |file| < 88 then Failure(EndOfStream)
    else DecryptFrom(file, U32At(file, 4), U32At(file, 84), key, cipher, inflate)
  }

  /** A file that does not start with "hfma" is rejected before any payload byte is read. */
  lemma {:induction false} DecryptNeedsSignature(file: seq<Byte>, key: Block, cipher: BlockCipher, inflate: Inflater)
    requires |file| < 4 || file[..4] != HFMA
    ensures DecryptAndDecompress(file, key, cipher, inflate) == Failure(BadSignature)
  {
    assert |Available(file, 0, 4)| < 4 || Available(file, 0, 4) == file[..4];
  }

  /** The payload part of DecryptAndDecompress, given the envelope length and the maximum encrypted size. */
  function DecryptFrom(file: seq<Byte>, envelopeLength: nat, maxCryptSize: nat, key: Block, cipher: BlockCipher, inflate: Inflater)
    : Result<Decrypted, DecryptError>
  {
    var payloadLength := |file| - envelopeLength;
    var cryptSize := CryptSize(payloadLength, maxCryptSize);
    var count := WrapInt32(cryptSize);
    if count < 0 then Failure(NegativeCount)
    else
      var encrypted := Available(file, envelopeLength, count);
      match Decrypt(cipher, key, encrypted)
      case None => Failure(Misaligned)
      case Some(decrypted) =>
        InflateWithTail(file, envelopeLength + |encrypted|, payloadLength - cryptSize, decrypted,
                        envelopeLength, maxCryptSize, inflate)
  }

  /** The plain tail read after the encrypted prefix, appended to the decrypted bytes and inflated. */
  function InflateWithTail(file: seq<Byte>, tailStart: nat, tailLength: int, decrypted: seq<Byte>,
                           envelopeLength: nat, maxCryptSize: nat, inflate: Inflater): Result<Decrypted, DecryptError>
  {
    var tailCount := WrapInt32(tailLength);
    if tailCount < 0 then Failure(NegativeCount)
    else
      var tail := Available(file, tailStart, tailCount);
      match inflate(decrypted + tail)
      case None => Failure(BadZlib)
      case Some(data) => Success(Decrypted(envelopeLength, maxCryptSize, data))
  }

  /**
   * The framing of a file whose envelope fits in it and that is under 2 GiB: the encrypted
   * prefix is the first cryptSize payload bytes, the tail is the rest of the file byte for
   * byte, and the stream handed to the inflater is as long as the payload.
   */
  lemma {:induction false} Framing(file: seq<Byte>, key: Block, cipher: BlockCipher, inflate: Inflater)
    requires HasEnvelope(file)
    requires U32At(file, 4) <= |file| < TWO_31
    ensures var env := U32At(file, 4);
            var cryptSize := CryptSize(|file| - env, U32At(file, 84));
            && 0 <= cryptSize <= |file| - env
            && (cryptSize % 16 != 0 ==> DecryptAndDecompress(file, key, cipher, inflate) == Failure(Misaligned))
            && (cryptSize % 16 == 0 ==>
                  var prefix := file[env..env + cryptSize];
                  var stream := Ecb(cipher, key, prefix) + file[env + cryptSize..];
                  && |stream| == |file| - env
                  && DecryptAndDecompress(file, key, cipher, inflate) ==
                       match inflate(stream)
                       case None => Failure(BadZlib)
                       case Some(data) => Success(Decrypted(env, U32At(file, 84), data)))
  {
    assert Available(file, 0, 4) == file[..4];
    assert DecryptAndDecompress(file, key, cipher, inflate) == DecryptFrom(file, U32At(file, 4), U32At(file, 84), key, cipher, inflate);
    FramingFrom(file, U32At(file, 4), U32At(file, 84), key, cipher, inflate);
  }

  /** Framing, for the payload part. */
  lemma {:induction false} FramingFrom(file: seq<Byte>, env: nat, maxCryptSize: nat, key: Block, cipher: BlockCipher, inflate: Inflater)
    requires env <= |file| < TWO_31
    ensures var cryptSize := CryptSize(|file| - env, maxCryptSize);
            && 0 <= cryptSize <= |file| - env
            && (cryptSize % 16 != 0 ==> DecryptFrom(file, env, maxCryptSize, key, cipher, inflate) == Failure(Misaligned))
            && (cryptSize % 16 == 0 ==>
                  var prefix := file[env..env + cryptSize];
                  var stream := Ecb(cipher, key, prefix) + file[env + cryptSize..];
                  && |stream| == |file| - env
                  && DecryptFrom(file, env, maxCryptSize, key, cipher, inflate) ==
                       match inflate(stream)
                       case None => Failure(BadZlib)
                       case Some(data) => Success(Decrypted(env, maxCryptSize, data)))
  {
    var payloadLength := |file| - env;
    CryptSizeBounds(payloadLength, maxCryptSize);
    var cryptSize := CryptSize(payloadLength, maxCryptSize);
    assert WrapInt32(cryptSize) == cryptSize;
    var encrypted := Available(file, env, cryptSize);
    assert encrypted == file[env..env + cryptSize];
    if cryptSize % 16 == 0 {
      var decrypted := Ecb(cipher, key, encrypted);
      assert Decrypt(cipher, key, encrypted) == Some(decrypted);
      assert DecryptFrom(file, env, maxCryptSize, key, cipher, inflate)
          == InflateWithTail(file, env + cryptSize, payloadLength - cryptSize, decrypted, env, maxCryptSize, inflate);
      TailFraming(file, env + cryptSize, decrypted, env, maxCryptSize, inflate);
    }
  }

  /** The tail is the rest of the file, byte for byte, when the file is under 2 GiB. */
  lemma {:induction false} TailFraming(file: seq<Byte>, tailStart: nat, decrypted: seq<Byte>, env: nat, maxCryptSize: nat, inflate: Inflater)
    requires tailStart <= |file| < TWO_31
    ensures InflateWithTail(file, tailStart, |file| - tailStart, decrypted, env, maxCryptSize, inflate) ==
              match inflate(decrypted + file[tailStart..])
              case None => Failure(BadZlib)
              case Some(data) => Success(Decrypted(env, maxCryptSize, data))
  {
    assert WrapInt32(|file| - tailStart) == |file| - tailStart;
    assert Available(file, tailStart, |file| - tailStart) == file[tailStart..];
  }

  /** DecryptAndDecompressFile, reading the file through a BinaryReader as the source does. */
  method DecryptAndDecompressFile(file: seq<Byte>, key: Block, cipher: BlockCipher, inflate: Inflater)
    returns (r: Result<Decrypted, DecryptError>)
    ensures r == DecryptAndDecompress(file, key, cipher, inflate)
  {
    var reader := new BinaryReader(file);
    var signature := reader.ReadBytes(4);
    if signature != HFMA {
      return Failure(BadSignature);
    }
    var envelopeLength := reader.ReadUInt32();
    if envelopeLength.None? {
      return Failure(EndOfStream);
    }
    reader.Seek(84);
    var maxCryptSize := reader.ReadUInt32();
    if maxCryptSize.None? {
      return Failure(EndOfStream);
    }
    assert Available(file, 0, 4) == HFMA && |file| >= 88;
    r := DecryptPayload(reader, envelopeLength.value, maxCryptSize.value, key, cipher, inflate);
  }

  /** The payload part of DecryptAndDecompressFile, once the header fields are read. */
  method DecryptPayload(reader: BinaryReader, envelopeLength: nat, maxCryptSize: nat, key: Block, cipher: BlockCipher, inflate: Inflater)
    returns (r: Result<Decrypted, DecryptError>)
    modifies reader
    ensures r == DecryptFrom(reader.data, envelopeLength, maxCryptSize, key, cipher, inflate)
  {
    var file := reader.data;
    reader.Seek(envelopeLength);
    var payloadLength := |file| - envelopeLength;
    var cryptSize := CryptSize(payloadLength, maxCryptSize);
    var count := WrapInt32(cryptSize);
    if count < 0 {
      return Failure(NegativeCount);
    }
    var encryptedData := reader.ReadBytes(count);
    assert encryptedData == Available(file, envelopeLength, count);
    var decryptedCompressed := Decrypt(cipher, key, encryptedData);
    if decryptedCompressed.None? {
      return Failure(Misaligned);
    }
    r := InflateTail(reader, decryptedCompressed.value, payloadLength - cryptSize, envelopeLength, maxCryptSize, inflate);
  }

  /** The rest of DecryptAndDecompressFile: the plain tail, then inflation of the whole stream. */
  method InflateTail(reader: BinaryReader, decrypted: seq<Byte>, tailLength: int, envelopeLength: nat, maxCryptSize: nat,
                     inflate: Inflater) returns (r: Result<Decrypted, DecryptError>)
    modifies reader
    ensures r == InflateWithTail(reader.data, old(reader.pos), tailLength, decrypted, envelopeLength, maxCryptSize, inflate)
  {
    var tailCount := WrapInt32(tailLength);
    if tailCount < 0 {
      return Failure(NegativeCount);
    }
    var remaining := reader.ReadBytes(tailCount);
    var fullCompressed := decrypted + remaining;
    var inflated := inflate(fullCompressed);
    if inflated.None? {
      return Failure(BadZlib);
    }
    r := Success(Decrypted(envelopeLength, maxCryptSize, inflated.value));
  }
}
