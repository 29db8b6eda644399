// The sealed-key blob: a header with two lengths, then the public and the private part.
module TpmBlob {
  import opened Wrappers

  datatype KeyError = InvalidBlob

  // "FATK"
  const BLOB_MAGIC: seq<u8> := [0x46, 0x41, 0x54, 0x4B]
  const BLOB_VERSION: u16 := 1
  const BLOB_HEADER_LENGTH := 14
  const MAX_BLOB_LENGTH := 64 * 1024

  // ---------------------------------------------------------------- little-endian integers

  function U16Bytes(n: u16): (b: seq<u8>)
    ensures |b| == 2
  {
    [n % 0x100, n / 0x100]
  }

  function U16Value(b: seq<u8>): (n: u16)
    requires |b| == 2
  {
    var low: int, high: int := b[0], b[1];
    low + 0x100 * high
  }

  function U32Bytes(n: u32): (b: seq<u8>)
    ensures |b| == 4
  {
    U16Bytes(n % 0x1_0000) + U16Bytes(n / 0x1_0000)
  }

  function U32Value(b: seq<u8>): (n: u32)
    requires |b| == 4
  {
    var low: int, high: int := U16Value(b[..2]), U16Value(b[2..]);
    low + 0x1_0000 * high
  }

  lemma U16RoundTrip(n: u16, b: seq<u8>)
    requires |b| == 2
    ensures U16Value(U16Bytes(n)) == n
    ensures U16Bytes(U16Value(b)) == b
  {
    var low: int, high: int := b[0], b[1];
    assert (low + 0x100 * high) % 0x100 == low && (low + 0x100 * high) / 0x100 == high;
  }

  // Four bytes and a 32-bit length are the same thing.
  lemma U32RoundTrip(n: u32, b: seq<u8>)
    requires |b| == 4
    ensures U32Value(U32Bytes(n)) == n
    ensures U32Bytes(U32Value(b)) == b
  {
    var low, high := n % 0x1_0000, n / 0x1_0000;
    U16RoundTrip(low, b[..2]);
    U16RoundTrip(high, b[2..]);
    hide U16Value;
    hide U16Bytes;
    assert U32Bytes(n)[..2] == U16Bytes(low) && U32Bytes(n)[2..] == U16Bytes(high);
    var l: int, h: int := U16Value(b[..2]), U16Value(b[2..]);
    assert (l + 0x1_0000 * h) % 0x1_0000 == l && (l + 0x1_0000 * h) / 0x1_0000 == h;
    assert b == b[..2] + b[2..];
  }

  // ---------------------------------------------------------------- the format

  predicate Fits(public: seq<u8>, private: seq<u8>) {
    BLOB_HEADER_LENGTH + |public| + |private| <= MAX_BLOB_LENGTH
  }

  function Header(public: nat, private: nat): (h: seq<u8>)
    requires public <= MAX_U32 && private <= MAX_U32
    ensures |h| == BLOB_HEADER_LENGTH
  {
    BLOB_MAGIC + U16Bytes(BLOB_VERSION) + U32Bytes(public) + U32Bytes(private)
  }

  // The one byte string that stands for a public and a private part.
  function Blob(public: seq<u8>, private: seq<u8>): (b: seq<u8>)
    requires Fits(public, private)
    ensures |b| == BLOB_HEADER_LENGTH + |public| + |private|
  {
    Header(|public|, |private|) + public + private
  }

  lemma HeaderParts(public: nat, private: nat)
    requires public <= MAX_U32 && private <= MAX_U32
    ensures
      var h := Header(public, private);
      && h[..4] == BLOB_MAGIC && h[4..6] == U16Bytes(BLOB_VERSION)
      && h[6..10] == U32Bytes(public) && h[10..14] == U32Bytes(private)
  {
    hide U16Bytes;
    hide U32Bytes;
  }

  // The bytes where the format puts them.
  predicate HasParts(b: seq<u8>, public: seq<u8>, private: seq<u8>) {
    && |b| == BLOB_HEADER_LENGTH + |public| + |private|
    && b[..4] == BLOB_MAGIC && U16Value(b[4..6]) == BLOB_VERSION
    && U32Value(b[6..10]) == |public| && U32Value(b[10..14]) == |private|
    && b[14..14 + |public|] == public && b[14 + |public|..] == private
  }

  lemma BlobParts(public: seq<u8>, private: seq<u8>)
    requires Fits(public, private)
    ensures HasParts(Blob(public, private), public, private)
  {
    var b, h := Blob(public, private), Header(|public|, |private|);
    HeaderParts(|public|, |private|);
    U16RoundTrip(BLOB_VERSION, [0, 0]);
    U32RoundTrip(|public|, [0, 0, 0, 0]);
    U32RoundTrip(|private|, [0, 0, 0, 0]);
    hide Header;
    hide U16Bytes;
    hide U32Bytes;
    hide U16Value;
    hide U32Value;
    assert b[..4] == h[..4] && b[4..6] == h[4..6] && b[6..10] == h[6..10] && b[10..14] == h[10..14];
  }

  lemma PartsMakeBlob(b: seq<u8>, public: seq<u8>, private: seq<u8>)
    requires Fits(public, private) && HasParts(b, public, private)
    ensures b == Blob(public, private)
  {
    U16RoundTrip(0, b[4..6]);
    U32RoundTrip(0, b[6..10]);
    U32RoundTrip(0, b[10..14]);
    hide U16Bytes;
    hide U32Bytes;
    hide U16Value;
    hide U32Value;
    assert b == b[..4] + b[4..6] + b[6..10] + b[10..14] + b[14..14 + |public|] + b[14 + |public|..];
  }

  // ---------------------------------------------------------------- printing and parsing

  method EncodeBlob(public: seq<u8>, private: seq<u8>) returns (r: Result<seq<u8>, KeyError>)
    ensures r == if Fits(public, private) then Success(Blob(public, private)) else Failure(InvalidBlob)
    // Four bytes of magic, two of version and four of each length, within 64 KiB.
    ensures r.Success? <==> 4 + 2 + 4 + 4 + |public| + |private| <= 0x1_0000
  {
    if |public| > MAX_U32 || |private| > MAX_U32 { return Failure(InvalidBlob); }
    var total := BLOB_HEADER_LENGTH + |public| + |private|;
    if total > MAX_U64 || total > MAX_BLOB_LENGTH { return Failure(InvalidBlob); }
    var encoded := [];
    encoded := encoded + BLOB_MAGIC;
    encoded := encoded + U16Bytes(BLOB_VERSION);
    encoded := encoded + U32Bytes(|public|);
    encoded := encoded + U32Bytes(|private|);
    encoded := encoded + public;
    encoded := encoded + private;
    hide U16Bytes;
    hide U32Bytes;
    assert encoded == Blob(public, private);
    r := Success(encoded);
  }

  // The parts of some blob of at most the maximum length.
  ghost predicate Parses(file: seq<u8>, public: seq<u8>, private: seq<u8>) {
    Fits(public, private) && file == Blob(public, private)
  }

  lemma PartsOfEveryParse(file: seq<u8>)
    ensures forall public, private :: Parses(file, public, private) ==>
              Fits(public, private) && HasParts(file, public, private)
  {
    forall public, private | Parses(file, public, private) ensures HasParts(file, public, private) {
      BlobParts(public, private);
    }
  }

  lemma PartsParse(file: seq<u8>, public: seq<u8>, private: seq<u8>)
    requires Fits(public, private) && HasParts(file, public, private)
    ensures Parses(file, public, private)
  {
    PartsMakeBlob(file, public, private);
  }

  // Reads at most one byte more than a blob may have, and takes exactly the bytes apart that
  // encoding some two parts would have produced.
  method ReadBlob(file: seq<u8>) returns (r: Result<(seq<u8>, seq<u8>), KeyError>)
    ensures r.Success? ==> Parses(file, r.value.0, r.value.1)
    ensures forall public, private :: Parses(file, public, private) ==> r == Success((public, private))
  {
    var encoded := if |file| <= MAX_BLOB_LENGTH + 1 then file else file[..MAX_BLOB_LENGTH + 1];
    hide U16Value;
    hide U32Value;
    PartsOfEveryParse(file);
    hide Parses;
    if |encoded| < BLOB_HEADER_LENGTH || |encoded| > MAX_BLOB_LENGTH { return Failure(InvalidBlob); }
    if encoded[..|BLOB_MAGIC|] != BLOB_MAGIC { return Failure(InvalidBlob); }
    var versionOffset := |BLOB_MAGIC|;
    var version := U16Value([encoded[versionOffset], encoded[versionOffset + 1]]);
    assert encoded[4..6] == [encoded[4], encoded[5]];
    if version != BLOB_VERSION { return Failure(InvalidBlob); }
    var publicLengthOffset := versionOffset + 2;
    var privateLengthOffset := publicLengthOffset + 4;
    var publicLength := U32Value(encoded[publicLengthOffset..publicLengthOffset + 4]);
    var privateLength := U32Value(encoded[privateLengthOffset..privateLengthOffset + 4]);
    var publicEnd: u64 := BLOB_HEADER_LENGTH + publicLength;
    var privateEnd: u64 := publicEnd + privateLength;
    if privateEnd != |encoded| { return Failure(InvalidBlob); }
    PartsParse(encoded, encoded[14..publicEnd], encoded[publicEnd..]);
    r := Success((encoded[14..publicEnd], encoded[publicEnd..privateEnd]));
  }

  // Two different pairs of parts never share a blob.
  lemma BlobIsInjective(public: seq<u8>, private: seq<u8>, public': seq<u8>, private': seq<u8>)
    requires Fits(public, private) && Fits(public', private')
    requires Blob(public, private) == Blob(public', private')
    ensures public == public' && private == private'
  {
    BlobParts(public, private);
    BlobParts(public', private');
  }
}
