/**
 * The S3 persistence backend's key codec and chunk arithmetic
 * (water.store.s3.PersistS3).
 *
 * An S3 object (bucket, key) is named in the K/V store by the string
 * "s3://" + bucket + "/" + key.  A large object is read lazily, one chunk of
 * the value array at a time; a ".hex" object starts with a header (the
 * serialised array description) that the chunks skip.  The chunk size
 * ValueArray.CHUNK_SZ is a parameter here.
 */
module PersistS3 {
  import opened Wrappers

  /** KEY_PREFIX. */
  const KeyPrefix: string := "s3://"

  /** s.endsWith(suffix). */
  predicate EndsWith(s: string, suffix: string) {
    |suffix| <= |s| && s[|s| - |suffix|..] == suffix
  }

  /** s.indexOf(c): the first position of c in s, None for -1. */
  function IndexOf(s: string, c: char): (r: Option<nat>)
    ensures r.Some? ==> r.value < |s| && s[r.value] == c && c !in s[..r.value]
    ensures r.None? <==> c !in s
  {
    if |s| == 0 then None
    else if s[0] == c then Some(0)
    else match IndexOf(s[1..], c)
      case None => None
      case Some(i) =>
        assert s[..i + 1] == [s[0]] + s[1..][..i];
        Some(i + 1)
  }

  // ---------------------------------------------------------------------------
  // The key codec

  /** A bucket and a key name in that bucket. */
  datatype S3Name = S3Name(bucket: string, key: string)

  /** encodeKeyImpl(bucket, key): the K/V key's name. */
  function EncodeKey(bucket: string, key: string): string {
    KeyPrefix + bucket + "/" + key
  }

  /** A name decodeKeyImpl can split: the prefix, then a '/' somewhere after it. */
  predicate Decodable(k: string) {
    KeyPrefix <= k && '/' in k[|KeyPrefix|..]
  }

  /**
   * decodeKeyImpl(k): strip the prefix and split at the first '/' after it.
   * A name without the prefix fails the assertion; a name with no '/' after
   * the prefix makes substring(0, -1) throw.
   */
  function DecodeKey(k: string): (r: Result<S3Name>)
    ensures r.Ok? <==> Decodable(k)
    ensures r.Ok? ==> '/' !in r.value.bucket
  {
    if !(KeyPrefix <= k) then Err("Attempting to decode non s3 key")
    else
      var s := k[|KeyPrefix|..];
      match IndexOf(s, '/')
      case None => Err("StringIndexOutOfBoundsException")
      case Some(d) => Ok(S3Name(s[..d], s[d + 1..]))
  }

  /** The first '/' of a + [c] + rest is at |a| when a holds no '/'. */
  lemma {:induction false} IndexOfAfter(a: string, rest: string)
    requires '/' !in a
    ensures IndexOf(a + "/" + rest, '/') == Some(|a|)
    decreases |a|
  {
    var s := a + "/" + rest;
    if |a| > 0 {
      assert s[1..] == a[1..] + "/" + rest;
      IndexOfAfter(a[1..], rest);
    }
  }

  /** Decoding an encoded name gives back the bucket and the key, when the bucket holds no '/'. */
  lemma DecodeEncode(bucket: string, key: string)
    requires '/' !in bucket
    ensures DecodeKey(EncodeKey(bucket, key)) == Ok(S3Name(bucket, key))
  {
    var k := EncodeKey(bucket, key);
    assert KeyPrefix <= k;
    var s := k[|KeyPrefix|..];
    assert s == bucket + "/" + key;
    IndexOfAfter(bucket, key);
    assert s[..|bucket|] == bucket;
    assert s[|bucket| + 1..] == key;
  }

  /** Encoding a decoded name gives back the name. */
  lemma EncodeDecode(k: string)
    requires DecodeKey(k).Ok?
    ensures EncodeKey(DecodeKey(k).value.bucket, DecodeKey(k).value.key) == k
  {
    var s := k[|KeyPrefix|..];
    var d := IndexOf(s, '/').value;
    assert s == s[..d] + "/" + s[d + 1..];
    assert k == KeyPrefix + s;
  }

  /**
   * The bijection checkBijection asserts fails for a bucket that holds a
   * '/': the name is split at the bucket's own first '/'.
   */
  lemma SlashedBucketSplitsEarly(a: string, b: string, key: string)
    requires '/' !in a
    ensures DecodeKey(EncodeKey(a + "/" + b, key)) == Ok(S3Name(a, b + "/" + key))
    ensures DecodeKey(EncodeKey(a + "/" + b, key)) != Ok(S3Name(a + "/" + b, key))
  {
    var rest := b + "/" + key;
    var s := a + "/" + rest;
    var bucket := a + "/" + b;
    assert bucket + "/" + key == s;
    var k := EncodeKey(bucket, key);
    assert k == KeyPrefix + s;
    assert k[|KeyPrefix|..] == s;
    IndexOfAfter(a, rest);
    assert s[..|a|] == a;
    assert s[|a| + 1..] == rest;
    assert DecodeKey(k) == Ok(S3Name(a, rest));
    assert |a| < |bucket|;
  }

  /** The condition decodeKeyImpl asserts: the prefix, and a '/' anywhere in the whole name. */
  predicate DecodeGuardAsWritten(k: string) {
    KeyPrefix <= k && '/' in k
  }

  /**
   * The asserted condition is met by the prefix's own '/', so a name with no
   * '/' after the prefix passes the assertion and only fails in substring.
   */
  lemma DecodeGuardAsWrittenPassesBareBucket()
    ensures DecodeGuardAsWritten("s3://bucket") && DecodeKey("s3://bucket").Err?
  {
    var k := "s3://bucket";
    assert k[3] == '/';
    assert k[|KeyPrefix|..] == "bucket";
  }

  // ---------------------------------------------------------------------------
  // Chunks and byte ranges

  /** The header skipped before a ".hex" object's data; other objects have none. */
  function HeaderLen(name: string, header: nat): nat {
    if EndsWith(name, ".hex") then header else 0
  }

  /**
   * lazyArrayChunk: the size of the chunk at offset `off` of object `name`
   * of `size` bytes, or None when the remainder was folded into the
   * previous chunk.  A chunk is CHUNK_SZ bytes unless fewer than two chunks
   * remain, in which case it takes the whole remainder.
   */
  function LazyChunkSize(chunkSz: nat, name: string, header: nat, size: int, off: int): (r: Option<int>)
    requires chunkSz > 0
    ensures var rem := size - off - HeaderLen(name, header);
      (r.None? <==> rem < chunkSz && off > 0) &&
      (r.Some? ==> r.value < 2 * chunkSz && r.value <= rem) &&
      (r.Some? && off > 0 ==> chunkSz <= r.value) &&
      (r.Some? && r.value < rem ==> r.value == chunkSz)
  {
    var rem := size - off - HeaderLen(name, header);
    if rem < chunkSz && off > 0 then None
    else if rem >= chunkSz * 2 then Some(chunkSz)
    else Some(rem)
  }

  /** The number of chunks of `data` bytes: at least one, and one per full chunk. */
  function ChunkCount(chunkSz: nat, data: nat): (n: nat)
    requires chunkSz > 0
    ensures 1 <= n
  {
    if data / chunkSz == 0 then 1 else data / chunkSz
  }

  /** The total size of the chunks at offsets 0, chunkSz, ..., (k-1) * chunkSz. */
  function ChunkTotal(chunkSz: nat, name: string, header: nat, size: int, k: nat): int
    requires chunkSz > 0
  {
    if k == 0 then 0
    else
      ChunkTotal(chunkSz, name, header, size, k - 1) +
      match LazyChunkSize(chunkSz, name, header, size, (k - 1) * chunkSz)
      case Some(sz) => sz
      case None => 0
  }

  /** While two chunks' worth remain, every chunk is full. */
  lemma {:induction false} FullChunks(chunkSz: nat, name: string, header: nat, size: int, k: nat)
    requires chunkSz > 0
    requires (k + 1) * chunkSz <= size - HeaderLen(name, header)
    ensures ChunkTotal(chunkSz, name, header, size, k) == k * chunkSz
    decreases k
  {
    if k > 0 {
      assert (k + 1) * chunkSz == k * chunkSz + chunkSz;
      assert k * chunkSz == (k - 1) * chunkSz + chunkSz;
      FullChunks(chunkSz, name, header, size, k - 1);
      assert size - (k - 1) * chunkSz - HeaderLen(name, header) >= 2 * chunkSz;
    }
  }

  /** The object's data: its size less the header. */
  function DataLen(name: string, header: nat, size: int): int {
    size - HeaderLen(name, header)
  }

  /**
   * The chunks of an object tile its data exactly: the sizes of the
   * ChunkCount first chunks add up to the object's size less the header.
   */
  lemma ChunksTile(chunkSz: nat, name: string, header: nat, size: int)
    requires chunkSz > 0 && DataLen(name, header, size) >= 0
    ensures ChunkTotal(chunkSz, name, header, size, ChunkCount(chunkSz, DataLen(name, header, size)))
         == DataLen(name, header, size)
  {
    var data := DataLen(name, header, size);
    var q := data / chunkSz;
    DivBounds(data, chunkSz);
    if q <= 1 {
      assert ChunkTotal(chunkSz, name, header, size, 1) == data;
    } else {
      LastChunk(chunkSz, name, header, size, q);
    }
  }

  /** q = data / c bounds data between q * c and q * c + c. */
  lemma DivBounds(data: nat, c: nat)
    requires c > 0
    ensures (data / c) * c <= data < (data / c) * c + c
  {
  }

  /** With q full chunks' worth of data and less than q + 1, chunk q - 1 takes the rest. */
  lemma LastChunk(chunkSz: nat, name: string, header: nat, size: int, q: nat)
    requires chunkSz > 0 && 2 <= q
    requires q * chunkSz <= DataLen(name, header, size) < q * chunkSz + chunkSz
    ensures ChunkTotal(chunkSz, name, header, size, q) == DataLen(name, header, size)
  {
    var last := (q - 1) * chunkSz;
    assert last == q * chunkSz - chunkSz;
    FullChunks(chunkSz, name, header, size, q - 1);
    assert LazyChunkSize(chunkSz, name, header, size, last) == Some(DataLen(name, header, size) - last);
  }

  /** Each of the ChunkCount first chunks exists. */
  lemma ChunkExists(chunkSz: nat, name: string, header: nat, size: int, i: nat)
    requires chunkSz > 0 && DataLen(name, header, size) >= 0
    requires i < ChunkCount(chunkSz, DataLen(name, header, size))
    ensures LazyChunkSize(chunkSz, name, header, size, i * chunkSz).Some?
  {
    var data := DataLen(name, header, size);
    var n := ChunkCount(chunkSz, data);
    if i > 0 {
      assert n == data / chunkSz;
      assert n * chunkSz <= data;
      MulMonotone(i + 1, n, chunkSz);
      assert (i + 1) * chunkSz == i * chunkSz + chunkSz;
    }
  }

  /** No chunk exists at any offset past the ChunkCount first ones. */
  lemma NoChunkAfter(chunkSz: nat, name: string, header: nat, size: int, i: nat)
    requires chunkSz > 0 && DataLen(name, header, size) >= 0
    requires ChunkCount(chunkSz, DataLen(name, header, size)) <= i
    ensures LazyChunkSize(chunkSz, name, header, size, i * chunkSz).None?
  {
    var data := DataLen(name, header, size);
    var n := ChunkCount(chunkSz, data);
    assert data < n * chunkSz + chunkSz;
    MulMonotone(n, i, chunkSz);
    MulMonotone(1, i, chunkSz);
  }

  /** a <= b implies a * c <= b * c for a non-negative c. */
  lemma MulMonotone(a: nat, b: nat, c: nat)
    requires a <= b
    ensures a * c <= b * c
  {
    var d := b - a;
    assert b * c == a * c + d * c;
  }

  /** getObjectForKey's inclusive byte range: first and last byte read. */
  function ByteRange(offset: int, length: int): (r: (int, int))
    ensures r.0 == offset && r.1 - r.0 + 1 == length
  {
    (offset, offset + length - 1)
  }

  /**
   * The range fileLoad requests for a chunk that lazyArrayChunk created
   * (offset past the header, length the chunk's size) lies inside the object.
   */
  lemma ChunkReadInside(chunkSz: nat, name: string, header: nat, size: int, off: nat)
    requires chunkSz > 0
    requires LazyChunkSize(chunkSz, name, header, size, off).Some?
    requires LazyChunkSize(chunkSz, name, header, size, off).value > 0
    ensures var r := ByteRange(off + HeaderLen(name, header), LazyChunkSize(chunkSz, name, header, size, off).value);
      HeaderLen(name, header) <= r.0 <= r.1 < size
  {
  }

  /** How loadKey wraps an S3 object. */
  datatype Loaded =
    | HexArray(firstRead: int)   // a ".hex" object: the number of bytes read now, min(CHUNK_SZ, size)
    | LargeArray(size: int)      // a value array over a large object
    | Plain(size: int)           // a plain value of the whole object

  /** loadKey's classification of an object of `size` bytes named `key`. */
  function LoadKind(chunkSz: nat, key: string, size: int): (v: Loaded)
    ensures v.HexArray? <==> EndsWith(key, ".hex")
    ensures v.HexArray? ==> v.firstRead <= chunkSz && v.firstRead <= size &&
                            (v.firstRead == chunkSz || v.firstRead == size)
    ensures v.LargeArray? ==> v.size == size && 2 * chunkSz <= size
    ensures v.Plain? ==> v.size == size && size < 2 * chunkSz
  {
    if EndsWith(key, ".hex") then HexArray(if chunkSz < size then chunkSz else size)
    else if size >= 2 * chunkSz then LargeArray(size)
    else Plain(size)
  }

  /**
   * An object loadKey keeps as a plain value is a single chunk: lazyArrayChunk
   * at offset 0 covers all of it.
   */
  lemma PlainIsOneChunk(chunkSz: nat, key: string, header: nat, size: int)
    requires chunkSz > 0
    requires LoadKind(chunkSz, key, size).Plain?
    ensures LazyChunkSize(chunkSz, key, header, size, 0) == Some(size)
  {
  }
}
