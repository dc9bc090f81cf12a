/** The form in which a value is stored and the way it is read back: an optional version in front, a
    status byte and length header when the bytes are compressed, and a reusable read buffer that
    grows once when a value does not fit. */
module StoredRecord {
  import opened Options
  import opened MachineWords
  import opened InstructionCodec
  import opened Interpreter

  /** The compressor; the first argument of each function is the dictionary. */
  datatype Lz4 = Lz4(compress: (Bytes, Bytes) -> Bytes, decompress: (Bytes, Bytes, nat) -> Option<Bytes>)

  /** Under one dictionary, decompression inverts compression when told the original length. */
  ghost predicate Inverts(z: Lz4) {
    forall d: Bytes, v: Bytes :: z.decompress(d, z.compress(d, v), |v|) == Some(v)
  }

  const LARGEST_VALUE := 0xFFFF_FFF8
  const NOT_FOUND := 0xFFFF_FFFF

  datatype Format = Format(versions: bool, compression: Option<Compressor>)
  datatype Compressor = Compressor(z: Lz4, dictionary: Bytes, threshold: nat)

  /** The part of the dictionary in use: a whole number of eight-byte words. */
  function InUse(dictionary: Bytes): Bytes { dictionary[..|dictionary| / 8 * 8] }

  // ------------------------------------------------------------------ writing

  /** The writer thread's own test, made again on the value it is given. */
  predicate NativeCompresses(threshold: nat, value: Bytes) {
    |value| >= threshold || (|value| > 0 && value[0] >= 250)
  }

  /** The encoder's test, which looks at the byte where the value starts even if the value is empty. */
  predicate EncoderCompresses(threshold: nat, value: Bytes, byteAtStart: byte) {
    |value| >= threshold || byteAtStart >= 250
  }

  /** The two sides agree on whether a value is compressed, unless the value is empty, the threshold is
      not, and the byte standing where the empty value starts looks like a status byte. */
  lemma DecisionsAgreeExactlyWhen(threshold: nat, value: Bytes, byteAtStart: byte)
    requires |value| > 0 ==> byteAtStart == value[0]
    ensures (NativeCompresses(threshold, value) <==> EncoderCompresses(threshold, value, byteAtStart))
            <==> !(value == [] && threshold > 0 && byteAtStart >= 250)
  {
  }

  /** Status byte and big-endian length: four bytes below 2^24, else eight, the second left as it was. */
  function Header(length: nat, stray: byte): (h: Bytes)
    requires length <= LARGEST_VALUE
    ensures |h| == (if length < 0x100_0000 then 4 else 8) && h[0] >= 250
  {
    if length < 0x100_0000 then
      [254, (length / 0x1_0000) as byte, (length / 0x100 % 0x100) as byte, (length % 0x100) as byte]
    else
      [255, stray, 0, 0, (length / 0x100_0000) as byte, (length / 0x1_0000 % 0x100) as byte,
       (length / 0x100 % 0x100) as byte, (length % 0x100) as byte]
  }

  function Packed(c: Compressor, value: Bytes): Bytes { c.z.compress(InUse(c.dictionary), value) }

  /** The stored bytes of a value, without the version. */
  function Body(f: Format, value: Bytes, stray: byte): Bytes
    requires |value| <= LARGEST_VALUE
  {
    if f.compression.Some? && NativeCompresses(f.compression.value.threshold, value)
    then Header(|value|, stray) + Packed(f.compression.value, value)
    else value
  }

  function Stored(f: Format, value: Bytes, version: nat, stray: byte): Bytes
    requires |value| <= LARGEST_VALUE && version < DOUBLE_LIMIT
  {
    if f.versions then VersionBytes(version) + Body(f, value, stray) else Body(f, value, stray)
  }

  // ------------------------------------------------------------------ reading

  predicate LooksCompressed(body: Bytes) { |body| > 0 && body[0] >= 250 }

  /** Under compression the status byte tells exactly the compressed values: no raw value has one. */
  lemma StatusByteTells(f: Format, value: Bytes, stray: byte)
    requires |value| <= LARGEST_VALUE && f.compression.Some?
    ensures LooksCompressed(Body(f, value, stray)) <==> NativeCompresses(f.compression.value.threshold, value)
  {
    var h := Header(|value|, stray);
    assert (h + Packed(f.compression.value, value))[0] == h[0];
  }

  /** The length and the header size read off a compressed body, if its status byte is known. */
  function ReadHeader(body: Bytes): Option<(nat, nat)>
    requires |body| > 0
  {
    if body[0] == 254 && |body| >= 4 then
      Some((body[1] as nat * 0x1_0000 + body[2] as nat * 0x100 + body[3] as nat, 4))
    else if body[0] == 255 && |body| >= 8 then
      Some((body[4] as nat * 0x100_0000 + body[5] as nat * 0x1_0000 + body[6] as nat * 0x100 + body[7] as nat, 8))
    else None
  }

  lemma HeaderReadsBack(length: nat, stray: byte, rest: Bytes)
    requires length <= LARGEST_VALUE
    ensures ReadHeader(Header(length, stray) + rest) == Some((length, |Header(length, stray)|))
    ensures (Header(length, stray) + rest)[|Header(length, stray)|..] == rest
  {
    BigEndian(length);
  }

  lemma BigEndian(n: nat)
    requires n <= LARGEST_VALUE
    ensures n == n / 0x100_0000 * 0x100_0000 + n / 0x1_0000 % 0x100 * 0x1_0000 + n / 0x100 % 0x100 * 0x100 + n % 0x100
  {
  }

  // ------------------------------------------------------------- the buffer

  /** The buffer both sides share for a kind of store. The native side holds the dictionary at its front
      and a target behind it, with the target's size; JavaScript holds how much it believes fits. */
  class ReadBuffer {
    const format: Format
    var buffer: array<byte>
    var dictSize: nat           // native: decompressTarget - dictionary, or 0
    var targetSize: nat         // native: decompressSize, or the size of the global buffer
    var maxLength: nat          // JavaScript
    var lastVersion: nat

    ghost predicate Valid()
      reads this, buffer
    {
      && maxLength == targetSize <= LARGEST_VALUE
      && dictSize + targetSize <= buffer.Length
      && buffer[..dictSize] == Dictionary()
    }

    function Dictionary(): Bytes {
      if format.compression.Some? then InUse(format.compression.value.dictionary) else []
    }

    /** At first the dictionary is where the options put it, with no room behind it. */
    constructor (format: Format)
      ensures Valid() && this.format == format && maxLength == 0
    {
      this.format := format;
      var dictionary := if format.compression.Some? then format.compression.value.dictionary else [];
      buffer := new byte[|dictionary|](k requires 0 <= k < |dictionary| => dictionary[k]);
      dictSize := |dictionary| / 8 * 8;
      targetSize, maxLength, lastVersion := 0, 0, 0;
      new;
      assert buffer[..] == dictionary;
    }

    /** `compress`: the bytes to store, or nothing if the value is to be stored as it is. */
    method Compress(value: Bytes, stray: byte) returns (r: Option<Bytes>)
      requires Valid() && format.compression.Some? && |value| <= LARGEST_VALUE
      ensures var c := format.compression.value;
              r == if NativeCompresses(c.threshold, value) then Some(Header(|value|, stray) + Packed(c, value))
                   else None
    {
      var c := format.compression.value;
      var length := |value|;
      if length < c.threshold && !(length > 0 && value[0] >= 250) {
        return None;
      }
      var header;
      if length >= 0x100_0000 {
        header := [255 as byte, stray, 0, 0, (length / 0x100_0000 % 0x100) as byte,
                   (length / 0x1_0000 % 0x100) as byte, (length / 0x100 % 0x100) as byte, (length % 0x100) as byte];
      } else {
        header := [254 as byte, (length / 0x1_0000 % 0x100) as byte, (length / 0x100 % 0x100) as byte,
                   (length % 0x100) as byte];
      }
      return Some(header + c.z.compress(buffer[..dictSize], value));
    }

    /** A memcpy into the front of the target. */
    method Copy(bytes: Bytes)
      requires Valid() && |bytes| <= targetSize
      modifies buffer
      ensures Valid() && buffer[dictSize..dictSize + |bytes|] == bytes
    {
      var k := 0;
      while k < |bytes|
        invariant 0 <= k <= |bytes| && Valid()
        invariant buffer[dictSize..dictSize + k] == bytes[..k]
      {
        buffer[dictSize + k] := bytes[k];
        assert buffer[dictSize..dictSize + k + 1] == buffer[dictSize..dictSize + k] + [bytes[k]];
        k := k + 1;
      }
    }

    /** Looks one record up and leaves the value in the target if it fits; the length is reported
        whether or not it does. */
    method GetByBinary(record: Option<Bytes>, ghost value: Bytes, ghost version: nat, ghost stray: byte)
      returns (length: nat)
      requires Valid() && |value| <= LARGEST_VALUE && version < DOUBLE_LIMIT
      requires format.compression.Some? ==> Inverts(format.compression.value.z)
      requires record.Some? ==> record.value == Stored(format, value, version, stray)
      modifies this`lastVersion, buffer
      ensures Valid() && length == if record.Some? then |value| else NOT_FOUND
      ensures record.Some? && |value| <= targetSize ==> buffer[dictSize..dictSize + |value|] == value
      ensures record.Some? && format.versions ==> lastVersion == version
    {
      if record.None? {
        return NOT_FOUND;
      }
      var data := record.value;
      if format.versions {
        VersionReadsBack(version, Body(format, value, stray));
        lastVersion := VersionOf(data);
        data := data[8..];
      }
      assert data == Body(format, value, stray);
      if |data| == 0 {
        EmptyBody(format, value, stray);
        return 0;
      }
      if format.compression.Some? {
        StatusByteTells(format, value, stray);
      }
      if format.compression.Some? && data[0] >= 250 {
        HeaderReadsBack(|value|, stray, Packed(format.compression.value, value));
        var header := ReadHeader(data);
        length := header.value.0;
        if length > targetSize {
          return;
        }
        var written := format.compression.value.z.decompress(buffer[..dictSize], data[header.value.1..], length);
        assert written == Some(value);
        Copy(written.value);
        return;
      }
      if |data| <= targetSize {
        Copy(data);
      }
      return |data|;
    }

    /** The native side is told of a new buffer: `setBuffer`, or `setGlobalBuffer` with no dictionary. */
    method SetBuffer(bytes: array<byte>, size: nat)
      requires size <= bytes.Length
      modifies this
      ensures buffer == bytes && dictSize == size && targetSize == bytes.Length - size
      ensures maxLength == old(maxLength) && lastVersion == old(lastVersion)
    {
      buffer := bytes;
      dictSize := size;
      targetSize := bytes.Length - size;
    }

    /** `_allocateGetBuffer`: a buffer with the dictionary copied to its front and room for the value
        behind the part of it that is in use. */
    method AllocateGetBuffer(lastSize: nat)
      modifies this
      ensures Valid() && fresh(buffer) && lastVersion == old(lastVersion)
      ensures lastSize <= LARGEST_VALUE ==> lastSize <= maxLength
    {
      var newLength := if lastSize * 2 > 0x1000 then lastSize * 2 else 0x1000;
      if newLength > LARGEST_VALUE {
        newLength := LARGEST_VALUE;
      }
      var dictionary := if format.compression.Some? then format.compression.value.dictionary else [];
      var dictLength := |dictionary| / 8 * 8;
      var bytes := new byte[newLength + dictLength];
      var k := 0;
      while k < |dictionary|
        invariant 0 <= k <= |dictionary| && bytes[..k] == dictionary[..k]
        modifies bytes
      {
        bytes[k] := dictionary[k];
        k := k + 1;
      }
      assert bytes[..dictLength] == bytes[..|dictionary|][..dictLength];
      SetBuffer(bytes, dictLength);
      maxLength := newLength;
    }

    /** `getBinary`: whatever buffer there was, one retry at most, and exactly the stored value and
        version come back; an absent key gives nothing. */
    method GetBinary(record: Option<Bytes>, ghost value: Bytes, ghost version: nat, ghost stray: byte)
      returns (r: Option<Bytes>)
      requires Valid() && |value| <= LARGEST_VALUE && version < DOUBLE_LIMIT
      requires format.compression.Some? ==> Inverts(format.compression.value.z)
      requires record.Some? ==> record.value == Stored(format, value, version, stray)
      modifies this, buffer
      ensures Valid()
      ensures r == if record.Some? then Some(value) else None
      ensures record.Some? && format.versions ==> lastVersion == version
    {
      hide Stored, Inverts, InUse;
      var lastSize := GetByBinary(record, value, version, stray);
      if lastSize > maxLength {
        if lastSize == NOT_FOUND {
          return None;
        }
        AllocateGetBuffer(lastSize);
        lastSize := GetByBinary(record, value, version, stray);
      }
      return Some(buffer[dictSize..dictSize + lastSize]);
    }

    /** Storing a value and reading it back, through whatever buffer there is. */
    method PutThenGet(value: Bytes, version: nat, stray: byte) returns (r: Bytes)
      requires Valid() && |value| <= LARGEST_VALUE && version < DOUBLE_LIMIT
      requires format.compression.Some? ==> Inverts(format.compression.value.z)
      modifies this, buffer
      ensures Valid() && r == value && (format.versions ==> lastVersion == version)
    {
      var data := value;
      if format.compression.Some? {
        var compressed := Compress(value, stray);
        if compressed.Some? {
          data := compressed.value;
        }
      }
      if format.versions {
        data := VersionBytes(version) + data;
      }
      assert data == Stored(format, value, version, stray);
      var back := GetBinary(Some(data), value, version, stray);
      return back.value;
    }
  }

  lemma EmptyBody(f: Format, value: Bytes, stray: byte)
    requires |value| <= LARGEST_VALUE && Body(f, value, stray) == []
    ensures value == []
  {
  }
}
