/**
  The tensor-file layout (core/src/serialization.rs): an 8-byte
  little-endian header length, a JSON header mapping each tensor name to
  its dtype, shape and byte span, then the tensors' bytes in key order.
  The JSON text is abstract (a codec of total functions); an `f32` element
  is its 32-bit pattern, stored little-endian.
*/
module Safetensors {
  import opened Wrappers

  type Byte = b: int | 0 <= b < 256
  type Bits32 = w: int | 0 <= w < 0x1_0000_0000

  const U64Modulus: nat := 0x1_0000_0000_0000_0000

  /** The key under which the optional metadata is stored. */
  const MetadataKey: string := "__metadata__"

  datatype Tensor = Tensor(shape: seq<nat>, data: seq<Bits32>)

  /** A header value: a tensor's description, or any other JSON value
      (metadata), kept as its text. */
  datatype Value = Info(dtype: string, shape: seq<nat>, offsets: seq<nat>) | Json(text: string)

  type Header = map<string, Value>

  /** `serde_json::to_vec` and `serde_json::from_slice` for headers. */
  datatype Codec = Codec(encode: Header -> seq<Byte>, decode: seq<Byte> -> Header)

  ghost predicate Lossless(c: Codec)
  {
    forall h :: c.decode(c.encode(h)) == h
  }

  // ---------------------------------------------------------------- bytes

  function Pow256(n: nat): (p: nat)
    ensures p >= 1
  {
    if n == 0 then 1 else 256 * Pow256(n - 1)
  }

  /** `to_le_bytes`: the `width` low bytes of `n`, least significant first. */
  function LittleEndian(n: nat, width: nat): (bs: seq<Byte>)
    ensures |bs| == width
  {
    if width == 0 then [] else [n % 256] + LittleEndian(n / 256, width - 1)
  }

  /** `from_le_bytes`. */
  function FromLittleEndian(bs: seq<Byte>): (n: nat)
    ensures n < Pow256(|bs|)
  {
    if bs == [] then 0 else bs[0] + 256 * FromLittleEndian(bs[1..])
  }

  lemma QuotientBelow(n: nat, width: nat)
    requires width > 0 && n < Pow256(width)
    ensures n / 256 < Pow256(width - 1)
  {
  }

  /** A number that fits in `width` bytes is read back from its bytes. */
  lemma {:induction false} FromLittleEndianOf(n: nat, width: nat)
    requires n < Pow256(width)
    ensures FromLittleEndian(LittleEndian(n, width)) == n
  {
    if width > 0 {
      QuotientBelow(n, width);
      FromLittleEndianOf(n / 256, width - 1);
      assert LittleEndian(n, width)[1..] == LittleEndian(n / 256, width - 1);
    }
  }

  /** Every byte string is the encoding of the number it denotes. */
  lemma {:induction false} LittleEndianOf(bs: seq<Byte>)
    ensures LittleEndian(FromLittleEndian(bs), |bs|) == bs
  {
    if bs != [] {
      LittleEndianOf(bs[1..]);
      var n := FromLittleEndian(bs);
      assert n % 256 == bs[0] && n / 256 == FromLittleEndian(bs[1..]);
    }
  }

  /** The bytes of a tensor's data, element by element (the source
      reinterprets the `f32` slice as bytes). */
  function TensorBytes(data: seq<Bits32>): (bs: seq<Byte>)
    ensures |bs| == 4 * |data|
  {
    if data == [] then [] else LittleEndian(data[0], 4) + TensorBytes(data[1..])
  }

  /** The elements a byte span is copied into: one per four bytes. */
  function Elements(bs: seq<Byte>): (data: seq<Bits32>)
    ensures |data| == |bs| / 4
    decreases |bs|
  {
    if |bs| < 4 then [] else [FromLittleEndian(bs[..4])] + Elements(bs[4..])
  }

  /** Reading back the bytes of a tensor gives its data. */
  lemma {:induction false} ElementsOfTensorBytes(data: seq<Bits32>)
    ensures Elements(TensorBytes(data)) == data
  {
    if data != [] {
      var bs := TensorBytes(data);
      assert bs[..4] == LittleEndian(data[0], 4);
      assert bs[4..] == TensorBytes(data[1..]);
      FromLittleEndianOf(data[0], 4);
      ElementsOfTensorBytes(data[1..]);
    }
  }

  // --------------------------------------------------------------- layout

  /** The tensors as a `BTreeMap` iterates them: ascending by name. */
  type Entries = seq<(string, Tensor)>

  /** Rust's `String` order: lexicographic by character. */
  predicate Below(a: string, b: string)
  {
    if a == [] then b != []
    else if b == [] then false
    else a[0] < b[0] || (a[0] == b[0] && Below(a[1..], b[1..]))
  }

  lemma {:induction false} BelowIrreflexive(a: string)
    ensures !Below(a, a)
  {
    if a != [] {
      BelowIrreflexive(a[1..]);
    }
  }

  predicate Ascending(ts: Entries)
  {
    forall i, j :: 0 <= i < j < |ts| ==> Below(ts[i].0, ts[j].0)
  }

  predicate DistinctNames(ts: Entries)
  {
    forall i, j :: 0 <= i < j < |ts| ==> ts[i].0 != ts[j].0
  }

  lemma AscendingDistinct(ts: Entries)
    requires Ascending(ts)
    ensures DistinctNames(ts)
  {
    forall i, j | 0 <= i < j < |ts| ensures ts[i].0 != ts[j].0 {
      BelowIrreflexive(ts[i].0);
    }
  }

  /** The tensor names. */
  function Names(ts: Entries): set<string>
  {
    if ts == [] then {} else Names(ts[..|ts| - 1]) + {ts[|ts| - 1].0}
  }

  lemma {:induction false} NameAt(ts: Entries, i: nat)
    requires i < |ts|
    ensures ts[i].0 in Names(ts)
  {
    if i < |ts| - 1 {
      NameAt(ts[..|ts| - 1], i);
    }
  }

  lemma {:induction false} NameIndex(ts: Entries, k: string) returns (i: nat)
    requires k in Names(ts)
    ensures i < |ts| && ts[i].0 == k
  {
    if k != ts[|ts| - 1].0 {
      i := NameIndex(ts[..|ts| - 1], k);
    } else {
      i := |ts| - 1;
    }
  }

  /** The number of data bytes the tensors take. */
  function Size(ts: Entries): nat
  {
    if ts == [] then 0 else Size(ts[..|ts| - 1]) + 4 * |ts[|ts| - 1].1.data|
  }

  /** The header the write loop builds: in order, each tensor gets the span
      that starts where the previous one ended. */
  function HeaderOf(ts: Entries): (h: Header)
    ensures h.Keys == Names(ts)
  {
    if ts == [] then map[]
    else
      var init := ts[..|ts| - 1];
      var (name, t) := ts[|ts| - 1];
      HeaderOf(init)[name := Info("F32", t.shape, [Size(init), Size(ts)])]
  }

  /** `__metadata__` is inserted last, so it replaces any tensor of that
      name. */
  function WithMetadata(h: Header, metadata: Option<Value>): (h': Header)
    ensures metadata.Some? ==> MetadataKey in h' && h'[MetadataKey] == metadata.value
    ensures forall k :: k != MetadataKey ==> (k in h' <==> k in h) && (k in h ==> h'[k] == h[k])
    ensures metadata.None? ==> h' == h
  {
    if metadata.Some? then h[MetadataKey := metadata.value] else h
  }

  /** The data section: every tensor's bytes, in key order. */
  function Payload(ts: Entries): (bs: seq<Byte>)
    ensures |bs| == Size(ts)
  {
    if ts == [] then [] else Payload(ts[..|ts| - 1]) + TensorBytes(ts[|ts| - 1].1.data)
  }

  /** The file `write_safetensors` produces. */
  function Written(ts: Entries, metadata: Option<Value>, codec: Codec): seq<Byte>
  {
    var hb := codec.encode(WithMetadata(HeaderOf(ts), metadata));
    LittleEndian(|hb| % U64Modulus, 8) + hb + Payload(ts)
  }

  lemma SizeStep(ts: Entries, i: nat)
    requires i < |ts|
    ensures Size(ts[..i + 1]) == Size(ts[..i]) + 4 * |ts[i].1.data|
    ensures Payload(ts[..i + 1]) == Payload(ts[..i]) + TensorBytes(ts[i].1.data)
  {
    assert ts[..i + 1][..i] == ts[..i];
  }

  lemma HeaderStep(ts: Entries, i: nat)
    requires i < |ts|
    ensures HeaderOf(ts[..i + 1]) ==
      HeaderOf(ts[..i])[ts[i].0 := Info("F32", ts[i].1.shape, [Size(ts[..i]), Size(ts[..i + 1])])]
  {
    assert ts[..i + 1][..i] == ts[..i];
  }

  /** The first half of `write_safetensors`: the header loop with its
      running offset, then the optional metadata. */
  method BuildHeader(ts: Entries, metadata: Option<Value>) returns (header: Header)
    ensures header == WithMetadata(HeaderOf(ts), metadata)
  {
    header := map[];
    var offset: nat := 0;
    for i := 0 to |ts|
      invariant header == HeaderOf(ts[..i]) && offset == Size(ts[..i])
    {
      var (name, tensor) := ts[i];
      var numBytes := |tensor.data| * 4;
      SizeStep(ts, i);
      HeaderStep(ts, i);
      header := header[name := Info("F32", tensor.shape, [offset, offset + numBytes])];
      offset := offset + numBytes;
    }
    assert ts[..|ts|] == ts;
    if metadata.Some? {
      header := header[MetadataKey := metadata.value];
    }
  }

  /** `write_safetensors`: the length prefix, the header bytes, then each
      tensor's bytes in key order. */
  method Write(ts: Entries, metadata: Option<Value>, codec: Codec) returns (file: seq<Byte>)
    ensures file == Written(ts, metadata, codec)
  {
    var header := BuildHeader(ts, metadata);
    var headerBytes := codec.encode(header);
    var headerLen := |headerBytes| % U64Modulus;
    file := LittleEndian(headerLen, 8);
    file := file + headerBytes;
    file := AppendTensors(ts, file);
  }

  /** The second loop of `write_safetensors`: each tensor's bytes, in key
      order, after what is already written. */
  method AppendTensors(ts: Entries, prefix: seq<Byte>) returns (file: seq<Byte>)
    ensures file == prefix + Payload(ts)
  {
    file := prefix;
    for i := 0 to |ts|
      invariant file == prefix + Payload(ts[..i])
    {
      SizeStep(ts, i);
      assert prefix + Payload(ts[..i + 1]) == prefix + Payload(ts[..i]) + TensorBytes(ts[i].1.data);
      file := file + TensorBytes(ts[i].1.data);
    }
    assert ts[..|ts|] == ts;
  }

  /** Each tensor's header entry is `F32`, its shape, and the span from the
      bytes before it to the bytes up to and including it. */
  lemma {:induction false} Layout(ts: Entries, i: nat)
    requires DistinctNames(ts) && i < |ts|
    ensures ts[i].0 in HeaderOf(ts)
    ensures HeaderOf(ts)[ts[i].0] == Info("F32", ts[i].1.shape, [Size(ts[..i]), Size(ts[..i + 1])])
  {
    if i < |ts| - 1 {
      DistinctInit(ts);
      Layout(ts[..|ts| - 1], i);
      LayoutStep(ts, i);
    } else {
      assert ts[..i + 1] == ts;
    }
  }

  /** The entry of an earlier tensor is not changed by the last one. */
  lemma LayoutStep(ts: Entries, i: nat)
    requires DistinctNames(ts) && i < |ts| - 1
    requires var init := ts[..|ts| - 1];
      ts[i].0 in HeaderOf(init) && HeaderOf(init)[ts[i].0] == Info("F32", ts[i].1.shape, [Size(init[..i]), Size(init[..i + 1])])
    ensures ts[i].0 in HeaderOf(ts)
    ensures HeaderOf(ts)[ts[i].0] == Info("F32", ts[i].1.shape, [Size(ts[..i]), Size(ts[..i + 1])])
  {
    var init := ts[..|ts| - 1];
    assert init[..i] == ts[..i] && init[..i + 1] == ts[..i + 1];
    assert ts[|ts| - 1].0 != ts[i].0;
  }

  lemma DistinctInit(ts: Entries)
    requires DistinctNames(ts) && ts != []
    ensures DistinctNames(ts[..|ts| - 1])
  {
    var init := ts[..|ts| - 1];
    forall a, b | 0 <= a < b < |init|
      ensures init[a].0 != init[b].0
    {
      assert init[a] == ts[a] && init[b] == ts[b];
    }
  }

  /** Spans are contiguous: the first starts at 0, each ends where the next
      starts, and the last ends at the size of the data section. */
  lemma Contiguous(ts: Entries)
    requires DistinctNames(ts)
    ensures forall i :: 0 <= i < |ts| ==>
      ts[i].0 in HeaderOf(ts) && HeaderOf(ts)[ts[i].0] == Info("F32", ts[i].1.shape, [Size(ts[..i]), Size(ts[..i + 1])])
    ensures Size(ts[..0]) == 0 && Size(ts[..|ts|]) == |Payload(ts)|
  {
    forall i | 0 <= i < |ts|
      ensures ts[i].0 in HeaderOf(ts) && HeaderOf(ts)[ts[i].0] == Info("F32", ts[i].1.shape, [Size(ts[..i]), Size(ts[..i + 1])])
    {
      Layout(ts, i);
    }
    assert ts[..0] == [] && ts[..|ts|] == ts;
  }

  lemma {:induction false} PayloadPrefix(ts: Entries, i: nat)
    requires i <= |ts|
    ensures Size(ts[..i]) <= Size(ts)
    ensures Payload(ts)[..Size(ts[..i])] == Payload(ts[..i])
    decreases |ts| - i
  {
    if i < |ts| {
      PayloadPrefix(ts, i + 1);
      SizeStep(ts, i);
      assert Payload(ts)[..Size(ts[..i])] == Payload(ts)[..Size(ts[..i + 1])][..Size(ts[..i])];
    } else {
      assert ts[..i] == ts;
    }
  }

  /** The data section holds each tensor's bytes in its declared span. */
  lemma Span(ts: Entries, i: nat)
    requires i < |ts|
    ensures Size(ts[..i]) <= Size(ts[..i + 1]) <= |Payload(ts)|
    ensures Payload(ts)[Size(ts[..i])..Size(ts[..i + 1])] == TensorBytes(ts[i].1.data)
  {
    PayloadPrefix(ts, i + 1);
    SizeStep(ts, i);
    var p := Payload(ts);
    assert p[Size(ts[..i])..Size(ts[..i + 1])] == p[..Size(ts[..i + 1])][Size(ts[..i])..];
  }

  // ----------------------------------------------------------------- read

  /** What the read loop demands of a tensor's entry: the `shape` and
      `data_offsets` lookups succeed and the span lies in the data section.
      The span length must be a whole number of elements: otherwise the
      source copies more bytes than the element buffer holds. */
  predicate Fits(v: Value, size: nat)
  {
    v.Info? && |v.offsets| >= 2 && v.offsets[0] <= v.offsets[1] <= size &&
    (v.offsets[1] - v.offsets[0]) % 4 == 0
  }

  predicate WellFormed(h: Header, size: nat)
  {
    forall k :: k in h && k != MetadataKey ==> Fits(h[k], size)
  }

  /** The header length prefix and the header bytes, when the file is long
      enough to hold them. */
  function Sections(file: seq<Byte>, codec: Codec): Option<(Header, seq<Byte>)>
  {
    if |file| < 8 then None
    else
      var len := FromLittleEndian(file[..8]);
      if |file| - 8 < len then None
      else Some((codec.decode(file[8..8 + len]), file[8 + len..]))
  }

  /** The files `read_safetensors` reads without a panic. */
  predicate Readable(file: seq<Byte>, codec: Codec)
  {
    var s := Sections(file, codec);
    s.Some? ==> WellFormed(s.value.0, |s.value.1|)
  }

  function Entry(v: Value, data: seq<Byte>): (t: Tensor)
    requires Fits(v, |data|)
    ensures t.shape == v.shape && |t.data| == (v.offsets[1] - v.offsets[0]) / 4
  {
    Tensor(v.shape, Elements(data[v.offsets[0]..v.offsets[1]]))
  }

  datatype Loaded = Loaded(tensors: map<string, Tensor>, metadata: Option<Value>)

  /** What `read_safetensors` returns: an error when the file is too short
      for the length prefix or the header; otherwise every entry but
      `__metadata__` as a tensor, and `__metadata__` as the metadata. */
  function Read(file: seq<Byte>, codec: Codec): (r: Result<Loaded>)
    requires Readable(file, codec)
    ensures r.Err? <==> Sections(file, codec).None?
    ensures r.Ok? ==> var (h, data) := Sections(file, codec).value;
      (forall k :: k in r.value.tensors <==> k in h && k != MetadataKey) &&
      (forall k :: k in r.value.tensors ==> r.value.tensors[k] == Entry(h[k], data)) &&
      (r.value.metadata.Some? <==> MetadataKey in h) &&
      (MetadataKey in h ==> r.value.metadata.value == h[MetadataKey])
  {
    match Sections(file, codec)
    case None => Err
    case Some((h, data)) =>
      Ok(Loaded(map k | k in h && k != MetadataKey :: Entry(h[k], data),
        if MetadataKey in h then Some(h[MetadataKey]) else None))
  }

  /** `read_safetensors`: the length prefix, the header, the data section,
      then one pass over the header's entries. */
  method ReadFile(file: seq<Byte>, codec: Codec) returns (r: Result<Loaded>)
    requires Readable(file, codec)
    ensures r == Read(file, codec)
  {
    if |file| < 8 {
      return Err;
    }
    var headerLen := FromLittleEndian(file[..8]);
    if |file| - 8 < headerLen {
      return Err;
    }
    var header := codec.decode(file[8..8 + headerLen]);
    var data := file[8 + headerLen..];
    var tensors, metadata := Collect(header, data);
    r := Ok(Loaded(tensors, metadata));
  }

  /** The loop over the header's entries: `__metadata__` becomes the
      metadata, every other entry the tensor its span holds. */
  method Collect(header: Header, data: seq<Byte>) returns (tensors: map<string, Tensor>, metadata: Option<Value>)
    requires WellFormed(header, |data|)
    ensures tensors == (map k | k in header && k != MetadataKey :: Entry(header[k], data))
    ensures metadata == if MetadataKey in header then Some(header[MetadataKey]) else None
  {
    tensors, metadata := map[], None;
    var todo := header.Keys;
    while todo != {}
      invariant todo <= header.Keys
      invariant forall k :: k in tensors <==> k in header && k !in todo && k != MetadataKey
      invariant forall k :: k in tensors ==> tensors[k] == Entry(header[k], data)
      invariant metadata == if MetadataKey in header && MetadataKey !in todo then Some(header[MetadataKey]) else None
      decreases |todo|
    {
      var name :| name in todo;
      todo := todo - {name};
      if name == MetadataKey {
        metadata := Some(header[name]);
        continue;
      }
      var v := header[name];
      var start := v.offsets[0];
      var end := v.offsets[1];
      var numElems := (end - start) / 4;
      var tensorData := Elements(data[start..end]);
      assert |tensorData| == numElems;
      tensors := tensors[name := Tensor(v.shape, tensorData)];
    }
    Collected(header, data, tensors);
  }

  lemma Collected(header: Header, data: seq<Byte>, tensors: map<string, Tensor>)
    requires WellFormed(header, |data|)
    requires forall k :: k in tensors <==> k in header && k != MetadataKey
    requires forall k :: k in tensors ==> tensors[k] == Entry(header[k], data)
    ensures tensors == (map k | k in header && k != MetadataKey :: Entry(header[k], data))
  {
  }

  /** The tensors as the map the source writes from. */
  function AsMap(ts: Entries): (m: map<string, Tensor>)
    ensures m.Keys == Names(ts)
  {
    if ts == [] then map[]
    else
      var init := ts[..|ts| - 1];
      AsMap(init)[ts[|ts| - 1].0 := ts[|ts| - 1].1]
  }

  lemma {:induction false} AsMapAt(ts: Entries, i: nat)
    requires DistinctNames(ts) && i < |ts|
    ensures ts[i].0 in AsMap(ts) && AsMap(ts)[ts[i].0] == ts[i].1
  {
    NameAt(ts, i);
    var last := |ts| - 1;
    var init := ts[..last];
    if i < last {
      DistinctInit(ts);
      AsMapAt(init, i);
      assert ts[last].0 != ts[i].0;
    }
  }

  /** A length prefix, header bytes and a data section are split apart
      again by the reader. */
  lemma SectionsOf(hb: seq<Byte>, data: seq<Byte>, codec: Codec)
    requires |hb| < U64Modulus
    ensures Sections(LittleEndian(|hb|, 8) + hb + data, codec) == Some((codec.decode(hb), data))
  {
    var prefix := LittleEndian(|hb|, 8);
    LengthPrefix(|hb|);
    var file := prefix + hb + data;
    assert file[..8] == prefix;
    assert file[8..8 + |hb|] == hb;
    assert file[8 + |hb|..] == data;
  }

  /** An 8-byte length prefix reads back as the length. */
  lemma LengthPrefix(n: nat)
    requires n < U64Modulus
    ensures FromLittleEndian(LittleEndian(n, 8)) == n
  {
    assert Pow256(8) == U64Modulus;
    FromLittleEndianOf(n, 8);
  }

  /** The header length prefix of a written file is read back as the
      header's length. */
  lemma WrittenSections(ts: Entries, metadata: Option<Value>, codec: Codec)
    requires Lossless(codec)
    requires |codec.encode(WithMetadata(HeaderOf(ts), metadata))| < U64Modulus
    ensures Sections(Written(ts, metadata, codec), codec) ==
      Some((WithMetadata(HeaderOf(ts), metadata), Payload(ts)))
  {
    var hb := codec.encode(WithMetadata(HeaderOf(ts), metadata));
    assert |hb| % U64Modulus == |hb|;
    SectionsOf(hb, Payload(ts), codec);
  }

  /** A tensor's entry in a written header reads back as the tensor. */
  lemma EntryOfWritten(ts: Entries, i: nat)
    requires DistinctNames(ts) && i < |ts|
    ensures ts[i].0 in HeaderOf(ts) && Fits(HeaderOf(ts)[ts[i].0], |Payload(ts)|)
    ensures Entry(HeaderOf(ts)[ts[i].0], Payload(ts)) == ts[i].1
  {
    Layout(ts, i);
    Span(ts, i);
    var v := HeaderOf(ts)[ts[i].0];
    var bytes := TensorBytes(ts[i].1.data);
    assert Payload(ts)[v.offsets[0]..v.offsets[1]] == bytes;
    assert v.offsets[1] - v.offsets[0] == |bytes| == 4 * |ts[i].1.data|;
    ElementsOfTensorBytes(ts[i].1.data);
  }

  /** Every tensor entry of a written header reads back as the tensor of
      that name. */
  lemma WrittenEntries(ts: Entries, metadata: Option<Value>)
    requires DistinctNames(ts)
    ensures var h, data := WithMetadata(HeaderOf(ts), metadata), Payload(ts);
      forall k :: k in h && k != MetadataKey ==> k in AsMap(ts) && Fits(h[k], |data|) && Entry(h[k], data) == AsMap(ts)[k]
  {
    var h, data := WithMetadata(HeaderOf(ts), metadata), Payload(ts);
    forall k | k in h && k != MetadataKey
      ensures k in AsMap(ts) && Fits(h[k], |data|) && Entry(h[k], data) == AsMap(ts)[k]
    {
      var i := NameIndex(ts, k);
      EntryOfWritten(ts, i);
      AsMapAt(ts, i);
    }
  }

  /** A file whose sections are a header and a data section whose entries
      read back as `tensors` is read as `tensors` and the header's
      metadata. */
  lemma ReadOf(file: seq<Byte>, codec: Codec, h: Header, data: seq<Byte>, tensors: map<string, Tensor>)
    requires Sections(file, codec) == Some((h, data))
    requires forall k :: k in h && k != MetadataKey ==> k in tensors && Fits(h[k], |data|) && Entry(h[k], data) == tensors[k]
    requires forall k :: k in tensors ==> k in h && k != MetadataKey
    ensures Readable(file, codec)
    ensures Read(file, codec) == Ok(Loaded(tensors, if MetadataKey in h then Some(h[MetadataKey]) else None))
  {
    var r := Read(file, codec);
    assert r.value.tensors == tensors;
  }

  /** Reading a written file gives back the tensors and the metadata, when
      no tensor is named `__metadata__` and the header's length fits in
      a `u64`. */
  lemma RoundTrip(ts: Entries, metadata: Option<Value>, codec: Codec)
    requires Lossless(codec) && Ascending(ts)
    requires forall i :: 0 <= i < |ts| ==> ts[i].0 != MetadataKey
    requires |codec.encode(WithMetadata(HeaderOf(ts), metadata))| < U64Modulus
    ensures Readable(Written(ts, metadata, codec), codec)
    ensures Read(Written(ts, metadata, codec), codec) == Ok(Loaded(AsMap(ts), metadata))
  {
    AscendingDistinct(ts);
    WrittenSections(ts, metadata, codec);
    WrittenEntries(ts, metadata);
    if MetadataKey in Names(ts) {
      var i := NameIndex(ts, MetadataKey);
      assert false;
    }
    ReadOf(Written(ts, metadata, codec), codec, WithMetadata(HeaderOf(ts), metadata), Payload(ts), AsMap(ts));
  }

  /** A tensor named `__metadata__` does not come back as a tensor: its
      header entry is replaced by the metadata when there is some, and is
      otherwise read back as the metadata. */
  lemma ReservedName(ts: Entries, metadata: Option<Value>, codec: Codec, n: nat)
    requires Lossless(codec) && Ascending(ts)
    requires n < |ts| && ts[n].0 == MetadataKey
    requires |codec.encode(WithMetadata(HeaderOf(ts), metadata))| < U64Modulus
    ensures MetadataKey in HeaderOf(ts) && Readable(Written(ts, metadata, codec), codec)
    ensures var r := Read(Written(ts, metadata, codec), codec);
      r.Ok? && r.value.tensors == AsMap(ts) - {MetadataKey} &&
      r.value.metadata == Some(if metadata.Some? then metadata.value else HeaderOf(ts)[MetadataKey])
  {
    AscendingDistinct(ts);
    WrittenSections(ts, metadata, codec);
    WrittenEntries(ts, metadata);
    NameAt(ts, n);
    ReadOf(Written(ts, metadata, codec), codec, WithMetadata(HeaderOf(ts), metadata), Payload(ts), AsMap(ts) - {MetadataKey});
  }
}
