/** The encoders and decoders of the bridge as they run: they append to a cursor, and advance one. */
module BridgeCursor {
  import opened Prelude
  import opened Model
  import opened BridgeCodec
  import Utf8

  lemma {:induction false} CarriedIsWritten<T, U>(f: Format<T>, to: T -> Option<U>, from: U -> T, fits: U -> bool, u: U)
    ensures Carried(f, to, from, fits).enc(u) == f.enc(from(u))
  {
  }

  lemma {:induction false} NumbersAreWritten(x: u8, y: u64, z: bool)
    ensures U8.enc(x) == LittleEndian(x, 1) && U64.enc(y) == LittleEndian(y, 8) && BOOL.enc(z) == U8.enc(FromBool(z))
  {
    CarriedIsWritten(Unsigned(1), ToU8, FromU8, Any, x);
    CarriedIsWritten(Unsigned(8), ToU64, FromU64, Any, y);
    assert FromU8(x) == x && FromU64(y) == y;
  }

  lemma {:induction false} PairIsWritten<T, U>(f: Format<T>, g: Format<U>, x: T, y: U, cursor: bytes)
    ensures Both(f, g).enc((x, y)) == f.enc(x) + g.enc(y)
    ensures cursor + Both(f, g).enc((x, y)) == cursor + f.enc(x) + g.enc(y)
  {
    Associative(cursor, f.enc(x), g.enc(y));
  }

  lemma {:induction false} FileIsWritten(f: FileDto)
    ensures FILE_DTO.enc(f) == FILE_FIELDS.enc(FileFieldsOf(f))
  {
    CarriedIsWritten(FILE_FIELDS, FileOf, FileFieldsOf, Any, f);
  }

  lemma {:induction false} MetadataIsWritten(m: FileMetadata)
    ensures FILE_METADATA.enc(m) == METADATA_FIELDS.enc((m.modified, m.accessed))
  {
    CarriedIsWritten(METADATA_FIELDS, MetadataOf, MetadataFieldsOf, Any, m);
  }

  class SseSerializer {
    var cursor: bytes

    constructor ()
      ensures cursor == []
    {
      cursor := [];
    }

    method WriteU8(x: u8)
      modifies this
      ensures cursor == old(cursor) + U8.enc(x)
    {
      NumbersAreWritten(x, 0, false);
      cursor := cursor + LittleEndian(x, 1);
    }

    method WriteU64(x: u64)
      modifies this
      ensures cursor == old(cursor) + U64.enc(x)
    {
      NumbersAreWritten(0, x, false);
      cursor := cursor + LittleEndian(x, 8);
    }

    method WriteI32(x: i32)
      modifies this
      ensures cursor == old(cursor) + I32.enc(x)
    {
      cursor := cursor + LittleEndian(FromSigned(x), 4);
    }

    method WriteBool(x: bool)
      modifies this
      ensures cursor == old(cursor) + BOOL.enc(x)
    {
      NumbersAreWritten(0, 0, x);
      WriteU8(if x then 1 else 0);
    }

    method WriteBytes(xs: bytes)
      modifies this
      ensures cursor == old(cursor) + BYTES.enc(xs)
    {
      ghost var goal := cursor + BYTES.enc(xs);
      Associative(cursor, I32.enc(Truncated(|xs|)), EncodeAll(U8, xs));
      WriteI32(Truncated(|xs|));
      for i := 0 to |xs|
        invariant goal == cursor + EncodeAll(U8, xs[i..])
      {
        assert xs[i..][1..] == xs[i + 1..];
        Associative(cursor, U8.enc(xs[i]), EncodeAll(U8, xs[i + 1..]));
        WriteU8(xs[i]);
      }
    }

    method WriteString(s: string)
      modifies this
      ensures cursor == old(cursor) + STRING.enc(s)
    {
      WriteBytes(Utf8.Encode(s));
    }

    method WriteOptionString(x: Option<string>)
      modifies this
      ensures cursor == old(cursor) + Optional(STRING).enc(x)
    {
      ghost var before := cursor;
      WriteBool(x.Some?);
      if x.Some? {
        WriteString(x.value);
        Associative(before, BOOL.enc(true), STRING.enc(x.value));
      }
    }

    method WriteFileMetadata(m: FileMetadata)
      modifies this
      ensures cursor == old(cursor) + FILE_METADATA.enc(m)
    {
      MetadataIsWritten(m);
      PairIsWritten(Optional(STRING), Optional(STRING), m.modified, m.accessed, cursor);
      WriteOptionString(m.modified);
      WriteOptionString(m.accessed);
    }

    method WriteOptionFileMetadata(x: Option<FileMetadata>)
      modifies this
      ensures cursor == old(cursor) + Optional(FILE_METADATA).enc(x)
    {
      ghost var before := cursor;
      WriteBool(x.Some?);
      if x.Some? {
        WriteFileMetadata(x.value);
        Associative(before, BOOL.enc(true), FILE_METADATA.enc(x.value));
      }
    }

    method WriteFileTail(f: FileDto)
      modifies this
      ensures cursor == old(cursor) + FILE_TAIL.enc((f.fileType, (f.sha256, (f.preview, f.metadata))))
    {
      ghost var previews := Both(Optional(STRING), Optional(FILE_METADATA));
      PairIsWritten(STRING, Both(Optional(STRING), previews), f.fileType, (f.sha256, (f.preview, f.metadata)), cursor);
      WriteString(f.fileType);
      PairIsWritten(Optional(STRING), previews, f.sha256, (f.preview, f.metadata), cursor);
      WriteOptionString(f.sha256);
      PairIsWritten(Optional(STRING), Optional(FILE_METADATA), f.preview, f.metadata, cursor);
      WriteOptionString(f.preview);
      WriteOptionFileMetadata(f.metadata);
    }

    method WriteFileDto(f: FileDto)
      modifies this
      ensures cursor == old(cursor) + FILE_DTO.enc(f)
    {
      ghost var tail: FileTail := (f.fileType, (f.sha256, (f.preview, f.metadata)));
      FileIsWritten(f);
      PairIsWritten(STRING, Both(STRING, Both(U64, FILE_TAIL)), f.id, (f.fileName, (f.size, tail)), cursor);
      WriteString(f.id);
      PairIsWritten(STRING, Both(U64, FILE_TAIL), f.fileName, (f.size, tail), cursor);
      WriteString(f.fileName);
      PairIsWritten(U64, FILE_TAIL, f.size, tail, cursor);
      WriteU64(f.size);
      WriteFileTail(f);
    }

    method WriteFileDtos(xs: seq<FileDto>)
      modifies this
      ensures cursor == old(cursor) + FILE_DTOS.enc(xs)
    {
      ghost var goal := cursor + FILE_DTOS.enc(xs);
      Associative(cursor, I32.enc(Truncated(|xs|)), EncodeAll(FILE_DTO, xs));
      WriteI32(Truncated(|xs|));
      for i := 0 to |xs|
        invariant goal == cursor + EncodeAll(FILE_DTO, xs[i..])
      {
        assert xs[i..][1..] == xs[i + 1..];
        Associative(cursor, FILE_DTO.enc(xs[i]), EncodeAll(FILE_DTO, xs[i + 1..]));
        WriteFileDto(xs[i]);
      }
    }
  }

  /** What a decoder must return, and leave before the cursor; it fails where the program panics. */
  predicate Reads<T(==)>(r: Option<Read<T>>, x: Option<T>, rest: bytes) {
    match r
    case None => x.None?
    case Some(q) => x == Some(q.value) && rest == q.rest
  }

  lemma {:induction false} PairIsRead<T, U>(f: Format<T>, g: Format<U>, b: bytes)
    ensures Both(f, g).dec(b) == match f.dec(b)
      case None => None
      case Some(r) => (match g.dec(r.rest) case None => None case Some(q) => Some(Read((r.value, q.value), q.rest)))
  {
  }

  lemma {:induction false} MetadataIsRead(b: bytes)
    ensures FILE_METADATA.dec(b) == match Optional(STRING).dec(b)
      case None => None
      case Some(r) =>
        (match Optional(STRING).dec(r.rest) case None => None case Some(q) => Some(Read(FileMetadata(r.value, q.value), q.rest)))
  {
    PairIsRead(Optional(STRING), Optional(STRING), b);
  }

  lemma {:induction false} FileIsRead(b: bytes)
    ensures FILE_DTO.dec(b) == match STRING.dec(b)
      case None => None
      case Some(r) =>
        (match Both(STRING, Both(U64, FILE_TAIL)).dec(r.rest)
         case None => None
         case Some(q) => Some(Read(FileOf((r.value, q.value)).value, q.rest)))
  {
    PairIsRead(STRING, Both(STRING, Both(U64, FILE_TAIL)), b);
  }

  class SseDeserializer {
    /** What is still before the cursor. */
    var cursor: bytes

    constructor (data: bytes)
      ensures cursor == data
    {
      cursor := data;
    }

    method Take(width: nat) returns (n: Option<nat>)
      modifies this
      ensures Reads(TakeNumber(old(cursor), width), n, cursor)
    {
      if |cursor| < width {
        return None;
      }
      n := Some(FromLittleEndian(cursor[..width]));
      cursor := cursor[width..];
    }

    method ReadU8() returns (x: Option<u8>)
      modifies this
      ensures Reads(U8.dec(old(cursor)), x, cursor)
    {
      var n := Take(1);
      x := if n.None? then None else ToU8(n.value);
    }

    method ReadU64() returns (x: Option<u64>)
      modifies this
      ensures Reads(U64.dec(old(cursor)), x, cursor)
    {
      var n := Take(8);
      x := if n.None? then None else ToU64(n.value);
    }

    method ReadI32() returns (x: Option<i32>)
      modifies this
      ensures Reads(I32.dec(old(cursor)), x, cursor)
    {
      var n := Take(4);
      x := if n.None? then None else ToSigned(n.value);
    }

    method ReadBool() returns (x: Option<bool>)
      modifies this
      ensures Reads(BOOL.dec(old(cursor)), x, cursor)
    {
      var n := ReadU8();
      x := if n.None? then None else Some(n.value != 0);
    }

    method ReadBytes() returns (xs: Option<bytes>)
      modifies this
      ensures Reads(BYTES.dec(old(cursor)), xs, cursor)
    {
      VecIsRead(U8, cursor);
      var length := ReadI32();
      if length.None? {
        return None;
      }
      xs := ReadBytesCounted(if length.value < 0 then 0 else length.value);
    }

    method ReadBytesCounted(count: nat) returns (xs: Option<bytes>)
      modifies this
      ensures Reads(DecodeAll(U8, count, old(cursor)), xs, cursor)
    {
      var ans: bytes := [];
      ghost var left, v := count, DecodeAll(U8, count, cursor);
      ghost var whole := v;
      PrependNothing(whole);
      for i := 0 to count
        invariant left == count - i && v == DecodeAll(U8, left, cursor)
        invariant whole == Prepended(ans, v)
      {
        ghost var later := cursor;
        var x := ReadU8();
        if x.None? {
          NothingMore(U8, ans, left, later);
          return None;
        }
        PrependOne(U8, ans, x.value, left, later, cursor);
        left := left - 1;
        v := DecodeAll(U8, left, cursor);
        ans := ans + [x.value];
      }
      PrependAll(U8, ans, cursor);
      xs := Some(ans);
    }

    method ReadString() returns (s: Option<string>)
      modifies this
      ensures Reads(STRING.dec(old(cursor)), s, cursor)
    {
      var b := ReadBytes();
      s := if b.None? then None else Utf8.Decode(b.value);
    }

    method ReadOptionString() returns (x: Option<Option<string>>)
      modifies this
      ensures Reads(Optional(STRING).dec(old(cursor)), x, cursor)
    {
      var some := ReadBool();
      if some.None? {
        return None;
      }
      if !some.value {
        return Some(None);
      }
      var s := ReadString();
      x := if s.None? then None else Some(Some(s.value));
    }

    method ReadFileMetadata() returns (m: Option<FileMetadata>)
      modifies this
      ensures Reads(FILE_METADATA.dec(old(cursor)), m, cursor)
    {
      MetadataIsRead(cursor);
      var modified := ReadOptionString();
      if modified.None? {
        return None;
      }
      var accessed := ReadOptionString();
      m := if accessed.None? then None else Some(FileMetadata(modified.value, accessed.value));
    }

    method ReadOptionFileMetadata() returns (x: Option<Option<FileMetadata>>)
      modifies this
      ensures Reads(Optional(FILE_METADATA).dec(old(cursor)), x, cursor)
    {
      var some := ReadBool();
      if some.None? {
        return None;
      }
      if !some.value {
        return Some(None);
      }
      var m := ReadFileMetadata();
      x := if m.None? then None else Some(Some(m.value));
    }

    method ReadFileTail() returns (t: Option<FileTail>)
      modifies this
      ensures Reads(FILE_TAIL.dec(old(cursor)), t, cursor)
    {
      var fileType := ReadString();
      if fileType.None? {
        return None;
      }
      var sha256 := ReadOptionString();
      if sha256.None? {
        return None;
      }
      var preview := ReadOptionString();
      if preview.None? {
        return None;
      }
      var metadata := ReadOptionFileMetadata();
      t := if metadata.None? then None else Some((fileType.value, (sha256.value, (preview.value, metadata.value))));
    }

    method ReadFileDto() returns (f: Option<FileDto>)
      modifies this
      ensures Reads(FILE_DTO.dec(old(cursor)), f, cursor)
    {
      FileIsRead(cursor);
      var id := ReadString();
      if id.None? {
        return None;
      }
      PairIsRead(STRING, Both(U64, FILE_TAIL), cursor);
      var fileName := ReadString();
      if fileName.None? {
        return None;
      }
      PairIsRead(U64, FILE_TAIL, cursor);
      var size := ReadU64();
      if size.None? {
        return None;
      }
      var t := ReadFileTail();
      f := if t.None? then None
           else Some(FileDto(id.value, fileName.value, size.value, t.value.0, t.value.1.0, t.value.1.1.0, t.value.1.1.1));
    }

    method ReadFileDtos() returns (xs: Option<seq<FileDto>>)
      modifies this
      ensures Reads(FILE_DTOS.dec(old(cursor)), xs, cursor)
    {
      VecIsRead(FILE_DTO, cursor);
      var length := ReadI32();
      if length.None? {
        return None;
      }
      xs := ReadFileDtosCounted(if length.value < 0 then 0 else length.value);
    }

    method ReadFileDtosCounted(count: nat) returns (xs: Option<seq<FileDto>>)
      modifies this
      ensures Reads(DecodeAll(FILE_DTO, count, old(cursor)), xs, cursor)
    {
      var ans: seq<FileDto> := [];
      ghost var left, v := count, DecodeAll(FILE_DTO, count, cursor);
      ghost var whole := v;
      PrependNothing(whole);
      for i := 0 to count
        invariant left == count - i && v == DecodeAll(FILE_DTO, left, cursor)
        invariant whole == Prepended(ans, v)
      {
        ghost var later := cursor;
        var x := ReadFileDto();
        if x.None? {
          NothingMore(FILE_DTO, ans, left, later);
          return None;
        }
        PrependOne(FILE_DTO, ans, x.value, left, later, cursor);
        left := left - 1;
        v := DecodeAll(FILE_DTO, left, cursor);
        ans := ans + [x.value];
      }
      PrependAll(FILE_DTO, ans, cursor);
      xs := Some(ans);
    }
  }

  /** What was read so far, before what a decoder reads next. */
  function Prepended<T>(ans: seq<T>, r: Option<Read<seq<T>>>): Option<Read<seq<T>>> {
    match r case None => None case Some(q) => Some(Read(ans + q.value, q.rest))
  }

  lemma {:induction false} PrependNothing<T>(r: Option<Read<seq<T>>>)
    ensures Prepended([], r) == r
  {
    if r.Some? {
      assert [] + r.value.value == r.value.value;
    }
  }

  lemma {:induction false} PrependAll<T>(f: Format<T>, ans: seq<T>, b: bytes)
    ensures Prepended(ans, DecodeAll(f, 0, b)) == Some(Read(ans, b))
  {
    assert ans + [] == ans;
  }

  lemma {:induction false} VecIsRead<T>(f: Format<T>, b: bytes)
    ensures Vec(f).dec(b) == match I32.dec(b)
      case None => None
      case Some(n) => DecodeAll(f, if n.value < 0 then 0 else n.value, n.rest)
  {
  }

  lemma {:induction false} NothingMore<T>(f: Format<T>, ans: seq<T>, n: nat, b: bytes)
    requires n > 0 && f.dec(b) == None
    ensures Prepended(ans, DecodeAll(f, n, b)) == None
  {
  }

  lemma {:induction false} PrependOne<T>(f: Format<T>, ans: seq<T>, x: T, n: nat, b: bytes, rest: bytes)
    requires n > 0 && f.dec(b) == Some(Read(x, rest))
    ensures Prepended(ans, DecodeAll(f, n, b)) == Prepended(ans + [x], DecodeAll(f, n - 1, rest))
  {
    var others := DecodeAll(f, n - 1, rest);
    if others.Some? {
      Associative(ans, [x], others.value.value);
    }
  }

  /** A list of files that is written and read back, with anything else after it in the same buffer. */
  method BridgeFiles(files: seq<FileDto>, more: bytes) returns (received: Option<seq<FileDto>>)
    requires FILE_DTOS.fits(files)
    ensures received == Some(files)
  {
    var serializer := new SseSerializer();
    serializer.WriteFileDtos(files);
    assert serializer.cursor == FILE_DTOS.enc(files);
    var deserializer := new SseDeserializer(serializer.cursor + more);
    FileDtosAreFaithful();
    assert FILE_DTOS.dec(FILE_DTOS.enc(files) + more) == Some(Read(files, more));
    received := deserializer.ReadFileDtos();
  }
}
