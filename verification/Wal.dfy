/** The write-ahead log object: a file with a cursor, the recovery scan, append and fsync. */
module Wal {
  import opened Bytes
  import opened Words
  import opened Log
  import Crc

  /** The machine's 64-bit sizes, so that the recovery loop is checked for overflow. */
  newtype usize = x: int | 0 <= x < 0x1_0000_0000_0000_0000

  /** No slice is longer than `isize::MAX`. */
  const SLICE_LIMIT := 0x8000_0000_0000_0000

  /** A file as the process sees it, and what of it the disk holds for certain. */
  class File {
    const reliable: bool   // no write fails
    const syncs: bool      // no sync fails
    var content: Data
    var cursor: nat
    ghost var medium: Data

    constructor (reliable: bool, syncs: bool, content: Data, ghost medium: Data)
      ensures this.reliable == reliable && this.syncs == syncs
      ensures this.content == content && this.medium == medium && cursor == 0
    {
      this.reliable, this.syncs, this.content, this.medium, cursor := reliable, syncs, content, medium, 0;
    }

    method SeekEnd() returns (len: nat)
      modifies this`cursor
      ensures len == cursor == |content|
    {
      cursor := |content|;
      len := cursor;
    }

    method SeekStart(pos: nat)
      modifies this`cursor
      ensures cursor == pos
    {
      cursor := pos;
    }

    /** Shortening leaves the cursor where it is. */
    method SetLen(len: nat)
      requires len <= |content|
      modifies this`content
      ensures content == old(content)[..len]
    {
      content := content[..len];
    }

    /** Overwrites from the cursor on; a gap before the cursor reads as zeros. A failed write leaves any part of it. */
    method WriteAll(buf: Data) returns (ok: bool, ghost n: nat)
      modifies this`content, this`cursor
      ensures n <= |buf| && (ok ==> n == |buf|) && (reliable ==> ok)
      ensures content == Overwrite(old(content), old(cursor), buf[..n]) && cursor == old(cursor) + n
    {
      ok := *;
      ok := ok || reliable;
      var m :| 0 <= m <= |buf| && (ok ==> m == |buf|);
      content, cursor := Overwrite(content, cursor, buf[..m]), cursor + m;
      n := m;
    }

    method SyncAll() returns (ok: bool)
      modifies this`medium
      ensures medium == (if ok then content else old(medium)) && (syncs ==> ok)
    {
      ok := *;
      ok := ok || syncs;
      if ok {
        medium := content;
      }
    }
  }

  /** The record an append would log. */
  function AsRecord(op: byte, key: Data, value: Data): Record {
    if op == OP_SET then Set(key, value) else Delete(key)
  }

  function Overwrite(content: Data, at: nat, buf: Data): Data {
    var padded := if |content| < at then content + seq(at - |content|, _ => 0) else content;
    padded[..at] + buf + (if at + |buf| < |padded| then padded[at + |buf|..] else [])
  }

  /** The four bytes at `at`, as the loop picks them. */
  function Quad(data: Data, at: usize): (q: Data)
    requires at as int + 4 <= |data| < SLICE_LIMIT
    ensures |q| == 4
  {
    [data[at], data[at + 1], data[at + 2], data[at + 3]]
  }

  lemma QuadIsSlice(data: Data, offset: usize, at: usize)
    requires offset <= at && at as int + 4 <= |data| < SLICE_LIMIT
    ensures Quad(data, at) == data[offset..][at - offset..at - offset + 4]
  {
  }

  /** The exits of the loop are those of the parser. */
  lemma ParseRejects(t: Data)
    requires |t| < 13 || (t[0] != OP_SET && t[0] != OP_DELETE) || FromLe32(t[1..5]) == 0
             || (t[0] == OP_DELETE && FromLe32(t[5..9]) != 0)
             || 13 + FromLe32(t[1..5]) + FromLe32(t[5..9]) > |t|
             || (var k, n := 9 + FromLe32(t[1..5]), 9 + FromLe32(t[1..5]) + FromLe32(t[5..9]);
                 FromLeWord(t[n..n + 4]) != Crc.Checksum(Body(t[0], t[9..k], t[k..n])))
    ensures ParseOne(Crc.Checksum, t) == None
  {
    hide FromLe32, FromLeWord, Crc.Checksum, Body;
  }

  lemma ParseAccepts(t: Data, klen: nat, vlen: nat)
    requires 13 + klen + vlen <= |t| && (t[0] == OP_SET || t[0] == OP_DELETE)
    requires FromLe32(t[1..5]) == klen > 0 && FromLe32(t[5..9]) == vlen && (t[0] == OP_DELETE ==> vlen == 0)
    requires var k, n := 9 + klen, 9 + klen + vlen;
             FromLeWord(t[n..n + 4]) == Crc.Checksum(Body(t[0], t[9..k], t[k..n]))
    ensures ParseOne(Crc.Checksum, t) == Some(AsRecord(t[0], t[9..9 + klen], t[9 + klen..9 + klen + vlen]))
  {
    hide FromLe32, FromLeWord, Crc.Checksum, Body;
  }

  /** One turn of the recovery loop: every check on the entry at `offset`, in 64-bit arithmetic. */
  method ReadEntry(data: Data, offset: usize, hasher: Crc.Hasher) returns (r: Option<Record>)
    requires offset as int <= |data| < SLICE_LIMIT && hasher.state == Crc.SEED
    modifies hasher
    ensures r == ParseOne(Crc.Checksum, data[offset..]) && hasher.state == Crc.SEED
  {
    hide FromLe32, FromLeWord, Le32, Quad, Body, Crc.Fold, Crc.Xor, Crc.Checksum, ParseOne;
    var len := |data| as usize;
    ghost var t := data[offset..];
    if offset + (HEADER_LEN as usize + CRC_LEN as usize) > len {
      ParseRejects(t);
      return None;
    }
    var op := data[offset];
    if op != OP_SET && op != OP_DELETE {
      ParseRejects(t);
      return None;
    }
    var klen := FromLe32(Quad(data, offset + 1)) as usize;
    var vlen := FromLe32(Quad(data, offset + 5)) as usize;
    QuadIsSlice(data, offset, offset + 1);
    QuadIsSlice(data, offset, offset + 5);
    if klen == 0 {
      ParseRejects(t);
      return None;
    }
    if op == OP_DELETE && vlen != 0 {
      ParseRejects(t);
      return None;
    }
    var totalLen := HEADER_LEN as usize + klen + vlen + CRC_LEN as usize;
    if offset + totalLen > len {
      ParseRejects(t);
      return None;
    }
    var keyStart := offset + HEADER_LEN as usize;
    var valueStart := keyStart + klen;
    var crcStart := valueStart + vlen;
    var stored := FromLeWord(Quad(data, crcStart));
    var key, value := data[keyStart..valueStart], data[valueStart..crcStart];
    QuadIsSlice(data, offset, crcStart);
    SubSlices(data, offset as int, klen as int, vlen as int);
    var computed := Crc.CrcHash(hasher, op, klen as int, vlen as int, key, value);
    HashOfBody(op, key, value);
    if stored != computed {
      ParseRejects(t);
      return None;
    }
    ParseAccepts(t, klen as int, vlen as int);
    return Some(AsRecord(op, key, value));
  }

  lemma SubSlices(data: Data, offset: nat, klen: nat, vlen: nat)
    requires offset + 13 + klen + vlen <= |data|
    ensures data[offset + 9..offset + 9 + klen] == data[offset..][9..9 + klen]
    ensures data[offset + 9 + klen..offset + 9 + klen + vlen] == data[offset..][9 + klen..9 + klen + vlen]
  {
  }

  /** The loop stands at `offset` with the records before it counted and indexed. */
  ghost predicate Scanned(crc: Checksum, data: Data, offset: nat, rs: seq<Record>, count: nat, index: Index) {
    && offset <= |data| && Scan(crc, data) == rs + Scan(crc, data[offset..])
    && offset == TotalSize(rs) && count == |rs| && index == Replay(rs)
  }

  lemma ScannedNothing(crc: Checksum, data: Data)
    ensures Scanned(crc, data, 0, [], 0, map[])
  {
    assert data[0..] == data;
  }

  lemma ScannedMore(crc: Checksum, data: Data, offset: nat, rs: seq<Record>, count: nat, index: Index, r: Record)
    requires Scanned(crc, data, offset, rs, count, index) && ParseOne(crc, data[offset..]) == Some(r)
    ensures Scanned(crc, data, offset + r.Size(), rs + [r], count + 1, Apply(index, r))
  {
    hide ParseOne, Replay, TotalSize;
    TotalSizeSnoc(rs, r);
    ReplaySnoc(rs, r);
    DropDrop(data, offset, r.Size());
    assert rs + ([r] + Scan(crc, data[offset + r.Size()..])) == rs + [r] + Scan(crc, data[offset + r.Size()..]);
  }

  lemma ScannedAll(crc: Checksum, data: Data, offset: nat, rs: seq<Record>, count: nat, index: Index)
    requires Scanned(crc, data, offset, rs, count, index) && ParseOne(crc, data[offset..]) == None
    ensures rs == Scan(crc, data) && offset == TotalSize(rs) && count == |rs| && index == Replay(rs)
  {
    hide ParseOne, Replay, TotalSize;
    assert rs + [] == rs;
  }

  lemma DropDrop(data: Data, m: nat, n: nat)
    requires m + n <= |data|
    ensures data[m..][n..] == data[m + n..]
  {
  }

  /** The scan of an arbitrary file: where the valid part ends, how many records it has, and their index. */
  method BuildIndex(data: Data, hasher: Crc.Hasher) returns (validLen: nat, count: nat, index: Index)
    requires |data| < SLICE_LIMIT && hasher.state == Crc.SEED
    modifies hasher
    ensures hasher.state == Crc.SEED
    ensures var rs := Scan(Crc.Checksum, data);
            validLen == TotalSize(rs) && count == |rs| && index == Replay(rs)
  {
    hide ParseOne, Scan, TotalSize, Replay, Crc.Checksum, Scanned;
    ghost var rs: seq<Record> := [];
    validLen, count, index := 0, 0, map[];
    ScannedNothing(Crc.Checksum, data);
    while true
      invariant validLen <= |data| && Scanned(Crc.Checksum, data, validLen, rs, count, index)
      invariant hasher.state == Crc.SEED
      decreases |data| - validLen
    {
      var entry := ReadEntry(data, validLen as usize, hasher);
      if entry.None? {
        ScannedAll(Crc.Checksum, data, validLen, rs, count, index);
        break;
      }
      var r := entry.value;
      ScannedMore(Crc.Checksum, data, validLen, rs, count, index, r);
      rs := rs + [r];
      match r {
        case Set(key, value) => index := index[key := value];
        case Delete(key) => index := index - {key};
      }
      validLen := validLen + r.Size();
      count := count + 1;
    }
  }

  /** The five piecewise updates cover exactly the body. */
  lemma HashOfBody(op: byte, key: Data, value: Data)
    ensures Crc.Xor(Crc.Fold(Crc.SEED, [op] + Le32(AsU32(|key|)) + Le32(AsU32(|value|)) + key + value), Crc.SEED)
            == Crc.Checksum(Body(op, key, value))
  {
    hide Crc.Fold, Crc.Xor, Le32;
  }

  lemma {:induction false} TotalSizeSnoc(rs: seq<Record>, r: Record)
    ensures TotalSize(rs + [r]) == TotalSize(rs) + r.Size()
  {
    if rs != [] {
      assert (rs + [r])[1..] == rs[1..] + [r];
      TotalSizeSnoc(rs[1..], r);
    }
  }

  /** Why recovery seeks after truncating: an append lands behind the recovered records, and is itself recovered, if and
      only if the cursor stands at the end of the file; from beyond it leaves zeros where a record should start. */
  lemma SeekMatters(crc: Checksum, t: Data, at: nat, r: Record)
    requires r.Valid()
    requires var kept := EncodeAll(crc, Scan(crc, t)); at >= |kept|
    ensures var kept := Scan(crc, t);
            Scan(crc, Overwrite(EncodeAll(crc, kept), at, Encode(crc, r))) == kept + [r] <==> at == TotalSize(kept)
  {
    hide Encode, EncodeAll, ParseOne, Overwrite, Scan, TotalSize;
    var kept := Scan(crc, t);
    var front, e := EncodeAll(crc, kept), Encode(crc, r);
    ScanExact(crc, t);
    EncodeAllSize(crc, kept);
    OverwriteBeyond(front, at, e);
    if at == |front| {
      assert AllValid(kept + [r]);
      EncodeAllSnoc(crc, kept, r);
      ScanRoundTrip(crc, kept + [r]);
    } else {
      var zeros := seq(at - |front|, _ => 0) + e;
      ScanOfEncodeAll(crc, kept, zeros);
      ZeroEndsScan(crc, zeros);
    }
  }

  lemma OverwriteBeyond(content: Data, at: nat, buf: Data)
    requires at >= |content|
    ensures Overwrite(content, at, buf) == content + (seq(at - |content|, _ => 0) + buf)
    ensures at == |content| ==> Overwrite(content, at, buf) == content + buf
  {
  }

  lemma ZeroEndsScan(crc: Checksum, t: Data)
    requires t != [] && t[0] == 0
    ensures Scan(crc, t) == []
  {
  }

  lemma OverwriteAtEnd(content: Data, buf: Data)
    ensures Overwrite(content, |content|, buf) == content + buf
  {
  }

  lemma BodyBytes(op: byte, key: Data, value: Data)
    ensures [] + [op] + Le32(AsU32(|key|)) + Le32(AsU32(|value|)) + key + value == Body(op, key, value)
  {
    hide Le32;
  }

  lemma BufferIsEncoding(op: byte, key: Data, value: Data)
    requires op == OP_SET || (op == OP_DELETE && value == [])
    ensures Body(op, key, value) + LeWord(Crc.Checksum(Body(op, key, value)))
            == Encode(Crc.Checksum, AsRecord(op, key, value))
  {
    hide Body, LeWord, Crc.Checksum;
  }

  datatype AppendResult = Appended(offset: nat) | BadOp | EmptyKey | DeleteWithValue | WriteFailed

  class Wal {
    const file: File
    const hasher: Crc.Hasher
    var fileLen: nat
    var entryCount: nat
    var writeBuf: Data
    ghost var records: seq<Record>

    /** Enough to append: what the object is in even after a write failed. */
    ghost predicate Ready()
      reads this, file, hasher
    {
      hasher.state == Crc.SEED && file.cursor == |file.content|
    }

    /** No write has failed: the file is the encoding of the records. */
    ghost predicate Valid()
      reads this, file, hasher
    {
      && Ready() && AllValid(records) && file.content == EncodeAll(Crc.Checksum, records)
      && fileLen == |file.content| && entryCount == |records|
    }

    constructor (file: File, hasher: Crc.Hasher, fileLen: nat, entryCount: nat, ghost records: seq<Record>)
      ensures this.file == file && this.hasher == hasher && this.fileLen == fileLen
      ensures this.entryCount == entryCount && this.records == records
    {
      this.file, this.hasher, this.fileLen, this.entryCount, this.records := file, hasher, fileLen, entryCount, records;
      writeBuf := [];
    }

    /** Opens a log: recovers its records, cuts the bad tail off and places the cursor. Null when the sync fails. */
    static method Init(file: File) returns (wal: Wal?, index: Index)
      requires |file.content| < SLICE_LIMIT
      modifies file
      ensures var rs := Scan(Crc.Checksum, old(file.content));
              && file.content == EncodeAll(Crc.Checksum, rs) && index == Replay(rs)
              && (wal != null ==> fresh(wal) && fresh(wal.hasher))
              && (wal != null ==> wal.file == file && wal.Valid() && wal.records == rs)
              && (file.medium ==
                  if wal != null && file.content != old(file.content) then file.content else old(file.medium))
              && (wal == null ==> file.content != old(file.content) && !file.syncs)
    {
      hide Encode, Crc.Checksum, ParseOne;
      ghost var rs := Scan(Crc.Checksum, file.content);
      ghost var before := file.content;
      ScanExact(Crc.Checksum, before);
      EncodeAllSize(Crc.Checksum, rs);
      var hasher := new Crc.Hasher();
      var fileLen := file.SeekEnd();
      if fileLen == 0 {
        assert before == [] && rs == [];
        wal := new Wal(file, hasher, 0, 0, []);
        return wal, map[];
      }
      var validLen, count;
      validLen, count, index := BuildIndex(file.content, hasher);
      if validLen < fileLen {
        file.SetLen(validLen);
        var ok := file.SyncAll();
        if !ok {
          return null, index;
        }
        file.SeekStart(validLen);
      }
      wal := new Wal(file, hasher, validLen, count, rs);
    }

    /** Logs one record at the end of the file and says where it starts, or refuses and changes nothing. A failed write
        leaves the first `written` bytes of the record in the file and is not undone; the object carries on. */
    method Append(op: byte, key: Data, value: Data) returns (r: AppendResult, ghost written: nat)
      requires Ready()
      modifies this, file, hasher
      ensures Ready() && file.medium == old(file.medium)
      ensures op != OP_SET && op != OP_DELETE ==> r == BadOp
      ensures (op == OP_SET || op == OP_DELETE) && key == [] ==> r == EmptyKey
      ensures op == OP_DELETE && key != [] && value != [] ==> r == DeleteWithValue
      ensures (op == OP_SET || (op == OP_DELETE && value == [])) && key != [] ==>
                (r == Appended(old(fileLen)) || r.WriteFailed?) && (file.reliable ==> r.Appended?)
      ensures var record := AsRecord(op, key, value);
              && written <= record.Size() && (r.Appended? ==> written == record.Size())
              && (!r.Appended? && !r.WriteFailed? ==> written == 0)
              && file.content == old(file.content) + Encode(Crc.Checksum, record)[..written]
              && fileLen == old(fileLen) + (if r.Appended? then record.Size() else 0)
              && entryCount == old(entryCount) + (if r.Appended? then 1 else 0)
              && records == old(records) + (if r.Appended? then [record] else [])
      ensures old(Valid()) && (r.Appended? ==> AsRecord(op, key, value).Fits()) && (r.WriteFailed? ==> written == 0) ==>
                Valid()
    {
      hide Encode, EncodeAll, Overwrite, Crc.Checksum;
      written := 0;
      if op != OP_SET && op != OP_DELETE {
        return BadOp, 0;
      }
      if key == [] {
        return EmptyKey, 0;
      }
      if op == OP_DELETE && value != [] {
        return DeleteWithValue, 0;
      }
      ghost var record := AsRecord(op, key, value);
      EncodeAllSnoc(Crc.Checksum, records, record);
      FillBuffer(op, key, value);
      ghost var n;
      var ok;
      ok, n := file.WriteAll(writeBuf);
      OverwriteAtEnd(old(file.content), writeBuf[..n]);
      assert writeBuf[..|writeBuf|] == writeBuf;
      if !ok {
        return WriteFailed, n;
      }
      var offset := fileLen;
      fileLen := fileLen + (HEADER_LEN + |key| + |value| + CRC_LEN);
      entryCount := entryCount + 1;
      records := records + [record];
      return Appended(offset), n;
    }

    /** Header, payload and checksum of one entry, batched for a single write. */
    method FillBuffer(op: byte, key: Data, value: Data)
      requires hasher.state == Crc.SEED && (op == OP_SET || (op == OP_DELETE && value == []))
      modifies this`writeBuf, hasher
      ensures hasher.state == Crc.SEED && writeBuf == Encode(Crc.Checksum, AsRecord(op, key, value))
    {
      hide Crc.Fold, Crc.Xor, Crc.Checksum, Le32, LeWord, Encode, Body;
      writeBuf := [];
      writeBuf := writeBuf + [op];
      writeBuf := writeBuf + Le32(AsU32(|key|));
      writeBuf := writeBuf + Le32(AsU32(|value|));
      writeBuf := writeBuf + key;
      writeBuf := writeBuf + value;
      BodyBytes(op, key, value);
      HashOfBody(op, key, value);
      var crc := Crc.CrcHash(hasher, op, |key|, |value|, key, value);
      writeBuf := writeBuf + LeWord(crc);
      BufferIsEncoding(op, key, value);
    }

    method Fsync() returns (ok: bool)
      modifies file`medium
      ensures file.medium == (if ok then file.content else old(file.medium)) && (file.syncs ==> ok)
    {
      ok := file.SyncAll();
    }
  }
}
