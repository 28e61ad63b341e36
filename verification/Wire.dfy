/** Requests and responses on the wire: the client's printers, the server's parser, and whole pipelined streams. */
module Wire {
  import opened Bytes
  import opened Space
  import Log

  const MAX_DB_NAME_LEN := 64

  datatype Limits = Limits(maxKey: nat, maxValue: nat)

  datatype Request =
    | Stats
    | Ping
    | Close
    | Create(db: Data)
    | Info(db: Data)
    | Drop(db: Data)
    | Get(db: Data, key: Data)
    | Set(db: Data, key: Data, value: Data)
    | Delete(db: Data, key: Data)
  {
    function Code(): byte {
      match this
      case Stats => 0
      case Ping => 1
      case Close => 2
      case Create(_) => 3
      case Info(_) => 4
      case Drop(_) => 5
      case Get(_, _) => 6
      case Set(_, _, _) => 7
      case Delete(_, _) => 8
    }

    predicate Bare() {
      Stats? || Ping? || Close?
    }

    predicate Named() {
      Create? || Info? || Drop?
    }

    function Value(): Data {
      if Set? then value else []
    }

    /** Every length survives its cast: one byte for the name, four for key and value. */
    predicate Fits() {
      Bare() || (|db| < 256 && (Named() || (|key| < U32_LIMIT && |Value()| < U32_LIMIT)))
    }
  }

  /** The bytes of an ASCII text. */
  function Ascii(text: string): Data {
    seq(|text|, i requires 0 <= i < |text| => text[i] as int % 256)
  }

  /** Rust's `n as u8`. */
  function AsU8(n: nat): byte {
    n % 256
  }

  /** The sizes of a keyed request: the key's and, for a set, the value's. */
  function Sizes(r: Request): Data
    requires !r.Bare() && !r.Named()
  {
    Le32(AsU32(|r.key|)) + if r.Set? then Le32(AsU32(|r.value|)) else []
  }

  function EncodeRequest(r: Request): (t: Data)
    ensures t != []
  {
    if r.Bare() then [r.Code()]
    else if r.Named() then [r.Code(), AsU8(|r.db|)] + r.db
    else [r.Code(), AsU8(|r.db|)] + Sizes(r) + (r.db + r.key + r.Value())
  }

  // ---------- What the server refuses ----------

  datatype Fault =
    | BadOpcode | NameEmpty | NameTooLong | NameChars | KeyEmpty | KeyTooLarge | ValueEmpty | ValueTooLarge
  {
    /** The response that announces the fault before the connection ends. */
    function Announced(): Response {
      match this
      case NameTooLong => PayloadTooLarge(Ascii("Database name too long"))
      case KeyTooLarge => PayloadTooLarge(Ascii("Key too large"))
      case ValueTooLarge => PayloadTooLarge(Ascii("Value too large"))
      case BadOpcode => InvalidRequest(Ascii("Invalid operation code"))
      case NameEmpty => InvalidRequest(Ascii("Database name cannot be empty"))
      case NameChars => InvalidRequest(Ascii("Invalid characters in database name"))
      case KeyEmpty => InvalidRequest(Ascii("Key size cannot be zero"))
      case ValueEmpty => InvalidRequest(Ascii("Value cannot be empty"))
    }
  }

  predicate NameByte(b: byte) {
    0x30 <= b <= 0x39 || 0x41 <= b <= 0x5A || 0x61 <= b <= 0x7A || b == 0x5F || b == 0x2D
  }

  function NameFault(name: Data): Option<Fault> {
    if name == [] then Some(NameEmpty)
    else if |name| > MAX_DB_NAME_LEN then Some(NameTooLong)
    else if exists i | 0 <= i < |name| :: !NameByte(name[i]) then Some(NameChars)
    else None
  }

  function KeyFault(lim: Limits, size: nat): Option<Fault> {
    if size == 0 then Some(KeyEmpty) else if size > lim.maxKey then Some(KeyTooLarge) else None
  }

  function ValueFault(lim: Limits, size: nat): Option<Fault> {
    if size == 0 then Some(ValueEmpty) else if size > lim.maxValue then Some(ValueTooLarge) else None
  }

  /** The first fault of a request: name before key before value. */
  function FirstFault(lim: Limits, r: Request): Option<Fault> {
    if r.Bare() then None
    else if NameFault(r.db).Some? then NameFault(r.db)
    else if r.Named() then None
    else if KeyFault(lim, |r.key|).Some? then KeyFault(lim, |r.key|)
    else if r.Set? then ValueFault(lim, |r.value|)
    else None
  }

  // ---------- The server's parser ----------

  datatype Frame = Accepted(request: Request) | Rejected(fault: Fault) | Truncated

  /** Bytes before the name: opcode, name length, and the sizes the opcode calls for. */
  function HeadLen(op: byte): nat {
    if op <= 5 then 2 else if op == 7 then 10 else 6
  }

  function BareRequest(op: byte): Request {
    if op == 0 then Stats else if op == 1 then Ping else Close
  }

  function NamedRequest(op: byte, name: Data): Request {
    if op == 3 then Create(name) else if op == 4 then Info(name) else Drop(name)
  }

  function KeyedRequest(op: byte, name: Data, key: Data, value: Data): Request {
    if op == 6 then Get(name, key) else if op == 7 then Set(name, key, value) else Delete(name, key)
  }

  function ParseSizes(lim: Limits, t: Data, op: byte, h: nat, name: Data): Frame
    requires 6 <= op <= 8 && h == HeadLen(op) && h + |name| <= |t|
  {
    var k := FromLe32(t[2..6]);
    var v := if op == 7 then FromLe32(t[6..10]) else 0;
    if KeyFault(lim, k).Some? then Rejected(KeyFault(lim, k).value)
    else if op == 7 && ValueFault(lim, v).Some? then Rejected(ValueFault(lim, v).value)
    else if |t| < h + |name| + k + v then Truncated
    else
      var at := h + |name|;
      Accepted(KeyedRequest(op, name, t[at..at + k], t[at + k..at + k + v]))
  }

  /** The frame that starts `t`. */
  function ParseRequest(lim: Limits, t: Data): Frame
    requires t != []
  {
    var op := t[0];
    if op > 8 then Rejected(BadOpcode)
    else if op <= 2 then Accepted(BareRequest(op))
    else
      var h := HeadLen(op);
      if |t| < h || |t| < h + t[1] then Truncated
      else
        var name := t[h..h + t[1]];
        if NameFault(name).Some? then Rejected(NameFault(name).value)
        else if op <= 5 then Accepted(NamedRequest(op, name))
        else ParseSizes(lim, t, op, h, name)
  }

  lemma SizesSplit(r: Request)
    requires !r.Bare() && !r.Named()
    ensures var z := Sizes(r);
            && |z| == HeadLen(r.Code()) - 2 && z[..4] == Le32(AsU32(|r.key|))
            && (r.Set? ==> z[4..8] == Le32(AsU32(|r.value|)))
  {
    hide Le32, AsU32;
  }

  lemma SameSlice(t: Data, u: Data, i: nat, j: nat)
    requires t <= u && i <= j <= |t|
    ensures u[i..j] == t[i..j]
  {
  }

  lemma Headed(c: byte, n: byte, z: Data, data: Data, tail: Data)
    ensures var t, h := [c, n] + z + data + tail, 2 + |z|;
            t[0] == c && t[1] == n && t[2..h] == z && t[h..] == data + tail
  {
  }

  /** Where the fields of an encoded keyed request lie. */
  lemma RequestFields(r: Request, tail: Data)
    requires !r.Bare() && !r.Named()
    ensures var t, h, n := EncodeRequest(r) + tail, HeadLen(r.Code()), |r.db|;
            && t[0] == r.Code() && t[1] == AsU8(n) && t[2..6] == Le32(AsU32(|r.key|))
            && (r.Set? ==> t[6..10] == Le32(AsU32(|r.value|)))
            && t[h..] == r.db + r.key + r.Value() + tail && |EncodeRequest(r)| == h + n + |r.key| + |r.Value()|
  {
    SizesSplit(r);
    hide Le32, AsU32, AsU8, Sizes;
    var h, z, data := HeadLen(r.Code()), Sizes(r), r.db + r.key + r.Value();
    var t := EncodeRequest(r) + tail;
    Headed(r.Code(), AsU8(|r.db|), z, data, tail);
    SameSlice(z[..4], z, 0, 4);
    assert t[2..6] == t[2..h][..4];
    if r.Set? {
      assert t[6..10] == t[2..h][4..8];
    }
  }

  lemma DropSlice(t: Data, h: nat, i: nat, j: nat)
    requires i <= j && h + j <= |t|
    ensures t[h + i..h + j] == t[h..][i..j]
  {
  }

  lemma Parts(a: Data, b: Data, c: Data, tail: Data)
    ensures var u, i, j := a + b + c + tail, |a|, |a| + |b|; u[0..i] == a && u[i..j] == b && u[j..j + |c|] == c
  {
  }

  lemma SplitAt(t: Data, h: nat, a: Data, b: Data, c: Data, tail: Data)
    requires h <= |t| && t[h..] == a + b + c + tail
    ensures var i, j := h + |a|, h + |a| + |b|;
            h + |a| + |b| + |c| <= |t| && t[h..i] == a && t[i..j] == b && t[j..j + |c|] == c
  {
    var i, j := |a|, |a| + |b|;
    Parts(a, b, c, tail);
    DropSlice(t, h, 0, i);
    DropSlice(t, h, i, j);
    DropSlice(t, h, j, j + |c|);
  }

  /** What the server hears when a client frames `r`: lengths wrap, one byte for the name and four for key and value,
      and the bytes behind the name are cut up by what is left of the lengths. */
  function Heard(r: Request): Request {
    if r.Bare() then r
    else
      var n := AsU8(|r.db|);
      if r.Named() then NamedRequest(r.Code(), r.db[..n])
      else
        var rest, k, v := r.db[n..] + r.key + r.Value(), AsU32(|r.key|), AsU32(|r.Value()|);
        KeyedRequest(r.Code(), r.db[..n], rest[..k], rest[k..k + v])
  }

  /** What a request deserves: its first fault, or to be served. */
  function Verdict(lim: Limits, r: Request): Frame {
    if FirstFault(lim, r).Some? then Rejected(FirstFault(lim, r).value) else Accepted(r)
  }

  lemma HeardNamed(r: Request)
    requires r.Named()
    ensures Heard(r).Fits() && (r.Fits() <==> Heard(r) == r)
    ensures Heard(r).Code() == r.Code() && Heard(r).Named() && !Heard(r).Bare()
  {
  }

  lemma HeardSizes(r: Request)
    requires !r.Bare() && !r.Named()
    ensures var q := Heard(r);
            && q.Code() == r.Code() && !q.Named() && !q.Bare()
            && |q.db| == AsU8(|r.db|) && |q.key| == AsU32(|r.key|) && |q.Value()| == AsU32(|r.Value()|)
  {
    hide AsU8, AsU32;
    assert AsU8(|r.db|) <= |r.db| && AsU32(|r.key|) <= |r.key| && AsU32(|r.Value()|) <= |r.Value()| by {
      SmallerByte(|r.db|);
      SmallerRemainder(|r.key|);
      SmallerRemainder(|r.Value()|);
    }
  }

  lemma SmallerByte(n: nat)
    ensures AsU8(n) <= n
  {
  }

  lemma WholeSlices(db: Data, key: Data, value: Data)
    ensures db[..|db|] == db
    ensures var rest := db[|db|..] + key + value; rest[..|key|] == key && rest[|key|..|key| + |value|] == value
  {
    assert db[|db|..] == [];
    assert db[|db|..] + key + value == key + value;
  }

  lemma Rebuilt(r: Request)
    requires !r.Bare() && !r.Named()
    ensures KeyedRequest(r.Code(), r.db, r.key, r.Value()) == r
  {
  }

  lemma HeardWhole(r: Request)
    requires !r.Bare() && !r.Named() && r.Fits()
    ensures Heard(r) == r
  {
    assert AsU8(|r.db|) == |r.db| && AsU32(|r.key|) == |r.key| && AsU32(|r.Value()|) == |r.Value()|;
    hide KeyedRequest, AsU8, AsU32, Request.Fits, Request.Value, Request.Code;
    WholeSlices(r.db, r.key, r.Value());
    Rebuilt(r);
  }

  lemma HeardKeyed(r: Request)
    requires !r.Bare() && !r.Named()
    ensures Heard(r).Fits() && (r.Fits() <==> Heard(r) == r)
    ensures Heard(r).Code() == r.Code() && !Heard(r).Named() && !Heard(r).Bare()
  {
    hide Heard;
    HeardSizes(r);
    if r.Fits() {
      HeardWhole(r);
    }
  }

  lemma HeardFits(r: Request)
    ensures Heard(r).Fits() && (r.Fits() <==> Heard(r) == r)
    ensures Heard(r).Code() == r.Code() && (Heard(r).Named() <==> r.Named()) && (Heard(r).Bare() <==> r.Bare())
  {
    if !r.Bare() {
      hide Heard, Request.Fits, Request.Code;
      if r.Named() {
        HeardNamed(r);
      } else {
        HeardKeyed(r);
      }
    }
  }

  /** For every request a client frames, whatever its lengths and whatever follows: the server's verdict is that on the
      request it hears. */
  lemma VerdictOnHeard(lim: Limits, r: Request, tail: Data)
    ensures ParseRequest(lim, EncodeRequest(r) + tail) == Verdict(lim, Heard(r))
  {
    if r.Named() {
      hide NameFault;
      assert (EncodeRequest(r) + tail)[2..2 + AsU8(|r.db|)] == r.db[..AsU8(|r.db|)];
    } else if !r.Bare() {
      hide ParseRequest, EncodeRequest, FirstFault;
      KeyedVerdict(lim, r, tail);
    }
  }

  /** A request whose lengths fit is accepted as sent or rejected for its first fault, whatever follows. */
  lemma RequestVerdict(lim: Limits, r: Request, tail: Data)
    requires r.Fits()
    ensures ParseRequest(lim, EncodeRequest(r) + tail) == Verdict(lim, r)
  {
    hide ParseRequest, EncodeRequest, Verdict, Heard;
    VerdictOnHeard(lim, r, tail);
    HeardFits(r);
  }

  /** The server takes a request for another one exactly when a length wraps and what it hears has no fault. */
  lemma MisreadIff(lim: Limits, r: Request, tail: Data)
    ensures (exists q :: q != r && ParseRequest(lim, EncodeRequest(r) + tail) == Accepted(q))
            <==> !r.Fits() && FirstFault(lim, Heard(r)).None?
  {
    hide ParseRequest, EncodeRequest, FirstFault, Heard;
    VerdictOnHeard(lim, r, tail);
    HeardFits(r);
    if !r.Fits() && FirstFault(lim, Heard(r)).None? {
      assert ParseRequest(lim, EncodeRequest(r) + tail) == Accepted(Heard(r));
    }
  }

  /** What the client's command loop lets through: it refuses names over 255 bytes for create, info and drop, and only
      for those; the database that gets, sets and deletes go to is never checked. */
  predicate Sendable(r: Request) {
    r.Named() ==> |r.db| <= 255
  }

  /** What the client sends without key or value gets the verdict it deserves; the rest is taken for another request
      exactly when a length wraps and what the server hears has no fault. */
  lemma SentMisreadIff(lim: Limits, r: Request, tail: Data)
    requires Sendable(r)
    ensures r.Bare() || r.Named() ==> ParseRequest(lim, EncodeRequest(r) + tail) == Verdict(lim, r)
    ensures (exists q :: q != r && ParseRequest(lim, EncodeRequest(r) + tail) == Accepted(q))
            <==> !r.Bare() && !r.Named() && !r.Fits() && FirstFault(lim, Heard(r)).None?
  {
    hide ParseRequest, EncodeRequest, FirstFault, Heard, Verdict;
    MisreadIff(lim, r, tail);
    if r.Bare() || r.Named() {
      RequestVerdict(lim, r, tail);
    }
  }

  /** It happens: with a database name of 257 letters selected, a get reads, and a set writes, the database named by its
      first letter, under a key cut out of the name. */
  lemma LongNameHitsAnother(lim: Limits, tail: Data)
    requires lim.maxKey >= 1 && lim.maxValue >= 1
    ensures var name := seq(257, _ => 0x61);
            && Sendable(Get(name, [0x62])) && Sendable(Set(name, [0x62], [0x63]))
            && ParseRequest(lim, EncodeRequest(Get(name, [0x62])) + tail) == Accepted(Get([0x61], [0x61]))
            && ParseRequest(lim, EncodeRequest(Set(name, [0x62], [0x63])) + tail)
               == Accepted(Set([0x61], [0x61], [0x61]))
  {
    hide ParseRequest, EncodeRequest, FirstFault;
    var name: Data := seq(257, _ => 0x61);
    VerdictOnHeard(lim, Get(name, [0x62]), tail);
    VerdictOnHeard(lim, Set(name, [0x62], [0x63]), tail);
    LongNameHeard(name);
    ShortFaultless(lim);
  }

  lemma LongNameHeard(name: Data)
    requires name == seq(257, _ => 0x61)
    ensures Heard(Get(name, [0x62])) == Get([0x61], [0x61])
    ensures Heard(Set(name, [0x62], [0x63])) == Set([0x61], [0x61], [0x61])
  {
    assert name[..1] == [0x61];
    var rest, more := name[1..] + [0x62] + [], name[1..] + [0x62] + [0x63];
    assert rest[..1] == [0x61] && more[..1] == [0x61] && more[1..2] == [0x61];
  }

  lemma ShortFaultless(lim: Limits)
    requires lim.maxKey >= 1 && lim.maxValue >= 1
    ensures FirstFault(lim, Get([0x61], [0x61])).None? && FirstFault(lim, Set([0x61], [0x61], [0x61])).None?
  {
  }

  /** What the parser makes of the fields of a keyed frame. */
  lemma FieldsVerdict(lim: Limits, t: Data, r: Request)
    requires !r.Bare() && !r.Named() && r.Fits()
    requires var h, n, k, v := HeadLen(r.Code()), |r.db|, |r.key|, |r.Value()|;
             && h + n + k + v <= |t| && t[0] == r.Code() && t[1] == n && FromLe32(t[2..6]) == k
             && (r.Set? ==> FromLe32(t[6..10]) == v)
             && t[h..h + n] == r.db && t[h + n..h + n + k] == r.key && t[h + n + k..h + n + k + v] == r.Value()
    ensures ParseRequest(lim, t) == Verdict(lim, r)
  {
    hide Le32, FromLe32, NameFault, EncodeRequest, KeyFault, ValueFault;
  }

  lemma ThreeCuts(rest: Data, k: nat, v: nat)
    requires k + v <= |rest|
    ensures rest[..k] + rest[k..k + v] + rest[k + v..] == rest
  {
  }

  lemma HeardParts(r: Request)
    requires !r.Bare() && !r.Named()
    ensures var q, rest := Heard(r), r.db[AsU8(|r.db|)..] + r.key + r.Value();
            && AsU8(|r.db|) <= |r.db| && AsU32(|r.key|) + AsU32(|r.Value()|) <= |rest|
            && q.db == r.db[..AsU8(|r.db|)] && q.key == rest[..AsU32(|r.key|)]
            && q.Value() == rest[AsU32(|r.key|)..AsU32(|r.key|) + AsU32(|r.Value()|)]
  {
    SmallerByte(|r.db|);
    SmallerRemainder(|r.key|);
    SmallerRemainder(|r.Value()|);
    if !r.Set? {
      assert AsU32(|r.Value()|) == 0;
    }
    hide AsU8, AsU32;
  }

  /** The bytes behind the sizes of a keyed request are those of the request heard, and some more. */
  lemma HeardFields(r: Request, tail: Data) returns (more: Data)
    requires !r.Bare() && !r.Named()
    ensures var q := Heard(r);
            && |q.db| == AsU8(|r.db|) && |q.key| == AsU32(|r.key|) && |q.Value()| == AsU32(|r.Value()|)
            && r.db + r.key + r.Value() + tail == q.db + q.key + q.Value() + more
  {
    HeardSizes(r);
    HeardParts(r);
    hide Heard, AsU8, AsU32, Request.Value;
    var n: nat, k: nat, v: nat := AsU8(|r.db|), AsU32(|r.key|), AsU32(|r.Value()|);
    var rest := r.db[n..] + r.key + r.Value();
    ThreeCuts(rest, k, v);
    Regroup(r.db, n, r.key, r.Value(), rest[..k], rest[k..k + v], rest[k + v..], tail);
    more := rest[k + v..] + tail;
  }

  lemma KeyedVerdict(lim: Limits, r: Request, tail: Data)
    requires !r.Bare() && !r.Named()
    ensures ParseRequest(lim, EncodeRequest(r) + tail) == Verdict(lim, Heard(r))
  {
    hide Le32, FromLe32, EncodeRequest, ParseRequest, Verdict, Heard;
    var t, q := EncodeRequest(r) + tail, Heard(r);
    RequestFields(r, tail);
    Le32RoundTrip(AsU32(|r.key|));
    Le32RoundTrip(AsU32(|r.Value()|));
    HeardFits(r);
    SameCode(q, r);
    var more := HeardFields(r, tail);
    SplitAt(t, HeadLen(r.Code()), q.db, q.key, q.Value(), more);
    FieldsVerdict(lim, t, q);
  }

  lemma SameCode(q: Request, r: Request)
    requires q.Code() == r.Code()
    ensures (q.Set? <==> r.Set?) && (q.Named() <==> r.Named()) && (q.Bare() <==> r.Bare())
  {
  }

  lemma Regroup(db: Data, j: nat, key: Data, value: Data, k: Data, v: Data, more: Data, tail: Data)
    requires j <= |db| && k + v + more == db[j..] + key + value
    ensures db + key + value + tail == db[..j] + k + v + (more + tail)
  {
    assert db == db[..j] + db[j..];
    assert db + key + value == db[..j] + (db[j..] + key + value);
  }

  /** An accepted keyed frame, field by field. */
  lemma AcceptedFields(lim: Limits, t: Data, r: Request)
    requires t != [] && ParseRequest(lim, t) == Accepted(r) && !r.Bare() && !r.Named()
    ensures var h, n, k, v := HeadLen(r.Code()), |r.db|, |r.key|, |r.Value()|;
            && t[0] == r.Code() && h + n + k + v <= |t| && t[1] == n && n < 256
            && t[h..h + n] == r.db && t[h + n..h + n + k] == r.key && t[h + n + k..h + n + k + v] == r.Value()
            && FromLe32(t[2..6]) == k
            && (r.Set? ==> FromLe32(t[6..10]) == v)
            && FirstFault(lim, r).None? && r.Fits()
  {
    hide FromLe32, NameFault;
  }

  lemma SizesOf(t: Data, r: Request)
    requires !r.Bare() && !r.Named() && |t| >= HeadLen(r.Code())
    requires t[2..6] == Le32(AsU32(|r.key|)) && (r.Set? ==> t[6..10] == Le32(AsU32(|r.value|)))
    ensures t[2..HeadLen(r.Code())] == Sizes(r)
  {
    hide Le32, AsU32;
  }

  lemma Rejoined(t: Data, h: nat, i: nat, j: nat, n: nat)
    requires 2 <= h <= i <= j <= n <= |t|
    ensures [t[0], t[1]] + t[2..h] + (t[h..i] + t[i..j] + t[j..n]) <= t
  {
    assert [t[0], t[1]] + t[2..h] == t[..h];
    assert t[h..i] + t[i..j] + t[j..n] == t[h..n];
    assert t[..h] + t[h..n] == t[..n];
  }

  lemma KeyedEncoding(r: Request)
    requires !r.Bare() && !r.Named()
    ensures EncodeRequest(r) == [r.Code(), AsU8(|r.db|)] + Sizes(r) + (r.db + r.key + r.Value())
  {
  }

  lemma EncodeOfKeyed(lim: Limits, t: Data, r: Request)
    requires t != [] && ParseRequest(lim, t) == Accepted(r) && !r.Bare() && !r.Named()
    ensures EncodeRequest(r) <= t
  {
    hide FromLe32, Le32, ParseRequest, FirstFault, Sizes, EncodeRequest;
    AcceptedFields(lim, t, r);
    FromLe32RoundTrip(t[2..6]);
    if r.Set? {
      FromLe32RoundTrip(t[6..10]);
    }
    SizesOf(t, r);
    KeyedEncoding(r);
    var h, n, k, v := HeadLen(r.Code()), |r.db|, |r.key|, |r.Value()|;
    Rejoined(t, h, h + n, h + n + k, h + n + k + v);
  }

  lemma EncodeOfNamed(lim: Limits, t: Data, r: Request)
    requires t != [] && ParseRequest(lim, t) == Accepted(r) && r.Named()
    ensures r.Fits() && FirstFault(lim, r).None? && EncodeRequest(r) <= t
  {
    hide NameFault, FromLe32, KeyFault, ValueFault;
    assert t[..2 + t[1]] == [t[0], t[1]] + t[2..2 + t[1]];
  }

  /** Each accepted request occupies exactly the bytes its own printer would write, and has no fault. */
  lemma EncodeOfAccepted(lim: Limits, t: Data, r: Request)
    requires t != [] && ParseRequest(lim, t) == Accepted(r)
    ensures r.Fits() && FirstFault(lim, r).None? && EncodeRequest(r) <= t
  {
    if r.Named() {
      EncodeOfNamed(lim, t, r);
    } else if r.Bare() {
      hide ParseSizes, NameFault;
    } else {
      hide ParseRequest, EncodeRequest, FirstFault;
      AcceptedFields(lim, t, r);
      EncodeOfKeyed(lim, t, r);
    }
  }

  lemma AcceptedIff(lim: Limits, t: Data, r: Request)
    requires t != []
    ensures ParseRequest(lim, t) == Accepted(r) <==> r.Fits() && FirstFault(lim, r).None? && EncodeRequest(r) <= t
  {
    hide ParseRequest, EncodeRequest, FirstFault;
    if ParseRequest(lim, t) == Accepted(r) {
      EncodeOfAccepted(lim, t, r);
    }
    if r.Fits() && FirstFault(lim, r).None? && EncodeRequest(r) <= t {
      var n := |EncodeRequest(r)|;
      RequestVerdict(lim, r, t[n..]);
      assert t == EncodeRequest(r) + t[n..];
    }
  }

  /** A verdict never changes when more bytes arrive. */
  lemma VerdictIsFinal(lim: Limits, t: Data, u: Data)
    requires t != [] && t <= u && !ParseRequest(lim, t).Truncated?
    ensures ParseRequest(lim, u) == ParseRequest(lim, t)
  {
    hide FromLe32, NameFault, KeyFault, ValueFault;
    var op := t[0];
    if 2 < op <= 8 {
      var h := HeadLen(op);
      SameSlice(t, u, h, h + t[1]);
      if op > 5 {
        var at := h + t[1];
        SameSlice(t, u, 2, 6);
        if op == 7 {
          SameSlice(t, u, 6, 10);
        }
        var k, v := FromLe32(t[2..6]), if op == 7 then FromLe32(t[6..10]) else 0;
        if at + k + v <= |t| {
          SameSlice(t, u, at, at + k);
          SameSlice(t, u, at + k, at + k + v);
        }
      }
    }
  }

  /** The server decides after a bounded number of bytes. */
  lemma VerdictIsBounded(lim: Limits, t: Data)
    requires |t| >= 10 + 255 + lim.maxKey + lim.maxValue
    ensures !ParseRequest(lim, t).Truncated?
  {
    hide FromLe32, NameFault;
  }

  /** What the server accepts, the log can hold. */
  lemma AcceptedIsLoggable(lim: Limits, t: Data, r: Request)
    requires t != [] && ParseRequest(lim, t) == Accepted(r)
    ensures r.Set? ==> Log.Set(r.key, r.value).Valid()
    ensures r.Delete? ==> Log.Delete(r.key).Valid()
  {
    hide EncodeRequest, ParseRequest;
    EncodeOfAccepted(lim, t, r);
  }

  // ---------- Responses ----------

  datatype Response =
    | Ok(payload: Data)
    | Pong(payload: Data)
    | DbNotFound(payload: Data)
    | DbAlreadyExists(payload: Data)
    | KeyValue(payload: Data)
    | KeyNotFound(payload: Data)
    | InvalidRequest(payload: Data)
    | PayloadTooLarge(payload: Data)
    | InternalError(payload: Data)
  {
    function Code(): byte {
      match this
      case Ok(_) => 0
      case Pong(_) => 1
      case DbNotFound(_) => 2
      case DbAlreadyExists(_) => 3
      case KeyValue(_) => 4
      case KeyNotFound(_) => 5
      case InvalidRequest(_) => 6
      case PayloadTooLarge(_) => 7
      case InternalError(_) => 8
    }
  }

  function EncodeResponse(r: Response): (t: Data)
    ensures |t| == 5 + |r.payload|
  {
    [r.Code()] + Le32(AsU32(|r.payload|)) + r.payload
  }

  function Decimal(n: nat): Data {
    (if n < 10 then [] else Decimal(n / 10)) + [0x30 + n % 10]
  }

  function ResponseOf(status: byte, payload: Data): Response {
    match status
    case 0 => Ok(payload)
    case 1 => Pong(payload)
    case 2 => DbNotFound(payload)
    case 3 => DbAlreadyExists(payload)
    case 4 => KeyValue(payload)
    case 5 => KeyNotFound(payload)
    case 6 => InvalidRequest(payload)
    case 7 => PayloadTooLarge(payload)
    case 8 => InternalError(payload)
    case _ => InternalError(Ascii("Unknown response code: ") + Decimal(status))
  }

  datatype Incoming = Incoming(response: Response, used: nat) | Eof

  /** The client's reader: a status, a length, and that many bytes. */
  function ReadResponse(t: Data): (r: Incoming)
    ensures r.Incoming? ==> 5 <= r.used <= |t|
  {
    if |t| < 5 then Eof
    else
      var n := FromLe32(t[1..5]);
      if |t| < 5 + n then Eof else Incoming(ResponseOf(t[0], t[5..5 + n]), 5 + n)
  }

  lemma ResponseFields(r: Response, tail: Data)
    ensures var t, n := EncodeResponse(r) + tail, AsU32(|r.payload|);
            t[0] == r.Code() && t[1..5] == Le32(n) && t[5..5 + n] == r.payload[..n]
  {
    hide Le32, AsU32;
    var t, k := EncodeResponse(r) + tail, Le32(AsU32(|r.payload|));
    Headed4(r.Code(), k, r.payload, tail);
    var n := AsU32(|r.payload|);
    assert n <= |r.payload| by { SmallerRemainder(|r.payload|); }
    assert t[5..5 + n] == t[5..][..n];
  }

  lemma SmallerRemainder(n: nat)
    ensures AsU32(n) <= n
  {
  }

  lemma Headed4(c: byte, z: Data, data: Data, tail: Data)
    requires |z| == 4
    ensures var t := [c] + z + data + tail; t[0] == c && t[1..5] == z && t[5..] == data + tail
  {
  }

  /** A response arrives as it was sent exactly when its length survives the cast to 32 bits. */
  lemma ReadOfEncode(r: Response, tail: Data)
    ensures ReadResponse(EncodeResponse(r) + tail) == Incoming(r, |EncodeResponse(r)|) <==> |r.payload| < U32_LIMIT
  {
    ResponseFields(r, tail);
    SmallerRemainder(|r.payload|);
    hide Le32, FromLe32, EncodeResponse;
    Le32RoundTrip(AsU32(|r.payload|));
  }

  /** A response that was read occupies exactly the bytes of its encoding; an unknown status reads as an internal
      error. */
  lemma EncodeOfRead(t: Data)
    requires ReadResponse(t).Incoming?
    ensures var i := ReadResponse(t);
            if t[0] <= 8 then EncodeResponse(i.response) == t[..i.used] else i.response.InternalError?
  {
    hide Le32, FromLe32;
    FromLe32RoundTrip(t[1..5]);
    var i := ReadResponse(t);
    assert t[..i.used] == [t[0]] + t[1..5] + t[5..i.used];
  }

  function EncodeResponses(rs: seq<Response>): Data {
    if rs == [] then [] else EncodeResponse(rs[0]) + EncodeResponses(rs[1..])
  }

  /** The next `n` responses of a stream. */
  function ReadMany(t: Data, n: nat): Option<seq<Response>> {
    if n == 0 then Some([])
    else match ReadResponse(t)
      case Eof => None
      case Incoming(r, used) => (match ReadMany(t[used..], n - 1) case None => None case Some(rs) => Some([r] + rs))
  }

  lemma {:induction false} ResponsesRoundTrip(rs: seq<Response>, tail: Data)
    requires forall i | 0 <= i < |rs| :: |rs[i].payload| < U32_LIMIT
    ensures ReadMany(EncodeResponses(rs) + tail, |rs|) == Some(rs)
    decreases |rs|
  {
    hide ReadResponse, EncodeResponse;
    if rs != [] {
      var rest := EncodeResponses(rs[1..]) + tail;
      var t := EncodeResponses(rs) + tail;
      assert t == EncodeResponse(rs[0]) + rest;
      ReadOfEncode(rs[0], rest);
      ResponsesRoundTrip(rs[1..], tail);
      assert t[|EncodeResponse(rs[0])|..] == rest;
      assert rs == [rs[0]] + rs[1..];
    }
  }

  lemma {:induction false} ResponsesSnoc(rs: seq<Response>, r: Response)
    ensures EncodeResponses(rs + [r]) == EncodeResponses(rs) + EncodeResponse(r)
    decreases |rs|
  {
    hide EncodeResponse;
    if rs == [] {
      assert [] + [r] == [r] && [r][1..] == [];
    } else {
      assert (rs + [r])[1..] == rs[1..] + [r];
      ResponsesSnoc(rs[1..], r);
    }
  }

  // ---------- Info packets ----------

  function EncodeInfo(p: InfoPacket): (t: Data)
    ensures |t| == 24
  {
    Le32(p.sizeOnDisk) + Le32(p.sizeInMemory) + Le32(p.minKeySize)
    + Le32(p.meanKeySize) + Le32(p.maxKeySize) + Le32(p.keyCount)
  }

  function DecodeInfo(t: Data): InfoPacket
    requires |t| >= 24
  {
    InfoPacket(FromLe32(t[0..4]), FromLe32(t[4..8]), FromLe32(t[8..12]),
               FromLe32(t[12..16]), FromLe32(t[16..20]), FromLe32(t[20..24]))
  }

  lemma InfoRoundTrip(p: InfoPacket)
    ensures DecodeInfo(EncodeInfo(p)) == p
  {
    hide Le32, FromLe32;
    var t := EncodeInfo(p);
    assert t[0..4] == Le32(p.sizeOnDisk) && t[4..8] == Le32(p.sizeInMemory) && t[8..12] == Le32(p.minKeySize)
           && t[12..16] == Le32(p.meanKeySize) && t[16..20] == Le32(p.maxKeySize) && t[20..24] == Le32(p.keyCount);
    Le32RoundTrip(p.sizeOnDisk);
    Le32RoundTrip(p.sizeInMemory);
    Le32RoundTrip(p.minKeySize);
    Le32RoundTrip(p.meanKeySize);
    Le32RoundTrip(p.maxKeySize);
    Le32RoundTrip(p.keyCount);
  }

  // ---------- One connection ----------

  /** What the rest of the server makes of a request: a response, a last response, or a connection closed without
      one. */
  datatype Answer = More(response: Response) | Last(response: Response) | Hangup

  /** The answer to the `i`-th request; a ping is answered on the spot. */
  function AnswerTo(answers: nat -> Answer, i: nat, r: Request): Answer {
    if r.Ping? then More(Pong(Ascii("PONG"))) else answers(i)
  }

  datatype End = Ended | Closed | Cut | Refused(fault: Fault) | Finished

  datatype Session = Session(served: seq<Request>, sent: seq<Response>, end: End)

  /** What a connection does with the bytes `t`, starting at its `i`-th request. */
  function Serve(lim: Limits, answers: nat -> Answer, i: nat, t: Data): Session
    decreases |t|
  {
    if t == [] then Session([], [], Ended)
    else match ParseRequest(lim, t)
      case Truncated => Session([], [], Cut)
      case Rejected(fault) => Session([], [fault.Announced()], Refused(fault))
      case Accepted(r) =>
        if r.Close? then Session([r], [], Closed)
        else match AnswerTo(answers, i, r)
          case Hangup => Session([r], [], Finished)
          case Last(rsp) => Session([r], [rsp], Finished)
          case More(rsp) =>
            EncodeOfAccepted(lim, t, r);
            var rest := Serve(lim, answers, i + 1, t[|EncodeRequest(r)|..]);
            Session([r] + rest.served, [rsp] + rest.sent, rest.end)
  }

  function EncodeRequests(rs: seq<Request>): Data {
    if rs == [] then [] else EncodeRequest(rs[0]) + EncodeRequests(rs[1..])
  }

  /** A list a client may pipeline from its `i`-th request on: no faults, no goodbye, no answer that ends the
      connection. */
  predicate Pipelined(lim: Limits, answers: nat -> Answer, i: nat, rs: seq<Request>) {
    forall k | 0 <= k < |rs| ::
      rs[k].Fits() && FirstFault(lim, rs[k]).None? && !rs[k].Close? && AnswerTo(answers, i + k, rs[k]).More?
  }

  function AnswersTo(answers: nat -> Answer, i: nat, rs: seq<Request>): seq<Response>
    requires forall k | 0 <= k < |rs| :: AnswerTo(answers, i + k, rs[k]).More?
  {
    seq(|rs|, k requires 0 <= k < |rs| => AnswerTo(answers, i + k, rs[k]).response)
  }

  lemma ServeOne(lim: Limits, answers: nat -> Answer, i: nat, r: Request, more: Data)
    requires r.Fits() && FirstFault(lim, r).None? && !r.Close? && AnswerTo(answers, i, r).More?
    ensures var rest := Serve(lim, answers, i + 1, more);
            Serve(lim, answers, i, EncodeRequest(r) + more) ==
              Session([r] + rest.served, [AnswerTo(answers, i, r).response] + rest.sent, rest.end)
  {
    hide EncodeRequest, ParseRequest, FirstFault, AnswerTo;
    RequestVerdict(lim, r, more);
    assert (EncodeRequest(r) + more)[|EncodeRequest(r)|..] == more;
  }

  lemma PipelinedSplit(lim: Limits, answers: nat -> Answer, i: nat, rs: seq<Request>)
    requires Pipelined(lim, answers, i, rs) && rs != []
    ensures var r := rs[0]; r.Fits() && FirstFault(lim, r).None? && !r.Close? && AnswerTo(answers, i, r).More?
    ensures Pipelined(lim, answers, i + 1, rs[1..])
    ensures AnswersTo(answers, i, rs) == [AnswerTo(answers, i, rs[0]).response] + AnswersTo(answers, i + 1, rs[1..])
  {
    hide FirstFault, AnswerTo;
    var r, more := rs[0], rs[1..];
    assert i + 0 == i;
    forall k | 0 <= k < |more|
      ensures more[k].Fits() && FirstFault(lim, more[k]).None? && !more[k].Close?
              && AnswerTo(answers, i + 1 + k, more[k]).More?
      ensures AnswerTo(answers, i + 1 + k, more[k]) == AnswerTo(answers, i + (k + 1), rs[k + 1])
    {
      assert more[k] == rs[k + 1] && i + 1 + k == i + (k + 1);
    }
  }

  /** A pipelined list is served request by request and answered in order; then the connection goes on with what
      follows. */
  lemma {:induction false} ServePipelined(lim: Limits, answers: nat -> Answer, i: nat, rs: seq<Request>, tail: Data)
    requires Pipelined(lim, answers, i, rs)
    ensures var all, rest := Serve(lim, answers, i, EncodeRequests(rs) + tail), Serve(lim, answers, i + |rs|, tail);
            all == Session(rs + rest.served, AnswersTo(answers, i, rs) + rest.sent, rest.end)
    decreases |rs|
  {
    hide EncodeRequest, Pipelined, Serve, AnswerTo;
    if rs == [] {
      assert EncodeRequests(rs) + tail == tail;
    } else {
      var more := EncodeRequests(rs[1..]) + tail;
      assert EncodeRequests(rs) + tail == EncodeRequest(rs[0]) + more;
      PipelinedSplit(lim, answers, i, rs);
      ServeOne(lim, answers, i, rs[0], more);
      ServePipelined(lim, answers, i + 1, rs[1..], tail);
      assert rs == [rs[0]] + rs[1..];
    }
  }

  /** None of the requests ends the connection. */
  predicate KeepOpen(answers: nat -> Answer, i: nat, rs: seq<Request>) {
    forall k | 0 <= k < |rs| :: !rs[k].Close? && AnswerTo(answers, i + k, rs[k]).More?
  }

  /** All but the last request kept the connection open and were answered; then came `last` and what it sent. */
  ghost predicate LastOf(answers: nat -> Answer, i: nat, s: Session, last: Request, sent: seq<Response>) {
    && s.served != [] && s.served[|s.served| - 1] == last
    && var front := s.served[..|s.served| - 1];
       KeepOpen(answers, i, front) && s.sent == AnswersTo(answers, i, front) + sent
  }

  /** Why a session ended, and what it sent: the answers to the requests that kept the connection open, then at most one
      more response. */
  ghost predicate EndsAs(lim: Limits, answers: nat -> Answer, i: nat, s: Session, rest: Data) {
    match s.end
    case Ended => rest == [] && KeepOpen(answers, i, s.served) && s.sent == AnswersTo(answers, i, s.served)
    case Cut =>
      && rest != [] && ParseRequest(lim, rest).Truncated?
      && KeepOpen(answers, i, s.served) && s.sent == AnswersTo(answers, i, s.served)
    case Refused(fault) =>
      && rest != [] && ParseRequest(lim, rest) == Rejected(fault)
      && KeepOpen(answers, i, s.served) && s.sent == AnswersTo(answers, i, s.served) + [fault.Announced()]
    case Closed => LastOf(answers, i, s, Close, [])
    case Finished =>
      && s.served != []
      && var last := s.served[|s.served| - 1];
         var answer := AnswerTo(answers, i + (|s.served| - 1), last);
         !last.Close? && !answer.More? && LastOf(answers, i, s, last, Farewell(answer))
  }

  /** What an answer that ends the connection still sends. */
  function Farewell(a: Answer): seq<Response> {
    if a.Last? then [a.response] else []
  }

  lemma OneMoreOpen(answers: nat -> Answer, i: nat, r: Request, rs: seq<Request>)
    requires !r.Close? && AnswerTo(answers, i, r).More? && KeepOpen(answers, i + 1, rs)
    ensures KeepOpen(answers, i, [r] + rs)
    ensures AnswersTo(answers, i, [r] + rs) == [AnswerTo(answers, i, r).response] + AnswersTo(answers, i + 1, rs)
  {
    hide AnswerTo;
    var all := [r] + rs;
    forall k | 0 <= k < |all|
      ensures !all[k].Close? && AnswerTo(answers, i + k, all[k]).More?
      ensures k > 0 ==> AnswerTo(answers, i + k, all[k]) == AnswerTo(answers, i + 1 + (k - 1), rs[k - 1])
    {
      if k == 0 {
        assert i + k == i;
      } else {
        assert all[k] == rs[k - 1] && i + k == i + 1 + (k - 1);
      }
    }
  }

  /** A session with one more answered request in front ends as before. */
  lemma EndsMore(lim: Limits, answers: nat -> Answer, i: nat, r: Request, rest: Session, tail: Data)
    requires !r.Close? && AnswerTo(answers, i, r).More? && EndsAs(lim, answers, i + 1, rest, tail)
    ensures EndsAs(lim, answers, i,
                   Session([r] + rest.served, [AnswerTo(answers, i, r).response] + rest.sent, rest.end), tail)
  {
    hide AnswerTo, ParseRequest, KeepOpen;
    var all := [r] + rest.served;
    if rest.end.Closed? || rest.end.Finished? {
      var n := |rest.served| - 1;
      OneMoreOpen(answers, i, r, rest.served[..n]);
      assert all[..|all| - 1] == [r] + rest.served[..n];
      assert i + (|all| - 1) == i + 1 + (|rest.served| - 1);
    } else {
      OneMoreOpen(answers, i, r, rest.served);
    }
  }

  /** A session of one request that ends the connection. */
  lemma EndsAtOnce(lim: Limits, answers: nat -> Answer, i: nat, r: Request, s: Session, tail: Data)
    requires s.served == [r] && (r.Close? || !AnswerTo(answers, i, r).More?)
    requires s.end == (if r.Close? then Closed else Finished)
    requires s.sent == if !r.Close? && AnswerTo(answers, i, r).Last? then [AnswerTo(answers, i, r).response] else []
    ensures EndsAs(lim, answers, i, s, tail)
  {
    hide AnswerTo;
    assert i + 0 == i && s.served[..0] == [] && i + (|s.served| - 1) == i;
    assert AnswersTo(answers, i, []) == [];
    assert LastOf(answers, i, s, r, s.sent);
  }

  /** For any bytes at all: the served requests fill the front of the stream exactly; each but the last was answered and
      kept the connection open; and the connection ends at the first frame it cannot accept, never inside a payload, or
      with the first request that ends it. */
  lemma {:induction false} ServeExact(lim: Limits, answers: nat -> Answer, i: nat, t: Data)
    ensures var s := Serve(lim, answers, i, t);
            && (forall k | 0 <= k < |s.served| :: s.served[k].Fits() && FirstFault(lim, s.served[k]).None?)
            && EncodeRequests(s.served) <= t && EndsAs(lim, answers, i, s, t[|EncodeRequests(s.served)|..])
    decreases |t|
  {
    hide EncodeRequest, ParseRequest, FirstFault, AnswerTo, EndsAs;
    var s := Serve(lim, answers, i, t);
    if t != [] && ParseRequest(lim, t).Accepted? {
      var r := ParseRequest(lim, t).request;
      EncodeOfAccepted(lim, t, r);
      ServedOne(r);
      if !r.Close? && AnswerTo(answers, i, r).More? {
        var u := t[|EncodeRequest(r)|..];
        ServeExact(lim, answers, i + 1, u);
        var rest := Serve(lim, answers, i + 1, u);
        assert s.served[1..] == rest.served;
        assert t == EncodeRequest(r) + u;
        assert t[|EncodeRequests(s.served)|..] == u[|EncodeRequests(rest.served)|..];
        EndsMore(lim, answers, i, r, rest, u[|EncodeRequests(rest.served)|..]);
      } else {
        EndsAtOnce(lim, answers, i, r, s, t[|EncodeRequests(s.served)|..]);
      }
    } else {
      assert t[0..] == t;
      EndsUnserved(lim, answers, i, s, t);
    }
  }

  lemma EndsUnserved(lim: Limits, answers: nat -> Answer, i: nat, s: Session, t: Data)
    requires s == Serve(lim, answers, i, t) && (t == [] || !ParseRequest(lim, t).Accepted?)
    ensures EndsAs(lim, answers, i, s, t)
  {
    hide ParseRequest, AnswerTo;
    assert AnswersTo(answers, i, []) == [];
  }

  lemma ServedOne(r: Request)
    ensures EncodeRequests([r]) == EncodeRequest(r)
  {
    assert [r][1..] == [];
  }

  lemma {:induction false} RequestsSnoc(rs: seq<Request>, r: Request)
    ensures EncodeRequests(rs + [r]) == EncodeRequests(rs) + EncodeRequest(r)
    decreases |rs|
  {
    hide EncodeRequest;
    if rs == [] {
      assert [] + [r] == [r] && [r][1..] == [];
    } else {
      assert (rs + [r])[1..] == rs[1..] + [r];
      RequestsSnoc(rs[1..], r);
    }
  }

  /** Two request lists with the same bytes are the same list. */
  lemma {:induction false} EncodeRequestsInjective(lim: Limits, a: seq<Request>, b: seq<Request>)
    requires forall k | 0 <= k < |a| :: a[k].Fits() && FirstFault(lim, a[k]).None?
    requires forall k | 0 <= k < |b| :: b[k].Fits() && FirstFault(lim, b[k]).None?
    requires EncodeRequests(a) == EncodeRequests(b)
    ensures a == b
    decreases |a|
  {
    hide EncodeRequest, ParseRequest, FirstFault;
    if a != [] && b != [] {
      RequestVerdict(lim, a[0], EncodeRequests(a[1..]));
      RequestVerdict(lim, b[0], EncodeRequests(b[1..]));
      assert EncodeRequests(a)[|EncodeRequest(a[0])|..] == EncodeRequests(a[1..]);
      assert EncodeRequests(b)[|EncodeRequest(b[0])|..] == EncodeRequests(b[1..]);
      EncodeRequestsInjective(lim, a[1..], b[1..]);
      assert a == [a[0]] + a[1..] && b == [b[0]] + b[1..];
    }
  }

  /** End to end: a client that pipelines a list and reads as many responses gets the answer to each, in order. */
  lemma PipelineRoundTrip(lim: Limits, answers: nat -> Answer, rs: seq<Request>, tail: Data)
    requires Pipelined(lim, answers, 0, rs)
    requires forall k | 0 <= k < |rs| :: |AnswerTo(answers, k, rs[k]).response.payload| < U32_LIMIT
    ensures var s := Serve(lim, answers, 0, EncodeRequests(rs) + tail);
            rs <= s.served && ReadMany(EncodeResponses(s.sent), |rs|) == Some(AnswersTo(answers, 0, rs))
  {
    hide AnswerTo, Serve, ReadMany;
    ServePipelined(lim, answers, 0, rs, tail);
    var rest := Serve(lim, answers, |rs|, tail);
    var replies := AnswersTo(answers, 0, rs);
    ResponsesAppend(replies, rest.sent);
    ResponsesRoundTrip(replies, EncodeResponses(rest.sent));
  }

  lemma {:induction false} ResponsesAppend(a: seq<Response>, b: seq<Response>)
    ensures EncodeResponses(a + b) == EncodeResponses(a) + EncodeResponses(b)
    decreases |a|
  {
    hide EncodeResponse;
    if a == [] {
      assert a + b == b;
    } else {
      assert (a + b)[1..] == a[1..] + b;
      ResponsesAppend(a[1..], b);
    }
  }
}
