/** Bytes written out: one example of everything the program puts on disk or on the wire. */
module Vectors {
  import opened Bytes
  import opened Words
  import Crc
  import Layers
  import Log
  import Remainder
  import Service
  import Space
  import opened Wire

  // ---------- The log ----------

  lemma LittleEndian()
    ensures Le32(0x1234_5678) == [0x78, 0x56, 0x34, 0x12]
  {
  }

  /** A word on disk: its least significant byte first, each byte by its value. */
  lemma WordBytes(w: bv32, lanes: seq<bv8>, bytes: Data)
    requires |lanes| == |bytes| == 4 && w == Merge(lanes[0], lanes[1], lanes[2], lanes[3])
    requires forall i | 0 <= i < 4 :: ToByte(lanes[i]) == bytes[i]
    ensures LeWord(Word(w)) == bytes
  {
    hide Lane, Merge, ToByte;
    LanesOfMerge(lanes[0], lanes[1], lanes[2], lanes[3]);
  }

  lemma BytesOfBody()
    ensures ToByte(0) == 0 && ToByte(1) == 1 && ToByte(2) == 2 && ToByte(0x6B) == 0x6B && ToByte(0x76) == 0x76
  {
  }

  lemma SetHeader()
    ensures Remainder.Turns(0xFFFF_FFFF, 1, 0x5AFA_20E4)
    ensures Remainder.Turns(0x5AFA_20E4, 1, 0xD03A_ECD7)
    ensures Remainder.Turns(0xD03A_ECD7, 0, 0x1867_7D9B)
    ensures Remainder.Turns(0x1867_7D9B, 0, 0x67C5_2DB1)
    ensures Remainder.Turns(0x67C5_2DB1, 0, 0xBC01_4637)
    ensures Remainder.Turns(0xBC01_4637, 1, 0xCF06_94DF)
  {
    hide Remainder.Turns, ToByte;
    BytesOfBody();
    Remainder.Turn(0xFFFF_FFFF, 1, 1, 0x5AFA_20E4);
    Remainder.Turn(0x5AFA_20E4, 1, 1, 0xD03A_ECD7);
    Remainder.Turn(0xD03A_ECD7, 0, 0, 0x1867_7D9B);
    Remainder.Turn(0x1867_7D9B, 0, 0, 0x67C5_2DB1);
    Remainder.Turn(0x67C5_2DB1, 0, 0, 0xBC01_4637);
    Remainder.Turn(0xBC01_4637, 1, 1, 0xCF06_94DF);
  }

  lemma SetRest()
    ensures Remainder.Turns(0xCF06_94DF, 0, 0x16A3_C9D1)
    ensures Remainder.Turns(0x16A3_C9D1, 0, 0xF1C2_418B)
    ensures Remainder.Turns(0xF1C2_418B, 0, 0x7A9B_98E9)
    ensures Remainder.Turns(0x7A9B_98E9, 107, 0x03CC_7994)
    ensures Remainder.Turns(0x03CC_7994, 118, 0x4E07_4F2D)
  {
    hide Remainder.Turns, ToByte;
    BytesOfBody();
    Remainder.Turn(0xCF06_94DF, 0, 0, 0x16A3_C9D1);
    Remainder.Turn(0x16A3_C9D1, 0, 0, 0xF1C2_418B);
    Remainder.Turn(0xF1C2_418B, 0, 0, 0x7A9B_98E9);
    Remainder.Turn(0x7A9B_98E9, 107, 107, 0x03CC_7994);
    Remainder.Turn(0x03CC_7994, 118, 118, 0x4E07_4F2D);
  }

  lemma SetChecksum()
    ensures Crc.Checksum([1, 1, 0, 0, 0, 1, 0, 0, 0, 0x6B, 0x76]) == Word(0xB1F8_B0D2)
  {
    hide *;
    SetHeader();
    SetRest();
    Remainder.ChecksumBySteps([1, 1, 0, 0, 0, 1, 0, 0, 0, 0x6B, 0x76],
                              [0xFFFF_FFFF, 0x5AFA_20E4, 0xD03A_ECD7, 0x1867_7D9B, 0x67C5_2DB1, 0xBC01_4637,
                               0xCF06_94DF, 0x16A3_C9D1, 0xF1C2_418B, 0x7A9B_98E9, 0x03CC_7994, 0x4E07_4F2D],
                              0xB1F8_B0D2);
  }

  lemma SetWord()
    ensures LeWord(Word(0xB1F8_B0D2)) == [0xD2, 0xB0, 0xF8, 0xB1]
  {
    WordBytes(0xB1F8_B0D2, [0xD2, 0xB0, 0xF8, 0xB1], [0xD2, 0xB0, 0xF8, 0xB1]);
  }

  lemma DeleteTurns()
    ensures Remainder.Turns(0xFFFF_FFFF, 2, 0xC3F3_715E)
    ensures Remainder.Turns(0xC3F3_715E, 1, 0xFB17_BF14)
    ensures Remainder.Turns(0xFB17_BF14, 0, 0x1A21_C3C2)
    ensures Remainder.Turns(0x1A21_C3C2, 0, 0x7570_825F)
    ensures Remainder.Turns(0x7570_825F, 0, 0xFBA1_3CE7)
    ensures Remainder.Turns(0xFBA1_3CE7, 0, 0x3E95_D6E7)
    ensures Remainder.Turns(0x3E95_D6E7, 0, 0x3E50_E20D)
    ensures Remainder.Turns(0x3E50_E20D, 0, 0x7E8F_2C5F)
    ensures Remainder.Turns(0x7E8F_2C5F, 0, 0xFBAA_C349)
    ensures Remainder.Turns(0xFBAA_C349, 107, 0xD59B_EB27)
  {
    hide Remainder.Turns, ToByte;
    BytesOfBody();
    Remainder.Turn(0xFFFF_FFFF, 2, 2, 0xC3F3_715E);
    Remainder.Turn(0xC3F3_715E, 1, 1, 0xFB17_BF14);
    Remainder.Turn(0xFB17_BF14, 0, 0, 0x1A21_C3C2);
    Remainder.Turn(0x1A21_C3C2, 0, 0, 0x7570_825F);
    Remainder.Turn(0x7570_825F, 0, 0, 0xFBA1_3CE7);
    Remainder.Turn(0xFBA1_3CE7, 0, 0, 0x3E95_D6E7);
    Remainder.Turn(0x3E95_D6E7, 0, 0, 0x3E50_E20D);
    Remainder.Turn(0x3E50_E20D, 0, 0, 0x7E8F_2C5F);
    Remainder.Turn(0x7E8F_2C5F, 0, 0, 0xFBAA_C349);
    Remainder.Turn(0xFBAA_C349, 107, 107, 0xD59B_EB27);
  }

  lemma DeleteChecksum()
    ensures Crc.Checksum([2, 1, 0, 0, 0, 0, 0, 0, 0, 0x6B]) == Word(0x2A64_14D8)
  {
    hide *;
    DeleteTurns();
    Remainder.ChecksumBySteps([2, 1, 0, 0, 0, 0, 0, 0, 0, 0x6B],
                              [0xFFFF_FFFF, 0xC3F3_715E, 0xFB17_BF14, 0x1A21_C3C2, 0x7570_825F, 0xFBA1_3CE7,
                               0x3E95_D6E7, 0x3E50_E20D, 0x7E8F_2C5F, 0xFBAA_C349, 0xD59B_EB27],
                              0x2A64_14D8);
  }

  lemma DeleteWord()
    ensures LeWord(Word(0x2A64_14D8)) == [0xD8, 0x14, 0x64, 0x2A]
  {
    WordBytes(0x2A64_14D8, [0xD8, 0x14, 0x64, 0x2A], [0xD8, 0x14, 0x64, 0x2A]);
  }

  /** A record on disk, byte for byte: operation, lengths, key, value, checksum. */
  lemma RecordVectors()
    ensures Log.Encode(Crc.Checksum, Log.Set([0x6B], [0x76])) ==
            [1, 1, 0, 0, 0, 1, 0, 0, 0, 0x6B, 0x76, 0xD2, 0xB0, 0xF8, 0xB1]
    ensures Log.Encode(Crc.Checksum, Log.Delete([0x6B])) ==
            [2, 1, 0, 0, 0, 0, 0, 0, 0, 0x6B, 0xD8, 0x14, 0x64, 0x2A]
  {
    hide Crc.Checksum, LeWord;
    SetChecksum();
    SetWord();
    DeleteChecksum();
    DeleteWord();
    assert Log.Body(1, [0x6B], [0x76]) == [1, 1, 0, 0, 0, 1, 0, 0, 0, 0x6B, 0x76];
    assert Log.Body(2, [0x6B], []) == [2, 1, 0, 0, 0, 0, 0, 0, 0, 0x6B];
  }

  // ---------- Requests ----------

  lemma BareVectors()
    ensures EncodeRequest(Stats) == [0] && EncodeRequest(Ping) == [1] && EncodeRequest(Close) == [2]
  {
  }

  lemma NamedVectors()
    ensures EncodeRequest(Create([0x61, 0x62])) == [3, 2, 0x61, 0x62]
    ensures EncodeRequest(Info([0x61, 0x62])) == [4, 2, 0x61, 0x62]
    ensures EncodeRequest(Drop([0x61, 0x62])) == [5, 2, 0x61, 0x62]
  {
  }

  lemma GetVector()
    ensures EncodeRequest(Get([0x61], [0x6B])) == [6, 1, 1, 0, 0, 0, 0x61, 0x6B]
  {
  }

  lemma SetVector()
    ensures EncodeRequest(Set([0x61], [0x6B], [0x76, 0x77])) ==
            [7, 1, 1, 0, 0, 0, 2, 0, 0, 0, 0x61, 0x6B, 0x76, 0x77]
  {
  }

  lemma DeleteVector()
    ensures EncodeRequest(Delete([0x61], [0x6B])) == [8, 1, 1, 0, 0, 0, 0x61, 0x6B]
  {
  }

  /** Which requests are served: names of 1 to 64 allowed bytes, keys and values neither empty nor over the limit. */
  lemma FaultlessIff(lim: Limits, r: Request)
    ensures FirstFault(lim, r).None? <==>
              r.Bare() || (1 <= |r.db| <= 64 && (forall i | 0 <= i < |r.db| :: NameByte(r.db[i])) &&
                           (r.Named() || (1 <= |r.key| <= lim.maxKey && (r.Set? ==> 1 <= |r.value| <= lim.maxValue))))
  {
  }

  // ---------- Responses ----------

  /** A response on the wire by its status and text, both in ASCII. */
  predicate Says(r: Response, status: byte, text: string) {
    EncodeResponse(r) == [status] + Le32(AsU32(|text|)) + Ascii(text)
  }

  lemma AsciiIsText(text: string)
    ensures |Ascii(text)| == |text|
    ensures forall i | 0 <= i < |text| && text[i] < 128 as char :: Ascii(text)[i] as char == text[i]
    ensures Ascii("OK") == [0x4F, 0x4B]
  {
  }

  lemma StatusVectors(p: Data)
    ensures var head := Le32(AsU32(|p|)) + p;
            && EncodeResponse(Ok(p)) == [0] + head && EncodeResponse(Pong(p)) == [1] + head
            && EncodeResponse(DbNotFound(p)) == [2] + head && EncodeResponse(DbAlreadyExists(p)) == [3] + head
            && EncodeResponse(KeyValue(p)) == [4] + head && EncodeResponse(KeyNotFound(p)) == [5] + head
            && EncodeResponse(InvalidRequest(p)) == [6] + head && EncodeResponse(PayloadTooLarge(p)) == [7] + head
            && EncodeResponse(InternalError(p)) == [8] + head
  {
    hide Le32;
  }

  /** What a client reads when its request is refused. */
  lemma FaultVectors()
    ensures Says(BadOpcode.Announced(), 6, "Invalid operation code")
    ensures Says(NameEmpty.Announced(), 6, "Database name cannot be empty")
    ensures Says(NameTooLong.Announced(), 7, "Database name too long")
    ensures Says(NameChars.Announced(), 6, "Invalid characters in database name")
    ensures Says(KeyEmpty.Announced(), 6, "Key size cannot be zero")
    ensures Says(KeyTooLarge.Announced(), 7, "Key too large")
    ensures Says(ValueEmpty.Announced(), 6, "Value cannot be empty")
    ensures Says(ValueTooLarge.Announced(), 7, "Value too large")
  {
    hide Le32, AsU32;
  }

  predicate Replies(op: Service.Op, reply: Service.Reply, status: byte, text: string) {
    var answer := Layers.AnswerOf(op, reply);
    !answer.Hangup? && Says(answer.response, status, text)
  }

  /** What a client reads when its operation was done, or not; only a missing database ends the connection. */
  lemma ReplyVectors(db: Data, key: Data, value: Data)
    ensures Replies(Service.Create(db), Service.Done, 0, "Database created successfully")
    ensures Replies(Service.Drop(db), Service.Done, 0, "Database dropped successfully")
    ensures Replies(Service.Put(db, key, value), Service.Done, 0, "OK")
    ensures Replies(Service.Del(db, key), Service.Done, 0, "OK")
    ensures Replies(Service.Del(db, key), Service.KeyNotFound, 5, "Key not found")
    ensures Replies(Service.Get(db, key), Service.KeyNotFound, 5, "Key not found")
    ensures Replies(Service.Get(db, key), Service.DbNotFound, 2, "Database not found")
    ensures Replies(Service.Create(db), Service.AlreadyExists, 3, "Database already exists")
    ensures Replies(Service.Drop(db), Service.CannotDropDefault, 6, "Cannot drop the default database")
    ensures Layers.AnswerOf(Service.Get(db, key), Service.Found(value)) == More(KeyValue(value))
    ensures Layers.AnswerOf(Service.Drop(db), Service.NoReply) == Hangup
  {
    hide Le32, AsU32;
  }

  /** A ping is answered on the spot and the connection stays open. */
  lemma PingAnswered(answers: nat -> Answer, i: nat)
    ensures AnswerTo(answers, i, Ping).More? && Says(AnswerTo(answers, i, Ping).response, 1, "PONG")
  {
  }

  lemma InfoVector()
    ensures EncodeInfo(Space.InfoPacket(1, 2, 3, 4, 5, 6)) ==
            [1, 0, 0, 0, 2, 0, 0, 0, 3, 0, 0, 0, 4, 0, 0, 0, 5, 0, 0, 0, 6, 0, 0, 0]
  {
  }

  // ---------- Names ----------

  /** The bytes a name may have: ASCII letters, digits, underscore and hyphen. */
  lemma NameBytes(b: byte)
    ensures var c := b as char;
            NameByte(b) <==> 'a' <= c <= 'z' || 'A' <= c <= 'Z' || '0' <= c <= '9' || c == '_' || c == '-'
  {
  }

  /** So an accepted name is the name of a file in the directory it is used in, and in no other. */
  lemma NamesAreFileNames(lim: Limits, t: Data, r: Request)
    requires t != [] && ParseRequest(lim, t) == Accepted(r) && !r.Bare()
    ensures 1 <= |r.db| <= 64 && Ascii("/")[0] !in r.db && Ascii(".")[0] !in r.db && 0 !in r.db
    ensures forall i | 0 <= i < |r.db| :: r.db[i] < 128
  {
    hide ParseRequest, EncodeRequest, KeyFault, ValueFault;
    EncodeOfAccepted(lim, t, r);
    assert NameFault(r.db).None?;
    hide FirstFault;
    forall i | 0 <= i < |r.db|
      ensures NameByte(r.db[i])
    {
    }
  }

  /** How the client shows a status it does not know. */
  lemma UnknownStatus(p: Data)
    ensures ResponseOf(9, p) == InternalError(Ascii("Unknown response code: 9"))
    ensures ResponseOf(255, p) == InternalError(Ascii("Unknown response code: 255"))
  {
    assert Decimal(9) == Ascii("9");
    assert Decimal(25) == Decimal(2) + [0x35] && Decimal(2) == [0x32];
    assert Decimal(255) == Ascii("255");
    AsciiAppends("Unknown response code: ", "9");
    AsciiAppends("Unknown response code: ", "255");
    assert "Unknown response code: " + "9" == "Unknown response code: 9";
    assert "Unknown response code: " + "255" == "Unknown response code: 255";
  }

  lemma AsciiAppends(a: string, b: string)
    ensures Ascii(a) + Ascii(b) == Ascii(a + b)
  {
  }
}
