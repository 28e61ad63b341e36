/** The two ends of a connection as they run: the client's senders, the server's request loop, the response reader. */
module Connection {
  import opened Bytes
  import opened Wire

  /** One end of a connection: bytes still to be read before the peer closes, and bytes written so far. */
  class Socket {
    var incoming: Data
    var outgoing: Data

    constructor (incoming: Data)
      ensures this.incoming == incoming && outgoing == []
    {
      this.incoming, outgoing := incoming, [];
    }

    /** Reads exactly `n` bytes, or fails when the peer closes first. */
    method ReadExact(n: nat) returns (b: Option<Data>)
      modifies this`incoming
      ensures n <= old(|incoming|) ==> b == Some(old(incoming[..n])) && incoming == old(incoming[n..])
      ensures n > old(|incoming|) ==> b.None? && incoming == []
    {
      if n <= |incoming| {
        b := Some(incoming[..n]);
        incoming := incoming[n..];
      } else {
        b := None;
        incoming := [];
      }
    }

    method ReadU8() returns (b: Option<byte>)
      modifies this`incoming
      ensures old(incoming) == [] ==> b.None? && incoming == []
      ensures old(incoming) != [] ==> b == Some(old(incoming[0])) && incoming == old(incoming[1..])
    {
      var one := ReadExact(1);
      b := if one.Some? then Some(one.value[0]) else None;
    }

    method ReadU32() returns (n: Option<u32>)
      modifies this`incoming
      ensures 4 <= old(|incoming|) ==> n == Some(FromLe32(old(incoming[..4]))) && incoming == old(incoming[4..])
      ensures 4 > old(|incoming|) ==> n.None? && incoming == []
    {
      var four := ReadExact(4);
      n := if four.Some? then Some(FromLe32(four.value)) else None;
    }

    method WriteAll(b: Data)
      modifies this`outgoing
      ensures outgoing == old(outgoing) + b
    {
      outgoing := outgoing + b;
    }

    method WriteU8(b: byte)
      modifies this`outgoing
      ensures outgoing == old(outgoing) + [b]
    {
      WriteAll([b]);
    }

    method WriteU32(n: u32)
      modifies this`outgoing
      ensures outgoing == old(outgoing) + Le32(n)
    {
      WriteAll(Le32(n));
    }
  }

  // ---------- The client ----------

  method SendBare(s: Socket, r: Request)
    requires r.Bare()
    modifies s`outgoing
    ensures s.outgoing == old(s.outgoing) + EncodeRequest(r)
  {
    s.WriteU8(r.Code());
  }

  method SendDbOp(s: Socket, r: Request)
    requires r.Named()
    modifies s`outgoing
    ensures s.outgoing == old(s.outgoing) + EncodeRequest(r)
  {
    s.WriteU8(r.Code());
    s.WriteU8(AsU8(|r.db|));
    s.WriteAll(r.db);
    assert s.outgoing == old(s.outgoing) + ([r.Code(), AsU8(|r.db|)] + r.db);
  }

  method SendKeyOp(s: Socket, r: Request)
    requires r.Get? || r.Delete?
    modifies s`outgoing
    ensures s.outgoing == old(s.outgoing) + EncodeRequest(r)
  {
    hide Le32, AsU32;
    s.WriteU8(r.Code());
    s.WriteU8(AsU8(|r.db|));
    s.WriteU32(AsU32(|r.key|));
    s.WriteAll(r.db);
    s.WriteAll(r.key);
    assert s.outgoing == old(s.outgoing) + ([r.Code(), AsU8(|r.db|)] + Sizes(r) + (r.db + r.key + []));
  }

  method SendSet(s: Socket, r: Request)
    requires r.Set?
    modifies s`outgoing
    ensures s.outgoing == old(s.outgoing) + EncodeRequest(r)
  {
    hide Le32, AsU32;
    s.WriteU8(r.Code());
    s.WriteU8(AsU8(|r.db|));
    s.WriteU32(AsU32(|r.key|));
    s.WriteU32(AsU32(|r.value|));
    s.WriteAll(r.db);
    s.WriteAll(r.key);
    s.WriteAll(r.value);
    assert s.outgoing == old(s.outgoing) + ([r.Code(), AsU8(|r.db|)] + Sizes(r) + (r.db + r.key + r.value));
  }

  /** Sends a list of requests without waiting for responses. */
  method SendAll(s: Socket, rs: seq<Request>)
    modifies s`outgoing
    ensures s.outgoing == old(s.outgoing) + EncodeRequests(rs)
  {
    hide EncodeRequest;
    var i := 0;
    while i < |rs|
      invariant 0 <= i <= |rs|
      invariant s.outgoing == old(s.outgoing) + EncodeRequests(rs[..i])
    {
      if rs[i].Bare() {
        SendBare(s, rs[i]);
      } else if rs[i].Named() {
        SendDbOp(s, rs[i]);
      } else if rs[i].Set? {
        SendSet(s, rs[i]);
      } else {
        SendKeyOp(s, rs[i]);
      }
      RequestsSnoc(rs[..i], rs[i]);
      assert rs[..i + 1] == rs[..i] + [rs[i]];
      i := i + 1;
    }
    assert rs[..i] == rs;
  }

  /** Reads one response: status, length, payload. */
  method ReceiveResponse(s: Socket) returns (r: Option<Response>)
    modifies s`incoming
    ensures match ReadResponse(old(s.incoming))
            case Eof => r.None?
            case Incoming(response, used) => r == Some(response) && s.incoming == old(s.incoming)[used..]
  {
    hide FromLe32;
    r := None;
    var status := s.ReadU8();
    if status.Some? {
      var n := s.ReadU32();
      if n.Some? {
        assert old(s.incoming)[1..][..4] == old(s.incoming)[1..5];
        assert old(s.incoming)[1..][4..] == old(s.incoming)[5..];
        var payload := s.ReadExact(n.value);
        if payload.Some? {
          assert old(s.incoming)[5..][..n.value] == old(s.incoming)[5..5 + n.value];
          assert old(s.incoming)[5..][n.value..] == old(s.incoming)[5 + n.value..];
          r := Some(ResponseOf(status.value, payload.value));
        }
      }
    }
  }

  // ---------- The server ----------

  method SendResponse(s: Socket, r: Response)
    modifies s`outgoing
    ensures s.outgoing == old(s.outgoing) + EncodeResponse(r)
  {
    s.WriteAll([r.Code()] + Le32(AsU32(|r.payload|)) + r.payload);
  }

  /** What the client is told about a frame before it is served. */
  function Told(f: Frame): Data {
    if f.Rejected? then EncodeResponse(f.fault.Announced()) else []
  }

  /** Gives a request up, announcing its fault. */
  method Refuse(s: Socket, fault: Fault) returns (f: Frame)
    modifies s`outgoing
    ensures f == Rejected(fault) && s.outgoing == old(s.outgoing) + Told(f)
  {
    SendResponse(s, fault.Announced());
    f := Rejected(fault);
  }

  lemma Slices(t: Data, i: nat, n: nat)
    requires i + n <= |t|
    ensures t[i..][..n] == t[i..i + n] && t[i..][n..] == t[i + n..] && |t[i..]| == |t| - i
  {
  }

  /** A create, info or drop after its opcode: the name's length, the name. */
  method ReceiveNamed(s: Socket, lim: Limits, op: byte) returns (f: Frame)
    requires 3 <= op <= 5
    modifies s
    ensures f == ParseRequest(lim, [op] + old(s.incoming)) && s.outgoing == old(s.outgoing) + Told(f)
    ensures f.Accepted? ==> s.incoming == ([op] + old(s.incoming))[|EncodeRequest(f.request)|..]
  {
    hide NameFault, EncodeResponse;
    ghost var t := [op] + s.incoming;
    assert t[1..] == s.incoming;
    f := Truncated;
    var len := s.ReadU8();
    if len.Some? {
      assert s.incoming == t[2..];
      var name := s.ReadExact(len.value);
      if name.Some? {
        Slices(t, 2, len.value);
        var fault := NameFault(name.value);
        if fault.Some? {
          f := Refuse(s, fault.value);
        } else {
          f := Accepted(NamedRequest(op, name.value));
        }
      }
    }
  }

  /** A get, set or delete after its opcode: name length, sizes, name, then, once all three are fine, key and value. */
  method ReceiveKeyed(s: Socket, lim: Limits, op: byte) returns (f: Frame)
    requires 6 <= op <= 8
    modifies s
    ensures f == ParseRequest(lim, [op] + old(s.incoming)) && s.outgoing == old(s.outgoing) + Told(f)
    ensures f.Accepted? ==> s.incoming == ([op] + old(s.incoming))[|EncodeRequest(f.request)|..]
  {
    hide NameFault, KeyFault, ValueFault, EncodeResponse, FromLe32, EncodeRequest, KeyedRequest;
    ghost var t := [op] + s.incoming;
    assert t[1..] == s.incoming;
    f := Truncated;
    var len := s.ReadU8();
    if len.None? { return; }
    assert s.incoming == t[2..];
    var keySize := s.ReadU32();
    if keySize.None? { return; }
    Slices(t, 2, 4);
    var valueSize := Some(0);
    if op == 7 {
      valueSize := s.ReadU32();
      if valueSize.None? { return; }
      Slices(t, 6, 4);
    }
    f := ReceiveParts(s, lim, op, len.value, keySize.value, valueSize.value, t);
  }

  lemma AcceptedLength(lim: Limits, t: Data, r: Request)
    requires t != [] && ParseRequest(lim, t) == Accepted(r)
    ensures |EncodeRequest(r)| <= |t|
    ensures !r.Bare() && !r.Named() ==> |EncodeRequest(r)| == HeadLen(t[0]) + |r.db| + |r.key| + |r.Value()|
  {
    EncodeOfAccepted(lim, t, r);
    hide ParseRequest;
    if !r.Bare() && !r.Named() {
      AcceptedFields(lim, t, r);
      RequestFields(r, []);
    }
  }

  /** The part of a keyed request behind its sizes. */
  method ReceiveParts(s: Socket, lim: Limits, op: byte, len: byte, keySize: u32, valueSize: u32,
          ghost t: Data) returns (f: Frame)
    requires 6 <= op <= 8 && |t| >= HeadLen(op) && t[0] == op && t[1] == len && s.incoming == t[HeadLen(op)..]
    requires keySize == FromLe32(t[2..6]) && valueSize == if op == 7 then FromLe32(t[6..10]) else 0
    modifies s
    ensures f == ParseRequest(lim, t) && s.outgoing == old(s.outgoing) + Told(f)
    ensures f.Accepted? ==> s.incoming == t[|EncodeRequest(f.request)|..]
  {
    hide NameFault, KeyFault, ValueFault, EncodeResponse, FromLe32, EncodeRequest;
    ghost var h := HeadLen(op);
    f := Truncated;
    var name := s.ReadExact(len);
    if name.None? { return; }
    Slices(t, h, len);
    var fault := NameFault(name.value);
    if fault.None? { fault := KeyFault(lim, keySize); }
    if fault.None? && op == 7 { fault := ValueFault(lim, valueSize); }
    if fault.Some? {
      f := Refuse(s, fault.value);
      return;
    }
    var key := s.ReadExact(keySize);
    if key.None? { return; }
    Slices(t, h + len, keySize);
    var value := Some([]);
    if op == 7 {
      value := s.ReadExact(valueSize);
      if value.None? { return; }
    }
    Slices(t, h + len + keySize, valueSize);
    f := Accepted(KeyedRequest(op, name.value, key.value, value.value));
    AcceptedLength(lim, t, f.request);
  }

  /** One frame after its opcode. */
  method ReceiveFrame(s: Socket, lim: Limits, op: byte) returns (f: Frame)
    modifies s
    ensures f == ParseRequest(lim, [op] + old(s.incoming)) && s.outgoing == old(s.outgoing) + Told(f)
    ensures f.Accepted? ==> s.incoming == ([op] + old(s.incoming))[|EncodeRequest(f.request)|..]
  {
    hide EncodeResponse;
    if op > 8 {
      f := Refuse(s, BadOpcode);
    } else if op <= 2 {
      f := Accepted(BareRequest(op));
    } else if op <= 5 {
      f := ReceiveNamed(s, lim, op);
    } else {
      f := ReceiveKeyed(s, lim, op);
    }
  }

  /** A session so far, put in front of the session still to come. */
  function Then(served: seq<Request>, sent: seq<Response>, rest: Session): Session {
    Session(served + rest.served, sent + rest.sent, rest.end)
  }

  /** How the rest of a session starts. */
  lemma ServeUnfolds(lim: Limits, answers: nat -> Answer, served: seq<Request>, sent: seq<Response>, t: Data)
    ensures var i := |served|; var all := Then(served, sent, Serve(lim, answers, i, t));
            if t == [] then all == Session(served, sent, Ended)
            else match ParseRequest(lim, t)
              case Truncated => all == Session(served, sent, Cut)
              case Rejected(fault) => all == Session(served, sent + [fault.Announced()], Refused(fault))
              case Accepted(r) =>
                if r.Close? then all == Session(served + [r], sent, Closed)
                else match AnswerTo(answers, i, r)
                  case Hangup => all == Session(served + [r], sent, Finished)
                  case Last(rsp) => all == Session(served + [r], sent + [rsp], Finished)
                  case More(rsp) =>
                    |EncodeRequest(r)| <= |t| &&
                    all == Then(served + [r], sent + [rsp], Serve(lim, answers, i + 1, t[|EncodeRequest(r)|..]))
  {
    hide EncodeRequest, ParseRequest, AnswerTo, FirstFault;
    assert served + [] == served && sent + [] == sent;
    if t != [] && ParseRequest(lim, t).Accepted? {
      var r := ParseRequest(lim, t).request;
      EncodeOfAccepted(lim, t, r);
      if !r.Close? && AnswerTo(answers, |served|, r).More? {
        var rest := Serve(lim, answers, |served| + 1, t[|EncodeRequest(r)|..]);
        assert served + ([r] + rest.served) == served + [r] + rest.served;
        assert forall rsp: Response :: sent + ([rsp] + rest.sent) == sent + [rsp] + rest.sent;
      }
    }
  }

  /** The server's loop over one connection, with the answers of the databases supplied from outside. */
  method HandleClient(s: Socket, lim: Limits, answers: nat -> Answer) returns (served: seq<Request>, end: End)
    modifies s
    ensures var all := Serve(lim, answers, 0, old(s.incoming));
            served == all.served && end == all.end && s.outgoing == old(s.outgoing) + EncodeResponses(all.sent)
  {
    hide EncodeResponse, EncodeRequest, ParseRequest, EncodeResponses, AnswerTo, FirstFault, Serve, Then;
    served, end := [], Ended;
    ghost var sent: seq<Response> := [];
    ghost var all := Serve(lim, answers, 0, s.incoming);
    NothingSent(all);
    while true
      invariant s.outgoing == old(s.outgoing) + EncodeResponses(sent)
      invariant all == Then(served, sent, Serve(lim, answers, |served|, s.incoming))
      decreases |s.incoming|
    {
      ghost var t := s.incoming;
      ServeUnfolds(lim, answers, served, sent, t);
      var op := s.ReadU8();
      if op.None? {
        end := Ended;
        return;
      }
      assert t == [op.value] + s.incoming;
      var f := ReceiveFrame(s, lim, op.value);
      match f {
        case Truncated =>
          end := Cut;
          return;
        case Rejected(fault) =>
          ResponsesSnoc(sent, fault.Announced());
          end := Refused(fault);
          return;
        case Accepted(r) =>
          var i := |served|;
          served := served + [r];
          if r.Close? {
            end := Closed;
            return;
          }
          var answer := AnswerTo(answers, i, r);
          if answer.Hangup? {
            end := Finished;
            return;
          }
          SendResponse(s, answer.response);
          ResponsesSnoc(sent, answer.response);
          sent := sent + [answer.response];
          if answer.Last? {
            end := Finished;
            return;
          }
      }
    }
  }

  lemma NothingSent(all: Session)
    ensures EncodeResponses([]) == [] && all == Then([], [], all)
  {
  }
}
