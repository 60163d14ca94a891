/** The in-place record encoders: each fills exactly its computed length with its payload. */
module JobEncode {
  import opened Bytes
  import opened JobIntent
  import opened JobRecord

  method EncodeState(b: StateBody) returns (data: Bytes)
    ensures data == StatePayload(b)
  {
    hide Writer.Valid, LE;
    var buf := new byte[48 + |b.key| + |b.value|](_ => 0);
    var w := new Writer(buf);
    PutStateHead(w, b);
    PutStateTail(w, b);
    w.Reads();
    assert buf[..] == buf[..w.at];
    data := buf[..];
  }

  method PutStateHead(w: Writer, b: StateBody)
    requires w.Valid() && w.at == 0 && w.written == [] && w.buf.Length == 48 + |b.key| + |b.value|
    modifies w, w.buf
    ensures w.Valid() && w.at == 28 + |b.key|
    ensures w.written == [FMT] + [b.kind] + b.opId + LE(b.expected, 8) + LE(|b.key|, 2) + b.key
  {
    hide Writer.Valid, LE;
    w.Put([FMT]);
    w.Put([b.kind]);
    w.Put(b.opId);
    w.PutNumber(b.expected, 8);
    w.PutNumber(|b.key|, 2);
    w.Put(b.key);
  }

  method PutStateTail(w: Writer, b: StateBody)
    requires w.Valid() && w.at == 28 + |b.key| && w.buf.Length == 48 + |b.key| + |b.value|
    modifies w, w.buf
    ensures w.Valid() && w.at == w.buf.Length
    ensures w.written == old(w.written) + LE(|b.value|, 4) + b.value + LE(b.completedAt, 8) + LE(b.expiresAt, 8)
  {
    hide Writer.Valid, LE;
    w.PutNumber(|b.value|, 4);
    w.Put(b.value);
    w.PutNumber(b.completedAt, 8);
    w.PutNumber(b.expiresAt, 8);
  }

  /** A buffer shorter than the computed length is refused; otherwise exactly that many bytes are written. */
  method EncodeCompletion(b: CompletionBody, cap: nat) returns (data: Option<Bytes>)
    ensures data == if cap < CompletionLength(b) then None else Some(CompletionPayload(b))
  {
    hide Writer.Valid, LE, OutputPart;
    var need := CompletionLength(b);
    if cap < need {
      return None;
    }
    var buf := new byte[cap](_ => 0);
    var w := new Writer(buf);
    PutInput(w, b);
    PutOutput(w, b);
    assert w.written == OutputPart(b) by { OutputPartIs(b); }
    PutKey(w, b);
    PutValue(w, b);
    w.Reads();
    assert w.written == CompletionPayload(b);
    data := Some(buf[..need]);
  }

  lemma OutputPartIs(b: CompletionBody)
    ensures OutputPart(b)
         == [FMT] + b.opId + LE(b.inIncarnation, 8) + Flag(b.output.Some?) + LE(|b.OutQueue()|, 2) + b.OutQueue()
            + LE(b.OutIncarnation(), 8) + LE(b.OutMessage(), 8) + LE(|b.OutValue()|, 4) + b.OutValue()
  {
  }

  method PutInput(w: Writer, b: CompletionBody)
    requires w.Valid() && w.at == 0 && w.written == [] && w.buf.Length >= CompletionLength(b)
    modifies w, w.buf
    ensures w.Valid() && w.at == 28 + |b.OutQueue()|
    ensures w.written == [FMT] + b.opId + LE(b.inIncarnation, 8) + Flag(b.output.Some?)
                         + LE(|b.OutQueue()|, 2) + b.OutQueue()
  {
    hide Writer.Valid, LE, Flag;
    w.Put([FMT]);
    w.Put(b.opId);
    w.PutNumber(b.inIncarnation, 8);
    w.Put(Flag(b.output.Some?));
    w.PutNumber(|b.OutQueue()|, 2);
    w.Put(b.OutQueue());
  }

  method PutOutput(w: Writer, b: CompletionBody)
    requires w.Valid() && w.at == 28 + |b.OutQueue()| && w.buf.Length >= CompletionLength(b)
    modifies w, w.buf
    ensures w.Valid() && w.at == 48 + |b.OutQueue()| + |b.OutValue()|
    ensures w.written == old(w.written) + LE(b.OutIncarnation(), 8) + LE(b.OutMessage(), 8)
                         + LE(|b.OutValue()|, 4) + b.OutValue()
  {
    hide Writer.Valid, LE;
    w.PutNumber(b.OutIncarnation(), 8);
    w.PutNumber(b.OutMessage(), 8);
    w.PutNumber(|b.OutValue()|, 4);
    w.Put(b.OutValue());
  }

  method PutKey(w: Writer, b: CompletionBody)
    requires w.Valid() && w.at == 48 + |b.OutQueue()| + |b.OutValue()| && w.buf.Length >= CompletionLength(b)
    modifies w, w.buf
    ensures w.Valid() && w.at == 66 + |b.OutQueue()| + |b.OutValue()| + |b.key|
    ensures w.written == old(w.written) + LE(b.version, 8) + LE(|b.key|, 2) + b.key + LE(b.expected, 8)
  {
    hide Writer.Valid, LE;
    w.PutNumber(b.version, 8);
    w.PutNumber(|b.key|, 2);
    w.Put(b.key);
    w.PutNumber(b.expected, 8);
  }

  method PutValue(w: Writer, b: CompletionBody)
    requires w.Valid() && w.at == 66 + |b.OutQueue()| + |b.OutValue()| + |b.key| && w.buf.Length >= CompletionLength(b)
    modifies w, w.buf
    ensures w.Valid() && w.at == CompletionLength(b)
    ensures w.written == old(w.written) + LE(|b.value|, 4) + b.value + LE(b.completedAt, 8) + LE(b.expiresAt, 8)
  {
    hide Writer.Valid, LE;
    w.PutNumber(|b.value|, 4);
    w.Put(b.value);
    w.PutNumber(b.completedAt, 8);
    w.PutNumber(b.expiresAt, 8);
  }

  method EncodeReceipt(r: Receipt) returns (data: Bytes)
    ensures data == ReceiptPayload(r)
  {
    hide Writer.Valid, LE, Flag;
    var buf := new byte[87 + |r.outQueue| + |r.inQueue|](_ => 0);
    var w := new Writer(buf);
    PutReceiptHead(w, r);
    PutReceiptTail(w, r);
    w.Reads();
    assert buf[..] == buf[..w.at];
    data := buf[..];
  }

  method PutReceiptHead(w: Writer, r: Receipt)
    requires w.Valid() && w.at == 0 && w.written == [] && w.buf.Length == 87 + |r.outQueue| + |r.inQueue|
    modifies w, w.buf
    ensures w.Valid() && w.at == 61 + |r.outQueue|
    ensures w.written == [r.kind] + [FMT] + r.opId + r.digest + Flag(r.outQueue != []) + LE(|r.outQueue|, 2)
                         + r.outQueue + LE(r.outMessage, 8)
  {
    hide Writer.Valid, LE, Flag;
    w.Put([r.kind]);
    w.Put([FMT]);
    w.Put(r.opId);
    w.Put(r.digest);
    w.Put(Flag(r.outQueue != []));
    w.PutNumber(|r.outQueue|, 2);
    w.Put(r.outQueue);
    w.PutNumber(r.outMessage, 8);
  }

  method PutReceiptTail(w: Writer, r: Receipt)
    requires w.Valid() && w.at == 61 + |r.outQueue| && w.buf.Length == 87 + |r.outQueue| + |r.inQueue|
    modifies w, w.buf
    ensures w.Valid() && w.at == w.buf.Length
    ensures w.written == old(w.written) + LE(|r.inQueue|, 2) + r.inQueue + LE(r.inMessage, 8)
                         + LE(r.completedAt, 8) + LE(r.expiresAt, 8)
  {
    hide Writer.Valid, LE;
    w.PutNumber(|r.inQueue|, 2);
    w.Put(r.inQueue);
    w.PutNumber(r.inMessage, 8);
    w.PutNumber(r.completedAt, 8);
    w.PutNumber(r.expiresAt, 8);
  }
}
