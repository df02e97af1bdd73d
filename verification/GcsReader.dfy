/**
 Random access over a sequential download: gcsReader reopens the object to go back, reads and
 discards to go forward, and must look like plain slicing.
 */
module GcsReader {
  import opened Basics

  // io.EOF, io.ErrUnexpectedEOF and every other error.
  datatype Error = Nil | Eof | UnexpectedEof | Other

  function Slice(content: seq<byte>, offset: nat, len: nat): seq<byte> {
    if offset <= |content| then content[offset..Min(offset + len, |content|)] else []
  }

  // ---------- what the caller sees ----------

  // No stream yet, a stream at `index`, or a closed one left behind by a failed reopen.
  datatype State = Unopened | Reading(index: nat) | Closed(index: nat)

  // `opens` says whether opening the object would succeed now.
  datatype Request = Request(offset: nat, len: nat, opens: bool)

  datatype Answer = Answer(state: State, bytes: seq<byte>, err: Error)

  // The state the bytes are read in.
  function Positioned(s: State, req: Request): State {
    if s.Unopened? then
      if req.opens then Reading(0) else Unopened
    else if req.offset < s.index then
      if req.opens then Reading(0) else Closed(s.index)
    else
      s
  }

  predicate Fails(s: State, req: Request) {
    || (!req.opens && (s.Unopened? || req.offset < s.index))
    || (s.Closed? && req.offset >= s.index && (req.offset > s.index || req.len > 0))
  }

  // An empty request beyond a stream that already stands at the end of the object.
  predicate EmptyPastEnd(content: seq<byte>, s: State, req: Request) {
    var p := Positioned(s, req);
    p.Reading? && req.len == 0 && req.offset > p.index == |content|
  }

  function ReadAtSpec(content: seq<byte>, s: State, req: Request): Answer {
    var p := Positioned(s, req);
    if Fails(s, req) then Answer(p, [], Other)
    else if p.Reading? then
      var bytes := Slice(content, req.offset, req.len);
      Answer(Reading(Min(req.offset + req.len, |content|)), bytes,
             if |bytes| < req.len || EmptyPastEnd(content, s, req) then Eof else Nil)
    else
      Answer(p, [], Nil)
  }

  // ---------- any sequence of calls ----------

  function StateAfter(content: seq<byte>, reqs: seq<Request>): State {
    if reqs == [] then Unopened
    else ReadAtSpec(content, StateAfter(content, reqs[..|reqs| - 1]), reqs[|reqs| - 1]).state
  }

  function LastAnswer(content: seq<byte>, reqs: seq<Request>): Answer
    requires reqs != []
  {
    ReadAtSpec(content, StateAfter(content, reqs[..|reqs| - 1]), reqs[|reqs| - 1])
  }

  // When opening never fails, neither does reading.
  lemma {:induction false} HealthyRunsDoNotFail(content: seq<byte>, reqs: seq<Request>)
    requires forall i | 0 <= i < |reqs| :: reqs[i].opens
    ensures StateAfter(content, reqs).Reading? || reqs == []
    ensures reqs != [] ==> LastAnswer(content, reqs).err in {Nil, Eof}
  {
    if reqs != [] {
      HealthyRunsDoNotFail(content, reqs[..|reqs| - 1]);
    }
  }

  // Whatever failed before, a read that has to open the object anew, and can, is served.
  lemma Recovers(content: seq<byte>, reqs: seq<Request>, req: Request)
    requires req.opens
    requires var s := StateAfter(content, reqs); s.Unopened? || req.offset < s.index
    ensures var a := LastAnswer(content, reqs + [req]);
      && a.err in {Nil, Eof} && a.state == Reading(Min(req.offset + req.len, |content|))
      && a.bytes == if req.offset <= |content| then content[req.offset..Min(req.offset + req.len, |content|)] else []
  {
    assert (reqs + [req])[..|reqs|] == reqs;
  }

  // Going forward needs no opening.
  lemma ForwardIsServed(content: seq<byte>, reqs: seq<Request>, req: Request)
    requires var s := StateAfter(content, reqs); s.Reading? && req.offset >= s.index
    ensures var a := LastAnswer(content, reqs + [req]);
      && a.err in {Nil, Eof} && a.state == Reading(Min(req.offset + req.len, |content|))
      && a.bytes == if req.offset <= |content| then content[req.offset..Min(req.offset + req.len, |content|)] else []
  {
    assert (reqs + [req])[..|reqs|] == reqs;
  }

  // A reader is broken only from a failed reopening on, and every read since then has left it so.
  lemma {:induction false} BrokenSince(content: seq<byte>, reqs: seq<Request>) returns (k: nat)
    requires StateAfter(content, reqs).Closed?
    ensures k < |reqs| && !reqs[k].opens && StateAfter(content, reqs[..k]) != Unopened
    ensures reqs[k].offset < StateAfter(content, reqs[..k]).index
    ensures forall j | k < j <= |reqs| :: StateAfter(content, reqs[..j]).Closed?
  {
    var n := |reqs| - 1;
    var before := StateAfter(content, reqs[..n]);
    assert reqs[..|reqs|] == reqs;
    if before.Closed? && reqs[n].offset >= before.index {
      k := BrokenSince(content, reqs[..n]);
      assert forall j | 0 <= j <= n :: reqs[..n][..j] == reqs[..j];
    } else {
      k := n;
    }
  }

  // EOF says that the answer is short, with exactly one kind of exception.
  lemma EofMeansShortIff(content: seq<byte>, reqs: seq<Request>)
    requires reqs != [] && forall i | 0 <= i < |reqs| :: reqs[i].opens
    ensures var a := LastAnswer(content, reqs);
      (a.err == Eof <==> |a.bytes| < reqs[|reqs| - 1].len) <==>
      !EmptyPastEnd(content, StateAfter(content, reqs[..|reqs| - 1]), reqs[|reqs| - 1])
  {
    HealthyRunsDoNotFail(content, reqs);
    HealthyRunsDoNotFail(content, reqs[..|reqs| - 1]);
  }

  // ---------- the program ----------

  // A sequential stream over the object; a read may return less than asked for, and may report
  // EOF together with the last bytes.
  class Stream {
    const content: seq<byte>
    var pos: nat
    var closed: bool

    constructor (content: seq<byte>)
      ensures this.content == content && pos == 0 && !closed
    {
      this.content, pos, closed := content, 0, false;
    }

    method Close()
      modifies this`closed
      ensures closed
    {
      closed := true;
    }

    method Read(len: nat) returns (bytes: seq<byte>, err: Error)
      requires pos <= |content| && len > 0
      modifies this`pos
      ensures pos == old(pos) + |bytes| <= |content|
      ensures bytes == content[old(pos)..pos]
      ensures |bytes| <= len
      ensures closed ==> bytes == [] && err == Other
      ensures !closed ==> err in {Nil, Eof} && (err == Nil ==> bytes != []) && (err == Eof ==> pos == |content|)
    {
      if closed {
        return [], Other;
      }
      if pos == |content| {
        return [], Eof;
      }
      var n :| 1 <= n && n <= len && n <= |content| - pos;
      bytes, err := content[pos..pos + n], Nil;
      pos := pos + n;
      if pos == |content| {
        err :| err in {Nil, Eof};
      }
    }

    // io.ReadAtLeast(r, buf, len(buf)).
    method ReadFull(len: nat) returns (bytes: seq<byte>, err: Error)
      requires pos <= |content|
      modifies this`pos
      ensures closed ==> pos == old(pos) && bytes == [] && err == if len == 0 then Nil else Other
      ensures !closed ==>
        && bytes == Slice(content, old(pos), len) && pos == old(pos) + |bytes|
        && err == if |bytes| == len then Nil else if bytes == [] then Eof else UnexpectedEof
    {
      bytes, err := [], Nil;
      while |bytes| < len && err == Nil
        invariant pos == old(pos) + |bytes| <= |content|
        invariant |bytes| <= len && bytes == content[old(pos)..pos]
        invariant err in {Nil, Eof, Other} && (err == Eof ==> pos == |content|)
        invariant if closed then bytes == [] && err in {Nil, Other} else err != Other
        decreases len - |bytes|, err == Nil
      {
        var more;
        more, err := Read(len - |bytes|);
        bytes := bytes + more;
      }
      if |bytes| >= len {
        err := Nil;
      } else if |bytes| > 0 && err == Eof {
        err := UnexpectedEof;
      }
    }
  }

  class Reader {
    const content: seq<byte>
    var reader: Stream?
    var index: nat

    ghost predicate Valid()
      reads this, reader
    {
      // `index` always is the position of the stream
      reader != null ==> reader.content == content && index == reader.pos <= |content|
    }

    ghost function View(): State
      reads this, reader
    {
      if reader == null then Unopened else if reader.closed then Closed(index) else Reading(index)
    }

    constructor (content: seq<byte>)
      ensures Valid() && this.content == content && View() == Unopened
    {
      this.content, reader, index := content, null, 0;
    }

    // Reopen the object when the stream is missing or already past the offset.
    method Position(req: Request) returns (ok: bool)
      requires Valid()
      modifies this, reader
      ensures Valid() && (reader == old(reader) || fresh(reader))
      ensures View() == Positioned(old(View()), req)
      ensures ok == (req.opens || !(old(reader) == null || req.offset < old(index)))
      ensures ok ==> reader != null && index <= req.offset
    {
      ok := true;
      if reader == null || req.offset < index {
        if reader != null {
          reader.Close();
        }
        if !req.opens {
          return false;
        }
        reader := new Stream(content);
        index := 0;
      }
    }

    // Read up to the offset and throw the bytes away.
    method Skip(offset: nat) returns (err: Error)
      requires Valid() && reader != null && index <= offset
      modifies this`index, reader`pos
      ensures Valid()
      ensures reader.closed ==> index == old(index) && err == if offset == index then Nil else Other
      ensures !reader.closed ==>
        && index == Min(offset, |content|)
        && (err == Eof <==> offset > old(index) == |content|)
        && err in {Nil, Eof, UnexpectedEof}
    {
      err := Nil;
      if offset > index {
        var diff;
        diff, err := reader.ReadFull(offset - index);
        index := index + |diff|;
      }
    }

    // Whatever was asked before, and however often opening failed, an answer that is not an error
    // is the requested slice.
    method ReadAt(req: Request) returns (bytes: seq<byte>, err: Error)
      requires Valid()
      modifies this, reader
      ensures Valid() && (reader == old(reader) || fresh(reader))
      ensures err != Other ==> err in {Nil, Eof} && bytes == Slice(content, req.offset, req.len)
      ensures Answer(View(), bytes, err) == ReadAtSpec(content, old(View()), req)
    {
      var ok := Position(req);
      if !ok {
        return [], Other;
      }
      bytes, err := ReadFrom(req.offset, req.len);
    }

    // The part of ReadAt after a possible reopening.
    method ReadFrom(offset: nat, len: nat) returns (bytes: seq<byte>, err: Error)
      requires Valid() && reader != null && index <= offset
      modifies this`index, reader`pos
      ensures Valid()
      ensures reader.closed ==>
        index == old(index) && bytes == [] && err == if offset == index && len == 0 then Nil else Other
      ensures !reader.closed ==>
        && bytes == Slice(content, offset, len) && index == Min(offset + len, |content|)
        && err == if |bytes| < len || (len == 0 && offset > old(index) == |content|) then Eof else Nil
    {
      err := Skip(offset);
      if err != Nil && err != UnexpectedEof {
        return [], err;
      }
      bytes, err := reader.ReadFull(len);
      index := index + |bytes|;
      if err == UnexpectedEof {
        err := Eof;
      }
    }
  }
}
