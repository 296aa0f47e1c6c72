/** Messages on the wire: a four-digit length header and the payload, written by `send_to_fd` with
    partial sends and read by `receive_from_fd` in arbitrary chunks. The environment's choices are
    scripts, consumed one entry for each system call; a call with no entry left is still blocked. */
module Framing {
  import opened Decimal

  const MAX_LEN := MAX_HEADER

  /** The outcomes of send: so many bytes accepted, EAGAIN or EWOULDBLOCK, or another error. */
  datatype SendOutcome = Accept(n: nat) | Again | Refuse

  datatype SendRc = Total(n: nat) | Failure | Blocked

  /** The outcomes of recv. `retry` is what the test of errno for EAGAIN, EWOULDBLOCK and EINTR
      says; the code makes it after a short header read as well. */
  datatype RecvOutcome = Deliver(n: nat, retry: bool) | Eof | Error(retry: bool)

  datatype Chunk = Data(bytes: string, retry: bool) | NoMore | Err(retry: bool) | Wait

  /** The chunk a recv call gives for its outcome. */
  predicate Yields(o: RecvOutcome, c: Chunk) {
    match o
    case Deliver(_, retry) => c.Data? && c.retry == retry
    case Eof => c == NoMore
    case Error(retry) => c == Err(retry)
  }

  datatype Received = Message(body: string, ret: int) | Null | Pending

  function Frame(m: string): string {
    Header(|m|) + m
  }

  function Frames(ms: seq<string>): string {
    if ms == [] then "" else Frame(ms[0]) + Frames(ms[1..])
  }

  ghost predicate Sendable(ms: seq<string>) {
    forall i :: 0 <= i < |ms| ==> |ms[i]| <= MAX_LEN
  }

  /** Where the first frame of a stream lies. */
  lemma FirstFrame(ms: seq<string>)
    requires ms != [] && Sendable(ms)
    ensures |Frames(ms)| == 4 + |ms[0]| + |Frames(ms[1..])|
    ensures Atoi(Frames(ms)[..4]) == |ms[0]|
    ensures Frames(ms)[4..4 + |ms[0]|] == ms[0]
    ensures Frames(ms)[4 + |ms[0]|..] == Frames(ms[1..])
  {
    HeaderFitsIff(|ms[0]|);
    HeaderValue(|ms[0]|);
    assert Frames(ms)[..4] == Header(|ms[0]|);
  }

  /** The length of a payload for an announced length; a negative one reads nothing. */
  function Positive(n: int): nat {
    if n < 0 then 0 else n
  }

  /** What a receive makes of a stream of whole frames after reading h header characters, as its
      contract below states it: it recovers the first message and leaves the others untouched if and
      only if it read the whole header. */
  lemma RecoveredIffHeaderComplete(ms: seq<string>, h: nat, body: string, rest: string)
    requires ms != [] && Sendable(ms) && h <= 4
    requires h <= |Frames(ms)| && Frames(ms)[h..] == body + rest
    requires |body| == Positive(Atoi(Frames(ms)[..h]))
    ensures (body == ms[0] && rest == Frames(ms[1..])) <==> h == 4
    ensures h < 4 ==> (|body| == |ms[0]| <==> ms[0] == "")
  {
    FirstFrame(ms);
    if h == 4 {
      assert body == Frames(ms)[4..][..|body|] && rest == Frames(ms)[4..][|body|..];
    } else {
      ShortHeaderReadsLess(|ms[0]|, h);
      assert Frames(ms)[..h] == Header(|ms[0]|)[..h];
    }
  }

  /** An outcome that ends send_to_fd: a hard error, or nothing accepted. */
  predicate Fatal(o: SendOutcome) {
    o == Refuse || o == Accept(0)
  }

  /** No send fails: each accepts something or asks to try again. */
  ghost predicate NoRefusal(script: seq<SendOutcome>) {
    forall i :: 0 <= i < |script| ==> !Fatal(script[i])
  }

  function Accepts(script: seq<SendOutcome>): nat {
    if script == [] then 0 else (if script[0].Accept? then 1 else 0) + Accepts(script[1..])
  }

  ghost predicate NoEof(script: seq<RecvOutcome>) {
    forall i :: 0 <= i < |script| ==> !script[i].Eof?
  }

  function Delivers(script: seq<RecvOutcome>): nat {
    if script == [] then 0 else (if script[0].Deliver? then 1 else 0) + Delivers(script[1..])
  }

  /** How many bytes a call that delivers n hands over: at least one, and no more than wanted or
      available. */
  function Taken(n: nat, want: nat, avail: nat): nat {
    var limit := if want < avail then want else avail;
    if limit == 0 then 0 else if n == 0 then 1 else if n < limit then n else limit
  }

  /** How a sequence of reads for one buffer ends: with the buffer full, with less because a short or
      failed read was not tried again, with the connection closed, or with a call still blocked. */
  datatype Ending = Whole | Cut | Closed | Waiting

  /** The script left over, and how many of the bytes that have come in. */
  datatype Reading = Reading(how: Ending, rest: seq<RecvOutcome>, left: nat)

  /** Reading `want` bytes while `avail` have come in. For a header errno decides after each short or
      failed read, but is not asked after the one that completes it; for a payload it decides nothing. */
  function Reads(script: seq<RecvOutcome>, avail: nat, want: nat, errnoDecides: bool): Reading {
    if want == 0 then Reading(Whole, script, avail)
    else if script == [] || (script[0].Deliver? && avail == 0) then Reading(Waiting, script, avail)
    else if script[0].Eof? then Reading(Closed, script[1..], avail)
    else
      var k := if script[0].Deliver? then Taken(script[0].n, want, avail) else 0;
      if k < want && errnoDecides && !script[0].retry then Reading(Cut, script[1..], avail - k)
      else Reads(script[1..], avail - k, want - k, errnoDecides)
  }

  function HeaderReading(script: seq<RecvOutcome>, avail: nat): Reading {
    Reads(script, avail, 4, true)
  }

  /** The reads stop short exactly if they are not whole. With no end of stream they are not closed, and
      blocked only for want of calls or bytes. */
  lemma {:induction false} ReadsBounds(script: seq<RecvOutcome>, avail: nat, want: nat, errnoDecides: bool)
    ensures
      var r := Reads(script, avail, want, errnoDecides);
      && r.left <= avail <= r.left + want
      && (r.how == Whole <==> avail == r.left + want)
      && (r.how == Cut ==> errnoDecides)
      && (r.how == Waiting ==> r.rest == [] || r.left == 0)
      && (NoEof(script) ==>
            NoEof(r.rest) && r.how != Closed && Delivers(script) + r.left <= Delivers(r.rest) + avail)
    decreases |script|
  {
    if 0 < want && script != [] && !script[0].Eof? && !(script[0].Deliver? && avail == 0) {
      var k := if script[0].Deliver? then Taken(script[0].n, want, avail) else 0;
      ReadsBounds(script[1..], avail - k, want - k, errnoDecides);
    }
  }

  /** Reads whose calls are used up go on with what comes next. */
  lemma {:induction false} ReadsGoOn(script: seq<RecvOutcome>, more: seq<RecvOutcome>, avail: nat, want: nat, errnoDecides: bool)
    requires Reads(script, avail, want, errnoDecides).how == Waiting
    requires Reads(script, avail, want, errnoDecides).rest == []
    ensures
      var r := Reads(script, avail, want, errnoDecides);
      && r.left <= avail < r.left + want
      && Reads(script + more, avail, want, errnoDecides) == Reads(more, r.left, r.left + want - avail, errnoDecides)
    decreases |script|
  {
    if script == [] {
      assert script + more == more;
    } else {
      var k := if script[0].Deliver? then Taken(script[0].n, want, avail) else 0;
      ReadsGoOn(script[1..], more, avail - k, want - k, errnoDecides);
      assert (script + more)[0] == script[0] && (script + more)[1..] == script[1..] + more;
    }
  }

  /** The outcome is a short or failed read whose errno says no, met with so many bytes come in and so
      many wanted. */
  predicate GivesUp(o: RecvOutcome, avail: nat, want: nat) {
    !o.Eof? && !o.retry && (o.Deliver? ==> 0 < avail && Taken(o.n, want, avail) < want)
  }

  /** After the calls of `before`, all of them made and the header still incomplete, this one gives up. */
  ghost predicate GivesUpAfter(before: seq<RecvOutcome>, o: RecvOutcome, avail: nat) {
    var r := HeaderReading(before, avail);
    r.how == Waiting && r.rest == [] && r.left <= avail < r.left + 4 && GivesUp(o, r.left, r.left + 4 - avail)
  }

  /** That ends the header there, with what the call has brought. */
  lemma GivingUpCuts(before: seq<RecvOutcome>, o: RecvOutcome, after: seq<RecvOutcome>, avail: nat)
    requires GivesUpAfter(before, o, avail)
    ensures
      var r := HeaderReading(before, avail);
      var k := if o.Deliver? then Taken(o.n, r.left + 4 - avail, r.left) else 0;
      HeaderReading(before + ([o] + after), avail) == Reading(Cut, after, r.left - k)
  {
    ReadsGoOn(before, [o] + after, avail, 4, true);
  }

  lemma {:induction false} CutGaveUp(script: seq<RecvOutcome>, avail: nat, want: nat) returns (i: nat)
    requires 0 < want && Reads(script, avail, want, true).how == Cut
    ensures i < |script|
    ensures
      var r := Reads(script[..i], avail, want, true);
      && r.how == Waiting && r.rest == [] && r.left <= avail < r.left + want
      && GivesUp(script[i], r.left, r.left + want - avail)
    decreases |script|
  {
    var k := if script[0].Deliver? then Taken(script[0].n, want, avail) else 0;
    if GivesUp(script[0], avail, want) {
      i := 0;
    } else {
      var j := CutGaveUp(script[1..], avail - k, want - k);
      i := j + 1;
      assert script[..i][0] == script[0] && script[..i][1..] == script[1..][..j];
    }
  }

  /** A header is cut if and only if, while it is incomplete, a read is short or fails and errno says no. */
  lemma CutIffGivenUp(script: seq<RecvOutcome>, avail: nat)
    ensures HeaderReading(script, avail).how == Cut
       <==> exists i :: 0 <= i < |script| && GivesUpAfter(script[..i], script[i], avail)
  {
    if HeaderReading(script, avail).how == Cut {
      var i := CutGaveUp(script, avail, 4);
      assert GivesUpAfter(script[..i], script[i], avail);
    }
    if i :| 0 <= i < |script| && GivesUpAfter(script[..i], script[i], avail) {
      GivingUpCuts(script[..i], script[i], script[i + 1..], avail);
      assert script == script[..i] + ([script[i]] + script[i + 1..]);
    }
  }

  /** While the messages are read one after the other, no header is cut; nor is the header looked for
      after the last one. */
  predicate HeadersUncut(script: seq<RecvOutcome>, ms: seq<string>)
    decreases |ms|
  {
    var header := HeaderReading(script, |Frames(ms)|);
    && header.how != Cut
    && (ms != [] && header.how == Whole ==>
          var payload := Reads(header.rest, header.left, |ms[0]|, false);
          payload.how == Whole ==> HeadersUncut(payload.rest, ms[1..]))
  }

  /** With calls enough for the whole stream, the first message is read in full, and there are calls
      enough for the others. */
  lemma FirstArrives(script: seq<RecvOutcome>, ms: seq<string>)
    requires ms != [] && Sendable(ms) && NoEof(script) && |Frames(ms)| <= Delivers(script)
    requires HeaderReading(script, |Frames(ms)|).how != Cut
    ensures
      var header := HeaderReading(script, |Frames(ms)|);
      var payload := Reads(header.rest, header.left, |ms[0]|, false);
      && header.how == Whole && payload.how == Whole
      && NoEof(payload.rest) && |Frames(ms[1..])| <= Delivers(payload.rest)
  {
    var header := HeaderReading(script, |Frames(ms)|);
    FirstFrame(ms);
    ReadsBounds(script, |Frames(ms)|, 4, true);
    ReadsBounds(header.rest, header.left, |ms[0]|, false);
  }

  /** What happens to each message of an ordinary run: its header arrives in one piece, its payload in
      any pieces and with any failures between them. Errno may be anything at all. */
  datatype Arrival = Arrival(header: RecvOutcome, payload: seq<RecvOutcome>)

  ghost predicate Arrives(a: Arrival, m: string) {
    && a.header.Deliver? && 4 <= a.header.n
    && Reads(a.payload, |m|, |m|, false) == Reading(Whole, [], 0)
  }

  function ScriptOf(arrivals: seq<Arrival>): seq<RecvOutcome> {
    if arrivals == [] then []
    else [arrivals[0].header] + (arrivals[0].payload + ScriptOf(arrivals[1..]))
  }

  /** Reads of a payload that is there leave what comes behind it alone. */
  lemma {:induction false} PayloadThenMore(script: seq<RecvOutcome>, more: seq<RecvOutcome>, want: nat, extra: nat)
    requires Reads(script, want, want, false) == Reading(Whole, [], 0)
    ensures Reads(script + more, want + extra, want, false) == Reading(Whole, more, extra)
    decreases |script|
  {
    if want == 0 {
      assert script + more == more;
    } else {
      var k := if script[0].Deliver? then Taken(script[0].n, want, want) else 0;
      assert Reads(script[1..], want - k, want - k, false) == Reading(Whole, [], 0);
      PayloadThenMore(script[1..], more, want - k, extra);
      assert (script + more)[0] == script[0] && (script + more)[1..] == script[1..] + more;
    }
  }

  /** Headers that arrive in one piece are never cut. */
  lemma {:induction false} OrdinaryRunsAreUncut(arrivals: seq<Arrival>, ms: seq<string>)
    requires |arrivals| == |ms| && Sendable(ms)
    requires forall i :: 0 <= i < |ms| ==> Arrives(arrivals[i], ms[i])
    ensures HeadersUncut(ScriptOf(arrivals), ms)
    decreases |ms|
  {
    if ms != [] {
      FirstFrame(ms);
      var rest := ScriptOf(arrivals[1..]);
      var behind := arrivals[0].payload + rest;
      assert ScriptOf(arrivals)[1..] == behind;
      assert Taken(arrivals[0].header.n, 4, |Frames(ms)|) == 4;
      assert Reads(behind, |Frames(ms)| - 4, 0, true) == Reading(Whole, behind, |Frames(ms)| - 4);
      assert HeaderReading(ScriptOf(arrivals), |Frames(ms)|) == Reading(Whole, behind, |Frames(ms)| - 4);
      assert Arrives(arrivals[0], ms[0]);
      PayloadThenMore(arrivals[0].payload, rest, |ms[0]|, |Frames(ms[1..])|);
      OrdinaryRunsAreUncut(arrivals[1..], ms[1..]);
    }
  }

  /** What send_to_fd comes to with so many bytes to go: its result, the script left over, and how many
      of the bytes have gone out. */
  datatype Sending = Sending(rc: SendRc, rest: seq<SendOutcome>, sent: nat)

  function Sends(script: seq<SendOutcome>, sent: nat, len: nat): (r: Sending)
    requires sent <= len
    ensures sent <= r.sent <= len
    ensures r.rc.Total? <==> r.sent == len
  {
    if sent == len then Sending(Total(len), script, sent)
    else if script == [] then Sending(Blocked, script, sent)
    else if Fatal(script[0]) then Sending(Failure, script[1..], sent)
    else if script[0] == Again then Sends(script[1..], sent, len)
    else Sends(script[1..], if script[0].n < len - sent then sent + script[0].n else len, len)
  }

  class Sender {
    var wire: string
    var script: seq<SendOutcome>
    var up: bool

    constructor (script: seq<SendOutcome>)
      ensures wire == "" && up && this.script == script
    {
      this.wire := "";
      this.script := script;
      this.up := true;
    }

    /** The loop over partial sends. What is on the wire afterwards is a prefix of the buffer, and
        all of it exactly when the call returns its length. It fails exactly at its first fatal
        outcome. Each accepting call brings the wire at least one byte, so without failures the call
        can only be short of calls. `used` counts the system calls made. */
    method SendToFd(buf: string, len: nat) returns (rc: SendRc, ghost used: nat)
      requires len <= |buf|
      modifies this`wire, this`script
      ensures used <= |old(script)| && script == old(script)[used..]
      ensures forall i :: 0 <= i < used - 1 ==> !Fatal(old(script)[i])
      ensures rc == Failure <==> used > 0 && Fatal(old(script)[used - 1])
      ensures |old(wire)| <= |wire| <= |old(wire)| + len
      ensures wire == old(wire) + buf[..|wire| - |old(wire)|]
      ensures rc == Total(len) <==> wire == old(wire) + buf[..len]
      ensures rc.Total? ==> rc.n == len
      ensures NoRefusal(old(script)) ==>
        && NoRefusal(script) && rc != Failure
        && Accepts(old(script)) + |old(wire)| <= Accepts(script) + |wire|
      ensures rc == Blocked ==> script == []
      ensures Sends(old(script), 0, len) == Sending(rc, script, |wire| - |old(wire)|)
    {
      var totalSent := 0;
      used := 0;
      while totalSent < len
        invariant used <= |old(script)| && script == old(script)[used..]
        invariant forall i :: 0 <= i < used ==> !Fatal(old(script)[i])
        invariant 0 <= totalSent <= len && wire == old(wire) + buf[..totalSent]
        invariant Sends(old(script), 0, len) == Sends(script, totalSent, len)
        invariant NoRefusal(old(script)) ==>
          NoRefusal(script) && Accepts(old(script)) <= Accepts(script) + totalSent
        decreases |script|
      {
        if script == [] {
          return Blocked, used;
        }
        var outcome := script[0];
        script := script[1..];
        used := used + 1;
        match outcome {
          case Again =>
          case Refuse => return Failure, used;
          case Accept(n) =>
            if n == 0 {
              return Failure, used;
            }
            var sent := if n < len - totalSent then n else len - totalSent;
            wire := wire + buf[totalSent..totalSent + sent];
            assert buf[..totalSent] + buf[totalSent..totalSent + sent] == buf[..totalSent + sent];
            totalSent := totalSent + sent;
        }
      }
      return Total(totalSent), used;
    }

    /** One turn of the send worker: header, then payload, even if the header failed, and the connection
        marked down when either fails. If it still counts as up and no call is blocked, the whole frame went out. */
    method SendMessage(m: string) returns (finished: bool)
      requires |m| <= MAX_LEN
      modifies this
      ensures up ==> old(up)
      ensures up && finished ==> wire == old(wire) + Frame(m)
      ensures NoRefusal(old(script)) ==>
        && NoRefusal(script) && up == old(up)
        && Accepts(old(script)) + |old(wire)| <= Accepts(script) + |wire|
      ensures !finished ==> script == [] && |wire| < |old(wire)| + |Frame(m)|
      ensures
        var header := Sends(old(script), 0, |Header(|m|)|);
        if header.rc == Blocked then
          !finished && up == old(up) && wire == old(wire) + Header(|m|)[..header.sent]
        else
          var payload := Sends(header.rest, 0, |m|);
          && finished == (payload.rc != Blocked) && script == payload.rest
          && up == (old(up) && header.rc != Failure && payload.rc != Failure)
          && wire == old(wire) + Header(|m|)[..header.sent] + m[..payload.sent]
    {
      var msglen := Header(|m|);
      HeaderFitsIff(|m|);
      var rc, used := SendToFd(msglen, |msglen|);
      if rc == Blocked {
        return false;
      }
      if rc == Failure {
        up := false;
      }
      rc, used := SendToFd(m, |m|);
      if rc == Failure {
        up := false;
      }
      return rc != Blocked;
    }

    /** The send worker on one connection: messages go out in order for as long as it stays up. With
        no failures and at least one accepting call for each byte, all of them do. */
    method SendAll(ms: seq<string>) returns (done: nat)
      requires Sendable(ms) && up
      modifies this
      ensures done <= |ms| && (done == |ms| ==> up && wire == old(wire) + Frames(ms))
      ensures NoRefusal(old(script)) && |Frames(ms)| <= Accepts(old(script)) ==> done == |ms|
    {
      done := 0;
      ghost var rest := ms;
      while done < |ms|
        invariant 0 <= done <= |ms| && up && rest == ms[done..]
        invariant wire + Frames(rest) == old(wire) + Frames(ms)
        invariant NoRefusal(old(script)) && |Frames(ms)| <= Accepts(old(script)) ==>
          NoRefusal(script) && |Frames(rest)| <= Accepts(script)
      {
        ghost var before := wire;
        var finished := SendMessage(ms[done]);
        if !up || !finished {
          return;
        }
        NextFrame(before, rest);
        rest := rest[1..];
        done := done + 1;
      }
    }
  }

  lemma NextFrame(sent: string, ms: seq<string>)
    requires ms != []
    ensures sent + Frames(ms) == sent + Frame(ms[0]) + Frames(ms[1..])
    ensures |Frames(ms)| == |Frame(ms[0])| + |Frames(ms[1..])|
  {
    assert Frames(ms) == Frame(ms[0]) + Frames(ms[1..]);
  }

  lemma MoveHead<T>(s: seq<T>, t: seq<T>)
    requires t != []
    ensures s + t == (s + [t[0]]) + t[1..]
  {
  }

  /** How a read ended, by what its last call gave. */
  function EndingOf(full: bool, last: Chunk): Ending {
    if full then Whole
    else match last
      case Wait => Waiting
      case NoMore => Closed
      case Data(_, _) => Cut
      case Err(_) => Cut
  }

  class Receiver {
    var inbox: string
    var script: seq<RecvOutcome>

    constructor (inbox: string, script: seq<RecvOutcome>)
      ensures this.inbox == inbox && this.script == script
    {
      this.inbox := inbox;
      this.script := script;
    }

    /** One recv call: some of the bytes that have come in, and never more than wanted. */
    method Recv(want: nat) returns (c: Chunk)
      requires 0 < want
      modifies this
      ensures c == Wait <==> old(script) == [] || (old(script)[0].Deliver? && old(inbox) == [])
      ensures c == Wait ==> script == old(script)
      ensures c != Wait ==> script == old(script)[1..] && Yields(old(script)[0], c)
      ensures c.Data? ==>
        && 0 < |c.bytes| == Taken(old(script)[0].n, want, |old(inbox)|) <= want
        && old(inbox) == c.bytes + inbox
      ensures !c.Data? ==> inbox == old(inbox)
    {
      if script == [] {
        return Wait;
      }
      match script[0] {
        case Eof =>
          script := script[1..];
          return NoMore;
        case Error(retry) =>
          script := script[1..];
          return Err(retry);
        case Deliver(n, retry) =>
          if inbox == [] {
            return Wait;
          }
          script := script[1..];
          var k := Taken(n, want, |inbox|);
          c := Data(inbox[..k], retry);
          inbox := inbox[k..];
      }
    }

    /** Reads the length header into `lenbuf`; `c` is what the last call gave. */
    method ReadHeader() returns (lenbuf: string, c: Chunk)
      modifies this
      ensures old(inbox) == lenbuf + inbox && |lenbuf| <= 4
      ensures HeaderReading(old(script), |old(inbox)|) == Reading(EndingOf(|lenbuf| == 4, c), script, |inbox|)
    {
      var totalSize := 4;
      lenbuf := "";
      while true
        invariant 0 < totalSize && |lenbuf| + totalSize == 4
        invariant old(inbox) == lenbuf + inbox
        invariant HeaderReading(old(script), |old(inbox)|) == Reads(script, |inbox|, totalSize, true)
        decreases |script|
      {
        c := Recv(totalSize);
        if c.Data? {
          lenbuf, totalSize := lenbuf + c.bytes, totalSize - |c.bytes|;
        }
        if c.Wait? || c.NoMore? || totalSize == 0 || !c.retry {
          return;
        }
      }
    }

    /** Reads `received` bytes of payload, unless the connection closes or a call blocks. A failed
        call is always tried again. */
    method ReadPayload(received: int) returns (body: string, c: Chunk)
      modifies this
      ensures old(inbox) == body + inbox && |body| <= Positive(received)
      ensures Reads(old(script), |old(inbox)|, Positive(received), false)
           == Reading(EndingOf(|body| == Positive(received), c), script, |inbox|)
    {
      body, c := "", Wait;
      while |body| < received
        invariant |body| <= Positive(received)
        invariant old(inbox) == body + inbox
        invariant Reads(old(script), |old(inbox)|, Positive(received), false)
               == Reads(script, |inbox|, Positive(received) - |body|, false)
        decreases |script|
      {
        c := Recv(received - |body|);
        match c {
          case Wait => return;
          case NoMore => return;
          case Err(_) =>
          case Data(bytes, _) => body := body + bytes;
        }
      }
    }

    /** `receive_from_fd`. `h` is the number of header characters read. Unless the connection closes or
        a call blocks, the returned body is the stretch of the stream that they announce. */
    method ReceiveFromFd() returns (r: Received, ghost h: nat)
      modifies this
      ensures
        var header := HeaderReading(old(script), |old(inbox)|);
        && h + header.left == |old(inbox)| && h <= 4
        && (h == 4 <==> header.how == Whole)
        && (header.how == Waiting ==> r == Pending && script == header.rest && |inbox| == header.left)
        && (header.how == Closed ==> r == Null && script == header.rest && |inbox| == header.left)
        && (header.how == Whole || header.how == Cut ==>
              var payload := Reads(header.rest, header.left, Positive(Atoi(old(inbox)[..h])), false);
              && script == payload.rest && |inbox| == payload.left
              && payload.how == match r case Message(_, _) => Whole case Null => Closed case Pending => Waiting)
      ensures r.Message? ==>
        && r.ret == Atoi(old(inbox)[..h])
        && |r.body| == Positive(r.ret)
        && old(inbox)[h..] == r.body + inbox
    {
      var lenbuf, c := ReadHeader();
      h := |lenbuf|;
      assert lenbuf == old(inbox)[..h];
      if |lenbuf| < 4 && c == Wait {
        return Pending, h;
      }
      if |lenbuf| < 4 && c == NoMore {
        return Null, h;
      }
      var received := Atoi(lenbuf);
      ghost var begun, come := script, inbox;
      var body;
      body, c := ReadPayload(received);
      ReadsBounds(begun, |come|, Positive(received), false);
      if |body| == Positive(received) {
        return Message(body, received), h;
      }
      return if c == Wait then Pending else Null, h;
    }

    /** Receiving from a stream of whole frames gives the first message and leaves the others, if and
        only if the header is not cut. */
    method ReceiveNext(ghost ms: seq<string>) returns (ok: bool, body: string)
      requires Sendable(ms) && inbox == Frames(ms)
      modifies this
      ensures ok ==>
        ((ms != [] && body == ms[0] && inbox == Frames(ms[1..]))
         <==> HeaderReading(old(script), |Frames(ms)|).how != Cut)
      ensures ok && HeadersUncut(old(script), ms) ==> HeadersUncut(script, ms[1..])
      ensures ms != [] && NoEof(old(script)) && |Frames(ms)| <= Delivers(old(script)) ==>
        HeaderReading(old(script), |Frames(ms)|).how != Cut ==>
        ok && NoEof(script) && |Frames(ms[1..])| <= Delivers(script)
    {
      ghost var begun := script;
      var r, h := ReceiveFromFd();
      ok, body := r.Message?, "";
      if ms != [] {
        FirstFrame(ms);
        if NoEof(begun) && |Frames(ms)| <= Delivers(begun) && HeaderReading(begun, |Frames(ms)|).how != Cut {
          FirstArrives(begun, ms);
        }
      }
      if ok {
        body := r.body;
        if ms != [] {
          RecoveredIffHeaderComplete(ms, h, body, inbox);
        }
      }
    }

    /** The receive worker: message after message, until a call blocks or the stream ends. */
    method ReceiveAll(ghost ms: seq<string>) returns (got: seq<string>)
      requires Sendable(ms) && inbox == Frames(ms) && HeadersUncut(script, ms)
      modifies this
      ensures got <= ms
      ensures NoEof(old(script)) && |Frames(ms)| <= Delivers(old(script)) ==> got == ms
    {
      got := [];
      ghost var rest := ms;
      while true
        invariant ms == got + rest && Sendable(rest) && inbox == Frames(rest) && HeadersUncut(script, rest)
        invariant NoEof(old(script)) && |Frames(ms)| <= Delivers(old(script)) ==>
          NoEof(script) && |Frames(rest)| <= Delivers(script)
        decreases |rest|
      {
        var ok, body := ReceiveNext(rest);
        if !ok {
          return;
        }
        MoveHead(got, rest);
        got, rest := got + [body], rest[1..];
      }
    }
  }

  /** End to end: for any messages within the length limit, whatever partial sends, retries and
      chunks the two sides meet, what is received is what was sent, message for message, as long as
      no header is cut. */
  method Transfer(ms: seq<string>, sends: seq<SendOutcome>, receives: seq<RecvOutcome>)
    returns (done: nat, got: seq<string>)
    requires Sendable(ms) && HeadersUncut(receives, ms)
    ensures done <= |ms|
    ensures done == |ms| ==> got <= ms
    ensures NoRefusal(sends) && |Frames(ms)| <= Accepts(sends) ==> done == |ms|
    ensures done == |ms| && NoEof(receives) && |Frames(ms)| <= Delivers(receives) ==> got == ms
  {
    var sender := new Sender(sends);
    done := sender.SendAll(ms);
    got := [];
    if done == |ms| {
      var receiver := new Receiver(sender.wire, receives);
      got := receiver.ReceiveAll(ms);
    }
  }
}
