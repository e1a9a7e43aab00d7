/** Messages on a byte stream: the two-byte length prefix of section 4.2.2 of RFC 1035, read back
    whatever way the network cuts the stream, and what the server puts behind the prefix. */
module Framing {
  import opened Dns
  import opened Edns

  type Byte = b: int | 0 <= b < 256

  type Bytes = seq<Byte>

  const MAX_MSG_SIZE: nat := 65535

  // ---- the prefix

  /** `byte(n >> 8), byte(n)`: the conversions to a byte drop the higher bits. */
  function Prefix(n: nat): Bytes {
    [(n / 256) % 256, n % 256]
  }

  function Announced(hi: Byte, lo: Byte): nat {
    hi * 256 + lo
  }

  /** The prefix wraps: it announces the length exactly when that fits sixteen bits. */
  lemma PrefixWraps(n: nat)
    ensures |Prefix(n)| == 2 && Announced(Prefix(n)[0], Prefix(n)[1]) == n % 65536
    ensures Announced(Prefix(n)[0], Prefix(n)[1]) == n <==> n <= MAX_MSG_SIZE
  {
    assert n / 65536 == n / 256 / 256;
    var h, l := n / 256, n % 256;
    assert n == h * 256 + l && h == h / 256 * 256 + h % 256;
    assert n % 65536 == (h % 256) * 256 + l by {
      assert n == (h / 256) * 65536 + ((h % 256) * 256 + l);
    }
  }

  // ---- a stream of frames

  function Encode(messages: seq<Bytes>): Bytes {
    if messages == [] then [] else Prefix(|messages[0]|) + messages[0] + Encode(messages[1..])
  }

  datatype End = CleanEof | ShortPrefix | ZeroLength | ShortBody

  /** What a reader takes from a stream, and how it stopped. */
  datatype Decoded = Decoded(messages: seq<Bytes>, end: End)

  function Decode(s: Bytes): Decoded
    decreases |s|
  {
    if s == [] then Decoded([], CleanEof)
    else if |s| == 1 then Decoded([], ShortPrefix)
    else
      var n := Announced(s[0], s[1]);
      if n == 0 then Decoded([], ZeroLength)
      else if |s| < 2 + n then Decoded([], ShortBody)
      else
        var d := Decode(s[2 + n..]);
        d.(messages := [s[2..2 + n]] + d.messages)
  }

  predicate Expressible(m: Bytes) {
    1 <= |m| <= MAX_MSG_SIZE
  }

  predicate AllExpressible(messages: seq<Bytes>) {
    forall i :: 0 <= i < |messages| ==> Expressible(messages[i])
  }

  lemma {:induction false} DecodedAreExpressible(s: Bytes)
    ensures AllExpressible(Decode(s).messages)
    decreases |s|
  {
    if |s| >= 2 {
      var n := Announced(s[0], s[1]);
      if n != 0 && |s| >= 2 + n {
        DecodedAreExpressible(s[2 + n..]);
      }
    }
  }

  /** One frame in front of a stream is read back whole, and the reader lands on the next frame. */
  lemma DecodeFrame(m: Bytes, tail: Bytes)
    requires Expressible(m)
    ensures var d := Decode(tail); Decode(Prefix(|m|) + m + tail) == d.(messages := [m] + d.messages)
  {
    hide Announced, Prefix;
    PrefixWraps(|m|);
    var s := Prefix(|m|) + m + tail;
    assert s[0] == Prefix(|m|)[0] && s[1] == Prefix(|m|)[1];
    assert s[2..2 + |m|] == m && s[2 + |m|..] == tail;
  }

  lemma {:induction false} DecodeEncode(messages: seq<Bytes>, tail: Bytes)
    requires AllExpressible(messages)
    ensures var d := Decode(tail); Decode(Encode(messages) + tail) == d.(messages := messages + d.messages)
  {
    hide Decode;
    if messages == [] {
      assert Encode(messages) + tail == tail;
      assert messages + Decode(tail).messages == Decode(tail).messages;
    } else {
      var m, rest := messages[0], messages[1..];
      DecodeEncode(rest, tail);
      DecodeFrame(m, Encode(rest) + tail);
      assert Encode(messages) + tail == Prefix(|m|) + m + (Encode(rest) + tail);
      assert messages + Decode(tail).messages == [m] + (rest + Decode(tail).messages);
    }
  }

  /** The round trip, with its exact domain: the frames come back one for one and every byte is
      consumed if and only if each message has between 1 and 65535 bytes. */
  lemma RoundTripIff(messages: seq<Bytes>)
    ensures Decode(Encode(messages)) == Decoded(messages, CleanEof) <==> AllExpressible(messages)
  {
    if AllExpressible(messages) {
      DecodeEncode(messages, []);
      assert Encode(messages) + [] == Encode(messages);
      assert messages + [] == messages;
    }
    DecodedAreExpressible(Encode(messages));
  }

  /** The other way round: any stream starts with the encoding of what was read from it, and one read
      to a clean end is that encoding, down to the last byte. */
  lemma {:induction false} EncodeDecode(s: Bytes)
    ensures var d := Decode(s); Encode(d.messages) <= s && (d.end == CleanEof ==> Encode(d.messages) == s)
    decreases |s|
  {
    hide Encode, Prefix, Announced;
    assert Encode([]) == [] by {
      EncodeNothing();
    }
    if |s| >= 2 {
      var n := Announced(s[0], s[1]);
      if n != 0 && |s| >= 2 + n {
        EncodeDecode(s[2 + n..]);
        FrontFrame(s, n, Decode(s[2 + n..]).messages);
      }
    }
  }

  lemma EncodeNothing()
    ensures Encode([]) == []
  {
  }

  lemma FrontFrame(s: Bytes, n: nat, later: seq<Bytes>)
    requires 2 + n <= |s| && n == Announced(s[0], s[1]) && Encode(later) <= s[2 + n..]
    ensures Encode([s[2..2 + n]] + later) <= s
    ensures Encode(later) == s[2 + n..] ==> Encode([s[2..2 + n]] + later) == s
  {
    hide Prefix, Announced;
    AnnouncedBack(s[0], s[1]);
    assert ([s[2..2 + n]] + later)[1..] == later;
    assert s == Prefix(n) + s[2..2 + n] + s[2 + n..];
  }

  lemma AnnouncedBack(hi: Byte, lo: Byte)
    ensures Prefix(Announced(hi, lo)) == [hi, lo]
  {
    assert Announced(hi, lo) / 256 == hi && Announced(hi, lo) % 256 == lo;
  }

  // ---- reading from a connection

  function Joined(segments: seq<Bytes>): Bytes {
    if segments == [] then [] else segments[0] + Joined(segments[1..])
  }

  /** A stream connection.  The network decides how the bytes are cut into segments. */
  class Conn {
    var incoming: seq<Bytes>
    var written: Bytes

    constructor (segments: seq<Bytes>)
      ensures incoming == segments && written == []
    {
      incoming, written := segments, [];
    }

    ghost function Pending(): Bytes
      reads this`incoming
    {
      Joined(incoming)
    }

    /** One read returns at most what one segment holds, often less than was asked for. */
    method Read(n: nat) returns (got: Bytes)
      requires n > 0
      modifies this`incoming
      ensures old(Pending()) == got + Pending() && |got| <= n
      ensures got == [] ==> Pending() == []
    {
      while incoming != [] && incoming[0] == []
        invariant Pending() == old(Pending())
        decreases |incoming|
      {
        incoming := incoming[1..];
      }
      if incoming == [] {
        return [];
      }
      var first := incoming[0];
      ghost var tail, rest := incoming[1..], Joined(incoming[1..]);
      assert Pending() == first + rest;
      if |first| <= n {
        incoming := incoming[1..];
        return first;
      }
      got := first[..n];
      incoming := [first[n..]] + incoming[1..];
      assert incoming[1..] == tail;
      assert Pending() == first[n..] + rest;
      assert first == got + first[n..];
    }

    /** `io.ReadFull`: the wanted bytes whatever the segments, or everything that was left. */
    method ReadFull(n: nat) returns (got: Bytes)
      modifies this`incoming
      ensures var was := old(Pending());
              if |was| >= n then got == was[..n] && Pending() == was[n..] else got == was && Pending() == []
    {
      ghost var was := Pending();
      got := [];
      while |got| < n
        invariant was == got + Pending() && |got| <= n
        decreases n - |got|
      {
        ghost var before, prior := Pending(), got;
        var more := Read(n - |got|);
        assert before == more + Pending();
        if more == [] {
          assert was == got + [];
          return;
        }
        got := got + more;
        assert was == prior + (more + Pending()) == got + Pending();
      }
    }

    /** The server's read loop: every framed message up to the first fault.  Where the network cuts
        the stream makes no difference to what is read. */
    method ReadMessages() returns (d: Decoded)
      modifies this`incoming
      ensures d == Decode(old(Pending()))
    {
      ghost var was := Pending();
      var messages: seq<Bytes> := [];
      while true
        invariant Decode(was) == (var r := Decode(Pending()); r.(messages := messages + r.messages))
        decreases |Pending()|
      {
        ghost var now := Pending();
        var lenBuf := ReadFull(2);
        if |lenBuf| < 2 {
          assert messages + [] == messages;
          return Decoded(messages, if lenBuf == [] then CleanEof else ShortPrefix);
        }
        var msgLen := Announced(lenBuf[0], lenBuf[1]);
        if msgLen == 0 {
          assert messages + [] == messages;
          return Decoded(messages, ZeroLength);
        }
        var msgBuf := ReadFull(msgLen);
        if |msgBuf| < msgLen {
          assert messages + [] == messages;
          return Decoded(messages, ShortBody);
        }
        assert now[2..][..msgLen] == now[2..2 + msgLen] && now[2..][msgLen..] == now[2 + msgLen..];
        ghost var r := Decode(Pending());
        assert Decode(now).messages == [msgBuf] + r.messages;
        assert messages + ([msgBuf] + r.messages) == (messages + [msgBuf]) + r.messages;
        messages := messages + [msgBuf];
      }
    }

    method WriteFrame(buf: Bytes)
      modifies this`written
      ensures written == old(written) + Encode([buf])
    {
      written := written + Prefix(|buf|);
      written := written + buf;
      assert Encode([buf]) == Prefix(|buf|) + buf + [];
    }

    /** One message: the first that `Decode` finds, leaving the connection at the next one. */
    method ReadMessage() returns (m: Option<Bytes>)
      modifies this`incoming
      ensures var d := Decode(old(Pending()));
              if d.messages == [] then m == None
              else m == Some(d.messages[0]) && Decode(Pending()) == d.(messages := d.messages[1..])
    {
      ghost var was := Pending();
      var lenBuf := ReadFull(2);
      if |lenBuf| < 2 {
        return None;
      }
      var msgLen := Announced(lenBuf[0], lenBuf[1]);
      if msgLen == 0 {
        return None;
      }
      var msgBuf := ReadFull(msgLen);
      if |msgBuf| < msgLen {
        return None;
      }
      assert was[2..][..msgLen] == was[2..2 + msgLen] && was[2..][msgLen..] == was[2 + msgLen..];
      return Some(msgBuf);
    }

    /** The client's exchange, one at a time on a connection.  A query the prefix cannot express is
        refused before anything is written; a reply is accepted exactly when it is the next message on
        the connection, unpacks, and carries the query's ID.  Any other outcome closes the connection. */
    method Exchange(pack: Packer, unpack: Bytes -> Option<Msg>, query: Msg, wrote: bool) returns (reply: Option<Msg>, closed: bool)
      modifies this
      ensures var buf := pack(query);
              var d := Decode(old(Pending()));
              var sendable := buf.Some? && |buf.value| <= MAX_MSG_SIZE;
              && (!sendable ==> reply == None && !closed && incoming == old(incoming) && written == old(written))
              && (sendable && !wrote ==> reply == None && closed)
              && (sendable && wrote ==>
                    && written == old(written) + Encode([buf.value])
                    && (if d.messages != [] && unpack(d.messages[0]).Some? && unpack(d.messages[0]).value.id == query.id
                        then reply == unpack(d.messages[0]) && !closed && Decode(Pending()) == d.(messages := d.messages[1..])
                        else reply == None && closed))
    {
      var buf := pack(query);
      if buf.None? || |buf.value| > MAX_MSG_SIZE {
        return None, false;
      }
      if !wrote {
        return None, true;
      }
      WriteFrame(buf.value);
      var m := ReadMessage();
      if m.None? {
        return None, true;
      }
      var resp := unpack(m.value);
      if resp.None? || resp.value.id != query.id {
        return None, true;
      }
      return resp, false;
    }
  }

  // ---- what goes behind the prefix

  /** Packing is a parameter; it may fail, and it does not limit its output. */
  type Packer = Msg -> Option<Bytes>

  function Oversize(query: Msg): Msg {
    Normalized(Synthesized(query, RCODE_SERVER_FAILURE), query)
  }

  /** The message a stream transport sends: the reply, or a SERVFAIL in place of one too long. */
  function Carried(pack: Packer, response: Msg, query: Msg): Msg {
    if pack(response).Some? && |pack(response).value| > MAX_MSG_SIZE then Oversize(query) else response
  }

  method PackStream(pack: Packer, response: Msg, query: Msg) returns (buf: Option<Bytes>, replaced: bool)
    ensures buf == pack(Carried(pack, response, query))
    ensures replaced <==> pack(response).Some? && |pack(response).value| > MAX_MSG_SIZE
  {
    buf := pack(response);
    if buf.None? || |buf.value| <= MAX_MSG_SIZE {
      return buf, false;
    }
    var servfail := new Message(Synthesized(query, RCODE_SERVER_FAILURE));
    EnsureResponseEDNS(servfail, query);
    buf := pack(servfail.m);
    return buf, true;
  }

  /** Uncompressed size of a name: a length octet per label and the root's empty label. */
  function NameSize(name: Name): nat {
    if name == ROOT then 1 else |name| + 1
  }

  function QuestionsSize(qs: seq<Question>): nat {
    if qs == [] then 0 else QuestionsSize(qs[..|qs| - 1]) + NameSize(qs[|qs| - 1].name) + 4
  }

  /** What is assumed of packing: a message of questions and at most one bare OPT takes its header,
      its names uncompressed with type and class, and eleven bytes for the OPT; names over 255 octets
      do not pack. */
  ghost predicate Packs(pack: Packer) {
    forall m :: pack(m).Some? && m.answer == [] && m.authority == [] && BareOpt(m.additional) ==>
      |pack(m).value| == 12 + QuestionsSize(m.question) + 11 * |m.additional| && forall q :: q in m.question ==> NameSize(q.name) <= 255
  }

  predicate BareOpt(rrs: seq<RR>) {
    |rrs| <= 1 && forall rr :: rr in rrs ==> rr.OptRR? && rr.options == []
  }

  lemma OversizeShape(query: Msg)
    ensures var m := Oversize(query);
            && m.question == query.question && m.answer == [] && m.authority == []
            && BareOpt(m.additional) && |m.additional| == (if HasOpt(query) then 1 else 0)
  {
    var s := Synthesized(query, RCODE_SERVER_FAILURE);
    assert Filter(NotDnssec, s.answer) == [] && Filter(NotOpt, s.additional) == [] && LastOpt(s.additional).None?;
  }

  /** The room the SERVFAIL replacement needs, which a caller can compute from the query. */
  function EchoSize(query: Msg): nat {
    12 + QuestionsSize(query.question) + (if HasOpt(query) then 11 else 0)
  }

  /** The prefix tells the truth about what is sent exactly when the reply itself fits or the echoed
      questions do. */
  lemma PrefixIsHonestIff(pack: Packer, response: Msg, query: Msg)
    requires Packs(pack) && pack(Carried(pack, response, query)).Some?
    ensures |pack(Carried(pack, response, query)).value| <= MAX_MSG_SIZE <==>
            |pack(response).value| <= MAX_MSG_SIZE || EchoSize(query) <= MAX_MSG_SIZE
  {
    hide Oversize, QuestionsSize;
    OversizeShape(query);
  }

  /** With one question, as every query beyond the FORMERR check has, the prefix is always honest. */
  lemma OneQuestionAlwaysFits(pack: Packer, response: Msg, query: Msg)
    requires Packs(pack) && |query.question| == 1
    ensures var buf := pack(Carried(pack, response, query)); buf.Some? ==> |buf.value| <= MAX_MSG_SIZE
  {
    hide Oversize;
    OversizeShape(query);
    assert query.question[0] in query.question;
    assert query.question[..0] == [];
    assert QuestionsSize(query.question) == NameSize(query.question[0].name) + 4;
  }

  lemma {:induction false} RepeatedSize(q: Question, n: nat)
    ensures QuestionsSize(seq(n, i => q)) == n * (NameSize(q.name) + 4)
  {
    if n > 0 {
      RepeatedSize(q, n - 1);
      assert seq(n, i => q)[..n - 1] == seq(n - 1, i => q);
    }
  }

  /** For the FORMERR itself it need not be: 9361 questions for one short name, which fit a message
      when their names are compressed, are echoed uncompressed, the SERVFAIL that replaces the oversized
      FORMERR echoes them again, and the prefix announces 3 bytes. */
  lemma ManyQuestionsWrap(pack: Packer, query: Msg)
    requires Packs(pack) && query.question == seq(9361, i => Question("a.", 1, 1)) && query.additional == []
    requires var formErr := Synthesized(query, RCODE_FORMAT_ERROR); pack(formErr).Some? && pack(Carried(pack, formErr, query)).Some?
    ensures var buf := pack(Carried(pack, Synthesized(query, RCODE_FORMAT_ERROR), query)).value;
            |buf| == 65539 && Announced(Prefix(|buf|)[0], Prefix(|buf|)[1]) == 3
  {
    hide Oversize, QuestionsSize;
    var formErr := Synthesized(query, RCODE_FORMAT_ERROR);
    RepeatedSize(Question("a.", 1, 1), 9361);
    OversizeShape(query);
    assert EchoSize(query) == 65539;
    assert |pack(formErr).value| == 65539;
  }
}
