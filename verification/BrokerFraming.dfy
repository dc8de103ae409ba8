/** The length-prefixed messages of the live broker script, read from a stream that delivers
    bytes in whatever pieces it likes. */
module BrokerFraming {
  import opened Outcomes
  import opened MarkerCodec

  const LARGEST_BODY: nat := 256

  datatype Message = Message(version: nat, tag: nat, body: seq<Byte>)

  datatype ReadError = ClosedEarly | InvalidSize

  /** A message that the format can carry at all. */
  predicate Packable(m: Message) {
    m.version < 0x1_0000 && m.tag < 0x100 && |m.body| + 3 < 0x1_0000_0000
  }

  function Pack16(v: nat): seq<Byte>
    requires v < 0x1_0000
  {
    [(v % 256) as Byte, (v / 256) as Byte]
  }

  function Pack32(v: nat): seq<Byte>
    requires v < 0x1_0000_0000
  {
    Pack16(v % 0x1_0000) + Pack16(v / 0x1_0000)
  }

  function Unpack16(bytes: seq<Byte>): (v: nat)
    requires |bytes| == 2
    ensures v < 0x1_0000
  {
    bytes[0] as int + 256 * (bytes[1] as int)
  }

  function Unpack32(bytes: seq<Byte>): nat
    requires |bytes| == 4
  {
    Unpack16(bytes[..2]) + 0x1_0000 * Unpack16(bytes[2..])
  }

  lemma PackedNumbers(v: nat)
    ensures v < 0x1_0000 ==> Unpack16(Pack16(v)) == v
    ensures v < 0x1_0000_0000 ==> Unpack32(Pack32(v)) == v
  {
  }

  /** message: the bytes of one message. */
  function Encode(m: Message): (bytes: seq<Byte>)
    requires Packable(m)
    ensures |bytes| == 7 + |m.body|
  {
    Pack32(|m.body| + 3) + Pack16(m.version) + [m.tag as Byte] + m.body
  }

  /** The bytes of a message: the size of what follows it in four bytes, the version in two, the
      tag in one, low bytes first, and the body. */
  lemma MessageBytes(m: Message)
    requires Packable(m)
    ensures var bytes, size := Encode(m), |m.body| + 3;
            && bytes[0] as int == size % 256
            && bytes[1] as int == size / 256 % 256
            && bytes[2] as int == size / 65536 % 256
            && bytes[3] as int == size / 16777216
            && bytes[4] as int == m.version % 256 && bytes[5] as int == m.version / 256
            && bytes[6] as int == m.tag
            && bytes[7..] == m.body
  {
  }

  predicate AllPackable(messages: seq<Message>) {
    forall i | 0 <= i < |messages| :: Packable(messages[i])
  }

  function EncodeAll(messages: seq<Message>): seq<Byte>
    requires AllPackable(messages)
  {
    if messages == [] then []
    else EncodeAll(messages[..|messages| - 1]) + Encode(messages[|messages| - 1])
  }

  // ---------------------------------------------------------------- what a reply must be

  /** The first reply in the bytes still to come, and how many bytes reading it consumes. */
  function Parsed(bytes: seq<Byte>): (reply: (Result<Message, ReadError>, nat))
    ensures reply.1 <= |bytes|
  {
    if |bytes| < 4 then (Err(ClosedEarly), |bytes|)
    else
      var size := Unpack32(bytes[..4]);
      if !(3 <= size <= 259) then (Err(InvalidSize), 4)
      else if |bytes| < 4 + size then (Err(ClosedEarly), |bytes|)
      else
        (Ok(Message(Unpack16(bytes[4..6]), bytes[6] as int, bytes[7..4 + size])), 4 + size)
  }

  /** A message is read back, and only its bytes are consumed, exactly when its body is at most
      256 bytes; a longer one is refused after its length. */
  lemma ReplyIsTheMessage(m: Message, rest: seq<Byte>)
    requires Packable(m)
    ensures Parsed(Encode(m) + rest)
         == if |m.body| <= LARGEST_BODY then (Ok(m), |Encode(m)|) else (Err(InvalidSize), 4)
  {
  }

  /** Any stream that ends inside a message of legal size is an error. */
  lemma TruncatedReplyFails(m: Message, cut: nat)
    requires Packable(m) && |m.body| <= LARGEST_BODY && cut < |Encode(m)|
    ensures Parsed(Encode(m)[..cut]) == (Err(ClosedEarly), cut)
  {
    var bytes := Encode(m)[..cut];
    if cut >= 4 {
      PackedNumbers(|m.body| + 3);
      assert bytes[..4] == Pack32(|m.body| + 3);
    }
  }

  // ---------------------------------------------------------------- the socket

  function Clamp(v: nat, low: nat, high: nat): (c: nat)
    requires low <= high
    ensures low <= c <= high
  {
    if v < low then low else if v > high then high else v
  }

  /** The bytes the peer sends before it closes, how many were received, and the size of each
      piece, which the script has no say in. */
  class Peer {
    const incoming: seq<Byte>
    const pieces: nat -> nat
    var received: nat
    var calls: nat

    ghost predicate Valid()
      reads this
    {
      received <= |incoming|
    }

    ghost function Rest(): seq<Byte>
      requires Valid()
      reads this
    {
      incoming[received..]
    }

    constructor (incoming: seq<Byte>, pieces: nat -> nat)
      ensures Valid() && received == 0
      ensures this.incoming == incoming && this.pieces == pieces
    {
      this.incoming, this.pieces, received, calls := incoming, pieces, 0, 0;
    }

    /** recv: some bytes, at most count; nothing only at the end of the stream. */
    method Receive(count: nat) returns (part: seq<Byte>)
      requires Valid() && count > 0
      modifies this
      ensures Valid() && received == old(received) + |part|
      ensures |part| <= count && part == incoming[old(received)..received]
      ensures part == [] <==> old(received) == |incoming|
    {
      var left := |incoming| - received;
      var n := if left == 0 then 0 else Clamp(pieces(calls), 1, if left < count then left else count);
      part := incoming[received..received + n];
      received, calls := received + n, calls + 1;
    }

    /** exact: all the bytes asked for, or an error with everything consumed. */
    method Exact(count: nat) returns (r: Result<seq<Byte>, ReadError>)
      requires Valid()
      modifies this
      ensures Valid()
      ensures |incoming| - old(received) >= count ==>
                r == Ok(incoming[old(received)..old(received) + count]) && received == old(received) + count
      ensures |incoming| - old(received) < count ==> r == Err(ClosedEarly) && received == |incoming|
    {
      var bytes: seq<Byte> := [];
      while |bytes| < count
        invariant Valid() && |bytes| <= count
        invariant received == old(received) + |bytes|
        invariant bytes == incoming[old(received)..received]
        decreases count - |bytes|
      {
        var part := Receive(count - |bytes|);
        if part == [] {
          return Err(ClosedEarly);
        }
        bytes := bytes + part;
      }
      r := Ok(bytes);
    }

    /** reply. */
    method Reply() returns (r: Result<Message, ReadError>)
      requires Valid()
      modifies this
      ensures Valid()
      ensures (r, received - old(received)) == Parsed(old(Rest()))
    {
      ghost var rest := Rest();
      var head := Exact(4);
      if head.Err? {
        return Err(head.error);
      }
      assert head.value == rest[..4];
      var size := Unpack32(head.value);
      if !(3 <= size <= 259) {
        return Err(InvalidSize);
      }
      var data := Exact(size);
      if data.Err? {
        return Err(data.error);
      }
      assert data.value == rest[4..4 + size];
      assert data.value[..2] == rest[4..6] && data.value[3..] == rest[7..4 + size];
      r := Ok(Message(Unpack16(data.value[..2]), data.value[2] as int, data.value[3..]));
    }
  }

  // ---------------------------------------------------------------- a whole conversation

  predicate Legal(messages: seq<Message>) {
    AllPackable(messages) && forall i | 0 <= i < |messages| :: |messages[i].body| <= LARGEST_BODY
  }

  lemma {:induction false} FirstMessagesFirst(messages: seq<Message>, n: nat)
    requires AllPackable(messages) && n <= |messages|
    ensures EncodeAll(messages[..n]) <= EncodeAll(messages)
  {
    if n == |messages| {
      assert messages[..n] == messages;
    } else {
      var init := messages[..|messages| - 1];
      FirstMessagesFirst(init, n);
      assert init[..n] == messages[..n];
    }
  }

  lemma EncodeOneMore(messages: seq<Message>, n: nat)
    requires AllPackable(messages) && n < |messages|
    ensures EncodeAll(messages[..n + 1]) == EncodeAll(messages[..n]) + Encode(messages[n])
  {
    assert messages[..n + 1][..n] == messages[..n];
  }

  /** The streams agree as far as both go. */
  predicate Agree(a: seq<Byte>, b: seq<Byte>) { a <= b || b <= a }

  lemma AgreeingPieces(before: seq<Byte>, piece: seq<Byte>, stream: seq<Byte>, incoming: seq<Byte>)
    requires before + piece <= stream && Agree(stream, incoming) && |before| <= |incoming|
    ensures var rest, whole := incoming[|before|..], |before| + |piece|;
            if whole <= |incoming| then rest == piece + incoming[whole..]
            else |rest| < |piece| && rest == piece[..|rest|]
  {
  }

  /** What is left of the stream before message n is read. */
  lemma RestBeforeMessage(messages: seq<Message>, incoming: seq<Byte>, n: nat)
    requires AllPackable(messages) && n < |messages| && Agree(EncodeAll(messages), incoming)
    requires |EncodeAll(messages[..n])| <= |incoming|
    ensures var rest, whole, encoded :=
              incoming[|EncodeAll(messages[..n])|..], |EncodeAll(messages[..n + 1])|, Encode(messages[n]);
            && whole == |EncodeAll(messages[..n])| + |encoded|
            && whole <= |EncodeAll(messages)|
            && (if whole <= |incoming| then rest == encoded + incoming[whole..]
                else |rest| < |encoded| && rest == encoded[..|rest|])
  {
    var m := n + 1;
    FirstMessagesFirst(messages, m);
    EncodeOneMore(messages, n);
    AgreeingPieces(EncodeAll(messages[..n]), Encode(messages[n]), EncodeAll(messages), incoming);
  }

  /** Repeated replies give back exactly the messages that were sent, in order, and consume
      exactly their bytes, whatever pieces the stream came in. When the stream ends before the
      last message does, the whole messages come first and then an error. */
  method ReadConversation(peer: Peer, count: nat, ghost messages: seq<Message>)
    returns (replies: seq<Message>, error: Option<ReadError>)
    requires Legal(messages) && count == |messages| && peer.Valid() && peer.received == 0
    requires Agree(EncodeAll(messages), peer.incoming)
    modifies peer
    ensures peer.Valid()
    ensures EncodeAll(messages) <= peer.incoming ==>
              error == None && replies == messages && peer.received == |EncodeAll(messages)|
    ensures peer.incoming < EncodeAll(messages) ==>
              error == Some(ClosedEarly) && replies < messages && peer.received == |peer.incoming|
  {
    replies := [];
    for n := 0 to count
      invariant peer.Valid() && replies == messages[..n]
      invariant peer.received == |EncodeAll(messages[..n])|
    {
      RestBeforeMessage(messages, peer.incoming, n);
      ghost var rest, whole := peer.Rest(), |EncodeAll(messages[..n + 1])|;
      if whole <= |peer.incoming| {
        ReplyIsTheMessage(messages[n], peer.incoming[whole..]);
      } else {
        TruncatedReplyFails(messages[n], |rest|);
      }
      var r := peer.Reply();
      if r.Err? {
        return replies, Some(r.error);
      }
      replies := replies + [r.value];
    }
    assert messages[..count] == messages;
    error := None;
  }
}
