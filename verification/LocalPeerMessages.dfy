/** A message between two instances: its length in four bytes, then its bytes, over a local socket that
    delivers them in chunks of any size. */
module LocalPeerMessages {

  type Byte = b: nat | b < 256

  const INT_MAX: nat := 0x7fff_ffff
  const U32: nat := 0x1_0000_0000

  // ---------------------------------------------------------------- the frame

  /** A quint32 as QDataStream writes it, the most significant byte first. */
  function BigEndian(n: nat): seq<Byte>
    requires n < U32
  {
    [n / 0x100_0000, n / 0x1_0000 % 256, n / 256 % 256, n % 256]
  }

  function FromBigEndian(bytes: seq<Byte>): (n: nat)
    requires |bytes| == 4
    ensures n < U32
  {
    ((bytes[0] as int * 256 + bytes[1]) * 256 + bytes[2]) * 256 + bytes[3]
  }

  /** What writeBytes sends. */
  function Frame(message: seq<Byte>): seq<Byte>
    requires |message| < U32
  {
    BigEndian(|message|) + message
  }

  /** The length survives, and its first byte is the one that counts most. */
  lemma BigEndianRoundTrip(n: nat)
    requires n < U32
    ensures FromBigEndian(BigEndian(n)) == n
    ensures var b := BigEndian(n);
      n == b[0] as int * 0x100_0000 + b[1] as int * 0x1_0000 + b[2] as int * 0x100 + b[3]
  {
    var a, b := n / 256, n / 0x1_0000;
    assert b / 256 == n / 0x100_0000;
    assert n == a * 256 + n % 256;
    assert a == b * 256 + a % 256;
    assert b == b / 256 * 256 + b % 256;
  }

  // ---------------------------------------------------------------- the socket

  /** How one wait for data ends. */
  datatype Arrival = Chunk(bytes: seq<Byte>) | Timeout | Disconnect

  /** All bytes that come before the peer disconnects. */
  function Bytes(arrivals: seq<Arrival>): seq<Byte> {
    if arrivals == [] || arrivals[0].Disconnect? then []
    else (if arrivals[0].Chunk? then arrivals[0].bytes else []) + Bytes(arrivals[1..])
  }

  /** The bytes that come before a wait fails. */
  function Leading(arrivals: seq<Arrival>): seq<Byte> {
    if arrivals == [] || !arrivals[0].Chunk? then [] else arrivals[0].bytes + Leading(arrivals[1..])
  }

  /** How many bytes after the four of the length come before a wait fails, when n bytes are there.  While
      the length is not complete, a wait that times out does no harm. */
  function AfterLength(n: nat, arrivals: seq<Arrival>): nat
    decreases arrivals
  {
    if n >= 4 then n - 4 + |Leading(arrivals)|
    else if arrivals == [] || arrivals[0].Disconnect? then 0
    else AfterLength(n + if arrivals[0].Chunk? then |arrivals[0].bytes| else 0, arrivals[1..])
  }

  predicate Uninterrupted(arrivals: seq<Arrival>) {
    forall i :: 0 <= i < |arrivals| ==> arrivals[i].Chunk?
  }

  lemma {:induction false} AllLeading(arrivals: seq<Arrival>)
    requires Uninterrupted(arrivals)
    ensures Leading(arrivals) == Bytes(arrivals)
  {
    if arrivals != [] {
      AllLeading(arrivals[1..]);
    }
  }

  /** Without a failing wait that is all there is. */
  lemma {:induction false} AllAfterLength(n: nat, arrivals: seq<Arrival>)
    requires Uninterrupted(arrivals) && n + |Bytes(arrivals)| >= 4
    ensures AfterLength(n, arrivals) == n + |Bytes(arrivals)| - 4
    decreases arrivals
  {
    AllLeading(arrivals);
    if n < 4 {
      AllAfterLength(n + |arrivals[0].bytes|, arrivals[1..]);
    }
  }

  lemma {:induction false} NextArrival(available: seq<Byte>, arrivals: seq<Arrival>)
    requires arrivals != []
    ensures available + Bytes(arrivals) ==
            match arrivals[0]
            case Chunk(bytes) => (available + bytes) + Bytes(arrivals[1..])
            case Timeout => available + Bytes(arrivals[1..])
            case Disconnect => available + []
  {
  }

  /** The first bytes of a stream are taken from those that are there. */
  lemma Taken(available: seq<Byte>, coming: seq<Byte>, got: nat)
    requires got <= |available|
    ensures (available + coming)[..got] == available[..got] && (available + coming)[got..] == available[got..] + coming
  {
  }

  class LocalSocket {
    var connected: bool
    var available: seq<Byte>
    var arrivals: seq<Arrival>

    constructor (arrivals: seq<Arrival>)
      ensures connected && available == [] && this.arrivals == arrivals
    {
      this.connected, this.available, this.arrivals := true, [], arrivals;
    }

    /** The bytes that can be read now or later. */
    function Stream(): seq<Byte>
      reads this
    {
      available + if connected then Bytes(arrivals) else []
    }

    /** How many bytes can be read before a wait fails. */
    function Ready(): nat
      reads this
    {
      |available| + if connected then |Leading(arrivals)| else 0
    }

    /** Steps that are left until the peer is gone. */
    function Patience(): nat
      reads this
    {
      if connected then |arrivals| + 1 else 0
    }

    /** Once all arrivals are used up, the peer is gone. */
    method WaitForReadyRead() returns (ok: bool)
      modifies this
      ensures Stream() == old(Stream())
      ensures old(connected) ==> Patience() < old(Patience())
      ensures !old(connected) ==> !connected
      ensures ok ==> connected && Ready() == old(Ready())
      ensures !ok ==> old(Ready()) == |old(available)| && available == old(available)
      ensures connected && |old(available)| < 4 ==> AfterLength(|available|, arrivals) == AfterLength(|old(available)|, old(arrivals))
    {
      ok := false;
      if !connected {
        return;
      }
      if arrivals == [] {
        connected := false;
        return;
      }
      var arrival := arrivals[0];
      NextArrival(available, arrivals);
      arrivals := arrivals[1..];
      match arrival
      case Chunk(bytes) =>
        available := available + bytes;
        ok := true;
      case Timeout =>
      case Disconnect =>
        connected := false;
    }

    /** The first bytes that are there, one by one. */
    method Copy(data: array<Byte>, at: nat, count: nat)
      requires count <= |available| && at + count <= data.Length
      modifies data
      ensures data[..at + count] == old(data[..at]) + available[..count]
    {
      for k := 0 to count
        invariant data[..at + k] == old(data[..at]) + available[..k]
      {
        data[at + k] := available[k];
        assert data[..at + k + 1] == data[..at + k] + [available[k]];
        assert available[..k + 1] == available[..k] + [available[k]];
      }
    }

    /** Reads at most max bytes; -1 is an error. */
    method Read(data: array<Byte>, at: nat, max: int) returns (got: int)
      requires at <= data.Length && (max >= 0 ==> at + max <= data.Length)
      modifies this, data
      ensures connected == old(connected) && arrivals == old(arrivals)
      ensures -1 <= got && (got >= 0 ==> got <= max && got <= |old(available)|)
      ensures got >= 0 ==> available == old(available)[got..] && Stream() == old(Stream())[got..]
      ensures got >= 0 ==> data[..at + got] == old(data[..at]) + old(Stream())[..got]
      ensures got >= 0 ==> Ready() == old(Ready()) - got
      ensures got < 0 ==> Stream() == old(Stream())
      ensures max > 0 && old(available) != [] ==> got == if max < |old(available)| then max else |old(available)|
      ensures max == 0 ==> got == 0
      ensures max > 0 && old(available) == [] ==> got == if old(connected) then 0 else -1
      ensures max < 0 ==> got == -1
    {
      if max < 0 || (max > 0 && available == [] && !connected) {
        return -1;
      }
      got := if max < |available| then max else |available|;
      Taken(available, if connected then Bytes(arrivals) else [], got);
      Copy(data, at, got);
      available := available[got..];
    }
  }

  // ---------------------------------------------------------------- receiving

  /** What becomes of a connection; the last `missing` bytes of a message may never have come. */
  datatype Outcome = Gone | Failed | Message(bytes: seq<Byte>, missing: nat)

  function ToInt(n: nat): int
    requires n < U32
  {
    if n <= INT_MAX then n as int else n - U32
  }

  /** The bytes are those of the stream, as far as they came. */
  predicate Agrees(bytes: seq<Byte>, missing: nat, stream: seq<Byte>) {
    && missing <= |bytes| && |bytes| - missing <= |stream|
    && bytes[..|bytes| - missing] == stream[..|bytes| - missing]
  }

  predicate Prefix(stream: seq<Byte>, outcome: Outcome)
    requires outcome.Message?
  {
    |stream| >= 4 && |outcome.bytes| == FromBigEndian(stream[..4]) && Agrees(outcome.bytes, outcome.missing, stream[4..])
  }

  /** Waits for the four bytes of the length. */
  method ReceiveLength(socket: LocalSocket) returns (ok: bool, length: nat)
    requires socket.connected && socket.available == []
    modifies socket
    ensures ok <==> |old(socket.Stream())| >= 4
    ensures ok ==> length < U32 && length == FromBigEndian(old(socket.Stream())[..4])
    ensures ok ==> socket.connected && socket.Stream() == old(socket.Stream())[4..]
    ensures ok ==> socket.Ready() == AfterLength(0, old(socket.arrivals))
  {
    while socket.connected && |socket.available| < 4
      invariant socket.Stream() == old(socket.Stream())
      invariant !socket.connected ==> |socket.available| < 4
      invariant socket.connected ==> AfterLength(|socket.available|, socket.arrivals) == AfterLength(0, old(socket.arrivals))
      decreases socket.Patience()
    {
      var _ := socket.WaitForReadyRead();
    }
    if !socket.connected {
      return false, 0;
    }
    length := TakeLength(socket);
    ok := true;
  }

  /** The four bytes are there. */
  method TakeLength(socket: LocalSocket) returns (length: nat)
    requires socket.connected && |socket.available| >= 4
    modifies socket
    ensures |old(socket.Stream())| >= 4 && length < U32 && length == FromBigEndian(old(socket.Stream())[..4])
    ensures socket.connected && socket.Stream() == old(socket.Stream())[4..]
    ensures socket.Ready() == AfterLength(|old(socket.available)|, old(socket.arrivals))
  {
    length := FromBigEndian(socket.available[..4]);
    Taken(socket.available, Bytes(socket.arrivals), 4);
    socket.available := socket.available[4..];
  }

  lemma Longer(stream: seq<Byte>, at: nat, got: nat)
    requires at + got <= |stream|
    ensures stream[..at] + stream[at..][..got] == stream[..at + got]
    ensures stream[at..][got..] == stream[at + got..]
  {
  }

  /** remaining -= got, on quint32. */
  function Less(remaining: nat, got: int): (r: nat)
    requires remaining < U32
    ensures r < U32 && (0 <= got <= remaining ==> r == remaining - got)
  {
    (remaining - got) % U32
  }

  /** One read into the rest of the message. */
  method ReadSome(socket: LocalSocket, message: array<Byte>, at: nat, remaining: nat, ghost stream: seq<Byte>) returns (got: int, left: nat)
    requires socket.connected && remaining < U32 && at <= |stream| && at <= message.Length
    requires remaining <= INT_MAX ==> at + remaining == message.Length
    requires message[..at] == stream[..at] && socket.Stream() == stream[at..]
    modifies socket, message
    ensures socket.connected && socket.arrivals == old(socket.arrivals) && left < U32
    ensures remaining > INT_MAX ==> got == -1
    ensures remaining <= INT_MAX ==>
              && 0 <= got <= remaining && left == remaining - got && at + got <= |stream|
              && message[..at + got] == stream[..at + got] && socket.Stream() == stream[at + got..]
              && socket.Ready() == old(socket.Ready()) - got && (left == 0 || socket.available == [])
  {
    got := socket.Read(message, at, ToInt(remaining));
    left := Less(remaining, got);
    if got >= 0 {
      Longer(stream, at, got);
    }
  }

  /** So much of the message is in the buffer, and so many bytes come in all before a wait fails. */
  ghost predicate Coming(socket: LocalSocket, message: array<Byte>, at: nat, remaining: nat, stream: seq<Byte>, ready: nat)
    reads socket, message
  {
    && socket.connected && remaining < U32 && at <= |stream| && at <= message.Length && message[..at] == stream[..at]
    && socket.Stream() == stream[at..] && at + socket.Ready() == ready
    && (remaining <= INT_MAX ==> at + remaining == message.Length)
  }

  /** So much of the message is in the buffer, and no more will come. */
  ghost predicate Came(message: array<Byte>, at: nat, remaining: nat, stream: seq<Byte>, ready: nat)
    reads message
  {
    && at + remaining == message.Length && at <= |stream| && message[..at] == stream[..at]
    && if remaining == 0 then at <= ready else at == ready
  }

  /** Something is missing: one wait. */
  method WaitForMore(socket: LocalSocket, message: array<Byte>, at: nat, remaining: nat, ghost stream: seq<Byte>, ghost ready: nat)
    returns (more: bool)
    requires Coming(socket, message, at, remaining, stream, ready) && 0 < remaining <= INT_MAX && socket.available == []
    modifies socket
    ensures socket.Patience() < old(socket.Patience())
    ensures if more then Coming(socket, message, at, remaining, stream, ready) else Came(message, at, remaining, stream, ready)
  {
    more := socket.WaitForReadyRead();
  }

  /** One turn: a read, and a wait if something is missing. */
  method ReceiveMore(socket: LocalSocket, message: array<Byte>, at: nat, remaining: nat, ghost stream: seq<Byte>, ghost ready: nat)
    returns (got: int, at': nat, left: nat, more: bool)
    requires Coming(socket, message, at, remaining, stream, ready)
    modifies socket, message
    ensures got >= 0 <==> remaining <= INT_MAX
    ensures socket.Patience() <= old(socket.Patience()) && (got < 0 ==> !more)
    ensures more ==> Coming(socket, message, at', left, stream, ready) && left <= INT_MAX && socket.Patience() < old(socket.Patience())
    ensures got >= 0 && !more ==> Came(message, at', left, stream, ready)
  {
    got, left := ReadSome(socket, message, at, remaining, stream);
    at', more := at, false;
    if got >= 0 {
      at' := at + got;
      assert Coming(socket, message, at', left, stream, ready);
      if left != 0 {
        more := WaitForMore(socket, message, at', left, stream, ready);
      }
    }
  }

  /** How many bytes of a length never come, when so many do. */
  function Missing(length: nat, come: nat): nat {
    if length <= come then 0 else length - come
  }

  /** Reads the bytes of a message until all have come, an error occurs, or a wait fails. */
  method ReceiveBytes(socket: LocalSocket, length: nat) returns (outcome: Outcome)
    requires socket.connected && length < U32
    modifies socket
    ensures outcome.Message? ==> |outcome.bytes| == length && Agrees(outcome.bytes, outcome.missing, old(socket.Stream()))
    ensures outcome.Message? ==> outcome.missing == Missing(length, old(socket.Ready()))
    ensures if length <= INT_MAX then outcome.Message? else outcome == Failed
  {
    ghost var stream, ready := socket.Stream(), socket.Ready();
    var remaining: nat := length;
    var message := new Byte[if length <= INT_MAX then length else 0];
    var at: nat := 0;
    var got := 0;
    var more := true;
    while more
      invariant more ==> Coming(socket, message, at, remaining, stream, ready) && (length <= INT_MAX <==> remaining <= INT_MAX)
      invariant !more ==> if length <= INT_MAX then got >= 0 && Came(message, at, remaining, stream, ready) else got < 0
      decreases socket.Patience(), more
    {
      got, at, remaining, more := ReceiveMore(socket, message, at, remaining, stream, ready);
    }
    if got < 0 {
      return Failed;
    }
    outcome := Message(message[..], remaining);
  }

  /** One connection, from its first byte on. */
  method ReceiveConnection(socket: LocalSocket) returns (outcome: Outcome)
    requires socket.connected && socket.available == []
    modifies socket
    ensures outcome.Message? ==> Prefix(old(socket.Stream()), outcome)
    ensures var stream := old(socket.Stream());
            if |stream| < 4 then outcome == Gone
            else if FromBigEndian(stream[..4]) > INT_MAX then outcome == Failed
            else outcome.Message?
    ensures outcome.Message? ==> outcome.missing == Missing(|outcome.bytes|, AfterLength(0, old(socket.arrivals)))
    ensures outcome.Message? && Uninterrupted(old(socket.arrivals)) ==>
              (outcome.missing == 0 <==> |old(socket.Stream())| >= 4 + |outcome.bytes|)
  {
    if Uninterrupted(socket.arrivals) && |Bytes(socket.arrivals)| >= 4 {
      AllAfterLength(0, socket.arrivals);
    }
    var ok, length := ReceiveLength(socket);
    if !ok {
      return Gone;
    }
    outcome := ReceiveBytes(socket, length);
  }

  // ---------------------------------------------------------------- what was sent is what is received

  lemma FrameParts(message: seq<Byte>, more: seq<Byte>)
    requires |message| < U32
    ensures (Frame(message) + more)[..4] == BigEndian(|message|) && (Frame(message) + more)[4..] == message + more
    ensures FromBigEndian(BigEndian(|message|)) == |message|
  {
    BigEndianRoundTrip(|message|);
  }

  /** If nothing is missing, the message is the one that was sent; else it starts like it, and has its
      length. */
  lemma MessageIsSent(message: seq<Byte>, more: seq<Byte>, outcome: Outcome)
    requires |message| < U32 && outcome.Message? && Prefix(Frame(message) + more, outcome)
    ensures |outcome.bytes| == |message|
    ensures outcome.bytes[..|message| - outcome.missing] == message[..|message| - outcome.missing]
    ensures outcome.missing == 0 ==> outcome.bytes == message
  {
    FrameParts(message, more);
    var k := |message| - outcome.missing;
    assert (message + more)[..k] == message[..k];
    if outcome.missing == 0 {
      assert outcome.bytes[..k] == outcome.bytes && message[..k] == message;
    }
  }

  /** However the bytes of a message are cut into chunks and whichever waits fail, the message received has
      its length and starts like it; it lacks exactly what comes after the first wait that fails once the
      length is complete.  Without a failing wait it is the message that was sent. */
  method Exchange(message: seq<Byte>, arrivals: seq<Arrival>) returns (outcome: Outcome)
    requires |message| <= INT_MAX && Bytes(arrivals) == Frame(message)
    ensures outcome.Message? && |outcome.bytes| == |message|
    ensures outcome.missing == Missing(|message|, AfterLength(0, arrivals))
    ensures outcome.bytes[..|message| - outcome.missing] == message[..|message| - outcome.missing]
    ensures Uninterrupted(arrivals) ==> outcome == Message(message, 0)
  {
    var socket := new LocalSocket(arrivals);
    assert socket.Stream() == Frame(message) + [];
    FrameParts(message, []);
    outcome := ReceiveConnection(socket);
    MessageIsSent(message, [], outcome);
  }

  lemma CutFrame()
    ensures Bytes([Chunk([0, 0, 0, 2, 7]), Timeout, Chunk([8])]) == Frame([7, 8])
    ensures AfterLength(0, [Chunk([0, 0, 0, 2, 7]), Timeout, Chunk([8])]) == 1
  {
    var first, rest := Chunk([0, 0, 0, 2, 7]), [Timeout, Chunk([8])];
    assert [first, Timeout, Chunk([8])] == [first] + rest;
    assert rest[1..] == [Chunk([8])] && [Chunk([8])][1..] == [];
    assert Bytes([Chunk([8])]) == [8] == Bytes(rest);
  }

  /** A message is handed on although its second byte came too late. */
  method IncompleteMessage() returns (outcome: Outcome)
    ensures outcome.Message? && outcome.missing == 1 && |outcome.bytes| == 2 && outcome.bytes[0] == 7
  {
    CutFrame();
    outcome := Exchange([7, 8], [Chunk([0, 0, 0, 2, 7]), Timeout, Chunk([8])]);
    assert outcome.bytes[..1][0] == [7, 8][..1][0];
  }
}
