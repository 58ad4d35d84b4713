/** The packets of test2 as text: what the senders of switch.cpp and controller.cpp print and what
    `parsePacketString` and `parsePacketMessage` of util.cpp read back. */
module Packets {
  import opened CStrings
  import opened Decimal

  datatype Packet =
    | Open(id: int32, port1Id: int32, port2Id: int32, ipLow: int32, ipHigh: int32)
    | Ack
    | Query(srcIp: int32, destIp: int32)
    | Add(action: int32, addLow: int32, addHigh: int32, relayPort: int32, addSrc: int32)
    | Relay(relaySrc: int32, relayDest: int32)

  function Fields(p: Packet): seq<int32> {
    match p
    case Open(id, port1Id, port2Id, ipLow, ipHigh) => [id, port1Id, port2Id, ipLow, ipHigh]
    case Ack => []
    case Query(srcIp, destIp) => [srcIp, destIp]
    case Add(action, low, high, port, src) => [action, low, high, port, src]
    case Relay(srcIp, destIp) => [srcIp, destIp]
  }

  function TypeName(p: Packet): string {
    match p
    case Open(_, _, _, _, _) => "OPEN"
    case Ack => "ACK"
    case Query(_, _) => "QUERY"
    case Add(_, _, _, _, _) => "ADD"
    case Relay(_, _) => "RELAY"
  }

  /** The integers in decimal, separated by commas. */
  function Join(xs: seq<int32>): string {
    if xs == [] then "" else ToString(xs[0]) + (if |xs| == 1 then "" else "," + Join(xs[1..]))
  }

  /** What the senders write: the type, a colon, and the fields. */
  function Print(p: Packet): string {
    TypeName(p) + ":" + Join(Fields(p))
  }

  // ---------------------------------------------------------------- parsing

  /** What the extraction loop of `parsePacketMessage` collects from the characters left in the stream. */
  function MessageInts(s: string): seq<int32>
    decreases |s|
  {
    match ReadInt(s)
    case None => []
    case Some((v, rest)) => [v] + MessageInts(AfterComma(rest))
  }

  function AfterComma(s: string): string { if s != "" && s[0] == ',' then s[1..] else s }

  /** Having collected `contents`, the loop has still to read `stream`. */
  predicate Collected(contents: seq<int32>, stream: string, message: string) {
    contents + MessageInts(stream) == MessageInts(message)
  }

  lemma CollectedStep(contents: seq<int32>, stream: string, message: string)
    requires Collected(contents, stream, message)
    ensures match ReadInt(stream)
            case None => contents == MessageInts(message)
            case Some((v, rest)) => Collected(contents + [v], AfterComma(rest), message)
  {
    match ReadInt(stream)
    case None => assert contents + [] == contents;
    case Some((v, rest)) =>
      var more := MessageInts(AfterComma(rest));
      assert contents + ([v] + more) == contents + [v] + more;
  }

  /** Terminates on every string, since each successful extraction consumes a character. */
  method ParsePacketMessage(message: string) returns (contents: seq<int32>)
    ensures contents == MessageInts(message)
  {
    contents := [];
    var stream := message;
    while true
      invariant Collected(contents, stream, message)
      decreases |stream|
    {
      CollectedStep(contents, stream, message);
      var next := ReadInt(stream);
      if next.None? { break; }
      contents := contents + [next.value.0];
      stream := AfterComma(next.value.1);
    }
  }

  /** `find` reports npos when there is no colon; then `npos + 1` wraps to 0 and the whole string
      is taken as the type and again as the message. */
  function PacketType(s: string): string { s[..Find(s, ':')] }

  function PacketMessage(s: string): string {
    var k := Find(s, ':');
    if k == |s| then s else s[k + 1..]
  }

  method ParsePacketString(s: string) returns (packetType: string, packetMessage: seq<int32>)
    ensures packetType == PacketType(s) && packetMessage == MessageInts(PacketMessage(s))
  {
    packetType := s[..Find(s, ':')];
    packetMessage := ParsePacketMessage(PacketMessage(s));
  }

  /** How the receivers read a parsed packet; None stands for an unknown type, or for a message
      too short for the fields the receiver indexes. */
  function Interpret(packetType: string, msg: seq<int32>): Option<Packet> {
    if packetType == "OPEN" && |msg| >= 5 then Some(Open(msg[0], msg[1], msg[2], msg[3], msg[4]))
    else if packetType == "ACK" then Some(Ack)
    else if packetType == "QUERY" && |msg| >= 2 then Some(Query(msg[0], msg[1]))
    else if packetType == "ADD" && |msg| >= 5 then Some(Add(msg[0], msg[1], msg[2], msg[3], msg[4]))
    else if packetType == "RELAY" && |msg| >= 2 then Some(Relay(msg[0], msg[1]))
    else None
  }

  function Parse(s: string): Option<Packet> {
    Interpret(PacketType(s), MessageInts(PacketMessage(s)))
  }

  // ---------------------------------------------------------------- a packet and what is behind it

  lemma FindColon(t: string, rest: string)
    requires ':' !in t
    ensures Find(t + ":" + rest, ':') == |t|
  {
    FindIs(t + ":" + rest, ':', |t|);
  }

  lemma SplitAtColon(name: string, message: string)
    requires ':' !in name
    ensures PacketType(name + ":" + message) == name && PacketMessage(name + ":" + message) == message
  {
    var s := name + ":" + message;
    FindColon(name, message);
    assert s[..|name|] == name;
    assert s[|name| + 1..] == message;
  }

  lemma WithoutColon(s: string)
    requires ':' !in s
    ensures PacketType(s) == s && PacketMessage(s) == s
  {
    FindIs(s, ':', |s|);
  }

  /** What the parser collects from the last field onwards. */
  function FromLast(last: int32, behind: string): seq<int32> { MessageInts(ToString(last) + behind) }

  lemma Regroup(a: string, sep: string, b: string, behind: string)
    ensures (a + (sep + b)) + behind == a + (sep + (b + behind))
    ensures (a + sep + b) + behind == a + sep + (b + behind)
  {
  }

  lemma {:induction false} FieldFirst(x: int32, rest: string)
    ensures MessageInts(ToString(x) + ("," + rest)) == [x] + MessageInts(rest)
  {
    ReadIntOfToString(x, "," + rest);
    assert AfterComma("," + rest) == rest;
  }

  lemma FirstAndRest(x: int32, rest: seq<int32>, more: seq<int32>)
    requires rest != []
    ensures ([x] + rest)[..|rest|] + more == [x] + (rest[..|rest| - 1] + more)
  {
  }

  /** Text behind a message reaches its last field and nothing before it. */
  lemma {:induction false} JoinBehind(xs: seq<int32>, behind: string)
    requires xs != []
    ensures MessageInts(Join(xs) + behind) == xs[..|xs| - 1] + FromLast(xs[|xs| - 1], behind)
  {
    if |xs| == 1 {
      assert Join(xs) == ToString(xs[0]) && xs[..0] == [];
    } else {
      var rest := xs[1..];
      JoinBehind(rest, behind);
      FieldFirst(xs[0], Join(rest) + behind);
      Regroup(ToString(xs[0]), ",", Join(rest), behind);
      FirstAndRest(xs[0], rest, FromLast(xs[|xs| - 1], behind));
      assert xs == [xs[0]] + rest;
    }
  }

  /** The last field runs on into the digits behind it; when that makes it too large for an int,
      nothing more is read, and otherwise more numbers may follow. */
  lemma {:induction false} LastBehind(last: int32, behind: string)
    ensures var w := Widen(last, LeadingDigits(behind));
            if IsInt32(w) then FromLast(last, behind) != [] && FromLast(last, behind)[0] == w
            else FromLast(last, behind) == []
  {
    ReadIntBehind(last, behind);
  }

  /** For every type name without a colon and every list of 32-bit integers, empty or not, the
      parser returns the type and the integers that were printed. */
  lemma {:induction false} TextRoundTrip(name: string, xs: seq<int32>)
    requires ':' !in name
    ensures PacketType(name + ":" + Join(xs)) == name
    ensures MessageInts(PacketMessage(name + ":" + Join(xs))) == xs
  {
    SplitAtColon(name, Join(xs));
    MessageIntsOfJoin(xs, "");
    assert Join(xs) + "" == Join(xs);
  }

  lemma {:induction false} OnlyLast(last: int32, end: string)
    requires end == ""
    ensures FromLast(last, end) == [last]
  {
    ReadIntOfToString(last, end);
    assert MessageInts("") == [];
  }

  lemma {:induction false} MessageIntsOfJoin(xs: seq<int32>, end: string)
    requires end == ""
    ensures MessageInts(Join(xs) + end) == xs
  {
    if xs == [] {
      assert Join(xs) + end == "";
    } else {
      var m := |xs| - 1;
      var last := FromLast(xs[m], end);
      JoinBehind(xs, end);
      assert xs[..m] + last == xs by { OnlyLast(xs[m], end); }
    }
  }

  function WithLast(p: Packet, w: int32): Packet {
    match p
    case Open(id, port1Id, port2Id, ipLow, _) => Open(id, port1Id, port2Id, ipLow, w)
    case Ack => Ack
    case Query(srcIp, _) => Query(srcIp, w)
    case Add(action, low, high, port, _) => Add(action, low, high, port, w)
    case Relay(srcIp, _) => Relay(srcIp, w)
  }

  function Last(p: Packet): int32 {
    if p.Ack? then 0 else Fields(p)[|Fields(p)| - 1]
  }

  /** A message with all fields but the last, and then what the parser made of the rest. */
  lemma InterpretBehind(p: Packet, more: seq<int32>)
    requires !p.Ack?
    ensures var xs := Fields(p);
            Interpret(TypeName(p), xs[..|xs| - 1] + more) == if more == [] then None else Some(WithLast(p, more[0]))
  {
  }

  lemma {:induction false} SplitBehind(p: Packet, behind: string)
    ensures PacketType(Print(p) + behind) == TypeName(p)
    ensures PacketMessage(Print(p) + behind) == Join(Fields(p)) + behind
  {
    Regroup(TypeName(p), ":", Join(Fields(p)), behind);
    SplitAtColon(TypeName(p), Join(Fields(p)) + behind);
  }

  /** What a receiver makes of a packet with other text behind it: the type and all fields but the
      last are as sent, and the last one runs on into the digits that follow. */
  lemma {:induction false} ReadBehind(p: Packet, behind: string)
    ensures var w := Widen(Last(p), LeadingDigits(behind));
            Parse(Print(p) + behind) ==
            if p.Ack? then Some(p) else if IsInt32(w) then Some(WithLast(p, w)) else None
  {
    SplitBehind(p, behind);
    if !p.Ack? {
      JoinBehind(Fields(p), behind);
      LastBehind(Last(p), behind);
      InterpretBehind(p, FromLast(Last(p), behind));
    }
  }

  /** The packet comes through: it has no fields, or no digit is behind it, or its last field is 0
      and the digits behind it are all 0. */
  predicate Recovers(p: Packet, behind: string) {
    || p.Ack?
    || behind == "" || !IsDigit(behind[0])
    || (Last(p) == 0 && forall i | 0 <= i < DigitRun(behind) :: behind[i] == '0')
  }

  lemma {:induction false} RecoversExactly(p: Packet, behind: string)
    ensures Parse(Print(p) + behind) == Some(p) <==> Recovers(p, behind)
  {
    ReadBehind(p, behind);
    WidenSame(Last(p), LeadingDigits(behind));
    assert WithLast(p, Last(p)) == p;
    assert forall w: int32 :: !p.Ack? && w != Last(p) ==> WithLast(p, w) != p;
    assert forall i | 0 <= i < DigitRun(behind) :: LeadingDigits(behind)[i] == behind[i];
  }

  /** Every packet a sender can print is read back from a cleared buffer as the same packet. */
  lemma RoundTrip(p: Packet)
    ensures Parse(Print(p)) == Some(p)
  {
    RecoversExactly(p, "");
    assert Print(p) + "" == Print(p);
  }

  lemma PrintInjective(p: Packet, q: Packet)
    requires Print(p) == Print(q)
    ensures p == q
  {
    RoundTrip(p);
    RoundTrip(q);
  }

  /** A printed packet fits the 1024-byte buffer a receiver reads into, with room for the NUL, which
      it does not contain. */
  lemma FitsBuffer(p: Packet)
    ensures |Print(p)| <= 66 < BUFFER_SIZE && NUL !in Print(p)
  {
    JoinLength(Fields(p));
  }

  lemma {:induction false} JoinLength(xs: seq<int32>)
    ensures |Join(xs)| <= 12 * |xs| && NUL !in Join(xs)
  {
    if xs != [] {
      Int32Length(xs[0]);
      JoinLength(xs[1..]);
    }
  }
}
