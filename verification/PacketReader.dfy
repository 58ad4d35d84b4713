/** Reading packets into the buffer that the controller and each switch keep for it.  The buffer is
    cleared once in each pass over the descriptors, not before each read of the pass. */
module PacketReader {
  import opened CStrings
  import opened Decimal
  import opened Packets

  /** The packets that one read takes, as text. */
  function Text(ps: seq<Packet>): string {
    if ps == [] then "" else Print(ps[0]) + Text(ps[1..])
  }

  /** The string in the buffer after `text` was read over `left`. */
  function Seen(left: string, text: string): string { text + Tail(left, |text|) }

  /** The packet that a read of `ps` is taken for; None when its message is too short for its type. */
  function Understood(left: string, ps: seq<Packet>): Option<Packet> { Parse(Seen(left, Text(ps))) }

  /** What is behind the first packet: the others, and the end of what was read before. */
  function Behind(left: string, ps: seq<Packet>): string
    requires ps != []
  {
    Text(ps[1..]) + Tail(left, |Text(ps)|)
  }

  /** The first packet of the read is taken for what it is. */
  predicate Clean(left: string, ps: seq<Packet>)
    requires ps != []
  {
    Recovers(ps[0], Behind(left, ps))
  }

  lemma SeenIsBehind(left: string, ps: seq<Packet>)
    requires ps != []
    ensures Seen(left, Text(ps)) == Print(ps[0]) + Behind(left, ps)
  {
  }

  /** A read is understood as its first packet exactly when that packet has no fields, or no digit is
      behind it, or its last field is 0 and the digits behind it are all 0. */
  lemma UnderstoodExactly(left: string, ps: seq<Packet>)
    requires ps != []
    ensures Understood(left, ps) == Some(ps[0]) <==> Clean(left, ps)
  {
    SeenIsBehind(left, ps);
    RecoversExactly(ps[0], Behind(left, ps));
  }

  /** `q` is of the type of `p`, and at most its last field is another one. */
  predicate SameButLast(p: Packet, q: Packet) { q == WithLast(p, Last(q)) }

  lemma WithLastKind(p: Packet, w: int32)
    ensures SameButLast(p, WithLast(p, w))
  {
  }

  /** However much is left in the buffer, the type and all fields but the last come through. */
  lemma {:induction false} UnderstoodKind(left: string, ps: seq<Packet>)
    requires ps != []
    ensures Understood(left, ps).Some? ==> SameButLast(ps[0], Understood(left, ps).value)
  {
    SeenIsBehind(left, ps);
    ReadBehind(ps[0], Behind(left, ps));
    var w := Widen(Last(ps[0]), LeadingDigits(Behind(left, ps)));
    if IsInt32(w) { WithLastKind(ps[0], w); }
  }

  /** Packets read together: the first one is understood and the others are not seen. */
  lemma MergedIsClean(left: string, ps: seq<Packet>)
    requires |ps| > 1
    ensures Clean(left, ps)
  {
    assert Behind(left, ps)[0] == TypeName(ps[1])[0];
  }

  /** The first read after the buffer was cleared is understood. */
  lemma FirstIsClean(ps: seq<Packet>)
    requires ps != []
    ensures Clean("", ps) && Understood("", ps) == Some(ps[0])
  {
    if |ps| > 1 {
      MergedIsClean("", ps);
    } else {
      assert Behind("", ps) == "";
    }
    UnderstoodExactly("", ps);
  }

  /** What one read amounts to: the string it leaves in the buffer, whether its first packet came
      through, and the packet it is taken for. */
  datatype Hearing = Hearing(left: string, clean: bool, packet: Option<Packet>)

  function Read(left: string, ps: seq<Packet>): Hearing
    requires ps != []
  {
    Hearing(Seen(left, Text(ps)), Clean(left, ps), Understood(left, ps))
  }

  lemma ReadIs(left: string, ps: seq<Packet>)
    requires ps != []
    ensures var h := Read(left, ps);
            && (h.clean <==> h.packet == Some(ps[0]))
            && (h.packet.Some? ==> SameButLast(ps[0], h.packet.value))
  {
    UnderstoodExactly(left, ps);
    UnderstoodKind(left, ps);
  }

  lemma {:induction false} TextFits(ps: seq<Packet>)
    ensures NUL !in Text(ps)
  {
    if ps != [] {
      FitsBuffer(ps[0]);
      TextFits(ps[1..]);
    }
  }

  /** The buffer as an array.  `left` is the string in it. */
  class Receiver {
    const buffer: array<char>
    ghost var left: string

    ghost predicate Valid()
      reads this, buffer
    {
      buffer.Length == BUFFER_SIZE && |left| < BUFFER_SIZE && NUL !in left && buffer[..] == Cleared(left)
    }

    constructor ()
      ensures Valid() && left == "" && fresh(buffer)
    {
      buffer := new char[BUFFER_SIZE](_ => NUL);
      left := "";
      new;
      assert buffer[..] == Cleared("");
    }

    /** `memset` at the start of a pass. */
    method Clear()
      requires buffer.Length == BUFFER_SIZE
      modifies this, buffer
      ensures Valid() && left == ""
    {
      forall i | 0 <= i < buffer.Length {
        buffer[i] := NUL;
      }
      left := "";
      assert buffer[..] == Cleared("");
    }

    method ReadText(text: string) returns (seen: string)
      requires Valid() && |text| < BUFFER_SIZE && NUL !in text
      modifies this, buffer
      ensures Valid() && left == seen == Seen(old(left), text)
    {
      StaleTail(left, text);
      ghost var before := buffer[..];
      forall i | 0 <= i < |text| {
        buffer[i] := text[i];
      }
      assert buffer[..] == Overwrite(before, text);
      seen := buffer[..Find(buffer[..], NUL)];
      assert seen == CString(buffer[..]);
      left := seen;
    }

    /** `read` of the waiting packets, and what the parser makes of the buffer. */
    method ReadPackets(ps: seq<Packet>) returns (packetType: string, packetMessage: seq<int32>)
      requires Valid() && |Text(ps)| < BUFFER_SIZE
      modifies this, buffer
      ensures Valid() && left == Seen(old(left), Text(ps))
      ensures Interpret(packetType, packetMessage) == Understood(old(left), ps)
    {
      TextFits(ps);
      var seen := ReadText(Text(ps));
      packetType, packetMessage := ParsePacketString(seen);
    }
  }
}
