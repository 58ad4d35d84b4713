/** The traffic-file parser of test2: `parseTrafficFileLine` of switch.cpp and `parseSwitchId` of util.cpp. */
module TrafficLine {
  import opened Decimal
  import opened Switch
  import opened Controller

  datatype Traffic =
    | Empty
    | Comment
    | Delay(id: int, ms: int)
    | PacketLine(id: int, srcIp: int, destIp: int)
    | Error // the line is skipped
    | Stops // the process exits, or a token it needs is not there

  /** The words of a line. */
  function Tokens(s: string): seq<string>
    decreases |s|
  {
    var t := SkipSpace(s);
    if t == "" then [] else [t[..WordLength(t)]] + Tokens(t[WordLength(t)..])
  }

  function WordLength(s: string): (k: nat)
    ensures k <= |s|
    ensures s != "" && !IsSpace(s[0]) ==> k > 0
  {
    if s == "" || IsSpace(s[0]) then 0 else 1 + WordLength(s[1..])
  }

  const LONG_MAX := 0x7fff_ffff_ffff_ffff

  /** strtol in base 10: None when the number is no 64-bit integer and errno is set; 0 without digits. */
  function StrToL(s: string): Option<int> {
    match ReadNumber(SkipSpace(s))
    case None => Some(0)
    case Some((v, _)) => if -LONG_MAX - 1 <= v <= LONG_MAX then Some(v) else None
  }

  /** The result of strtol narrowed to int, unless errno was set. */
  function ParseNumber(s: string): Option<int> {
    match StrToL(s)
    case None => None
    case Some(v) => Some(Low32(v))
  }

  /** Some(-1) for "null", Some(1..7) for a switch, and None when the process ends. */
  function SwitchId(token: string): (r: Option<int>)
    ensures r.Some? ==> r.value == NULL_PORT || 1 <= r.value <= 7
  {
    if token == "null" then Some(NULL_PORT)
    else if |token| < 2 then None
    else
      match ParseNumber(token[2..])
      case None => None
      case Some(id) => if id < 1 || id > 7 then None else Some(id)
  }

  function ParseLine(line: string): Traffic {
    var tokens := Tokens(line);
    if line == "" then Empty
    else if line[0] == '#' then Comment
    else if tokens == [] || SwitchId(tokens[0]).None? || |tokens| < 3 then Stops
    else
      var id := SwitchId(tokens[0]).value;
      if tokens[1] == "delay" then
        var ms := ParseNumber(tokens[2]);
        if ms.None? || ms.value < 0 then Error else Delay(id, ms.value)
      else
        var srcIp := ParseNumber(tokens[1]);
        var destIp := ParseNumber(tokens[2]);
        if srcIp.Some? && ValidIp(srcIp.value) && destIp.Some? && ValidIp(destIp.value) then
          PacketLine(id, srcIp.value, destIp.value)
        else Error
  }

  /** The kind of a line and the numbers pushed for it, as the caller takes them apart. */
  predicate Describes(kind: string, content: seq<int>, t: Traffic) {
    match t
    case Empty => kind == "empty"
    case Comment => kind == "comment"
    case Delay(id, ms) => kind == "delay" && content == [id, ms]
    case PacketLine(id, srcIp, destIp) => kind == "action" && content == [id, srcIp, destIp]
    case Error => kind == "error"
    case Stops => false
  }

  method ParseTrafficFileLine(line: string) returns (kind: string, content: seq<int>)
    requires !ParseLine(line).Stops?
    ensures Describes(kind, content, ParseLine(line))
  {
    content := [];
    var tokens := Tokens(line);
    if |line| < 1 {
      kind := "empty";
    } else if line[0] == '#' {
      kind := "comment";
    } else {
      content := content + [SwitchId(tokens[0]).value];
      if tokens[1] == "delay" {
        kind := "delay";
        var ms := ParseNumber(tokens[2]);
        if ms.None? || ms.value < 0 {
          kind := "error";
        } else {
          content := content + [ms.value];
        }
      } else {
        kind := "action";
        var srcIp := ParseNumber(tokens[1]);
        if srcIp.None? || srcIp.value < 0 || srcIp.value > MAX_IP {
          kind := "error";
        } else {
          content := content + [srcIp.value];
        }
        var destIp := ParseNumber(tokens[2]);
        if destIp.None? || destIp.value < 0 || destIp.value > MAX_IP {
          kind := "error";
        } else {
          content := content + [destIp.value];
        }
      }
    }
  }

  /** A packet line that is let through carries addresses in 0..MAX_IP, so the controller never
      finds an invalid address in a QUERY. */
  lemma LinesAreValid(line: string)
    ensures ParseLine(line).PacketLine? ==>
              ValidIp(ParseLine(line).srcIp) && ValidIp(ParseLine(line).destIp) &&
              (ParseLine(line).id == NULL_PORT || 1 <= ParseLine(line).id <= 7)
  {
  }

  // ---------------------------------------------------------------- round trip

  lemma {:induction false} WordStops(word: string, rest: string)
    requires forall i | 0 <= i < |word| :: !IsSpace(word[i])
    requires rest == "" || IsSpace(rest[0])
    ensures WordLength(word + rest) == |word|
  {
    if word == "" {
      assert word + rest == rest;
    } else {
      assert (word + rest)[1..] == word[1..] + rest;
      WordStops(word[1..], rest);
    }
  }

  lemma TokensStep(word: string, rest: string)
    requires word != "" && forall i | 0 <= i < |word| :: !IsSpace(word[i])
    requires rest == "" || IsSpace(rest[0])
    ensures Tokens(word + rest) == [word] + Tokens(rest)
  {
    WordStops(word, rest);
    var s := word + rest;
    assert !IsSpace(s[0]);
    assert SkipSpace(s) == s;
    assert s[..|word|] == word && s[|word|..] == rest;
  }

  lemma TokensAfterSpace(s: string)
    ensures Tokens(" " + s) == Tokens(s)
  {
    assert (" " + s)[1..] == s;
    assert SkipSpace(" " + s) == SkipSpace(s);
  }

  /** The number that a written integer is taken for: its low 32 bits, if 64 are enough for it. */
  function TakenFor(i: int): Option<int> { if -LONG_MAX - 1 <= i <= LONG_MAX then Some(Low32(i)) else None }

  predicate TakenForIp(i: int) { TakenFor(i).Some? && ValidIp(TakenFor(i).value) }

  lemma TakenForItself(i: int)
    requires IsInt32(i)
    ensures TakenFor(i) == Some(i)
  {
  }

  lemma NumberRoundTrip(i: int)
    ensures ParseNumber(ToString(i)) == TakenFor(i)
  {
    ReadNumberOfToString(i, "");
    var s := ToString(i);
    assert s + "" == s;
    assert SkipSpace(s) == s;
    assert ReadNumber(s) == Some((i, ""));
  }

  lemma NumberIsWord(i: int)
    ensures forall k | 0 <= k < |ToString(i)| :: !IsSpace(ToString(i)[k])
    ensures ToString(i) != "delay"
  {
    assert "delay"[0] == 'd';
  }

  lemma LineTokens(first: string, second: string, third: string)
    requires first != "" && forall i | 0 <= i < |first| :: !IsSpace(first[i])
    requires second != "" && forall i | 0 <= i < |second| :: !IsSpace(second[i])
    requires third != "" && forall i | 0 <= i < |third| :: !IsSpace(third[i])
    ensures Tokens(first + (" " + (second + (" " + third)))) == [first, second, third]
  {
    TokensStep(first, " " + (second + (" " + third)));
    TokensAfterSpace(second + (" " + third));
    TokensStep(second, " " + third);
    TokensAfterSpace(third);
    TokensStep(third, "");
    assert third + "" == third;
  }

  /** The first word of a line for a switch. */
  function SwitchWord(id: int): string { if id == NULL_PORT then "null" else "sw" + ToString(id) }

  lemma SwitchWordRoundTrip(id: int)
    requires IsInt32(id)
    ensures SwitchId(SwitchWord(id)) == if id == NULL_PORT || 1 <= id <= 7 then Some(id) else None
    ensures SwitchWord(id) != "" && SwitchWord(id)[0] != '#' && forall k | 0 <= k < |SwitchWord(id)| :: !IsSpace(SwitchWord(id)[k])
  {
    NumberIsWord(id);
    if id != NULL_PORT {
      var word := "sw" + ToString(id);
      assert word[2..] == ToString(id) && word[0] == 's' && "null"[0] == 'n';
      NumberRoundTrip(id);
      TakenForItself(id);
    }
  }

  function Line(first: string, second: string, third: string): string { first + (" " + (second + (" " + third))) }

  /** A line of three words, the first of which names a switch. */
  lemma LineWords(id: int, second: string, third: string)
    requires IsInt32(id)
    requires second != "" && forall i | 0 <= i < |second| :: !IsSpace(second[i])
    requires third != "" && forall i | 0 <= i < |third| :: !IsSpace(third[i])
    ensures var line := Line(SwitchWord(id), second, third);
            && line != "" && line[0] != '#' && Tokens(line) == [SwitchWord(id), second, third]
            && SwitchId(Tokens(line)[0]) == if id == NULL_PORT || 1 <= id <= 7 then Some(id) else None
  {
    SwitchWordRoundTrip(id);
    LineTokens(SwitchWord(id), second, third);
    assert Line(SwitchWord(id), second, third)[0] == SwitchWord(id)[0];
  }

  function PacketText(id: int, srcIp: int, destIp: int): string { Line(SwitchWord(id), ToString(srcIp), ToString(destIp)) }

  function DelayText(id: int, ms: int): string { Line(SwitchWord(id), "delay", ToString(ms)) }

  /** What the caller is handed, whatever the method leaves in `content` besides. */
  ghost predicate ReadAs(line: string, kind: string, content: seq<int>) {
    !ParseLine(line).Stops? && forall k, c | Describes(k, c, ParseLine(line)) :: k == kind && c == content
  }

  ghost predicate Skipped(line: string, kind: string) {
    !ParseLine(line).Stops? && forall k, c | Describes(k, c, ParseLine(line)) :: k == kind
  }

  /** What is made of the words of such a line. */
  lemma ParseOfWords(line: string, id: int)
    requires line != "" && line[0] != '#' && |Tokens(line)| == 3 && SwitchId(Tokens(line)[0]) == Some(id)
    ensures var second, third := Tokens(line)[1], ParseNumber(Tokens(line)[2]);
            ParseLine(line) ==
            if second == "delay" then
              if third.Some? && third.value >= 0 then Delay(id, third.value) else Error
            else if ParseNumber(second).Some? && ValidIp(ParseNumber(second).value) && third.Some? && ValidIp(third.value)
            then PacketLine(id, ParseNumber(second).value, third.value)
            else Error
  {
  }

  lemma PacketTextIs(id: int, srcIp: int, destIp: int)
    requires IsInt32(id) && (id == NULL_PORT || 1 <= id <= 7)
    ensures ParseLine(PacketText(id, srcIp, destIp)) ==
            if TakenForIp(srcIp) && TakenForIp(destIp) then PacketLine(id, TakenFor(srcIp).value, TakenFor(destIp).value)
            else Error
  {
    NumberIsWord(srcIp);
    NumberIsWord(destIp);
    LineWords(id, ToString(srcIp), ToString(destIp));
    NumberRoundTrip(srcIp);
    NumberRoundTrip(destIp);
    ParseOfWords(PacketText(id, srcIp, destIp), id);
  }

  lemma DelayTextIs(id: int, ms: int)
    requires IsInt32(id) && (id == NULL_PORT || 1 <= id <= 7)
    ensures ParseLine(DelayText(id, ms)) ==
            if TakenFor(ms).Some? && TakenFor(ms).value >= 0 then Delay(id, TakenFor(ms).value) else Error
  {
    NumberIsWord(ms);
    DelayIsWord();
    LineWords(id, "delay", ToString(ms));
    NumberRoundTrip(ms);
    ParseOfWords(DelayText(id, ms), id);
  }

  lemma DelayIsWord()
    ensures forall k | 0 <= k < |"delay"| :: !IsSpace("delay"[k])
  {
    assert "delay" == ['d', 'e', 'l', 'a', 'y'];
  }

  /** A line with two integers is read back as a packet with those addresses exactly when both are
      taken for numbers in 0..MAX_IP, and as an error otherwise. */
  lemma LineRoundTrip(id: int, srcIp: int, destIp: int)
    requires id == NULL_PORT || 1 <= id <= 7
    ensures var line := PacketText(id, srcIp, destIp);
            if TakenForIp(srcIp) && TakenForIp(destIp)
            then ReadAs(line, "action", [id, TakenFor(srcIp).value, TakenFor(destIp).value])
            else Skipped(line, "error")
    ensures ValidIp(srcIp) && ValidIp(destIp) ==> ReadAs(PacketText(id, srcIp, destIp), "action", [id, srcIp, destIp])
  {
    PacketTextIs(id, srcIp, destIp);
    ValidIsTakenForItself(srcIp);
    ValidIsTakenForItself(destIp);
  }

  lemma ValidIsTakenForItself(i: int)
    ensures ValidIp(i) ==> TakenFor(i) == Some(i)
  {
    if ValidIp(i) { TakenForItself(i); }
  }

  /** A delay line is read back as its switch and its time, in this order, exactly when the time is
      taken for a number that is not negative. */
  lemma DelayRoundTrip(id: int, ms: int)
    requires id == NULL_PORT || 1 <= id <= 7
    ensures var line := DelayText(id, ms);
            if TakenFor(ms).Some? && TakenFor(ms).value >= 0
            then ReadAs(line, "delay", [id, TakenFor(ms).value])
            else Skipped(line, "error")
    ensures 0 <= ms < 0x8000_0000 ==> ReadAs(DelayText(id, ms), "delay", [id, ms])
  {
    DelayTextIs(id, ms);
    if 0 <= ms < 0x8000_0000 { TakenForItself(ms); }
  }

  /** A line that starts with # is a comment, whatever follows, and an empty line is empty. */
  lemma CommentsAreSkipped(rest: string)
    ensures Skipped("#" + rest, "comment") && Skipped("", "empty")
  {
  }

  /** A line for a switch that does not exist ends the process. */
  lemma UnknownSwitchStops(id: int, second: string, third: string)
    requires IsInt32(id) && id != NULL_PORT && !(1 <= id <= 7)
    requires second != "" && forall i | 0 <= i < |second| :: !IsSpace(second[i])
    requires third != "" && forall i | 0 <= i < |third| :: !IsSpace(third[i])
    ensures ParseLine(Line(SwitchWord(id), second, third)).Stops?
  {
    LineWords(id, second, third);
  }
}
