/**
 The packet layer of femu-ocssd/gdbstub.c: framing and escaping on the way out (put_packet_binary,
 memtox) and the byte-at-a-time decoder gdb_read_byte on the way in, as described in "Overview" of
 Appendix E (GDB Remote Serial Protocol) of Debugging with GDB.
 */
module GdbPackets {

  type Byte = x: int | 0 <= x < 256

  const MAX_PACKET_LENGTH: nat := 4096

  const DOLLAR: Byte := 36
  const HASH: Byte := 35
  const STAR: Byte := 42
  const BRACE: Byte := 125
  const PLUS: Byte := 43
  const MINUS: Byte := 45

  // ---------------------------------------------------------------- hexadecimal digits

  predicate IsHex(ch: Byte) {
    48 <= ch <= 57 || 65 <= ch <= 70 || 97 <= ch <= 102
  }

  /** fromhex */
  function FromHex(ch: Byte): (v: nat)
    ensures v < 16
  {
    if 48 <= ch <= 57 then ch - 48
    else if 65 <= ch <= 70 then ch - 65 + 10
    else if 97 <= ch <= 102 then ch - 97 + 10
    else 0
  }

  /** tohex */
  function ToHex(v: nat): (ch: Byte)
    requires v < 16
    ensures IsHex(ch) && FromHex(ch) == v
  {
    if v < 10 then v + 48 else v - 10 + 97
  }

  /** c ^ 0x20 */
  function Xor20(c: Byte): (r: Byte)
    ensures r != c
  {
    if (c / 32) % 2 == 1 then c - 32 else c + 32
  }

  lemma {:induction false} Xor20Twice(c: Byte)
    ensures Xor20(Xor20(c)) == c
  {
  }

  // ---------------------------------------------------------------- sending

  predicate Special(c: Byte) {
    c == HASH || c == DOLLAR || c == STAR || c == BRACE
  }

  /** The escaping of one byte by memtox. */
  function EscapeByte(c: Byte): seq<Byte> {
    if Special(c) then [BRACE, Xor20(c)] else [c]
  }

  function Escape(data: seq<Byte>): seq<Byte> {
    if data == [] then [] else EscapeByte(data[0]) + Escape(data[1..])
  }

  function Sum(s: seq<Byte>): nat {
    if s == [] then 0 else s[0] + Sum(s[1..])
  }

  /** '#' and the checksum digits. */
  function Footer(sum: nat): seq<Byte> {
    [HASH, ToHex((sum / 16) % 16), ToHex(sum % 16)]
  }

  /** The bytes of a packet on the wire. */
  function Frame(body: seq<Byte>): seq<Byte> {
    [DOLLAR] + body + Footer(Sum(body))
  }

  lemma {:induction false} EscapeSnoc(data: seq<Byte>, c: Byte)
    ensures Escape(data + [c]) == Escape(data) + EscapeByte(c)
  {
    if data == [] {
      assert data + [c] == [c] && [c][1..] == [];
    } else {
      assert (data + [c])[1..] == data[1..] + [c];
      EscapeSnoc(data[1..], c);
    }
  }

  /** memtox */
  method MemToX(data: seq<Byte>) returns (buf: seq<Byte>)
    ensures buf == Escape(data)
  {
    buf := [];
    var i := 0;
    while i < |data|
      invariant 0 <= i <= |data| && buf == Escape(data[..i])
    {
      var c := data[i];
      EscapeSnoc(data[..i], c);
      assert data[..i + 1] == data[..i] + [c];
      if c == HASH || c == DOLLAR || c == STAR || c == BRACE {
        buf := buf + [BRACE, Xor20(c)];
      } else {
        buf := buf + [c];
      }
      i := i + 1;
    }
    assert data[..i] == data;
  }

  /** put_packet_binary up to the transmission: the contents of last_packet. */
  method PutPacketBinary(buf: seq<Byte>) returns (packet: seq<Byte>)
    ensures packet == Frame(buf)
  {
    packet := [DOLLAR] + buf;
    var csum, i := 0, 0;
    while i < |buf|
      invariant 0 <= i <= |buf| && csum + Sum(buf[i..]) == Sum(buf)
    {
      assert buf[i..] == [buf[i]] + buf[i + 1..];
      csum := csum + buf[i];
      i := i + 1;
    }
    assert buf[i..] == [];
    packet := packet + [HASH, ToHex((csum / 16) % 16), ToHex(csum % 16)];
  }

  // ---------------------------------------------------------------- receiving, byte by byte

  datatype Phase = Idle | GetLine | Esc | Rle | Sum1 | Sum2

  datatype Decoder = Decoder(phase: Phase, line: seq<Byte>, sum: nat, csum: nat)

  /** What one byte leads to: a packet acknowledged and handled, one refused, or neither. */
  datatype Event = Quiet | Ack(line: seq<Byte>) | Nak

  predicate Full(line: seq<Byte>) {
    |line| >= MAX_PACKET_LENGTH - 1
  }

  predicate BadCount(ch: Byte) {
    ch < 32 || ch == HASH || ch == DOLLAR || ch > 126
  }

  function RepeatCount(ch: Byte): nat
    requires !BadCount(ch)
  {
    ch - 32 + 3
  }

  function Repeated(line: seq<Byte>, n: nat): seq<Byte>
    requires line != []
  {
    line + seq(n, i => line[|line| - 1])
  }

  /** The switch of gdb_read_byte. */
  function Step(d: Decoder, ch: Byte): (Decoder, Event) {
    match d.phase
    case Idle => (if ch == DOLLAR then Decoder(GetLine, [], 0, d.csum) else d, Quiet)
    case GetLine =>
      (if ch == BRACE then d.(phase := Esc, sum := d.sum + ch)
       else if ch == STAR then d.(phase := Rle, sum := d.sum + ch)
       else if ch == HASH then d.(phase := Sum1)
       else if Full(d.line) then d.(phase := Idle)
       else d.(line := d.line + [ch], sum := d.sum + ch), Quiet)
    case Esc =>
      (if ch == HASH then d.(phase := Sum1)
       else if Full(d.line) then d.(phase := Idle)
       else Decoder(GetLine, d.line + [Xor20(ch)], d.sum + ch, d.csum), Quiet)
    case Rle =>
      (if BadCount(ch) then d.(phase := GetLine)
       else if |d.line| + RepeatCount(ch) >= MAX_PACKET_LENGTH - 1 then d.(phase := Idle)
       else if d.line == [] then d.(phase := GetLine)
       else Decoder(GetLine, Repeated(d.line, RepeatCount(ch)), d.sum + ch, d.csum), Quiet)
    case Sum1 =>
      (if IsHex(ch) then d.(phase := Sum2, csum := FromHex(ch) * 16) else d.(phase := GetLine), Quiet)
    case Sum2 =>
      if !IsHex(ch) then (d.(phase := GetLine), Quiet)
      else
        var csum := d.csum + FromHex(ch);
        (d.(phase := Idle, csum := csum), if csum == d.sum % 256 then Ack(d.line) else Nak)
  }

  function Events(d: Decoder, s: seq<Byte>): seq<Event>
    decreases |s|
  {
    if s == [] then []
    else
      var (d', e) := Step(d, s[0]);
      Emit(e) + Events(d', s[1..])
  }

  function Emit(e: Event): seq<Event> {
    if e == Quiet then [] else [e]
  }

  // ---------------------------------------------------------------- the same, token by token

  datatype Outcome = Incomplete | Finished(event: Event, rest: seq<Byte>)

  /**
   The contents of a packet that has begun, as a sequence of tokens: literal bytes, escapes, run
   lengths, and '#' with two digits.  Malformed tokens are dropped; an overrun ends the packet.
   */
  function Parse(s: seq<Byte>, line: seq<Byte>, sum: nat): (o: Outcome)
    ensures o.Finished? ==> |o.rest| <= |s|
    decreases |s|
  {
    if s == [] then Incomplete
    else if s[0] == BRACE then
      if |s| == 1 then Incomplete
      else if s[1] == HASH then ParseChecksum(s[2..], line, sum + BRACE)
      else if Full(line) then Finished(Quiet, s[2..])
      else Parse(s[2..], line + [Xor20(s[1])], sum + BRACE + s[1])
    else if s[0] == STAR then
      if |s| == 1 then Incomplete
      else if BadCount(s[1]) then Parse(s[2..], line, sum + STAR)
      else if |line| + RepeatCount(s[1]) >= MAX_PACKET_LENGTH - 1 then Finished(Quiet, s[2..])
      else if line == [] then Parse(s[2..], line, sum + STAR)
      else Parse(s[2..], Repeated(line, RepeatCount(s[1])), sum + STAR + s[1])
    else if s[0] == HASH then ParseChecksum(s[1..], line, sum)
    else if Full(line) then Finished(Quiet, s[1..])
    else Parse(s[1..], line + [s[0]], sum + s[0])
  }

  /** The two digits; anything else in their place is dropped and the packet goes on. */
  function ParseChecksum(s: seq<Byte>, line: seq<Byte>, sum: nat): (o: Outcome)
    ensures o.Finished? ==> |o.rest| <= |s|
    decreases |s|
  {
    if s == [] then Incomplete
    else if !IsHex(s[0]) then Parse(s[1..], line, sum)
    else if |s| == 1 then Incomplete
    else if !IsHex(s[1]) then Parse(s[2..], line, sum)
    else Finished(if FromHex(s[0]) * 16 + FromHex(s[1]) == sum % 256 then Ack(line) else Nak, s[2..])
  }

  /** The packets of a whole stream; bytes between packets are ignored. */
  function Packets(s: seq<Byte>): seq<Event>
    decreases |s|, 0
  {
    if s == [] then []
    else if s[0] != DOLLAR then Packets(s[1..])
    else After(Parse(s[1..], [], 0))
  }

  function After(o: Outcome): seq<Event>
    decreases if o.Finished? then |o.rest| else 0, 1
  {
    if o.Incomplete? then [] else Emit(o.event) + Packets(o.rest)
  }

  // ---------------------------------------------------------------- the decoder follows the token grammar

  lemma {:induction false} NoBytes(d: Decoder)
    ensures Events(d, []) == []
  {
  }

  lemma {:induction false} OneByte(d: Decoder, s: seq<Byte>)
    requires s != []
    ensures Events(d, s) == Emit(Step(d, s[0]).1) + Events(Step(d, s[0]).0, s[1..])
  {
  }

  /** Two bytes that cause no event. */
  lemma {:induction false} TwoBytes(d: Decoder, s: seq<Byte>)
    requires |s| >= 2 && Step(d, s[0]).1 == Quiet && Step(Step(d, s[0]).0, s[1]).1 == Quiet
    ensures Events(d, s) == Events(Step(Step(d, s[0]).0, s[1]).0, s[2..])
  {
    OneByte(d, s);
    OneByte(Step(d, s[0]).0, s[1..]);
    assert s[1..][0] == s[1] && s[1..][1..] == s[2..];
  }

  lemma {:induction false} IdleFollows(d: Decoder, s: seq<Byte>)
    requires d.phase == Idle
    ensures Events(d, s) == Packets(s)
    decreases |s|, 1
  {
    if s != [] {
      OneByte(d, s);
      if s[0] == DOLLAR {
        LineFollows(Step(d, s[0]).0, s[1..]);
      } else {
        IdleFollows(d, s[1..]);
      }
    }
  }

  lemma {:induction false} LineFollows(d: Decoder, s: seq<Byte>)
    requires d.phase == GetLine
    ensures Events(d, s) == After(Parse(s, d.line, d.sum))
    decreases |s|, 0
  {
    hide Events, Packets;
    if s == [] {
      NoBytes(d);
    } else if s[0] == BRACE || s[0] == STAR {
      if |s| == 1 {
        NoBytes(Step(d, s[0]).0);
        assert s[1..] == [];
        OneByte(d, s);
      } else {
        TwoBytes(d, s);
        var d' := Step(Step(d, s[0]).0, s[1]).0;
        match d'.phase {
          case Idle => IdleFollows(d', s[2..]);
          case GetLine => LineFollows(d', s[2..]);
          case Sum1 => ChecksumFollows(d', s[2..]);
        }
      }
    } else {
      OneByte(d, s);
      var d' := Step(d, s[0]).0;
      match d'.phase {
        case Idle => IdleFollows(d', s[1..]);
        case GetLine => LineFollows(d', s[1..]);
        case Sum1 => ChecksumFollows(d', s[1..]);
      }
    }
  }

  lemma {:induction false} ChecksumFollows(d: Decoder, s: seq<Byte>)
    requires d.phase == Sum1
    ensures Events(d, s) == After(ParseChecksum(s, d.line, d.sum))
    decreases |s|, 0
  {
    if s != [] {
      OneByte(d, s);
      var d1 := Step(d, s[0]).0;
      if !IsHex(s[0]) {
        LineFollows(d1, s[1..]);
      } else if |s| == 1 {
        assert s[1..] == [];
      } else {
        OneByte(d1, s[1..]);
        assert s[1..][0] == s[1] && s[1..][1..] == s[2..];
        var d2 := Step(d1, s[1]).0;
        if IsHex(s[1]) {
          IdleFollows(d2, s[2..]);
        } else {
          LineFollows(d2, s[2..]);
        }
      }
    }
  }

  /** For every byte stream whatsoever, an idle decoder accepts and refuses exactly the packets of the stream. */
  lemma {:induction false} DecoderFollowsGrammar(d: Decoder, s: seq<Byte>)
    requires d.phase == Idle
    ensures Events(d, s) == Packets(s)
  {
    IdleFollows(d, s);
  }

  // ---------------------------------------------------------------- what was sent is received

  predicate NoDollar(s: seq<Byte>) {
    forall i :: 0 <= i < |s| ==> s[i] != DOLLAR
  }

  lemma {:induction false} IgnoresRest(s: seq<Byte>)
    requires NoDollar(s)
    ensures Packets(s) == []
    decreases |s|
  {
    if s != [] {
      IgnoresRest(s[1..]);
    }
  }

  lemma {:induction false} SumAppend(a: seq<Byte>, b: seq<Byte>)
    ensures Sum(a + b) == Sum(a) + Sum(b)
  {
    if a == [] {
      assert a + b == b;
    } else {
      SumAppend(a[1..], b);
      assert (a + b)[1..] == a[1..] + b;
    }
  }

  lemma {:induction false} EscapeNoDollar(data: seq<Byte>)
    ensures NoDollar(Escape(data))
  {
    if data != [] {
      EscapeNoDollar(data[1..]);
    }
  }

  /** Parsing an escaped byte appends the byte, if there is room for it. */
  lemma {:induction false} ParseEscaped(c: Byte, t: seq<Byte>, line: seq<Byte>, sum: nat)
    ensures Parse(EscapeByte(c) + t, line, sum)
            == if Full(line) then Finished(Quiet, t) else Parse(t, line + [c], sum + Sum(EscapeByte(c)))
  {
    var s := EscapeByte(c) + t;
    if Special(c) {
      Xor20Twice(c);
      assert s[0] == BRACE && s[1] == Xor20(c) && s[1] != HASH && s[2..] == t;
      assert Sum([BRACE, Xor20(c)]) == BRACE + Sum([Xor20(c)]) == BRACE + Xor20(c) by {
        assert [BRACE, Xor20(c)][1..] == [Xor20(c)] && [Xor20(c)][1..] == [];
      }
    } else {
      assert s[0] == c && s[1..] == t;
      assert Sum([c]) == c by {
        assert [c][1..] == [];
      }
    }
  }

  lemma {:induction false} FooterParses(sum: nat, line: seq<Byte>)
    ensures Parse(Footer(sum), line, sum) == Finished(Ack(line), [])
  {
    var f := Footer(sum);
    assert f[1..] == [ToHex((sum / 16) % 16), ToHex(sum % 16)];
    assert f[1..][2..] == [];
    Digits(sum);
  }

  lemma {:induction false} Digits(sum: nat)
    ensures ((sum / 16) % 16) * 16 + sum % 16 == sum % 256
  {
  }

  /** The body of a packet parses to the data as long as it fits; otherwise the packet is abandoned. */
  lemma {:induction false} BodyParses(data: seq<Byte>, line: seq<Byte>, sum: nat, total: nat)
    requires total == sum + Sum(Escape(data)) && |line| <= MAX_PACKET_LENGTH - 1
    ensures |line| + |data| <= MAX_PACKET_LENGTH - 1 ==>
              Parse(Escape(data) + Footer(total), line, sum) == Finished(Ack(line + data), [])
    ensures |line| + |data| > MAX_PACKET_LENGTH - 1 ==>
              var o := Parse(Escape(data) + Footer(total), line, sum);
              o.Finished? && o.event == Quiet && NoDollar(o.rest)
    decreases |data|
  {
    hide Parse;
    if data == [] {
      assert Escape(data) + Footer(total) == Footer(total) && line + data == line;
      FooterParses(total, line);
    } else {
      var t := Escape(data[1..]) + Footer(total);
      assert Escape(data) + Footer(total) == EscapeByte(data[0]) + t;
      ParseEscaped(data[0], t, line, sum);
      SumAppend(EscapeByte(data[0]), Escape(data[1..]));
      if Full(line) {
        EscapeNoDollar(data[1..]);
      } else {
        BodyParses(data[1..], line + [data[0]], sum + Sum(EscapeByte(data[0])), total);
        assert line + [data[0]] + data[1..] == line + data;
      }
    }
  }

  /**
   A payload, escaped, framed and fed to an idle decoder, is received and acknowledged exactly when it
   has at most 4095 bytes; a longer one is dropped without any answer.
   */
  lemma {:induction false} RoundTrip(d: Decoder, data: seq<Byte>)
    requires d.phase == Idle
    ensures Events(d, Frame(Escape(data))) == if |data| <= 4095 then [Ack(data)] else []
  {
    var body := Escape(data);
    var s := Frame(body);
    DecoderFollowsGrammar(d, s);
    assert s[0] == DOLLAR && s[1..] == body + Footer(Sum(body));
    BodyParses(data, [], 0, Sum(body));
    assert [] + data == data;
    var o := Parse(s[1..], [], 0);
    IgnoresRest([]);
    assert Packets(s) == After(o);
    if |data| > 4095 {
      IgnoresRest(o.rest);
    }
  }

  // ---------------------------------------------------------------- the buffer

  predicate Bounded(d: Decoder) {
    |d.line| <= MAX_PACKET_LENGTH - 1 && d.csum < 256 && (d.phase == Sum2 ==> d.csum % 16 == 0)
  }

  /** line_buf_index never leaves the buffer, whatever is received. */
  lemma {:induction false} StepBounded(d: Decoder, ch: Byte)
    requires Bounded(d)
    ensures Bounded(Step(d, ch).0)
  {
  }

  /** gdbserver_state, as far as packets go. */
  class GdbServer {
    const lineBuf: array<Byte>
    var index: nat
    var phase: Phase
    var sum: nat
    var csum: nat
    var running: bool
    var lastPacket: seq<Byte>
    var output: seq<Byte>
    var accepted: seq<seq<Byte>>

    ghost predicate Valid()
      reads this, lineBuf
    {
      lineBuf.Length == MAX_PACKET_LENGTH && index < MAX_PACKET_LENGTH && Bounded(View())
    }

    ghost function View(): Decoder
      reads this, lineBuf
      requires index <= lineBuf.Length
    {
      Decoder(phase, lineBuf[..index], sum, csum)
    }

    constructor ()
      ensures Valid() && fresh(lineBuf) && View() == Decoder(Idle, [], 0, 0) && lastPacket == [] && output == []
              && accepted == [] && !running
    {
      lineBuf := new Byte[MAX_PACKET_LENGTH](i => 0);
      index, phase, sum, csum := 0, Idle, 0, 0;
      running, lastPacket, output, accepted := false, [], [], [];
    }

    /**
     gdb_read_byte.  While the answer to the last packet is outstanding only '$' gets through, '-' has
     it sent again and '+' or '$' forgets it; a running machine is stopped; otherwise the decoder takes
     a step.  `answer` is what gdb_handle_packet sends if the byte completes a packet.
     */
    method ReadByte(ch: Byte, answer: seq<Byte>) returns (ghost e: Event)
      requires Valid()
      modifies this, lineBuf
      ensures Valid()
      ensures old(lastPacket) != [] && ch != DOLLAR ==>
                e == Quiet && View() == old(View()) && accepted == old(accepted) && running == old(running)
                && output == old(output) + (if ch == MINUS then old(lastPacket) else [])
                && lastPacket == if ch == PLUS then [] else old(lastPacket)
      ensures (old(lastPacket) == [] || ch == DOLLAR) && old(running) ==>
                e == Quiet && !running && View() == old(View()) && accepted == old(accepted) && output == old(output)
                && lastPacket == []
      ensures (old(lastPacket) == [] || ch == DOLLAR) && !old(running) ==>
                && !running && (View(), e) == Step(old(View()), ch)
                && match e {
                     case Quiet => accepted == old(accepted) && output == old(output) && lastPacket == []
                     case Ack(line) =>
                       accepted == old(accepted) + [line] && output == old(output) + [PLUS] + answer
                       && lastPacket == answer
                     case Nak => accepted == old(accepted) && output == old(output) + [MINUS] && lastPacket == []
                   }
    {
      e := Quiet;
      if lastPacket != [] {
        if ch == MINUS {
          output := output + lastPacket;
        }
        if ch == PLUS || ch == DOLLAR {
          lastPacket := [];
        }
        if ch != DOLLAR {
          return;
        }
      }
      if running {
        running := false;
        return;
      }
      e := Decode(ch, answer);
    }

    /** The switch of gdb_read_byte on line_buf. */
    method Decode(ch: Byte, answer: seq<Byte>) returns (ghost e: Event)
      requires Valid() && lastPacket == []
      modifies this, lineBuf
      ensures Valid() && (View(), e) == Step(old(View()), ch) && running == old(running)
      ensures match e {
                case Quiet => accepted == old(accepted) && output == old(output) && lastPacket == []
                case Ack(line) =>
                  accepted == old(accepted) + [line] && output == old(output) + [PLUS] + answer && lastPacket == answer
                case Nak => accepted == old(accepted) && output == old(output) + [MINUS] && lastPacket == []
              }
    {
      e := Quiet;
      StepBounded(View(), ch);
      match phase
      case Idle =>
        if ch == DOLLAR {
          index, sum, phase := 0, 0, GetLine;
        }
      case GetLine => DecodeLiteral(ch);
      case Esc => DecodeEscaped(ch);
      case Rle => DecodeCount(ch);
      case Sum1 =>
        if !IsHex(ch) {
          phase := GetLine;
        } else {
          assert lineBuf[..index] == lineBuf[..][..index];
          lineBuf[index] := 0;
          csum, phase := FromHex(ch) * 16, Sum2;
        }
      case Sum2 => e := DecodeLastDigit(ch, answer);
    }

    method DecodeLiteral(ch: Byte)
      requires Valid() && phase == GetLine
      modifies this`index, this`phase, this`sum, lineBuf
      ensures index <= lineBuf.Length && (View(), Quiet) == Step(old(View()), ch)
    {
      if ch == BRACE {
        phase, sum := Esc, sum + ch;
      } else if ch == STAR {
        phase, sum := Rle, sum + ch;
      } else if ch == HASH {
        phase := Sum1;
      } else if index >= lineBuf.Length - 1 {
        phase := Idle;
      } else {
        Append(ch);
        sum := sum + ch;
      }
    }

    method DecodeEscaped(ch: Byte)
      requires Valid() && phase == Esc
      modifies this`index, this`phase, this`sum, lineBuf
      ensures index <= lineBuf.Length && (View(), Quiet) == Step(old(View()), ch)
    {
      if ch == HASH {
        phase := Sum1;
      } else if index >= lineBuf.Length - 1 {
        phase := Idle;
      } else {
        Append(Xor20(ch));
        sum, phase := sum + ch, GetLine;
      }
    }

    method DecodeCount(ch: Byte)
      requires Valid() && phase == Rle
      modifies this`index, this`phase, this`sum, lineBuf
      ensures index <= lineBuf.Length && (View(), Quiet) == Step(old(View()), ch)
    {
      if ch < 32 || ch == HASH || ch == DOLLAR || ch > 126 {
        phase := GetLine;
      } else {
        var repeat := ch - 32 + 3;
        if index + repeat >= lineBuf.Length - 1 {
          phase := Idle;
        } else if index < 1 {
          phase := GetLine;
        } else {
          RepeatLast(repeat);
          sum, phase := sum + ch, GetLine;
        }
      }
    }

    method DecodeLastDigit(ch: Byte, answer: seq<Byte>) returns (ghost e: Event)
      requires Valid() && phase == Sum2 && lastPacket == []
      modifies this`phase, this`csum, this`output, this`accepted, this`lastPacket
      ensures index <= lineBuf.Length && (View(), e) == Step(old(View()), ch)
      ensures match e {
                case Quiet => accepted == old(accepted) && output == old(output) && lastPacket == []
                case Ack(line) =>
                  accepted == old(accepted) + [line] && output == old(output) + [PLUS] + answer && lastPacket == answer
                case Nak => accepted == old(accepted) && output == old(output) + [MINUS] && lastPacket == []
              }
    {
      e := Quiet;
      if !IsHex(ch) {
        phase := GetLine;
        return;
      }
      csum := csum + FromHex(ch);
      phase := Idle;
      if csum != sum % 256 {
        output := output + [MINUS];
        e := Nak;
      } else {
        output := output + [PLUS];
        accepted := accepted + [lineBuf[..index]];
        lastPacket := answer;
        output := output + answer;
        e := Ack(lineBuf[..index]);
      }
    }

    method Append(ch: Byte)
      requires index < lineBuf.Length
      modifies this`index, lineBuf
      ensures index == old(index) + 1 && lineBuf[..index] == old(lineBuf[..index]) + [ch]
    {
      lineBuf[index] := ch;
      index := index + 1;
    }

    /** The memset of a run length: the last character, n more times. */
    method RepeatLast(n: nat)
      requires 1 <= index && index + n < lineBuf.Length
      modifies this`index, lineBuf
      ensures index == old(index) + n && lineBuf[..index] == Repeated(old(lineBuf[..index]), n)
    {
      var last := lineBuf[index - 1];
      forall i | index <= i < index + n {
        lineBuf[i] := last;
      }
      index := index + n;
    }
  }
}
