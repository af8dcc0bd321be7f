/**
  A transport stream as a player reads it that knows nothing but ISO/IEC 13818-1 (sections 2.4.3 and 2.4.4): bytes cut
  into packets, adaptation fields and clock references, program tables; and what it makes of the muxer's packets.
 */
module TsReader {
  import opened Bytes
  import Crc
  import opened Psi
  import opened TsPacket

  // ---------------------------------------------------------------- packets

  /** The bytes of a stream, 188 at a time. */
  function PacketsOf(b: seq<byte>): seq<Packet>
    decreases |b|
  {
    if |b| < 188 then [] else [b[..188]] + PacketsOf(b[188..])
  }

  /** The bytes of a file are its packets again. */
  lemma {:induction false} FilePackets(ps: seq<Packet>)
    ensures PacketsOf(Flat(ps)) == ps && |Flat(ps)| == 188 * |ps|
  {
    if ps != [] {
      FilePackets(ps[1..]);
      var b := Flat(ps);
      assert b[..188] == ps[0] && b[188..] == Flat(ps[1..]);
      assert [ps[0]] + ps[1..] == ps;
    }
  }

  /** 1: only a payload; 3: an adaptation field and a payload. */
  function Control(p: Packet): nat {
    (p[3] as nat) / 16 % 4
  }

  predicate HasPcr(p: Packet) {
    Control(p) >= 2 && p[4] >= 7 && (p[5] as nat) / 16 % 2 == 1
  }

  /** program_clock_reference: the base of 33 bits, 300 times, and the extension of 9. */
  function Clock(p: Packet): seq<nat> {
    if HasPcr(p) then [PcrBase(p[6..12]) * 300 + (p[10] as nat) % 2 * 256 + p[11]] else []
  }

  /** Flags that are all 0 but PCR_flag, and stuffing bytes behind what the flags announce. */
  predicate FieldFilled(p: Packet)
    requires p[4] <= 183
  {
    p[4] > 0 ==>
      && (p[5] == 0 || p[5] == 0x10)
      && forall i :: 5 + (if HasPcr(p) then 7 else 1) <= i < 5 + (p[4] as nat) ==> p[i] == 0xff
  }

  /**
    A packet that a reader can use: sync_byte 0x47, no error, no priority, not scrambled, a payload announced, and an
    adaptation field that ends in the packet and is filled as it says.
   */
  predicate Readable(p: Packet) {
    && p[0] == 0x47 && (p[1] as nat) / 128 == 0 && (p[1] as nat) / 32 % 2 == 0 && (p[3] as nat) / 64 == 0
    && (Control(p) == 1 || (Control(p) == 3 && p[4] <= 183 && FieldFilled(p)))
  }

  /** In front of a payload the adaptation field has 182 bytes at most, so that one byte of payload is left. */
  predicate Proper(p: Packet) {
    Readable(p) && (Control(p) == 3 ==> p[4] <= 182)
  }

  ghost predicate AllReadable(ps: seq<Packet>) {
    forall p :: p in ps ==> Readable(p)
  }

  ghost predicate AllProper(ps: seq<Packet>) {
    forall p :: p in ps ==> Proper(p)
  }

  /** The clock references of a stream. */
  function Clocks(ps: seq<Packet>): seq<nat> {
    if ps == [] then [] else Clocks(ps[..|ps| - 1]) + Clock(ps[|ps| - 1])
  }

  lemma {:induction false} ClocksAppend(ps: seq<Packet>, qs: seq<Packet>)
    ensures Clocks(ps + qs) == Clocks(ps) + Clocks(qs)
    decreases |qs|
  {
    hide Clock;
    if qs == [] {
      assert ps + qs == ps;
    } else {
      var n := |qs| - 1;
      ClocksAppend(ps, qs[..n]);
      assert (ps + qs)[..|ps| + n] == ps + qs[..n];
    }
  }

  // ---------------------------------------------------------------- tables

  /** A section behind the pointer_field of a packet, as long as its section_length says. */
  function SectionIn(p: Packet): seq<byte> {
    var d := Payload(p);
    if !Starts(p) || |d| < 1 || |d| < 4 + (d[0] as nat) then []
    else
      var s := d[1 + (d[0] as nat)..];
      var n := 3 + (s[1] as nat) % 16 * 256 + s[2];
      if |s| < n then [] else s[..n]
  }

  function Words(s: seq<byte>): (r: seq<bv8>)
    ensures |r| == |s|
  {
    seq(|s|, i requires 0 <= i < |s| => s[i] as bv8)
  }

  /** A whole section that is in force, alone in its table, and passes its check. */
  predicate InForce(s: seq<byte>, tableId: byte) {
    && |s| >= 12 && s[0] == tableId && (s[1] as nat) / 128 == 1 && s[5] % 2 == 1 && s[6] == s[7] == 0
    && Crc.Remainder(Words(s)) == 0
  }

  /** The programs of a program association section: number and PID of the map. */
  function ProgramLoop(b: seq<byte>): seq<(nat, nat)>
    decreases |b|
  {
    if |b| < 4 then []
    else [((b[0] as nat) * 256 + b[1], (b[2] as nat) % 32 * 256 + b[3])] + ProgramLoop(b[4..])
  }

  /** The streams of a program map section: stream_type and elementary_PID, descriptors left out. */
  function StreamLoop(b: seq<byte>): seq<(nat, nat)>
    decreases |b|
  {
    if |b| < 5 then []
    else
      var n := 5 + (b[3] as nat) % 16 * 256 + b[4];
      [(b[0] as nat, (b[1] as nat) % 32 * 256 + b[2])] + if |b| < n then [] else StreamLoop(b[n..])
  }

  /** The first packet of a PID that starts something. */
  function FirstOf(ps: seq<Packet>, pid: nat): seq<Packet> {
    if ps == [] then [] else if Pid(ps[0]) == pid && Starts(ps[0]) then [ps[0]] else FirstOf(ps[1..], pid)
  }

  datatype Program = Program(number: nat, pcrPid: nat, streams: seq<(nat, nat)>) | NoProgram

  /** From the packets of PID 0 to the first program, and from there to its map. */
  function ProgramOf(ps: seq<Packet>): Program {
    var pat := FirstOf(ps, 0);
    if pat == [] || !InForce(SectionIn(pat[0]), 0) then NoProgram
    else
      var s := SectionIn(pat[0]);
      var programs := ProgramLoop(s[8..|s| - 4]);
      if programs == [] then NoProgram
      else
        var pmt := FirstOf(ps, programs[0].1);
        if pmt == [] then NoProgram else MapOf(programs[0].0, SectionIn(pmt[0]))
  }

  function MapOf(number: nat, s: seq<byte>): Program {
    if !InForce(s, 2) || (s[3] as nat) * 256 + s[4] != number then NoProgram
    else
      var at := 12 + (s[10] as nat) % 16 * 256 + s[11];
      if at > |s| - 4 then NoProgram
      else Program(number, (s[8] as nat) % 32 * 256 + s[9], StreamLoop(s[at..|s| - 4]))
  }

  // ---------------------------------------------------------------- what the muxer's packets are to it

  lemma HeaderProper(start: bool, pid: nat, control: nat, counter: nat, body: seq<byte>)
    requires pid < 0x2000 && counter < 16 && |body| == 184 && (control == 1 || control == 3)
    ensures var p: Packet := Header(start, pid, control, counter) + body;
      && p[0] == 0x47 && (p[1] as nat) / 128 == 0 && (p[1] as nat) / 32 % 2 == 0 && (p[3] as nat) / 64 == 0
      && Control(p) == control && p[4..] == body
  {
  }

  lemma PlainRead(start: bool, pid: nat, counter: nat, body: seq<byte>)
    requires pid < 0x2000 && counter < 16 && |body| == 184
    ensures var p: Packet := Header(start, pid, 1, counter) + body; Proper(p) && Clock(p) == []
  {
    HeaderProper(start, pid, 1, counter, body);
    hide Header;
  }

  /** Flags of 0 and n stuffing bytes. */
  lemma StuffedField(start: bool, pid: nat, counter: nat, n: nat, data: seq<byte>)
    requires pid < 0x2000 && counter < 16 && 2 + n + |data| == 184
    ensures var p: Packet := Header(start, pid, 3, counter) + ([1 + n, 0] + Fill(n) + data);
      Readable(p) && Clock(p) == [] && (Proper(p) <==> data != [])
  {
    var body := [1 + n, 0] + Fill(n) + data;
    HeaderProper(start, pid, 3, counter, body);
    hide Header;
    var p: Packet := Header(start, pid, 3, counter) + body;
    assert p[4] == body[0] && p[5] == body[1];
    assert forall i :: 6 <= i < 6 + n ==> p[i] == body[i - 4];
  }

  /** A packet of the append loop is as it should be if and only if there was something to put in it. */
  lemma StuffedRead(start: bool, pid: nat, counter: nat, data: seq<byte>)
    requires pid < 0x2000 && counter < 16
    ensures var p := Stuffed(start, pid, counter, data);
      Readable(p) && Clock(p) == [] && (Proper(p) <==> data != [])
  {
    hide Readable, Proper, Clock, Header, Fill;
    var p, n := Stuffed(start, pid, counter, data), |data|;
    if n >= 184 {
      PlainRead(start, pid, counter, data[..184]);
      ProperIsReadable(p);
    } else if n == 183 {
      StuffedField(start, pid, counter, 0, data[..182]);
      NoFill();
      assert p == Header(start, pid, 3, counter) + ([1, 0] + Fill(0) + data[..182]);
    } else {
      StuffedField(start, pid, counter, 182 - n, data);
      assert p == Header(start, pid, 3, counter) + ([183 - n, 0] + Fill(182 - n) + data);
    }
  }

  lemma NoFill()
    ensures Fill(0) == []
  {
  }

  /** The keyframe's first packet carries the clock, as 300 times the base. */
  lemma KeyRead(counter: nat, data: seq<byte>, pcr: nat)
    requires counter < 16 && pcr < 0x2_0000_0000
    ensures var p := KeyPacket(counter, data, pcr); Proper(p) && Clock(p) == [pcr * 300]
  {
    var body := [7, 0x10] + PcrField(pcr) + Padded(data, 176);
    HeaderProper(true, VIDEO_PID, 3, counter, body);
    KeyReadsBack(counter, data, pcr);
    PcrFieldReadsBack(pcr);
    LowBits(pcr);
    hide Header, Padded, PcrBase;
    var p := KeyPacket(counter, data, pcr);
    assert p == Header(true, VIDEO_PID, 3, counter) + body;
    assert p[4] == body[0] && p[5] == body[1] && p[10] == body[6] && p[11] == body[7];
    assert body[6] == PcrField(pcr)[4] && body[7] == PcrField(pcr)[5];
    hide PcrField;
  }

  lemma LowBits(pcr: nat)
    ensures (PcrField(pcr)[4] as nat) % 2 == 0 && PcrField(pcr)[5] == 0
  {
  }

  lemma InterRead(counter: nat, data: seq<byte>)
    requires counter < 16
    ensures var p := InterPacket(counter, data); Proper(p) && Clock(p) == []
  {
    PlainRead(true, VIDEO_PID, counter, Padded(data, 184));
  }

  lemma TableRead(pid: nat, section: seq<byte>)
    requires pid < 0x2000
    ensures var p := TablePacket(pid, section); Proper(p) && Clock(p) == []
  {
    PlainRead(true, pid, 0, [0] + Padded(section, 183));
    hide Header, Padded;
    assert TablePacket(pid, section) == Header(true, pid, 1, 0) + ([0] + Padded(section, 183));
  }

  lemma OneClock(p: Packet)
    ensures Clocks([p]) == Clock(p)
  {
    hide Clock;
    assert [p][..0] == [];
  }

  lemma ReadFirst(p: Packet, qs: seq<Packet>)
    requires AllReadable(qs)
    ensures AllReadable([p] + qs) <==> Readable(p)
    ensures AllProper([p] + qs) <==> Proper(p) && AllProper(qs)
    ensures Clocks([p] + qs) == Clock(p) + Clocks(qs)
  {
    ClocksAppend([p], qs);
    OneClock(p);
    hide Readable, Proper, Clock, Clocks;
    assert forall q :: q in [p] + qs <==> q == p || q in qs;
  }

  /** The append loop: no clock, and one packet that is not proper just when there is nothing to carry. */
  lemma {:induction false} RestRead(pid: nat, counter: nat, data: seq<byte>)
    requires pid < 0x2000 && counter < 16
    ensures var qs := Rest(pid, counter, data);
      AllReadable(qs) && Clocks(qs) == [] && (AllProper(qs) <==> data != [])
    decreases |data|
  {
    hide Stuffed, AllReadable, AllProper, Readable, Proper, Clock, Clocks;
    var n := Taken(|data|);
    var p := Stuffed(false, pid, counter, data);
    StuffedRead(false, pid, counter, data);
    if n >= |data| {
      NothingRead();
      ReadFirst(p, []);
      assert Rest(pid, counter, data) == [p] + [];
    } else {
      RestRead(pid, (counter + 1) % 16, data[n..]);
      ReadFirst(p, Rest(pid, (counter + 1) % 16, data[n..]));
    }
  }

  lemma NothingRead()
    ensures AllReadable([]) && AllProper([]) && Clocks([]) == []
  {
  }

  /** The packets of one frame are proper if and only if the first cannot take it all. */
  lemma KeyPacketsRead(counter: nat, pes: seq<byte>, pcr: nat)
    requires counter < 16 && pcr < 0x2_0000_0000
    ensures var ps := KeyPackets(counter, pes, pcr);
      AllReadable(ps) && Clocks(ps) == [pcr * 300] && (AllProper(ps) <==> |pes| > 176)
  {
    hide KeyPacket, Rest, AllReadable, AllProper, Readable, Proper, Clock, Clocks;
    KeyRead(counter, pes, pcr);
    RestRead(VIDEO_PID, (counter + 1) % 16, Drop(pes, 176));
    ReadFirst(KeyPacket(counter, pes, pcr), Rest(VIDEO_PID, (counter + 1) % 16, Drop(pes, 176)));
    ProperIsReadable(KeyPacket(counter, pes, pcr));
  }

  lemma ProperIsReadable(p: Packet)
    ensures Proper(p) ==> Readable(p)
  {
  }

  lemma InterPacketsRead(counter: nat, pes: seq<byte>)
    requires counter < 16
    ensures var ps := InterPackets(counter, pes);
      AllReadable(ps) && Clocks(ps) == [] && (AllProper(ps) <==> |pes| > 184)
  {
    hide InterPacket, Rest, AllReadable, AllProper, Readable, Proper, Clock, Clocks;
    InterRead(counter, pes);
    RestRead(VIDEO_PID, (counter + 1) % 16, Drop(pes, 184));
    ReadFirst(InterPacket(counter, pes), Rest(VIDEO_PID, (counter + 1) % 16, Drop(pes, 184)));
    ProperIsReadable(InterPacket(counter, pes));
  }

  lemma AacPacketsRead(counter: nat, pes: seq<byte>)
    requires counter < 16 && pes != []
    ensures var ps := AacPackets(counter, pes);
      AllReadable(ps) && Clocks(ps) == [] && (AllProper(ps) <==> |pes| > 184 || |pes| == 183)
  {
    hide Stuffed, Rest, AllReadable, AllProper, Readable, Proper, Clock, Clocks;
    StuffedRead(true, AUDIO_PID, counter, pes);
    RestRead(AUDIO_PID, (counter + 1) % 16, Drop(pes, Taken(|pes|)));
    ReadFirst(Stuffed(true, AUDIO_PID, counter, pes), Rest(AUDIO_PID, (counter + 1) % 16, Drop(pes, Taken(|pes|))));
  }

  // ---------------------------------------------------------------- what its tables are to it

  /** A section of the length that it says it has. */
  lemma TableIn(pid: nat, section: seq<byte>)
    requires pid < 0x2000 && 12 <= |section| <= 183
    requires |section| == 3 + (section[1] as nat) % 16 * 256 + section[2]
    ensures var p := TablePacket(pid, section);
      Pid(p) == pid && Starts(p) && SectionIn(p) == section
  {
    TableReadsBack(pid, section);
    hide Pid, Starts, Payload, TablePacket;
    var d := [0] + Padded(section, 183);
    var s := d[1..];
    assert s[..|section|] == section;
    assert s[1] == s[..|section|][1] && s[2] == s[..|section|][2];
  }

  lemma WordsBack(s: seq<bv8>)
    ensures Words(Octets(s)) == s
  {
  }

  /** A section of the muxer passes its check. */
  lemma SectionPasses(body: seq<bv8>)
    ensures Crc.Remainder(Words(Octets(Section(body)))) == 0
  {
    WordsBack(Section(body));
    hide *;
    SectionChecks(body, Section(body));
  }

  function PatSection(): seq<byte> {
    Octets(Section(PAT_BODY))
  }

  function PmtSection(): seq<byte> {
    Octets(Section(PMT_BODY))
  }

  /** One program, number 1, with its map on PID 0x1001. */
  lemma PatMeans()
    ensures var s := PatSection();
      InForce(s, 0) && |s| == 16 && |s| == 3 + (s[1] as nat) % 16 * 256 + s[2]
      && ProgramLoop(s[8..|s| - 4]) == [(1, 0x1001)]
  {
    SectionPasses(PAT_BODY);
    hide Crc.Remainder, Crc.BigEndian;
    var s := PatSection();
    assert forall i :: 0 <= i < 12 ==> s[i] == PAT_BODY[i] as int;
    assert s[8..12][4..] == [];
  }

  lemma PmtBytes()
    ensures var s := PmtSection();
      && |s| == 26
      && s[..12] == [0x02, 0xb0, 0x17, 0x00, 0x01, 0xc1, 0x00, 0x00, 0xe1, 0x00, 0xf0, 0x00]
      && s[12..22] == [0x0f, 0xe1, 0x01, 0xf0, 0x00, 0x1b, 0xe1, 0x00, 0xf0, 0x00]
  {
    hide Crc.Remainder, Crc.BigEndian;
    var s := PmtSection();
    assert forall i :: 0 <= i < 22 ==> s[i] == PMT_BODY[i] as int;
  }

  lemma TwoStreams()
    ensures StreamLoop([0x0f, 0xe1, 0x01, 0xf0, 0x00, 0x1b, 0xe1, 0x00, 0xf0, 0x00]) ==
      [(0x0f, 0x101), (0x1b, 0x100)]
  {
    var second: seq<byte> := [0x1b, 0xe1, 0x00, 0xf0, 0x00];
    OneStream(0x0f, 0x01, second);
    OneStream(0x1b, 0x00, []);
    assert [0x0f, 0xe1, 0x01, 0xf0, 0x00] + second == [0x0f, 0xe1, 0x01, 0xf0, 0x00, 0x1b, 0xe1, 0x00, 0xf0, 0x00];
    assert second + [] == second && StreamLoop([]) == [];
  }

  lemma OneStream(streamType: byte, low: byte, rest: seq<byte>)
    ensures StreamLoop([streamType, 0xe1, low, 0xf0, 0x00] + rest) == [(streamType, 0x100 + low)] + StreamLoop(rest)
  {
    var b := [streamType, 0xe1, low, 0xf0, 0x00] + rest;
    assert b[5..] == rest;
  }

  lemma PmtPasses()
    ensures Crc.Remainder(Words(PmtSection())) == 0
  {
    hide Crc.Remainder, Words, Octets, Section;
    SectionPasses(PMT_BODY);
  }

  lemma PmtInForce()
    ensures InForce(PmtSection(), 2)
  {
    hide PmtSection, Crc.Remainder, Words;
    PmtPasses();
    PmtBytes();
    var s := PmtSection();
    assert forall i :: 0 <= i < 12 ==> s[i] == s[..12][i];
  }

  /** Its clock is on PID 0x100, and it has ADTS sound on PID 0x101 and H.264 pictures on PID 0x100. */
  lemma PmtMeans()
    ensures var s := PmtSection();
      |s| == 26 && |s| == 3 + (s[1] as nat) % 16 * 256 + s[2]
      && MapOf(1, s) == Program(1, 0x100, [(0x0f, 0x101), (0x1b, 0x100)])
  {
    hide *;
    PmtInForce();
    PmtBytes();
    TwoStreams();
    var s := PmtSection();
    assert forall i :: 0 <= i < 12 ==> s[i] == s[..12][i];
    MapMeans(s);
  }

  lemma MapMeans(s: seq<byte>)
    requires InForce(s, 2) && s[3] == 0 && s[4] == 1 && s[8] == 0xe1 && s[9] == 0 && s[10] == 0xf0 && s[11] == 0
    requires |s| == 26
    ensures MapOf(1, s) == Program(1, 0x100, StreamLoop(s[12..22]))
  {
    hide InForce, StreamLoop;
  }
}
