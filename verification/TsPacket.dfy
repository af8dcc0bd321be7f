/**
  Transport stream packets (hls.go:384-640; section 2.4.3 of ISO/IEC 13818-1): the 188 bytes that the muxer lays
  out, and what a demultiplexer makes of them. The methods that fill the packets are in HlsStream.dfy.
 */
module TsPacket {
  import opened Bytes

  const PACKET_LEN: nat := 188
  const PAT_PID: nat := 0x0
  const PMT_PID: nat := 0x1001
  const VIDEO_PID: nat := 0x100
  const AUDIO_PID: nat := 0x101

  type Packet = p: seq<byte> | |p| == PACKET_LEN witness seq(PACKET_LEN, _ => 0)

  // ---------------------------------------------------------------- what the muxer writes

  function Header(start: bool, pid: nat, control: nat, counter: nat): (h: seq<byte>)
    requires pid < 0x2000 && control < 4 && counter < 16
    ensures |h| == 4
  {
    [0x47, (if start then 0x40 else 0) + pid / 256, pid % 256, control * 16 + counter]
  }

  function Fill(n: nat): (f: seq<byte>)
    ensures |f| == n
  {
    seq(n, _ => 0xff)
  }

  /** data cut or padded with 0xff to n bytes. */
  function Padded(data: seq<byte>, n: nat): (r: seq<byte>)
    ensures |r| == n
  {
    if |data| >= n then data[..n] else data + Fill(n - |data|)
  }

  /** How many bytes TsPacketCreate and TsPacketCreateAacFrame take of n: with 183, one byte fewer fits. */
  function Taken(n: nat): (t: nat)
    ensures t <= n && (n > 0 ==> t > 0)
  {
    if n >= 184 then 184 else if n == 183 then 182 else n
  }

  /** A packet that is filled up by an adaptation field in front of the data. */
  function Stuffed(start: bool, pid: nat, counter: nat, data: seq<byte>): (p: Packet)
    requires pid < 0x2000 && counter < 16
  {
    var n := |data|;
    if n >= 184 then Header(start, pid, 1, counter) + data[..184]
    else if n == 183 then Header(start, pid, 3, counter) + [1, 0] + data[..182]
    else Header(start, pid, 3, counter) + [183 - n, 0] + Fill(182 - n) + data
  }

  /** A program clock reference of which only the base is used. */
  function PcrField(pcr: nat): (f: seq<byte>)
    ensures |f| == 6
  {
    [pcr / 0x200_0000 % 256, pcr / 0x2_0000 % 256, pcr / 0x200 % 256, pcr / 2 % 256, pcr % 2 * 128 + 0x7e, 0]
  }

  function KeyPacket(counter: nat, data: seq<byte>, pcr: nat): (p: Packet)
    requires counter < 16
  {
    Header(true, VIDEO_PID, 3, counter) + ([7, 0x10] + PcrField(pcr)) + Padded(data, 176)
  }

  function InterPacket(counter: nat, data: seq<byte>): (p: Packet)
    requires counter < 16
  {
    Header(true, VIDEO_PID, 1, counter) + Padded(data, 184)
  }

  /** A packet with a whole section; its counter is always 0. */
  function TablePacket(pid: nat, section: seq<byte>): (p: Packet)
    requires pid < 0x2000
  {
    Header(true, pid, 1, 0) + [0] + Padded(section, 183)
  }

  /** The append loops: packets until nothing is left, and at least one. */
  function Rest(pid: nat, counter: nat, data: seq<byte>): (ps: seq<Packet>)
    requires pid < 0x2000 && counter < 16
    decreases |data|
  {
    var n := Taken(|data|);
    [Stuffed(false, pid, counter, data)] +
    if n >= |data| then [] else Rest(pid, (counter + 1) % 16, data[n..])
  }

  function Drop(data: seq<byte>, n: nat): seq<byte> {
    if n >= |data| then [] else data[n..]
  }

  function KeyPackets(counter: nat, pes: seq<byte>, pcr: nat): seq<Packet>
    requires counter < 16
  {
    [KeyPacket(counter, pes, pcr)] + Rest(VIDEO_PID, (counter + 1) % 16, Drop(pes, 176))
  }

  function InterPackets(counter: nat, pes: seq<byte>): seq<Packet>
    requires counter < 16
  {
    [InterPacket(counter, pes)] + Rest(VIDEO_PID, (counter + 1) % 16, Drop(pes, 184))
  }

  function AacPackets(counter: nat, pes: seq<byte>): seq<Packet>
    requires counter < 16
  {
    [Stuffed(true, AUDIO_PID, counter, pes)] +
    Rest(AUDIO_PID, (counter + 1) % 16, Drop(pes, Taken(|pes|)))
  }

  // ---------------------------------------------------------------- what a demultiplexer reads

  function Pid(p: Packet): nat
  {
    (p[1] as nat) % 32 * 256 + p[2]
  }

  predicate Starts(p: Packet)
  {
    p[1] / 64 % 2 == 1
  }

  function Counter(p: Packet): nat
  {
    p[3] % 16
  }

  /** What is behind the header and the adaptation field. */
  function Payload(p: Packet): seq<byte>
  {
    var control := p[3] / 16 % 4;
    if control == 1 then p[4..]
    else if control == 3 then Drop(p, 5 + (p[4] as nat))
    else []
  }

  function PcrBase(f: seq<byte>): nat
    requires |f| == 6
  {
    (f[0] as nat) * 0x200_0000 + (f[1] as nat) * 0x2_0000 + (f[2] as nat) * 0x200 + (f[3] as nat) * 2 +
    (f[4] as nat) / 128
  }

  /** The packets of one PID, in order. */
  function OfPid(ps: seq<Packet>, pid: nat): (qs: seq<Packet>)
  {
    if ps == [] then []
    else
      var p := ps[|ps| - 1];
      OfPid(ps[..|ps| - 1], pid) + if Pid(p) == pid then [p] else []
  }

  /** The units of packets of one PID: a new one at each payload_unit_start, and nothing before the first. */
  function Units(qs: seq<Packet>): seq<seq<byte>>
  {
    if qs == [] then []
    else
      var us, q := Units(qs[..|qs| - 1]), qs[|qs| - 1];
      if Starts(q) then us + [Payload(q)]
      else if us == [] then []
      else us[..|us| - 1] + [us[|us| - 1] + Payload(q)]
  }

  function Demux(ps: seq<Packet>, pid: nat): seq<seq<byte>>
  {
    Units(OfPid(ps, pid))
  }

  /** The i-th packet carries i mod 16. */
  ghost predicate Counted(qs: seq<Packet>)
  {
    forall i :: 0 <= i < |qs| ==> Counter(qs[i]) == i % 16
  }

  // ---------------------------------------------------------------- one packet

  lemma HeaderReadsBack(start: bool, pid: nat, control: nat, counter: nat, body: seq<byte>)
    requires pid < 0x2000 && control < 4 && counter < 16 && |body| == 184
    ensures var p := Header(start, pid, control, counter) + body;
      && Pid(p) == pid && Starts(p) == start && Counter(p) == counter && p[3] / 16 % 4 == control
      && p[4..] == body && p[4] == body[0]
  {
  }

  lemma StuffedReadsBack(start: bool, pid: nat, counter: nat, data: seq<byte>)
    requires pid < 0x2000 && counter < 16
    ensures var p := Stuffed(start, pid, counter, data);
      && Pid(p) == pid && Starts(p) == start && Counter(p) == counter && Payload(p) == data[..Taken(|data|)]
  {
    hide Pid, Starts, Counter, Header;
    var p, n := Stuffed(start, pid, counter, data), |data|;
    if n >= 184 {
      HeaderReadsBack(start, pid, 1, counter, data[..184]);
    } else {
      var field := if n == 183 then [1, 0] else [183 - n, 0] + Fill(182 - n);
      var body := field + data[..Taken(n)];
      HeaderReadsBack(start, pid, 3, counter, body);
      assert p == Header(start, pid, 3, counter) + body;
      assert Drop(p, 5 + (p[4] as nat)) == body[1 + (body[0] as nat)..];
    }
  }

  lemma KeyReadsBack(counter: nat, data: seq<byte>, pcr: nat)
    requires counter < 16
    ensures var p := KeyPacket(counter, data, pcr);
      && Pid(p) == VIDEO_PID && Starts(p) && Counter(p) == counter
      && Payload(p) == Padded(data, 176) && p[6..12] == PcrField(pcr)
  {
    hide Pid, Starts, Counter, Header, PcrField, Padded;
    var p := KeyPacket(counter, data, pcr);
    var body := [7, 0x10] + PcrField(pcr) + Padded(data, 176);
    HeaderReadsBack(true, VIDEO_PID, 3, counter, body);
    assert p == Header(true, VIDEO_PID, 3, counter) + body;
    assert p[6..12] == body[2..8];
  }

  lemma InterReadsBack(counter: nat, data: seq<byte>)
    requires counter < 16
    ensures var p := InterPacket(counter, data);
      && Pid(p) == VIDEO_PID && Starts(p) && Counter(p) == counter && Payload(p) == Padded(data, 184)
  {
    HeaderReadsBack(true, VIDEO_PID, 1, counter, Padded(data, 184));
  }

  lemma TableReadsBack(pid: nat, section: seq<byte>)
    requires pid < 0x2000
    ensures var p := TablePacket(pid, section);
      && Pid(p) == pid && Starts(p) && Counter(p) == 0 && Payload(p) == [0] + Padded(section, 183)
  {
    hide Header, Padded;
    var body := [0] + Padded(section, 183);
    HeaderReadsBack(true, pid, 1, 0, body);
    assert TablePacket(pid, section) == Header(true, pid, 1, 0) + body;
  }

  lemma PcrFieldReadsBack(pcr: nat)
    requires pcr < 0x2_0000_0000
    ensures PcrBase(PcrField(pcr)) == pcr
  {
    var a := pcr / 2;
    var b := a / 0x100;
    var c := b / 0x100;
    assert pcr / 0x200 == b && pcr / 0x2_0000 == c && pcr / 0x200_0000 == c / 0x100;
  }

  // ---------------------------------------------------------------- trains of packets

  function Joined(qs: seq<Packet>): seq<byte>
  {
    if qs == [] then [] else Payload(qs[0]) + Joined(qs[1..])
  }

  /** Packets of one PID with consecutive counters, of which at most the first starts a unit. */
  ghost predicate Train(qs: seq<Packet>, start: bool, pid: nat, counter: nat) {
    && qs != []
    && forall i :: 0 <= i < |qs| ==>
         && Pid(qs[i]) == pid
         && (Starts(qs[i]) <==> start && i == 0)
         && Counter(qs[i]) == (counter + i) % 16
  }

  lemma GoesOn(a: nat, b: nat)
    ensures (a % 16 + b) % 16 == (a + b) % 16
  {
  }

  lemma TrainOf(first: Packet, qs: seq<Packet>, start: bool, pid: nat, counter: nat)
    requires Pid(first) == pid && Starts(first) == start && Counter(first) == counter < 16
    requires qs == [] || Train(qs, false, pid, (counter + 1) % 16)
    ensures Train([first] + qs, start, pid, counter)
    ensures Joined([first] + qs) == Payload(first) + Joined(qs)
  {
    hide Pid, Starts, Counter, Payload;
    assert ([first] + qs)[1..] == qs;
    forall i | 0 < i < |qs| + 1
      ensures Counter(([first] + qs)[i]) == (counter + i) % 16
    {
      assert ([first] + qs)[i] == qs[i - 1];
      GoesOn(counter + 1, i - 1);
    }
  }

  /** The loop carries its data whole, in packets whose counters go on. */
  lemma {:induction false} RestIsTrain(pid: nat, counter: nat, data: seq<byte>)
    requires pid < 0x2000 && counter < 16
    ensures Train(Rest(pid, counter, data), false, pid, counter)
    ensures Joined(Rest(pid, counter, data)) == data
    decreases |data|
  {
    hide Pid, Starts, Counter, Payload, Stuffed, Train, Joined;
    var n := Taken(|data|);
    StuffedReadsBack(false, pid, counter, data);
    var first := Stuffed(false, pid, counter, data);
    if n >= |data| {
      TrainOf(first, [], false, pid, counter);
      assert Joined([]) == [] by {
        NothingJoined();
      }
      assert Rest(pid, counter, data) == [first] + [];
    } else {
      RestIsTrain(pid, (counter + 1) % 16, data[n..]);
      TrainOf(first, Rest(pid, (counter + 1) % 16, data[n..]), false, pid, counter);
      assert data[..n] + data[n..] == data;
    }
  }

  lemma NothingJoined()
    ensures Joined([]) == []
  {
  }

  /** What comes out of a keyframe's packets. */
  function KeyUnit(pes: seq<byte>): seq<byte> {
    if |pes| < 176 then Padded(pes, 176) else pes
  }

  function InterUnit(pes: seq<byte>): seq<byte> {
    if |pes| < 184 then Padded(pes, 184) else pes
  }

  lemma KeyIsTrain(counter: nat, pes: seq<byte>, pcr: nat)
    requires counter < 16
    ensures Train(KeyPackets(counter, pes, pcr), true, VIDEO_PID, counter)
    ensures Joined(KeyPackets(counter, pes, pcr)) == KeyUnit(pes)
  {
    hide Pid, Starts, Counter, Payload, KeyPacket, Train, Joined, Rest;
    KeyReadsBack(counter, pes, pcr);
    RestIsTrain(VIDEO_PID, (counter + 1) % 16, Drop(pes, 176));
    TrainOf(KeyPacket(counter, pes, pcr), Rest(VIDEO_PID, (counter + 1) % 16, Drop(pes, 176)), true, VIDEO_PID,
            counter);
    assert Padded(pes, 176) + Drop(pes, 176) == KeyUnit(pes);
  }

  lemma InterIsTrain(counter: nat, pes: seq<byte>)
    requires counter < 16
    ensures Train(InterPackets(counter, pes), true, VIDEO_PID, counter)
    ensures Joined(InterPackets(counter, pes)) == InterUnit(pes)
  {
    hide Pid, Starts, Counter, Payload, InterPacket, Train, Joined, Rest;
    InterReadsBack(counter, pes);
    RestIsTrain(VIDEO_PID, (counter + 1) % 16, Drop(pes, 184));
    TrainOf(InterPacket(counter, pes), Rest(VIDEO_PID, (counter + 1) % 16, Drop(pes, 184)), true, VIDEO_PID, counter);
    assert Padded(pes, 184) + Drop(pes, 184) == InterUnit(pes);
  }

  lemma AacIsTrain(counter: nat, pes: seq<byte>)
    requires counter < 16
    ensures Train(AacPackets(counter, pes), true, AUDIO_PID, counter)
    ensures Joined(AacPackets(counter, pes)) == pes
  {
    hide Pid, Starts, Counter, Payload, Stuffed, Train, Joined, Rest;
    var n := Taken(|pes|);
    StuffedReadsBack(true, AUDIO_PID, counter, pes);
    RestIsTrain(AUDIO_PID, (counter + 1) % 16, Drop(pes, n));
    TrainOf(Stuffed(true, AUDIO_PID, counter, pes), Rest(AUDIO_PID, (counter + 1) % 16, Drop(pes, n)), true,
            AUDIO_PID, counter);
    assert pes[..n] + Drop(pes, n) == pes;
  }

  lemma TableIsTrain(pid: nat, section: seq<byte>)
    requires pid < 0x2000
    ensures Train([TablePacket(pid, section)], true, pid, 0)
  {
    hide Pid, Starts, Counter, Payload, TablePacket;
    TableReadsBack(pid, section);
    TrainOf(TablePacket(pid, section), [], true, pid, 0);
    assert [TablePacket(pid, section)] + [] == [TablePacket(pid, section)];
  }

  // ---------------------------------------------------------------- trains in a stream

  lemma OfPidSnoc(ps: seq<Packet>, p: Packet, pid: nat)
    ensures OfPid(ps + [p], pid) == OfPid(ps, pid) + if Pid(p) == pid then [p] else []
  {
    hide Pid;
    assert (ps + [p])[..|ps|] == ps;
  }

  lemma {:induction false} OfPidAppend(ps: seq<Packet>, qs: seq<Packet>, pid: nat)
    ensures OfPid(ps + qs, pid) == OfPid(ps, pid) + OfPid(qs, pid)
  {
    hide Pid;
    if qs == [] {
      assert ps + qs == ps;
    } else {
      var n := |qs| - 1;
      OfPidAppend(ps, qs[..n], pid);
      OfPidSnoc(ps + qs[..n], qs[n], pid);
      assert ps + qs == ps + qs[..n] + [qs[n]];
    }
  }

  lemma {:induction false} OfPidTrain(qs: seq<Packet>, pid: nat, other: nat)
    requires forall i :: 0 <= i < |qs| ==> Pid(qs[i]) == pid
    ensures OfPid(qs, other) == if other == pid then qs else []
  {
    hide Pid;
    if qs != [] {
      var n := |qs| - 1;
      OfPidTrain(qs[..n], pid, other);
      assert qs == qs[..n] + [qs[n]];
    }
  }

  /** A new unit, or more of the last one. */
  function Extended(us: seq<seq<byte>>, start: bool, data: seq<byte>): seq<seq<byte>>
    requires !start ==> us != []
  {
    if start then us + [data] else us[..|us| - 1] + [us[|us| - 1] + data]
  }

  lemma {:induction false} UnitsTrain(ps: seq<Packet>, qs: seq<Packet>, start: bool)
    requires forall i :: 0 <= i < |qs| ==> (Starts(qs[i]) <==> start && i == 0)
    requires start ==> qs != []
    requires !start ==> Units(ps) != []
    ensures Units(ps + qs) == Extended(Units(ps), start, Joined(qs))
    decreases |qs|
  {
    hide Starts, Payload, Extended;
    var us := Units(ps);
    if qs == [] {
      assert ps + qs == ps;
      ExtendByNothing(us);
    } else {
      var ps' := ps + [qs[0]];
      assert ps'[..|ps|] == ps;
      assert ps + qs == ps' + qs[1..];
      UnitsTrain(ps', qs[1..], false);
      UnitsSnoc(ps, qs[0], start);
      ExtendTwice(us, start, Payload(qs[0]), Joined(qs[1..]));
    }
  }

  lemma ExtendByNothing(us: seq<seq<byte>>)
    requires us != []
    ensures Extended(us, false, []) == us
  {
    assert us[|us| - 1] + [] == us[|us| - 1];
  }

  lemma UnitsSnoc(ps: seq<Packet>, p: Packet, start: bool)
    requires Starts(p) == start && (!start ==> Units(ps) != [])
    ensures Units(ps + [p]) == Extended(Units(ps), start, Payload(p))
  {
    hide Starts, Payload;
    assert (ps + [p])[..|ps|] == ps;
  }

  lemma ExtendTwice(us: seq<seq<byte>>, start: bool, a: seq<byte>, b: seq<byte>)
    requires !start ==> us != []
    ensures Extended(Extended(us, start, a), false, b) == Extended(us, start, a + b)
  {
    var last := if start then [] else us[|us| - 1];
    assert last + a + b == last + (a + b);
  }

  /** A frame's packets add one unit to their PID, and nothing to any other. */
  lemma TrainAdds(ps: seq<Packet>, qs: seq<Packet>, pid: nat, counter: nat, other: nat)
    requires Train(qs, true, pid, counter)
    ensures Demux(ps + qs, other) == Demux(ps, other) + if other == pid then [Joined(qs)] else []
    ensures OfPid(ps + qs, other) == OfPid(ps, other) + if other == pid then qs else []
  {
    hide Pid, Starts, Counter, Payload, Joined, Units, OfPid;
    OfPidAppend(ps, qs, other);
    OfPidTrain(qs, pid, other);
    if other == pid {
      UnitsTrain(OfPid(ps, pid), qs, true);
    } else {
      assert OfPid(ps, other) + [] == OfPid(ps, other);
    }
  }

  /** Counters go on over a train that begins where the packets before it ended. */
  lemma TrainCounts(ps: seq<Packet>, qs: seq<Packet>, start: bool, pid: nat, counter: nat)
    requires Train(qs, start, pid, counter) && Counted(ps) && counter == |ps| % 16
    ensures Counted(ps + qs)
  {
    hide Pid, Starts, Counter;
    forall i | 0 <= i < |ps + qs|
      ensures Counter((ps + qs)[i]) == i % 16
    {
      if i >= |ps| {
        GoesOn(|ps|, i - |ps|);
      }
    }
  }

  // ---------------------------------------------------------------- how many packets

  /** ⌈n / 184⌉, and one more where the last packet but one can only take 182. */
  function PacketsFor(n: nat): nat {
    n / 184 + if n % 184 == 0 then 0 else if n % 184 == 183 then 2 else 1
  }

  function Max(a: nat, b: nat): nat {
    if a < b then b else a
  }

  lemma {:induction false} RestCount(pid: nat, counter: nat, data: seq<byte>)
    requires pid < 0x2000 && counter < 16
    ensures |Rest(pid, counter, data)| == Max(1, PacketsFor(|data|))
    decreases |data|
  {
    hide Stuffed;
    var n := Taken(|data|);
    if n < |data| {
      RestCount(pid, (counter + 1) % 16, data[n..]);
      assert |data| >= 184 ==> |data| / 184 == (|data| - 184) / 184 + 1;
    }
  }

  /** How many packets a frame takes; a frame that fits its first packet is followed by an empty one. */
  lemma PacketCounts(counter: nat, pes: seq<byte>, pcr: nat)
    requires counter < 16
    ensures |AacPackets(counter, pes)| == Max(2, PacketsFor(|pes|))
    ensures |pes| >= 176 ==> |KeyPackets(counter, pes, pcr)| == 1 + Max(1, PacketsFor(|pes| - 176))
    ensures |pes| < 176 ==> |KeyPackets(counter, pes, pcr)| == 2
    ensures |InterPackets(counter, pes)| == Max(2, PacketsFor(|pes|))
  {
    hide Rest, Stuffed, KeyPacket, InterPacket;
    var n := |pes|;
    RestCount(VIDEO_PID, (counter + 1) % 16, Drop(pes, 176));
    RestCount(VIDEO_PID, (counter + 1) % 16, Drop(pes, 184));
    RestCount(AUDIO_PID, (counter + 1) % 16, Drop(pes, Taken(n)));
    assert n >= 184 ==> n / 184 == (n - 184) / 184 + 1 && n % 184 == (n - 184) % 184;
  }

  // ---------------------------------------------------------------- files

  /** The bytes of a file. */
  function Flat(ps: seq<Packet>): seq<byte> {
    if ps == [] then [] else ps[0] + Flat(ps[1..])
  }

  lemma {:induction false} FlatAppend(ps: seq<Packet>, qs: seq<Packet>)
    ensures Flat(ps + qs) == Flat(ps) + Flat(qs)
  {
    if ps == [] {
      assert ps + qs == qs;
    } else {
      FlatAppend(ps[1..], qs);
      assert (ps + qs)[1..] == ps[1..] + qs;
    }
  }

  lemma FlatOne(p: Packet)
    ensures Flat([p]) == p
  {
    assert Flat([p][1..]) == [];
  }
}
