/**
  What a player makes of the segment files that knows only the standards: each file by itself as a transport stream with
  one program, its clock, and in every unit the times, the pictures and the sound of one frame.
 */
module Playback {
  import opened Bytes
  import opened DataTypes
  import opened FlvMedia
  import opened Mux
  import opened ParameterSets
  import opened Segments
  import opened TsReader
  import Adts
  import AnnexB
  import Bits
  import Looks
  import Pes
  import Psi
  import TsPacket
  import Typing

  // ---------------------------------------------------------------- pictures

  /** Behind the delimiter a player finds what was written behind it. */
  lemma DelimiterReads(rest: seq<byte>)
    requires AnnexB.Breaks(rest)
    ensures AnnexB.Nals(Pes.DELIMITER + rest) == [[0x09, 0xf0]] + AnnexB.Nals(rest)
  {
    hide AnnexB.Nals, AnnexB.Breaks;
    assert AnnexB.IsNal([0x09, 0xf0]);
    assert Pes.DELIMITER + rest == [0] + ([0, 0, 1] + [0x09, 0xf0] + rest);
    AnnexB.NalReads([0x09, 0xf0], rest);
    CodeBreaks([0x09, 0xf0] + rest);
    assert [0, 0, 1] + [0x09, 0xf0] + rest == [0, 0, 1] + ([0x09, 0xf0] + rest);
    AnnexB.ZeroSkipped([0, 0, 1] + [0x09, 0xf0] + rest);
  }

  lemma CodeBreaks(rest: seq<byte>)
    ensures AnnexB.Breaks([0, 0, 1] + rest)
  {
  }

  ghost predicate AllNals(ns: seq<seq<byte>>) {
    forall n :: n in ns ==> AnnexB.IsNal(n)
  }

  /** The sets in front of a picture, one by one. */
  lemma {:induction false} SetsRead(sets: seq<seq<byte>>, rest: seq<byte>)
    requires AllNals(sets) && AnnexB.Breaks(rest)
    ensures AnnexB.Breaks(AnnexB.Stream(sets) + rest)
    ensures AnnexB.Nals(AnnexB.Stream(sets) + rest) == sets + AnnexB.Nals(rest)
    decreases sets
  {
    hide AnnexB.Nals, AnnexB.IsNal, AnnexB.Breaks;
    if sets == [] {
      assert AnnexB.Stream(sets) + rest == rest;
      assert [] + AnnexB.Nals(rest) == AnnexB.Nals(rest);
    } else {
      assert sets[0] in sets && forall n :: n in sets[1..] ==> n in sets;
      var behind := AnnexB.Stream(sets[1..]) + rest;
      SetsRead(sets[1..], rest);
      AnnexB.NalReads(sets[0], behind);
      assert AnnexB.Stream(sets) + rest == [0, 0, 1] + sets[0] + behind;
      CodeBreaks(sets[0] + behind);
      assert [0, 0, 1] + sets[0] + behind == [0, 0, 1] + (sets[0] + behind);
      assert [sets[0]] + (sets[1..] + AnnexB.Nals(rest)) == sets + AnnexB.Nals(rest);
    }
  }

  /** Where the first unit of a frame is in the message. */
  lemma FrameParts(keyframe: bool, time: seq<byte>, nals: seq<seq<byte>>)
    requires |time| == 3 && nals != []
    ensures var d := FrameBody(keyframe, time, nals); |d| >= 9 && d[9..] == nals[0] + AnnexB.Sample(nals[1..])
  {
    hide ToBE;
    var d, n := FrameBody(keyframe, time, nals), ToBE(|nals[0]|, 4);
    var first: byte := (if keyframe then 1 else 2) * 16 + 7;
    assert d == [first, 1] + time + n + (nals[0] + AnnexB.Sample(nals[1..]));
  }

  /** The parameter sets that go with a frame. */
  function InFront(kind: Kind, sets: seq<seq<byte>>): seq<seq<byte>> {
    if kind == Key then sets else []
  }

  lemma BodyShape(kind: Kind, sets: seq<seq<byte>>, data: seq<byte>)
    requires kind != Aac && |data| >= 9
    ensures Pes.Body(kind, AnnexB.Stream(sets), [], data) ==
      Pes.DELIMITER + (AnnexB.Stream(InFront(kind, sets)) + ([0, 0, 1] + data[9..]))
  {
    var a, b := AnnexB.Stream(InFront(kind, sets)), [0, 0, 1] + data[9..];
    assert kind != Key ==> a == [] && a + b == b;
    hide AnnexB.Stream;
    assert Pes.DELIMITER + a + [0, 0, 1] + data[9..] == Pes.DELIMITER + (a + b);
  }

  /** The delimiter, the parameter sets in front of a keyframe, and what the rest of the message is to a decoder. */
  lemma BodyReads(kind: Kind, sets: seq<seq<byte>>, data: seq<byte>)
    requires kind != Aac && |data| >= 9 && AllNals(sets)
    ensures AnnexB.Nals(Pes.Body(kind, AnnexB.Stream(sets), [], data)) ==
      [[0x09, 0xf0]] + InFront(kind, sets) + AnnexB.Nals([0, 0, 1] + data[9..])
  {
    BodyShape(kind, sets, data);
    CodeBreaks(data[9..]);
    assert AllNals(InFront(kind, sets));
    hide *;
    SetsRead(InFront(kind, sets), [0, 0, 1] + data[9..]);
    DelimiterReads(AnnexB.Stream(InFront(kind, sets)) + ([0, 0, 1] + data[9..]));
    Regrouped([[0x09, 0xf0]], InFront(kind, sets), AnnexB.Nals([0, 0, 1] + data[9..]));
  }

  lemma Regrouped(a: seq<seq<byte>>, b: seq<seq<byte>>, c: seq<seq<byte>>)
    ensures a + (b + c) == a + b + c
  {
  }

  /**
    What a decoder finds in the PES packet of a frame: the delimiter, the parameter sets in front of a keyframe, and the
    NAL units of the frame; if and only if those behind the first are single bytes. Their lengths are left standing
    where start codes should be.
   */
  lemma PicturesRead(kind: Kind, sets: seq<seq<byte>>, time: seq<byte>, nals: seq<seq<byte>>)
    requires kind != Aac && |time| == 3 && nals != [] && AnnexB.Coded(nals) && AllNals(sets)
    ensures var d := FrameBody(kind == Key, time, nals);
      |d| >= 9 &&
      (AnnexB.Nals(Pes.Body(kind, AnnexB.Stream(sets), [], d)) == [[0x09, 0xf0]] + InFront(kind, sets) + nals <==>
         forall n :: n in nals[1..] ==> |n| == 1)
  {
    hide *;
    FrameParts(kind == Key, time, nals);
    var d := FrameBody(kind == Key, time, nals);
    BodyReads(kind, sets, d);
    CodedHead(nals);
    AnnexB.SampleReadsExactly(nals[0], nals[1..]);
    assert [nals[0]] + nals[1..] == nals;
    assert [0, 0, 1] + nals[0] + AnnexB.Sample(nals[1..]) == [0, 0, 1] + d[9..];
    SameBehind([[0x09, 0xf0]] + InFront(kind, sets), AnnexB.Nals([0, 0, 1] + d[9..]), nals);
  }

  lemma CodedHead(nals: seq<seq<byte>>)
    requires AnnexB.Coded(nals) && nals != []
    ensures AnnexB.IsNal(nals[0]) && AnnexB.Coded(nals[1..])
  {
    assert nals[0] in nals && forall n :: n in nals[1..] ==> n in nals;
  }

  lemma SameBehind(front: seq<seq<byte>>, a: seq<seq<byte>>, b: seq<seq<byte>>)
    ensures front + a == front + b <==> a == b
  {
    assert (front + a)[|front|..] == a && (front + b)[|front|..] == b;
  }

  // ---------------------------------------------------------------- files

  /** The clock of a stream of frames at 27 MHz: the decoding time of every keyframe. */
  function Ticks(fs: seq<Frame>): seq<nat> {
    if fs == [] then []
    else
      var f := Last(fs);
      Ticks(Front(fs)) + if f.Media? && f.kind == Key then [f.timestamp * 90 % TWO_TO_THE_32 * 300] else []
  }

  /** The frame's PES packet is longer than its first transport packet can take; of 183 bytes of sound 182 go in. */
  predicate Overflows(j: Muxed) {
    var n := |PesOf(j)|;
    match j.kind
    case Key => n > 176
    case Inter => n > 184
    case Aac => n > 184 || n == 183
  }

  ghost predicate AllOverflow(js: seq<Muxed>) {
    forall j :: j in js ==> Overflows(j)
  }

  /** What a player finds in a file, whatever it is that was sent. */
  ghost predicate Plays(file: File) {
    && AllReadable(file.packets) && (AllProper(file.packets) <==> AllOverflow(file.jobs))
    && Clocks(TsPacket.OfPid(file.packets, 0x100)) == Ticks(FramesOf(file.jobs))
    && NewFile().packets <= file.packets
  }

  lemma JobRead(j: Muxed, counter: nat)
    requires counter < 16
    ensures var ps := Packets(j, counter);
      && AllReadable(ps) && (AllProper(ps) <==> Overflows(j))
      && Clocks(ps) == Ticks([FrameOf(j)])
  {
    hide AllReadable, AllProper, Clocks, PesOf, TsPacket.KeyPackets, TsPacket.InterPackets, TsPacket.AacPackets;
    var pes := PesOf(j);
    PesIsLong(j);
    assert Front([FrameOf(j)]) == [];
    match j.kind
    case Key => KeyPacketsRead(counter, pes, Pes.Dts(j.timestamp));
    case Inter => InterPacketsRead(counter, pes);
    case Aac => AacPacketsRead(counter, pes);
  }

  lemma PesIsLong(j: Muxed)
    ensures PesOf(j) != []
  {
    hide Pes.Header, Pes.Body;
  }

  lemma ReadMore(ps: seq<TsPacket.Packet>, qs: seq<TsPacket.Packet>)
    ensures AllReadable(ps + qs) <==> AllReadable(ps) && AllReadable(qs)
    ensures AllProper(ps + qs) <==> AllProper(ps) && AllProper(qs)
  {
    hide Readable, Proper;
    assert forall p :: p in ps + qs <==> p in ps || p in qs;
  }

  lemma PlaysMore(file: File, j: Muxed, counter: nat)
    requires Plays(file) && counter < 16
    ensures Plays(File(file.jobs + [j], file.packets + Packets(j, counter)))
  {
    hide AllReadable, AllProper, Clocks, AllOverflow, Overflows, Packets, TsPacket.OfPid, NewFile, Ticks, FramesOf;
    var qs := Packets(j, counter);
    JobRead(j, counter);
    ReadMore(file.packets, qs);
    ClockMore(file.packets, j, counter);
    JobsMore(file.jobs, j);
    TicksMore(FramesOf(file.jobs), FrameOf(j));
  }

  lemma JobsMore(js: seq<Muxed>, j: Muxed)
    ensures AllOverflow(js + [j]) <==> AllOverflow(js) && Overflows(j)
    ensures FramesOf(js + [j]) == FramesOf(js) + [FrameOf(j)]
  {
    hide Overflows;
    assert forall i :: i in js + [j] <==> i in js || i == j;
    assert Front(js + [j]) == js;
  }

  lemma TicksMore(fs: seq<Frame>, f: Frame)
    ensures Ticks(fs + [f]) == Ticks(fs) + Ticks([f])
  {
    assert Front(fs + [f]) == fs && Front([f]) == [];
  }

  lemma ClockMore(ps: seq<TsPacket.Packet>, j: Muxed, counter: nat)
    requires counter < 16 && Clocks(Packets(j, counter)) == Ticks([FrameOf(j)])
    ensures Clocks(TsPacket.OfPid(ps + Packets(j, counter), 0x100)) ==
      Clocks(TsPacket.OfPid(ps, 0x100)) + Ticks([FrameOf(j)])
  {
    hide Clocks, TsPacket.Train, Packets, TsPacket.OfPid, TsPacket.Joined;
    var qs := Packets(j, counter);
    JobIsTrain(j, counter);
    TsPacket.TrainAdds(ps, qs, PidOf(j.kind), counter, 0x100);
    ClocksAppend(TsPacket.OfPid(ps, 0x100), if PidOf(j.kind) == 0x100 then qs else []);
    assert Front([FrameOf(j)]) == [];
    assert Clocks([]) == [] by {
      NothingRead();
    }
  }

  /** The tables that every file begins with. */
  lemma NewPlays()
    ensures Plays(NewFile())
  {
    hide AllReadable, AllProper, Clocks, TsPacket.OfPid, PatPacket, PmtPacket;
    TablesProper();
    TablesAdd([], TsPacket.VIDEO_PID);
    NothingRead();
    NoneOfPid();
    ProperTables(PatPacket(), PmtPacket());
    assert [] + NewFile().packets == NewFile().packets == [PatPacket(), PmtPacket()];
  }

  lemma TablesProper()
    ensures Proper(PatPacket()) && Proper(PmtPacket())
  {
    hide Proper, PatPacket, PmtPacket, TsPacket.TablePacket, PatSection, PmtSection, Clock;
    TableNames();
    TableRead(TsPacket.PAT_PID, PatSection());
    TableRead(TsPacket.PMT_PID, PmtSection());
  }

  lemma TableNames()
    ensures PatPacket() == TsPacket.TablePacket(TsPacket.PAT_PID, PatSection())
    ensures PmtPacket() == TsPacket.TablePacket(TsPacket.PMT_PID, PmtSection())
  {
    hide Psi.Octets, Psi.Section, TsPacket.TablePacket;
  }

  lemma NoneOfPid()
    ensures TsPacket.OfPid([], 0x100) == []
  {
  }

  lemma ProperTables(p: TsPacket.Packet, q: TsPacket.Packet)
    requires Proper(p) && Proper(q)
    ensures AllReadable([p, q]) && AllProper([p, q])
  {
    ProperIsReadable(p);
    ProperIsReadable(q);
    hide Proper, Readable;
  }

  /** From the bytes of any file a player gets to the one program, its clock and its two streams. */
  lemma ProgramFound(more: seq<TsPacket.Packet>)
    ensures ProgramOf(NewFile().packets + more) == Program(1, 0x100, [(0x0f, 0x101), (0x1b, 0x100)])
  {
    hide PatPacket, PmtPacket, ProgramOf;
    FoundIn(NewFile().packets + more);
  }

  lemma FoundIn(ps: seq<TsPacket.Packet>)
    requires |ps| >= 2 && ps[0] == PatPacket() && ps[1] == PmtPacket()
    ensures ProgramOf(ps) == Program(1, 0x100, [(0x0f, 0x101), (0x1b, 0x100)])
  {
    hide TsPacket.Pid, TsPacket.Starts, TsPacket.Payload, SectionIn, InForce, ProgramLoop, MapOf, PatSection,
      PmtSection, PatPacket, PmtPacket, FirstOf, TsPacket.TablePacket;
    TableNames();
    PatMeans();
    PmtMeans();
    TableIn(TsPacket.PAT_PID, PatSection());
    TableIn(TsPacket.PMT_PID, PmtSection());
    assert ps[1..][0] == ps[1];
    FirstTables(ps);
  }

  lemma FirstTables(ps: seq<TsPacket.Packet>)
    requires |ps| >= 2 && TsPacket.Pid(ps[0]) == 0 && TsPacket.Starts(ps[0])
    requires TsPacket.Pid(ps[1..][0]) == 0x1001 && TsPacket.Starts(ps[1..][0])
    ensures FirstOf(ps, 0) == [ps[0]] && FirstOf(ps, 0x1001) == [ps[1..][0]]
  {
    hide TsPacket.Pid, TsPacket.Starts;
  }

  // ---------------------------------------------------------------- all files of a run

  ghost predicate AllPlay(files: seq<File>) {
    forall i :: 0 <= i < |files| ==> Plays(files[i])
  }

  lemma AppendPlays(st: State, f: Frame)
    requires Sound(st) && st.files != [] && Ready(st, f) && AllPlay(st.files)
    ensures AllPlay(Append(st, f).files)
  {
    hide Plays, Packets;
    if f.Media? {
      var j: Muxed := Job(f.kind, f.timestamp, st.spsPps, st.adts, f.data);
      PlaysMore(Last(st.files), j, if f.kind == Aac then st.audio else st.video);
    }
  }

  lemma CreatePlays(st: State, f: Frame, maxTime: nat)
    requires Sound(st) && Ready(st, f) && AllPlay(st.files)
    ensures AllPlay(Create(st, f, maxTime).files)
  {
    hide Append, NewFile, Plays, Due;
    NewPlays();
    AppendPlays(if Cuts(st.segs, f, maxTime) then Begin(st, f) else Continue(st, f), f);
  }

  lemma {:induction false} RunPlays(cs: seq<Chunk>, maxTime: nat)
    requires Runs(cs)
    ensures AllPlay(Run(cs, maxTime).files)
  {
    hide Plays, Create;
    if cs != [] {
      RunPlays(Front(cs), maxTime);
      if Timed(Last(cs)) {
        CreatePlays(Run(Front(cs), maxTime), Last(cs), maxTime);
      }
    }
  }

  /**
    Every file of every run, by itself and from its bytes: they are packets that each begin with 0x47 and can be read;
    the tables, with their checks, lead to one program with sound on 0x101 and pictures on 0x100; on the PID of the
    clock there is a reference for the keyframes of the segment, in order, and nowhere else; what comes out of the two
    streams is what was made of the frames of the segment. All packets are as the standard wants them if and only if no
    PES packet fits its first transport packet: else the next has an adaptation field of 183 bytes and no payload.
   */
  lemma FilePlays(cs: seq<Chunk>, maxTime: nat, i: nat)
    requires Runs(cs) && i < |Run(cs, maxTime).files|
    ensures var st := Run(cs, maxTime);
      var file, b := st.files[i], TsPacket.Flat(st.files[i].packets);
      && |b| % 188 == 0 && PacketsOf(b) == file.packets
      && (forall p :: p in PacketsOf(b) ==> Readable(p))
      && ProgramOf(PacketsOf(b)) == Program(1, 0x100, [(0x0f, 0x101), (0x1b, 0x100)])
      && Clocks(TsPacket.OfPid(PacketsOf(b), 0x100)) == Ticks(MediaOf(st.segs[i]))
      && TsPacket.Demux(PacketsOf(b), 0x100) == UnitsOf(file.jobs, 0x100)
      && TsPacket.Demux(PacketsOf(b), 0x101) == UnitsOf(file.jobs, 0x101)
      && FramesOf(file.jobs) == MediaOf(st.segs[i])
      && ((forall p :: p in PacketsOf(b) ==> Proper(p)) <==> forall j :: j in file.jobs ==> Overflows(j))
  {
    hide Run, Runs, Plays, Holds, TsPacket.Demux, Clocks, ProgramOf, TsPacket.OfPid, PacketsOf, TsPacket.Flat, UnitsOf,
      Ticks, MediaOf, FramesOf, Readable, Proper, Overflows;
    RunPlays(cs, maxTime);
    RunHolds(cs, maxTime);
    FileReads(Run(cs, maxTime).files[i], Run(cs, maxTime).segs[i]);
  }

  lemma FileReads(file: File, seg: seq<Frame>)
    requires Plays(file) && Holds(file, seg)
    ensures var b := TsPacket.Flat(file.packets);
      && |b| % 188 == 0 && PacketsOf(b) == file.packets
      && (forall p :: p in PacketsOf(b) ==> Readable(p))
      && ProgramOf(PacketsOf(b)) == Program(1, 0x100, [(0x0f, 0x101), (0x1b, 0x100)])
      && Clocks(TsPacket.OfPid(PacketsOf(b), 0x100)) == Ticks(MediaOf(seg))
      && TsPacket.Demux(PacketsOf(b), 0x100) == UnitsOf(file.jobs, 0x100)
      && TsPacket.Demux(PacketsOf(b), 0x101) == UnitsOf(file.jobs, 0x101)
      && FramesOf(file.jobs) == MediaOf(seg)
      && ((forall p :: p in PacketsOf(b) ==> Proper(p)) <==> forall j :: j in file.jobs ==> Overflows(j))
  {
    hide TsPacket.Demux, Clocks, NewFile, ProgramOf, TsPacket.OfPid, PacketsOf, TsPacket.Flat, UnitsOf, Readable,
      Proper, Overflows, Ticks, MediaOf, FramesOf;
    FilePackets(file.packets);
    var more := file.packets[|NewFile().packets|..];
    assert file.packets == NewFile().packets + more;
    ProgramFound(more);
  }

  // ---------------------------------------------------------------- the unit of a frame

  /** The chunk is a frame for this PID. */
  predicate OnPid(c: Chunk, pid: nat) {
    c.Media? && pid == if c.kind == Aac then 0x101 else 0x100
  }

  function Count(cs: seq<Chunk>, pid: nat): nat {
    if cs == [] then 0 else Count(Front(cs), pid) + if OnPid(Last(cs), pid) then 1 else 0
  }

  /** What a frame is muxed with: the headers before it. */
  function JobAt(cs: seq<Chunk>, k: nat): Muxed
    requires Runs(cs) && k < |cs| && cs[k].Media?
  {
    AcceptableAt(cs, k);
    Job(cs[k].kind, cs[k].timestamp, LastSpsPps(cs[..k]), LastAdts(cs[..k]), cs[k].data)
  }

  lemma {:induction false} AcceptableAt(cs: seq<Chunk>, k: nat)
    requires Runs(cs) && k < |cs|
    ensures Runs(cs[..k]) && Acceptable(cs[..k], cs[k])
    decreases |cs|
  {
    hide Acceptable;
    if k < |cs| - 1 {
      AcceptableAt(Front(cs), k);
      assert Front(cs)[..k] == cs[..k];
    } else {
      assert Front(cs) == cs[..k];
    }
  }

  lemma UnitsCount(cs: seq<Chunk>, c: Chunk, pid: nat)
    requires Runs(cs) && Acceptable(cs, c) && (pid == 0x100 || pid == 0x101)
    ensures Runs(cs + [c])
    ensures UnitsOf(Jobs(cs + [c]), pid) == UnitsOf(Jobs(cs), pid) +
      if OnPid(c, pid) then [Pes.Unit(c.kind, PesOf(Job(c.kind, c.timestamp, LastSpsPps(cs), LastAdts(cs), c.data)))]
      else []
    ensures Count(cs + [c], pid) == Count(cs, pid) + if OnPid(c, pid) then 1 else 0
  {
    Looks.UnitsMore(cs, c, pid);
    assert Front(cs + [c]) == cs;
    hide UnitsOf, Jobs, Runs, PesOf, Pes.Unit, LastSpsPps, LastAdts;
  }

  /** The units of a PID are those of its frames, in order. */
  lemma {:induction false} UnitOfFrame(cs: seq<Chunk>, k: nat, pid: nat)
    requires Runs(cs) && k < |cs| && OnPid(cs[k], pid)
    ensures |UnitsOf(Jobs(cs), pid)| == Count(cs, pid) > Count(cs[..k], pid)
    ensures UnitsOf(Jobs(cs), pid)[Count(cs[..k], pid)] == Pes.Unit(cs[k].kind, PesOf(JobAt(cs, k)))
    decreases |cs|
  {
    var before, c := Front(cs), Last(cs);
    assert cs == before + [c];
    AcceptableAt(cs, |before|);
    assert cs[..|before|] == before;
    UnitsCount(before, c, pid);
    UnitsNumber(before, pid);
    AcceptableAt(cs, k);
    if k < |before| {
      UnitOfFrame(before, k, pid);
      assert before[..k] == cs[..k];
    }
    hide UnitsOf, Jobs, Runs, PesOf, Pes.Unit, LastSpsPps, LastAdts, OnPid, Count, Acceptable;
  }

  lemma {:induction false} UnitsNumber(cs: seq<Chunk>, pid: nat)
    requires Runs(cs) && (pid == 0x100 || pid == 0x101)
    ensures |UnitsOf(Jobs(cs), pid)| == Count(cs, pid)
    decreases |cs|
  {
    hide UnitsOf, Jobs, Runs, PesOf, Pes.Unit, LastSpsPps, LastAdts, OnPid, Count;
    if cs == [] {
      NoUnits(pid);
    } else {
      assert cs == Front(cs) + [Last(cs)];
      Looks.RunsFront(cs);
      UnitsNumber(Front(cs), pid);
      UnitsCount(Front(cs), Last(cs), pid);
    }
  }

  lemma NoUnits(pid: nat)
    ensures |UnitsOf(Jobs([]), pid)| == Count([], pid) == 0
  {
  }

  // ---------------------------------------------------------------- what is in it

  /** The last video header before the k-th chunk. */
  ghost predicate LastVideoHeader(cs: seq<Chunk>, k: nat, h: nat) {
    h < k <= |cs| && cs[h].VideoHeader? && forall i :: h < i < k ==> !cs[i].VideoHeader?
  }

  ghost predicate LastAudioHeader(cs: seq<Chunk>, k: nat, h: nat) {
    h < k <= |cs| && cs[h].AudioHeader? && forall i :: h < i < k ==> !cs[i].AudioHeader?
  }

  /** The parameter sets of the last video header, or none if there is no header yet. */
  ghost predicate SetsBefore(cs: seq<Chunk>, k: nat, sets: seq<seq<byte>>) {
    k <= |cs| && AllNals(sets) &&
    if sets == [] then forall i :: 0 <= i < k ==> !cs[i].VideoHeader?
    else |sets| == 2 && exists h: nat :: LastVideoHeader(cs, k, h) && HeaderHas(cs[h], sets[0], sets[1])
  }

  predicate HeaderHas(c: Chunk, sps: seq<byte>, pps: seq<byte>) {
    c.VideoHeader? && HasSets(c.record, sps, pps) && c.record[0] >= 16
  }

  lemma {:induction false} HeaderInUse(cs: seq<Chunk>, k: nat, h: nat)
    requires Runs(cs) && LastVideoHeader(cs, k, h)
    ensures RecordOk(cs[h].record) && PrepareOk(cs[h].record) && LastSpsPps(cs[..k]) == SpsPps(cs[h].record)
    decreases k
  {
    hide RecordOk, PrepareOk, SpsPps;
    var before := cs[..k];
    assert Last(before) == cs[k - 1] && Front(before) == cs[..k - 1];
    if h == k - 1 {
      AcceptableAt(cs, h);
    } else {
      HeaderInUse(cs, k - 1, h);
    }
  }

  lemma {:induction false} NoHeaderInUse(cs: seq<Chunk>, k: nat)
    requires k <= |cs| && forall i :: 0 <= i < k ==> !cs[i].VideoHeader?
    ensures LastSpsPps(cs[..k]) == []
    decreases k
  {
    hide RecordOk, SpsPps;
    if k > 0 {
      assert Last(cs[..k]) == cs[k - 1] && Front(cs[..k]) == cs[..k - 1];
      NoHeaderInUse(cs, k - 1);
    }
  }

  lemma SetsInUse(cs: seq<Chunk>, k: nat, sets: seq<seq<byte>>)
    requires Runs(cs) && SetsBefore(cs, k, sets)
    ensures LastSpsPps(cs[..k]) == AnnexB.Stream(sets)
  {
    hide HasSets, Runs, LastSpsPps, RecordOk, PrepareOk, SpsPps, AllNals;
    if sets == [] {
      NoHeaderInUse(cs, k);
    } else {
      var h: nat :| LastVideoHeader(cs, k, h) && HeaderHas(cs[h], sets[0], sets[1]);
      HeaderInUse(cs, k, h);
      Typing.SetsKept(cs[h].record, sets[0], sets[1]);
      assert sets == [sets[0], sets[1]];
    }
  }

  lemma {:induction false} ConfigInUse(cs: seq<Chunk>, k: nat, h: nat)
    requires Runs(cs) && LastAudioHeader(cs, k, h)
    ensures |cs[h].config| >= 4 && LastAdts(cs[..k]) == Adts.Layout(Adts.Configured(cs[h].config))
    decreases k
  {
    hide Adts.Layout, Adts.Configured, RecordOk, PrepareOk;
    var before := cs[..k];
    assert Last(before) == cs[k - 1] && Front(before) == cs[..k - 1];
    if h == k - 1 {
      AcceptableAt(cs, h);
    } else {
      ConfigInUse(cs, k - 1, h);
    }
  }

  /** The packet is what a reader has of its unit if its length fits, or a keyframe fills its first packet. */
  predicate TrimsTo(unit: seq<byte>, pes: seq<byte>, kind: Kind)
    requires |unit| >= 6
  {
    Pes.Trimmed(unit) == pes <==>
      if kind == Key then |pes| >= 176 else |pes| < 6 + TWO_TO_THE_16 || (|pes| - 6) % TWO_TO_THE_16 == 0
  }

  /** Where a frame's PES packet is: at the head of the unit that has its place among the frames of its PID. */
  lemma PesInUnit(cs: seq<Chunk>, k: nat, pid: nat)
    requires Runs(cs) && k < |cs| && OnPid(cs[k], pid)
    ensures var us, n, pes := UnitsOf(Jobs(cs), pid), Count(cs[..k], pid), PesOf(JobAt(cs, k));
      |us| == Count(cs, pid) > n && |us[n]| >= 6 && pes <= us[n] && TrimsTo(us[n], pes, cs[k].kind)
  {
    hide Runs, Jobs, UnitsOf, Pes.Trimmed, Count, PesOf, Pes.Unit, LastSpsPps, LastAdts;
    UnitOfFrame(cs, k, pid);
    var j := JobAt(cs, k);
    JobReadsBack(j);
    PesHeads(j);
  }

  lemma PesHeads(j: Muxed)
    ensures PesOf(j) <= Pes.Unit(j.kind, PesOf(j))
  {
    hide Pes.Packet, Pes.Unit;
    Pes.UnitKeepsLength(j.kind, PesOf(j));
  }

  /** The times of a video message. */
  lemma PictureTimes(kind: Kind, timestamp: nat, time: seq<byte>, nals: seq<seq<byte>>)
    requires kind != Aac && |time| == 3
    requires |FrameBody(kind == Key, time, nals)| >= 9
    ensures Pes.Dts(timestamp) == timestamp * 90 % TWO_TO_THE_32
    ensures Pes.Pts(kind, timestamp, FrameBody(kind == Key, time, nals)) ==
      timestamp * 90 % TWO_TO_THE_32 + FromBE(time) * 90
  {
    var d := FrameBody(kind == Key, time, nals);
    assert d[2..5] == time;
    FromBound(time, BE);
    assert Pow256(3) == TWO_TO_THE_24;
    hide FromBE;
  }

  /**
    A PES packet with stream id 0xe0 and both times of a frame without bit 30, which is to a decoder the delimiter,
    these sets and the NAL units of the frame, if and only if all but the first of them are single bytes.
   */
  ghost predicate ShowsPicture(pes: seq<byte>, timestamp: nat, time: seq<byte>, sets: seq<seq<byte>>,
                               nals: seq<seq<byte>>)
    requires nals != []
  {
    var r, dts := Pes.Parse(pes), timestamp * 90 % TWO_TO_THE_32;
    && r.Read? && r.streamId == 0xe0 && r.dts == Pes.Masked(dts) && r.pts == Pes.Masked(dts + FromBE(time) * 90)
    && (AnnexB.Nals(r.body) == [[0x09, 0xf0]] + sets + nals <==> forall n :: n in nals[1..] ==> |n| == 1)
  }

  /**
    A frame that was sent as NAL units, in what is muxed: the unit at its place among the video frames begins with a PES
    packet, which a reader gets out of it just if its length fits or a keyframe fills its first packet; that carries
    stream id 0xe0, both times without bit 30, and, for a decoder, the delimiter, the parameter sets of the last video
    header in front of a keyframe, and the NAL units of the frame, if and only if all but the first are single bytes.
   */
  lemma PictureUnit(cs: seq<Chunk>, k: nat, sets: seq<seq<byte>>, time: seq<byte>, nals: seq<seq<byte>>)
    returns (pes: seq<byte>)
    requires Runs(cs) && k < |cs| && cs[k].Media? && cs[k].kind != Aac && SetsBefore(cs, k, sets)
    requires |time| == 3 && nals != [] && AnnexB.Coded(nals) && cs[k].data == FrameBody(cs[k].kind == Key, time, nals)
    ensures var us, n := UnitsOf(Jobs(cs), 0x100), Count(cs[..k], 0x100);
      |us| == Count(cs, 0x100) > n && |us[n]| >= 6 && pes <= us[n] && TrimsTo(us[n], pes, cs[k].kind)
    ensures ShowsPicture(pes, cs[k].timestamp, time, InFront(cs[k].kind, sets), nals)
  {
    hide *;
    var c := cs[k];
    assert OnPid(c, 0x100) && AllNals(sets) by {
      PictureIsOn(cs, k, sets);
    }
    PesInUnit(cs, k, 0x100);
    SetsInUse(cs, k, sets);
    PicturesRead(c.kind, sets, time, nals);
    pes := PesOf(JobAt(cs, k));
    PictureReads(cs, k, sets);
    Shown(pes, c.timestamp, time, InFront(c.kind, sets), nals, c.kind, sets);
  }

  /** The same from the segment files of a run. */
  lemma PicturePlays(cs: seq<Chunk>, maxTime: nat, k: nat, sets: seq<seq<byte>>, time: seq<byte>, nals: seq<seq<byte>>)
    returns (pes: seq<byte>)
    requires Runs(cs) && k < |cs| && cs[k].Media? && cs[k].kind != Aac && SetsBefore(cs, k, sets)
    requires |time| == 3 && nals != [] && AnnexB.Coded(nals) && cs[k].data == FrameBody(cs[k].kind == Key, time, nals)
    ensures var us, n := TsPacket.Demux(Emitted(Run(cs, maxTime).files), 0x100), Count(cs[..k], 0x100);
      |us| == Count(cs, 0x100) > n && |us[n]| >= 6 && pes <= us[n] && TrimsTo(us[n], pes, cs[k].kind)
    ensures ShowsPicture(pes, cs[k].timestamp, time, InFront(cs[k].kind, sets), nals)
  {
    hide Runs, Run, Jobs, UnitsOf, Emitted, TsPacket.Demux, Count, SetsBefore, AnnexB.Coded, FrameBody, TrimsTo,
      ShowsPicture;
    RunRecovers(cs, maxTime, 0x100);
    pes := PictureUnit(cs, k, sets, time, nals);
  }

  lemma Shown(pes: seq<byte>, timestamp: nat, time: seq<byte>, inFront: seq<seq<byte>>, nals: seq<seq<byte>>,
              kind: Kind, sets: seq<seq<byte>>)
    requires kind != Aac && |time| == 3 && nals != [] && inFront == InFront(kind, sets)
    requires |FrameBody(kind == Key, time, nals)| >= 9
    requires var d := FrameBody(kind == Key, time, nals);
      Pes.Parse(pes) == Pes.Read(0xe0, Pes.Masked(Pes.Pts(kind, timestamp, d)), Pes.Masked(Pes.Dts(timestamp)),
                                 Pes.Body(kind, AnnexB.Stream(sets), [], d))
      && (AnnexB.Nals(Pes.Body(kind, AnnexB.Stream(sets), [], d)) == [[0x09, 0xf0]] + inFront + nals <==>
            forall n :: n in nals[1..] ==> |n| == 1)
    ensures ShowsPicture(pes, timestamp, time, inFront, nals)
  {
    hide Pes.Parse, Pes.Masked, Pes.Pts, Pes.Dts, Pes.Body, AnnexB.Nals, AnnexB.Stream, FrameBody, FromBE;
    PictureTimes(kind, timestamp, time, nals);
  }

  lemma PictureIsOn(cs: seq<Chunk>, k: nat, sets: seq<seq<byte>>)
    requires k < |cs| && cs[k].Media? && cs[k].kind != Aac && SetsBefore(cs, k, sets)
    ensures OnPid(cs[k], 0x100) && AllNals(sets)
  {
  }

  lemma PictureReads(cs: seq<Chunk>, k: nat, sets: seq<seq<byte>>)
    requires Runs(cs) && k < |cs| && cs[k].Media? && cs[k].kind != Aac && |cs[k].data| >= 9
    requires LastSpsPps(cs[..k]) == AnnexB.Stream(sets)
    ensures var c := cs[k];
      Pes.Parse(PesOf(JobAt(cs, k))) == Pes.Read(0xe0, Pes.Masked(Pes.Pts(c.kind, c.timestamp, c.data)),
        Pes.Masked(Pes.Dts(c.timestamp)), Pes.Body(c.kind, AnnexB.Stream(sets), [], c.data))
  {
    hide Pes.Parse, Pes.Packet, Pes.Masked, Pes.Pts, Pes.Dts, LastSpsPps, LastAdts, Runs, AnnexB.Stream;
    var j := JobAt(cs, k);
    JobReadsBack(j);
  }

  /** What was asked for by an audio header, as far as an ADTS header can say it. */
  predicate Announces(a: Adts.Adts, objectType: nat, frequency: nat, channels: nat) {
    && a.syncword == 0xfff && a.layer == 0 && a.protectionAbsent == 1 && a.numberOfRawDataBlocksInFrame == 0
    && a.samplingFrequencyIndex == frequency
    && (a.profileObjectType + 1 == objectType <==> 1 <= objectType <= 4)
    && (a.channelConfiguration == channels <==> channels < 8)
  }

  /** The header of a sound frame and what is behind it. */
  lemma SoundBody(adts: seq<byte>, data: seq<byte>, rest: seq<byte>)
    requires |adts| == Adts.ADTS_LEN && |data| >= 2
    ensures var body, size := Pes.Body(Aac, [], adts, data), 5 + |data|;
      && |body| == size && body[7..] == data[2..]
      && Adts.Parse(body[..7]) == Adts.Parse(adts).(aacFrameLength := Adts.Kept(size % TWO_TO_THE_16))
      && (Adts.FirstFrame(body + rest) == data[2..] <==> size < 8192 && Bits.Field(size, 2048, 2) == 0)
  {
    hide Adts.Parse, Adts.WithLength, Adts.FirstFrame, Adts.Kept, Bits.Field;
    var size := 5 + |data|;
    assert Pes.AdtsSize(data) == size % TWO_TO_THE_16;
    Adts.WithLengthParses(adts, size % TWO_TO_THE_16);
    Adts.LowSize(adts, size);
    Adts.FrameReadsBackExactly(adts, data[2..], rest);
    assert Pes.Body(Aac, [], adts, data) == Adts.Framed(adts, data[2..]);
  }

  /**
    A sound frame from the segment files: stream id 0xc0, one time without bit 30, and an ADTS frame with what the last
    audio header asked for; a decoder finds its end, whatever comes behind, if and only if its size is below 8192 with
    bit 11 clear.
   */
  lemma SoundPlays(cs: seq<Chunk>, maxTime: nat, k: nat, h: nat, objectType: nat, frequency: nat, channels: nat,
                   rest: seq<byte>)
    returns (pes: seq<byte>)
    requires Runs(cs) && k < |cs| && cs[k].Media? && cs[k].kind == Aac && LastAudioHeader(cs, k, h)
    requires objectType < 32 && frequency < 16 && channels < 16
    requires AsksFor(cs[h].config, objectType, frequency, channels)
    ensures var us, n := TsPacket.Demux(Emitted(Run(cs, maxTime).files), 0x101), Count(cs[..k], 0x101);
      |us| == Count(cs, 0x101) > n && |us[n]| >= 6 && pes <= us[n] && TrimsTo(us[n], pes, Aac)
    ensures |cs[k].data| >= 2
    ensures var r, t, size := Pes.Parse(pes), Pes.Masked(cs[k].timestamp * 90 % TWO_TO_THE_32), 5 + |cs[k].data|;
      && r.Read? && r.streamId == 0xc0 && r.pts == r.dts == t
      && |r.body| == size && r.body[7..] == cs[k].data[2..]
      && Announces(Adts.Parse(r.body[..7]), objectType, frequency, channels)
      && (Adts.FirstFrame(r.body + rest) == cs[k].data[2..] <==> size < 8192 && Bits.Field(size, 2048, 2) == 0)
  {
    hide Runs, Run, Emitted, TsPacket.Demux, Pes.Parse, Pes.Masked, TrimsTo, Pes.Body, PesOf, Count, LastAdts,
      UnitsOf, Jobs, Adts.Parse, Adts.Layout, Adts.Configured, Adts.FirstFrame, Adts.Kept, AsksFor, Announces,
      Bits.Field, OnPid;
    assert OnPid(cs[k], 0x101) by {
      SoundIsOn(cs[k]);
    }
    RunRecovers(cs, maxTime, 0x101);
    PesInUnit(cs, k, 0x101);
    ConfigInUse(cs, k, h);
    pes := PesOf(JobAt(cs, k));
    var adts := Adts.Layout(Adts.Configured(cs[h].config));
    Asked(cs[h].config, objectType, frequency, channels);
    SoundReads(cs, k, adts);
    SoundBody(adts, cs[k].data, rest);
    Announced(Adts.Parse(adts), Adts.Kept((5 + |cs[k].data|) % TWO_TO_THE_16), objectType, frequency, channels);
  }

  /** The data of an audio header with this configuration, whatever else is in it. */
  ghost predicate AsksFor(config: seq<byte>, objectType: nat, frequency: nat, channels: nat)
    requires objectType < 32 && frequency < 16 && channels < 16
  {
    exists sound: nat, flags: nat, more :: sound < 16 && flags < 8 &&
      config == AacBody(sound, 0, AudioConfig(objectType, frequency, channels, flags, more))
  }

  lemma Asked(config: seq<byte>, objectType: nat, frequency: nat, channels: nat)
    requires objectType < 32 && frequency < 16 && channels < 16 && AsksFor(config, objectType, frequency, channels)
    ensures |config| >= 4
    ensures Announces(Adts.Parse(Adts.Layout(Adts.Configured(config))), objectType, frequency, channels)
  {
    hide Adts.Parse, Adts.Layout, Adts.Configured, Adts.Narrowed;
    var sound: nat, flags: nat, more :| sound < 16 && flags < 8 &&
      config == AacBody(sound, 0, AudioConfig(objectType, frequency, channels, flags, more));
    Typing.ConfigKept(sound, objectType, frequency, channels, flags, more);
    Adts.ParseInvertsLayout(Adts.Configured(config));
  }

  lemma SoundIsOn(c: Chunk)
    requires c.Media? && c.kind == Aac
    ensures OnPid(c, 0x101)
  {
  }

  lemma Announced(a: Adts.Adts, length: nat, objectType: nat, frequency: nat, channels: nat)
    requires Announces(a, objectType, frequency, channels)
    ensures Announces(a.(aacFrameLength := length), objectType, frequency, channels)
  {
  }

  lemma SoundReads(cs: seq<Chunk>, k: nat, adts: seq<byte>)
    requires Runs(cs) && k < |cs| && cs[k].Media? && cs[k].kind == Aac && LastAdts(cs[..k]) == adts
    ensures |adts| == Adts.ADTS_LEN && |cs[k].data| >= 2
    ensures var t := Pes.Masked(cs[k].timestamp * 90 % TWO_TO_THE_32);
      Pes.Parse(PesOf(JobAt(cs, k))) == Pes.Read(0xc0, t, t, Pes.Body(Aac, [], adts, cs[k].data))
  {
    hide Pes.Parse, Pes.Packet, Pes.Masked, LastSpsPps, LastAdts, Runs, Adts.WithLength;
    var j := JobAt(cs, k);
    JobReadsBack(j);
  }
}
