/**
  The muxer over whole runs (hls.go:281-332, 645-819): every chunk that comes over HlsChan, as packets in segment
  files, and what a demultiplexer recovers from them.
 */
module Mux {
  import opened Bytes
  import opened DataTypes
  import opened Segments
  import opened TsPacket
  import Adts
  import opened ParameterSets
  import Pes
  import Psi

  /** A frame with all that its PES packet is made of. */
  datatype Job = Job(kind: Kind, timestamp: nat, spsPps: seq<byte>, adts: seq<byte>, data: seq<byte>)

  predicate Muxable(j: Job) {
    |j.data| >= Pes.TagLen(j.kind) && (j.kind == Aac ==> |j.adts| == Adts.ADTS_LEN)
  }

  type Muxed = j: Job | Muxable(j) witness Job(Inter, 0, [], [], [0, 0, 0, 0, 0, 0, 0, 0, 0])

  function PidOf(kind: Kind): nat {
    if kind == Aac then AUDIO_PID else VIDEO_PID
  }

  function PesOf(j: Muxed): seq<byte> {
    Pes.Packet(j.kind, j.timestamp, j.spsPps, j.adts, j.data)
  }

  /** TsFileAppend: the packets of one frame. */
  function Packets(j: Muxed, counter: nat): seq<Packet>
    requires counter < 16
  {
    var pes := PesOf(j);
    match j.kind
    case Key => KeyPackets(counter, pes, Pes.Dts(j.timestamp))
    case Inter => InterPackets(counter, pes)
    case Aac => AacPackets(counter, pes)
  }

  function PatPacket(): Packet {
    TablePacket(PAT_PID, Psi.Octets(Psi.Section(Psi.PAT_BODY)))
  }

  function PmtPacket(): Packet {
    TablePacket(PMT_PID, Psi.Octets(Psi.Section(Psi.PMT_BODY)))
  }

  /** One segment file. */
  datatype File = File(jobs: seq<Muxed>, packets: seq<Packet>)

  function NewFile(): File {
    File([], [PatPacket(), PmtPacket()])
  }

  datatype State = State(
    video: nat,
    audio: nat,
    spsPps: seq<byte>,
    adts: seq<byte>,
    segs: seq<Segment>,
    files: seq<File>)

  function Initial(): State {
    State(0, 0, [], [], [], [])
  }

  ghost predicate Sound(st: State) {
    st.video < 16 && st.audio < 16 && |st.files| == |st.segs|
  }

  /** c can be handled in this state. */
  predicate Ready(st: State, c: Chunk) {
    match c
    case Media(kind, _, data) => |data| >= Pes.TagLen(kind) && (kind == Aac ==> |st.adts| == Adts.ADTS_LEN)
    case AudioHeader(config) => |config| >= 4
    case VideoHeader(record) => RecordOk(record) && PrepareOk(record)
    case _ => true
  }

  /** TsFileAppend on the open file; what has no known DataType is not written. */
  function Append(st: State, f: Frame): (r: State)
    requires Sound(st) && st.files != [] && Ready(st, f)
    ensures Sound(r) && |r.adts| == |st.adts|
  {
    if f.Other? then st
    else
      var j: Muxed := Job(f.kind, f.timestamp, st.spsPps, st.adts, f.data);
      var ps := Packets(j, if f.kind == Aac then st.audio else st.video);
      var file := Last(st.files);
      st.(video := if f.kind == Aac then st.video else (st.video + |ps|) % 16,
          audio := if f.kind == Aac then (st.audio + |ps|) % 16 else st.audio,
          adts := if f.kind == Aac then Adts.WithLength(st.adts, Pes.AdtsSize(f.data)) else st.adts,
          files := Front(st.files) + [File(file.jobs + [j], file.packets + ps)])
  }

  /** A file is begun for the segment that f opens. */
  function Begin(st: State, f: Frame): (r: State)
    ensures |r.files| == |st.files| + 1 && |r.segs| == |st.segs| + 1
  {
    st.(segs := Opening(st.segs, f), files := st.files + [NewFile()])
  }

  function Continue(st: State, f: Frame): (r: State)
    requires st.segs != []
    ensures |r.segs| == |st.segs|
  {
    st.(segs := Longer(st.segs, f))
  }

  /** TsCreate. */
  function Create(st: State, f: Frame, maxTime: nat): (r: State)
    requires Sound(st) && Ready(st, f)
    ensures Sound(r) && |r.adts| == |st.adts|
  {
    if Cuts(st.segs, f, maxTime) then Append(Begin(st, f), f) else Append(Continue(st, f), f)
  }

  /** One round of HlsCreator's loop. */
  function Step(st: State, c: Chunk, maxTime: nat): (r: State)
    requires Sound(st) && Ready(st, c)
    ensures Sound(r) && |r.adts| == if c.AudioHeader? then Adts.ADTS_LEN else |st.adts|
  {
    match c
    case Metadata => st
    case VideoHeader(record) => st.(spsPps := SpsPps(record))
    case AudioHeader(config) => st.(adts := Adts.Layout(Adts.Configured(config)))
    case _ => Create(st, c, maxTime)
  }

  // ---------------------------------------------------------------- runs

  function TimedOnly(cs: seq<Chunk>): seq<Frame> {
    if cs == [] then [] else TimedOnly(Front(cs)) + if Timed(Last(cs)) then [Last(cs)] else []
  }

  /** The parameter sets of the last video header. */
  function LastSpsPps(cs: seq<Chunk>): seq<byte> {
    if cs == [] then []
    else if Last(cs).VideoHeader? && RecordOk(Last(cs).record) then SpsPps(Last(cs).record)
    else LastSpsPps(Front(cs))
  }

  /** The ADTS header that the last audio header asks for. */
  function LastAdts(cs: seq<Chunk>): (d: seq<byte>)
    ensures d == [] || |d| == Adts.ADTS_LEN
  {
    if cs == [] then []
    else if Last(cs).AudioHeader? && |Last(cs).config| >= 4 then Adts.Layout(Adts.Configured(Last(cs).config))
    else LastAdts(Front(cs))
  }

  /** What the source takes for granted of the next chunk, on pain of a panic. */
  predicate Acceptable(before: seq<Chunk>, c: Chunk) {
    match c
    case Media(kind, _, data) => |data| >= Pes.TagLen(kind) && (kind == Aac ==> LastAdts(before) != [])
    case AudioHeader(config) => |config| >= 4
    case VideoHeader(record) => RecordOk(record) && PrepareOk(record)
    case _ => true
  }

  predicate Runs(cs: seq<Chunk>) {
    cs == [] || (Runs(Front(cs)) && Acceptable(Front(cs), Last(cs)))
  }

  /** The state after all of cs. */
  function Run(cs: seq<Chunk>, maxTime: nat): (st: State)
    requires Runs(cs)
    ensures Sound(st) && |st.adts| == |LastAdts(cs)|
  {
    if cs == [] then Initial() else Step(Run(Front(cs), maxTime), Last(cs), maxTime)
  }

  // ---------------------------------------------------------------- what is to come out

  /** The frames of a run, each with the headers that came before it. */
  function Jobs(cs: seq<Chunk>): seq<Muxed>
    requires Runs(cs)
  {
    if cs == [] then [] else Jobs(Front(cs)) + NextJob(Front(cs), Last(cs))
  }

  function NextJob(before: seq<Chunk>, c: Chunk): seq<Muxed>
    requires Acceptable(before, c)
  {
    if c.Media? then [Job(c.kind, c.timestamp, LastSpsPps(before), LastAdts(before), c.data)] else []
  }

  /** What a demultiplexer is to recover for one PID. */
  function UnitsOf(js: seq<Muxed>, pid: nat): seq<seq<byte>> {
    if js == [] then []
    else
      var j := Last(js);
      UnitsOf(Front(js), pid) + if PidOf(j.kind) == pid then [Pes.Unit(j.kind, PesOf(j))] else []
  }

  function Emitted(files: seq<File>): seq<Packet> {
    if files == [] then [] else Emitted(Front(files)) + Last(files).packets
  }

  // ---------------------------------------------------------------- one step

  lemma JobIsTrain(j: Muxed, counter: nat)
    requires counter < 16
    ensures Train(Packets(j, counter), true, PidOf(j.kind), counter)
    ensures Joined(Packets(j, counter)) == Pes.Unit(j.kind, PesOf(j))
  {
    hide Train, Joined, KeyPackets, InterPackets, AacPackets, PesOf, KeyUnit, InterUnit;
    match j.kind
    case Key => KeyIsTrain(counter, PesOf(j), Pes.Dts(j.timestamp));
    case Inter => InterIsTrain(counter, PesOf(j));
    case Aac => AacIsTrain(counter, PesOf(j));
  }

  lemma EmittedNew(files: seq<File>, file: File)
    ensures Emitted(files + [file]) == Emitted(files) + file.packets
  {
    assert Front(files + [file]) == files;
  }

  lemma EmittedMore(files: seq<File>, jobs: seq<Muxed>, ps: seq<Packet>)
    requires files != []
    ensures Emitted(Front(files) + [File(jobs, Last(files).packets + ps)]) == Emitted(files) + ps
  {
    EmittedNew(Front(files), File(jobs, Last(files).packets + ps));
  }

  /** The packets of one PID are counted from 0, and `counter` is what the next one gets. */
  ghost predicate CountedTo(ps: seq<Packet>, pid: nat, counter: nat) {
    Counted(OfPid(ps, pid)) && counter == |OfPid(ps, pid)| % 16
  }

  ghost predicate CountersOk(st: State) {
    CountedTo(Emitted(st.files), VIDEO_PID, st.video) && CountedTo(Emitted(st.files), AUDIO_PID, st.audio)
  }

  /** A frame's packets in a stream: a unit more, counted on, for its PID, and nothing for the others. */
  lemma JobAdds(ps: seq<Packet>, j: Muxed, counter: nat, pid: nat, next: nat)
    requires counter < 16 && CountedTo(ps, pid, next) && (PidOf(j.kind) == pid ==> next == counter)
    ensures var qs := Packets(j, counter);
      && Demux(ps + qs, pid) ==
         Demux(ps, pid) + (if PidOf(j.kind) == pid then [Pes.Unit(j.kind, PesOf(j))] else [])
      && CountedTo(ps + qs, pid, if PidOf(j.kind) == pid then (next + |qs|) % 16 else next)
  {
    hide Train, Joined, Packets, Demux, OfPid, Counted;
    var qs := Packets(j, counter);
    JobIsTrain(j, counter);
    TrainAdds(ps, qs, PidOf(j.kind), counter, pid);
    if PidOf(j.kind) == pid {
      TrainCounts(OfPid(ps, pid), qs, true, pid, counter);
      GoesOn(|OfPid(ps, pid)|, |qs|);
    } else {
      assert OfPid(ps + qs, pid) == OfPid(ps, pid);
    }
  }

  /** The tables in front of a segment are nothing to the media PIDs. */
  lemma TablesAdd(ps: seq<Packet>, pid: nat)
    requires pid == VIDEO_PID || pid == AUDIO_PID
    ensures Demux(ps + NewFile().packets, pid) == Demux(ps, pid)
    ensures OfPid(ps + NewFile().packets, pid) == OfPid(ps, pid)
  {
    hide Train, Joined, Demux, OfPid, PatPacket, PmtPacket;
    TablesAreTrains();
    TrainAdds(ps, [PatPacket()], PAT_PID, 0, pid);
    TrainAdds(ps + [PatPacket()], [PmtPacket()], PMT_PID, 0, pid);
    assert ps + [PatPacket()] + [PmtPacket()] == ps + NewFile().packets;
  }

  lemma TablesAreTrains()
    ensures Train([PatPacket()], true, PAT_PID, 0) && Train([PmtPacket()], true, PMT_PID, 0)
  {
    hide Train, TablePacket, Psi.Octets, Psi.Section;
    TableIsTrain(PAT_PID, Psi.Octets(Psi.Section(Psi.PAT_BODY)));
    TableIsTrain(PMT_PID, Psi.Octets(Psi.Section(Psi.PMT_BODY)));
  }

  /** The frame of a job. */
  function FrameOf(j: Muxed): Frame {
    Media(j.kind, j.timestamp, j.data)
  }

  function FramesOf(js: seq<Muxed>): (fs: seq<Frame>)
    ensures |fs| == |js|
  {
    if js == [] then [] else FramesOf(Front(js)) + [FrameOf(Last(js))]
  }

  function MediaOf(fs: seq<Frame>): seq<Frame> {
    if fs == [] then [] else MediaOf(Front(fs)) + if Last(fs).Media? then [Last(fs)] else []
  }

  /** A file holds the frames of its segment, and a demultiplexer recovers them from that file alone. */
  ghost predicate Holds(file: File, seg: seq<Frame>) {
    && FramesOf(file.jobs) == MediaOf(seg)
    && Demux(file.packets, VIDEO_PID) == UnitsOf(file.jobs, VIDEO_PID)
    && Demux(file.packets, AUDIO_PID) == UnitsOf(file.jobs, AUDIO_PID)
    && NewFile().packets <= file.packets
  }

  // ---------------------------------------------------------------- one step at a time

  /** The unit that f adds to a PID, in state st. */
  function Adds(st: State, f: Frame, pid: nat): seq<seq<byte>>
    requires Ready(st, f)
  {
    if f.Media? && PidOf(f.kind) == pid then
      [Pes.Unit(f.kind, PesOf(Job(f.kind, f.timestamp, st.spsPps, st.adts, f.data)))]
    else []
  }

  lemma AppendKeeps(st: State, f: Frame, pid: nat)
    requires Sound(st) && st.files != [] && Ready(st, f) && CountersOk(st) && (pid == VIDEO_PID || pid == AUDIO_PID)
    ensures CountersOk(Append(st, f))
    ensures Demux(Emitted(Append(st, f).files), pid) == Demux(Emitted(st.files), pid) + Adds(st, f, pid)
  {
    hide CountedTo, Demux, Emitted, Packets, PesOf, Front, Last;
    var ps := Emitted(st.files);
    if f.Media? {
      var j: Muxed := Job(f.kind, f.timestamp, st.spsPps, st.adts, f.data);
      var counter := if f.kind == Aac then st.audio else st.video;
      EmittedMore(st.files, Last(st.files).jobs + [j], Packets(j, counter));
      JobAdds(ps, j, counter, VIDEO_PID, st.video);
      JobAdds(ps, j, counter, AUDIO_PID, st.audio);
    }
  }

  lemma BeginKeeps(st: State, f: Frame, pid: nat)
    requires CountersOk(st) && (pid == VIDEO_PID || pid == AUDIO_PID)
    ensures var r := Begin(st, f);
      CountersOk(r) && Demux(Emitted(r.files), pid) == Demux(Emitted(st.files), pid)
  {
    hide Demux, Emitted, NewFile, OfPid, Counted, Opening;
    EmittedNew(st.files, NewFile());
    TablesAdd(Emitted(st.files), VIDEO_PID);
    TablesAdd(Emitted(st.files), AUDIO_PID);
  }

  lemma CreateKeeps(st: State, f: Frame, maxTime: nat, pid: nat)
    requires Sound(st) && Ready(st, f) && CountersOk(st) && (pid == VIDEO_PID || pid == AUDIO_PID)
    ensures CountersOk(Create(st, f, maxTime))
    ensures Demux(Emitted(Create(st, f, maxTime).files), pid) == Demux(Emitted(st.files), pid) + Adds(st, f, pid)
  {
    hide CountersOk, Demux, Emitted, Append, NewFile, PesOf, Opening, Longer, Cuts;
    if Cuts(st.segs, f, maxTime) {
      BeginKeeps(st, f, pid);
      AppendKeeps(Begin(st, f), f, pid);
    } else {
      assert st.segs != [] by {
        NothingCuts(f, maxTime);
      }
      ContinueKeeps(st, f);
      AppendKeeps(Continue(st, f), f, pid);
    }
  }

  lemma NothingCuts(f: Frame, maxTime: nat)
    ensures Cuts([], f, maxTime)
  {
  }

  lemma ContinueKeeps(st: State, f: Frame)
    requires st.segs != []
    ensures CountersOk(Continue(st, f)) <==> CountersOk(st)
  {
  }

  lemma StepKeeps(st: State, c: Chunk, maxTime: nat, pid: nat)
    requires Sound(st) && Ready(st, c) && CountersOk(st) && (pid == VIDEO_PID || pid == AUDIO_PID)
    ensures CountersOk(Step(st, c, maxTime))
    ensures Demux(Emitted(Step(st, c, maxTime).files), pid) ==
      Demux(Emitted(st.files), pid) + if Timed(c) then Adds(st, c, pid) else []
  {
    hide CountedTo, Demux, Emitted, Create;
    if Timed(c) {
      CreateKeeps(st, c, maxTime, pid);
    }
  }

  // ---------------------------------------------------------------- segments

  lemma UnitsMore(file: File, j: Muxed, counter: nat, pid: nat)
    requires Demux(file.packets, pid) == UnitsOf(file.jobs, pid) && counter < 16
    ensures Demux(file.packets + Packets(j, counter), pid) == UnitsOf(file.jobs + [j], pid)
  {
    hide Demux, Packets, PesOf, Train, Joined, OfPid;
    assert Front(file.jobs + [j]) == file.jobs;
    JobIsTrain(j, counter);
    TrainAdds(file.packets, Packets(j, counter), PidOf(j.kind), counter, pid);
  }

  lemma HoldsMore(file: File, seg: seq<Frame>, j: Muxed, counter: nat)
    requires Holds(file, seg) && counter < 16
    ensures Holds(File(file.jobs + [j], file.packets + Packets(j, counter)), seg + [FrameOf(j)])
  {
    hide Demux, Packets, NewFile, UnitsOf;
    assert Front(file.jobs + [j]) == file.jobs && Front(seg + [FrameOf(j)]) == seg;
    UnitsMore(file, j, counter, VIDEO_PID);
    UnitsMore(file, j, counter, AUDIO_PID);
  }

  lemma HoldsOther(file: File, seg: seq<Frame>, f: Frame)
    requires Holds(file, seg) && f.Other?
    ensures Holds(file, seg + [f])
  {
    hide Demux, UnitsOf, FramesOf, NewFile;
    assert Front(seg + [f]) == seg;
  }

  lemma HoldsNothing()
    ensures Holds(NewFile(), [])
  {
    hide NewFile, Units;
    TablesAdd([], VIDEO_PID);
    TablesAdd([], AUDIO_PID);
    assert [] + NewFile().packets == NewFile().packets;
    NoUnits();
  }

  lemma NoUnits()
    ensures Units([]) == [] && NewFile().jobs == []
  {
  }

  ghost predicate AllHold(files: seq<File>, segs: seq<Segment>)
    requires |files| == |segs|
  {
    forall i :: 0 <= i < |files| ==> Holds(files[i], segs[i])
  }

  lemma AppendHolds(st: State, f: Frame, seg: seq<Frame>)
    requires Sound(st) && st.files != [] && Ready(st, f) && Holds(Last(st.files), seg)
    ensures var r := Append(st, f);
      && |r.files| == |st.files| && Front(r.files) == Front(st.files) && Holds(Last(r.files), seg + [f])
  {
    hide Holds, Packets;
    var file := Last(st.files);
    if f.Media? {
      var j: Muxed := Job(f.kind, f.timestamp, st.spsPps, st.adts, f.data);
      HoldsMore(file, seg, j, if f.kind == Aac then st.audio else st.video);
      assert FrameOf(j) == f;
    } else {
      HoldsOther(file, seg, f);
    }
  }

  lemma CreateHolds(st: State, f: Frame, maxTime: nat)
    requires Sound(st) && Ready(st, f) && AllHold(st.files, st.segs)
    ensures var r := Create(st, f, maxTime); AllHold(r.files, r.segs)
  {
    hide Append, Holds, NewFile, Due;
    var cuts := Cuts(st.segs, f, maxTime);
    var begun := if cuts then Begin(st, f) else Continue(st, f);
    var seg: seq<Frame> := if cuts then [] else Last(st.segs);
    HoldsNothing();
    AppendHolds(begun, f, seg);
    AppendSegs(begun, f);
    LastHolds(st.files, st.segs, Append(begun, f).files, begun.segs, seg + [f]);
  }

  lemma LastHolds(files: seq<File>, segs: seq<Segment>, files': seq<File>, segs': seq<Segment>, seg: seq<Frame>)
    requires |files| == |segs| && |files'| == |segs'| && AllHold(files, segs)
    requires files' != [] && Front(files') <= files && Front(segs') <= segs
    requires Holds(Last(files'), seg) && Last(segs') == seg
    ensures AllHold(files', segs')
  {
    hide Holds;
    forall i | 0 <= i < |files'|
      ensures Holds(files'[i], segs'[i])
    {
      if i < |files'| - 1 {
        assert Front(files')[i] == files[i] && Front(segs')[i] == segs[i];
      }
    }
  }

  lemma AppendSegs(st: State, f: Frame)
    requires Sound(st) && st.files != [] && Ready(st, f)
    ensures Append(st, f).segs == st.segs
  {
  }

  // ---------------------------------------------------------------- whole runs

  /** The two headers make the same packets, whatever length is patched in. */
  ghost predicate SameHeader(d: seq<byte>, e: seq<byte>) {
    && |d| == |e|
    && (|d| == Adts.ADTS_LEN ==> forall n: nat :: Adts.WithLength(d, n) == Adts.WithLength(e, n))
  }

  /** Every frame of a run is in exactly one segment, in order, by the cut that is proved unique. */
  lemma {:induction false} RunCuts(cs: seq<Chunk>, maxTime: nat)
    requires Runs(cs)
    ensures Run(cs, maxTime).segs == Cut(TimedOnly(cs), maxTime)
  {
    hide Step, Place, Cut, TimedOnly;
    if cs == [] {
      NothingHeld(maxTime);
    } else {
      RunCuts(Front(cs), maxTime);
      StepCuts(Run(Front(cs), maxTime), Last(cs), maxTime);
      CutNext(cs, maxTime);
    }
  }

  /** How many chunks are neither headers nor metadata. */
  function TimedCount(cs: seq<Chunk>): nat {
    if cs == [] then 0
    else
      var c := Last(cs);
      TimedCount(Front(cs)) + if c.VideoHeader? || c.AudioHeader? || c.Metadata? then 0 else 1
  }

  lemma {:induction false} TimedInOrder(cs: seq<Chunk>)
    ensures |TimedOnly(cs)| == TimedCount(cs)
    ensures forall k :: 0 <= k < |cs| && !cs[k].VideoHeader? && !cs[k].AudioHeader? && !cs[k].Metadata? ==>
      TimedCount(cs[..k]) < TimedCount(cs) && TimedOnly(cs)[TimedCount(cs[..k])] == cs[k]
  {
    if cs != [] {
      var before := Front(cs);
      TimedInOrder(before);
      forall k | 0 <= k < |cs| && !cs[k].VideoHeader? && !cs[k].AudioHeader? && !cs[k].Metadata?
        ensures TimedCount(cs[..k]) < TimedCount(cs) && TimedOnly(cs)[TimedCount(cs[..k])] == cs[k]
      {
        if k < |before| {
          assert before[..k] == cs[..k] && before[k] == cs[k];
        } else {
          assert before == cs[..k];
        }
      }
    }
  }

  /**
    In every run all frames, that is all chunks but headers and metadata, lie in the segments in their order; every
    segment but the first begins with a keyframe at least maxTime seconds, by the uint32 clock, after the beginning of
    the one before; and no such keyframe lies inside a segment.
   */
  lemma RunIsLawful(cs: seq<Chunk>, maxTime: nat)
    requires Runs(cs)
    ensures var segs := Run(cs, maxTime).segs;
      Lawful(segs, maxTime) && |Concat(segs)| == TimedCount(cs)
      && (forall k :: 0 <= k < |cs| && !cs[k].VideoHeader? && !cs[k].AudioHeader? && !cs[k].Metadata? ==>
            TimedCount(cs[..k]) < TimedCount(cs) && Concat(segs)[TimedCount(cs[..k])] == cs[k])
  {
    hide Run, Runs, Cut, Concat, TimedOnly, TimedCount, Lawful;
    RunCuts(cs, maxTime);
    CutIsLawful(TimedOnly(cs), maxTime);
    TimedInOrder(cs);
  }

  lemma StepCuts(st: State, c: Chunk, maxTime: nat)
    requires Sound(st) && Ready(st, c)
    ensures Step(st, c, maxTime).segs == if Timed(c) then Place(st.segs, c, maxTime) else st.segs
  {
    hide Append, NewFile, Due;
    if Timed(c) {
      AppendSegs(if Cuts(st.segs, c, maxTime) then Begin(st, c) else Continue(st, c), c);
    }
  }

  /** Every file of a run holds the frames of its segment, and can be read by itself. */
  lemma {:induction false} RunHolds(cs: seq<Chunk>, maxTime: nat)
    requires Runs(cs)
    ensures AllHold(Run(cs, maxTime).files, Run(cs, maxTime).segs)
  {
    hide AllHold, Step;
    if cs == [] {
      NothingHeld(maxTime);
    } else {
      RunHolds(Front(cs), maxTime);
      StepHolds(Run(Front(cs), maxTime), Last(cs), maxTime);
    }
  }

  lemma CutNext(cs: seq<Chunk>, maxTime: nat)
    requires cs != []
    ensures var segs, c := Cut(TimedOnly(Front(cs)), maxTime), Last(cs);
      Cut(TimedOnly(cs), maxTime) == if Timed(c) then Place(segs, c, maxTime) else segs
  {
    hide Place;
    var before, c := TimedOnly(Front(cs)), Last(cs);
    if Timed(c) {
      var fs: seq<Frame> := before + [c];
      assert TimedOnly(cs) == fs && Front(fs) == before && Last(fs) == c;
    } else {
      assert TimedOnly(cs) == before;
    }
  }

  lemma StepHolds(st: State, c: Chunk, maxTime: nat)
    requires Sound(st) && Ready(st, c) && AllHold(st.files, st.segs)
    ensures AllHold(Step(st, c, maxTime).files, Step(st, c, maxTime).segs)
  {
    hide AllHold, Create;
    if Timed(c) {
      CreateHolds(st, c, maxTime);
    }
  }

  lemma NothingHeld(maxTime: nat)
    ensures AllHold([], []) && Cut(TimedOnly([]), maxTime) == []
  {
  }

  lemma {:induction false} RunHeaders(cs: seq<Chunk>, maxTime: nat)
    requires Runs(cs)
    ensures var st := Run(cs, maxTime); st.spsPps == LastSpsPps(cs) && SameHeader(st.adts, LastAdts(cs))
  {
    hide SameHeader, Step;
    if cs == [] {
      SameToItself([]);
    } else {
      var before, c := Front(cs), Last(cs);
      RunHeaders(before, maxTime);
      var st := Run(before, maxTime);
      StepHeaders(st, c, maxTime);
      if c.AudioHeader? {
        SameToItself(Adts.Layout(Adts.Configured(c.config)));
      } else if c.Media? && c.kind == Aac {
        PatchedIsSame(st.adts, LastAdts(before), Pes.AdtsSize(c.data));
      }
    }
  }

  lemma StepHeaders(st: State, c: Chunk, maxTime: nat)
    requires Sound(st) && Ready(st, c)
    ensures var r := Step(st, c, maxTime);
      && r.spsPps == (if c.VideoHeader? then SpsPps(c.record) else st.spsPps)
      && r.adts ==
         if c.AudioHeader? then Adts.Layout(Adts.Configured(c.config))
         else if c.Media? && c.kind == Aac then Adts.WithLength(st.adts, Pes.AdtsSize(c.data))
         else st.adts
  {
    hide Opening, Longer, NewFile, Packets, Cuts, Adts.WithLength;
  }

  lemma SameToItself(d: seq<byte>)
    ensures SameHeader(d, d)
  {
  }

  lemma PatchedIsSame(d: seq<byte>, e: seq<byte>, m: nat)
    requires |d| == Adts.ADTS_LEN && SameHeader(d, e)
    ensures SameHeader(Adts.WithLength(d, m), e)
  {
    forall n: nat
      ensures Adts.WithLength(Adts.WithLength(d, m), n) == Adts.WithLength(e, n)
    {
      Adts.WithLengthAbsorbs(d, m, n);
    }
  }

  lemma SamePes(j: Muxed, adts: seq<byte>)
    requires SameHeader(j.adts, adts)
    ensures PesOf(j.(adts := adts)) == PesOf(j)
  {
  }

  /**
    The round trip of the muxer, over whole runs and across segment cuts: taking the packets of a PID from all the
    files, in order, gives the PES packets of its frames, in order, and the i-th packet carries counter i mod 16.
   */
  lemma {:induction false} RunRecovers(cs: seq<Chunk>, maxTime: nat, pid: nat)
    requires Runs(cs) && (pid == VIDEO_PID || pid == AUDIO_PID)
    ensures Demux(Emitted(Run(cs, maxTime).files), pid) == UnitsOf(Jobs(cs), pid)
    ensures Counted(OfPid(Emitted(Run(cs, maxTime).files), pid))
    ensures CountersOk(Run(cs, maxTime))
  {
    hide Demux, Counted, OfPid, Step, PesOf, Adds;
    if cs == [] {
      NothingEmitted(pid);
    } else {
      var before, c := Front(cs), Last(cs);
      RunRecovers(before, maxTime, pid);
      var st := Run(before, maxTime);
      StepKeeps(st, c, maxTime, pid);
      RunHeaders(before, maxTime);
      NextUnit(before, c, st, pid);
      assert Jobs(cs) == Jobs(before) + NextJob(before, c);
      MoreUnits(Jobs(before), NextJob(before, c), pid);
    }
  }

  lemma NothingEmitted(pid: nat)
    ensures Demux(Emitted([]), pid) == [] && Counted(OfPid(Emitted([]), pid)) && CountersOk(Initial())
  {
  }

  lemma NextUnit(before: seq<Chunk>, c: Chunk, st: State, pid: nat)
    requires Acceptable(before, c) && Ready(st, c)
    requires st.spsPps == LastSpsPps(before) && SameHeader(st.adts, LastAdts(before))
    ensures UnitsOf(NextJob(before, c), pid) == if Timed(c) then Adds(st, c, pid) else []
  {
    hide PesOf, SameHeader, LastSpsPps, LastAdts;
    if c.Media? {
      SamePes(Job(c.kind, c.timestamp, st.spsPps, st.adts, c.data), LastAdts(before));
    }
  }

  lemma MoreUnits(js: seq<Muxed>, next: seq<Muxed>, pid: nat)
    requires |next| <= 1
    ensures UnitsOf(js + next, pid) == UnitsOf(js, pid) + UnitsOf(next, pid)
  {
    hide PesOf;
    if next == [] {
      assert js + next == js;
    } else {
      assert Front(js + next) == js && Last(js + next) == next[0] && Front(next) == [];
    }
  }

  /** The jobs of one PID. */
  function JobsOf(js: seq<Muxed>, pid: nat): seq<Muxed> {
    if js == [] then [] else JobsOf(Front(js), pid) + if PidOf(Last(js).kind) == pid then [Last(js)] else []
  }

  lemma {:induction false} UnitAt(js: seq<Muxed>, pid: nat, i: nat)
    requires i < |JobsOf(js, pid)|
    ensures |UnitsOf(js, pid)| == |JobsOf(js, pid)|
    ensures var j := JobsOf(js, pid)[i]; UnitsOf(js, pid)[i] == Pes.Unit(j.kind, PesOf(j))
  {
    hide PesOf;
    if i < |JobsOf(Front(js), pid)| {
      UnitAt(Front(js), pid, i);
    } else {
      SameNumber(Front(js), pid);
    }
  }

  lemma {:induction false} SameNumber(js: seq<Muxed>, pid: nat)
    ensures |UnitsOf(js, pid)| == |JobsOf(js, pid)|
  {
    hide PesOf;
    if js != [] {
      SameNumber(Front(js), pid);
    }
  }

  /**
    What a player gets of the i-th frame of a PID: its PES packet, exactly when the length fits; and in that the
    times without bit 30 and the frame's data behind what the muxer puts in front of it.
   */
  lemma PlayersGet(cs: seq<Chunk>, maxTime: nat, pid: nat, i: nat)
    requires Runs(cs) && (pid == VIDEO_PID || pid == AUDIO_PID) && i < |JobsOf(Jobs(cs), pid)|
    ensures var us, j := Demux(Emitted(Run(cs, maxTime).files), pid), JobsOf(Jobs(cs), pid)[i];
      var pes := PesOf(j); var n := |pes|;
      && |us| == |JobsOf(Jobs(cs), pid)| && |us[i]| >= 6
      && (Pes.Trimmed(us[i]) == pes <==>
            if j.kind == Key then n >= 176 else n - 6 < TWO_TO_THE_16 || (n - 6) % TWO_TO_THE_16 == 0)
      && Pes.Parse(pes) == Pes.Read(Pes.StreamId(j.kind), Pes.Masked(Pes.Pts(j.kind, j.timestamp, j.data)),
                                    Pes.Masked(Pes.Dts(j.timestamp)), Pes.Body(j.kind, j.spsPps, j.adts, j.data))
  {
    hide *;
    RunRecovers(cs, maxTime, pid);
    UnitAt(Jobs(cs), pid, i);
    var j := JobsOf(Jobs(cs), pid)[i];
    JobReadsBack(j);
  }

  lemma JobReadsBack(j: Muxed)
    ensures var pes := PesOf(j); var n, unit := |pes|, Pes.Unit(j.kind, pes);
      && |unit| >= 6
      && (Pes.Trimmed(unit) == pes <==>
            if j.kind == Key then n >= 176 else n - 6 < TWO_TO_THE_16 || (n - 6) % TWO_TO_THE_16 == 0)
      && Pes.Parse(pes) == Pes.Read(Pes.StreamId(j.kind), Pes.Masked(Pes.Pts(j.kind, j.timestamp, j.data)),
                                    Pes.Masked(Pes.Dts(j.timestamp)), Pes.Body(j.kind, j.spsPps, j.adts, j.data))
  {
    hide Pes.Trimmed, Pes.Unit, Pes.Parse, Pes.Packet, Pes.Body;
    Pes.UnitKeepsLength(j.kind, PesOf(j));
    Pes.TrimmedExactly(j.kind, j.timestamp, j.spsPps, j.adts, j.data);
    Pes.PacketReadsBack(j.kind, j.timestamp, j.spsPps, j.adts, j.data);
  }
}
