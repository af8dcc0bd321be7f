/**
  The HLS side of a publisher with its state (hls.go:26-45, 281-332, 390-819, 1345-1396): counters, the ADTS header
  that is patched in place, the open segment file, the sliding list, and the files on disk.
 */
module HlsStream {
  import opened Bytes
  import opened DataTypes
  import opened Bits
  import opened Segments
  import opened TsPacket
  import opened Mux
  import opened ParameterSets
  import Adts
  import Pes
  import PesIo
  import Psi

  /** A file written to. */
  function Appended(disk: map<nat, seq<byte>>, path: nat, b: seq<byte>): map<nat, seq<byte>>
    requires path in disk
  {
    disk[path := disk[path] + b]
  }

  lemma AppendedTwice(disk: map<nat, seq<byte>>, path: nat, a: seq<byte>, b: seq<byte>)
    requires path in disk
    ensures path in Appended(disk, path, a)
    ensures Appended(Appended(disk, path, a), path, b) == Appended(disk, path, a + b)
  {
    assert disk[path] + a + b == disk[path] + (a + b);
  }

  lemma AppendedNothing(disk: map<nat, seq<byte>>, path: nat)
    requires path in disk
    ensures Appended(disk, path, []) == disk
  {
    assert disk[path] + [] == disk[path];
  }

  // ---------------------------------------------------------------- filling a packet

  method PutHeader(d: array<byte>, start: bool, pid: nat, control: nat, counter: nat)
    requires d.Length == PACKET_LEN && pid < 0x2000 && control < 4 && counter < 16
    modifies d
    ensures d[..4] == Header(start, pid, control, counter)
  {
    var b1: byte := (if start then 0x40 else 0) + pid / 256;
    var b3: byte := control * 16 + counter;
    d[0] := 0x47;
    d[1] := b1;
    d[2] := pid % 256;
    d[3] := b3;
  }

  /** The padding loops. */
  method PutFill(d: array<byte>, at: nat, n: nat)
    requires at + n <= d.Length
    modifies d
    ensures d[..at + n] == old(d[..at]) + Fill(n)
  {
    for i := 0 to n
      invariant d[..at] == old(d[..at])
      invariant d[..at + i] == d[..at] + Fill(i)
    {
      d[at + i] := 0xff;
      assert d[..at + i + 1] == d[..at + i] + [0xff];
      assert Fill(i + 1) == Fill(i) + [0xff];
    }
  }

  /** An adaptation field of stuffing and the data; the header is there. With 183 bytes the last stays behind. */
  method PutStuffing(d: array<byte>, data: seq<byte>) returns (dataLen: nat)
    requires d.Length == PACKET_LEN && |data| < 184
    modifies d
    ensures dataLen == Taken(|data|)
    ensures d[..] ==
      old(d[..4]) + [if |data| == 183 then 1 else 183 - |data|, 0] + Fill(182 - dataLen) + data[..dataLen]
  {
    hide Fill;
    dataLen := |data|;
    var padLen: int := 188 - 4 - 2 - dataLen;
    var fieldLen: byte := (padLen + 1) % 256;
    if padLen < 0 {
      padLen := 0;
      dataLen := dataLen - 1;
      fieldLen := 0x1;
    }
    d[4] := fieldLen;
    d[5] := 0x0;
    assert d[..6] == d[..4] + [fieldLen, 0];
    PutFill(d, 6, padLen);
    Put(d, 6 + padLen, 188, data[..dataLen]);
    assert d[..] == d[..188];
  }

  /** A packet that is filled up by an adaptation field, behind its header. */
  method PutStuffed(d: array<byte>, data: seq<byte>, ghost start: bool, ghost pid: nat, ghost counter: nat)
    returns (dataLen: nat)
    requires d.Length == PACKET_LEN && pid < 0x2000 && counter < 16
    requires d[..4] == Header(start, pid, if |data| < 184 then 3 else 1, counter)
    modifies d
    ensures dataLen == Taken(|data|) && d[..] == Stuffed(start, pid, counter, data)
  {
    hide Header, Fill;
    if |data| >= 184 {
      dataLen := 184;
      Put(d, 4, 4 + dataLen, data[..dataLen]);
      assert d[..] == d[..188];
    } else {
      dataLen := PutStuffing(d, data);
      NoFill();
    }
  }

  lemma NoFill()
    ensures Fill(0) == []
  {
  }

  /** A body that is cut or padded behind the data. */
  method PutPadded(d: array<byte>, at: nat, data: seq<byte>) returns (dataLen: nat)
    requires at <= d.Length
    modifies d
    ensures dataLen == Min(|data|, d.Length - at)
    ensures d[..] == old(d[..at]) + Padded(data, d.Length - at)
  {
    dataLen := |data|;
    var freeBuffLen := d.Length - at;
    if dataLen >= freeBuffLen {
      dataLen := freeBuffLen;
      Put(d, at, at + dataLen, data[..dataLen]);
    } else {
      Put(d, at, at + dataLen, data);
      PutFill(d, at + dataLen, freeBuffLen - dataLen);
    }
    assert d[..] == d[..d.Length];
  }

  method PutPcr(d: array<byte>, pcr: nat)
    requires d.Length == PACKET_LEN
    modifies d
    ensures d[..12] == old(d[..4]) + ([7, 0x10] + PcrField(pcr))
  {
    var low: byte := pcr % 2 * 128 + 0x7e;
    d[4] := 0x7;
    d[5] := 0x10;
    d[6] := pcr / 0x200_0000 % 256;
    d[7] := pcr / 0x2_0000 % 256;
    d[8] := pcr / 0x200 % 256;
    d[9] := pcr / 2 % 256;
    d[10] := low;
    d[11] := 0x00;
    assert d[..12] == d[..4] + [7, 0x10] + PcrField(pcr);
  }

  /** PAT and PMT packets: their counter is 0, always. */
  method TsPacketCreatePatPmt(pid: nat, data: seq<byte>) returns (tsData: array<byte>, dataLen: nat)
    requires pid < 0x2000
    ensures fresh(tsData) && tsData[..] == TablePacket(pid, data) && dataLen == Min(|data|, 183)
  {
    hide Header, Padded;
    tsData := new byte[188];
    PutHeader(tsData, true, pid, 1, 0);
    tsData[4] := 0x0;
    assert tsData[..5] == tsData[..4] + [0];
    dataLen := PutPadded(tsData, 5, data);
  }

  // ---------------------------------------------------------------- the publisher

  /** What M3u8Update writes. */
  datatype Playlist = Playlist(targetDuration: nat, mediaSequence: nat, entries: seq<TsInfo>)

  function PlaylistOf(list: seq<TsInfo>, firstSeq: nat): Playlist {
    Playlist(Ceil(MaxExt(list)), firstSeq, list)
  }

  /** The file of every segment in the window and of the open one, and no other. */
  ghost predicate DiskIs(disk: map<nat, seq<byte>>, files: seq<File>, first: nat) {
    && (forall i :: i in disk <==> first <= i < |files|)
    && (forall i :: first <= i < |files| ==> disk[i] == Flat(files[i].packets))
  }

  function Contents(a: array?<byte>): seq<byte>
    reads a
  {
    if a == null then [] else a[..]
  }

  class Hls {
    const maxTime: nat            // conf.HlsTsMaxTime
    const window: nat             // conf.HlsM3u8TsNum
    var disk: map<nat, seq<byte>> // segment files by the number in their name
    var isOpen: bool              // TsPath is not empty
    var tsPath: nat               // the number in TsPath
    var tsNum: nat
    var tsFirstSeq: nat
    var tsLastSeq: nat
    var tsList: seq<TsInfo>
    var tsFirstTs: nat
    var tsExtInfo: nat            // in milliseconds
    var m3u8: Playlist
    var videoCounter: nat
    var audioCounter: nat
    var spsPpsData: seq<byte>
    var adtsData: array?<byte>
    ghost var st: State           // all that was ever made

    constructor (maxTime: nat, window: nat)
      requires window >= 1
      ensures Valid() && st == Initial() && this.maxTime == maxTime && this.window == window
    {
      this.maxTime, this.window := maxTime, window;
      disk, isOpen, tsPath, tsNum, tsFirstSeq, tsLastSeq := map[], false, 0, 0, 0, 0;
      tsList, tsFirstTs, tsExtInfo, m3u8 := [], 0, 0, Playlist(0, 0, []);
      videoCounter, audioCounter, spsPpsData, adtsData := 0, 0, [], null;
      st := Initial();
      NothingListed(window);
    }

    /** The fields that the frames depend on are those of `s`. */
    ghost predicate Carries(s: State)
      reads this, adtsData
    {
      && Sound(s)
      && videoCounter == s.video && audioCounter == s.audio && spsPpsData == s.spsPps
      && Contents(adtsData) == s.adts
      && (adtsData != null ==> adtsData.Length == Adts.ADTS_LEN)
    }

    /** The list, its counters and the disk are what the segments so far make them. */
    ghost predicate Lists(segs: seq<Segment>, files: seq<File>)
      reads this
    {
      && tsList == Window(segs, window)
      && tsNum == |tsList|
      && tsFirstSeq == FirstSeq(segs, window)
      && DiskIs(disk, files, tsFirstSeq)
      && (tsList != [] ==> m3u8 == PlaylistOf(tsList, tsFirstSeq))
    }

    ghost predicate Valid()
      reads this, adtsData
    {
      && window >= 1
      && Carries(st)
      && (isOpen <==> st.segs != [])
      && tsLastSeq == |st.segs|
      && (isOpen ==> tsPath == |st.segs| - 1 && tsFirstTs == Start(Last(st.segs)))
      && Lists(st.segs, st.files)
    }

    /**
      The window laws, in every state a run can reach: the list holds the segments tsFirstSeq, tsFirstSeq + 1, ...
      in order; those before it are gone from the disk, those in it and the open one are there; none is missing
      or counted twice; and the playlist says so.
     */
    lemma WindowLaws()
      requires Valid()
      ensures tsNum == |tsList| <= window
      ensures tsFirstSeq + tsNum + (if isOpen then 1 else 0) == tsLastSeq
      ensures forall i :: 0 <= i < tsNum ==> tsList[i].seqNo == tsFirstSeq + i
      ensures forall i :: i in disk <==> tsFirstSeq <= i < tsLastSeq
      ensures tsFirstSeq > 0 ==> tsNum == window
      ensures tsNum > 0 ==>
        && m3u8.mediaSequence == tsFirstSeq && m3u8.entries == tsList
        && forall e :: e in tsList ==> e.tsExtInfo <= 1000 * m3u8.targetDuration
    {
      TargetIsLeast(tsList, m3u8.targetDuration);
    }

    method Write(b: seq<byte>)
      requires tsPath in disk
      modifies this`disk
      ensures tsPath in disk && disk == Appended(old(disk), tsPath, b)
    {
      disk := disk[tsPath := disk[tsPath] + b];
    }

    // -------------------------------------------------------------- packets

    function CounterOf(pid: nat): nat
      reads this`videoCounter, this`audioCounter
    {
      if pid == AUDIO_PID then audioCounter else if pid == VIDEO_PID then videoCounter else 0
    }

    method NextVideo() returns (counter: nat)
      requires videoCounter < 16
      modifies this`videoCounter
      ensures counter == old(videoCounter) && videoCounter == (counter + 1) % 16
    {
      counter := videoCounter;
      videoCounter := videoCounter + 1;
      if videoCounter > 0xf {
        videoCounter := 0;
      }
    }

    method NextAudio() returns (counter: nat)
      requires audioCounter < 16
      modifies this`audioCounter
      ensures counter == old(audioCounter) && audioCounter == (counter + 1) % 16
    {
      counter := audioCounter;
      audioCounter := audioCounter + 1;
      if audioCounter > 0xf {
        audioCounter := 0;
      }
    }

    method TsPacketCreate(pid: nat, data: seq<byte>) returns (tsData: array<byte>, dataLen: nat)
      requires pid < 0x2000 && videoCounter < 16 && audioCounter < 16
      modifies this`videoCounter, this`audioCounter
      ensures fresh(tsData) && tsData[..] == Stuffed(false, pid, old(CounterOf(pid)), data)
      ensures dataLen == Taken(|data|)
      ensures audioCounter == if pid == AUDIO_PID then (old(audioCounter) + 1) % 16 else old(audioCounter)
      ensures videoCounter == if pid == VIDEO_PID then (old(videoCounter) + 1) % 16 else old(videoCounter)
    {
      hide Header;
      var control := if |data| < 184 then 3 else 1;
      var counter := 0;
      if pid == AUDIO_PID {
        counter := NextAudio();
      }
      if pid == VIDEO_PID {
        counter := NextVideo();
      }
      tsData := new byte[188];
      PutHeader(tsData, false, pid, control, counter);
      dataLen := PutStuffed(tsData, data, false, pid, counter);
    }

    method TsPacketCreateKeyFrame(data: seq<byte>, pcr: nat) returns (tsData: array<byte>, dataLen: nat)
      requires videoCounter < 16
      modifies this`videoCounter
      ensures fresh(tsData) && tsData[..] == KeyPacket(old(videoCounter), data, pcr)
      ensures dataLen == Min(|data|, 176) && videoCounter == (old(videoCounter) + 1) % 16
    {
      hide Header, Padded, PcrField;
      var counter := NextVideo();
      tsData := new byte[188];
      PutHeader(tsData, true, VIDEO_PID, 3, counter);
      PutPcr(tsData, pcr);
      dataLen := PutPadded(tsData, 12, data);
    }

    method TsPacketCreateInterFrame(data: seq<byte>) returns (tsData: array<byte>, dataLen: nat)
      requires videoCounter < 16
      modifies this`videoCounter
      ensures fresh(tsData) && tsData[..] == InterPacket(old(videoCounter), data)
      ensures dataLen == Min(|data|, 184) && videoCounter == (old(videoCounter) + 1) % 16
    {
      hide Header, Padded;
      var counter := NextVideo();
      tsData := new byte[188];
      PutHeader(tsData, true, VIDEO_PID, 1, counter);
      dataLen := PutPadded(tsData, 4, data);
    }

    method TsPacketCreateAacFrame(data: seq<byte>) returns (tsData: array<byte>, dataLen: nat)
      requires audioCounter < 16
      modifies this`audioCounter
      ensures fresh(tsData) && tsData[..] == Stuffed(true, AUDIO_PID, old(audioCounter), data)
      ensures dataLen == Taken(|data|) && audioCounter == (old(audioCounter) + 1) % 16
    {
      hide Header;
      var control := if |data| < 184 then 3 else 1;
      var counter := NextAudio();
      tsData := new byte[188];
      PutHeader(tsData, true, AUDIO_PID, control, counter);
      dataLen := PutStuffed(tsData, data, true, AUDIO_PID, counter);
    }

    // -------------------------------------------------------------- frames

    /** One round of the loop below: the next packet is written, and what is left is as `Left` says. */
    method AppendOne(pid: nat, pesData: seq<byte>, start: nat) returns (next: nat)
      requires (pid == VIDEO_PID || pid == AUDIO_PID) && videoCounter < 16 && audioCounter < 16
      requires start <= |pesData| && tsPath in disk
      modifies this`videoCounter, this`audioCounter, this`disk
      ensures tsPath in disk && videoCounter < 16 && audioCounter < 16
      ensures next == start + Taken(|pesData| - start)
      ensures var ps := Rest(pid, old(CounterOf(pid)), Drop(pesData, start));
        var left := Left(pid, CounterOf(pid), pesData, next);
        && Appended(disk, tsPath, Flat(left)) == Appended(old(disk), tsPath, Flat(ps))
        && (CounterOf(pid) + |left|) % 16 == (old(CounterOf(pid)) + |ps|) % 16
      ensures pid == VIDEO_PID ==> audioCounter == old(audioCounter)
      ensures pid == AUDIO_PID ==> videoCounter == old(videoCounter)
    {
      hide Stuffed, Flat, Appended, Drop, Rest;
      ghost var counter := CounterOf(pid);
      RestStep(pid, counter, pesData, start);
      var tsData, consumeLen := TsPacketCreate(pid, pesData[start..]);
      next := start + consumeLen;
      Write(tsData[..]);
      ghost var left := Left(pid, CounterOf(pid), pesData, next);
      ghost var packet: Packet := tsData[..];
      FlatAppend([packet], left);
      FlatOne(packet);
      AppendedTwice(old(disk), tsPath, packet, Flat(left));
      GoesOn(counter + 1, |left|);
    }

    /** The loop at the end of every TsFileAppend: packets from `start` on until all is written, and at least one. */
    method AppendRest(pid: nat, pesData: seq<byte>, start: nat)
      requires (pid == VIDEO_PID || pid == AUDIO_PID) && videoCounter < 16 && audioCounter < 16
      requires start <= |pesData| && tsPath in disk
      modifies this`videoCounter, this`audioCounter, this`disk
      ensures var ps := Rest(pid, old(CounterOf(pid)), Drop(pesData, start));
        && disk == Appended(old(disk), tsPath, Flat(ps))
        && CounterOf(pid) == (old(CounterOf(pid)) + |ps|) % 16
      ensures pid == VIDEO_PID ==> audioCounter == old(audioCounter)
      ensures pid == AUDIO_PID ==> videoCounter == old(videoCounter)
    {
      hide Flat, Appended, Drop, Rest;
      var at := start;
      while true
        invariant at <= |pesData| && videoCounter < 16 && audioCounter < 16 && tsPath in disk
        invariant var all := Rest(pid, old(CounterOf(pid)), Drop(pesData, start));
          var ps := Rest(pid, CounterOf(pid), Drop(pesData, at));
          && Appended(disk, tsPath, Flat(ps)) == Appended(old(disk), tsPath, Flat(all))
          && (CounterOf(pid) + |ps|) % 16 == (old(CounterOf(pid)) + |all|) % 16
        invariant pid == VIDEO_PID ==> audioCounter == old(audioCounter)
        invariant pid == AUDIO_PID ==> videoCounter == old(videoCounter)
        decreases |pesData| - at
      {
        at := AppendOne(pid, pesData, at);
        if at >= |pesData| {
          FlatNothing();
          AppendedNothing(disk, tsPath);
          break;
        }
      }
    }

    method TsFileAppendKeyFrame(timestamp: nat, msgData: seq<byte>)
      requires videoCounter < 16 && audioCounter < 16 && tsPath in disk
      requires |msgData| >= 9
      modifies this`videoCounter, this`audioCounter, this`disk
      ensures var pes := Pes.Packet(Key, timestamp, spsPpsData, [], msgData);
        var ps := KeyPackets(old(videoCounter), pes, Pes.Dts(timestamp));
        && disk == Appended(old(disk), tsPath, Flat(ps))
        && videoCounter == (old(videoCounter) + |ps|) % 16
      ensures audioCounter == old(audioCounter)
    {
      hide KeyPacket, Rest, Appended, Pes.Header, Pes.Body, Flat, Pes.Dts, Pes.Pts;
      var pts, dts, pesHeaderData := PesIo.PesHeaderCreate(Key, timestamp, msgData);
      var pesData := PesIo.PesDataCreateKeyFrame(msgData, spsPpsData, pesHeaderData);
      ghost var pes := pesData[..];
      assert pes == Pes.Packet(Key, timestamp, spsPpsData, [], msgData) by {
        BodyOfKey(spsPpsData, [], msgData);
      }
      var tsData, start := TsPacketCreateKeyFrame(pesData[..], dts);
      Write(tsData[..]);
      ghost var first: Packet := tsData[..];
      AppendRest(VIDEO_PID, pesData[..], start);
      FirstAndRest(first, VIDEO_PID, old(videoCounter), Drop(pes, 176));
      AppendedTwice(old(disk), tsPath, first, Flat(Rest(VIDEO_PID, (old(videoCounter) + 1) % 16, Drop(pes, 176))));
      assert Drop(pes, start) == Drop(pes, 176);
    }

    method TsFileAppendInterFrame(timestamp: nat, msgData: seq<byte>)
      requires videoCounter < 16 && audioCounter < 16 && tsPath in disk
      requires |msgData| >= 9
      modifies this`videoCounter, this`audioCounter, this`disk
      ensures var pes := Pes.Packet(Inter, timestamp, [], [], msgData);
        var ps := InterPackets(old(videoCounter), pes);
        && disk == Appended(old(disk), tsPath, Flat(ps))
        && videoCounter == (old(videoCounter) + |ps|) % 16
      ensures audioCounter == old(audioCounter)
    {
      hide InterPacket, Rest, Appended, Pes.Header, Pes.Body, Flat, Pes.Dts, Pes.Pts, ToBE;
      var pts, dts, pesHeaderData := PesIo.PesHeaderCreate(Inter, timestamp, msgData);
      var pesData := PesIo.PesDataCreateInterFrame(msgData, pesHeaderData);
      LengthArgument(pesData.Length);
      PesIo.SetPesPakcetLength(pesData, (pesData.Length % TWO_TO_THE_16 - 6) % TWO_TO_THE_16);
      ghost var pes := pesData[..];
      assert pes == Pes.Packet(Inter, timestamp, [], [], msgData);
      var tsData, start := TsPacketCreateInterFrame(pesData[..]);
      Write(tsData[..]);
      ghost var first: Packet := tsData[..];
      AppendRest(VIDEO_PID, pesData[..], start);
      FirstAndRest(first, VIDEO_PID, old(videoCounter), Drop(pes, 184));
      AppendedTwice(old(disk), tsPath, first, Flat(Rest(VIDEO_PID, (old(videoCounter) + 1) % 16, Drop(pes, 184))));
      assert Drop(pes, start) == Drop(pes, 184);
    }

    method TsFileAppendAacFrame(timestamp: nat, msgData: seq<byte>)
      requires videoCounter < 16 && audioCounter < 16 && tsPath in disk
      requires |msgData| >= 2 && adtsData != null && adtsData.Length == Adts.ADTS_LEN
      modifies this`videoCounter, this`audioCounter, this`disk, adtsData
      ensures adtsData[..] == Adts.WithLength(old(adtsData[..]), Pes.AdtsSize(msgData))
      ensures var pes := Pes.Packet(Aac, timestamp, [], old(adtsData[..]), msgData);
        var ps := AacPackets(old(audioCounter), pes);
        && disk == Appended(old(disk), tsPath, Flat(ps))
        && audioCounter == (old(audioCounter) + |ps|) % 16
      ensures videoCounter == old(videoCounter)
    {
      hide Stuffed, Rest, Appended, Pes.Header, Pes.Body, Flat, Pes.Dts, Pes.Pts, ToBE, Adts.WithLength;
      var pts, dts, pesHeaderData := PesIo.PesHeaderCreate(Aac, timestamp, msgData);
      var pesData := PesIo.PesDataCreateAacFrame(msgData, adtsData, pesHeaderData);
      LengthArgument(pesData.Length);
      PesIo.SetPesPakcetLength(pesData, (pesData.Length % TWO_TO_THE_16 - 6) % TWO_TO_THE_16);
      ghost var pes := pesData[..];
      assert pes == Pes.Packet(Aac, timestamp, [], old(adtsData[..]), msgData);
      var tsData, start := TsPacketCreateAacFrame(pesData[..]);
      Write(tsData[..]);
      ghost var first: Packet := tsData[..];
      AppendRest(AUDIO_PID, pesData[..], start);
      FirstAndRest(first, AUDIO_PID, old(audioCounter), Drop(pes, Taken(|pes|)));
      AppendedTwice(old(disk), tsPath, first,
                    Flat(Rest(AUDIO_PID, (old(audioCounter) + 1) % 16, Drop(pes, Taken(|pes|)))));
    }

    /** Writes one frame to the open file; `s` is where the run has got to, with the segment of f begun. */
    method TsFileAppend(f: Frame, ghost s: State)
      requires Carries(s) && s.files != [] && Ready(s, f)
      requires tsPath in disk && disk[tsPath] == Flat(Last(s.files).packets)
      modifies this`videoCounter, this`audioCounter, this`disk, adtsData
      ensures Carries(Append(s, f))
      ensures disk == old(disk)[tsPath := Flat(Last(Append(s, f).files).packets)]
    {
      hide KeyPackets, InterPackets, AacPackets, Flat, Pes.Packet, Adts.WithLength;
      match f
      case Media(kind, timestamp, data) =>
        ghost var j: Muxed := Job(kind, timestamp, s.spsPps, s.adts, data);
        PesUses(j);
        match kind {
          case Key => TsFileAppendKeyFrame(timestamp, data);
          case Inter => TsFileAppendInterFrame(timestamp, data);
          case Aac => TsFileAppendAacFrame(timestamp, data);
        }
        FlatAppend(Last(s.files).packets, Packets(j, if kind == Aac then s.audio else s.video));
      case _ =>
    }

    // -------------------------------------------------------------- segments

    /** M3u8Update, the first segment of a full list. */
    method DropFirst(ghost files: seq<File>)
      requires tsNum == |tsList| > 0 && tsList[0].seqNo == tsFirstSeq && DiskIs(disk, files, tsFirstSeq)
      modifies this`disk, this`tsList, this`tsNum, this`tsFirstSeq
      ensures tsList == old(tsList)[1..] && tsNum == old(tsNum) - 1 && tsFirstSeq == old(tsFirstSeq) + 1
      ensures disk == old(disk) - {old(tsFirstSeq)} && DiskIs(disk, files, tsFirstSeq)
    {
      hide DiskIs;
      var ti := tsList[0];
      DiskShrinks(disk, files, ti.seqNo);
      disk := disk - {ti.seqNo};
      tsList := tsList[1..];
      tsNum := tsNum - 1;
      tsFirstSeq := tsFirstSeq + 1;
    }

    /** M3u8Update, the list: a full one loses its first segment, with its file. */
    method Slide(ghost segs: seq<Segment>, ghost files: seq<File>, ghost f: Frame)
      requires Lists(segs, files) && window >= 1 && segs != [] && |files| == |segs|
      requires tsPath == |segs| - 1 && tsExtInfo == Elapsed(Start(Last(segs)), f.timestamp)
      modifies this`disk, this`tsList, this`tsNum, this`tsFirstSeq
      ensures tsList == Window(Opening(segs, f), window) && tsNum == |tsList|
      ensures tsFirstSeq == FirstSeq(Opening(segs, f), window) && DiskIs(disk, files, tsFirstSeq)
    {
      WindowSlides(segs, f, window);
      hide Window, FirstSeq, DiskIs, PlaylistOf, Elapsed, Start, Opening;
      if tsNum == window {
        DropFirst(files);
      }
      tsList := tsList + [TsInfo(tsExtInfo, tsPath)];
      tsNum := tsNum + 1;
    }

    /** M3u8Update, the text. */
    method Publish()
      modifies this`m3u8
      ensures m3u8 == PlaylistOf(tsList, tsFirstSeq)
      ensures forall e :: e in tsList ==> e.tsExtInfo <= 1000 * m3u8.targetDuration
    {
      var tsMaxTime := 0;
      for i := 0 to |tsList|
        invariant tsMaxTime == MaxExt(tsList[..i])
      {
        assert Front(tsList[..i + 1]) == tsList[..i];
        if tsMaxTime < tsList[i].tsExtInfo {
          tsMaxTime := tsList[i].tsExtInfo;
        }
      }
      assert tsList[..|tsList|] == tsList;
      m3u8 := Playlist(Ceil(tsMaxTime), tsFirstSeq, tsList);
      TargetIsLeast(tsList, m3u8.targetDuration);
    }

    /** Closes the open segment in favour of the one that f begins. */
    method M3u8Update(ghost f: Frame)
      requires Lists(st.segs, st.files) && window >= 1 && Sound(st) && st.segs != []
      requires tsPath == |st.segs| - 1 && tsExtInfo == Elapsed(Start(Last(st.segs)), f.timestamp)
      modifies this`disk, this`tsList, this`tsNum, this`tsFirstSeq, this`m3u8
      ensures Lists(Opening(st.segs, f), st.files) && m3u8 == PlaylistOf(tsList, tsFirstSeq)
      ensures forall e :: e in tsList ==> e.tsExtInfo <= 1000 * m3u8.targetDuration
    {
      hide Window, FirstSeq, DiskIs, Elapsed, Start, PlaylistOf, Opening;
      Slide(st.segs, st.files, f);
      Publish();
    }

    /** The next file, with the tables written. */
    method OpenFile()
      modifies this`isOpen, this`tsPath, this`disk
      ensures isOpen && tsPath == tsLastSeq
      ensures disk == old(disk)[tsPath := Flat(NewFile().packets)]
    {
      hide Flat, Appended, TablePacket, Psi.Octets, Psi.Section;
      isOpen := true;
      tsPath := tsLastSeq;
      disk := disk[tsPath := []];
      var patData := Psi.PatCreate();
      var pat, _ := TsPacketCreatePatPmt(PAT_PID, patData);
      Write(pat[..]);
      var pmtData := Psi.PmtCreate();
      var pmt, _ := TsPacketCreatePatPmt(PMT_PID, pmtData);
      Write(pmt[..]);
      FlatTables();
      Begun(old(disk), tsPath, PatPacket(), PmtPacket());
    }

    /** TsFileCreate, from opening the file on. */
    method WriteFirst(f: Frame, ghost begun: State)
      requires Carries(begun) && begun.files != [] && Last(begun.files) == NewFile() && Ready(begun, f)
      modifies this`isOpen, this`tsPath, this`disk, this`videoCounter, this`audioCounter, adtsData
      ensures Carries(Append(begun, f)) && isOpen && tsPath == tsLastSeq
      ensures disk == old(disk)[tsLastSeq := Flat(Last(Append(begun, f).files).packets)]
    {
      hide Flat, Append, NewFile;
      OpenFile();
      TsFileAppend(f, begun);
    }

    method TsFileCreate(f: Frame)
      requires Valid() && Ready(st, f) && (isOpen ==> tsExtInfo == Elapsed(Start(Last(st.segs)), f.timestamp))
      requires Cuts(st.segs, f, maxTime)
      modifies this, adtsData
      ensures Valid() && st == Create(old(st), f, maxTime) && adtsData == old(adtsData)
    {
      hide Flat, Append, Window, FirstSeq, Cuts, NewFile, DiskIs, PlaylistOf, Create, Begin, Opening, Elapsed, Ready;
      BeginShape(st, f, maxTime);
      if isOpen {
        M3u8Update(f);
      } else {
        FirstListed(f, window);
      }
      ghost var begun := Begin(st, f);
      ghost var all := Append(begun, f);
      DiskGrows(disk, st.files, all.files, tsFirstSeq);
      WriteFirst(f, begun);
      tsFirstTs := f.timestamp;
      tsLastSeq := tsLastSeq + 1;
      st := all;
    }

    /** A frame goes into the open file. */
    method AppendToOpen(f: Frame)
      requires Valid() && Ready(st, f) && isOpen
      modifies this`videoCounter, this`audioCounter, this`disk, this`st, adtsData
      ensures Valid() && st == Append(Continue(old(st), f), f)
    {
      hide Flat, Append, Window, FirstSeq, DiskIs, PlaylistOf;
      ghost var longer := Continue(st, f);
      ghost var all := Append(longer, f);
      AppendShape(longer, f);
      ListedStill(st.segs, f, window);
      OpenFileIs(disk, st.files, tsFirstSeq);
      DiskFills(disk, st.files, all.files, tsFirstSeq);
      TsFileAppend(f, longer);
      st := all;
    }

    /** A new segment is begun if there is none, or with a keyframe when the open one has lasted long enough. */
    method TsCreate(f: Frame) returns (tf: bool)
      requires Valid() && Ready(st, f)
      modifies this, adtsData
      ensures Valid() && st == Create(old(st), f, maxTime)
      ensures (tf <==> Cuts(old(st).segs, f, maxTime)) && adtsData == old(adtsData)
    {
      hide Append, Begin, Continue, Window, FirstSeq, DiskIs, PlaylistOf;
      tsExtInfo := (f.timestamp - tsFirstTs) % TWO_TO_THE_32;
      if !isOpen || (tsExtInfo / 1000 >= maxTime && IsKey(f)) {
        TsFileCreate(f);
        tf := true;
      } else {
        AppendToOpen(f);
        tf := false;
      }
    }

    /** One round of HlsCreator's loop. */
    method Handle(c: Chunk)
      requires Valid() && Ready(st, c)
      modifies this, adtsData
      ensures Valid() && st == Step(old(st), c, maxTime)
      ensures adtsData == old(adtsData) || fresh(adtsData)
    {
      hide Create, Window, FirstSeq, DiskIs, PlaylistOf, Adts.Layout, Adts.Configured, Adts.Parse, Adts.Narrowed;
      match c
      case Metadata =>
      case VideoHeader(record) =>
        var data := PrepareSpsPpsData(record);
        spsPpsData := data[..];
        st := st.(spsPps := SpsPps(record));
      case AudioHeader(config) =>
        adtsData := Adts.PrepareAdtsData(config);
        var _ := Adts.ParseAdtsData(adtsData);
        st := st.(adts := Adts.Layout(Adts.Configured(config)));
      case _ =>
        var _ := TsCreate(c);
    }

    /** HlsCreator on all that comes over HlsChan until it is closed. */
    method HlsCreator(hlsChan: seq<Chunk>)
      requires Valid() && st == Initial() && Runs(hlsChan)
      modifies this, adtsData
      ensures Valid() && st == Run(hlsChan, maxTime)
    {
      RunFromNothing(maxTime);
      hide Valid, Run, Runs, Step, Ready, Initial;
      for i := 0 to |hlsChan|
        invariant adtsData == old(adtsData) || fresh(adtsData)
        invariant Valid() && Runs(hlsChan[..i]) && st == Run(hlsChan[..i], maxTime)
      {
        RunStep(hlsChan, i, maxTime);
        Handle(hlsChan[i]);
      }
      assert hlsChan[..|hlsChan|] == hlsChan;
    }
  }

  lemma RunFromNothing(maxTime: nat)
    ensures Runs([]) && Run([], maxTime) == Initial()
  {
  }

  lemma {:induction false} RunsBefore(cs: seq<Chunk>, i: nat)
    requires Runs(cs) && i <= |cs|
    ensures Runs(cs[..i])
    decreases |cs|
  {
    hide Acceptable;
    if i < |cs| {
      RunsBefore(Front(cs), i);
      assert Front(cs)[..i] == cs[..i];
    } else {
      assert cs[..i] == cs;
    }
  }

  lemma RunStep(cs: seq<Chunk>, i: nat, maxTime: nat)
    requires Runs(cs) && i < |cs|
    ensures Runs(cs[..i]) && Runs(cs[..i + 1]) && Ready(Run(cs[..i], maxTime), cs[i])
    ensures Run(cs[..i + 1], maxTime) == Step(Run(cs[..i], maxTime), cs[i], maxTime)
  {
    hide Step;
    RunsBefore(cs, i);
    RunsBefore(cs, i + 1);
    assert Front(cs[..i + 1]) == cs[..i];
  }

  /** The list does not depend on what is still going into the open segment. */
  lemma ListedStill(segs: seq<Segment>, f: Frame, window: nat)
    requires segs != []
    ensures Window(Longer(segs, f), window) == Window(segs, window)
    ensures FirstSeq(Longer(segs, f), window) == FirstSeq(segs, window)
  {
    hide Closed, Longer;
    ClosedAppend(segs, f);
  }

  lemma OpenFileIs(disk: map<nat, seq<byte>>, files: seq<File>, first: nat)
    requires DiskIs(disk, files, first) && first < |files|
    ensures |files| - 1 in disk && disk[|files| - 1] == Flat(Last(files).packets)
  {
    hide Flat;
  }

  lemma DiskFills(disk: map<nat, seq<byte>>, files: seq<File>, files': seq<File>, first: nat)
    requires DiskIs(disk, files, first) && first < |files|
    requires |files'| == |files| && Front(files') == Front(files)
    ensures DiskIs(disk[|files| - 1 := Flat(Last(files').packets)], files', first)
  {
    hide Flat;
    assert forall i :: 0 <= i < |files| - 1 ==> files'[i] == Front(files')[i] == Front(files)[i] == files[i];
  }

  lemma DiskShrinks(disk: map<nat, seq<byte>>, files: seq<File>, first: nat)
    requires DiskIs(disk, files, first)
    ensures DiskIs(disk - {first}, files, first + 1)
  {
    hide Flat;
  }

  /** A new file with two packets. */
  lemma Begun(disk: map<nat, seq<byte>>, path: nat, a: seq<byte>, b: seq<byte>)
    ensures var disk' := disk[path := []];
      && path in Appended(disk', path, a)
      && Appended(Appended(disk', path, a), path, b) == disk[path := a + b]
  {
    AppendedTwice(disk[path := []], path, a, b);
    assert [] + (a + b) == a + b;
  }

  lemma DiskGrows(disk: map<nat, seq<byte>>, files: seq<File>, files': seq<File>, first: nat)
    requires DiskIs(disk, files, first) && files' != [] && Front(files') == files && first <= |files|
    ensures DiskIs(disk[|files| := Flat(Last(files').packets)], files', first)
  {
    hide Flat;
    assert forall i :: 0 <= i < |files| ==> files'[i] == files[i];
  }

  lemma BeginShape(s: State, f: Frame, maxTime: nat)
    requires Sound(s) && Ready(s, f) && Cuts(s.segs, f, maxTime)
    ensures var begun := Begin(s, f);
      && Sound(begun) && Ready(begun, f) && begun.files != [] && Last(begun.files) == NewFile()
      && begun.(segs := s.segs, files := s.files) == s
    ensures var all := Create(s, f, maxTime);
      && all == Append(Begin(s, f), f)
      && all.segs == Opening(s.segs, f) && all.files != [] && Front(all.files) == s.files
      && all.segs != [] && Start(Last(all.segs)) == f.timestamp
  {
    hide Append, NewFile, Due;
    AppendShape(Begin(s, f), f);
  }

  lemma FirstListed(f: Frame, window: nat)
    ensures Window(Opening([], f), window) == [] && FirstSeq(Opening([], f), window) == 0
  {
  }

  lemma FlatTables()
    ensures Flat(NewFile().packets) == PatPacket() + PmtPacket()
  {
    hide PatPacket, PmtPacket;
    FlatAppend([PatPacket()], [PmtPacket()]);
    FlatOne(PatPacket());
    FlatOne(PmtPacket());
    assert [PatPacket()] + [PmtPacket()] == NewFile().packets;
  }

  lemma AppendShape(s: State, f: Frame)
    requires Sound(s) && s.files != [] && Ready(s, f)
    ensures var r := Append(s, f);
      r.segs == s.segs && |r.files| == |s.files| && Front(r.files) == Front(s.files)
  {
  }

  /** What a frame's packet is made of, by its kind. */
  lemma PesUses(j: Muxed)
    ensures PesOf(j) ==
      match j.kind
      case Key => Pes.Packet(Key, j.timestamp, j.spsPps, [], j.data)
      case Inter => Pes.Packet(Inter, j.timestamp, [], [], j.data)
      case Aac => Pes.Packet(Aac, j.timestamp, [], j.adts, j.data)
  {
    hide Pes.Header, Adts.WithLength;
  }

  lemma NothingListed(window: nat)
    ensures Window([], window) == [] && FirstSeq([], window) == 0 && DiskIs(map[], [], 0)
  {
  }

  lemma FlatNothing()
    ensures Flat([]) == []
  {
  }

  /** The packets still to come when the loop has got to `at`. */
  function Left(pid: nat, counter: nat, data: seq<byte>, at: nat): seq<Packet>
    requires pid < 0x2000 && counter < 16
  {
    if at >= |data| then [] else Rest(pid, counter, Drop(data, at))
  }

  lemma RestStep(pid: nat, counter: nat, data: seq<byte>, at: nat)
    requires pid < 0x2000 && counter < 16 && at <= |data|
    ensures Drop(data, at) == data[at..]
    ensures var n := Taken(|data| - at);
      Rest(pid, counter, Drop(data, at)) == [Stuffed(false, pid, counter, data[at..])] +
        Left(pid, (counter + 1) % 16, data, at + n)
  {
    hide Stuffed;
    var n := Taken(|data| - at);
    assert data[at..][n..] == data[at + n..];
  }

  /** The parameter sets and the ADTS header matter only where they are written. */
  lemma BodyOfKey(spsPps: seq<byte>, adts: seq<byte>, data: seq<byte>)
    requires |data| >= 9
    ensures Pes.Body(Key, spsPps, adts, data) == Pes.Body(Key, spsPps, [], data)
  {
  }

  /** `uint16(n) - 6` in uint16 arithmetic. */
  lemma LengthArgument(n: nat)
    requires n >= 6
    ensures (n % TWO_TO_THE_16 - 6) % TWO_TO_THE_16 == (n - 6) % TWO_TO_THE_16
  {
  }

  lemma FirstAndRest(first: Packet, pid: nat, counter: nat, data: seq<byte>)
    requires pid < 0x2000 && counter < 16
    ensures var rest := Rest(pid, (counter + 1) % 16, data);
      && Flat([first] + rest) == first + Flat(rest)
      && ((counter + 1) % 16 + |rest|) % 16 == (counter + |[first] + rest|) % 16
  {
    hide Rest, Flat;
    var rest := Rest(pid, (counter + 1) % 16, data);
    FlatAppend([first], rest);
    FlatOne(first);
    GoesOn(counter + 1, |rest|);
  }
}
