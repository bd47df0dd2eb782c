/** `StreamConverter` in api.py: the local RTSP address a stream is
    republished under, the ffmpeg command line chosen for it, and the map of
    conversion tasks. Starting the ffmpeg process is left out; a task is its
    creation number and the command it runs, and the converter remembers how
    many tasks it created and which of them were cancelled. */
module StreamConverter {
  import opened Common

  /** A conversion task: the `id`-th task created, running `command`. */
  datatype Task = Task(id: nat, command: seq<string>)

  /** The RTSP port, the task held for each serial, the number of tasks
      created so far and the ids of the cancelled ones. */
  datatype Converter = Converter(rtspPort: int, tasks: map<string, Task>, launched: nat, cancelled: set<nat>)

  /** The converter `__init__` builds. */
  function NewConverter(rtspPort: int): Converter {
    Converter(rtspPort, map[], 0, {})
  }

  const RtspPrefix: string := "rtsp://localhost:"
  const PathPrefix: string := "/ezviz_enhanced_"

  /** The local address a serial's stream is converted to. */
  function RtspUrl(port: int, serial: string): (url: string)
    ensures StartsWith(url, RtspPrefix)
    ensures |url| == |RtspPrefix| + |IntToString(port)| + |PathPrefix| + |serial|
    ensures url[|RtspPrefix|..|url| - |serial|] == IntToString(port) + PathPrefix
    ensures url[|url| - |serial|..] == serial
  {
    var url := RtspPrefix + IntToString(port) + PathPrefix + serial;
    assert url == RtspPrefix + (IntToString(port) + PathPrefix) + serial;
    url
  }

  /** Two serials converted on the same port never share an address. */
  lemma RtspUrlInjective(port: int, s1: string, s2: string)
    requires RtspUrl(port, s1) == RtspUrl(port, s2)
    ensures s1 == s2
  {
    var u := RtspUrl(port, s1);
    assert |s1| == |s2|;
    assert s1 == u[|u| - |s1|..] == s2;
  }

  /** The ffmpeg arguments: stream copy for HLS sources, libx264 otherwise. */
  function FfmpegCommand(source: string, streamType: string, rtspUrl: string): (cmd: seq<string>)
    ensures |cmd| >= 7 && cmd[0] == "ffmpeg" && cmd[1] == "-i" && cmd[2] == source
    ensures cmd[|cmd| - 3..] == ["-f", "rtsp", rtspUrl]
    ensures (cmd[3] == "-c" && cmd[4] == "copy") <==> StartsWith(streamType, "hls")
    ensures !StartsWith(streamType, "hls") ==> cmd[3..7] == ["-c:v", "libx264", "-preset", "ultrafast"]
  {
    if StartsWith(streamType, "hls") then
      ["ffmpeg", "-i", source, "-c", "copy", "-f", "rtsp", rtspUrl]
    else
      ["ffmpeg", "-i", source, "-c:v", "libx264", "-preset", "ultrafast", "-f", "rtsp", rtspUrl]
  }

  datatype Started = Started(converter: Converter, url: string)

  /** `start_rtsp_conversion` as written: creates a task and stores it under
      `serial`, overwriting any earlier one without cancelling it. */
  function StartConversion(c: Converter, serial: string, source: string, streamType: string): (r: Started)
    ensures r.url == RtspUrl(c.rtspPort, serial)
    ensures r.converter.rtspPort == c.rtspPort
    ensures r.converter.launched == c.launched + 1 && r.converter.cancelled == c.cancelled
    ensures r.converter.tasks.Keys == c.tasks.Keys + {serial}
    ensures r.converter.tasks[serial] == Task(c.launched, FfmpegCommand(source, streamType, r.url))
    ensures forall s :: s in c.tasks && s != serial ==> r.converter.tasks[s] == c.tasks[s]
  {
    var url := RtspUrl(c.rtspPort, serial);
    var task := Task(c.launched, FfmpegCommand(source, streamType, url));
    Started(c.(tasks := c.tasks[serial := task], launched := c.launched + 1), url)
  }

  /** `stop_rtsp_conversion`: cancels and forgets the task held for
      `serial`, if there is one. */
  function StopConversion(c: Converter, serial: string): (r: Converter)
    ensures r.rtspPort == c.rtspPort && r.launched == c.launched
    ensures r.tasks.Keys == c.tasks.Keys - {serial}
    ensures forall s :: s in r.tasks ==> r.tasks[s] == c.tasks[s]
    ensures serial in c.tasks ==> r.cancelled == c.cancelled + {c.tasks[serial].id}
    ensures serial !in c.tasks ==> r == c
  {
    if serial in c.tasks then c.(tasks := c.tasks - {serial}, cancelled := c.cancelled + {c.tasks[serial].id}) else c
  }

  /** `start_rtsp_conversion` with the earlier task of `serial` cancelled
      before it is replaced. */
  function StartConversionFixed(c: Converter, serial: string, source: string, streamType: string): (r: Started)
    ensures r.url == RtspUrl(c.rtspPort, serial)
    ensures r.converter.rtspPort == c.rtspPort && r.converter.launched == c.launched + 1
    ensures r.converter.tasks.Keys == c.tasks.Keys + {serial}
    ensures r.converter.tasks[serial] == Task(c.launched, FfmpegCommand(source, streamType, r.url))
    ensures forall s :: s in c.tasks && s != serial ==> r.converter.tasks[s] == c.tasks[s]
    ensures r.converter.cancelled == c.cancelled + (if serial in c.tasks then {c.tasks[serial].id} else {})
  {
    StartConversion(StopConversion(c, serial), serial, source, streamType)
  }


  /** `get_direct_stream_url`: HLS sources are played directly and start no
      task; anything else is converted with the as-written start, which
      returns the local address and adds a task without cancelling any. */
  function DirectStreamUrl(c: Converter, serial: string, source: string, streamType: string): (r: Started)
    ensures StartsWith(streamType, "hls") ==> r.url == source && r.converter == c
    ensures !StartsWith(streamType, "hls") ==>
      && r.url == RtspUrl(c.rtspPort, serial)
      && r.converter.rtspPort == c.rtspPort && r.converter.launched == c.launched + 1
      && r.converter.tasks.Keys == c.tasks.Keys + {serial}
      && r.converter.tasks[serial] == Task(c.launched, FfmpegCommand(source, streamType, r.url))
      && (forall s :: s in c.tasks && s != serial ==> r.converter.tasks[s] == c.tasks[s])
      && r.converter.cancelled == c.cancelled
  {
    if StartsWith(streamType, "hls") then Started(c, source)
    else StartConversion(c, serial, source, streamType)
  }

  /** Stopping right after starting removes the serial's entry and cancels
      the new task, but not a task the start replaced: the earlier id is
      not among the cancelled ones. */
  lemma StopAfterStart(c: Converter, serial: string, source: string, streamType: string)
    ensures var r := StopConversion(StartConversion(c, serial, source, streamType).converter, serial);
      r.tasks == c.tasks - {serial} && r.launched == c.launched + 1 && r.cancelled == c.cancelled + {c.launched}
  {
    var r := StopConversion(StartConversion(c, serial, source, streamType).converter, serial);
    assert r.tasks == c.tasks - {serial};
  }

  /** With the corrected start, stopping right after starting cancels both
      the new task and the one it replaced. */
  lemma StopAfterFixedStart(c: Converter, serial: string, source: string, streamType: string)
    ensures var r := StopConversion(StartConversionFixed(c, serial, source, streamType).converter, serial);
      r.tasks == c.tasks - {serial} && r.launched == c.launched + 1
      && r.cancelled == c.cancelled + {c.launched} + (if serial in c.tasks then {c.tasks[serial].id} else {})
  {
    var r := StopConversion(StartConversionFixed(c, serial, source, streamType).converter, serial);
    assert r.tasks == c.tasks - {serial};
  }

  /** Task ids are creation numbers: every held or cancelled id was
      created, the held ones are not cancelled, and no two serials hold the
      same task. */
  predicate WellFormed(c: Converter) {
    && (forall s :: s in c.tasks ==> c.tasks[s].id < c.launched && c.tasks[s].id !in c.cancelled)
    && (forall id :: id in c.cancelled ==> id < c.launched)
    && (forall s, t :: s in c.tasks && t in c.tasks && c.tasks[s].id == c.tasks[t].id ==> s == t)
  }

  /** A task that was created and not cancelled: its ffmpeg still runs. */
  predicate Running(c: Converter, id: nat) {
    id < c.launched && id !in c.cancelled
  }

  /** A running task that no serial holds any more, so no
      `stop_rtsp_conversion` call can reach it. */
  predicate Orphaned(c: Converter, id: nat) {
    Running(c, id) && forall s :: s in c.tasks ==> c.tasks[s].id != id
  }

  /** Every running task is held by some serial. */
  ghost predicate Tracked(c: Converter) {
    forall id: nat :: Running(c, id) ==> exists s :: s in c.tasks && c.tasks[s].id == id
  }

  lemma NewConverterTracked(rtspPort: int)
    ensures WellFormed(NewConverter(rtspPort)) && Tracked(NewConverter(rtspPort))
  {
  }

  /** Starting again for a serial that holds a task orphans that task. */
  lemma StartOrphansEarlierTask(c: Converter, serial: string, source: string, streamType: string)
    requires WellFormed(c) && serial in c.tasks
    ensures Orphaned(StartConversion(c, serial, source, streamType).converter, c.tasks[serial].id)
  {
    var r := StartConversion(c, serial, source, streamType).converter;
    var id := c.tasks[serial].id;
    forall s | s in r.tasks
      ensures r.tasks[s].id != id
    {
      if s != serial {
        assert r.tasks[s] == c.tasks[s];
      }
    }
  }

  /** An orphaned task stays running and orphaned whatever is started or
      stopped next, under either start. */
  lemma OrphanNeverCancelled(c: Converter, id: nat, serial: string, source: string, streamType: string)
    requires Orphaned(c, id)
    ensures Orphaned(StopConversion(c, serial), id)
    ensures Orphaned(StartConversion(c, serial, source, streamType).converter, id)
    ensures Orphaned(StartConversionFixed(c, serial, source, streamType).converter, id)
  {
    var r := StartConversion(c, serial, source, streamType).converter;
    forall s | s in r.tasks
      ensures r.tasks[s].id != id
    {
      if s != serial {
        assert r.tasks[s] == c.tasks[s];
      }
    }
    var c1 := StopConversion(c, serial);
    var r1 := StartConversion(c1, serial, source, streamType).converter;
    forall s | s in r1.tasks
      ensures r1.tasks[s].id != id
    {
      if s != serial {
        assert r1.tasks[s] == c1.tasks[s];
      }
    }
  }

  /** Two starts for one camera on a new converter, then a stop: the first
      task's ffmpeg is left running with nothing holding it. */
  lemma RestartLeaksTask(serial: string, source: string, streamType: string)
    ensures var c1 := StartConversion(NewConverter(8554), serial, source, streamType).converter;
      var c2 := StartConversion(c1, serial, source, streamType).converter;
      Orphaned(StopConversion(c2, serial), 0)
  {
    var c1 := StartConversion(NewConverter(8554), serial, source, streamType).converter;
    StartOrphansEarlierTask(c1, serial, source, streamType);
    var c2 := StartConversion(c1, serial, source, streamType).converter;
    OrphanNeverCancelled(c2, 0, serial, source, streamType);
  }

  /** The as-written start keeps the ids well formed, although it may
      orphan a task. */
  lemma StartKeepsWellFormed(c: Converter, serial: string, source: string, streamType: string)
    requires WellFormed(c)
    ensures WellFormed(StartConversion(c, serial, source, streamType).converter)
  {
  }

  /** A non-HLS direct stream for a serial that already holds a task leaves
      that task running with nothing holding it; an HLS one starts nothing. */
  lemma DirectStreamUrlOrphans(c: Converter, serial: string, source: string, streamType: string)
    requires WellFormed(c) && serial in c.tasks
    ensures !StartsWith(streamType, "hls") ==>
      Orphaned(DirectStreamUrl(c, serial, source, streamType).converter, c.tasks[serial].id)
    ensures StartsWith(streamType, "hls") ==> DirectStreamUrl(c, serial, source, streamType).converter.tasks == c.tasks
  {
    if !StartsWith(streamType, "hls") {
      StartOrphansEarlierTask(c, serial, source, streamType);
    }
  }

  /** Stopping keeps every running task held. */
  lemma StopKeepsTracked(c: Converter, serial: string)
    requires WellFormed(c) && Tracked(c)
    ensures WellFormed(StopConversion(c, serial)) && Tracked(StopConversion(c, serial))
  {
    var r := StopConversion(c, serial);
    forall id: nat | Running(r, id)
      ensures exists s :: s in r.tasks && r.tasks[s].id == id
    {
      assert Running(c, id);
      var s :| s in c.tasks && c.tasks[s].id == id;
      assert s in r.tasks;
    }
  }

  /** The corrected start keeps every running task held, so each one can
      still be stopped. */
  lemma {:induction false} FixedStartKeepsTracked(c: Converter, serial: string, source: string, streamType: string)
    requires WellFormed(c) && Tracked(c)
    ensures var r := StartConversionFixed(c, serial, source, streamType).converter;
      WellFormed(r) && Tracked(r)
  {
    var c1 := StopConversion(c, serial);
    StopKeepsTracked(c, serial);
    var r := StartConversion(c1, serial, source, streamType).converter;
    forall id: nat | Running(r, id)
      ensures exists s :: s in r.tasks && r.tasks[s].id == id
    {
      if id == c1.launched {
        assert r.tasks[serial].id == id;
      } else {
        assert Running(c1, id);
        var s :| s in c1.tasks && c1.tasks[s].id == id;
        assert r.tasks[s] == c1.tasks[s];
      }
    }
  }
}
