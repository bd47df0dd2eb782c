/** `EzvizDataUpdateCoordinator` in coordinator.py: one update pass folds
    over the configured cameras and fills two maps, the camera records and
    the stream URLs. What the Open Platform resolver answers for each camera
    is an input; the stream converter is threaded through as a value. */
module Coordinator {
  import opened Common
  import OpenApi
  import StreamConverter

  /** One entry of the integration's `cameras` option; None for a missing key. */
  datatype CameraConfig = CameraConfig(serial: Option<string>, channel: Option<int>, name: Option<string>, enabled: Option<bool>)

  /** The dictionary kept per camera. `stream` holds the resolver's
      descriptor once one has been merged in. */
  datatype CameraRecord = CameraRecord(
    serial: string, channel: int, name: string, enabled: bool,
    deviceType: string, status: string,
    stream: Option<OpenApi.StreamInfo>, streamUrl: Option<string>, ieuopenUrl: Option<string>)

  /** `use_ieuopen` and whether an Open Platform client was configured. */
  datatype Settings = Settings(useIeuopen: bool, hasOpenApi: bool)

  /** `cameras`, `stream_urls` and the stream converter. */
  datatype State = State(
    cameras: map<string, CameraRecord>,
    streamUrls: map<string, string>,
    converter: StreamConverter.Converter)

  /** A camera the update processes: it has a non-empty serial and is not disabled. */
  predicate Processed(cfg: CameraConfig) {
    Truthy(cfg.serial) && cfg.enabled.GetOr(true)
  }

  /** The record a processed camera starts from, before any stream data. */
  function BaseRecord(cfg: CameraConfig): (rec: CameraRecord)
    requires Processed(cfg)
  {
    var serial := cfg.serial.value;
    CameraRecord(serial, cfg.channel.GetOr(1), cfg.name.GetOr("EZVIZ " + serial), cfg.enabled.GetOr(true),
      "camera", "offline", None, None, None)
  }

  /** The best playable URL of a descriptor: HLS, then FLV, then cloud. */
  function ChooseUrl(info: OpenApi.StreamInfo): (r: Option<string>)
    ensures r.Some? ==> r.value != "" && (r == info.hlsUrl || r == info.flvUrl || r.value == info.cloudUrl)
  {
    if Truthy(info.hlsUrl) then info.hlsUrl
    else if Truthy(info.flvUrl) then info.flvUrl
    else if info.cloudUrl != "" then Some(info.cloudUrl)
    else None
  }

  /** The choice is the first truthy entry of the priority list
      HLS, FLV, cloud. */
  lemma ChooseUrlPriority(info: OpenApi.StreamInfo)
    ensures ChooseUrl(info) == FirstTruthy([info.hlsUrl, info.flvUrl, Some(info.cloudUrl)])
  {
    var xs := [info.hlsUrl, info.flvUrl, Some(info.cloudUrl)];
    if Truthy(info.hlsUrl) {
      FirstTruthyIsFirst(xs, 0);
    } else if Truthy(info.flvUrl) {
      FirstTruthyIsFirst(xs, 1);
    } else if info.cloudUrl != "" {
      FirstTruthyIsFirst(xs, 2);
    } else {
      assert forall i :: 0 <= i < |xs| ==> !Truthy(xs[i]);
    }
  }

  /** Whether the resolver is consulted at all. */
  predicate Resolving(settings: Settings) {
    settings.useIeuopen && settings.hasOpenApi
  }

  /** The record, stream URLs and converter after merging the resolver's
      answer into a camera's base record. */
  datatype Merge = Merge(rec: CameraRecord, streamUrls: map<string, string>, converter: StreamConverter.Converter)

  /** Merges a descriptor: status online, then the chosen URL stored as is
      for HLS stream types and converted to local RTSP otherwise. */
  function MergeStream(st: State, serial: string, base: CameraRecord, info: OpenApi.StreamInfo): (m: Merge)
    ensures m.rec.status == "online" && m.rec.stream == Some(info)
    ensures m.rec.name == base.name && m.rec.deviceType == base.deviceType && m.rec.enabled == base.enabled
    ensures m.rec.ieuopenUrl == base.ieuopenUrl
    ensures m.streamUrls.Keys <= st.streamUrls.Keys + {serial}
    ensures forall s :: s in st.streamUrls && s != serial ==> s in m.streamUrls && m.streamUrls[s] == st.streamUrls[s]
  {
    var merged := base.(serial := info.serial, channel := info.channel, status := "online", stream := Some(info));
    match ChooseUrl(info)
    case None => Merge(merged, st.streamUrls, st.converter)
    case Some(url) =>
      if StartsWith(info.streamType, "hls") then
        Merge(merged.(streamUrl := Some(url)), st.streamUrls[serial := url], st.converter)
      else
        var started := StreamConverter.StartConversion(st.converter, serial, url, info.streamType);
        Merge(merged.(streamUrl := Some(started.url)), st.streamUrls[serial := started.url], started.converter)
  }

  /** The loop body of `_async_update_data` for one camera config. `reply` is
      the resolver's answer for it (None for `{}`). */
  function ProcessCamera(st: State, settings: Settings, cfg: CameraConfig, reply: Option<OpenApi.StreamInfo>): (r: State)
    ensures !Processed(cfg) ==> r == st
    ensures Processed(cfg) ==> r.cameras.Keys == st.cameras.Keys + {cfg.serial.value}
    ensures Processed(cfg) ==> forall s :: s in st.cameras && s != cfg.serial.value ==> r.cameras[s] == st.cameras[s]
    ensures Processed(cfg) ==> r.streamUrls.Keys <= st.streamUrls.Keys + {cfg.serial.value}
    ensures forall s :: s in st.streamUrls && (!Processed(cfg) || s != cfg.serial.value) ==>
      s in r.streamUrls && r.streamUrls[s] == st.streamUrls[s]
  {
    if !Processed(cfg) then st
    else
      var serial := cfg.serial.value;
      var base := BaseRecord(cfg);
      var m := if Resolving(settings) && reply.Some? then MergeStream(st, serial, base, reply.value)
               else Merge(base, st.streamUrls, st.converter);
      var rec := if settings.hasOpenApi then m.rec.(ieuopenUrl := Some(OpenApi.LiveUrl(serial, cfg.channel.GetOr(1), 1)))
                 else m.rec;
      State(st.cameras[serial := rec], m.streamUrls, m.converter)
  }

  /** The record written for a processed camera: its defaults, its status
      (online exactly when the resolver answered), and its console URL (set
      whenever an Open Platform client exists, even with `use_ieuopen` off). */
  lemma ProcessedRecord(st: State, settings: Settings, cfg: CameraConfig, reply: Option<OpenApi.StreamInfo>)
    requires Processed(cfg)
    ensures var rec := ProcessCamera(st, settings, cfg, reply).cameras[cfg.serial.value];
      && rec.name == cfg.name.GetOr("EZVIZ " + cfg.serial.value)
      && rec.deviceType == "camera"
      && rec.enabled
      && (rec.status == "online" <==> Resolving(settings) && reply.Some?)
      && (rec.status != "online" ==>
            rec.status == "offline" && rec.channel == cfg.channel.GetOr(1) && rec.serial == cfg.serial.value
            && rec.stream.None? && rec.streamUrl.None?)
      && (rec.ieuopenUrl.Some? <==> settings.hasOpenApi)
      && (settings.hasOpenApi ==> rec.ieuopenUrl == Some(OpenApi.LiveUrl(cfg.serial.value, cfg.channel.GetOr(1), 1)))
  {
  }

  /** The URL stored for a camera follows the HLS > FLV > cloud priority, and
      is the converter's local address unless the stream type is HLS. */
  lemma StreamUrlChoice(st: State, settings: Settings, cfg: CameraConfig, info: OpenApi.StreamInfo)
    requires Processed(cfg) && Resolving(settings)
    ensures var r := ProcessCamera(st, settings, cfg, Some(info));
      var serial := cfg.serial.value;
      && (ChooseUrl(info).None? ==> r.streamUrls == st.streamUrls && r.converter == st.converter)
      && (ChooseUrl(info).Some? && StartsWith(info.streamType, "hls") ==>
            r.streamUrls == st.streamUrls[serial := ChooseUrl(info).value] && r.converter == st.converter)
      && (ChooseUrl(info).Some? && !StartsWith(info.streamType, "hls") ==>
            r.streamUrls == st.streamUrls[serial := StreamConverter.RtspUrl(st.converter.rtspPort, serial)]
            && serial in r.converter.tasks)
      && r.cameras[serial].streamUrl == (if ChooseUrl(info).Some? then Some(r.streamUrls[serial]) else None)
  {
  }

  /** A failed resolution (`{}`) or a disabled resolver leaves the stream URL
      of the camera, and the converter, as they were. */
  lemma FailedResolutionKeepsUrl(st: State, settings: Settings, cfg: CameraConfig, reply: Option<OpenApi.StreamInfo>)
    requires !Resolving(settings) || reply.None?
    ensures var r := ProcessCamera(st, settings, cfg, reply);
      r.streamUrls == st.streamUrls && r.converter == st.converter
  {
  }

  /** Serials of the cameras an update processes. */
  function ProcessedSerials(cfgs: seq<CameraConfig>): (s: set<string>)
    ensures forall i :: 0 <= i < |cfgs| && Processed(cfgs[i]) ==> cfgs[i].serial.value in s
  {
    if cfgs == [] then {}
    else (if Processed(cfgs[0]) then {cfgs[0].serial.value} else {}) + ProcessedSerials(cfgs[1..])
  }

  /** The update pass: `replies[i]` is the resolver's answer for `cfgs[i]`
      (unused when that camera is skipped or the resolver is off). It only
      inserts or overwrites: every camera and stream URL known before is
      still there, the new cameras are exactly the processed ones, and the
      entries of cameras no config processes are untouched. */
  function UpdateData(st: State, settings: Settings, cfgs: seq<CameraConfig>, replies: seq<Option<OpenApi.StreamInfo>>): (r: State)
    requires |replies| == |cfgs|
    ensures r.cameras.Keys == st.cameras.Keys + ProcessedSerials(cfgs)
    ensures st.streamUrls.Keys <= r.streamUrls.Keys <= st.streamUrls.Keys + ProcessedSerials(cfgs)
    ensures forall s :: s in st.cameras && s !in ProcessedSerials(cfgs) ==> r.cameras[s] == st.cameras[s]
    ensures forall s :: s in st.streamUrls && s !in ProcessedSerials(cfgs) ==> r.streamUrls[s] == st.streamUrls[s]
    decreases |cfgs|
  {
    if cfgs == [] then st
    else UpdateData(ProcessCamera(st, settings, cfgs[0], replies[0]), settings, cfgs[1..], replies[1..])
  }

  /** Every record an update writes is enabled, so records stay enabled. */
  predicate AllEnabled(cameras: map<string, CameraRecord>) {
    forall s :: s in cameras ==> cameras[s].enabled
  }

  lemma {:induction false} UpdateKeepsEnabled(st: State, settings: Settings, cfgs: seq<CameraConfig>, replies: seq<Option<OpenApi.StreamInfo>>)
    requires |replies| == |cfgs|
    requires AllEnabled(st.cameras)
    ensures AllEnabled(UpdateData(st, settings, cfgs, replies).cameras)
    decreases |cfgs|
  {
    if cfgs != [] {
      UpdateKeepsEnabled(ProcessCamera(st, settings, cfgs[0], replies[0]), settings, cfgs[1..], replies[1..]);
    }
  }

  /** A camera whose update starts a conversion: processed, resolved, with
      a chosen URL of a non-HLS stream type. */
  predicate Converts(settings: Settings, cfg: CameraConfig, reply: Option<OpenApi.StreamInfo>) {
    Processed(cfg) && Resolving(settings) && reply.Some? && ChooseUrl(reply.value).Some?
    && !StartsWith(reply.value.streamType, "hls")
  }

  /** The converter after a camera update that converts: the as-written
      start on the chosen URL. */
  lemma ConvertingUpdate(st: State, settings: Settings, cfg: CameraConfig, info: OpenApi.StreamInfo)
    requires Converts(settings, cfg, Some(info))
    ensures ProcessCamera(st, settings, cfg, Some(info)).converter
      == StreamConverter.StartConversion(st.converter, cfg.serial.value, ChooseUrl(info).value, info.streamType).converter
  {
  }

  /** An update over one config is that config's camera update. */
  lemma UpdateOne(st: State, settings: Settings, cfg: CameraConfig, reply: Option<OpenApi.StreamInfo>)
    ensures UpdateData(st, settings, [cfg], [reply]) == ProcessCamera(st, settings, cfg, reply)
  {
    assert [cfg][1..] == [];
  }

  /** As written, updating a non-HLS camera twice and then stopping its
      conversion leaves the first update's ffmpeg task running, held by no
      serial, so no later stop can cancel it. */
  lemma TwoUpdatesOrphanFirstTask(st: State, settings: Settings, cfg: CameraConfig, info: OpenApi.StreamInfo)
    requires Converts(settings, cfg, Some(info))
    requires StreamConverter.WellFormed(st.converter)
    ensures var serial := cfg.serial.value;
      var st1 := UpdateData(st, settings, [cfg], [Some(info)]);
      var st2 := UpdateData(st1, settings, [cfg], [Some(info)]);
      serial in st1.converter.tasks
      && StreamConverter.Orphaned(StreamConverter.StopConversion(st2.converter, serial), st1.converter.tasks[serial].id)
  {
    var serial, url, kind := cfg.serial.value, ChooseUrl(info).value, info.streamType;
    var st1 := UpdateData(st, settings, [cfg], [Some(info)]);
    UpdateOne(st, settings, cfg, Some(info));
    ConvertingUpdate(st, settings, cfg, info);
    StreamConverter.StartKeepsWellFormed(st.converter, serial, url, kind);
    var st2 := UpdateData(st1, settings, [cfg], [Some(info)]);
    UpdateOne(st1, settings, cfg, Some(info));
    ConvertingUpdate(st1, settings, cfg, info);
    StreamConverter.StartOrphansEarlierTask(st1.converter, serial, url, kind);
    StreamConverter.OrphanNeverCancelled(st2.converter, st1.converter.tasks[serial].id, serial, url, kind);
  }

  /** What the cameras and stream URLs of an update depend on: the previous
      maps and the RTSP port, not the conversion tasks. */
  predicate SameView(a: State, b: State) {
    a.cameras == b.cameras && a.streamUrls == b.streamUrls && a.converter.rtspPort == b.converter.rtspPort
  }

  lemma MergeKeepsView(a: State, b: State, serial: string, base: CameraRecord, info: OpenApi.StreamInfo)
    requires SameView(a, b)
    ensures var ma, mb := MergeStream(a, serial, base, info), MergeStream(b, serial, base, info);
      ma.rec == mb.rec && ma.streamUrls == mb.streamUrls && ma.converter.rtspPort == mb.converter.rtspPort
  {
    if ChooseUrl(info).Some? && !StartsWith(info.streamType, "hls") {
      var url := ChooseUrl(info).value;
      var sa := StreamConverter.StartConversion(a.converter, serial, url, info.streamType);
      var sb := StreamConverter.StartConversion(b.converter, serial, url, info.streamType);
      assert sa.url == sb.url;
    }
  }

  lemma ProcessKeepsView(a: State, b: State, settings: Settings, cfg: CameraConfig, reply: Option<OpenApi.StreamInfo>)
    requires SameView(a, b)
    ensures SameView(ProcessCamera(a, settings, cfg, reply), ProcessCamera(b, settings, cfg, reply))
  {
    if Processed(cfg) && Resolving(settings) && reply.Some? {
      MergeKeepsView(a, b, cfg.serial.value, BaseRecord(cfg), reply.value);
    }
  }

  /** The corrected camera update: the serial's conversion is stopped before
      a new one is started. Cameras and stream URLs are those of the update
      as written. */
  function ProcessCameraFixed(st: State, settings: Settings, cfg: CameraConfig, reply: Option<OpenApi.StreamInfo>): (r: State)
    ensures SameView(r, ProcessCamera(st, settings, cfg, reply))
    ensures Converts(settings, cfg, reply) ==> r.converter == StreamConverter.StartConversionFixed(
      st.converter, cfg.serial.value, ChooseUrl(reply.value).value, reply.value.streamType).converter
    ensures !Converts(settings, cfg, reply) ==> r.converter == st.converter
  {
    if Converts(settings, cfg, reply) then
      var st0 := st.(converter := StreamConverter.StopConversion(st.converter, cfg.serial.value));
      ProcessKeepsView(st0, st, settings, cfg, reply);
      ProcessCamera(st0, settings, cfg, reply)
    else ProcessCamera(st, settings, cfg, reply)
  }

  /** The corrected update pass. */
  function UpdateDataFixed(st: State, settings: Settings, cfgs: seq<CameraConfig>, replies: seq<Option<OpenApi.StreamInfo>>): State
    requires |replies| == |cfgs|
    decreases |cfgs|
  {
    if cfgs == [] then st
    else UpdateDataFixed(ProcessCameraFixed(st, settings, cfgs[0], replies[0]), settings, cfgs[1..], replies[1..])
  }

  /** The corrected pass writes the same cameras and stream URLs as the pass
      as written; only the conversion tasks differ. */
  lemma {:induction false} UpdateFixedSameView(a: State, b: State, settings: Settings, cfgs: seq<CameraConfig>, replies: seq<Option<OpenApi.StreamInfo>>)
    requires |replies| == |cfgs| && SameView(a, b)
    ensures SameView(UpdateDataFixed(a, settings, cfgs, replies), UpdateData(b, settings, cfgs, replies))
    decreases |cfgs|
  {
    if cfgs != [] {
      ProcessKeepsView(a, b, settings, cfgs[0], replies[0]);
      UpdateFixedSameView(ProcessCameraFixed(a, settings, cfgs[0], replies[0]), ProcessCamera(b, settings, cfgs[0], replies[0]),
        settings, cfgs[1..], replies[1..]);
    }
  }

  /** With the corrected update, every running conversion task stays held by
      some serial, so `stop_rtsp_conversion` can reach each one. */
  lemma ProcessFixedKeepsConversionsTracked(st: State, settings: Settings, cfg: CameraConfig, reply: Option<OpenApi.StreamInfo>)
    requires StreamConverter.WellFormed(st.converter) && StreamConverter.Tracked(st.converter)
    ensures var c := ProcessCameraFixed(st, settings, cfg, reply).converter;
      StreamConverter.WellFormed(c) && StreamConverter.Tracked(c)
  {
    if Converts(settings, cfg, reply) {
      StreamConverter.FixedStartKeepsTracked(st.converter, cfg.serial.value, ChooseUrl(reply.value).value, reply.value.streamType);
    }
  }

  lemma {:induction false} UpdateFixedKeepsConversionsTracked(st: State, settings: Settings, cfgs: seq<CameraConfig>, replies: seq<Option<OpenApi.StreamInfo>>)
    requires |replies| == |cfgs|
    requires StreamConverter.WellFormed(st.converter) && StreamConverter.Tracked(st.converter)
    ensures var c := UpdateDataFixed(st, settings, cfgs, replies).converter;
      StreamConverter.WellFormed(c) && StreamConverter.Tracked(c)
    decreases |cfgs|
  {
    if cfgs != [] {
      ProcessFixedKeepsConversionsTracked(st, settings, cfgs[0], replies[0]);
      UpdateFixedKeepsConversionsTracked(ProcessCameraFixed(st, settings, cfgs[0], replies[0]), settings, cfgs[1..], replies[1..]);
    }
  }

  /** With the Open Platform resolver's descriptors, an HLS candidate's
      address is stored as is and an FLV candidate's is converted to the
      local RTSP address. */
  lemma ResolvedCandidateRouting(st: State, settings: Settings, cfg: CameraConfig, i: nat, url: string, expire: Option<string>)
    requires Processed(cfg) && Resolving(settings)
    requires i < |OpenApi.Candidates| && url != ""
    ensures var info := OpenApi.Describe(cfg.serial.value, cfg.channel.GetOr(1), OpenApi.Candidates[i], url, expire);
      var r := ProcessCamera(st, settings, cfg, Some(info));
      var serial := cfg.serial.value;
      r.streamUrls[serial] == (if i < 2 then url else StreamConverter.RtspUrl(st.converter.rtspPort, serial))
  {
    var info := OpenApi.Describe(cfg.serial.value, cfg.channel.GetOr(1), OpenApi.Candidates[i], url, expire);
    OpenApi.ExactlyOneKind(cfg.serial.value, cfg.channel.GetOr(1), i, url, expire);
    OpenApi.CandidateKinds(i);
    assert ChooseUrl(info) == Some(url);
    StreamUrlChoice(st, settings, cfg, info);
  }

  /** `async_get_camera`: the record held for the serial, None if there is none. */
  function GetCamera(st: State, serial: string): (r: Option<CameraRecord>)
    ensures r.Some? <==> serial in st.cameras
    ensures r.Some? ==> r.value == st.cameras[serial]
  {
    if serial in st.cameras then Some(st.cameras[serial]) else None
  }

  /** `async_get_stream_url`: its only parameter is `serial`. */
  function GetStreamUrl(st: State, serial: string): (r: Option<string>)
    ensures r.Some? <==> serial in st.streamUrls
    ensures r.Some? ==> r.value == st.streamUrls[serial]
  {
    if serial in st.streamUrls then Some(st.streamUrls[serial]) else None
  }

  /** After a camera's stream was resolved, the two lookups agree: the
      stream URL is the one its record carries. */
  lemma StreamUrlMatchesRecord(st: State, settings: Settings, cfg: CameraConfig, info: OpenApi.StreamInfo)
    requires Processed(cfg) && Resolving(settings) && ChooseUrl(info).Some?
    ensures var r := ProcessCamera(st, settings, cfg, Some(info));
      GetCamera(r, cfg.serial.value).Some?
      && GetStreamUrl(r, cfg.serial.value) == GetCamera(r, cfg.serial.value).value.streamUrl
  {
    StreamUrlChoice(st, settings, cfg, info);
  }

  const StreamUrlParameters: set<string> := {"serial"}

  /** The ids of the tasks held for the given serials. */
  function HeldIds(c: StreamConverter.Converter, serials: set<string>): set<nat> {
    set s | s in serials && s in c.tasks :: c.tasks[s].id
  }

  /** `async_cleanup` without the session closing: stop the conversion of
      every serial that has a stream URL, cancelling exactly the tasks held
      for them. */
  method Cleanup(st: State) returns (c: StreamConverter.Converter)
    ensures c.rtspPort == st.converter.rtspPort && c.launched == st.converter.launched
    ensures c.tasks.Keys == st.converter.tasks.Keys - st.streamUrls.Keys
    ensures forall s :: s in c.tasks ==> c.tasks[s] == st.converter.tasks[s]
    ensures c.cancelled == st.converter.cancelled + HeldIds(st.converter, st.streamUrls.Keys)
  {
    c := st.converter;
    var pending := st.streamUrls.Keys;
    while pending != {}
      invariant pending <= st.streamUrls.Keys
      invariant c.rtspPort == st.converter.rtspPort && c.launched == st.converter.launched
      invariant c.tasks.Keys == st.converter.tasks.Keys - (st.streamUrls.Keys - pending)
      invariant forall s :: s in c.tasks ==> c.tasks[s] == st.converter.tasks[s]
      invariant c.cancelled == st.converter.cancelled + HeldIds(st.converter, st.streamUrls.Keys - pending)
      decreases pending
    {
      var serial :| serial in pending;
      ghost var done := st.streamUrls.Keys - pending;
      assert HeldIds(st.converter, done + {serial}) == HeldIds(st.converter, done)
        + (if serial in st.converter.tasks then {st.converter.tasks[serial].id} else {});
      c := StreamConverter.StopConversion(c, serial);
      pending := pending - {serial};
      assert st.streamUrls.Keys - pending == done + {serial};
    }
  }
}
