/** `EzvizEnhancedCamera` in camera.py: the entity built from a camera
    record, its stream-source fallback chain and the properties derived from
    its fields. The coordinator lookups it awaits are passed in as values. */
module Camera {
  import opened Common
  import Coordinator

  /** A camera dictionary read with `.get`: None for a missing key or a None
      value. */
  datatype CameraData = CameraData(
    name: Option<string>, channel: Option<int>, deviceType: Option<string>, enabled: Option<bool>,
    rtspUrl: Option<string>, hlsUrl: Option<string>, streamUrl: Option<string>,
    ieuopenUrl: Option<string>, rtspLocalUrl: Option<string>)

  /** A coordinator record seen as such a dictionary: the descriptor keys are
      there only once a descriptor was merged, and the coordinator never
      writes `rtsp_local_url`. */
  function FromRecord(rec: Coordinator.CameraRecord): (d: CameraData)
    ensures d.name.Some? && d.channel.Some? && d.deviceType.Some? && d.enabled == Some(rec.enabled)
    ensures d.streamUrl == rec.streamUrl && d.rtspLocalUrl.None?
  {
    CameraData(Some(rec.name), Some(rec.channel), Some(rec.deviceType), Some(rec.enabled),
      if rec.stream.Some? then rec.stream.value.rtspUrl else None,
      if rec.stream.Some? then rec.stream.value.hlsUrl else None,
      rec.streamUrl, rec.ieuopenUrl, None)
  }

  /** The entity's fields; `lastUrl` is `_last_url`. */
  datatype Entity = Entity(
    entryId: string, serial: string, name: string, channel: int, deviceType: string,
    rtspUrl: Option<string>, hlsUrl: Option<string>, streamUrl: Option<string>,
    ieuopenUrl: Option<string>, rtspLocalUrl: Option<string>, lastUrl: Option<string>)

  /** The constructor: missing keys take their defaults and no URL has been
      handed out yet. */
  function NewEntity(entryId: string, serial: string, d: CameraData): (e: Entity)
    ensures e.serial == serial && e.entryId == entryId && e.lastUrl.None?
    ensures d.name.None? ==> e.name == "EZVIZ " + serial
    ensures d.channel.None? ==> e.channel == 1
    ensures d.deviceType.None? ==> e.deviceType == "camera"
    ensures d.name.Some? ==> e.name == d.name.value
    ensures d.channel.Some? ==> e.channel == d.channel.value
    ensures d.deviceType.Some? ==> e.deviceType == d.deviceType.value
    ensures e.rtspUrl == d.rtspUrl && e.hlsUrl == d.hlsUrl && e.streamUrl == d.streamUrl
    ensures e.ieuopenUrl == d.ieuopenUrl && e.rtspLocalUrl == d.rtspLocalUrl
  {
    Entity(entryId, serial, d.name.GetOr("EZVIZ " + serial), d.channel.GetOr(1), d.deviceType.GetOr("camera"),
      d.rtspUrl, d.hlsUrl, d.streamUrl, d.ieuopenUrl, d.rtspLocalUrl, None)
  }

  /** An entity built from a coordinator record carries the record's name,
      channel and stream URL. */
  lemma EntityFromRecord(entryId: string, rec: Coordinator.CameraRecord)
    ensures var e := NewEntity(entryId, rec.serial, FromRecord(rec));
      e.name == rec.name && e.channel == rec.channel && e.deviceType == rec.deviceType
      && e.streamUrl == rec.streamUrl && e.ieuopenUrl == rec.ieuopenUrl
  {
  }

  predicate Enabled(d: CameraData) {
    d.enabled.GetOr(true)
  }

  /** `async_setup_entry`: an entity for each enabled camera and for
      nothing else. Order and multiplicity follow the items, as
      `SetupEntitiesOne` and `SetupEntitiesAppend` state. */
  function SetupEntities(entryId: string, items: seq<(string, CameraData)>): (es: seq<Entity>)
    ensures |es| <= |items|
    ensures forall e :: e in es ==>
      exists i :: 0 <= i < |items| && Enabled(items[i].1) && e == NewEntity(entryId, items[i].0, items[i].1)
    ensures forall i :: 0 <= i < |items| && Enabled(items[i].1) ==> NewEntity(entryId, items[i].0, items[i].1) in es
    ensures (forall i :: 0 <= i < |items| ==> Enabled(items[i].1)) ==> |es| == |items|
  {
    if items == [] then []
    else
      var rest := SetupEntities(entryId, items[1..]);
      if Enabled(items[0].1) then [NewEntity(entryId, items[0].0, items[0].1)] + rest else rest
  }

  /** A single item gives its entity when enabled and nothing otherwise. */
  lemma SetupEntitiesOne(entryId: string, item: (string, CameraData))
    ensures SetupEntities(entryId, [item]) == (if Enabled(item.1) then [NewEntity(entryId, item.0, item.1)] else [])
  {
    assert [item][1..] == [];
  }

  /** Setup distributes over concatenation: the entities of the first items
      come first, each item contributing its own. */
  lemma {:induction false} SetupEntitiesAppend(entryId: string, a: seq<(string, CameraData)>, b: seq<(string, CameraData)>)
    ensures SetupEntities(entryId, a + b) == SetupEntities(entryId, a) + SetupEntities(entryId, b)
  {
    if a == [] {
      assert a + b == b;
    } else {
      assert (a + b)[0] == a[0];
      assert (a + b)[1..] == a[1..] + b;
      SetupEntitiesAppend(entryId, a[1..], b);
      if Enabled(a[0].1) {
        var x := [NewEntity(entryId, a[0].0, a[0].1)];
        assert x + (SetupEntities(entryId, a[1..]) + SetupEntities(entryId, b))
          == (x + SetupEntities(entryId, a[1..])) + SetupEntities(entryId, b);
      }
    }
  }

  /** The coordinator's records seen as dictionaries, keys kept. */
  function Items(recs: seq<(string, Coordinator.CameraRecord)>): (items: seq<(string, CameraData)>)
    ensures |items| == |recs|
    ensures forall i :: 0 <= i < |recs| ==> items[i] == (recs[i].0, FromRecord(recs[i].1))
  {
    seq(|recs|, i requires 0 <= i < |recs| => (recs[i].0, FromRecord(recs[i].1)))
  }

  /** The coordinator writes only enabled records, so setup creates an
      entity for every record it holds. */
  lemma SetupCoversRecords(entryId: string, recs: seq<(string, Coordinator.CameraRecord)>)
    requires forall i :: 0 <= i < |recs| ==> recs[i].1.enabled
    ensures |SetupEntities(entryId, Items(recs))| == |recs|
  {
    var items := Items(recs);
    assert forall i :: 0 <= i < |items| ==> Enabled(items[i].1);
  }

  /** What `stream_source` returns, and the entity afterwards. */
  datatype Source = Source(url: Option<string>, entity: Entity)

  /** `stream_source`, given the coordinator's latest URL: the latest URL if
      truthy (and remembered in three fields), else the first truthy of the
      last URL, the HLS URL, the stream URL and the RTSP URL. */
  function StreamSource(e: Entity, latest: Option<string>): (r: Source)
    ensures Truthy(latest) ==> r.url == latest && r.entity == e.(lastUrl := latest, hlsUrl := latest, streamUrl := latest)
    ensures !Truthy(latest) ==> r.entity == e
    ensures r.url.Some? ==> (r.url.value != ""
      && (r.url == latest || r.url == e.lastUrl || r.url == e.hlsUrl || r.url == e.streamUrl || r.url == e.rtspUrl))
    ensures r.url.None? <==>
      !Truthy(latest) && !Truthy(e.lastUrl) && !Truthy(e.hlsUrl) && !Truthy(e.streamUrl) && !Truthy(e.rtspUrl)
  {
    if Truthy(latest) then Source(latest, e.(lastUrl := latest, hlsUrl := latest, streamUrl := latest))
    else if Truthy(e.lastUrl) then Source(e.lastUrl, e)
    else if Truthy(e.hlsUrl) then Source(e.hlsUrl, e)
    else if Truthy(e.streamUrl) then Source(e.streamUrl, e)
    else if Truthy(e.rtspUrl) then Source(e.rtspUrl, e)
    else Source(None, e)
  }

  /** The returned URL is the first truthy entry of the priority list. */
  lemma StreamSourcePriority(e: Entity, latest: Option<string>)
    ensures StreamSource(e, latest).url == FirstTruthy([latest, e.lastUrl, e.hlsUrl, e.streamUrl, e.rtspUrl])
  {
    var xs := [latest, e.lastUrl, e.hlsUrl, e.streamUrl, e.rtspUrl];
    if Truthy(latest) {
      FirstTruthyIsFirst(xs, 0);
    } else if Truthy(e.lastUrl) {
      FirstTruthyIsFirst(xs, 1);
    } else if Truthy(e.hlsUrl) {
      FirstTruthyIsFirst(xs, 2);
    } else if Truthy(e.streamUrl) {
      FirstTruthyIsFirst(xs, 3);
    } else if Truthy(e.rtspUrl) {
      FirstTruthyIsFirst(xs, 4);
    } else {
      assert forall i :: 0 <= i < |xs| ==> !Truthy(xs[i]);
    }
  }

  /** Once a latest URL was handed out, later calls without one return it
      again. */
  lemma LastUrlSticks(e: Entity, latest: Option<string>, later: Option<string>)
    requires Truthy(latest) && !Truthy(later)
    ensures StreamSource(StreamSource(e, latest).entity, later).url == latest
  {
  }

  /** `is_streaming`: a None test, so an empty URL still counts. An entity
      that is not streaming has neither of the two URLs to offer as a
      source. */
  predicate IsStreaming(e: Entity): (b: bool)
    ensures Truthy(e.hlsUrl) || Truthy(e.streamUrl) ==> b
    ensures !b ==> StreamSource(e, None).url == FirstTruthy([e.lastUrl, e.rtspUrl])
  {
    e.hlsUrl.Some? || e.streamUrl.Some?
  }

  /** Handing out a latest URL makes the entity streaming. */
  lemma StreamingAfterFreshSource(e: Entity, latest: Option<string>)
    requires Truthy(latest)
    ensures IsStreaming(StreamSource(e, latest).entity)
  {
  }

  /** `is_streaming` and `stream_source` disagree on empty URLs: an entity
      can be streaming and still have no source. */
  lemma StreamingWithoutSource(entryId: string, serial: string)
    ensures var e := Entity(entryId, serial, "", 1, "camera", None, Some(""), None, None, None, None);
      IsStreaming(e) && StreamSource(e, None).url.None?
  {
  }

  /** The outcome of a Python call: a value, or a TypeError raised by the
      argument binding. */
  datatype Call<T> = Returned(value: T) | TypeError

  /** `coordinator.async_get_stream_url(serial, **keywords)`: the serial is
      bound positionally, so only the other parameter names may be passed as
      keywords. */
  function CallGetStreamUrl(st: Coordinator.State, serial: string, keywords: set<string>): (r: Call<Option<string>>)
    ensures r.TypeError? <==> !(keywords <= Coordinator.StreamUrlParameters - {"serial"})
    ensures r.Returned? ==> r.value == Coordinator.GetStreamUrl(st, serial)
  {
    if keywords <= Coordinator.StreamUrlParameters - {"serial"} then Returned(Coordinator.GetStreamUrl(st, serial))
    else TypeError
  }

  /** `stream_source` as written: it passes `force_refresh=False`. */
  function StreamSourceAsWritten(e: Entity, st: Coordinator.State): (r: Call<Source>)
    ensures r.Returned? ==> r.value == StreamSource(e, Coordinator.GetStreamUrl(st, e.serial))
  {
    match CallGetStreamUrl(st, e.serial, {"force_refresh"})
    case TypeError => TypeError
    case Returned(latest) => Returned(StreamSource(e, latest))
  }

  /** The lookup as written never binds: every call raises, whatever the
      entity and the coordinator hold. */
  lemma StreamSourceAlwaysRaises(e: Entity, st: Coordinator.State)
    ensures StreamSourceAsWritten(e, st).TypeError?
  {
    assert "force_refresh" !in Coordinator.StreamUrlParameters - {"serial"};
  }

  /** `stream_source` with the keyword dropped. */
  function StreamSourceFixed(e: Entity, st: Coordinator.State): (r: Call<Source>)
    ensures r.Returned?
    ensures r.value.url == FirstTruthy([Coordinator.GetStreamUrl(st, e.serial), e.lastUrl, e.hlsUrl, e.streamUrl, e.rtspUrl])
    ensures e.serial in st.streamUrls && st.streamUrls[e.serial] != "" ==>
      r.value.url == Some(st.streamUrls[e.serial]) && r.value.entity.lastUrl == r.value.url
  {
    var latest := Coordinator.GetStreamUrl(st, e.serial);
    StreamSourcePriority(e, latest);
    match CallGetStreamUrl(st, e.serial, {})
    case TypeError => TypeError
    case Returned(f) => Returned(StreamSource(e, f))
  }

  /** The first eight characters of the entry id (fewer if it is shorter). */
  function EntryPrefix(entryId: string): (p: string)
    ensures |p| <= 8 && |p| <= |entryId| && p == entryId[..|p|]
    ensures |entryId| >= 8 ==> |p| == 8
  {
    if |entryId| <= 8 then entryId else entryId[..8]
  }

  const UniqueIdPrefix: string := "ezviz_enhanced_camera_"

  /** `unique_id`. */
  function UniqueId(e: Entity): (id: string)
    ensures StartsWith(id, UniqueIdPrefix + EntryPrefix(e.entryId) + "_")
    ensures id[|UniqueIdPrefix + EntryPrefix(e.entryId) + "_"|..] == e.serial + "_" + IntToString(e.channel)
  {
    UniqueIdPrefix + EntryPrefix(e.entryId) + "_" + e.serial + "_" + IntToString(e.channel)
  }

  /** Within one config entry, two cameras on the same channel get the same
      id only if they have the same serial: the channel is written last and
      never contains `_`. */
  lemma UniqueIdSeparatesSerials(e1: Entity, e2: Entity)
    requires e1.entryId == e2.entryId
    requires UniqueId(e1) == UniqueId(e2)
    ensures e1.serial == e2.serial && IntToString(e1.channel) == IntToString(e2.channel)
  {
    var p := UniqueIdPrefix + EntryPrefix(e1.entryId) + "_";
    var c1, c2 := IntToString(e1.channel), IntToString(e2.channel);
    var t1, t2 := e1.serial + "_" + c1, e2.serial + "_" + c2;
    assert UniqueId(e1) == p + t1;
    assert UniqueId(e2) == p + t2;
    assert t1 == (p + t1)[|p|..];
    assert t2 == (p + t2)[|p|..];
    SeparatorSplits(e1.serial, c1, e2.serial, c2);
  }

  /** `s + "_" + c` splits back into `s` and `c` when `c` has no `_`. */
  lemma SeparatorSplits(s1: string, c1: string, s2: string, c2: string)
    requires forall k :: 0 <= k < |c1| ==> c1[k] != '_'
    requires forall k :: 0 <= k < |c2| ==> c2[k] != '_'
    requires s1 + "_" + c1 == s2 + "_" + c2
    ensures s1 == s2 && c1 == c2
  {
    var t1, t2 := s1 + "_" + c1, s2 + "_" + c2;
    LastSeparator(s1, c1);
    LastSeparator(s2, c2);
    assert |s1| == |s2|;
    assert s1 == t1[..|s1|];
    assert s2 == t2[..|s2|];
    assert c1 == t1[|s1| + 1..];
    assert c2 == t2[|s2| + 1..];
  }

  /** In `s + "_" + c` with no `_` in `c`, the separator at `|s|` is the
      last one. */
  lemma LastSeparator(s: string, c: string)
    requires forall k :: 0 <= k < |c| ==> c[k] != '_'
    ensures (s + "_" + c)[|s|] == '_'
    ensures forall j :: |s| < j < |s| + 1 + |c| ==> (s + "_" + c)[j] != '_'
  {
    var t := s + "_" + c;
    forall j | |s| < j < |s| + 1 + |c|
      ensures t[j] != '_'
    {
      assert t[j] == c[j - |s| - 1];
    }
  }

  /** A value of `extra_state_attributes`. */
  datatype Attr = AStr(s: string) | AInt(i: int) | ANone

  function OptAttr(o: Option<string>): Attr {
    if o.Some? then AStr(o.value) else ANone
  }

  const BaseAttributeKeys: set<string> := {"serial", "channel", "device_type", "rtsp_url", "hls_url", "ieuopen_url"}
  const RtspLocalUrlKey: string := "rtsp_local_url"

  /** `extra_state_attributes`: six keys always, the local RTSP URL only
      when it is truthy. */
  function ExtraStateAttributes(e: Entity): (attrs: map<string, Attr>)
    ensures attrs.Keys == BaseAttributeKeys + (if Truthy(e.rtspLocalUrl) then {RtspLocalUrlKey} else {})
    ensures RtspLocalUrlKey in attrs <==> Truthy(e.rtspLocalUrl)
    ensures attrs["serial"] == AStr(e.serial) && attrs["channel"] == AInt(e.channel)
    ensures attrs["device_type"] == AStr(e.deviceType)
    ensures attrs["rtsp_url"] == OptAttr(e.rtspUrl) && attrs["hls_url"] == OptAttr(e.hlsUrl)
    ensures attrs["ieuopen_url"] == OptAttr(e.ieuopenUrl)
    ensures RtspLocalUrlKey in attrs ==> attrs[RtspLocalUrlKey] == AStr(e.rtspLocalUrl.value)
  {
    var attrs := map[
      "serial" := AStr(e.serial), "channel" := AInt(e.channel), "device_type" := AStr(e.deviceType),
      "rtsp_url" := OptAttr(e.rtspUrl), "hls_url" := OptAttr(e.hlsUrl), "ieuopen_url" := OptAttr(e.ieuopenUrl)];
    if Truthy(e.rtspLocalUrl) then attrs[RtspLocalUrlKey := AStr(e.rtspLocalUrl.value)] else attrs
  }

  /** `async_update` after the coordinator refresh: a record found for the
      serial replaces the five URL fields; name, channel, device type and
      the last URL are kept. */
  function Refresh(e: Entity, found: Option<CameraData>): (r: Entity)
    ensures found.None? ==> r == e
    ensures r.name == e.name && r.channel == e.channel && r.deviceType == e.deviceType && r.lastUrl == e.lastUrl
    ensures found.Some? ==> (r.rtspUrl == found.value.rtspUrl && r.hlsUrl == found.value.hlsUrl
      && r.streamUrl == found.value.streamUrl && r.ieuopenUrl == found.value.ieuopenUrl
      && r.rtspLocalUrl == found.value.rtspLocalUrl)
  {
    match found
    case None => e
    case Some(d) =>
      e.(rtspUrl := d.rtspUrl, hlsUrl := d.hlsUrl, streamUrl := d.streamUrl,
         ieuopenUrl := d.ieuopenUrl, rtspLocalUrl := d.rtspLocalUrl)
  }

  /** A URL handed out earlier survives an update: without a latest URL the
      entity still returns it. */
  lemma RefreshKeepsLastUrl(e: Entity, latest: Option<string>, found: Option<CameraData>)
    requires Truthy(latest)
    ensures StreamSource(Refresh(StreamSource(e, latest).entity, found), None).url == latest
  {
  }

  /** The dictionary `async_get_camera` hands back, None when the
      coordinator has no record for the serial. */
  function FetchCamera(st: Coordinator.State, serial: string): Option<CameraData> {
    match Coordinator.GetCamera(st, serial)
    case None => None
    case Some(rec) => Some(FromRecord(rec))
  }

  /** `async_get_camera` followed by the refresh: the entity takes the
      coordinator's current stream URL, and stays as it is when the
      coordinator has no record for it. */
  lemma RefreshFromCoordinator(e: Entity, st: Coordinator.State)
    ensures var r := Refresh(e, FetchCamera(st, e.serial));
      && (e.serial in st.cameras ==> r.streamUrl == st.cameras[e.serial].streamUrl)
      && (e.serial !in st.cameras ==> r == e)
  {
  }

  /** The attribute constants const.py defines, by name. */
  const ConstAttributes: map<string, string> := map[
    "ATTR_SERIAL" := "serial", "ATTR_CHANNEL" := "channel", "ATTR_DEVICE_TYPE" := "device_type",
    "ATTR_RTSP_URL" := "rtsp_url", "ATTR_HLS_URL" := "hls_url", "ATTR_IEUOPEN_URL" := "ieuopen_url",
    "ATTR_CLOUD_URL" := "cloud_url", "ATTR_ACCESS_TOKEN" := "access_token"]

  /** The attribute names camera.py imports from const.py. */
  const CameraImports: seq<string> := [
    "ATTR_SERIAL", "ATTR_CHANNEL", "ATTR_DEVICE_TYPE", "ATTR_RTSP_URL", "ATTR_IEUOPEN_URL", "ATTR_HLS_URL",
    "ATTR_RTSP_LOCAL_URL"]

  /** `from module import names`: the values in order, or None (an
      ImportError) when one name is not defined. */
  function ImportNames(defined: map<string, string>, names: seq<string>): (r: Option<seq<string>>)
    ensures r.Some? <==> forall i :: 0 <= i < |names| ==> names[i] in defined
    ensures r.Some? ==> |r.value| == |names| && forall i :: 0 <= i < |names| ==> r.value[i] == defined[names[i]]
  {
    if names == [] then Some([])
    else if names[0] !in defined then None
    else
      match ImportNames(defined, names[1..])
      case None => None
      case Some(rest) => Some([defined[names[0]]] + rest)
  }

  /** As written, importing camera.py fails: const.py has no
      `ATTR_RTSP_LOCAL_URL`. */
  lemma CameraImportFails()
    ensures ImportNames(ConstAttributes, CameraImports).None?
  {
    assert CameraImports[6] !in ConstAttributes;
  }

  /** const.py with the missing constant defined as the key the attribute
      code uses. */
  const FixedConstAttributes: map<string, string> := ConstAttributes["ATTR_RTSP_LOCAL_URL" := RtspLocalUrlKey]

  /** With the constant defined, the import binds every attribute key that
      `extra_state_attributes` writes. */
  lemma CameraImportSucceeds()
    ensures var r := ImportNames(FixedConstAttributes, CameraImports);
      r.Some? && (forall i :: 0 <= i < |r.value| ==> r.value[i] in BaseAttributeKeys + {RtspLocalUrlKey})
      && r.value[6] == RtspLocalUrlKey
  {
    var r := ImportNames(FixedConstAttributes, CameraImports);
    assert forall i :: 0 <= i < |CameraImports| ==> CameraImports[i] in FixedConstAttributes;
  }
}
