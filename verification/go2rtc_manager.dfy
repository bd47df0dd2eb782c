/** `Go2RtcManager` in go2rtc_manager.py: keeps the go2rtc relay's
    `go2rtc.yaml` stream registry in step with the resolved camera URLs and
    asks the relay to pick the change up. The YAML file is a document value
    (`Node`); reading, parsing and writing it, and every HTTP call, are
    replaced by the outcomes they would have, given as inputs. */
module Go2rtcManager {
  import opened Common

  /** A YAML value as `yaml.safe_load` returns it (floats and non-string
      mapping keys are not modelled). */
  datatype Node =
    | Null
    | Bool(b: bool)
    | Int(i: int)
    | Str(s: string)
    | List(items: seq<Node>)
    | Mapping(entries: map<string, Node>)

  /** Python falsiness, which turns an empty document into `{}`. */
  predicate Falsy(n: Node) {
    n.Null? || n == Bool(false) || n == Int(0) || n == Str("") || n == List([]) || n == Mapping(map[])
  }

  /** The registry file: missing, unreadable, or present with its text and
      what the YAML parser makes of it (None when parsing raises). */
  datatype FileState = Absent | Unreadable | Present(text: string, parsed: Option<Node>)

  const StreamsKey: string := "streams"

  function StreamName(serial: string): string {
    "ezviz_" + serial
  }

  /** The relay's RTSP address for a camera; the port is always 8554. */
  function RtspAddress(serial: string): string {
    "rtsp://localhost:8554/" + StreamName(serial)
  }

  const FfmpegOptions: string :=
    "#video=copy#audio=copy#raw=-timeout 5000000 -reconnect 1 -reconnect_streamed 1 -reconnect_delay_max 2 -fflags +genpts -use_wallclock_as_timestamps 1"

  /** The transcoding fallback source registered after the direct URL. */
  function FfmpegSource(name: string): string {
    "ffmpeg:" + name + FfmpegOptions
  }

  /** The registry entry for one stream: direct URL first, ffmpeg second. */
  function StreamEntry(name: string, url: string): Node {
    List([Str(url), Str(FfmpegSource(name))])
  }

  /** The document used when there is no usable file. */
  const FreshConfig: Node := Mapping(map[StreamsKey := Mapping(map[])])

  /** Top-level relay settings added when missing. */
  const Defaults: map<string, Node> := map[
    "ffmpeg" := Mapping(map["bin" := Str("ffmpeg")]),
    "rtsp" := Mapping(map["listen" := Str(":8554")]),
    "webrtc" := Mapping(map["listen" := Str(":8555")])
  ]

  /** Text written by Home Assistant's own YAML dumper, which is recreated. */
  predicate Tagged(text: string) {
    Contains(text, "annotatedyaml") || Contains(text, "!!python")
  }

  /** `read_yaml`: None when the file cannot be read, is tagged, or does not
      parse; an empty document reads as `{}`. */
  function ReadYaml(f: FileState): (r: Option<Node>)
    requires !f.Absent?
    ensures r.None? <==> f.Unreadable? || Tagged(f.text) || f.parsed.None?
    ensures r.Some? ==> !Falsy(r.value) || r.value == Mapping(map[])
    ensures r.Some? ==> r.value == (if Falsy(f.parsed.value) then Mapping(map[]) else f.parsed.value)
  {
    match f
    case Unreadable => None
    case Present(text, parsed) =>
      if Tagged(text) then None
      else match parsed
        case None => None
        case Some(n) => Some(if Falsy(n) then Mapping(map[]) else n)
  }

  /** The document the manager starts from: a missing, unreadable, tagged or
      unparsable file all give `{streams: {}}`, and an empty one `{}`. */
  function LoadConfig(f: FileState): (doc: Node)
    ensures f.Absent? || f.Unreadable? ==> doc == FreshConfig
    ensures f.Present? && (Tagged(f.text) || f.parsed.None?) ==> doc == FreshConfig
    ensures f.Present? && !Tagged(f.text) && f.parsed.Some? && !Falsy(f.parsed.value) ==> doc == f.parsed.value
    ensures f.Present? && !Tagged(f.text) && f.parsed.Some? && Falsy(f.parsed.value) ==> doc == Mapping(map[])
  {
    if f.Absent? then FreshConfig
    else match ReadYaml(f)
      case None => FreshConfig
      case Some(n) => n
  }

  /** A document the manager can edit: a mapping whose `streams`, if
      present, is a mapping too. Anything else makes the Python code raise. */
  predicate IsConfig(doc: Node) {
    doc.Mapping? && (StreamsKey in doc.entries ==> doc.entries[StreamsKey].Mapping?)
  }

  /** The `streams` mapping of a document, empty when there is none. */
  function StreamsOf(doc: Node): map<string, Node> {
    if doc.Mapping? && StreamsKey in doc.entries && doc.entries[StreamsKey].Mapping? then
      doc.entries[StreamsKey].entries
    else map[]
  }

  function WithDefault(m: map<string, Node>, key: string): (r: map<string, Node>)
    requires key in Defaults
  {
    if key in m then m else m[key := Defaults[key]]
  }

  /** The config transform of `async_add_stream`: ensure `streams`, add the
      missing defaults, and set `streams[name]` to the direct URL followed by
      the ffmpeg fallback. None when the document cannot be edited. */
  function Upsert(doc: Node, name: string, url: string): (r: Option<Node>)
    ensures r.Some? <==> IsConfig(doc)
    ensures r.Some? ==> IsConfig(r.value) && StreamsKey in r.value.entries
    ensures r.Some? ==> StreamsOf(r.value) == StreamsOf(doc)[name := StreamEntry(name, url)]
    ensures r.Some? ==> r.value.entries.Keys == doc.entries.Keys + {StreamsKey} + Defaults.Keys
    ensures r.Some? ==> forall k :: k in doc.entries && k != StreamsKey ==> r.value.entries[k] == doc.entries[k]
    ensures r.Some? ==> forall k :: k in Defaults && k !in doc.entries ==> r.value.entries[k] == Defaults[k]
  {
    match doc
    case Mapping(m) =>
      var m1 := if StreamsKey in m then m else m[StreamsKey := Mapping(map[])];
      var m2 := WithDefault(WithDefault(WithDefault(m1, "ffmpeg"), "rtsp"), "webrtc");
      (match m2[StreamsKey]
       case Mapping(streams) => Some(Mapping(m2[StreamsKey := Mapping(streams[name := StreamEntry(name, url)])]))
       case _ => None)
    case _ => None
  }

  /** Upserting the same URL again gives the same document. */
  lemma UpsertIdempotent(doc: Node, name: string, url: string)
    requires IsConfig(doc)
    ensures Upsert(Upsert(doc, name, url).value, name, url) == Upsert(doc, name, url)
  {
    var d1 := Upsert(doc, name, url).value;
    var d2 := Upsert(d1, name, url).value;
    assert d2.entries.Keys == d1.entries.Keys;
    assert StreamsOf(d2) == StreamsOf(d1);
    assert d2.entries[StreamsKey] == d1.entries[StreamsKey];
    assert d2.entries == d1.entries;
  }

  /** An empty file and a missing file lead to the same registry. */
  lemma UpsertEmptyIsFresh(name: string, url: string)
    ensures Upsert(Mapping(map[]), name, url) == Upsert(FreshConfig, name, url)
  {
    var a := Upsert(Mapping(map[]), name, url).value;
    var b := Upsert(FreshConfig, name, url).value;
    assert a.entries.Keys == b.entries.Keys;
    assert a.entries[StreamsKey] == b.entries[StreamsKey];
    assert a.entries == b.entries;
  }

  /** The old first source of a stream, as compared for logging only. */
  function PreviousPrimary(doc: Node, name: string): Option<Node> {
    var streams := StreamsOf(doc);
    if name !in streams then None
    else match streams[name]
      case List(items) => if |items| > 0 then Some(items[0]) else Some(List(items))
      case other => Some(other)
  }

  /** Outcome of one HTTP exchange with the relay. */
  datatype Http = Status(code: int) | Unreachable

  /** Outcome of restarting one add-on: the service call raised, or it went
      through and the follow-up `/api/streams` probe had this outcome. */
  datatype AddonAttempt = RestartRaised | Restarted(probe: Http)

  /** What the environment would answer to each reload strategy. */
  datatype ReloadEnv = ReloadEnv(
    hasAddonRestart: bool,
    addons: map<string, AddonAttempt>,
    configReload: Http,
    streamsProbe: Http)

  /** One way of making the relay see the new file. */
  datatype Strategy = RestartAddon(id: string) | ConfigReload | StreamsProbe

  /** The boolean returned and the strategies tried, in order. */
  datatype ReloadResult = ReloadResult(ok: bool, attempts: seq<Strategy>)

  const AddonIds: seq<string> := ["a0d7b954_go2rtc", "alexxit_go2rtc", "core_go2rtc", "local_go2rtc"]

  function AddonAttemptFor(env: ReloadEnv, id: string): AddonAttempt {
    if id in env.addons then env.addons[id] else RestartRaised
  }

  predicate Succeeds(env: ReloadEnv, s: Strategy) {
    match s
    case RestartAddon(id) => AddonAttemptFor(env, id) == Restarted(Status(200))
    case ConfigReload => env.configReload == Status(200) || env.configReload == Status(204)
    case StreamsProbe => env.streamsProbe == Status(200)
  }

  /** Short-circuiting fold: try each strategy until one succeeds. */
  function FirstSuccess(env: ReloadEnv, plan: seq<Strategy>): (r: ReloadResult)
    ensures r.ok <==> exists i :: 0 <= i < |plan| && Succeeds(env, plan[i])
    ensures |r.attempts| <= |plan| && r.attempts == plan[..|r.attempts|]
    ensures forall i :: 0 <= i < |r.attempts| - 1 ==> !Succeeds(env, r.attempts[i])
    ensures r.ok ==> |r.attempts| > 0 && Succeeds(env, r.attempts[|r.attempts| - 1])
    ensures !r.ok ==> r.attempts == plan
  {
    if plan == [] then ReloadResult(false, [])
    else if Succeeds(env, plan[0]) then ReloadResult(true, [plan[0]])
    else
      var rest := FirstSuccess(env, plan[1..]);
      assert forall i :: 1 <= i < |plan| ==> plan[i] == plan[1..][i - 1];
      ReloadResult(rest.ok, [plan[0]] + rest.attempts)
  }

  /** The strategies in the order `_reload_go2rtc` tries them. */
  function Plan(env: ReloadEnv): seq<Strategy> {
    (if env.hasAddonRestart then AddonPlan(AddonIds) else []) + [ConfigReload, StreamsProbe]
  }

  function AddonPlan(ids: seq<string>): (plan: seq<Strategy>)
    ensures |plan| == |ids|
    ensures forall i :: 0 <= i < |ids| ==> plan[i] == RestartAddon(ids[i])
  {
    if ids == [] then [] else [RestartAddon(ids[0])] + AddonPlan(ids[1..])
  }

  /** The add-on loop of `_reload_go2rtc`: for each id, when the restart
      service exists, restart and probe; stop at the first probe answering
      200. It is the first-success fold over the restarts, and tries nothing
      without the service. */
  function RestartAddons(env: ReloadEnv, ids: seq<string>): (r: ReloadResult)
    ensures r == FirstSuccess(env, if env.hasAddonRestart then AddonPlan(ids) else [])
  {
    if ids == [] then ReloadResult(false, [])
    else if !env.hasAddonRestart then RestartAddons(env, ids[1..])
    else if Succeeds(env, RestartAddon(ids[0])) then ReloadResult(true, [RestartAddon(ids[0])])
    else
      assert AddonPlan(ids)[1..] == AddonPlan(ids[1..]);
      var rest := RestartAddons(env, ids[1..]);
      ReloadResult(rest.ok, [RestartAddon(ids[0])] + rest.attempts)
  }

  lemma {:induction false} FirstSuccessAppend(env: ReloadEnv, p: seq<Strategy>, q: seq<Strategy>)
    ensures FirstSuccess(env, p + q) ==
      (var a := FirstSuccess(env, p);
       if a.ok then a else var b := FirstSuccess(env, q); ReloadResult(b.ok, a.attempts + b.attempts))
  {
    if p != [] {
      assert (p + q)[1..] == p[1..] + q;
      FirstSuccessAppend(env, p[1..], q);
      var a := FirstSuccess(env, p[1..]);
      if !Succeeds(env, p[0]) && !a.ok {
        var b := FirstSuccess(env, q);
        assert [p[0]] + (a.attempts + b.attempts) == ([p[0]] + a.attempts) + b.attempts;
      }
    } else {
      assert p + q == q;
    }
  }

  /** `_reload_go2rtc`: add-on restarts, then the config reload endpoint
      (200 or 204), then a liveness probe of `/api/streams` (200). The chain
      is the first-success fold over its plan: it reports success exactly
      when some strategy would succeed, stops at the first one that does,
      and tries every strategy otherwise. */
  function Reload(env: ReloadEnv): (r: ReloadResult)
    ensures r == FirstSuccess(env, Plan(env))
    ensures r.ok <==> exists i :: 0 <= i < |Plan(env)| && Succeeds(env, Plan(env)[i])
  {
    FirstSuccessAppend(env, if env.hasAddonRestart then AddonPlan(AddonIds) else [], [ConfigReload, StreamsProbe]);
    var a := RestartAddons(env, AddonIds);
    if a.ok then a
    else if Succeeds(env, ConfigReload) then ReloadResult(true, a.attempts + [ConfigReload])
    else ReloadResult(Succeeds(env, StreamsProbe), a.attempts + [ConfigReload, StreamsProbe])
  }

  /** The manager's `_streams`: serial to relay address. */
  datatype Manager = Manager(streams: map<string, string>)

  /** `get_rtsp_url`. */
  function GetRtspUrl(m: Manager, serial: string): Option<string> {
    if serial in m.streams then Some(m.streams[serial]) else None
  }

  /** Outcome of `async_add_stream`: the manager afterwards, the document
      written (None when nothing was written), the reload outcome (None when
      no reload ran), whether the change banner was logged, and the address
      returned (None for `None`). */
  datatype AddResult = AddResult(
    manager: Manager, written: Option<Node>, reload: Option<ReloadResult>,
    announced: bool, address: Option<string>)

  /** `async_add_stream`. `writeOk` says whether writing the file succeeds;
      `env` answers the reload strategies. */
  function AddStream(m: Manager, file: FileState, serial: string, url: string, writeOk: bool, env: ReloadEnv): (r: AddResult)
    ensures r.address.Some? <==> IsConfig(LoadConfig(file)) && writeOk
    ensures r.address.Some? ==>
      && r.address == Some(RtspAddress(serial))
      && r.written == Upsert(LoadConfig(file), StreamName(serial), url)
      && r.reload == Some(Reload(env))
      && r.manager.streams == m.streams[serial := RtspAddress(serial)]
    ensures r.address.None? ==> r.manager == m && r.written.None? && r.reload.None?
    ensures GetRtspUrl(r.manager, serial) == (if r.address.Some? then r.address else GetRtspUrl(m, serial))
  {
    var name := StreamName(serial);
    var doc := LoadConfig(file);
    match Upsert(doc, name, url)
    case None => AddResult(m, None, None, false, None)
    case Some(newDoc) =>
      if !writeOk then AddResult(m, None, None, false, None)
      else
        var reload := Reload(env);
        var announced := PreviousPrimary(doc, name) != Some(Str(url));
        AddResult(Manager(m.streams[serial := RtspAddress(serial)]), Some(newDoc), Some(reload), announced, Some(RtspAddress(serial)))
  }

  /** Adding the same URL twice rewrites the identical document and runs the
      reload chain again: only the log banner is skipped. */
  lemma RepeatedAddRewritesAndReloads(m: Manager, file: FileState, serial: string, url: string, env: ReloadEnv, text: string)
    requires IsConfig(LoadConfig(file))
    requires !Tagged(text)
    ensures var r1 := AddStream(m, file, serial, url, true, env);
      var r2 := AddStream(r1.manager, Present(text, r1.written), serial, url, true, env);
      && r2.written == r1.written && r2.written.Some?
      && r2.reload == Some(Reload(env))
      && !r2.announced
      && r2.address == r1.address
      && r2.manager == r1.manager
  {
    var r1 := AddStream(m, file, serial, url, true, env);
    var d1 := r1.written.value;
    assert StreamsKey in d1.entries;
    assert !Falsy(d1) by {
      assert d1.entries != map[];
    }
    assert LoadConfig(Present(text, r1.written)) == d1;
    UpsertIdempotent(LoadConfig(file), StreamName(serial), url);
    assert StreamsOf(d1)[StreamName(serial)] == StreamEntry(StreamName(serial), url);
  }

  /** Outcome of a document edit that may raise or leave the file alone. */
  datatype Edit = Failed | Unchanged | Rewrite(doc: Node)

  /** Python's `key in container` on a YAML value; None where it raises. */
  function PyIn(key: string, container: Node): (r: Option<bool>)
    ensures container.Mapping? ==> r == Some(key in container.entries)
  {
    match container
    case Mapping(m) => Some(key in m)
    case List(items) => Some(Str(key) in items)
    case Str(s) => Some(Contains(s, key))
    case _ => None
  }

  /** The config transform of `async_remove_stream`: delete `streams[name]`
      and nothing else; leave the file alone when there is no such entry. */
  function DeleteStream(config: Node, name: string): (e: Edit)
    ensures e.Rewrite? <==> IsConfig(config) && name in StreamsOf(config)
    ensures IsConfig(config) && name !in StreamsOf(config) ==> e == Unchanged
    ensures e.Rewrite? ==>
      && IsConfig(e.doc)
      && StreamsOf(e.doc) == StreamsOf(config) - {name}
      && e.doc.entries.Keys == config.entries.Keys
      && forall k :: k in config.entries && k != StreamsKey ==> e.doc.entries[k] == config.entries[k]
  {
    match PyIn(StreamsKey, config)
    case None => Failed
    case Some(false) => Unchanged
    case Some(true) =>
      if !config.Mapping? then Failed
      else
        var streams := config.entries[StreamsKey];
        match PyIn(name, streams)
        case None => Failed
        case Some(false) => Unchanged
        case Some(true) =>
          if streams.Mapping? then Rewrite(Mapping(config.entries[StreamsKey := Mapping(streams.entries - {name})]))
          else Failed
  }

  /** Removing a freshly added stream restores the registry's streams. */
  lemma DeleteUndoesUpsert(doc: Node, name: string, url: string)
    requires IsConfig(doc) && name !in StreamsOf(doc)
    ensures var e := DeleteStream(Upsert(doc, name, url).value, name);
      e.Rewrite? && StreamsOf(e.doc) == StreamsOf(doc)
      && forall k :: k in doc.entries && k != StreamsKey ==> e.doc.entries[k] == doc.entries[k]
  {
    var up := Upsert(doc, name, url).value;
    assert StreamsOf(up) - {name} == StreamsOf(doc);
  }

  /** Outcome of `async_remove_stream`: the manager afterwards, the document
      written (None when nothing was written) and the boolean returned. */
  datatype RemoveResult = RemoveResult(manager: Manager, written: Option<Node>, ok: bool)

  /** `async_remove_stream`. */
  function RemoveStream(m: Manager, file: FileState, serial: string, writeOk: bool): (r: RemoveResult)
    ensures file.Absent? ==> r == RemoveResult(m, None, true)
    ensures r.ok && !file.Absent? ==> r.manager.streams == m.streams - {serial}
    ensures !r.ok ==> r.manager == m && r.written.None?
    ensures r.written.Some? <==> !file.Absent? && writeOk && DeleteStream(LoadConfig(file), StreamName(serial)).Rewrite?
    ensures r.written.Some? ==> Rewrite(r.written.value) == DeleteStream(LoadConfig(file), StreamName(serial))
    ensures !file.Absent? && IsConfig(LoadConfig(file)) && StreamName(serial) !in StreamsOf(LoadConfig(file)) ==>
      r.ok && r.written.None?
    ensures r.ok ==> GetRtspUrl(r.manager, serial).None? || file.Absent?
    ensures r.ok <==> (file.Absent? || DeleteStream(LoadConfig(file), StreamName(serial)).Unchanged?
      || (DeleteStream(LoadConfig(file), StreamName(serial)).Rewrite? && writeOk))
  {
    if file.Absent? then RemoveResult(m, None, true)
    else
      match DeleteStream(LoadConfig(file), StreamName(serial))
      case Failed => RemoveResult(m, None, false)
      case Unchanged => RemoveResult(Manager(m.streams - {serial}), None, true)
      case Rewrite(doc) =>
        if writeOk then RemoveResult(Manager(m.streams - {serial}), Some(doc), true)
        else RemoveResult(m, None, false)
  }
}
