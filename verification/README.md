# EZVIZ Enhanced: a Dafny model of the stream-resolution core

This project models the decision logic of the EZVIZ Enhanced integration for
Home Assistant and proves properties of it. The integration finds a playable
live-stream address for each configured EZVIZ camera. The coordinator
republishes a non-HLS address only through the local ffmpeg converter.
`Go2RtcManager`, which keeps a go2rtc relay's stream registry, is a
self-contained module that no other file of the integration calls; it is
modelled on its own. The model covers these parts of the code:

- **`EzvizOpenApi`** (api.py) authenticates lazily. It then asks the EZVIZ
  Open Platform for a live address by trying four (protocol, quality)
  candidates in a fixed order (`OpenApi`). It also builds the developer-console
  live URL, whose query string is form-encoded (`UrlEncoding`).
- **`StreamConverter`** (api.py) builds the local RTSP address, the ffmpeg
  command line and the map of conversion tasks (`StreamConverter`).
- **`Go2RtcManager`** (go2rtc_manager.py) covers four steps (`Go2rtcManager`):
  - it loads and normalises the relay's `go2rtc.yaml` document;
  - it upserts a stream as the direct URL followed by an ffmpeg fallback;
  - it removes a stream;
  - it asks the relay to reload through a chain of strategies that stops at
    the first success.
- **`EzvizDataUpdateCoordinator`** (coordinator.py) runs one update pass as a
  fold over the configured cameras, filling the `cameras` and `stream_urls`
  maps (`Coordinator`).
- **`EzvizEnhancedCamera`** (camera.py) covers the setup filter, the
  constructor defaults and `stream_source`'s five-way fallback chain. It also
  covers `unique_id`, `is_streaming`, `extra_state_attributes` and
  `async_update` (`Camera`).

Every network exchange, file read or write, and service call becomes an input
value standing for the outcome it would have. Each of these inputs is a
datatype of its own:

- a reply per candidate, and the token endpoint's reply;
- the registry file's state and whether writing it succeeds;
- the answers of the reload strategies;
- the resolver's answer per camera;
- the coordinator's URL for `stream_source`.

`common.dfy` holds the Python notions the modules share: an `Option`, string
truthiness, `str.startswith`, `in` on strings, `str(int)`, and the first
truthy value of an `or` chain.

Behaviours of the code that are easy to assume otherwise, and that the
model keeps:

- An exception while asking for a candidate ends the whole search with `{}`.
  The code has no per-candidate `try`, so the remaining candidates are not
  tried.
- `async_add_stream` writes the file and reloads the relay on every
  successful call, even when the URL is unchanged. The old-URL comparison
  only decides whether a banner is logged.
- There is no expiry parsing, refresh buffer or single-flight refresh.

The update interval is 30 seconds in the code; timing is not modelled.

## Model

| member | source | states |
|---|---|---|
| UrlEncoding.QuotePlus | custom_components/ezviz_enhanced/api.py:137 | every character of the encoding is unreserved, `+` or `%`; text made only of unreserved characters is left as it is |
| UrlEncoding.UnquoteQuotePlus | custom_components/ezviz_enhanced/api.py:137 | decoding the form encoding of ASCII text gives the text back |
| UrlEncoding.UrlEncodeRoundTrip | custom_components/ezviz_enhanced/api.py:137 | a non-empty list of ASCII key/value pairs, once encoded, parses back to the same pairs in the same order |
| OpenApi.Authenticate | custom_components/ezviz_enhanced/api.py:66-101 | without both key and secret: False, no request sent, client unchanged. Otherwise True exactly on HTTP 200 with code "200". The token is replaced only then; key and secret never change |
| OpenApi.Describe | custom_components/ezviz_enhanced/api.py:216-228 | the descriptor's cloud URL is the address and its RTSP URL is None; status is online; the HLS (FLV) URL is the address exactly when the candidate name contains "hls" ("flv") |
| OpenApi.TryCandidates | custom_components/ezviz_enhanced/api.py:189-239 | requests are issued in candidate order, each carrying the token, serial, `str(channel)`, protocol, quality and "3600". Every reply before the last one was skipped. A descriptor is returned exactly when the last reply is accepted (HTTP 200, code "200", non-empty URL), and it describes that candidate. Otherwise every candidate was skipped, or the last one raised |
| OpenApi.GetStreamInfo | custom_components/ezviz_enhanced/api.py:174-239 | authenticates only when no token is held. Without a token afterwards, it returns `{}` and sends no stream request. Otherwise it requests the four fixed candidates in order with the held token, and a result is the first accepted reply |
| OpenApi.CandidateOrder | custom_components/ezviz_enhanced/api.py:189-194 | the candidates are (2,2,hls_fluent), (2,1,hls_hd), (4,2,flv_fluent), (4,1,flv_hd), in that order |
| OpenApi.CandidateKinds | custom_components/ezviz_enhanced/api.py:189-194 | the first two candidate names contain "hls" and not "flv"; the last two the reverse; a name starts with "hls" exactly for the first two |
| OpenApi.ExactlyOneKind | custom_components/ezviz_enhanced/api.py:216-228 | every descriptor built from a candidate has exactly one of an HLS and an FLV URL, equal to its cloud URL; it has the HLS one exactly when its stream type starts with "hls" |
| OpenApi.FirstAcceptedWins | custom_components/ezviz_enhanced/api.py:196-228 | when candidates before k are skipped and candidate k is accepted, the result describes candidate k and exactly k+1 requests are sent |
| OpenApi.RaisedAborts | custom_components/ezviz_enhanced/api.py:182-239 | an exception at candidate k, after skips, yields `{}` with exactly k+1 requests: later candidates are never tried |
| OpenApi.AllSkipped | custom_components/ezviz_enhanced/api.py:196-235 | when every candidate is skipped, all are requested and the result is `{}` |
| OpenApi.LiveUrl | custom_components/ezviz_enhanced/api.py:130-137 | the live URL is the developer-console address followed by `?` |
| OpenApi.LiveUrlParameters | custom_components/ezviz_enhanced/api.py:130-137 | for an ASCII serial, the query parses back to exactly serial, channelNo and addressType, in that order, with the numbers as decimal text (`LiveParams`) |
| StreamConverter.RtspUrl | custom_components/ezviz_enhanced/api.py:274 | the local address is `rtsp://localhost:`, then the port as decimal text, then `/ezviz_enhanced_`, then the serial, and nothing else |
| StreamConverter.RtspUrlInjective | custom_components/ezviz_enhanced/api.py:274 | on one port, two serials never share a local address |
| StreamConverter.FfmpegCommand | custom_components/ezviz_enhanced/api.py:276-294 | the command reads the source and writes RTSP to the local address; it copies codecs (`-c copy`) exactly when the stream type starts with "hls", otherwise it uses libx264 with the ultrafast preset |
| StreamConverter.StartConversion | custom_components/ezviz_enhanced/api.py:272-300 | as written: returns the local address and stores a newly created task under the serial. The task runs `FfmpegCommand` on the source and that address, so the codec choice follows the stream type. An earlier task of the serial is overwritten without being cancelled. Other serials' tasks, the port and the cancelled tasks are unchanged |
| StreamConverter.StartConversionFixed | custom_components/ezviz_enhanced/api.py:272-300 | corrected start: the same address and new task, and the serial's earlier task, if any, is cancelled too |
| StreamConverter.DirectStreamUrl | custom_components/ezviz_enhanced/api.py:302-309 | an HLS stream type returns the source and changes nothing. Any other type starts a conversion as written: it returns the local address and adds the serial's new ffmpeg task, cancelling none. The port, the other serials' tasks and the cancelled tasks are kept, and one more task has been created |
| StreamConverter.DirectStreamUrlOrphans | custom_components/ezviz_enhanced/api.py:296-309 | for a serial that already holds a task, a non-HLS stream type leaves that task running with no serial holding it; an HLS type leaves the tasks alone |
| StreamConverter.StartKeepsWellFormed | custom_components/ezviz_enhanced/api.py:296-298 | the as-written start keeps task ids distinct, created and uncancelled while held |
| StreamConverter.StopConversion | custom_components/ezviz_enhanced/api.py:311-316 | cancels and removes exactly the serial's task, keeps every other task, and changes nothing for an unknown serial |
| StreamConverter.StopAfterStart | custom_components/ezviz_enhanced/api.py:296-316 | stopping right after an as-written start leaves the task map without that serial and cancels only the new task, never the one it replaced |
| StreamConverter.StopAfterFixedStart | custom_components/ezviz_enhanced/api.py:296-316 | with the corrected start, stopping right after starting cancels both the new task and the one it replaced |
| StreamConverter.NewConverterTracked | custom_components/ezviz_enhanced/api.py:260-263 | a new converter holds no task, so every running task is held |
| StreamConverter.StartOrphansEarlierTask | custom_components/ezviz_enhanced/api.py:296-298 | starting again for a serial that holds a task leaves that task running with no serial holding it |
| StreamConverter.OrphanNeverCancelled | custom_components/ezviz_enhanced/api.py:296-316 | such an orphaned task stays running and unheld after any start or stop, so it is never cancelled |
| StreamConverter.RestartLeaksTask | custom_components/ezviz_enhanced/api.py:296-316 | on a new converter, start, start again and stop for one serial leave the first task running and unheld |
| StreamConverter.StopKeepsTracked | custom_components/ezviz_enhanced/api.py:311-316 | stopping keeps every running task held by some serial |
| StreamConverter.FixedStartKeepsTracked | custom_components/ezviz_enhanced/api.py:272-300 | the corrected start keeps every running task held by some serial, so each can still be stopped |
| Go2rtcManager.ReadYaml | custom_components/ezviz_enhanced/go2rtc_manager.py:44-56 | nothing is read from an unreadable, tagged (`annotatedyaml` or `!!python`) or unparsable file; otherwise a falsy document reads as `{}` and any other as the parsed document |
| Go2rtcManager.LoadConfig | custom_components/ezviz_enhanced/go2rtc_manager.py:38-60 | an absent, unreadable, tagged or unparsable file gives `{streams: {}}`; a falsy document gives `{}`; any other parsed document is used as it is |
| Go2rtcManager.Upsert | custom_components/ezviz_enhanced/go2rtc_manager.py:62-100 | succeeds exactly on an editable document. `streams` becomes the old streams with this name set to [direct URL, ffmpeg fallback]. Every other top-level key keeps its value, and the ffmpeg/rtsp/webrtc defaults are added only where missing |
| Go2rtcManager.UpsertIdempotent | custom_components/ezviz_enhanced/go2rtc_manager.py:83-100 | upserting the same URL twice gives the same document as once |
| Go2rtcManager.UpsertEmptyIsFresh | custom_components/ezviz_enhanced/go2rtc_manager.py:38-64 | an empty document and a missing file lead to the same registry |
| Go2rtcManager.FirstSuccess | custom_components/ezviz_enhanced/go2rtc_manager.py:149-220 | reference definition of a short-circuit chain: reports success exactly when some strategy succeeds; tries strategies in order and stops at the first success; tries all of them otherwise |
| Go2rtcManager.AddonPlan | custom_components/ezviz_enhanced/go2rtc_manager.py:153-160 | one add-on restart per id, in the listed order |
| Go2rtcManager.RestartAddons | custom_components/ezviz_enhanced/go2rtc_manager.py:160-187 | the add-on loop is the reference chain over the restarts when the restart service exists, and tries nothing otherwise |
| Go2rtcManager.Reload | custom_components/ezviz_enhanced/go2rtc_manager.py:149-220 | the reload is the reference chain over add-on restarts, then the config reload (200 or 204), then the streams probe (200); it returns True exactly when one of them would succeed |
| Go2rtcManager.AddStream | custom_components/ezviz_enhanced/go2rtc_manager.py:24-147 | returns the relay address exactly when the document is editable and the write succeeds. Then it writes the upserted document, always runs the reload chain, and records the address for the serial whatever the reload result. Otherwise it returns None and neither writes, reloads nor changes `_streams` |
| Go2rtcManager.RepeatedAddRewritesAndReloads | custom_components/ezviz_enhanced/go2rtc_manager.py:84-113 | adding the same URL a second time writes the identical document and reloads again; only the banner is skipped |
| Go2rtcManager.PyIn | custom_components/ezviz_enhanced/go2rtc_manager.py:254-255 | `in` on a mapping is key membership |
| Go2rtcManager.DeleteStream | custom_components/ezviz_enhanced/go2rtc_manager.py:254-256 | rewrites exactly when the document is editable and has the stream. Only that stream is removed; every other stream and top-level key is kept. When the stream is absent, nothing is written |
| Go2rtcManager.DeleteUndoesUpsert | custom_components/ezviz_enhanced/go2rtc_manager.py:254-256 | removing a freshly added stream restores the previous streams and top-level values |
| Go2rtcManager.RemoveStream | custom_components/ezviz_enhanced/go2rtc_manager.py:226-273 | an absent file returns True and changes nothing. Otherwise it returns False exactly when an `in` test raises, or `streams` is found in a document that is not a mapping, or the name is found in a `streams` value that is not a mapping, or the write fails; False changes nothing. The file is written only when the stream existed; True pops the serial from `_streams` |
| Coordinator.ChooseUrl | custom_components/ezviz_enhanced/coordinator.py:90-102 | a chosen URL is non-empty and is the HLS, FLV or cloud URL of the descriptor |
| Coordinator.ChooseUrlPriority | custom_components/ezviz_enhanced/coordinator.py:90-102 | the chosen URL is the first truthy one of HLS, FLV, cloud |
| Coordinator.MergeStream | custom_components/ezviz_enhanced/coordinator.py:84-119 | a merged record is online and holds the descriptor, with name, device type and enabled kept; only the camera's own `stream_urls` entry can change |
| Coordinator.ProcessCamera | custom_components/ezviz_enhanced/coordinator.py:59-130 | a camera without serial or disabled changes nothing. A processed one writes its own record, leaves every other record alone, and changes at most its own `stream_urls` entry |
| Coordinator.ProcessedRecord | custom_components/ezviz_enhanced/coordinator.py:60-128 | defaults are name "EZVIZ {serial}", channel 1 and type "camera". The record is online exactly when the resolver ran and answered, and is otherwise offline with no stream. It has a console URL exactly when an Open Platform client exists, even with `use_ieuopen` off |
| Coordinator.StreamUrlChoice | custom_components/ezviz_enhanced/coordinator.py:90-117 | with no URL, nothing changes. An HLS stream type stores the chosen URL as is. Any other type stores the converter's local address and starts a task. The record's stream URL equals the stored one |
| Coordinator.FailedResolutionKeepsUrl | custom_components/ezviz_enhanced/coordinator.py:80-123 | a failed or skipped resolution keeps `stream_urls` and the converter as they were |
| Coordinator.UpdateData | custom_components/ezviz_enhanced/coordinator.py:58-131 | an update pass only inserts or overwrites. The cameras become the old ones plus the processed serials. No stream URL is dropped. Cameras and URLs of serials no config processes are untouched |
| Coordinator.UpdateKeepsEnabled | custom_components/ezviz_enhanced/coordinator.py:63-75 | every record written by an update is enabled |
| Coordinator.ResolvedCandidateRouting | custom_components/ezviz_enhanced/coordinator.py:104-117 | with a descriptor from the resolver, an HLS candidate's address is stored directly and an FLV candidate's is replaced by the local RTSP address |
| Coordinator.ConvertingUpdate | custom_components/ezviz_enhanced/coordinator.py:110-117 | a camera update that converts leaves the converter as the as-written start on the chosen URL and stream type |
| Coordinator.TwoUpdatesOrphanFirstTask | custom_components/ezviz_enhanced/coordinator.py:110-117 | as written, two updates of one non-HLS camera followed by a stop leave the first update's task running and held by no serial |
| Coordinator.ProcessKeepsView | custom_components/ezviz_enhanced/coordinator.py:59-130 | the cameras and stream URLs a camera update writes depend only on the previous maps and the RTSP port, not on the tasks |
| Coordinator.ProcessCameraFixed | custom_components/ezviz_enhanced/coordinator.py:110-117 | corrected camera update: the same cameras and stream URLs as written, with the serial's old conversion cancelled before the new one starts |
| Coordinator.UpdateFixedSameView | custom_components/ezviz_enhanced/coordinator.py:58-131 | the corrected update pass writes the same cameras and stream URLs as the pass as written |
| Coordinator.ProcessFixedKeepsConversionsTracked | custom_components/ezviz_enhanced/coordinator.py:110-117 | with the corrected update, every running conversion task stays held by some serial |
| Coordinator.UpdateFixedKeepsConversionsTracked | custom_components/ezviz_enhanced/coordinator.py:58-131 | the same over a whole corrected update pass |
| Coordinator.GetCamera | custom_components/ezviz_enhanced/coordinator.py:145-147 | returns the record held for the serial, and None exactly when there is none |
| Coordinator.GetStreamUrl | custom_components/ezviz_enhanced/coordinator.py:149-151 | returns the stream URL held for the serial, and None exactly when there is none |
| Coordinator.StreamUrlMatchesRecord | custom_components/ezviz_enhanced/coordinator.py:104-117 | after a camera's stream was resolved, `async_get_stream_url` returns the stream URL its `async_get_camera` record carries |
| Coordinator.Cleanup | custom_components/ezviz_enhanced/coordinator.py:157-161 | stops the conversion of every serial that has a stream URL, cancelling exactly the tasks held for them, and keeps every other task |
| Camera.NewEntity | custom_components/ezviz_enhanced/camera.py:40-61 | missing keys default to name "EZVIZ {serial}", channel 1 and type "camera"; present values and the URLs are copied; no URL has been handed out yet |
| Camera.EntityFromRecord | custom_components/ezviz_enhanced/camera.py:53-59 | an entity built from a coordinator record has the record's name, channel, type, stream URL and console URL |
| Camera.SetupEntities | custom_components/ezviz_enhanced/camera.py:17-30 | every entity comes from an enabled camera (enabled by default), and every enabled camera gets an entity |
| Camera.SetupEntitiesOne | custom_components/ezviz_enhanced/camera.py:26-28 | one camera yields its entity when enabled and nothing otherwise |
| Camera.SetupEntitiesAppend | custom_components/ezviz_enhanced/camera.py:25-28 | setup over concatenated items is the concatenation of the setups, so entities follow the items' order, one per enabled item |
| Camera.SetupCoversRecords | custom_components/ezviz_enhanced/camera.py:26-28 | since the coordinator writes only enabled records, setup creates one entity per record |
| Camera.StreamSource | custom_components/ezviz_enhanced/camera.py:164-196 | a truthy fresh URL is returned and stored as last, HLS and stream URL. Otherwise the entity is unchanged and the result is a non-empty stored URL, or None exactly when none of the five is truthy |
| Camera.StreamSourcePriority | custom_components/ezviz_enhanced/camera.py:171-196 | the result is the first truthy of fresh, last, HLS, stream and RTSP URL |
| Camera.LastUrlSticks | custom_components/ezviz_enhanced/camera.py:171-182 | after a fresh URL was handed out, a later call without one returns it again |
| Camera.IsStreaming | custom_components/ezviz_enhanced/camera.py:110-113 | a truthy HLS or stream URL makes the entity streaming; an entity that is not streaming can only offer its last or RTSP URL as a source |
| Camera.StreamingAfterFreshSource | custom_components/ezviz_enhanced/camera.py:110-113 | an entity that has handed out a fresh URL is streaming |
| Camera.StreamingWithoutSource | custom_components/ezviz_enhanced/camera.py:110-113 | `is_streaming` tests for None, so an entity with an empty HLS URL is streaming yet has no source |
| Camera.CallGetStreamUrl | custom_components/ezviz_enhanced/coordinator.py:149-151 | the call raises TypeError exactly when a keyword is not a parameter besides the positional serial; otherwise it returns the coordinator's URL for the serial |
| Camera.StreamSourceAsWritten | custom_components/ezviz_enhanced/camera.py:169 | whenever the lookup returns, the result is the fallback chain on the coordinator's URL |
| Camera.StreamSourceAlwaysRaises | custom_components/ezviz_enhanced/camera.py:169 | as written, `stream_source` raises for every entity and coordinator state |
| Camera.StreamSourceFixed | custom_components/ezviz_enhanced/camera.py:164-196 | with the keyword dropped, it always returns the first truthy of the coordinator URL and the stored ones; a non-empty coordinator URL is returned and remembered |
| Camera.EntryPrefix | custom_components/ezviz_enhanced/camera.py:73 | the slice is the first eight characters of the entry id, or all of a shorter one |
| Camera.UniqueId | custom_components/ezviz_enhanced/camera.py:71-73 | the id is `ezviz_enhanced_camera_`, the entry prefix and `_`, followed by the serial, `_` and the channel as decimal text |
| Camera.UniqueIdSeparatesSerials | custom_components/ezviz_enhanced/camera.py:71-73 | in one entry, equal ids imply the same serial and the same channel text |
| Camera.ExtraStateAttributes | custom_components/ezviz_enhanced/camera.py:92-108 | the six base keys carry serial, channel, type and the three URLs; `rtsp_local_url` is present exactly when that URL is truthy, and then holds it |
| Camera.Refresh | custom_components/ezviz_enhanced/camera.py:204-217 | a found record replaces the five URL fields; name, channel, type and last URL are kept; nothing changes when no record is found |
| Camera.RefreshKeepsLastUrl | custom_components/ezviz_enhanced/camera.py:204-217 | a URL handed out before an update is still returned afterwards without a fresh one |
| Camera.RefreshFromCoordinator | custom_components/ezviz_enhanced/camera.py:209-215 | after an update the entity holds the coordinator record's stream URL, and is unchanged when the coordinator has no record |
| Camera.ImportNames | custom_components/ezviz_enhanced/camera.py:11 | an import succeeds exactly when every name is defined, and binds their values in order |
| Camera.CameraImportFails | custom_components/ezviz_enhanced/camera.py:11 | against const.py's attribute constants, camera.py's import fails |
| Camera.CameraImportSucceeds | custom_components/ezviz_enhanced/camera.py:11 | with the missing constant defined as `rtsp_local_url`, the import binds only keys the attribute code writes, the last being `rtsp_local_url` |

## Left out

- Network, files and processes. These are replaced by outcome inputs:
  - aiohttp sessions and their creation and closing;
  - JSON decoding;
  - YAML parsing and dumping;
  - the ffmpeg subprocess (`_run_ffmpeg`): a cancellation is recorded, the process ending is not;
  - `asyncio.sleep`;
  - executor jobs;
  - Home Assistant service calls.
- `async_camera_image`: it runs an external ffmpeg process to grab a frame.
- `EzvizApi`: it is a placeholder returning `[]`. Its device list, passed through the update result as `ezviz_devices`, is not modelled.
- `_authenticate_ezviz_cloud`: it reads `self.username`, which `EzvizOpenApi` never sets; the AttributeError is caught, so it always returns False.
- `async_get_devices`: the Open Platform device list is not used by the core.
- `async_get_hls_url`, `async_get_rtsp_url` and `async_get_cloud_url`: each reads one field of `GetStreamInfo`'s result.
- Coordinator.UpdateData: no modelled step of the update raises, so the `UpdateFailed` wrapper is not modelled.
- Coordinator.UpdateData: the update interval, a timing concern, is not modelled either.
- Coordinator.MergeStream: the `stream_type` default "hls_fluent" is never used, because every descriptor carries a stream type.
- Coordinator.MergeStream: the descriptor's other keys are kept as one `StreamInfo` value rather than as dictionary entries.
- OpenApi.LiveUrlParameters: the round trip is proved for ASCII serials only. Non-ASCII text is percent-encoded as UTF-8, but decoding is modelled for ASCII escapes only.
- Dictionary and YAML key order is not modelled: maps are unordered. Only the order of the two sources of a stream entry is stated.
- Go2rtcManager.AddStream: a write that fails part-way is modelled as no write at all.
- Go2rtcManager.RemoveStream: the same holds for its write.
- Go2rtcManager: `async_update_stream` is `async_add_stream` and is modelled by it. `is_available` always returns True.
- Go2rtcManager.GetRtspUrl is a plain lookup, stated through `AddStream` and `RemoveStream`. `get_all_streams` returns a copy of `_streams` and is not modelled separately.
- Go2rtcManager.Node: YAML floats and non-string mapping keys are not modelled.
- Camera: `name`, `supported_features`, `device_info` and `frontend_stream_type` return constants or fields.
- Camera: `async_will_remove_from_hass` forwards to the converter's stop, which `StreamConverter.StopConversion` models.
- Camera: `async_update`'s refresh request is modelled as the record passed to `Refresh`.
- Camera.NewEntity: a key present with the value None is treated like a missing key and gets the default, while `dict.get` would return None. The dictionaries are modelled with one `Option` per key.
- Coordinator.ProcessCamera: the same holds for the camera config; an `enabled: null` entry is processed in the model and skipped by the code.
- Camera.FromRecord: the coordinator never writes `rtsp_local_url`, so entities built from its records have none.

## Findings

| source | as written | input that shows it | evidently intended | confidence | as-written member | corrected member |
|---|---|---|---|---|---|---|
| custom_components/ezviz_enhanced/camera.py:169 | `stream_source` calls `async_get_stream_url(self.serial, force_refresh=False)`, but the method at coordinator.py:149 takes only `serial` | any call, for any entity and coordinator state: the binding raises TypeError before the lookup | call it with the serial only and apply the fallback chain to its answer | high; not executed | Camera.StreamSourceAlwaysRaises | Camera.StreamSourceFixed |
| custom_components/ezviz_enhanced/camera.py:11 | imports `ATTR_RTSP_LOCAL_URL`, which const.py does not define | importing the camera platform: ImportError | const.py defines `ATTR_RTSP_LOCAL_URL = "rtsp_local_url"`, the key the constructor reads | high; not executed | Camera.CameraImportFails | Camera.CameraImportSucceeds |
| custom_components/ezviz_enhanced/api.py:297-298 | `start_rtsp_conversion` stores the new task under the serial without cancelling the one already there; `stop_rtsp_conversion` cancels only the stored task | a non-HLS camera updated twice (coordinator.py:112 starts a conversion on every update), then stopped: the first ffmpeg task keeps running and nothing holds it | cancel the serial's earlier task before storing the new one | medium; not executed | Coordinator.TwoUpdatesOrphanFirstTask | Coordinator.UpdateFixedKeepsConversionsTracked |
