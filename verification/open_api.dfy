/** The EZVIZ Open Platform client (`EzvizOpenApi` in api.py): lazy
    authentication, the ordered search for a live stream address, and the
    developer-console live URL. HTTP exchanges are replaced by the replies
    they would produce, given as inputs. */
module OpenApi {
  import opened Common
  import UrlEncoding

  const LiveConsoleUrl: string := "https://ieuopen.ezviz.com/console/setnormallive.html"

  /** Validity, in seconds, requested for every stream address. */
  const ExpireTime: string := "3600"

  /** One (protocol, quality) combination to ask the platform for. */
  datatype Candidate = Candidate(protocol: string, quality: string, name: string)

  /** The fixed preference order: HLS fluent, HLS HD, FLV fluent, FLV HD. */
  const Candidates: seq<Candidate> := [
    Candidate("2", "2", "hls_fluent"),
    Candidate("2", "1", "hls_hd"),
    Candidate("4", "2", "flv_fluent"),
    Candidate("4", "1", "flv_hd")
  ]

  /** Credentials and the token held by one client. */
  datatype Client = Client(appKey: Option<string>, appSecret: Option<string>, accessToken: Option<string>)

  /** What the token endpoint answered: an HTTP status with the JSON `code`
      and `data.accessToken`, or an exception (network, JSON decoding). */
  datatype AuthReply = AuthResp(httpStatus: int, code: string, token: Option<string>) | AuthRaised

  /** `ok` is the boolean returned; `posted` says whether a request was sent. */
  datatype Auth = Auth(ok: bool, client: Client, posted: bool)

  predicate HasCredentials(c: Client) {
    Truthy(c.appKey) && Truthy(c.appSecret)
  }

  predicate HasToken(c: Client) {
    Truthy(c.accessToken)
  }

  /** `async_authenticate`: needs both key and secret, and stores the token
      only when the platform answers HTTP 200 with code "200". */
  function Authenticate(c: Client, reply: AuthReply): (a: Auth)
    ensures !HasCredentials(c) ==> !a.ok && !a.posted && a.client == c
    ensures a.posted <==> HasCredentials(c)
    ensures a.ok <==> HasCredentials(c) && reply.AuthResp? && reply.httpStatus == 200 && reply.code == "200"
    ensures a.ok ==> a.client == c.(accessToken := reply.token)
    ensures !a.ok ==> a.client == c
    ensures a.client.appKey == c.appKey && a.client.appSecret == c.appSecret
  {
    if !HasCredentials(c) then Auth(false, c, false)
    else
      match reply
      case AuthRaised => Auth(false, c, true)
      case AuthResp(status, code, token) =>
        if status == 200 && code == "200" then Auth(true, c.(accessToken := token), true)
        else Auth(false, c, true)
  }

  /** The form sent to the live-address endpoint for one candidate. */
  datatype Request = Request(
    accessToken: string, deviceSerial: string, channelNo: string,
    protocol: string, quality: string, expireTime: string)

  /** The live-address endpoint's answer: HTTP status, JSON `code`,
      `data.url` and `data.expireTime`; or an exception. */
  datatype Reply = Resp(httpStatus: int, code: string, url: Option<string>, expire: Option<string>) | Raised

  /** The descriptor returned for a working candidate. */
  datatype StreamInfo = StreamInfo(
    serial: string, channel: int, status: string, streamType: string,
    hlsUrl: Option<string>, flvUrl: Option<string>, rtspUrl: Option<string>,
    cloudUrl: string, expireTime: Option<string>, protocol: string, quality: string)

  /** A reply that ends the search with a descriptor. */
  predicate Accepted(r: Reply) {
    r.Resp? && r.httpStatus == 200 && r.code == "200" && Truthy(r.url)
  }

  /** A reply after which the next candidate is tried. */
  predicate Skipped(r: Reply) {
    r.Resp? && !Accepted(r)
  }

  function RequestFor(token: string, serial: string, channel: int, c: Candidate): Request {
    Request(token, serial, IntToString(channel), c.protocol, c.quality, ExpireTime)
  }

  function Describe(serial: string, channel: int, c: Candidate, url: string, expire: Option<string>): (d: StreamInfo)
    ensures d.cloudUrl == url && d.rtspUrl.None? && d.status == "online"
    ensures d.hlsUrl == (if Contains(c.name, "hls") then Some(url) else None)
    ensures d.flvUrl == (if Contains(c.name, "flv") then Some(url) else None)
    ensures d.streamType == c.name && d.protocol == c.protocol && d.quality == c.quality
  {
    StreamInfo(serial, channel, "online", c.name,
      if Contains(c.name, "hls") then Some(url) else None,
      if Contains(c.name, "flv") then Some(url) else None,
      None, url, expire, c.protocol, c.quality)
  }

  /** Outcome of the search: the descriptor (None for `{}`) and the requests
      issued, in order. */
  datatype Search = Search(info: Option<StreamInfo>, requests: seq<Request>)

  /** All replies before position `n` sent the search on to the next candidate. */
  predicate SkippedBefore(replies: seq<Reply>, n: int) {
    forall j :: 0 <= j < n && j < |replies| ==> Skipped(replies[j])
  }

  /** The candidate loop of `async_get_stream_info`. `replies[i]` is what the
      platform does with the request for `cands[i]`. There is no `try` per
      candidate: an exception ends the whole search with `{}`. */
  function TryCandidates(token: string, serial: string, channel: int, cands: seq<Candidate>, replies: seq<Reply>): (s: Search)
    requires |replies| == |cands|
    ensures 0 < |s.requests| <= |cands| || (cands == [] && s.requests == [])
    ensures forall i :: 0 <= i < |s.requests| ==> s.requests[i] == RequestFor(token, serial, channel, cands[i])
    ensures SkippedBefore(replies, |s.requests| - 1)
    ensures s.info.Some? <==> |s.requests| > 0 && Accepted(replies[|s.requests| - 1])
    ensures s.info.Some? ==>
      var k := |s.requests| - 1;
      s.info.value == Describe(serial, channel, cands[k], replies[k].url.value, replies[k].expire)
    ensures s.info.None? ==>
      (|s.requests| == |cands| && SkippedBefore(replies, |cands|))
      || (|s.requests| > 0 && replies[|s.requests| - 1].Raised?)
  {
    if cands == [] then Search(None, [])
    else
      var req := RequestFor(token, serial, channel, cands[0]);
      match replies[0]
      case Raised => Search(None, [req])
      case Resp(status, code, url, expire) =>
        if Accepted(replies[0]) then Search(Some(Describe(serial, channel, cands[0], url.value, expire)), [req])
        else
          var rest := TryCandidates(token, serial, channel, cands[1..], replies[1..]);
          Search(rest.info, [req] + rest.requests)
  }

  /** Result of `async_get_stream_info` together with the client afterwards
      (authentication may have stored a token). */
  datatype Lookup = Lookup(info: Option<StreamInfo>, client: Client, authenticated: bool, requests: seq<Request>)

  /** `async_get_stream_info`: authenticate when no token is held, give up
      with `{}` when there still is none, else search the candidates. */
  function GetStreamInfo(c: Client, serial: string, channel: int, auth: AuthReply, replies: seq<Reply>): (r: Lookup)
    requires |replies| == |Candidates|
    ensures r.authenticated <==> !HasToken(c)
    ensures r.client == (if HasToken(c) then c else Authenticate(c, auth).client)
    ensures !HasToken(r.client) ==> r.info.None? && r.requests == []
    ensures HasToken(r.client) ==> 0 < |r.requests| <= |Candidates|
    ensures forall i :: 0 <= i < |r.requests| ==>
      r.requests[i] == RequestFor(r.client.accessToken.value, serial, channel, Candidates[i])
    ensures r.info.Some? ==> Accepted(replies[|r.requests| - 1]) && SkippedBefore(replies, |r.requests| - 1)
    ensures HasToken(r.client) ==>
      var s := TryCandidates(r.client.accessToken.value, serial, channel, Candidates, replies);
      r.info == s.info && r.requests == s.requests
  {
    var c' := if HasToken(c) then c else Authenticate(c, auth).client;
    if !HasToken(c') then Lookup(None, c', !HasToken(c), [])
    else
      var s := TryCandidates(c'.accessToken.value, serial, channel, Candidates, replies);
      Lookup(s.info, c', !HasToken(c), s.requests)
  }

  /** The candidate order and every request's fixed fields. */
  lemma CandidateOrder()
    ensures |Candidates| == 4
    ensures Candidates[0] == Candidate("2", "2", "hls_fluent")
    ensures Candidates[1] == Candidate("2", "1", "hls_hd")
    ensures Candidates[2] == Candidate("4", "2", "flv_fluent")
    ensures Candidates[3] == Candidate("4", "1", "flv_hd")
  {
  }

  lemma {:induction false} CandidateKinds(i: nat)
    requires i < |Candidates|
    ensures i < 2 ==> Contains(Candidates[i].name, "hls") && !Contains(Candidates[i].name, "flv")
    ensures i >= 2 ==> Contains(Candidates[i].name, "flv") && !Contains(Candidates[i].name, "hls")
    ensures StartsWith(Candidates[i].name, "hls") <==> i < 2
  {
    var n := Candidates[i].name;
    if i < 2 {
      assert StartsWith(n, "hls");
      StartsWithContains(n, "hls");
      NotContainsTriple(n, "flv", 0);
    } else {
      assert StartsWith(n, "flv");
      StartsWithContains(n, "flv");
      NotContainsTriple(n, "hls", 0);
    }
  }

  /** Every descriptor the resolver builds carries exactly one of an HLS and
      an FLV address, and it is the cloud address. */
  lemma ExactlyOneKind(serial: string, channel: int, i: nat, url: string, expire: Option<string>)
    requires i < |Candidates|
    ensures var d := Describe(serial, channel, Candidates[i], url, expire);
      (d.hlsUrl.Some? != d.flvUrl.Some?)
      && (d.hlsUrl.Some? ==> d.hlsUrl.value == d.cloudUrl)
      && (d.flvUrl.Some? ==> d.flvUrl.value == d.cloudUrl)
      && (d.hlsUrl.Some? <==> StartsWith(d.streamType, "hls"))
  {
    CandidateKinds(i);
  }

  /** First match: when the first `k` candidates are skipped and candidate
      `k` is accepted, the search returns candidate `k` and requests nothing
      after it. */
  lemma {:induction false} FirstAcceptedWins(token: string, serial: string, channel: int, cands: seq<Candidate>, replies: seq<Reply>, k: nat)
    requires |replies| == |cands| && k < |cands|
    requires SkippedBefore(replies, k) && Accepted(replies[k])
    ensures var s := TryCandidates(token, serial, channel, cands, replies);
      |s.requests| == k + 1
      && s.info == Some(Describe(serial, channel, cands[k], replies[k].url.value, replies[k].expire))
  {
    if k > 0 {
      FirstAcceptedWins(token, serial, channel, cands[1..], replies[1..], k - 1);
    }
  }

  /** An exception at candidate `k` ends the search with `{}`: the later
      candidates are never requested, even if they would have worked. */
  lemma {:induction false} RaisedAborts(token: string, serial: string, channel: int, cands: seq<Candidate>, replies: seq<Reply>, k: nat)
    requires |replies| == |cands| && k < |cands|
    requires SkippedBefore(replies, k) && replies[k].Raised?
    ensures var s := TryCandidates(token, serial, channel, cands, replies);
      s.info.None? && |s.requests| == k + 1
  {
    if k > 0 {
      RaisedAborts(token, serial, channel, cands[1..], replies[1..], k - 1);
    }
  }

  /** When every candidate is skipped, all four are requested and the result
      is `{}`. */
  lemma {:induction false} AllSkipped(token: string, serial: string, channel: int, cands: seq<Candidate>, replies: seq<Reply>)
    requires |replies| == |cands|
    requires SkippedBefore(replies, |cands|)
    ensures var s := TryCandidates(token, serial, channel, cands, replies);
      s.info.None? && |s.requests| == |cands|
  {
    if cands != [] {
      AllSkipped(token, serial, channel, cands[1..], replies[1..]);
    }
  }

  /** `get_live_url`: the developer-console address with `serial`,
      `channelNo` and `addressType` form-encoded in that order. */
  function LiveUrl(serial: string, channel: int, addressType: int): (url: string)
    ensures StartsWith(url, LiveConsoleUrl + "?")
  {
    LiveConsoleUrl + "?" + UrlEncoding.UrlEncode(LiveParams(serial, channel, addressType))
  }

  lemma IntToStringAscii(i: int)
    ensures UrlEncoding.IsAscii(IntToString(i))
  {
  }

  /** The query parameters of the live URL, in insertion order: serial,
      channelNo and addressType, the numbers as decimal text. */
  function LiveParams(serial: string, channel: int, addressType: int): seq<(string, string)> {
    [("serial", serial), ("channelNo", IntToString(channel)), ("addressType", IntToString(addressType))]
  }

  lemma LiveUrlQuery(serial: string, channel: int, addressType: int)
    ensures LiveUrl(serial, channel, addressType)[|LiveConsoleUrl| + 1..]
      == UrlEncoding.UrlEncode(LiveParams(serial, channel, addressType))
  {
    var q := UrlEncoding.UrlEncode(LiveParams(serial, channel, addressType));
    assert LiveUrl(serial, channel, addressType) == (LiveConsoleUrl + "?") + q;
  }

  lemma LiveParamsAscii(serial: string, channel: int, addressType: int)
    requires UrlEncoding.IsAscii(serial)
    ensures UrlEncoding.AsciiParams(LiveParams(serial, channel, addressType))
  {
    IntToStringAscii(channel);
    IntToStringAscii(addressType);
    assert UrlEncoding.IsAscii("serial") && UrlEncoding.IsAscii("channelNo") && UrlEncoding.IsAscii("addressType");
  }

  /** The live URL's query reads back as exactly the three parameters, in
      order, for any ASCII serial. */
  lemma LiveUrlParameters(serial: string, channel: int, addressType: int)
    requires UrlEncoding.IsAscii(serial)
    ensures var q := LiveUrl(serial, channel, addressType)[|LiveConsoleUrl| + 1..];
      UrlEncoding.ParseQuery(q) == LiveParams(serial, channel, addressType)
  {
    LiveParamsAscii(serial, channel, addressType);
    UrlEncoding.UrlEncodeRoundTrip(LiveParams(serial, channel, addressType));
    LiveUrlQuery(serial, channel, addressType);
  }
}
