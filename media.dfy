/**
 * The media-engine adapter: the audio-only codec list, the per-room router cache
 * and the shaping of WebRTC transport parameters. Engine objects are reduced to
 * records carrying their engine-assigned ids.
 */
module Media {
  import opened Wrappers

  datatype MediaKind = Audio | Video

  /** One router codec capability. */
  datatype Codec = Codec(kind: MediaKind, mimeType: string, clockRate: nat, channels: nat,
                         preferredPayloadType: nat, useinbandfec: nat, minptime: nat)

  /** The codecs every router is created with: Opus only. */
  const MediaCodecs: seq<Codec> := [Codec(Audio, "audio/opus", 48000, 2, 111, 1, 10)]

  /** The configuration is audio-only: stereo Opus at 48 kHz. */
  lemma MediaCodecsAudioOnly()
    ensures |MediaCodecs| == 1
    ensures forall c :: c in MediaCodecs ==>
      c.kind == Audio && c.mimeType == "audio/opus" && c.clockRate == 48000 && c.channels == 2
  {
  }

  datatype Router = Router(id: string, codecs: seq<Codec>)

  datatype ListenIp = ListenIp(ip: string, announcedIp: string)

  datatype TransportOptions = TransportOptions(listenIps: seq<ListenIp>, enableUdp: bool, enableTcp: bool, preferUdp: bool)

  /** A WebRTC transport handle; `connected` records a completed `transport.connect`. */
  datatype Transport = Transport(id: string, routerId: string, options: TransportOptions, connected: bool)

  /** The connection parameters returned to the client; ICE and DTLS values stay with the engine. */
  datatype TransportParams = TransportParams(id: string)

  /** A producer handle and the socket and transport it came from. */
  datatype Producer = Producer(id: string, kind: MediaKind, transportId: string, socketId: string)

  /** A consumer handle, created paused, and the socket that asked for it. */
  datatype Consumer = Consumer(id: string, producerId: string, transportId: string, socketId: string,
                               kind: MediaKind, paused: bool)

  const DefaultAnnouncedIp: string := "127.0.0.1"

  /** `process.env.MEDIASOUP_ANNOUNCED_IP || '127.0.0.1'`. */
  function AnnouncedIp(env: Option<string>): (ip: string)
    ensures env.None? || env.value == "" ==> ip == DefaultAnnouncedIp
    ensures env.Some? && env.value != "" ==> ip == env.value
  {
    if env.Some? && env.value != "" then env.value else DefaultAnnouncedIp
  }

  /**
   * `createWebRtcTransport(router)`: the transport the engine creates (with the
   * engine-assigned id `engineId`) and the parameters handed back to the client.
   */
  function CreateWebRtcTransport(router: Router, engineId: string, env: Option<string>): (r: (Transport, TransportParams))
    ensures r.1.id == r.0.id == engineId
    ensures r.0.routerId == router.id && !r.0.connected
    ensures r.0.options.listenIps == [ListenIp("0.0.0.0", AnnouncedIp(env))]
    ensures r.0.options.enableUdp && r.0.options.enableTcp && r.0.options.preferUdp
  {
    var t := Transport(engineId, router.id,
                       TransportOptions([ListenIp("0.0.0.0", AnnouncedIp(env))], true, true, true), false);
    (t, TransportParams(t.id))
  }

  /**
   * What `getRouter(roomId)` yields in a given service state: an error without a
   * worker, the cached router when there is one, else a new router with `freshId`.
   */
  function RouterFor(workerStarted: bool, routers: map<string, Router>, roomId: string, freshId: string): (r: Result<Router, string>)
    ensures !workerStarted <==> r.Err?
    ensures workerStarted && roomId in routers ==> r == Ok(routers[roomId])
    ensures workerStarted && roomId !in routers ==> r == Ok(Router(freshId, MediaCodecs))
  {
    if !workerStarted then Err("Mediasoup worker not initialized")
    else if roomId in routers then Ok(routers[roomId])
    else Ok(Router(freshId, MediaCodecs))
  }

  /**
   * The router cache after `getRouter(roomId)`: without a worker nothing is stored,
   * a cached room keeps its router, and an uncached room gains a new one.
   */
  function RoutersAfter(workerStarted: bool, routers: map<string, Router>, roomId: string, freshId: string): (r: map<string, Router>)
    ensures !workerStarted ==> r == routers
    ensures workerStarted ==> r.Keys == routers.Keys + {roomId}
    ensures forall k :: k in routers ==> k in r && r[k] == routers[k]
    ensures RouterFor(workerStarted, routers, roomId, freshId).Ok? ==> r[roomId] == RouterFor(workerStarted, routers, roomId, freshId).value
  {
    if workerStarted && roomId !in routers then routers[roomId := Router(freshId, MediaCodecs)] else routers
  }

  /** Every cached router carries the configured codec list. */
  predicate AllOpus(routers: map<string, Router>)
  {
    forall k :: k in routers ==> routers[k].codecs == MediaCodecs
  }

  /** `getRouter` only ever creates routers with the configured codecs, so the cache keeps that property. */
  lemma RoutersAfterKeepsCodecs(workerStarted: bool, routers: map<string, Router>, roomId: string, freshId: string)
    requires AllOpus(routers)
    ensures AllOpus(RoutersAfter(workerStarted, routers, roomId, freshId))
    ensures RouterFor(workerStarted, routers, roomId, freshId).Ok? ==>
      RouterFor(workerStarted, routers, roomId, freshId).value.codecs == MediaCodecs
  {
  }

  /**
   * The cache makes `getRouter` stable: asking again for the same room, with any
   * fresh id, yields the router the first call returned and stores nothing new.
   */
  lemma RouterCached(workerStarted: bool, routers: map<string, Router>, roomId: string, freshId: string, laterId: string)
    ensures var after := RoutersAfter(workerStarted, routers, roomId, freshId);
      && RouterFor(workerStarted, after, roomId, laterId) == RouterFor(workerStarted, routers, roomId, freshId)
      && RoutersAfter(workerStarted, after, roomId, laterId) == after
  {
  }

  /** `MediasoupService`: one worker and a router per room. */
  class MediaService {
    var workerStarted: bool
    var routers: map<string, Router>

    /** The worker starts asynchronously: right after construction there is none. */
    constructor()
      ensures !workerStarted && routers == map[]
      ensures AllOpus(routers)
    {
      workerStarted := false;
      routers := map[];
    }

    /** `startWorker`: the worker field is set only when the engine created one. */
    method StartWorker(created: bool)
      modifies this`workerStarted
      ensures workerStarted == (old(workerStarted) || created)
    {
      if created {
        workerStarted := true;
      }
    }

    /** `getRouter(roomId)`: get-or-create on the router cache; entries are never removed. */
    method GetRouter(roomId: string, freshId: string) returns (r: Result<Router, string>)
      modifies this`routers
      ensures r == RouterFor(workerStarted, old(routers), roomId, freshId)
      ensures routers == RoutersAfter(workerStarted, old(routers), roomId, freshId)
      ensures AllOpus(old(routers)) ==> AllOpus(routers)
      ensures r.Ok? ==> roomId in routers && routers[roomId] == r.value
    {
      if !workerStarted {
        return Err("Mediasoup worker not initialized");
      }
      if roomId in routers {
        return Ok(routers[roomId]);
      }
      var router := Router(freshId, MediaCodecs);
      routers := routers[roomId := router];
      r := Ok(router);
    }
  }
}
