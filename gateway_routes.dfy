/** The gateway's routes and response enrichment
    (services/api-gateway/src/routes.ts).

    Three prefixes are proxied to three backends. `/auth` is public;
    `/videos` and `/favorites` pass through the authentication middleware
    first. Only `/videos` handles the backend's response itself
    (`onProxyRes`): a 200 answer to a `/search` or `/list` path, for a
    request with a user id, is buffered, parsed, and every video in it is
    stamped with `isFavorited`, whether its id is among the user's favorites.

    The backends, the favorites lookup, `JSON.parse` and `JSON.stringify`
    are parameters. */
module GatewayRoutes {
  import opened Wrappers
  import opened Json
  import Text
  import Http
  import GatewayAuth

  // ---------------------------------------------------------------------
  // The favorites lookup

  datatype Favorite = Favorite(id: int, userId: int, videoId: string, createdAt: string)

  /** `getFavoritesByUserId`: the user's favorites, or a rejection (non-200
      status, unreadable body, transport failure). */
  datatype FavoritesReply = FavoritesOk(favorites: seq<Favorite>) | FavoritesFailed

  type FavoritesLookup = int -> FavoritesReply

  /** `new Set(userFavorites.map((fav) => fav.videoId))`. */
  function FavoriteIds(favorites: seq<Favorite>): (ids: set<string>)
    ensures forall v :: v in ids <==> exists i :: 0 <= i < |favorites| && favorites[i].videoId == v
  {
    set i | 0 <= i < |favorites| :: favorites[i].videoId
  }

  // ---------------------------------------------------------------------
  // Enrichment of one response body

  /** `video.id?.videoId || video.id`: the nested `videoId` when it is truthy,
      the `id` itself otherwise (None is `undefined`). */
  function ItemKey(video: Json): Option<Json>
    requires video != JNull
  {
    var id := Prop(video, "id");
    var nested := OptProp(id, "videoId");
    if TruthyOpt(nested) then nested else id
  }

  /** `favoritedVideoIds.has(key)`: the set holds strings only. */
  predicate IsFavorited(video: Json, ids: set<string>)
    requires video != JNull
  {
    match ItemKey(video)
    case Some(JStr(s)) => s in ids
    case _ => false
  }

  /** `({ ...video, isFavorited: ... })`. */
  function EnrichItem(video: Json, ids: set<string>): Json
    requires video != JNull
  {
    JObj(SetField(Spread(video), "isFavorited", JBool(IsFavorited(video, ids))))
  }

  /** `videos.map(...)`: None when an element is `null`, where reading
      `video.id` throws. */
  function EnrichVideos(videos: seq<Json>, ids: set<string>): Option<seq<Json>> {
    if JNull in videos then None
    else Some(seq(|videos|, i requires 0 <= i < |videos| => EnrichItem(videos[i], ids)))
  }

  datatype ProxyOutcome = PassThrough | Enriched(videos: seq<Json>) | EnrichmentFailed

  /** What `onProxyRes` does, and the user ids it asked the favorites
      service about. */
  datatype ProxyResult = ProxyResult(outcome: ProxyOutcome, favoritesCalls: seq<int>)

  const EnrichmentError := "Error processing video data"

  /** The guard of routes.ts:32-35: a 200 from the backend for a mounted path
      starting with `/search` or `/list`. */
  predicate Enrichable(status: int, path: string) {
    status == 200 && (Text.StartsWith(path, "/search") || Text.StartsWith(path, "/list"))
  }

  /** `req.user?.id` tested for truthiness: there is a user and its id is
      not 0. */
  predicate HasUserId(user: Option<GatewayAuth.User>) {
    user.Some? && user.value.id != 0
  }

  /** `onProxyRes` as a decision over the whole upstream body. */
  function ProxyRes(status: int, path: string, user: Option<GatewayAuth.User>, body: string,
                    parse: string -> Option<Json>, favorites: FavoritesLookup): ProxyResult
  {
    if !Enrichable(status, path) || !HasUserId(user) then ProxyResult(PassThrough, [])
    else
      var userId := user.value.id;
      match parse(body)
      case None => ProxyResult(EnrichmentFailed, [])
      case Some(videos) =>
        match favorites(userId)
        case FavoritesFailed => ProxyResult(EnrichmentFailed, [userId])
        case FavoritesOk(favs) =>
          if !videos.JArr? then ProxyResult(EnrichmentFailed, [userId])
          else
            match EnrichVideos(videos.items, FavoriteIds(favs))
            case None => ProxyResult(EnrichmentFailed, [userId])
            case Some(enriched) => ProxyResult(Enriched(enriched), [userId])
  }

  // ---------------------------------------------------------------------
  // Properties of the enrichment

  /** Enrichment keeps the length and order of the array, and stamps each
      element from the same favorites set. */
  lemma EnrichVideosShape(videos: seq<Json>, ids: set<string>)
    ensures EnrichVideos(videos, ids).Some? <==> forall i :: 0 <= i < |videos| ==> videos[i] != JNull
    ensures EnrichVideos(videos, ids).Some? ==>
      var out := EnrichVideos(videos, ids).value;
      |out| == |videos| && forall i :: 0 <= i < |videos| ==> out[i] == EnrichItem(videos[i], ids)
  {
  }

  /** An enriched object keeps every field it had, with its value, except
      `isFavorited`, which it gains or which is overwritten, and which is true
      exactly when the item's key is the video id of one of the favorites. */
  lemma EnrichItemFields(fields: seq<(string, Json)>, favorites: seq<Favorite>)
    ensures var video := JObj(fields);
      var out := EnrichItem(video, FavoriteIds(favorites)).fields;
      && (forall k :: k != "isFavorited" ==> Lookup(out, k) == Lookup(fields, k))
      && Lookup(out, "isFavorited") == Some(JBool(IsFavorited(video, FavoriteIds(favorites))))
      && (IsFavorited(video, FavoriteIds(favorites)) <==>
            exists i :: 0 <= i < |favorites| && ItemKey(video) == Some(JStr(favorites[i].videoId)))
  {
  }

  /** The key: a string id is its own key; an object id `{videoId: v}` with a
      non-empty string `v` has key `v`. */
  lemma ItemKeyCases(fields: seq<(string, Json)>, id: string, v: string)
    ensures Lookup(fields, "id") == Some(JStr(id)) ==> ItemKey(JObj(fields)) == Some(JStr(id))
    ensures Lookup(fields, "id") == Some(JObj([("videoId", JStr(v))])) && v != "" ==>
      ItemKey(JObj(fields)) == Some(JStr(v))
  {
  }

  /** A video `{id: s}` becomes `{id: s, isFavorited: s in ids}`. */
  lemma EnrichStringId(id: string, ids: set<string>)
    ensures EnrichItem(JObj([("id", JStr(id))]), ids) == JObj([("id", JStr(id)), ("isFavorited", JBool(id in ids))])
  {
    assert ItemKey(JObj([("id", JStr(id))])) == Some(JStr(id));
    assert "id" != "isFavorited";
  }

  /** The example of three videos `A`, `B`, `C` with `B` the only favorite:
      only `B` is stamped true. */
  lemma EnrichExample(f: Favorite)
    requires f.videoId == "B"
    ensures EnrichVideos([JObj([("id", JStr("A"))]), JObj([("id", JStr("B"))]), JObj([("id", JStr("C"))])],
                         FavoriteIds([f]))
      == Some([JObj([("id", JStr("A")), ("isFavorited", JBool(false))]),
               JObj([("id", JStr("B")), ("isFavorited", JBool(true))]),
               JObj([("id", JStr("C")), ("isFavorited", JBool(false))])])
  {
    var ids := FavoriteIds([f]);
    assert [f][0].videoId == "B";
    assert "B" in ids && "A" !in ids && "C" !in ids;
    EnrichStringId("A", ids);
    EnrichStringId("B", ids);
    EnrichStringId("C", ids);
    EnrichThree(JObj([("id", JStr("A"))]), JObj([("id", JStr("B"))]), JObj([("id", JStr("C"))]), ids);
  }

  lemma EnrichThree(a: Json, b: Json, c: Json, ids: set<string>)
    requires a != JNull && b != JNull && c != JNull
    ensures EnrichVideos([a, b, c], ids) == Some([EnrichItem(a, ids), EnrichItem(b, ids), EnrichItem(c, ids)])
  {
    var vs := [a, b, c];
    assert JNull !in vs;
    var r := EnrichVideos(vs, ids).value;
    assert |r| == 3 && r[0] == EnrichItem(a, ids) && r[1] == EnrichItem(b, ids) && r[2] == EnrichItem(c, ids);
    assert r == [EnrichItem(a, ids), EnrichItem(b, ids), EnrichItem(c, ids)];
  }

  /** The outcomes of `onProxyRes`. The body passes through untouched, with
      no favorites lookup, unless the response is an enrichable 200 for a
      user with an id. Otherwise the favorites service is asked at most once,
      about that user only, and the result is either the enriched array or
      the error, never the original body. */
  lemma ProxyResOutcomes(status: int, path: string, user: Option<GatewayAuth.User>, body: string,
                         parse: string -> Option<Json>, favorites: FavoritesLookup)
    ensures var r := ProxyRes(status, path, user, body, parse, favorites);
      && (r.outcome == PassThrough <==> !Enrichable(status, path) || !HasUserId(user))
      && (r.outcome == PassThrough ==> r.favoritesCalls == [])
      && (r.outcome != PassThrough ==> r.favoritesCalls == [] || r.favoritesCalls == [user.value.id])
      && (r.favoritesCalls != [] <==> r.outcome != PassThrough && parse(body).Some?)
      && (r.outcome.Enriched? <==>
            && Enrichable(status, path) && HasUserId(user)
            && parse(body).Some? && parse(body).value.JArr?
            && favorites(user.value.id).FavoritesOk?
            && EnrichVideos(parse(body).value.items, FavoriteIds(favorites(user.value.id).favorites)).Some?)
      && (r.outcome.Enriched? ==>
            r.outcome.videos
            == EnrichVideos(parse(body).value.items, FavoriteIds(favorites(user.value.id).favorites)).value)
  {
  }

  // ---------------------------------------------------------------------
  // onProxyRes, event by event

  /** The text of the chunks, in order. */
  function Concat(chunks: seq<string>): string {
    if chunks == [] then "" else Concat(chunks[..|chunks| - 1]) + chunks[|chunks| - 1]
  }

  /** `proxyRes.pipe(res)`: every chunk written, then the response ended. */
  method Pipe(chunks: seq<string>, res: Http.ServerResponse)
    modifies res
    ensures res.body == old(res.body) + Concat(chunks) && res.ended
    ensures res.statusCode == old(res.statusCode) && res.contentType == old(res.contentType)
  {
    var i := 0;
    while i < |chunks|
      invariant 0 <= i <= |chunks|
      invariant res.body == old(res.body) + Concat(chunks[..i])
      invariant res.statusCode == old(res.statusCode) && res.contentType == old(res.contentType)
    {
      res.Write(chunks[i]);
      assert chunks[..i + 1][..i] == chunks[..i];
      i := i + 1;
    }
    assert chunks[..i] == chunks;
    res.End("");
  }

  /** `onProxyRes(proxyRes, req, res)`, with the upstream body arriving as
      `chunks`. The response written is the one `ProxyRes` decides on. */
  method OnProxyRes(status: int, path: string, user: Option<GatewayAuth.User>, chunks: seq<string>,
                    res: Http.ServerResponse, parse: string -> Option<Json>,
                    favorites: FavoritesLookup, stringify: Json -> string)
    returns (favoritesCalls: seq<int>)
    modifies res
    ensures var r := ProxyRes(status, path, user, Concat(chunks), parse, favorites);
      && favoritesCalls == r.favoritesCalls
      && res.ended
      && (r.outcome == PassThrough ==>
            && res.body == old(res.body) + Concat(chunks)
            && res.statusCode == old(res.statusCode) && res.contentType == old(res.contentType))
      && (r.outcome.Enriched? ==>
            && res.body == old(res.body) + stringify(JArr(r.outcome.videos))
            && res.statusCode == old(res.statusCode) && res.contentType == Some("application/json"))
      && (r.outcome == EnrichmentFailed ==>
            && res.body == old(res.body) + stringify(Http.MessageBody(EnrichmentError))
            && res.statusCode == 500 && res.contentType == Some(Http.JsonContentType))
  {
    favoritesCalls := [];
    if !(status == 200 && (Text.StartsWith(path, "/search") || Text.StartsWith(path, "/list"))) {
      Pipe(chunks, res);
      return;
    }
    if user.None? || user.value.id == 0 {
      Pipe(chunks, res);
      return;
    }
    var userId := user.value.id;
    var body := "";
    var i := 0;
    while i < |chunks|
      invariant 0 <= i <= |chunks|
      invariant body == Concat(chunks[..i])
    {
      body := body + chunks[i];
      assert chunks[..i + 1][..i] == chunks[..i];
      i := i + 1;
    }
    assert chunks[..i] == chunks;
    var videos := parse(body);
    if videos.None? {
      res.SendJson(500, Http.MessageBody(EnrichmentError), stringify);
      return;
    }
    favoritesCalls := [userId];
    var userFavorites := favorites(userId);
    if userFavorites.FavoritesFailed? || !videos.value.JArr? {
      res.SendJson(500, Http.MessageBody(EnrichmentError), stringify);
      return;
    }
    var enriched := EnrichVideos(videos.value.items, FavoriteIds(userFavorites.favorites));
    if enriched.None? {
      res.SendJson(500, Http.MessageBody(EnrichmentError), stringify);
      return;
    }
    res.SetContentType("application/json");
    res.End(stringify(JArr(enriched.value)));
  }

  /** The route sets `selfHandleResponse`, so the proxy copies neither the
      upstream status nor the upstream headers, and a pass-through only
      streams the body. On a fresh response an upstream error therefore
      reaches the client as the default 200. */
  method UpstreamErrorBecomes200(path: string, user: Option<GatewayAuth.User>, chunks: seq<string>,
                                 parse: string -> Option<Json>, favorites: FavoritesLookup,
                                 stringify: Json -> string)
    returns (clientStatus: int, clientBody: string)
    ensures clientStatus == 200 && clientBody == Concat(chunks)
  {
    var res := new Http.ServerResponse();
    var calls := OnProxyRes(500, path, user, chunks, res, parse, favorites, stringify);
    clientStatus := res.statusCode;
    clientBody := res.body;
  }

  /** `onProxyRes` preceded by `res.status(proxyRes.statusCode)`: the client
      sees the upstream status on a pass-through and on an enriched answer,
      and 500 only when the enrichment fails. */
  method OnProxyResRelayingStatus(status: int, path: string, user: Option<GatewayAuth.User>, chunks: seq<string>,
                                  res: Http.ServerResponse, parse: string -> Option<Json>,
                                  favorites: FavoritesLookup, stringify: Json -> string)
    returns (favoritesCalls: seq<int>)
    modifies res
    ensures var r := ProxyRes(status, path, user, Concat(chunks), parse, favorites);
      && favoritesCalls == r.favoritesCalls
      && res.ended
      && res.statusCode == (if r.outcome == EnrichmentFailed then 500 else status)
      && (r.outcome == PassThrough ==> res.body == old(res.body) + Concat(chunks))
      && (r.outcome.Enriched? ==> res.body == old(res.body) + stringify(JArr(r.outcome.videos)))
      && (r.outcome == EnrichmentFailed ==> res.body == old(res.body) + stringify(Http.MessageBody(EnrichmentError)))
  {
    res.SetStatus(status);
    favoritesCalls := OnProxyRes(status, path, user, chunks, res, parse, favorites, stringify);
  }

  /** With the status relayed, an upstream error reaches the client as that
      error. */
  method UpstreamErrorRelayed(path: string, user: Option<GatewayAuth.User>, chunks: seq<string>,
                              parse: string -> Option<Json>, favorites: FavoritesLookup,
                              stringify: Json -> string)
    returns (clientStatus: int, clientBody: string)
    ensures clientStatus == 500 && clientBody == Concat(chunks)
  {
    var res := new Http.ServerResponse();
    var calls := OnProxyResRelayingStatus(500, path, user, chunks, res, parse, favorites, stringify);
    clientStatus := res.statusCode;
    clientBody := res.body;
  }

  // ---------------------------------------------------------------------
  // The route table

  datatype Backend = AuthBackend | VideosBackend | FavoritesBackend

  /** One `app.use(mount, ...)` of `setupRoutes`: the backend, whether the
      authentication middleware runs first, whether the proxy leaves the
      response to `onProxyRes`, and the prefix of its `pathRewrite` rule. */
  datatype Route = Route(mount: string, backend: Backend, requiresAuth: bool,
                         selfHandlesResponse: bool, rewritePrefix: string)

  const Routes: seq<Route> := [
    Route("/auth", AuthBackend, false, false, "/auth"),
    Route("/videos", VideosBackend, true, true, "/videos"),
    Route("/favorites", FavoritesBackend, true, false, "/favorites")
  ]

  function LowerAscii(s: string): (r: string)
    ensures |r| == |s|
  {
    seq(|s|, i requires 0 <= i < |s| => if 'A' <= s[i] <= 'Z' then (s[i] as int + 32) as char else s[i])
  }

  /** Express mounts a path prefix case-insensitively, at a `/` boundary. */
  predicate MountMatches(mount: string, path: string) {
    LowerAscii(path) == LowerAscii(mount) || Text.StartsWith(LowerAscii(path), LowerAscii(mount) + "/")
  }

  /** The path the mounted handlers see (`req.path`): the request path with
      the mount prefix removed, `/` when nothing is left. */
  function MountedPath(mount: string, path: string): string
    requires MountMatches(mount, path)
  {
    if |path| == |mount| then "/" else path[|mount|..]
  }

  /** A `pathRewrite` rule `'^prefix': ''`, applied to the mounted path. */
  function RewritePath(prefix: string, path: string): string {
    if Text.StartsWith(path, prefix) then path[|prefix|..] else path
  }

  /** The first route whose mount matches, with the mounted path. */
  function Resolve(path: string): (r: Option<(Route, string)>)
    ensures r.Some? ==> r.value.0 in Routes && MountMatches(r.value.0.mount, path)
  {
    ResolveIn(Routes, path)
  }

  function ResolveIn(routes: seq<Route>, path: string): (r: Option<(Route, string)>)
    ensures r.Some? ==>
      r.value.0 in routes && MountMatches(r.value.0.mount, path) && r.value.1 == MountedPath(r.value.0.mount, path)
    ensures r.None? <==> forall k :: 0 <= k < |routes| ==> !MountMatches(routes[k].mount, path)
  {
    if routes == [] then None
    else if MountMatches(routes[0].mount, path) then Some((routes[0], MountedPath(routes[0].mount, path)))
    else ResolveIn(routes[1..], path)
  }

  /** What the table says: `/auth` is public, the other two are behind the
      middleware, only `/videos` handles its responses, and each route's
      rewrite rule names its own mount. */
  lemma RouteTable()
    ensures forall r :: r in Routes ==>
      && (r.requiresAuth <==> r.backend != AuthBackend)
      && (r.selfHandlesResponse <==> r.backend == VideosBackend)
      && r.rewritePrefix == r.mount
  {
  }

  /** A path under a prefix reaches that prefix's backend with the prefix
      stripped. */
  lemma PrefixIsStripped(k: nat, rest: string)
    requires k < |Routes|
    requires Text.StartsWith(rest, "/")
    ensures Resolve(Routes[k].mount + rest) == Some((Routes[k], rest))
  {
    var path := Routes[k].mount + rest;
    var m := Routes[k].mount;
    assert path[..|m|] == m && path[|m|..] == rest;
    assert LowerAscii(path)[..|m| + 1] == LowerAscii(m) + "/";
    assert MountMatches(m, path);
    forall j | 0 <= j < k ensures !MountMatches(Routes[j].mount, path) {
      var mj := Routes[j].mount;
      assert LowerAscii(path)[1] != LowerAscii(mj)[1];
    }
    if k == 0 {
      assert ResolveIn(Routes, path) == Some((Routes[0], rest));
    } else if k == 1 {
      assert ResolveIn(Routes[1..], path) == Some((Routes[1], rest));
    } else {
      assert Routes[1..][1..] == [Routes[2]];
      assert ResolveIn(Routes[2..], path) == Some((Routes[2], rest));
    }
  }

  // ---------------------------------------------------------------------
  // One request through the gateway

  datatype UpstreamReply = UpstreamReply(status: int, body: string)

  type Upstream = (Backend, string) -> UpstreamReply

  datatype GatewayResponse =
    | NotRouted
    | AuthDenied(status: int, message: string)
    | Relayed(reply: UpstreamReply)
    | Handled(outcome: ProxyOutcome, upstream: UpstreamReply)

  /** The response, and every call made to the collaborators on the way. */
  datatype Trace = Trace(response: GatewayResponse, validatorCalls: seq<string>,
                         forwarded: seq<(Backend, string)>, favoritesCalls: seq<int>)

  /** A request through `setupRoutes`: route, authenticate when the route
      asks for it, forward with the rewritten path, and relay or handle the
      reply. The proxy's path rewrite replaces `req.url`, so `onProxyRes`
      reads the forwarded path as `req.path`. On the public route no
      middleware runs and there is no `req.user`. */
  function HandleRequest(path: string, authorization: Option<string>, validate: GatewayAuth.Validator,
                         upstream: Upstream, parse: string -> Option<Json>, favorites: FavoritesLookup): Trace
  {
    match Resolve(path)
    case None => Trace(NotRouted, [], [], [])
    case Some((route, mounted)) =>
      var auth := GatewayAuth.Authenticate(authorization, validate);
      if route.requiresAuth && auth.decision.Deny? then
        Trace(AuthDenied(auth.decision.status, auth.decision.message), auth.validatorCalls, [], [])
      else
        var user := if route.requiresAuth then Some(auth.decision.user) else None;
        var validatorCalls := if route.requiresAuth then auth.validatorCalls else [];
        var target := RewritePath(route.rewritePrefix, mounted);
        var reply := upstream(route.backend, target);
        if !route.selfHandlesResponse then
          Trace(Relayed(reply), validatorCalls, [(route.backend, target)], [])
        else
          var handled := ProxyRes(reply.status, target, user, reply.body, parse, favorites);
          Trace(Handled(handled.outcome, reply), validatorCalls, [(route.backend, target)],
                handled.favoritesCalls)
  }

  /** Fail closed: on a protected route, a request whose token cannot be
      checked because the identity service is unreachable gets a 500 and is
      never forwarded; one without a token, or with a rejected token, gets a
      401 and is never forwarded either. */
  lemma FailClosed(path: string, authorization: Option<string>, validate: GatewayAuth.Validator,
                   upstream: Upstream, parse: string -> Option<Json>, favorites: FavoritesLookup)
    requires Resolve(path).Some? && Resolve(path).value.0.requiresAuth
    ensures var t := HandleRequest(path, authorization, validate, upstream, parse, favorites);
      var token := GatewayAuth.BearerToken(authorization);
      && (t.forwarded != [] <==> token.Some? && validate(token.value).Valid?)
      && (token.None? ==> t.response == AuthDenied(401, GatewayAuth.MissingMessage) && t.validatorCalls == [])
      && (token.Some? && validate(token.value) == GatewayAuth.Unreachable ==>
            t.response == AuthDenied(500, GatewayAuth.UnreachableMessage) && t.favoritesCalls == [])
      && (token.Some? && validate(token.value) == GatewayAuth.Rejected ==>
            t.response == AuthDenied(401, GatewayAuth.InvalidMessage) && t.favoritesCalls == [])
  {
    GatewayAuth.AuthenticateOutcomes(authorization, validate);
  }

  /** The public route never consults the identity service, and only the
      videos route ever has its response rewritten or consults favorites. */
  lemma RouteRoles(path: string, authorization: Option<string>, validate: GatewayAuth.Validator,
                   upstream: Upstream, parse: string -> Option<Json>, favorites: FavoritesLookup)
    requires Resolve(path).Some?
    ensures var t := HandleRequest(path, authorization, validate, upstream, parse, favorites);
      var route := Resolve(path).value.0;
      && (route.backend == AuthBackend ==>
            t.validatorCalls == [] && t.forwarded == [(AuthBackend, RewritePath("/auth", Resolve(path).value.1))])
      && (t.response.Handled? ==> route.backend == VideosBackend)
      && (t.favoritesCalls != [] ==> route.backend == VideosBackend)
  {
    RouteTable();
  }

  /** The favorites consulted while handling a request are those of the user
      the token resolved to. */
  lemma FavoritesOfRequester(path: string, authorization: Option<string>, validate: GatewayAuth.Validator,
                             upstream: Upstream, parse: string -> Option<Json>, favorites: FavoritesLookup)
    ensures var t := HandleRequest(path, authorization, validate, upstream, parse, favorites);
      var token := GatewayAuth.BearerToken(authorization);
      t.favoritesCalls != [] ==>
        && token.Some? && validate(token.value).Valid?
        && t.favoritesCalls == [validate(token.value).user.id]
  {
    if Resolve(path).Some? {
      RouteTable();
      GatewayAuth.AuthenticateOutcomes(authorization, validate);
    }
  }

  /** A handled response is decided on the path that was forwarded, for the
      user the token resolved to, from the reply to that forwarded request. */
  lemma ProxyResSeesForwardedPath(path: string, authorization: Option<string>, validate: GatewayAuth.Validator,
                                  upstream: Upstream, parse: string -> Option<Json>, favorites: FavoritesLookup)
    ensures var t := HandleRequest(path, authorization, validate, upstream, parse, favorites);
      var token := GatewayAuth.BearerToken(authorization);
      t.response.Handled? ==>
        && token.Some? && validate(token.value).Valid?
        && |t.forwarded| == 1
        && t.response.upstream == upstream(t.forwarded[0].0, t.forwarded[0].1)
        && t.response.outcome
           == ProxyRes(t.response.upstream.status, t.forwarded[0].1, Some(validate(token.value).user),
                       t.response.upstream.body, parse, favorites).outcome
  {
    if Resolve(path).Some? {
      RouteTable();
      GatewayAuth.AuthenticateOutcomes(authorization, validate);
    }
  }

  /** `/videos/videos/search` reaches the videos route as `/videos/search`. */
  lemma DoublePrefixRoute()
    ensures Resolve("/videos/videos/search") == Some((Routes[1], "/videos/search"))
  {
    var rest := "/videos/search";
    assert Text.StartsWith(rest, "/");
    PrefixIsStripped(1, rest);
    assert Routes[1].mount == "/videos";
    assert "/videos" + rest == "/videos/videos/search";
  }

  /** The videos route's rewrite rule turns `/videos/search` into `/search`. */
  lemma DoublePrefixRewrite()
    ensures RewritePath(Routes[1].rewritePrefix, "/videos/search") == "/search"
  {
    var mounted := "/videos/search";
    assert Routes[1].rewritePrefix == "/videos";
    assert mounted[..7] == "/videos" && mounted[7..] == "/search";
  }

  /** `/videos/videos/search` is forwarded as `/search`, and that is the path
      the enrichment guard tests. */
  lemma DoublePrefixForwarded(token: string, validate: GatewayAuth.Validator, upstream: Upstream,
                              parse: string -> Option<Json>, favorites: FavoritesLookup)
    requires ' ' !in token && validate(token).Valid?
    ensures var t := HandleRequest("/videos/videos/search", Some(GatewayAuth.Scheme + token), validate,
                                   upstream, parse, favorites);
      && t.forwarded == [(VideosBackend, "/search")]
      && t.response.Handled?
      && Enrichable(200, t.forwarded[0].1)
  {
    GatewayAuth.TokenIsSecondField(token, "");
    DoublePrefixRoute();
    DoublePrefixRewrite();
    assert GatewayAuth.Authenticate(Some(GatewayAuth.Scheme + token), validate).decision.Proceed?;
    assert "/search"[..|"/search"|] == "/search";
  }
}
