# Video catalogue services — a Dafny model of the identity and gateway core

The system is a small set of Node/TypeScript services behind one API
gateway:

- **The identity service** registers users and stores a salted scrypt hash of each password. It issues HS256-signed JSON Web Tokens.
- **The gateway** checks a Bearer token with the identity service before forwarding `/videos` and `/favorites` requests. It stamps every video it relays from a search or list with `isFavorited` for the requesting user.
- **The videos service** maps YouTube Data API answers to flat `Video` records.

This project models, in Dafny, the logic of those pieces:

| Dafny file | module | models |
|---|---|---|
| `jwt.dfy` | `Jwt` | token issuance (`base64UrlEncode`, `generateToken`) |
| `base64.dfy`, `utf8.dfy`, `text.dfy`, `decimal.dfy` | `Base64`, `Utf8`, `Text`, `Decimal` | base64 and base64url (RFC 4648, sections 4 and 5), UTF-8 (RFC 3629), JavaScript `split`/`replace`/`startsWith`, integer text |
| `hex.dfy`, `password_hash.dfy` | `Hex`, `PasswordHash` | the stored password record (`hashPassword`, `verifyPassword`) with Node's hex codec |
| `gateway_auth.dfy` | `GatewayAuth` | the gateway's authentication middleware, as a decision and as a method that sets `req.user` |
| `gateway_routes.dfy` | `GatewayRoutes` | the route table, prefix stripping, `onProxyRes` and the favorites enrichment, and one request end to end |
| `youtube_adapter.dfy` | `YoutubeAdapter` | `_mapVideos` and the settling of a YouTube answer |
| `auth_service.dfy` | `AuthService` | `POST /register` over an email-keyed user table |
| `json.dfy`, `http.dfy`, `wrappers.dfy` | `Json`, `Http`, `Wrappers` | JSON values with JavaScript property access, truthiness and spread; the response object; `Option`/`Result` |

The following are parameters of the operations that use them:

- cryptographic primitives: HMAC-SHA256 and scrypt
- the random salt bytes
- the clock
- `JSON.parse`, as a partial function, and `JSON.stringify`
- the other services: the identity service's token check and the favorites lookup, each with its outcomes, and the backends

The model reproduces these behaviours of the code:

- **Token expiry.** `exp` is the millisecond clock plus 3600 (`Jwt.ExpiryMixesUnits`).
- **Missing secret.** `JWT_SECRET` is read on every call, and an absent or empty secret makes that call of `generateToken` throw.
- **Length mismatch in verification.** A stored key that does not decode to 64 bytes makes verification raise, because `timingSafeEqual` refuses buffers of different lengths (`PasswordHash.CorruptedKeyRaises`).
- **`/register` reply.** The 201 body carries the email under the key `user`.
- **Enriched reply.** The enriched videos answer is a bare JSON array.
- **Upstream status on `/videos`.** A passed-through `/videos` response keeps the status already on the gateway's response, because the route handles its responses itself (see "## Findings").

## Model

| member | source | states |
|---|---|---|
| Base64.StdEncode | services/auth-service/src/utils/jwt.ts:4-5 | `toString('base64')`: defined by its body; partner lemmas `Base64.UrlEncodeLength` (4·ceil(n/3) characters) and `Base64.RewriteStdIsUrl` |
| Base64.UrlEncode | services/auth-service/src/utils/jwt.ts:28-30 | `digest('base64url')`: defined by its body; partner lemmas `Base64.UrlRoundTrip`, `Base64.UrlEncodeInjective`, `Base64.UrlEncodeAlphabet` and `Base64.UrlEncodeLength` |
| Base64.UrlRewrite | services/auth-service/src/utils/jwt.ts:6-8 | the three `replace` calls: defined by its body; partner lemmas `Base64.UrlRewriteInPlace` and `Base64.RewriteStdIsUrl` |
| Base64.UrlRewriteInPlace | services/auth-service/src/utils/jwt.ts:5-8 | the three replacements leave no `+`, `/` or `=`; on unpadded text only `+`→`-` and `/`→`_` change, every character in place |
| Base64.RewriteStdIsUrl | services/auth-service/src/utils/jwt.ts:3-9 | rewriting standard base64 of any bytes gives exactly unpadded base64url of those bytes |
| Base64.UrlEncodeAlphabet | services/auth-service/src/utils/jwt.ts:3-9 | base64url output holds only URL-safe characters: never `+`, `/`, `=` or the segment separator `.` |
| Base64.UrlEncodeLength | services/auth-service/src/utils/jwt.ts:4-8 | n bytes give ceil(4n/3) unpadded characters (4·ceil(n/3) padded) |
| Base64.Sextets | services/auth-service/src/utils/jwt.ts:4-5 | the 6-bit groups of n bytes number ceil(4n/3), each below 64 |
| Base64.SextetsRoundTrip | services/auth-service/src/utils/jwt.ts:4-5 | regrouping the sextets gives back the bytes |
| Base64.UrlRoundTrip | services/auth-service/src/utils/jwt.ts:28-30 | decoding base64url inverts the `digest('base64url')` encoding |
| Base64.UrlEncodeInjective | services/auth-service/src/utils/jwt.ts:28-30 | different digests give different signature texts |
| Base64.UrlCharValue | services/auth-service/src/utils/jwt.ts:28-30 | a character has a base64url value exactly when it is in the URL-safe alphabet, and the value maps back to it |
| Utf8.EncodeAscii | services/auth-service/src/utils/jwt.ts:4 | `Buffer.from(str)` of ASCII text is one byte per character, the character's code |
| Utf8.AsciiRoundTrip | services/auth-service/src/utils/jwt.ts:4 | reading ASCII bytes back as characters gives the text |
| Utf8.EncodeAppend | services/auth-service/src/utils/jwt.ts:4 | the UTF-8 bytes of a concatenation are the concatenated bytes |
| Text.Split | services/api-gateway/src/middlewares/auth.ts:17 | `split` on one character always yields at least one piece |
| Text.SplitPieces | services/auth-service/src/utils/hash.ts:13 | `split` gives one more piece than separators, no piece holds the separator, and joining restores the text |
| Text.SplitAfterPiece | services/api-gateway/src/middlewares/auth.ts:17 | a separator-free prefix and a separator split off as the first piece |
| Text.SplitTwo | services/auth-service/src/utils/hash.ts:13 | two separator-free parts joined by the separator split back into exactly those two |
| Text.SplitThree | services/auth-service/src/utils/jwt.ts:32 | three separator-free parts joined by the separator split back into exactly those three |
| Text.DeleteCharNotIn | services/auth-service/src/utils/jwt.ts:8 | `replace(/=/g, '')` removes every `=` and only those |
| Decimal.NatText | services/auth-service/src/utils/jwt.ts:25 | a natural number's decimal text is non-empty and all digits |
| Decimal.ReadIntText | services/auth-service/src/utils/jwt.ts:25 | the decimal text `JSON.stringify` writes for an integer reads back to that integer |
| Jwt.Base64UrlEncode | services/auth-service/src/utils/jwt.ts:3-9 | defined by its body; partner lemmas `Jwt.Base64UrlEncodeIsUnpadded` and `Jwt.Base64UrlDecodeEncode` |
| Jwt.Claims | services/auth-service/src/utils/jwt.ts:20-24 | the payload object: defined by its body; partner lemmas `Jwt.TokenPayload`, `Jwt.TokenDeterminedByClaims` and `Jwt.ExpiryMixesUnits` |
| Jwt.PayloadJson | services/auth-service/src/utils/jwt.ts:25 | `JSON.stringify(payload)`: defined by its body; partner lemmas `Jwt.ParsePayloadJson` and `Jwt.PayloadJsonIsAscii` |
| Jwt.Signature | services/auth-service/src/utils/jwt.ts:27-30 | defined by its body; partner lemmas `Jwt.TokenSignature` |
| Jwt.GenerateToken | services/auth-service/src/utils/jwt.ts:11-15 | issuance fails, producing no token, exactly when the secret is absent or empty |
| Jwt.TokenShape | services/auth-service/src/utils/jwt.ts:17-32 | a token is header segment, `.`, payload segment, `.`, HMAC signature of the first two; splitting on `.` gives exactly those three |
| Jwt.HeaderIsFixed | services/auth-service/src/utils/jwt.ts:17-18 | every token's first segment is base64url of `{"alg":"HS256","typ":"JWT"}`, whatever the secret, subject or clock |
| Jwt.TokenPayload | services/auth-service/src/utils/jwt.ts:20-25 | the payload segment decodes to claims `sub` = user id, `iat` = first clock reading ÷ 1000 rounded down, `exp` = second reading + 3600 |
| Jwt.ExpiryMixesUnits | services/auth-service/src/utils/jwt.ts:22-23 | once the clock reads at least one second, `exp - iat` exceeds the 3600-second lifetime |
| Jwt.TokenSignature | services/auth-service/src/utils/jwt.ts:27-32 | the third segment decodes to the HMAC, keyed by the secret's bytes, of the first two segments joined by `.` |
| Jwt.TokenDeterminedByClaims | services/auth-service/src/utils/jwt.ts:20-32 | under one secret two tokens are equal exactly when their claims are equal |
| Jwt.Base64UrlEncodeIsUnpadded | services/auth-service/src/utils/jwt.ts:3-9 | `base64UrlEncode` is unpadded base64url of the UTF-8 bytes |
| Jwt.Base64UrlDecodeEncode | services/auth-service/src/utils/jwt.ts:3-9 | `base64UrlEncode` output decodes back to the text's UTF-8 bytes |
| Jwt.ParsePayloadJson | services/auth-service/src/utils/jwt.ts:20-25 | the payload JSON text reads back to the same three claims |
| Hex.HexEncode | services/auth-service/src/utils/hash.ts:7-9 | `toString('hex')`: defined by its body; partner lemmas `Hex.HexEncodeShape` and `Hex.HexRoundTrip` |
| Hex.HexEncodeShape | services/auth-service/src/utils/hash.ts:7-9 | hex of n bytes is 2n characters from `[0-9a-f]`, never `:` |
| Hex.HexRoundTrip | services/auth-service/src/utils/hash.ts:9-16 | `Buffer.from(hex(b), 'hex')` is `b` |
| Hex.HexDecode | services/auth-service/src/utils/hash.ts:16 | decoding hex text yields at most half its length in bytes |
| PasswordHash.HashPassword | services/auth-service/src/utils/hash.ts:6-10 | defined by its body; partner lemmas `PasswordHash.StoredFormat`, `PasswordHash.HashThenVerify` and `PasswordHash.VerifyOwnPassword` |
| PasswordHash.VerifyPassword | services/auth-service/src/utils/hash.ts:12-18 | defined by its body; partner lemmas `PasswordHash.VerifyOutcomes`, `PasswordHash.CorruptedKeyRaises` and `PasswordHash.VerifyWrongPassword` |
| PasswordHash.StoredFormat | services/auth-service/src/utils/hash.ts:6-10 | the record is 161 characters with exactly one `:`, and splitting on it gives the key hex and the salt hex |
| PasswordHash.VerifyOutcomes | services/auth-service/src/utils/hash.ts:12-18 | no `:` raises (no salt); otherwise a key of a different decoded length raises; otherwise the answer is whether the re-derived key equals the stored one |
| PasswordHash.CorruptedKeyRaises | services/auth-service/src/utils/hash.ts:16-17 | a stored key part not decoding to 64 bytes raises rather than answering false |
| PasswordHash.HashThenVerify | services/auth-service/src/utils/hash.ts:6-18 | verifying against a fresh record answers whether scrypt gives both passwords the same key under that salt text |
| PasswordHash.VerifyOwnPassword | services/auth-service/src/utils/hash.ts:6-18 | a password verifies against its own record |
| PasswordHash.VerifyWrongPassword | services/auth-service/src/utils/hash.ts:6-18 | a password whose key differs under that salt does not verify |
| Json.Lookup | services/api-gateway/src/routes.ts:62 | a property is found exactly when some field has that key |
| Json.SetField | services/api-gateway/src/routes.ts:60-63 | setting a property in a literal gives that key the new value and leaves every other key's value unchanged |
| GatewayAuth.BearerToken | services/api-gateway/src/middlewares/auth.ts:13-17 | a token is extracted exactly when the header is present and starts with the case-sensitive `Bearer ` |
| GatewayAuth.TokenIsSecondField | services/api-gateway/src/middlewares/auth.ts:17 | the token is the second space-separated field: `Bearer a b` gives `a`, `Bearer ` gives the empty token |
| GatewayAuth.Authenticate | services/api-gateway/src/middlewares/auth.ts:11-32 | defined by its body; partner lemmas `GatewayAuth.AuthenticateOutcomes` and `GatewayAuth.AuthMiddleware` |
| GatewayAuth.AuthenticateOutcomes | services/api-gateway/src/middlewares/auth.ts:13-32 | no token: 401 and no validator call; otherwise one call with the token, and proceed iff a user comes back, 401 iff rejected, 500 iff unreachable |
| GatewayAuth.AuthMiddleware | services/api-gateway/src/middlewares/auth.ts:6-33 | the response and `next` follow that decision; `req.user` is set to the returned user only on success and unchanged otherwise; a denial answers with its status, `{message}` and the `res.json` type `application/json; charset=utf-8` |
| GatewayRoutes.FavoriteIds | services/api-gateway/src/routes.ts:55-57 | the set holds exactly the video ids of the user's favorites |
| GatewayRoutes.ItemKey | services/api-gateway/src/routes.ts:62 | `video.id?.videoId || video.id`: defined by its body; partner lemmas `GatewayRoutes.ItemKeyCases` |
| GatewayRoutes.EnrichItem | services/api-gateway/src/routes.ts:60-63 | one element stamped: defined by its body; partner lemmas `GatewayRoutes.EnrichItemFields` and `GatewayRoutes.EnrichStringId` |
| GatewayRoutes.EnrichVideos | services/api-gateway/src/routes.ts:60-63 | `videos.map(...)`: defined by its body; partner lemmas `GatewayRoutes.EnrichVideosShape` and `GatewayRoutes.EnrichExample` |
| GatewayRoutes.ProxyRes | services/api-gateway/src/routes.ts:26-77 | the decision of `onProxyRes`: defined by its body; partner lemmas `GatewayRoutes.ProxyResOutcomes` and `GatewayRoutes.OnProxyRes` |
| GatewayRoutes.EnrichVideosShape | services/api-gateway/src/routes.ts:60-63 | enrichment fails iff an element is null; otherwise same length and order, element i stamped from element i |
| GatewayRoutes.EnrichItemFields | services/api-gateway/src/routes.ts:60-63 | every field but `isFavorited` keeps its value; `isFavorited` is set, overwriting, and true iff the item key is a favorite's video id |
| GatewayRoutes.ItemKeyCases | services/api-gateway/src/routes.ts:62 | the key is the id when it is a string, and a non-empty `id.videoId` when the id is an object |
| GatewayRoutes.EnrichStringId | services/api-gateway/src/routes.ts:60-63 | `{id: s}` becomes `{id: s, isFavorited: s ∈ favorites}` |
| GatewayRoutes.EnrichExample | services/api-gateway/src/routes.ts:60-63 | videos A, B, C with favorite B come out stamped false, true, false |
| GatewayRoutes.ProxyResOutcomes | services/api-gateway/src/routes.ts:26-77 | pass-through iff not (200 and `/search`/`/list`) or no user id, then with no lookup; otherwise at most one lookup, for that user, and enriched iff parse, lookup, array and items all succeed |
| GatewayRoutes.Pipe | services/api-gateway/src/routes.ts:73-76 | piping appends the upstream body unchanged and ends the response, status and type untouched |
| GatewayRoutes.OnProxyRes | services/api-gateway/src/routes.ts:26-77 | the accumulated chunks decide as `ProxyRes`: the original body piped through, the enriched array with the bare type `application/json` set by `setHeader`, or 500 `Error processing video data` with the `res.json` type `application/json; charset=utf-8` and the body discarded |
| GatewayRoutes.UpstreamErrorBecomes200 | services/api-gateway/src/routes.ts:73-76 | on a fresh response, an upstream 500 to a `/videos` request is passed through with status 200 and the upstream body |
| GatewayRoutes.OnProxyResRelayingStatus | services/api-gateway/src/routes.ts:26-77 | with the upstream status set first, the client gets the upstream status except when enrichment fails, which gives 500; the body is as in `GatewayRoutes.OnProxyRes` |
| GatewayRoutes.UpstreamErrorRelayed | services/api-gateway/src/routes.ts:73-76 | with the status relayed, an upstream 500 reaches the client as 500 with the upstream body |
| GatewayRoutes.ResolveIn | services/api-gateway/src/routes.ts:79-113 | the first route whose mount matches is chosen, with the mount stripped; no route iff none matches |
| GatewayRoutes.RouteTable | services/api-gateway/src/routes.ts:79-113 | `/auth` is public, `/videos` and `/favorites` need authentication, only `/videos` handles its response, each rewrite strips its own prefix |
| GatewayRoutes.PrefixIsStripped | services/api-gateway/src/routes.ts:79-113 | a path `<mount>/…` reaches that mount's route with `/…` as the mounted path |
| GatewayRoutes.HandleRequest | services/api-gateway/src/routes.ts:79-113 | one request through `setupRoutes`: defined by its body; partner lemmas `GatewayRoutes.FailClosed`, `GatewayRoutes.RouteRoles`, `GatewayRoutes.FavoritesOfRequester`, `GatewayRoutes.ProxyResSeesForwardedPath` and `GatewayRoutes.DoublePrefixForwarded` |
| GatewayRoutes.ProxyResSeesForwardedPath | services/api-gateway/src/routes.ts:32-34 | a handled response is decided on the forwarded (rewritten) path, which is what `req.path` reads after the rewrite at line 96, for the user the token resolved to, from the reply to that request |
| GatewayRoutes.DoublePrefixForwarded | services/api-gateway/src/routes.ts:90-99 | `/videos/videos/search` with a valid token is forwarded as `/search`, handled, and passes the enrichment guard |
| GatewayRoutes.FailClosed | services/api-gateway/src/routes.ts:90-112 | on a protected route a request is forwarded iff its token validates; no token gives 401 with no validator call, a rejected token 401, an unreachable identity service 500 |
| GatewayRoutes.RouteRoles | services/api-gateway/src/routes.ts:79-113 | `/auth` never calls the validator and is forwarded with its prefix rewritten; only `/videos` responses are handled or consult favorites |
| GatewayRoutes.FavoritesOfRequester | services/api-gateway/src/routes.ts:36-54 | favorites are looked up only for the user the token resolved to |
| YoutubeAdapter.MapItem | services/videos-service/src/lib/YoutubeAdapter.ts:58-79 | an item is kept iff its video id is truthy; a kept video has the watch url of its id, source `YouTube`, a truthy title and a truthy or empty thumbnail |
| YoutubeAdapter.KeepMapped | services/videos-service/src/lib/YoutubeAdapter.ts:56-81 | output no longer than input, and as long when every item has an id |
| YoutubeAdapter.KeepMappedAppend | services/videos-service/src/lib/YoutubeAdapter.ts:80 | mapping distributes over concatenation, so kept items keep their input order |
| YoutubeAdapter.KeepMappedMembers | services/videos-service/src/lib/YoutubeAdapter.ts:56-81 | a video is in the output exactly when some item maps to it |
| YoutubeAdapter.KeepMappedAll | services/videos-service/src/lib/YoutubeAdapter.ts:56-81 | when every item has an id, video i is item i's mapping |
| YoutubeAdapter.DroppedItems | services/videos-service/src/lib/YoutubeAdapter.ts:60-66 | an item whose id is missing, empty, or an object without a truthy `videoId` is dropped |
| YoutubeAdapter.MapItemOf | services/videos-service/src/lib/YoutubeAdapter.ts:60-78 | an item with a non-empty string video id and a given snippet maps to that id's watch url with the snippet's title and thumbnail or their defaults |
| YoutubeAdapter.StringId | services/videos-service/src/lib/YoutubeAdapter.ts:60-78 | a string id maps to the id, its watch url, and the title and thumbnail or their defaults `Título Desconhecido` and `""` |
| YoutubeAdapter.ObjectId | services/videos-service/src/lib/YoutubeAdapter.ts:60-78 | an id object `{kind, videoId}` maps to the same record as the string id |
| YoutubeAdapter.NoSnippet | services/videos-service/src/lib/YoutubeAdapter.ts:68-69 | an item without a snippet gets both defaults |
| YoutubeAdapter.MapVideos | services/videos-service/src/lib/YoutubeAdapter.ts:56-81 | `_mapVideos`: defined by its body; partner lemmas `YoutubeAdapter.SettleOutcomes` and the `YoutubeAdapter.KeepMapped` lemmas |
| YoutubeAdapter.Settle | services/videos-service/src/lib/YoutubeAdapter.ts:101-114 | the handling of the answer body: defined by its body; partner lemmas `YoutubeAdapter.SettleOutcomes` and `YoutubeAdapter.ErrorAnswer` |
| YoutubeAdapter.SettleOutcomes | services/videos-service/src/lib/YoutubeAdapter.ts:101-114 | unparsable body rejects; a truthy `error` rejects with `error.message`; it resolves iff `items` is an array without null, to those items mapped |
| YoutubeAdapter.ErrorAnswer | services/videos-service/src/lib/YoutubeAdapter.ts:104-106 | the API's `{error: {code, message}}` answer rejects with that message |
| AuthService.RegisterResult | services/auth-service/src/index.ts:10-40 | the `/register` handler on a store: defined by its body; partner lemmas `AuthService.RegisterOutcomes`, `AuthService.CreatedBodyFields`, `AuthService.RegisterKeepsValid`, `AuthService.NoDoubleRegistration` and `AuthService.UserTable.Register` |
| AuthService.RegisterOutcomes | services/auth-service/src/index.ts:10-40 | 400 iff a field is falsy, 409 iff the email is taken, 201 iff nothing fails; only 201 changes the table, adding one record with the hashed password and the next id |
| AuthService.CreatedBodyFields | services/auth-service/src/index.ts:31-35 | the 201 body has only `id`, `user` (the email) and `createdAt`, never the password hash |
| AuthService.RegisterKeepsValid | services/auth-service/src/index.ts:17-29 | a registration keeps every record under its own email with distinct ids |
| AuthService.NoDoubleRegistration | services/auth-service/src/index.ts:17-20 | a registered email is never registered again and the table is left as it was |
| AuthService.RegisteredPasswordVerifies | services/auth-service/src/index.ts:22-29 | a new user's stored hash verifies against the registration password |
| AuthService.RegisterAllKeepsValid | services/auth-service/src/index.ts:10-40 | after any sequence of registrations emails stay unique with distinct ids, and no record is lost or changed |
| AuthService.UserTable.Register | services/auth-service/src/index.ts:10-40 | the handler answers with the status and body `RegisterResult` gives and the `res.json` type `application/json; charset=utf-8`, updates the table as `RegisterResult` says, and keeps the table valid |

## Left out

- Cryptography: HMAC-SHA256, scrypt, `randomBytes` and the constant-time property of `timingSafeEqual` are not modelled. They are parameters, and only scrypt's key length (`DerivesKeyLength`) is assumed where needed.
- The clock is a parameter. The model takes the two `Date.now()` readings of `generateToken` as separate inputs.
- `JSON.parse` and `JSON.stringify` are parameters. The model writes out only the header and payload JSON text of the token, and numbers are integers there.
- Floating-point numbers and integers of 10^21 or more, which `JSON.stringify` writes in exponent form, are not modelled.
- Strings are sequences of code points. Object spread of a string splits it into UTF-16 code units in JavaScript; the model splits it into code points.
- The network clients for the identity service and the favorites service are not modelled. Each is reduced to its outcomes.
- The favorites service's own store is not modelled.
- The HTTPS requests to YouTube, `URLSearchParams` and the `data`/`end` accumulation around the YouTube answer are left out. The answer body is given whole.
- The adapter's constructor check of `YOUTUBE_API_KEY` reads the environment and is left out.
- Query strings, headers other than `Authorization` and `Content-Type`, `changeOrigin`, and `fixRequestBody` are not modelled.
- Headers other than `Content-Type` on the gateway's response are not modelled. On `/videos` the proxy copies neither the upstream status nor the upstream headers, because the route handles its responses itself, and a pass-through streams only the body. `GatewayRoutes.OnProxyRes` therefore leaves the response's status as it was, so the client gets the default 200 even when the videos service answered 400 or 500 (see "## Findings").
- GatewayRoutes.OnProxyRes: the upstream chunks are taken as already-decoded text, and the body is their concatenation. In the code, `body += chunk` decodes each Buffer chunk separately as UTF-8, so a multi-byte character split across two chunks becomes replacement characters before `JSON.parse`. That per-chunk decoding is not modelled.
- `verifyToken` is imported by a test but does not exist in the issuing module, so there is no token verifier here.
- Concurrent registrations (the race between the lookup and the insert) are not modelled. Registrations are sequential.
- A failing database or scrypt is a `Fault` parameter. Which exception arises is not distinguished; all give 500.
- Logging (`console.error`) and process start-up are not modelled.

## Findings

| source | as written | input that shows it | evidently intended | confidence | as-written member | corrected member |
|---|---|---|---|---|---|---|
| services/api-gateway/src/routes.ts:73-76 | the `/videos` route sets `selfHandleResponse` (line 98), so the proxy writes neither the upstream status nor its headers, and `proxyRes.pipe(res)` streams only the body; the client gets status 200 with no Content-Type | the videos service answers `/search` without `q` with 400 (services/videos-service/src/index.ts:12-14), or a failed YouTube call with 500 (lines 19-23) | the backend's status reaches the client on a pass-through, as the comment on routes.ts:74 describes for errors | medium; not executed, and it rests on the proxy library's handling of `selfHandleResponse`, which is not part of this model | GatewayRoutes.UpstreamErrorBecomes200 | GatewayRoutes.OnProxyResRelayingStatus |
