/** The videos service's YouTube adapter
    (services/videos-service/src/lib/YoutubeAdapter.ts): the mapping of the
    items of a YouTube Data API answer to the application's `Video` records,
    and the reading of a parsed answer into videos or a rejection.

    The items are whatever `JSON.parse` produced, so every field is a JSON
    value and may be missing or of an unexpected type. The HTTPS request and
    `JSON.parse` are outside the model: the answer's body text and the
    parser are parameters. */
module YoutubeAdapter {
  import opened Wrappers
  import opened Json
  import Text
  import Decimal

  const WatchUrl := "https://www.youtube.com/watch?v="
  const UnknownTitle := "Título Desconhecido"
  const Source := "YouTube"

  /** A mapped video. The fields hold the JSON values the item carried, which
      are strings for a well-formed answer. */
  datatype Video = Video(id: Json, title: Json, thumbnail: Json, url: string, source: string)

  /** `${v}`: the text a template literal makes of a JSON value. */
  function TemplateText(v: Json): string
    decreases v
  {
    match v
    case JNull => "null"
    case JBool(b) => if b then "true" else "false"
    case JNum(n) => Decimal.IntText(n)
    case JStr(s) => s
    case JObj(_) => "[object Object]"
    case JArr(items) =>
      if items == [] then ""
      else Text.Join(seq(|items|, i requires 0 <= i < |items| => ElementText(items[i], v)), ',')
  }

  /** An array element inside `${array}`: `null` becomes empty. */
  function ElementText(e: Json, parent: Json): string
    requires e < parent
    decreases parent, 0
  {
    if e == JNull then "" else TemplateText(e)
  }

  /** `typeof item.id === 'string' ? item.id : item.id?.videoId`. */
  function ItemVideoId(item: Json): Option<Json>
    requires item != JNull
  {
    var id := Prop(item, "id");
    if id.Some? && id.value.JStr? then id else OptProp(id, "videoId")
  }

  /** The mapping of one item: None when its video id is falsy (the item is
      dropped), the defaulted record otherwise. */
  function MapItem(item: Json): (r: Option<Video>)
    requires item != JNull
    ensures r.Some? <==> TruthyOpt(ItemVideoId(item))
    ensures r.Some? ==>
      && Truthy(r.value.id) && r.value.source == Source
      && r.value.url == WatchUrl + TemplateText(r.value.id)
      && Truthy(r.value.title)
      && (Truthy(r.value.thumbnail) || r.value.thumbnail == JStr(""))
  {
    var videoId := ItemVideoId(item);
    if !TruthyOpt(videoId) then None
    else
      var snippet := Prop(item, "snippet");
      var url := OptProp(OptProp(OptProp(snippet, "thumbnails"), "default"), "url");
      var thumbnailUrl := if TruthyOpt(url) then url.value else JStr("");
      var title := OptProp(snippet, "title");
      var titleText := if TruthyOpt(title) then title.value else JStr(UnknownTitle);
      Some(Video(videoId.value, titleText, thumbnailUrl, WatchUrl + TemplateText(videoId.value), Source))
  }

  /** The `filter` after the `map`: the mapped items, in order. */
  function KeepMapped(items: seq<Json>): (videos: seq<Video>)
    requires JNull !in items
    ensures |videos| <= |items|
    ensures (forall i :: 0 <= i < |items| ==> MapItem(items[i]).Some?) ==> |videos| == |items|
  {
    if items == [] then []
    else
      var rest := KeepMapped(items[1..]);
      match MapItem(items[0])
      case Some(v) => [v] + rest
      case None => rest
  }

  /** `_mapVideos(items)`: None when an item is `null`, where reading its `id`
      throws. */
  function MapVideos(items: seq<Json>): Option<seq<Video>> {
    if JNull in items then None else Some(KeepMapped(items))
  }

  // ---------------------------------------------------------------------
  // Properties of the mapping

  /** Mapping distributes over concatenation: what each part contributes
      stays in place, so the kept items keep their input order. */
  lemma {:induction false} KeepMappedAppend(a: seq<Json>, b: seq<Json>)
    requires JNull !in a && JNull !in b
    ensures JNull !in a + b
    ensures KeepMapped(a + b) == KeepMapped(a) + KeepMapped(b)
  {
    if a == [] {
      assert a + b == b;
    } else {
      assert (a + b)[1..] == a[1..] + b;
      KeepMappedAppend(a[1..], b);
    }
  }

  /** A video is in the output exactly when some item maps to it. */
  lemma {:induction false} KeepMappedMembers(items: seq<Json>, v: Video)
    requires JNull !in items
    ensures v in KeepMapped(items) <==> exists i :: 0 <= i < |items| && MapItem(items[i]) == Some(v)
  {
    if items != [] {
      KeepMappedMembers(items[1..], v);
      if v in KeepMapped(items[1..]) {
        var i :| 0 <= i < |items[1..]| && MapItem(items[1..][i]) == Some(v);
        assert MapItem(items[i + 1]) == Some(v);
      }
      if exists i :: 0 <= i < |items| && MapItem(items[i]) == Some(v) {
        var i :| 0 <= i < |items| && MapItem(items[i]) == Some(v);
        if i > 0 {
          assert MapItem(items[1..][i - 1]) == Some(v);
        }
      }
    }
  }

  /** When every item has a video id, nothing is dropped and the i-th video is
      the i-th item's. */
  lemma {:induction false} KeepMappedAll(items: seq<Json>)
    requires JNull !in items
    requires forall i :: 0 <= i < |items| ==> MapItem(items[i]).Some?
    ensures |KeepMapped(items)| == |items|
    ensures forall i :: 0 <= i < |items| ==> KeepMapped(items)[i] == MapItem(items[i]).value
  {
    if items != [] {
      KeepMappedAll(items[1..]);
      var out := KeepMapped(items);
      assert out == [MapItem(items[0]).value] + KeepMapped(items[1..]);
      forall i | 1 <= i < |items| ensures out[i] == MapItem(items[i]).value {
        assert items[i] == items[1..][i - 1];
      }
    }
  }

  /** Items whose id is missing, empty, or an object without a truthy
      `videoId` are dropped. */
  lemma DroppedItems(fields: seq<(string, Json)>)
    requires Lookup(fields, "id") == None || Lookup(fields, "id") == Some(JStr(""))
      || (exists inner :: Lookup(fields, "id") == Some(JObj(inner)) && !TruthyOpt(Lookup(inner, "videoId")))
    ensures MapItem(JObj(fields)) == None
  {
  }

  /** The snippet of the API's answer, with the title and the default
      thumbnail url given or null. */
  function Snippet(title: Option<string>, thumb: Option<string>): Json {
    var titleValue := if title.Some? then JStr(title.value) else JNull;
    var url := if thumb.Some? then JStr(thumb.value) else JNull;
    JObj([("title", titleValue), ("thumbnails", JObj([("default", JObj([("url", url)]))]))])
  }

  lemma SnippetFields(title: Option<string>, thumb: Option<string>)
    ensures OptProp(Some(Snippet(title, thumb)), "title") == Some(if title.Some? then JStr(title.value) else JNull)
    ensures OptProp(OptProp(OptProp(Some(Snippet(title, thumb)), "thumbnails"), "default"), "url")
      == Some(if thumb.Some? then JStr(thumb.value) else JNull)
  {
    var titleValue := if title.Some? then JStr(title.value) else JNull;
    var url := if thumb.Some? then JStr(thumb.value) else JNull;
    var thumbnails := JObj([("default", JObj([("url", url)]))]);
    LookupPair(("title", titleValue), ("thumbnails", thumbnails), "title");
    LookupPair(("title", titleValue), ("thumbnails", thumbnails), "thumbnails");
  }

  /** The record an item with video id `id` and that snippet maps to: the id,
      the watch url built from it, the title and the thumbnail url as given,
      or their defaults when missing or empty. */
  function Expected(id: string, title: Option<string>, thumb: Option<string>): Video {
    Video(JStr(id), JStr(if title.Some? && title.value != "" then title.value else UnknownTitle),
          JStr(if thumb.Some? && thumb.value != "" then thumb.value else ""), WatchUrl + id, Source)
  }

  /** An item whose video id is the non-empty `id` and whose snippet is as
      given maps to the expected record. */
  lemma MapItemOf(item: Json, id: string, title: Option<string>, thumb: Option<string>)
    requires item != JNull && id != ""
    requires ItemVideoId(item) == Some(JStr(id)) && Prop(item, "snippet") == Some(Snippet(title, thumb))
    ensures MapItem(item) == Some(Expected(id, title, thumb))
  {
    SnippetFields(title, thumb);
  }

  /** The `videos` endpoint's shape: the id is a string. */
  lemma StringId(id: string, title: Option<string>, thumb: Option<string>)
    requires id != ""
    ensures MapItem(JObj([("id", JStr(id)), ("snippet", Snippet(title, thumb))])) == Some(Expected(id, title, thumb))
  {
    var item := JObj([("id", JStr(id)), ("snippet", Snippet(title, thumb))]);
    LookupPair(("id", JStr(id)), ("snippet", Snippet(title, thumb)), "id");
    LookupPair(("id", JStr(id)), ("snippet", Snippet(title, thumb)), "snippet");
    MapItemOf(item, id, title, thumb);
  }

  /** The `search` endpoint's shape: the id is `{kind, videoId}`; it maps to
      the same record as the string id. */
  lemma ObjectId(id: string, title: Option<string>, thumb: Option<string>)
    requires id != ""
    ensures var idObj := JObj([("kind", JStr("youtube#video")), ("videoId", JStr(id))]);
      MapItem(JObj([("id", idObj), ("snippet", Snippet(title, thumb))])) == Some(Expected(id, title, thumb))
  {
    var idObj := JObj([("kind", JStr("youtube#video")), ("videoId", JStr(id))]);
    var item := JObj([("id", idObj), ("snippet", Snippet(title, thumb))]);
    LookupPair(("kind", JStr("youtube#video")), ("videoId", JStr(id)), "videoId");
    LookupPair(("id", idObj), ("snippet", Snippet(title, thumb)), "id");
    LookupPair(("id", idObj), ("snippet", Snippet(title, thumb)), "snippet");
    MapItemOf(item, id, title, thumb);
  }

  /** An item with neither snippet gives the defaults. */
  lemma NoSnippet(id: string)
    requires id != ""
    ensures MapItem(JObj([("id", JStr(id))])) == Some(Video(JStr(id), JStr(UnknownTitle), JStr(""), WatchUrl + id, Source))
  {
  }

  // ---------------------------------------------------------------------
  // Reading an answer

  /** How `searchVideos` and `listPopularVideos` settle. `ApiError` carries
      the `error.message` value handed to `new Error` (None for undefined);
      `Thrown` is a rejection with the TypeError of reading a property of
      `null`, or of calling `map` on something that is not an array. */
  datatype Settled =
    | Resolved(videos: seq<Video>)
    | ApiError(message: Option<Json>)
    | ParseFailed
    | Thrown

  /** The `end` handler: parse the body, reject with the API's error message
      when the answer carries a truthy `error`, map `items` otherwise. */
  function Settle(data: string, parse: string -> Option<Json>): Settled {
    match parse(data)
    case None => ParseFailed
    case Some(parsed) =>
      if parsed == JNull then Thrown
      else
        var error := Prop(parsed, "error");
        if TruthyOpt(error) then ApiError(Prop(error.value, "message"))
        else
          match Prop(parsed, "items")
          case Some(JArr(items)) =>
            (match MapVideos(items)
             case None => Thrown
             case Some(videos) => Resolved(videos))
          case _ => Thrown
  }

  /** An answer carrying an `error` object is rejected with its message,
      whatever else it carries; only an answer without a truthy `error` whose
      `items` is an array without `null` resolves, to those items mapped. */
  lemma SettleOutcomes(data: string, parse: string -> Option<Json>)
    ensures Settle(data, parse) == ParseFailed <==> parse(data).None?
    ensures parse(data).Some? && parse(data).value != JNull && TruthyOpt(Prop(parse(data).value, "error")) ==>
      Settle(data, parse) == ApiError(Prop(Prop(parse(data).value, "error").value, "message"))
    ensures Settle(data, parse).Resolved? <==>
      && parse(data).Some? && parse(data).value.JObj?
      && !TruthyOpt(Prop(parse(data).value, "error"))
      && Prop(parse(data).value, "items").Some? && Prop(parse(data).value, "items").value.JArr?
      && JNull !in Prop(parse(data).value, "items").value.items
    ensures Settle(data, parse).Resolved? ==>
      Settle(data, parse).videos == KeepMapped(Prop(parse(data).value, "items").value.items)
  {
  }

  /** The API's error answer `{error: {code, message}}` is rejected with its
      message text. */
  lemma ErrorAnswer(data: string, parse: string -> Option<Json>, code: int, message: string)
    requires parse(data) == Some(JObj([("error", JObj([("code", JNum(code)), ("message", JStr(message))]))]))
    ensures Settle(data, parse) == ApiError(Some(JStr(message)))
  {
    LookupPair(("code", JNum(code)), ("message", JStr(message)), "message");
  }
}
