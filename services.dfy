/** The three adapters around outside services (app.py, lines 11-51), each
    modelled as a function from the service's response to what the adapter
    returns. The HTTP request itself is not modelled: the response is an
    input, and only the parts of it the adapter reads are represented. */
module Services {
  import opened Text

  datatype Option<T> = None | Some(value: T)

  /** An image the pipeline holds (a decoded map snapshot or an uploaded
      photograph), identified abstractly. */
  type ImageId = nat

  // ---------------------------------------------------------------------
  // Geocoding: get_coords_from_eircode

  /** The `geometry` of one element of the geocoder's `results` list. */
  datatype GeoResult = GeoResult(lat: real, lng: real)

  /** A geocoder response: no response at all (`requests.get` raised, as on
      a connection or DNS failure), or its HTTP status and, when its body is
      JSON with a `results` list, that list (None when reading `results`
      raises). */
  datatype GeocodeResponse =
    | GeocoderUnreachable
    | GeocodeResponse(status: int, results: Option<seq<GeoResult>>)

  /** What get_coords_from_eircode gives its caller: the pair (lat, lng),
      the pair (None, None), or an exception it does not catch. */
  datatype Geocoded = Coords(lat: real, lng: real) | NoCoords | GeocodeRaised

  /** The first result's coordinates when the status is 200 and the list
      is non-empty; (None, None) for any other status or an empty list; an
      exception when there is no response (the request is outside any
      `try`) or a 200 response has no readable `results` list. */
  function Geocode(resp: GeocodeResponse): (g: Geocoded)
    ensures g.Coords? <==> resp.GeocodeResponse? && resp.status == 200 && resp.results.Some?
                           && resp.results.value != []
    ensures g.Coords? ==> g == Coords(resp.results.value[0].lat, resp.results.value[0].lng)
    ensures g.GeocodeRaised? <==> resp.GeocoderUnreachable?
                                  || (resp.status == 200 && resp.results.None?)
    ensures g.NoCoords? <==> resp.GeocodeResponse? && (resp.status != 200 || resp.results == Some([]))
  {
    if resp.GeocoderUnreachable? then GeocodeRaised
    else if resp.status == 200 then
      match resp.results
      case None => GeocodeRaised
      case Some(results) =>
        if results != [] then Coords(results[0].lat, results[0].lng) else NoCoords
    else NoCoords
  }

  /** Only the first result is read: the request asks for `limit=1`, and
      anything after the first element cannot change the answer. */
  lemma GeocodeReadsFirstResultOnly(status: int, first: GeoResult, rest1: seq<GeoResult>, rest2: seq<GeoResult>)
    ensures Geocode(GeocodeResponse(status, Some([first] + rest1)))
         == Geocode(GeocodeResponse(status, Some([first] + rest2)))
  {
  }

  // ---------------------------------------------------------------------
  // Geology: query_gsi_geology

  const GeologyPrefix: string := "The underlying bedrock geology is primarily "
  const GeologyFallback: string := "Geological information unavailable."

  /** The `properties.ROCKNAME` of a feature: absent (a missing key), a
      string, or some other JSON value (null, a number, ...). */
  datatype Attribute = Missing | Str(text: string) | NotStr

  datatype Feature = Feature(rockName: Attribute)

  /** A response of the geology service: the request raised (no response),
      or a response with a status and, when the body is JSON holding a
      non-empty `features` list, that list (None stands for every body
      whose `features` is missing, not JSON, or falsy). */
  datatype GeologyResponse =
    | Unreachable
    | Received(status: int, features: Option<seq<Feature>>)

  /** The rock name the adapter puts into its sentence: the first feature's
      ROCKNAME, when there is a first feature and that name is a string. */
  function RockName(resp: GeologyResponse): (r: Option<string>)
    ensures r.Some? <==> resp.Received? && resp.features.Some? && resp.features.value != []
                         && resp.features.value[0].rockName.Str?
    ensures r.Some? ==> r.value == resp.features.value[0].rockName.text
  {
    match resp
    case Unreachable => None
    case Received(_, features) =>
      match features
      case None => None
      case Some(fs) =>
        if fs != [] then
          match fs[0].rockName
          case Str(name) => Some(name)
          case _ => None
        else None
  }

  /** The geology sentence: the template around the lower-cased rock name,
      or the fixed fallback on every other path (the source's bare `except`
      turns each failure into the fallback). Never empty. */
  function GeologySentence(resp: GeologyResponse): (r: string)
    ensures r != []
    ensures RockName(resp).Some? ==> r == GeologyPrefix + Lower(RockName(resp).value) + "."
    ensures RockName(resp).None? ==> r == GeologyFallback
  {
    match RockName(resp)
    case Some(rock) => GeologyPrefix + Lower(rock) + "."
    case None => GeologyFallback
  }

  /** The fallback is given exactly when no rock name could be read: a
      sentence from the template never equals the fallback. */
  lemma GeologyFallbackExactly(resp: GeologyResponse)
    ensures GeologySentence(resp) == GeologyFallback <==> RockName(resp).None?
  {
    if RockName(resp).Some? {
      var r := GeologySentence(resp);
      assert r == GeologyPrefix + (Lower(RockName(resp).value) + ".");
      assert r[0] == GeologyPrefix[0] == 'T';
      assert GeologyFallback[0] == 'G';
    }
  }

  /** The lower-cased rock name can be read back from the sentence, between
      the template's prefix and its final full stop. */
  lemma GeologyRockRecoverable(resp: GeologyResponse)
    requires RockName(resp).Some?
    ensures var r := GeologySentence(resp);
            |GeologyPrefix| < |r| && r[|GeologyPrefix|..|r| - 1] == Lower(RockName(resp).value)
            && r[|r| - 1] == '.'
  {
    var r := GeologySentence(resp);
    var low := Lower(RockName(resp).value);
    assert r == GeologyPrefix + low + ".";
    assert r[|GeologyPrefix|..|r| - 1] == low;
  }

  /** The status code of the geology response is never consulted: two
      responses that differ only in status give the same sentence. */
  lemma GeologyIgnoresStatus(s1: int, s2: int, features: Option<seq<Feature>>)
    ensures GeologySentence(Received(s1, features)) == GeologySentence(Received(s2, features))
  {
  }

  /** An empty or unreadable feature list, or no response at all, gives
      the fallback sentence word for word. */
  lemma GeologyFallbackCases(status: int)
    ensures GeologySentence(Received(status, Some([]))) == GeologyFallback
    ensures GeologySentence(Received(status, None)) == GeologyFallback
    ensures GeologySentence(Unreachable) == GeologyFallback
  {
  }

  /** A rock name and its lower-cased spelling give the same sentence. */
  lemma GeologyCaseInsensitive(status: int, rock: string)
    ensures GeologySentence(Received(status, Some([Feature(Str(rock))])))
         == GeologySentence(Received(status, Some([Feature(Str(Lower(rock)))])))
  {
    LowerIdempotent(rock);
  }

  /** A worked instance of the template, for a reader who wants to see one
      concrete sentence: a first feature whose ROCKNAME is "CHALK" gives
      the sentence ending in "chalk.", whatever features follow it. The
      general statement is GeologyRockRecoverable. */
  lemma GeologyChalk(status: int, rest: seq<Feature>)
    ensures GeologySentence(Received(status, Some([Feature(Str("CHALK"))] + rest)))
         == GeologyPrefix + "chalk."
  {
    var lower := Lower("CHALK");
    assert lower[0] == 'c' && lower[1] == 'h' && lower[2] == 'a';
    assert lower[3] == 'l' && lower[4] == 'k';
    assert lower + "." == "chalk.";
  }

  // ---------------------------------------------------------------------
  // Map snapshot: get_mapbox_image

  /** A static-map response: no response at all (`requests.get` raised), or
      its status and, when its body is an image that PIL can open, that
      image (None otherwise). */
  datatype MapResponse =
    | MapUnreachable
    | MapResponse(status: int, content: Option<ImageId>)

  /** What get_mapbox_image gives its caller: an image, None, or the
      exception PIL raises on a 200 body that is not an image. */
  datatype MapFetch = MapPicture(image: ImageId) | MapUnavailable | MapRaised

  /** Status 200 yields the decoded image; any other status yields None; no
      response, or a 200 body that is not an image, raises (neither the
      request nor the decoding is inside a `try`). */
  function FetchMap(resp: MapResponse): (m: MapFetch)
    ensures m.MapPicture? <==> resp.MapResponse? && resp.status == 200 && resp.content.Some?
    ensures m.MapPicture? ==> m.image == resp.content.value
    ensures m.MapUnavailable? <==> resp.MapResponse? && resp.status != 200
    ensures m.MapRaised? <==> resp.MapUnreachable? || (resp.status == 200 && resp.content.None?)
  {
    if resp.MapUnreachable? then MapRaised
    else if resp.status == 200 then
      match resp.content
      case Some(image) => MapPicture(image)
      case None => MapRaised
    else MapUnavailable
  }

  /** The image the report embeds for the map, if any. */
  function MapImage(m: MapFetch): Option<ImageId> {
    if m.MapPicture? then Some(m.image) else None
  }
}
