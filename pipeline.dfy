/** The submit branch of the form (app.py, lines 68-117): check the two
    API keys, geocode the Eircode, then query geology and the static map
    and assemble the report. The three outside services are parameters:
    each is a function from the request the source sends to the response
    it receives, and `calls` records, in order, every request made. The
    five-decimal rendering of a coordinate (Python's `:.5f`) is a
    parameter too. */
module Pipeline {
  import opened Text
  import opened Services
  import opened ReportAssembly

  /** The two keys read from the secrets store, "" when a key is unset. */
  datatype Secrets = Secrets(opencageKey: string, mapboxKey: string)

  /** One submission of the form. */
  datatype ClaimForm = ClaimForm(details: ClaimDetails, photos: seq<Photo>)

  /** A request sent to an outside service. */
  datatype Call =
    | GeocodeCall(query: string, key: string)
    | GeologyCall(lat: real, lon: real)
    | MapCall(lat: real, lon: real, token: string)

  /** How a submission ends: the missing-keys error, the unresolved-Eircode
      error, an exception the source does not catch, or a finished report
      offered for download. */
  datatype Outcome = ConfigError | ResolutionError | Aborted | Report(blocks: seq<Block>)

  /** `not opencage_key or not mapbox_key`: an empty string is falsy. */
  predicate KeysMissing(keys: Secrets) {
    keys.opencageKey == "" || keys.mapboxKey == ""
  }

  /** `not lat` is false: the geocoder gave coordinates and the latitude is
      not 0 (Python treats 0.0 as falsy, so a latitude of exactly 0 counts
      as unresolved). */
  predicate Resolved(g: Geocoded) {
    g.Coords? && g.lat != 0.0
  }

  /** The geocoding request: the stripped Eircode with the OpenCage key. */
  function GeocodeRequest(keys: Secrets, form: ClaimForm): (c: Call)
    ensures c.GeocodeCall? && c.key == keys.opencageKey
    ensures c.query == [] || (!IsSpace(c.query[0]) && !IsSpace(c.query[|c.query| - 1]))
    ensures var e := form.details.eircode;
            exists a {:trigger e[..a]} :: 0 <= a && a + |c.query| <= |e| && c.query == e[a..a + |c.query|]
                                          && AllSpace(e[..a]) && AllSpace(e[a + |c.query|..])
  {
    GeocodeCall(Strip(form.details.eircode), keys.opencageKey)
  }

  /** What the geocoder answers to that request. */
  function Located(keys: Secrets, form: ClaimForm, geocoder: (string, string) -> GeocodeResponse): Geocoded {
    Geocode(geocoder(GeocodeRequest(keys, form).query, keys.opencageKey))
  }

  /** The text of the Coordinates paragraph, "lat, lon". */
  function CoordinatesText(format5: real -> string, lat: real, lon: real): string {
    format5(lat) + ", " + format5(lon)
  }

  /** Runs one submission. Missing keys stop it before any request; an
      Eircode that does not resolve stops it after the geocoding request
      and before geology, map or document work; otherwise the geology and
      map requests follow, in that order, and the report is the one
      ReportBlocks describes for the answers received. */
  method Submit(keys: Secrets, form: ClaimForm,
                geocoder: (string, string) -> GeocodeResponse,
                geology: (real, real) -> GeologyResponse,
                staticMap: (real, real, string) -> MapResponse,
                format5: real -> string)
    returns (outcome: Outcome, calls: seq<Call>)
    ensures outcome == ConfigError <==> KeysMissing(keys)
    ensures KeysMissing(keys) ==> calls == []
    ensures !KeysMissing(keys) ==> |calls| >= 1 && calls[0] == GeocodeRequest(keys, form)
    ensures var g := Located(keys, form, geocoder);
            !KeysMissing(keys) && !Resolved(g) ==>
              calls == [GeocodeRequest(keys, form)]
              && outcome == (if g.GeocodeRaised? then Aborted else ResolutionError)
    ensures var g := Located(keys, form, geocoder);
            !KeysMissing(keys) && Resolved(g) ==>
              calls == [GeocodeRequest(keys, form), GeologyCall(g.lat, g.lng),
                        MapCall(g.lat, g.lng, keys.mapboxKey)]
              && var fetched := FetchMap(staticMap(g.lat, g.lng, keys.mapboxKey));
                 outcome == if fetched.MapRaised? then Aborted
                            else Report(ReportBlocks(form.details, CoordinatesText(format5, g.lat, g.lng),
                                                     MapImage(fetched), GeologySentence(geology(g.lat, g.lng)),
                                                     form.photos))
    ensures outcome.Report? ==> !KeysMissing(keys) && Resolved(Located(keys, form, geocoder))
  {
    if KeysMissing(keys) {
      return ConfigError, [];
    }
    var query := Strip(form.details.eircode);
    var located := Geocode(geocoder(query, keys.opencageKey));
    calls := [GeocodeCall(query, keys.opencageKey)];
    if located.GeocodeRaised? {
      return Aborted, calls;
    }
    if !Resolved(located) {
      return ResolutionError, calls;
    }
    var lat, lon := located.lat, located.lng;
    var summary := GeologySentence(geology(lat, lon));
    calls := calls + [GeologyCall(lat, lon)];
    var fetched := FetchMap(staticMap(lat, lon, keys.mapboxKey));
    calls := calls + [MapCall(lat, lon, keys.mapboxKey)];
    if fetched.MapRaised? {
      return Aborted, calls;
    }
    var blocks := BuildReport(form.details, CoordinatesText(format5, lat, lon), MapImage(fetched),
                              summary, form.photos);
    outcome := Report(blocks);
  }

  /** A map service answering 404 leaves the notice in section 2, and the
      report then embeds the uploaded photos only. */
  lemma MapNotFoundGivesNotice(details: ClaimDetails, coordinates: string, content: Option<ImageId>,
                               summary: string, photos: seq<Photo>)
    ensures var b := ReportBlocks(details, coordinates, MapImage(FetchMap(MapResponse(404, content))),
                                  summary, photos);
            |b| >= 12 && b[9] == Paragraph("Map image unavailable.") && Pictures(b) == PhotoImages(photos)
  {
    var m := MapImage(FetchMap(MapResponse(404, content)));
    ReportMapAndGeology(details, coordinates, m, summary, photos);
    ReportPictures(details, coordinates, m, summary, photos);
  }
}
