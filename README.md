# Forensic subsidence report assistant — a Dafny model

The program is a one-page form. An assessor enters an insurer, a claim
reference, an address, an inspection date and an Eircode (an Irish postal
code), and may upload historical photographs. On submit the program:

1. checks that the OpenCage and Mapbox API keys are set;
2. geocodes the stripped Eircode;
3. asks the Geological Survey Ireland feature service for the bedrock at
   that point;
4. fetches a static Mapbox map image;
5. assembles a Word report with a title, three sections and, when photos
   were uploaded, a fourth, and offers it for download.

This project models that decision and assembly logic. The outside
services are inputs, not network calls:

- `text.dfy` (module `Text`): the Python string builtins the pipeline uses,
  over ASCII. These are `str.strip()`, `str.lower()` and the decimal
  rendering of a figure number, with its parse-back round trip.
- `services.dfy` (module `Services`): the three adapters
  `get_coords_from_eircode`, `query_gsi_geology` and `get_mapbox_image`.
  Each is a function from an abstract response to the adapter's result. A
  response is its status code, an optional results or features list, or an
  optional decoded image.
- `report.dfy` (module `ReportAssembly`): the `Document` class, a block
  sequence with `AddHeading`, `AddParagraph` and `AddPicture`. Also the
  specification `ReportBlocks` of the finished report, and `BuildReport`,
  which makes the source's calls in the source's order. The photo loop
  (`AddPhotoSection`) carries the figure index in its invariant.
  `BuildReport` is proved to build exactly `ReportBlocks`. Lemmas then
  state the properties of the report: its order, its block count, its
  headings, its pictures and the numbering of its figures.
- `pipeline.dfy` (module `Pipeline`): the submit branch as the method
  `Submit`. Its inputs are the secrets, the form, the three services (as
  functions from request to response) and the `:.5f` formatter. It returns
  an `Outcome` (`ConfigError | ResolutionError | Aborted | Report(blocks)`)
  and the list of requests it made. `Aborted` stands for an exception the
  source does not catch.

Points worth knowing about the code:

- A report always has 12 fixed blocks: the title, the section 1 heading,
  six claim paragraphs, the section 2 heading, a map picture or notice,
  the section 3 heading and the geology sentence. Photos add 1 + 2N blocks.
- The map comes from the Mapbox static-tile service only.
- The geology adapter never looks at the HTTP status. A non-200 response
  whose body still holds features yields a real sentence
  (`GeologyIgnoresStatus`).
- `if not lat` treats a latitude of exactly 0 as unresolved (`Resolved`).
  A document is only built after the Eircode resolved, so the Coordinates
  paragraph always holds coordinates.
- The geocoder and map requests are outside any `try`. A connection
  failure of either service, a 200 geocoder body without a `results`
  list, and a 200 map body that PIL cannot open all raise an exception the
  code does not catch. No report is produced, and the model gives
  `Aborted` for each. Geology failures never raise: the bare `except`
  turns every one, a connection failure included, into the fallback
  sentence.

## Model

| member | source | states |
|---|---|---|
| `Text.Strip` | app.py:74 | the stripped Eircode neither starts nor ends with white space, and it is a slice of the input with only white space cut from either end |
| `Text.StripIdempotent` | app.py:74 | stripping an already stripped string changes nothing |
| `Text.StripStripped` | app.py:74 | a string with no white space at either end is returned unchanged |
| `Text.LowerChar` | app.py:38 | an ASCII upper-case letter becomes its lower-case letter (code + 32); every other character is kept; the result is never upper case |
| `Text.Lower` | app.py:38 | lower-casing keeps the length, lower-cases each character in place, and leaves no upper-case letter |
| `Text.LowerIdempotent` | app.py:38 | lower-casing twice is the same as lower-casing once |
| `Text.NatToString` | app.py:108-112 | a figure number renders as at least one decimal digit, with no leading zero |
| `Text.NatToStringRoundTrip` | app.py:108-112 | parsing the rendered digits gives back the figure number |
| `Text.NatToStringInjective` | app.py:108-112 | different figure numbers render differently |
| `Services.Geocode` | app.py:11-20 | coordinates exactly when the status is 200 and the results list is non-empty, and then they are the first result's lat/lng; (None, None) for any other status or an empty list; an uncaught exception when the request itself fails or a 200 body has no results list |
| `Services.GeocodeReadsFirstResultOnly` | app.py:16-19 | results after the first one never change the geocoding answer |
| `Services.RockName` | app.py:36-37 | a rock name exists exactly when there is a first feature whose ROCKNAME is a string, and it is that string |
| `Services.GeologySentence` | app.py:33-41 | the template "The underlying bedrock geology is primarily " + lower(ROCKNAME) + "." when a rock name exists, else exactly "Geological information unavailable."; never empty |
| `Services.GeologyFallbackExactly` | app.py:36-41 | the sentence equals the fallback if and only if no rock name could be read |
| `Services.GeologyRockRecoverable` | app.py:38 | the lower-cased rock name reads back from the sentence between the template prefix and the final full stop |
| `Services.GeologyIgnoresStatus` | app.py:34-36 | the geology response's status code never changes the sentence |
| `Services.GeologyFallbackCases` | app.py:33-41 | an empty feature list, an unreadable body or no response at all give the fallback word for word |
| `Services.GeologyCaseInsensitive` | app.py:38 | a rock name and its lower-case spelling give the same sentence |
| `Services.GeologyChalk` | app.py:37-38 | ROCKNAME "CHALK" on the first feature gives "The underlying bedrock geology is primarily chalk.", whatever features follow |
| `Services.FetchMap` | app.py:48-51 | status 200 with a decodable body yields that image; any other status yields None; a failed request or a 200 body PIL cannot open raises |
| `ReportAssembly.Document.constructor` | app.py:82 | a new document holds no blocks |
| `ReportAssembly.Document.AddHeading` | app.py:83 | appends one heading block with the given text and level 0..9 and changes nothing else |
| `ReportAssembly.Document.AddParagraph` | app.py:86 | appends one paragraph block and changes nothing else |
| `ReportAssembly.Document.AddPicture` | app.py:97 | appends one picture block with the given image and width and changes nothing else |
| `ReportAssembly.FixedBlocks` | app.py:83-103 | the title and sections 1 to 3 are always exactly 12 blocks |
| `ReportAssembly.Figures` | app.py:108-113 | each photo contributes two blocks, none of them a heading, and every picture has the fixed width |
| `ReportAssembly.FiguresPrefixStep` | app.py:108-113 | the figures of the first i + 1 photos are those of the first i, then caption number i + 1 and photo i's picture |
| `ReportAssembly.FiguresSnoc` | app.py:108-113 | one more iteration of the photo loop appends that photo's caption, numbered after those already there, then its picture |
| `ReportAssembly.AddInfoSection` | app.py:85-91 | appends the section 1 heading, then the Insurer, Claim Ref, Address, Eircode, Coordinates and Inspection Date paragraphs, and nothing else |
| `ReportAssembly.AddMapSection` | app.py:93-100 | appends the section 2 heading, then the map picture at the fixed width when there is an image, else the notice paragraph |
| `ReportAssembly.AddGeologySection` | app.py:102-103 | appends the section 3 heading, then the geology sentence |
| `ReportAssembly.AddPhotoSection` | app.py:106-113 | with photos: appends the section 4 heading and, for idx = 1..N, caption idx and picture idx in upload order; without photos: appends nothing |
| `ReportAssembly.BuildReport` | app.py:82-113 | the document built by the source's sequence of calls is exactly `ReportBlocks` of its inputs |
| `ReportAssembly.FiguresAt` | app.py:108-113 | N photos give 2N blocks; block 2i is the caption "Figure (first+i): name_i" and block 2i+1 is photo i's picture at the fixed width |
| `ReportAssembly.ReportLength` | app.py:82-113 | the report has 12 blocks, plus 1 + 2N when N > 0 photos were uploaded |
| `ReportAssembly.ReportOpening` | app.py:83-91 | it opens with "Subsidence Report" at level 0, then "1. Property & Claim Info", then the Insurer, Claim Ref, Address, Eircode, Coordinates and Inspection Date paragraphs, in that order |
| `ReportAssembly.ReportMapAndGeology` | app.py:93-103 | section 2 holds exactly one picture of the map image when there is one, else exactly "Map image unavailable."; section 3 holds the geology sentence verbatim |
| `ReportAssembly.PhotoSectionAt` | app.py:106-113 | with N > 0 photos, section 4 is 1 + 2N blocks: its heading, then at positions 2i - 1 and 2i the caption "Figure i: name_i" and picture i |
| `ReportAssembly.ReportPhotos` | app.py:106-113 | without photos nothing follows section 3; with N photos the "4. Historical Photos" heading is followed, for i = 1..N, by "Figure i: name_i" and picture i at the map's width |
| `ReportAssembly.HeadingsAppend` | app.py:82-113 | the headings of two concatenated block runs are the headings of each, in order |
| `ReportAssembly.HeadingsNone` | app.py:86-91 | a run of non-heading blocks has no headings |
| `ReportAssembly.SectionHeadings` | app.py:85-91 | a section's heading followed by paragraphs and pictures contributes just that heading |
| `ReportAssembly.FixedHeadings` | app.py:83-102 | the headings of the fixed part are the title, then sections 1, 2 and 3 |
| `ReportAssembly.ReportHeadings` | app.py:83-107 | the report's headings are the title, then sections 1, 2, 3 and, only when photos were uploaded, 4, in that order; there are no others |
| `ReportAssembly.HeadingInHeadings` | app.py:82-113 | every heading block of a document is among its headings |
| `ReportAssembly.PhotosHeadingExactly` | app.py:106-107 | the "4. Historical Photos" heading is in the report if and only if the photo list is non-empty |
| `ReportAssembly.PicturesAppend` | app.py:82-113 | the pictures of two concatenated block runs are the pictures of each, in order |
| `ReportAssembly.PicturesNone` | app.py:86-91 | a run of blocks without pictures embeds no image |
| `ReportAssembly.FiguresPictures` | app.py:108-113 | the figure blocks embed exactly the uploaded images, in upload order |
| `ReportAssembly.FixedPictures` | app.py:93-100 | the fixed part embeds the map image when there is one, and no other image |
| `ReportAssembly.PhotoSectionPictures` | app.py:106-113 | section 4 embeds exactly the uploaded images, in upload order |
| `ReportAssembly.ReportPictures` | app.py:93-113 | the report embeds the map image (if any) and then every photo in upload order, and nothing else |
| `ReportAssembly.ReportPictureWidths` | app.py:97-113 | every picture of the report, the map's and each photo's, is 5.5 inches (5029200 EMU) wide |
| `ReportAssembly.CaptionsDistinct` | app.py:112 | captions with different figure numbers differ, whatever the file names |
| `Pipeline.GeocodeRequest` | app.py:74 | the geocoder is asked with the OpenCage key and the form's Eircode with only white space cut from either end, leaving no white space at either end |
| `Pipeline.Submit` | app.py:68-117 | a configuration error exactly when a key is empty, and then no request at all. Otherwise the geocoding request comes first. When the latitude is None or 0 the outcome is a resolution error, or Aborted when geocoding raised, with no geology, map or document work. Otherwise the geology and map requests follow, in that order, and the report is `ReportBlocks` of the answers, or Aborted when the map body cannot be decoded. A report only ever follows a resolved location |
| `Pipeline.MapNotFoundGivesNotice` | app.py:48-51 | a 404 from the map service puts "Map image unavailable." in section 2, and the report then embeds only the uploaded photos |

## Left out

- Network I/O (`requests.get`), JSON decoding and the building of the three request URLs and the WFS query parameters. Responses are abstract inputs, and the services are functions of the request. A request that fails to connect is the `GeocoderUnreachable`, `Unreachable` or `MapUnreachable` response; which exception it raises is not modelled.
- Streamlit presentation: the form widgets, `st.error`, `st.success`, `st.image`, `st.info` and `st.download_button`. The outcome datatype stands for them.
- Serialisation of the document to a byte buffer and the download file name. The report is its block sequence.
- Python float coordinates are modelled as `real` (`GeoResult`, `Geocoded`, `Call`). A NaN latitude cannot be represented; it cannot come out of the geocoder's JSON, and `not lat` treats 0.0 and -0.0 alike, as `Resolved` does with the real 0.
- `:.5f` and `strftime('%d %B %Y')`: float and locale formatting. The formatter is a parameter of `Submit`, and the date reaches the model already formatted.
- PIL decoding and saving, and the `/tmp` scratch files, including possible file-name collisions between photos.
- An uploaded photo that PIL cannot open, which would raise at app.py:109. Photos are modelled as already decoded images.
- A geocoding result whose `geometry` lacks `lat` or `lng` (a KeyError). Each result always carries both.
- Text.Lower: models ASCII case mapping only, not the full Unicode rules of `str.lower()`.
- Text.Strip: strips the ASCII white space that `str.isspace()` accepts, not the non-ASCII white-space characters.
- `ReportAssembly.Document.AddHeading` requires a level of 0 to 9, because python-docx raises outside that range. The source uses only 0 and 1.
