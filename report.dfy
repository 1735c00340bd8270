/** The Word report (app.py, lines 82-113): a document built in place by
    successive add_heading, add_paragraph and add_picture calls, modelled
    as a sequence of blocks. `ReportBlocks` states the finished document;
    `BuildReport` assembles it step by step on a `Document` object, as the
    source does, and is proved to produce exactly `ReportBlocks`. */
module ReportAssembly {
  import opened Text
  import opened Services

  /** The display width of every embedded picture: python-docx's
      Inches(5.5), which is 5.5 * 914400 English Metric Units. */
  const PictureWidth: nat := 5029200

  datatype Block =
    | Heading(text: string, level: nat)
    | Paragraph(text: string)
    | Picture(image: ImageId, width: nat)

  /** An uploaded historical photograph: its file name and its image. */
  datatype Photo = Photo(name: string, image: ImageId)

  /** The claim details typed into the form, as they are written into the
      report. `inspectionDate` is already formatted as "DD Month YYYY"
      and `eircode` is the text as entered (not stripped). */
  datatype ClaimDetails = ClaimDetails(
    insurer: string,
    claimRef: string,
    address: string,
    eircode: string,
    inspectionDate: string)

  const Title: string := "Subsidence Report"
  const InfoHeading: string := "1. Property & Claim Info"
  const MapHeading: string := "2. Site Location Map"
  const GeologyHeading: string := "3. Geological Summary"
  const PhotosHeading: string := "4. Historical Photos"
  const MapNotice: string := "Map image unavailable."

  /** A python-docx document: the blocks added so far, in order. */
  class Document {
    var blocks: seq<Block>

    constructor ()
      ensures blocks == []
    {
      blocks := [];
    }

    /** add_heading accepts levels 0 to 9 only. */
    method AddHeading(text: string, level: nat)
      requires level <= 9
      modifies this
      ensures blocks == old(blocks) + [Heading(text, level)]
    {
      blocks := blocks + [Heading(text, level)];
    }

    method AddParagraph(text: string)
      modifies this
      ensures blocks == old(blocks) + [Paragraph(text)]
    {
      blocks := blocks + [Paragraph(text)];
    }

    method AddPicture(image: ImageId, width: nat)
      modifies this
      ensures blocks == old(blocks) + [Picture(image, width)]
    {
      blocks := blocks + [Picture(image, width)];
    }
  }

  // ---------------------------------------------------------------------
  // The finished document

  /** Section 1: its heading and the six claim paragraphs, in order.
      `coordinates` is the "lat, lon" text with five decimals each. */
  function InfoSection(details: ClaimDetails, coordinates: string): seq<Block> {
    [ Heading(InfoHeading, 1),
      Paragraph("Insurer: " + details.insurer),
      Paragraph("Claim Ref: " + details.claimRef),
      Paragraph("Address: " + details.address),
      Paragraph("Eircode: " + details.eircode),
      Paragraph("Coordinates: " + coordinates),
      Paragraph("Inspection Date: " + details.inspectionDate) ]
  }

  /** Section 2: the map picture when there is an image, else the notice. */
  function MapSection(mapImage: Option<ImageId>): seq<Block> {
    [ Heading(MapHeading, 1),
      if mapImage.Some? then Picture(mapImage.value, PictureWidth) else Paragraph(MapNotice) ]
  }

  /** Section 3: the geology sentence, verbatim. */
  function GeologySection(summary: string): seq<Block> {
    [Heading(GeologyHeading, 1), Paragraph(summary)]
  }

  /** The caption of figure `n`. */
  function Caption(n: nat, name: string): string {
    "Figure " + NatToString(n) + ": " + name
  }

  /** Caption and picture for each photo, numbered from `first`: two
      blocks per photo, none of them a heading, every picture at the
      fixed width. */
  function Figures(photos: seq<Photo>, first: nat): (f: seq<Block>)
    ensures |f| == 2 * |photos|
    ensures forall k :: 0 <= k < |f| ==> !f[k].Heading?
    ensures forall k :: 0 <= k < |f| && f[k].Picture? ==> f[k].width == PictureWidth
    decreases |photos|
  {
    if photos == [] then []
    else [Paragraph(Caption(first, photos[0].name)), Picture(photos[0].image, PictureWidth)]
         + Figures(photos[1..], first + 1)
  }

  /** Section 4, present only when photos were uploaded. */
  function PhotoSection(photos: seq<Photo>): seq<Block> {
    if photos == [] then [] else [Heading(PhotosHeading, 1)] + Figures(photos, 1)
  }

  /** The twelve blocks every report has: the title at level 0, then
      sections 1 to 3. */
  function FixedBlocks(details: ClaimDetails, coordinates: string, mapImage: Option<ImageId>,
                       summary: string): (b: seq<Block>)
    ensures |b| == 12
  {
    [Heading(Title, 0)] + InfoSection(details, coordinates) + MapSection(mapImage)
    + GeologySection(summary)
  }

  /** The whole report: the title, sections 1 to 3, then section 4. */
  function ReportBlocks(details: ClaimDetails, coordinates: string, mapImage: Option<ImageId>,
                        summary: string, photos: seq<Photo>): seq<Block>
  {
    FixedBlocks(details, coordinates, mapImage, summary) + PhotoSection(photos)
  }

  // ---------------------------------------------------------------------
  // Building it in place

  /** Appending one more photo appends its caption and picture, numbered
      after those already there. */
  lemma {:induction false} FiguresSnoc(photos: seq<Photo>, p: Photo, first: nat)
    ensures Figures(photos + [p], first)
         == Figures(photos, first)
            + [Paragraph(Caption(first + |photos|, p.name)), Picture(p.image, PictureWidth)]
    decreases |photos|
  {
    if photos == [] {
      assert photos + [p] == [p];
    } else {
      assert (photos + [p])[1..] == photos[1..] + [p];
      FiguresSnoc(photos[1..], p, first + 1);
    }
  }

  /** The figures of the first i + 1 photos are those of the first i,
      then photo i's caption, numbered i + 1, and its picture. */
  lemma FiguresPrefixStep(photos: seq<Photo>, i: nat)
    requires i < |photos|
    ensures Figures(photos[..i + 1], 1)
         == Figures(photos[..i], 1)
            + [Paragraph(Caption(i + 1, photos[i].name)), Picture(photos[i].image, PictureWidth)]
  {
    assert photos[..i + 1] == photos[..i] + [photos[i]];
    FiguresSnoc(photos[..i], photos[i], 1);
  }

  lemma AppendAssoc<T>(a: seq<T>, b: seq<T>, c: seq<T>)
    ensures (a + b) + c == a + (b + c)
  {
  }

  lemma AppendTwo(a: seq<Block>, b: seq<Block>, x: Block, y: Block)
    ensures a + b + [x] + [y] == a + (b + [x, y])
  {
  }

  /** Section 4 on `doc`: when photos were uploaded, the heading, then for
      each photo (numbered from 1 in upload order) its caption and its
      picture; nothing otherwise. */
  method AddPhotoSection(doc: Document, photos: seq<Photo>)
    modifies doc
    ensures doc.blocks == old(doc.blocks) + PhotoSection(photos)
  {
    if photos != [] {
      doc.AddHeading(PhotosHeading, 1);
      ghost var head := doc.blocks;
      var idx := 1;
      while idx <= |photos|
        invariant 1 <= idx <= |photos| + 1
        invariant doc.blocks == head + Figures(photos[..idx - 1], 1)
      {
        var photo := photos[idx - 1];
        doc.AddParagraph(Caption(idx, photo.name));
        doc.AddPicture(photo.image, PictureWidth);
        FiguresPrefixStep(photos, idx - 1);
        AppendTwo(head, Figures(photos[..idx - 1], 1), Paragraph(Caption(idx, photo.name)),
                  Picture(photo.image, PictureWidth));
        idx := idx + 1;
      }
      assert photos[..|photos|] == photos;
      AppendAssoc(old(doc.blocks), [Heading(PhotosHeading, 1)], Figures(photos, 1));
    } else {
      assert old(doc.blocks) + [] == old(doc.blocks);
    }
  }

  /** Section 1 on `doc`: its heading, then the six claim paragraphs. */
  method AddInfoSection(doc: Document, details: ClaimDetails, coordinates: string)
    modifies doc
    ensures doc.blocks == old(doc.blocks) + InfoSection(details, coordinates)
  {
    doc.AddHeading(InfoHeading, 1);
    doc.AddParagraph("Insurer: " + details.insurer);
    doc.AddParagraph("Claim Ref: " + details.claimRef);
    doc.AddParagraph("Address: " + details.address);
    doc.AddParagraph("Eircode: " + details.eircode);
    doc.AddParagraph("Coordinates: " + coordinates);
    doc.AddParagraph("Inspection Date: " + details.inspectionDate);
  }

  /** Section 2 on `doc`: its heading, then the map picture or the notice. */
  method AddMapSection(doc: Document, mapImage: Option<ImageId>)
    modifies doc
    ensures doc.blocks == old(doc.blocks) + MapSection(mapImage)
  {
    doc.AddHeading(MapHeading, 1);
    if mapImage.Some? {
      doc.AddPicture(mapImage.value, PictureWidth);
    } else {
      doc.AddParagraph(MapNotice);
    }
  }

  /** Section 3 on `doc`: its heading, then the geology sentence. */
  method AddGeologySection(doc: Document, summary: string)
    modifies doc
    ensures doc.blocks == old(doc.blocks) + GeologySection(summary)
  {
    doc.AddHeading(GeologyHeading, 1);
    doc.AddParagraph(summary);
  }

  /** Assembles the report on a fresh document, in the source's order of
      calls, and returns the blocks it holds at the end. */
  method BuildReport(details: ClaimDetails, coordinates: string, mapImage: Option<ImageId>,
                     summary: string, photos: seq<Photo>)
    returns (blocks: seq<Block>)
    ensures blocks == ReportBlocks(details, coordinates, mapImage, summary, photos)
  {
    var doc := new Document();
    doc.AddHeading(Title, 0);
    AddInfoSection(doc, details, coordinates);
    AddMapSection(doc, mapImage);
    AddGeologySection(doc, summary);
    assert doc.blocks == FixedBlocks(details, coordinates, mapImage, summary);
    AddPhotoSection(doc, photos);
    blocks := doc.blocks;
  }

  // ---------------------------------------------------------------------
  // What the finished report contains

  /** N photos give 2N figure blocks: caption i (numbered first + i) is
      followed by picture i, at the fixed width, in upload order. */
  lemma {:induction false} FiguresAt(photos: seq<Photo>, first: nat)
    ensures |Figures(photos, first)| == 2 * |photos|
    ensures forall i :: 0 <= i < |photos| ==>
              Figures(photos, first)[2 * i] == Paragraph(Caption(first + i, photos[i].name))
              && Figures(photos, first)[2 * i + 1] == Picture(photos[i].image, PictureWidth)
    decreases |photos|
  {
    if photos != [] {
      var rest := photos[1..];
      FiguresAt(rest, first + 1);
      var f := Figures(photos, first);
      var g := Figures(rest, first + 1);
      assert f == [Paragraph(Caption(first, photos[0].name)), Picture(photos[0].image, PictureWidth)] + g;
      forall i | 1 <= i < |photos|
        ensures f[2 * i] == Paragraph(Caption(first + i, photos[i].name))
        ensures f[2 * i + 1] == Picture(photos[i].image, PictureWidth)
      {
        assert photos[i] == rest[i - 1];
        assert f[2 * i] == g[2 * (i - 1)];
        assert f[2 * i + 1] == g[2 * (i - 1) + 1];
      }
    }
  }

  /** The report has 12 blocks, plus 1 + 2N when N > 0 photos were given. */
  lemma ReportLength(details: ClaimDetails, coordinates: string, mapImage: Option<ImageId>,
                     summary: string, photos: seq<Photo>)
    ensures |ReportBlocks(details, coordinates, mapImage, summary, photos)|
         == 12 + (if photos == [] then 0 else 1 + 2 * |photos|)
  {
    FiguresAt(photos, 1);
  }

  /** The report opens with the title at level 0, the section 1 heading and
      the six claim paragraphs, in the order Insurer, Claim Ref, Address,
      Eircode, Coordinates, Inspection Date. */
  lemma ReportOpening(details: ClaimDetails, coordinates: string, mapImage: Option<ImageId>,
                      summary: string, photos: seq<Photo>)
    ensures ReportBlocks(details, coordinates, mapImage, summary, photos)[..8]
         == [ Heading("Subsidence Report", 0),
              Heading("1. Property & Claim Info", 1),
              Paragraph("Insurer: " + details.insurer),
              Paragraph("Claim Ref: " + details.claimRef),
              Paragraph("Address: " + details.address),
              Paragraph("Eircode: " + details.eircode),
              Paragraph("Coordinates: " + coordinates),
              Paragraph("Inspection Date: " + details.inspectionDate) ]
  {
  }

  /** Sections 2 and 3: the map heading, then exactly one picture of the
      map image when there is one and otherwise exactly the notice, then
      the geology heading and the geology sentence word for word. */
  lemma ReportMapAndGeology(details: ClaimDetails, coordinates: string, mapImage: Option<ImageId>,
                            summary: string, photos: seq<Photo>)
    ensures var b := ReportBlocks(details, coordinates, mapImage, summary, photos);
            |b| >= 12
            && b[8] == Heading("2. Site Location Map", 1)
            && (mapImage.Some? ==> b[9] == Picture(mapImage.value, PictureWidth))
            && (mapImage.None? ==> b[9] == Paragraph("Map image unavailable."))
            && b[10] == Heading("3. Geological Summary", 1)
            && b[11] == Paragraph(summary)
  {
  }

  /** Section 4 after any twelve blocks: its heading at index 12, then for
      i = 1..N caption i at index 11 + 2i and picture i right after it. */
  lemma PhotoSectionAt(photos: seq<Photo>)
    requires photos != []
    ensures var p := PhotoSection(photos);
            |p| == 1 + 2 * |photos|
            && p[0] == Heading(PhotosHeading, 1)
            && forall i :: 1 <= i <= |photos| ==>
                 p[2 * i - 1] == Paragraph(Caption(i, photos[i - 1].name))
                 && p[2 * i] == Picture(photos[i - 1].image, PictureWidth)
  {
    var f := Figures(photos, 1);
    var p := PhotoSection(photos);
    FiguresAt(photos, 1);
    forall i | 1 <= i <= |photos|
      ensures p[2 * i - 1] == Paragraph(Caption(i, photos[i - 1].name))
      ensures p[2 * i] == Picture(photos[i - 1].image, PictureWidth)
    {
      assert p[1 + 2 * (i - 1)] == f[2 * (i - 1)];
      assert p[1 + (2 * (i - 1) + 1)] == f[2 * (i - 1) + 1];
    }
  }

  /** Section 4: nothing follows section 3 when no photo was uploaded;
      otherwise its heading, then for i = 1..N caption "Figure i: name_i"
      followed by photo i's picture at the map's width, in upload order. */
  lemma ReportPhotos(details: ClaimDetails, coordinates: string, mapImage: Option<ImageId>,
                     summary: string, photos: seq<Photo>)
    ensures var b := ReportBlocks(details, coordinates, mapImage, summary, photos);
            (photos == [] ==> |b| == 12)
            && (photos != [] ==>
                  |b| == 13 + 2 * |photos|
                  && b[12] == Heading("4. Historical Photos", 1)
                  && forall i :: 1 <= i <= |photos| ==>
                       b[11 + 2 * i] == Paragraph("Figure " + NatToString(i) + ": " + photos[i - 1].name)
                       && b[12 + 2 * i] == Picture(photos[i - 1].image, PictureWidth))
  {
    if photos != [] {
      var b := ReportBlocks(details, coordinates, mapImage, summary, photos);
      var p := PhotoSection(photos);
      PhotoSectionAt(photos);
      forall i | 1 <= i <= |photos|
        ensures b[11 + 2 * i] == p[2 * i - 1] && b[12 + 2 * i] == p[2 * i]
      {
      }
    }
  }

  /** The headings of a block sequence, in order. */
  function Headings(blocks: seq<Block>): seq<Block>
    decreases |blocks|
  {
    if blocks == [] then []
    else (if blocks[0].Heading? then [blocks[0]] else []) + Headings(blocks[1..])
  }

  lemma {:induction false} HeadingsAppend(a: seq<Block>, b: seq<Block>)
    ensures Headings(a + b) == Headings(a) + Headings(b)
    decreases |a|
  {
    if a == [] {
      assert a + b == b;
    } else {
      var h := if a[0].Heading? then [a[0]] else [];
      assert (a + b)[0] == a[0];
      assert (a + b)[1..] == a[1..] + b;
      assert Headings(a + b) == h + Headings(a[1..] + b);
      HeadingsAppend(a[1..], b);
      AppendAssoc(h, Headings(a[1..]), Headings(b));
    }
  }

  /** A block sequence without headings has no Headings. */
  lemma {:induction false} HeadingsNone(blocks: seq<Block>)
    requires forall i :: 0 <= i < |blocks| ==> !blocks[i].Heading?
    ensures Headings(blocks) == []
    decreases |blocks|
  {
    if blocks != [] {
      HeadingsNone(blocks[1..]);
    }
  }

  /** A section: its heading, then blocks that are not headings. */
  lemma SectionHeadings(heading: Block, body: seq<Block>)
    requires heading.Heading?
    requires forall i :: 0 <= i < |body| ==> !body[i].Heading?
    ensures Headings([heading] + body) == [heading]
  {
    HeadingsAppend([heading], body);
    HeadingsNone(body);
    assert [heading][1..] == [];
  }

  /** The headings of the twelve fixed blocks: title, sections 1, 2, 3. */
  lemma FixedHeadings(details: ClaimDetails, coordinates: string, mapImage: Option<ImageId>,
                      summary: string)
    ensures Headings(FixedBlocks(details, coordinates, mapImage, summary))
         == [ Heading(Title, 0), Heading(InfoHeading, 1), Heading(MapHeading, 1),
              Heading(GeologyHeading, 1) ]
  {
    var info := InfoSection(details, coordinates);
    var msec := MapSection(mapImage);
    var gsec := GeologySection(summary);
    SectionHeadings(Heading(Title, 0), []);
    assert [Heading(Title, 0)] + [] == [Heading(Title, 0)];
    SectionHeadings(info[0], info[1..]);
    assert [info[0]] + info[1..] == info;
    SectionHeadings(msec[0], msec[1..]);
    assert [msec[0]] + msec[1..] == msec;
    SectionHeadings(gsec[0], gsec[1..]);
    assert [gsec[0]] + gsec[1..] == gsec;
    HeadingsAppend([Heading(Title, 0)], info);
    HeadingsAppend([Heading(Title, 0)] + info, msec);
    HeadingsAppend([Heading(Title, 0)] + info + msec, gsec);
  }

  /** The headings appear in fixed order: the title, then sections 1, 2, 3
      and, exactly when photos were uploaded, section 4. No other heading
      occurs. */
  lemma ReportHeadings(details: ClaimDetails, coordinates: string, mapImage: Option<ImageId>,
                       summary: string, photos: seq<Photo>)
    ensures Headings(ReportBlocks(details, coordinates, mapImage, summary, photos))
         == [ Heading(Title, 0), Heading(InfoHeading, 1), Heading(MapHeading, 1),
              Heading(GeologyHeading, 1) ]
            + (if photos == [] then [] else [Heading(PhotosHeading, 1)])
  {
    FixedHeadings(details, coordinates, mapImage, summary);
    HeadingsAppend(FixedBlocks(details, coordinates, mapImage, summary), PhotoSection(photos));
    if photos != [] {
      SectionHeadings(Heading(PhotosHeading, 1), Figures(photos, 1));
    }
  }

  /** Every heading of a block sequence is among its Headings. */
  lemma {:induction false} HeadingInHeadings(blocks: seq<Block>, k: nat)
    requires k < |blocks| && blocks[k].Heading?
    ensures blocks[k] in Headings(blocks)
    decreases |blocks|
  {
    if k > 0 {
      HeadingInHeadings(blocks[1..], k - 1);
    }
  }

  /** The section 4 heading is in the report exactly when photos were
      uploaded. */
  lemma PhotosHeadingExactly(details: ClaimDetails, coordinates: string, mapImage: Option<ImageId>,
                             summary: string, photos: seq<Photo>)
    ensures Heading(PhotosHeading, 1) in ReportBlocks(details, coordinates, mapImage, summary, photos)
            <==> photos != []
  {
    var b := ReportBlocks(details, coordinates, mapImage, summary, photos);
    ReportHeadings(details, coordinates, mapImage, summary, photos);
    if photos == [] {
      assert PhotosHeading[0] == '4';
      assert Title[0] == 'S' && InfoHeading[0] == '1' && MapHeading[0] == '2' && GeologyHeading[0] == '3';
      assert Heading(PhotosHeading, 1) !in Headings(b);
      forall k | 0 <= k < |b| ensures b[k] != Heading(PhotosHeading, 1) {
        if b[k].Heading? {
          HeadingInHeadings(b, k);
        }
      }
    } else {
      assert b[12] == Heading(PhotosHeading, 1);
    }
  }

  /** The images of the picture blocks, in order. */
  function Pictures(blocks: seq<Block>): seq<ImageId>
    decreases |blocks|
  {
    if blocks == [] then []
    else (if blocks[0].Picture? then [blocks[0].image] else []) + Pictures(blocks[1..])
  }

  lemma {:induction false} PicturesAppend(a: seq<Block>, b: seq<Block>)
    ensures Pictures(a + b) == Pictures(a) + Pictures(b)
    decreases |a|
  {
    if a == [] {
      assert a + b == b;
    } else {
      var h := if a[0].Picture? then [a[0].image] else [];
      assert (a + b)[0] == a[0];
      assert (a + b)[1..] == a[1..] + b;
      assert Pictures(a + b) == h + Pictures(a[1..] + b);
      PicturesAppend(a[1..], b);
      AppendAssoc(h, Pictures(a[1..]), Pictures(b));
    }
  }

  /** A block sequence without pictures has no Pictures. */
  lemma {:induction false} PicturesNone(blocks: seq<Block>)
    requires forall i :: 0 <= i < |blocks| ==> !blocks[i].Picture?
    ensures Pictures(blocks) == []
    decreases |blocks|
  {
    if blocks != [] {
      PicturesNone(blocks[1..]);
    }
  }

  /** The images of a photo list, in upload order. */
  function PhotoImages(photos: seq<Photo>): seq<ImageId> {
    seq(|photos|, i requires 0 <= i < |photos| => photos[i].image)
  }

  lemma {:induction false} FiguresPictures(photos: seq<Photo>, first: nat)
    ensures Pictures(Figures(photos, first)) == PhotoImages(photos)
    decreases |photos|
  {
    if photos != [] {
      var f := Figures(photos, first);
      var g := Figures(photos[1..], first + 1);
      var pic := Picture(photos[0].image, PictureWidth);
      var t := [pic] + g;
      assert f[1..] == t;
      assert Pictures(f) == Pictures(t);
      assert t[1..] == g;
      assert Pictures(t) == [photos[0].image] + Pictures(g);
      FiguresPictures(photos[1..], first + 1);
      PhotoImagesCons(photos);
    }
  }

  lemma PhotoImagesCons(photos: seq<Photo>)
    requires photos != []
    ensures PhotoImages(photos) == [photos[0].image] + PhotoImages(photos[1..])
  {
  }

  /** The pictures among the twelve fixed blocks: the map image or none. */
  lemma FixedPictures(details: ClaimDetails, coordinates: string, mapImage: Option<ImageId>,
                      summary: string)
    ensures Pictures(FixedBlocks(details, coordinates, mapImage, summary))
         == (if mapImage.Some? then [mapImage.value] else [])
  {
    var opening := [Heading(Title, 0)] + InfoSection(details, coordinates) + [Heading(MapHeading, 1)];
    var slot := MapSection(mapImage)[1];
    var closing := GeologySection(summary);
    assert FixedBlocks(details, coordinates, mapImage, summary) == opening + [slot] + closing;
    PicturesNone(opening);
    PicturesNone(closing);
    PicturesAppend(opening, [slot]);
    PicturesAppend(opening + [slot], closing);
    assert [slot][1..] == [];
  }

  /** Section 4 embeds exactly the uploaded images, in upload order. */
  lemma PhotoSectionPictures(photos: seq<Photo>)
    ensures Pictures(PhotoSection(photos)) == PhotoImages(photos)
  {
    if photos != [] {
      PicturesAppend([Heading(PhotosHeading, 1)], Figures(photos, 1));
      assert [Heading(PhotosHeading, 1)][1..] == [];
      FiguresPictures(photos, 1);
    }
  }

  /** The report embeds the map image (when there is one) and then every
      uploaded photo, in upload order, and nothing else. */
  lemma ReportPictures(details: ClaimDetails, coordinates: string, mapImage: Option<ImageId>,
                       summary: string, photos: seq<Photo>)
    ensures Pictures(ReportBlocks(details, coordinates, mapImage, summary, photos))
         == (if mapImage.Some? then [mapImage.value] else []) + PhotoImages(photos)
  {
    FixedPictures(details, coordinates, mapImage, summary);
    PicturesAppend(FixedBlocks(details, coordinates, mapImage, summary), PhotoSection(photos));
    PhotoSectionPictures(photos);
  }

  /** Every picture of the report, the map's and each photo's, has the
      same fixed width. */
  lemma ReportPictureWidths(details: ClaimDetails, coordinates: string, mapImage: Option<ImageId>,
                            summary: string, photos: seq<Photo>)
    ensures forall b :: b in ReportBlocks(details, coordinates, mapImage, summary, photos) && b.Picture?
              ==> b.width == PictureWidth
  {
    var fixed := FixedBlocks(details, coordinates, mapImage, summary);
    var photoPart := PhotoSection(photos);
    assert forall b :: b in fixed && b.Picture? ==> b.width == PictureWidth;
    forall b | b in photoPart && b.Picture? ensures b.width == PictureWidth {
      var k :| 0 <= k < |photoPart| && photoPart[k] == b;
      assert k > 0 && photoPart[k] == Figures(photos, 1)[k - 1];
    }
    assert ReportBlocks(details, coordinates, mapImage, summary, photos) == fixed + photoPart;
  }

  /** Captions of different figure numbers differ, whatever the file
      names: a number's digits are never followed by another digit. */
  lemma CaptionsDistinct(m: nat, n: nat, a: string, b: string)
    requires m != n
    ensures Caption(m, a) != Caption(n, b)
  {
    NatToStringInjective(m, n);
    var tm := NatToString(m) + (": " + a);
    var tn := NatToString(n) + (": " + b);
    DigitsBeforeColon(NatToString(m), NatToString(n), a, b);
    var fig := "Figure ";
    assert Caption(m, a) == fig + tm && Caption(n, b) == fig + tn;
    assert (fig + tm)[|fig|..] == tm && (fig + tn)[|fig|..] == tn;
  }

  /** Two different digit strings stay different when each is followed by
      ": " and any text: the colon cannot stand in for a digit. */
  lemma DigitsBeforeColon(x: string, y: string, a: string, b: string)
    requires forall i :: 0 <= i < |x| ==> IsDigit(x[i])
    requires forall i :: 0 <= i < |y| ==> IsDigit(y[i])
    requires x != y
    ensures x + (": " + a) != y + (": " + b)
  {
    var u, v := x + (": " + a), y + (": " + b);
    if |x| < |y| && x == y[..|x|] {
      assert u[|x|] == ':';
      assert v[|x|] == y[|x|];
    } else if |y| < |x| && y == x[..|y|] {
      assert v[|y|] == ':';
      assert u[|y|] == x[|y|];
    } else {
      var short := if |x| <= |y| then |x| else |y|;
      assert x[..short] != y[..short];
      var k :| 0 <= k < short && x[..short][k] != y[..short][k];
      assert u[k] == x[k];
      assert v[k] == y[k];
    }
  }
}
