/** What `handleDownloadPdf` (app/page.tsx:94-215) puts into the invoice,
    without the drawing: the title and where it goes, the optional image with
    its format label and MIME type, the vertical position where the table
    starts, the table's header and rows, the description and the file name.
    jsPDF, autoTable, the canvas and the image proxy are not modelled; the
    outcome of the image pipeline is an input. */
module InvoicePdf {
  import opened ListingTypes
  import opened JsText

  /** Library behaviour the page calls but does not define, kept
      uninterpreted: `formatCurrency` (app/utils/currency, not part of this
      model), `Number.prototype.toLocaleString` and `encodeURIComponent`. */
  datatype Formatters = Formatters(
    formatCurrency: real -> string,
    toLocaleString: real -> string,
    encodeUriComponent: string -> string)

  /** A table cell holds a string or a number (`(string | number)[]`). */
  datatype Cell = Text(text: string) | Num(number: real)

  /** One body row of the table: `[item, details]`. */
  datatype Row = Row(item: string, details: Cell)

  /** How the image step of the pipeline ended. Every outcome but `Decoded`
      is an exception the page catches and ignores. `finalHeight` is the
      height the image is scaled to; the floating-point scaling itself is
      not modelled. */
  datatype ImageOutcome =
    | ProxyNotOk(statusText: string)
    | ProxyUnreachable
    | DecodeFailed
    | NoCanvasContext
    | Decoded(blobType: string, finalHeight: real)

  /** An image as passed to `addImage`: format label, the MIME type requested
      from `toDataURL`, and its left edge, top edge and height. */
  datatype PlacedImage = PlacedImage(format: string, mimeType: string, x: real, y: real, height: real)

  /** The content of the saved invoice. `imageRequest` is the proxy URL the
      page fetches, when the listing has an image. */
  datatype PdfDocument = PdfDocument(
    title: string,
    titleY: real,
    imageRequest: Option<string>,
    image: Option<PlacedImage>,
    tableStartY: real,
    head: seq<string>,
    body: seq<Row>,
    description: string,
    fileName: string)

  const TitleY: real := 22.0
  const TitleAdvance: real := 10.0
  const LeftMargin: real := 14.0
  const ImageGap: real := 10.0
  const ProxyRoute: string := "/api/image-proxy?imageUrl="
  const DefaultImageMime: string := "image/jpeg"
  const DefaultImageFormat: string := "JPEG"

  const TableHead: seq<string> := ["Item", "Details"]
  const BrandLabel: string := "Brand"
  const YearLabel: string := "Year"
  const PriceLabel: string := "Price"
  const CategoryLabel: string := "Category"
  const PumpLabel: string := "Pump Size (GPM)"
  const TankLabel: string := "Tank Size (Gal)"
  const MileageLabel: string := "Mileage"

  /** The position of an item label in the order in which rows may appear. */
  function Rank(item: string): nat
  {
    if item == BrandLabel then 0
    else if item == YearLabel then 1
    else if item == PriceLabel then 2
    else if item == CategoryLabel then 3
    else if item == PumpLabel then 4
    else if item == TankLabel then 5
    else if item == MileageLabel then 6
    else 7
  }

  predicate HasRow(rows: seq<Row>, item: string)
  {
    exists i :: 0 <= i < |rows| && rows[i].item == item
  }

  /** An optional row shows the listing field its label names. */
  predicate ShowsField(l: Listing, fx: Formatters, r: Row)
  {
    || (r.item == CategoryLabel && l.categoryV2.Some? && r.details == Text(l.categoryV2.value.name))
    || (r.item == PumpLabel && l.pumpSize.Some? && r.details == Num(l.pumpSize.value))
    || (r.item == TankLabel && l.tankSize.Some? && r.details == Num(l.tankSize.value))
    || (r.item == MileageLabel && l.mileage.Some? && r.details == Text(fx.toLocaleString(l.mileage.value)))
  }

  /** Whether listing `l` has a row for the optional item `item`: the
      category when its name is non-empty (`categoryV2?.name` is truthy), the
      three numbers whenever present, zero included (`!== null && !== undefined`). */
  predicate Included(l: Listing, item: string): (b: bool)
    ensures b ==> 3 <= Rank(item) < 7
  {
    if item == CategoryLabel then l.categoryV2.Some? && l.categoryV2.value.name != ""
    else if item == PumpLabel then l.pumpSize.Some?
    else if item == TankLabel then l.tankSize.Some?
    else if item == MileageLabel then l.mileage.Some?
    else false
  }

  /** `rows` is the table as far as the items of rank below `n`, so it has at
      most `n` rows: brand, year and price first, the optional rows after them
      in rank order, each showing its field, and every optional item of rank
      below `n` present exactly when the listing includes it. */
  ghost predicate RowsThrough(l: Listing, fx: Formatters, rows: seq<Row>, n: nat)
  {
    && 3 <= |rows| <= n
    && rows[0] == Row(BrandLabel, Text(l.itemBrand))
    && rows[1] == Row(YearLabel, Num(l.itemAge))
    && rows[2] == Row(PriceLabel, Text(fx.formatCurrency(l.sellingPrice)))
    && (forall i, j :: 0 <= i < j < |rows| ==> Rank(rows[i].item) < Rank(rows[j].item))
    && (forall i :: 3 <= i < |rows| ==> ShowsField(l, fx, rows[i]) && Rank(rows[i].item) < n)
    && (3 < n ==> (HasRow(rows, CategoryLabel) <==> Included(l, CategoryLabel)))
    && (4 < n ==> (HasRow(rows, PumpLabel) <==> Included(l, PumpLabel)))
    && (5 < n ==> (HasRow(rows, TankLabel) <==> Included(l, TankLabel)))
    && (6 < n ==> (HasRow(rows, MileageLabel) <==> Included(l, MileageLabel)))
  }

  /** The table body of the invoice for listing `l`: brand, year and price
      first; then, in a fixed order and each at most once, the category when
      its name is non-empty and the pump size, tank size and mileage when
      present (zero included). */
  ghost predicate TableFor(l: Listing, fx: Formatters, rows: seq<Row>)
  {
    RowsThrough(l, fx, rows, 7)
  }

  /** Every optional item the listing includes has a row. */
  lemma IncludedHasRow(l: Listing, fx: Formatters, rows: seq<Row>, item: string)
    requires TableFor(l, fx, rows) && Included(l, item)
    ensures HasRow(rows, item)
  {
  }

  /** An optional row is for an item the listing includes. */
  lemma OptionalRowIncluded(l: Listing, fx: Formatters, rows: seq<Row>, i: nat)
    requires TableFor(l, fx, rows) && 3 <= i < |rows|
    ensures Included(l, rows[i].item) && 3 <= Rank(rows[i].item) < 7
  {
    assert ShowsField(l, fx, rows[i]);
    assert HasRow(rows, rows[i].item);
  }

  /** No row's item ranks strictly between those of two adjacent rows, nor
      after the last row. */
  lemma NoRowBetween(l: Listing, fx: Formatters, rows: seq<Row>, i: nat, item: string)
    requires TableFor(l, fx, rows) && 1 <= i <= |rows|
    requires Rank(rows[i - 1].item) < Rank(item)
    requires i < |rows| ==> Rank(item) < Rank(rows[i].item)
    ensures !HasRow(rows, item)
  {
  }

  lemma SameRowAt(l: Listing, fx: Formatters, a: seq<Row>, b: seq<Row>, i: nat)
    requires TableFor(l, fx, a) && TableFor(l, fx, b)
    requires 3 <= i < |a| && i < |b| && a[i - 1] == b[i - 1]
    ensures a[i] == b[i]
  {
    OptionalRowIncluded(l, fx, a, i);
    OptionalRowIncluded(l, fx, b, i);
    if Rank(a[i].item) < Rank(b[i].item) {
      IncludedHasRow(l, fx, b, a[i].item);
      NoRowBetween(l, fx, b, i, a[i].item);
    } else if Rank(b[i].item) < Rank(a[i].item) {
      IncludedHasRow(l, fx, a, b[i].item);
      NoRowBetween(l, fx, a, i, b[i].item);
    } else {
      assert ShowsField(l, fx, a[i]) && ShowsField(l, fx, b[i]);
    }
  }

  lemma {:induction false} SamePrefix(l: Listing, fx: Formatters, a: seq<Row>, b: seq<Row>, n: nat)
    requires TableFor(l, fx, a) && TableFor(l, fx, b)
    requires 3 <= n <= |a| && n <= |b|
    ensures forall j :: 0 <= j < n ==> a[j] == b[j]
    decreases n
  {
    if n > 3 {
      SamePrefix(l, fx, a, b, n - 1);
      SameRowAt(l, fx, a, b, n - 1);
      AgreeOneMore(a, b, n - 1);
    }
  }

  /** Agreement on the first `n` positions and at position `n` is agreement
      on the first `n + 1`. */
  lemma AgreeOneMore(a: seq<Row>, b: seq<Row>, n: nat)
    requires n < |a| && n < |b| && a[n] == b[n]
    requires forall j :: 0 <= j < n ==> a[j] == b[j]
    ensures forall j :: 0 <= j < n + 1 ==> a[j] == b[j]
  {
  }

  /** A table of one length cannot be extended by a row the other lacks. */
  lemma NotLonger(l: Listing, fx: Formatters, a: seq<Row>, b: seq<Row>)
    requires TableFor(l, fx, a) && TableFor(l, fx, b)
    ensures |a| >= |b|
  {
    if |a| < |b| {
      SamePrefix(l, fx, a, b, |a|);
      OptionalRowIncluded(l, fx, b, |a|);
      IncludedHasRow(l, fx, a, b[|a|].item);
    }
  }

  /** `TableFor` leaves no freedom: it determines the table row by row. */
  lemma TableForUnique(l: Listing, fx: Formatters, a: seq<Row>, b: seq<Row>)
    requires TableFor(l, fx, a) && TableFor(l, fx, b)
    ensures a == b
  {
    NotLonger(l, fx, a, b);
    NotLonger(l, fx, b, a);
    SamePrefix(l, fx, a, b, |a|);
  }

  /** Pushing a row adds exactly its item to the items present. */
  lemma HasRowAfterPush(rows: seq<Row>, r: Row)
    ensures forall item :: HasRow(rows + [r], item) <==> HasRow(rows, item) || r.item == item
  {
    var grown := rows + [r];
    assert grown[|rows|] == r;
    assert forall i :: 0 <= i < |rows| ==> grown[i] == rows[i];
  }

  /** Brand, year and price alone are the table as far as the optional items. */
  lemma FixedRows(l: Listing, fx: Formatters, rows: seq<Row>)
    requires rows == [Row(BrandLabel, Text(l.itemBrand)), Row(YearLabel, Num(l.itemAge)),
                      Row(PriceLabel, Text(fx.formatCurrency(l.sellingPrice)))]
    ensures RowsThrough(l, fx, rows, 3)
  {
  }

  /** One step of the table: the row for the item of rank `n` is pushed
      when the listing includes that item, ... */
  lemma PushRow(l: Listing, fx: Formatters, rows: seq<Row>, n: nat, row: Row)
    requires 3 <= n < 7 && RowsThrough(l, fx, rows, n)
    requires Rank(row.item) == n && ShowsField(l, fx, row) && Included(l, row.item)
    ensures RowsThrough(l, fx, rows + [row], n + 1)
  {
    HasRowAfterPush(rows, row);
  }

  /** ... and skipped otherwise. */
  lemma SkipRow(l: Listing, fx: Formatters, rows: seq<Row>, n: nat, item: string)
    requires 3 <= n < 7 && RowsThrough(l, fx, rows, n)
    requires Rank(item) == n && !Included(l, item)
    ensures RowsThrough(l, fx, rows, n + 1)
  {
  }

  /** `tableRows`, grown with `push` in source order. */
  method BuildTableRows(l: Listing, fx: Formatters) returns (rows: seq<Row>)
    ensures TableFor(l, fx, rows)
  {
    rows := [];
    rows := rows + [Row(BrandLabel, Text(l.itemBrand))];
    rows := rows + [Row(YearLabel, Num(l.itemAge))];
    rows := rows + [Row(PriceLabel, Text(fx.formatCurrency(l.sellingPrice)))];
    FixedRows(l, fx, rows);
    if l.categoryV2.Some? && l.categoryV2.value.name != "" {
      var row := Row(CategoryLabel, Text(l.categoryV2.value.name));
      PushRow(l, fx, rows, 3, row);
      rows := rows + [row];
    } else {
      SkipRow(l, fx, rows, 3, CategoryLabel);
    }
    if l.pumpSize.Some? {
      var row := Row(PumpLabel, Num(l.pumpSize.value));
      PushRow(l, fx, rows, 4, row);
      rows := rows + [row];
    } else {
      SkipRow(l, fx, rows, 4, PumpLabel);
    }
    if l.tankSize.Some? {
      var row := Row(TankLabel, Num(l.tankSize.value));
      PushRow(l, fx, rows, 5, row);
      rows := rows + [row];
    } else {
      SkipRow(l, fx, rows, 5, TankLabel);
    }
    if l.mileage.Some? {
      var row := Row(MileageLabel, Text(fx.toLocaleString(l.mileage.value)));
      PushRow(l, fx, rows, 6, row);
      rows := rows + [row];
    } else {
      SkipRow(l, fx, rows, 6, MileageLabel);
    }
  }

  /** `imageBlob.type.split('/')[1]?.toUpperCase() || 'JPEG'`. */
  function ImageFormatLabel(blobType: string): (format: string)
    ensures format != ""
  {
    var parts := Split(blobType, '/');
    if |parts| > 1 && AsciiUpper(parts[1]) != "" then AsciiUpper(parts[1]) else DefaultImageFormat
  }

  /** A type of the form `kind/sub`, possibly followed by more `/`-separated
      text, is labelled by `sub` in upper case, or `JPEG` when `sub` is empty. */
  lemma ImageFormatLabelOfSubtype(kind: string, sub: string, rest: string)
    requires '/' !in kind && '/' !in sub
    requires rest == "" || rest[0] == '/'
    ensures ImageFormatLabel(kind + "/" + sub + rest)
         == if sub == "" then DefaultImageFormat else AsciiUpper(sub)
  {
    var s := kind + "/" + sub + rest;
    assert s == kind + ['/'] + (sub + rest);
    SplitAfterField(kind, '/', sub + rest);
    FirstField(sub, '/', rest);
    assert Split(s, '/')[1] == sub;
  }

  /** A type without `/` (the empty type included) is labelled `JPEG`. */
  lemma ImageFormatLabelWithoutSlash(blobType: string)
    requires '/' !in blobType
    ensures ImageFormatLabel(blobType) == DefaultImageFormat
  {
  }

  /** `imageBlob.type || 'image/jpeg'`. */
  function DataUrlMime(blobType: string): (mime: string)
    ensures mime != ""
    ensures blobType != "" ==> mime == blobType
    ensures blobType == "" ==> mime == DefaultImageMime
  {
    if blobType != "" then blobType else DefaultImageMime
  }

  /** `listing-<id>.pdf`. */
  function PdfFileName(id: string): (name: string)
    ensures |name| == |id| + 12
    ensures name[..8] == "listing-" && name[|name| - 4..] == ".pdf"
    ensures name[8..|name| - 4] == id
  {
    "listing-" + id + ".pdf"
  }

  /** Different listings are saved under different names. */
  lemma PdfFileNameInjective(a: string, b: string)
    requires PdfFileName(a) == PdfFileName(b)
    ensures a == b
  {
  }

  /** Where the table starts: below the title, and below the image and its
      gap when an image was placed. */
  function TableStart(image: Option<PlacedImage>): (y: real)
    ensures image.None? ==> y == TitleY + TitleAdvance
    ensures image.Some? ==> y == TitleY + TitleAdvance + image.value.height + ImageGap
    ensures image.Some? && image.value.height >= 0.0 ==> y >= TitleY + TitleAdvance + ImageGap
  {
    TitleY + TitleAdvance + if image.Some? then image.value.height + ImageGap else 0.0
  }

  /** The invoice for listing `l` when the image step ends with `image`. */
  ghost predicate DocumentFor(l: Listing, image: ImageOutcome, fx: Formatters, doc: PdfDocument)
  {
    && doc.title == l.listingTitle
    && doc.titleY == TitleY
    && doc.imageRequest == (if |l.imageUrls| > 0 then Some(ProxyRoute + fx.encodeUriComponent(l.imageUrls[0])) else None)
    && (doc.image.Some? <==> |l.imageUrls| > 0 && image.Decoded?)
    && (doc.image.Some? ==>
          doc.image.value == PlacedImage(ImageFormatLabel(image.blobType), DataUrlMime(image.blobType),
                                         LeftMargin, TitleY + TitleAdvance, image.finalHeight))
    && doc.tableStartY == TableStart(doc.image)
    && doc.head == TableHead
    && TableFor(l, fx, doc.body)
    && doc.description == l.listingDescription
    && doc.fileName == PdfFileName(l.id)
  }

  /** The body of `handleDownloadPdf` once a listing is present: `yPos` moves
      down from the title, past the image when one is placed, to the table.
      A failed image step leaves the table at `yPos == 32` and the rest of
      the document intact. */
  method ComposeDocument(l: Listing, image: ImageOutcome, fx: Formatters) returns (doc: PdfDocument)
    ensures DocumentFor(l, image, fx, doc)
    ensures !image.Decoded? ==> doc.image.None? && doc.tableStartY == TitleY + TitleAdvance
  {
    var yPos := TitleY;
    var title := l.listingTitle;
    var titleY := yPos;
    yPos := yPos + TitleAdvance;

    var imageRequest: Option<string> := None;
    var placed: Option<PlacedImage> := None;
    if |l.imageUrls| > 0 {
      imageRequest := Some(ProxyRoute + fx.encodeUriComponent(l.imageUrls[0]));
      match image
      case Decoded(blobType, finalHeight) =>
        placed := Some(PlacedImage(ImageFormatLabel(blobType), DataUrlMime(blobType), LeftMargin, yPos, finalHeight));
        yPos := yPos + finalHeight + ImageGap;
      case _ =>
        // The exception is caught and the document goes on without the image.
    }

    var rows := BuildTableRows(l, fx);
    doc := PdfDocument(title, titleY, imageRequest, placed, yPos, TableHead, rows,
                       l.listingDescription, PdfFileName(l.id));
  }
}
