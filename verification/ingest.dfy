/** Chunk-record assembly and the vector-store guards of `src/data_ingestor.py`.

    The extraction libraries are not modelled; their outputs are inputs here.
    A PDF is what PyMuPDF reports about it (pages, each with its embedded
    images, each image with its extension and what Tesseract reads from it)
    together with what Camelot extracts (tables, each with its page label and
    its markdown rendering). Every library call that can raise is given as an
    `Outcome`, or as a variant of the input that stands for the failure. */
module Ingest {
  import opened Outcomes
  import opened PyText

  // ---------------------------------------------------------------------------
  // Records
  // ---------------------------------------------------------------------------

  /** The metadata of a LangChain `Document`. `TextMeta` is whatever the PDF
      text loader attaches to its page documents; the two others are the
      records this module builds itself. */
  datatype Metadata =
    | TextMeta(source: string, page: nat)
    | ImageMeta(source: string, page: nat, imageIndex: nat)   // "type": "image_ocr"
    | TableMeta(source: string, page: nat, tableIndex: nat)   // "type": "table_data"

  datatype Doc = Doc(content: string, metadata: Metadata)

  // ---------------------------------------------------------------------------
  // What the libraries report about one PDF
  // ---------------------------------------------------------------------------

  /** An embedded image as `extract_image` reports it, with the result of OCR on
      its bytes; `ImageUnreadable` stands for `extract_image` raising. */
  datatype Image =
    | Image(ext: string, ocr: Outcome<string>)
    | ImageUnreadable(error: string)

  /** A page's image list; `PageUnreadable` stands for `load_page` or
      `get_images` raising. */
  datatype Page = Page(images: seq<Image>) | PageUnreadable(error: string)

  /** A Camelot table: its page label and the result of `df.to_markdown`. */
  datatype Table = Table(pageLabel: string, markdown: Outcome<string>)

  /** A PDF as PyMuPDF opens it, with Camelot's `read_pdf` result;
      `Unopenable` stands for `fitz.open` raising. */
  datatype Pdf =
    | Pdf(pages: seq<Page>, tables: Outcome<seq<Table>>)
    | Unopenable(error: string)

  /** Image extensions that are sent to OCR. */
  const ImageExts: seq<string> := ["png", "jpeg", "jpg"]

  /** The message of the `NameError` raised by the handler when `fitz.open`
      failed before `filename_base` was bound. */
  const UnboundBaseError: string :=
    "cannot access local variable 'filename_base' where it is not associated with a value"

  // ---------------------------------------------------------------------------
  // Specification of extract_additional_content_from_pdf
  // ---------------------------------------------------------------------------

  /** `extract_text_from_image_ocr`: the recognised text, or "" when OCR raised. */
  function OcrText(ocr: Outcome<string>): string {
    match ocr
    case Ok(text) => text
    case Raised(_) => ""
  }

  /** The text of the record for an image on 0-based page `pageNum`. */
  function OcrContent(pageNum: nat, text: string): string {
    "Image content from page " + NatToString(pageNum + 1) + ":\n" + text
  }

  /** The records (none or one) that image `imgIndex` (0-based) of page
      `pageNum` (0-based) contributes. */
  function ImageRecords(base: string, pageNum: nat, imgIndex: nat, ext: string, ocr: Outcome<string>): seq<Doc> {
    if ext in ImageExts then
      var text := OcrText(ocr);
      if Strip(text) != [] then
        [Doc(OcrContent(pageNum, text), ImageMeta(base, pageNum + 1, imgIndex + 1))]
      else []
    else []
  }

  /** The records gathered so far, and whether no exception has been raised. */
  datatype Scan = Scan(docs: seq<Doc>, ok: bool)

  /** The scan of the first `n` images of page `pageNum`; it stops at the first
      image that cannot be extracted. */
  function ImagesScan(base: string, pageNum: nat, images: seq<Image>, n: nat): Scan
    requires n <= |images|
    decreases n
  {
    if n == 0 then Scan([], true)
    else
      var s := ImagesScan(base, pageNum, images, n - 1);
      if !s.ok then s
      else match images[n - 1]
        case ImageUnreadable(_) => Scan(s.docs, false)
        case Image(ext, ocr) => Scan(s.docs + ImageRecords(base, pageNum, n - 1, ext, ocr), true)
  }

  /** The OCR scan of the first `n` pages; it stops at the first failure. */
  function PagesScan(base: string, pages: seq<Page>, n: nat): Scan
    requires n <= |pages|
    decreases n
  {
    if n == 0 then Scan([], true)
    else
      var s := PagesScan(base, pages, n - 1);
      if !s.ok then s
      else match pages[n - 1]
        case PageUnreadable(_) => Scan(s.docs, false)
        case Page(images) =>
          var t := ImagesScan(base, n - 1, images, |images|);
          Scan(s.docs + t.docs, t.ok)
  }

  /** The header of the record for table `i` (0-based). */
  function TableHeader(i: nat, pageLabel: string): string {
    "Table " + NatToString(i + 1) + " from page " + pageLabel + ":\n\n"
  }

  /** The record for table `i` (0-based): raises when the markdown rendering
      fails or when `int(table.page)` fails. */
  function TableRecord(base: string, i: nat, t: Table): Outcome<Doc> {
    match t.markdown
    case Raised(e) => Raised(e)
    case Ok(md) =>
      match ParseNat(t.pageLabel)
      case None => Raised("invalid literal for int() with base 10: '" + t.pageLabel + "'")
      case Some(page) => Ok(Doc(TableHeader(i, t.pageLabel) + md, TableMeta(base, page, i + 1)))
  }

  /** The scan of the first `n` tables; it stops at the first failure. */
  function TablesScan(base: string, tables: seq<Table>, n: nat): Scan
    requires n <= |tables|
    decreases n
  {
    if n == 0 then Scan([], true)
    else
      var s := TablesScan(base, tables, n - 1);
      if !s.ok then s
      else match TableRecord(base, n - 1, tables[n - 1])
        case Raised(_) => Scan(s.docs, false)
        case Ok(d) => Scan(s.docs + [d], true)
  }

  /** `extract_additional_content_from_pdf(filepath)` as a function of what
      the libraries report: the OCR records of every page, then the table
      records, cut short at the first exception (whose records so far are
      returned). Only a PDF that cannot be opened makes the call raise. */
  function AdditionalContent(filepath: string, pdf: Pdf): (r: Outcome<seq<Doc>>)
    ensures r.Raised? <==> pdf.Unopenable?
    ensures r.Raised? ==> r.error == UnboundBaseError
    ensures pdf.Pdf? ==> PagesScan(Basename(filepath), pdf.pages, |pdf.pages|).docs <= r.value
  {
    match pdf
    case Unopenable(_) => Raised(UnboundBaseError)
    case Pdf(pages, tables) =>
      var base := Basename(filepath);
      var s := PagesScan(base, pages, |pages|);
      if !s.ok then Ok(s.docs)
      else match tables
        case Raised(_) => Ok(s.docs)
        case Ok(ts) => Ok(s.docs + TablesScan(base, ts, |ts|).docs)
  }

  // ---------------------------------------------------------------------------
  // Properties of the records
  // ---------------------------------------------------------------------------

  /** An image contributes at most one record, and it contributes one exactly
      when its extension is png, jpeg or jpg and its OCR text is not blank. */
  lemma ImageYieldsRecordIff(base: string, pageNum: nat, imgIndex: nat, ext: string, ocr: Outcome<string>)
    ensures |ImageRecords(base, pageNum, imgIndex, ext, ocr)| <= 1
    ensures (|ImageRecords(base, pageNum, imgIndex, ext, ocr)| == 1)
              <==> (ext in ["png", "jpeg", "jpg"] && !AllSpace(OcrText(ocr)))
  {
  }

  /** An image whose OCR raised contributes no record. */
  lemma OcrFailureYieldsNoRecord(base: string, pageNum: nat, imgIndex: nat, ext: string, error: string)
    ensures ImageRecords(base, pageNum, imgIndex, ext, Raised(error)) == []
  {
    assert AllSpace(OcrText(Raised(error)));
  }

  /** An OCR record as the source builds it: type "image_ocr", the file's base
      name, 1-based page and image numbers, and the page number in the text. */
  predicate OcrRecord(d: Doc, base: string) {
    && d.metadata.ImageMeta?
    && d.metadata.source == base
    && d.metadata.page >= 1
    && d.metadata.imageIndex >= 1
    && StartsWith(d.content, "Image content from page " + NatToString(d.metadata.page) + ":\n")
  }

  /** OCR record `m` comes before OCR record `n`: by page, then by image. */
  predicate OcrPrecedes(m: Metadata, n: Metadata) {
    && m.ImageMeta? && n.ImageMeta?
    && (m.page < n.page || (m.page == n.page && m.imageIndex < n.imageIndex))
  }

  /** The records are in strictly increasing (page, image) order. */
  predicate OcrOrdered(docs: seq<Doc>) {
    forall i, j :: 0 <= i < j < |docs| ==> OcrPrecedes(docs[i].metadata, docs[j].metadata)
  }

  /** Two ordered runs, every record of the first before every record of the
      second, make an ordered run. */
  lemma OcrOrderedConcat(a: seq<Doc>, b: seq<Doc>)
    requires OcrOrdered(a) && OcrOrdered(b)
    requires forall x, y :: x in a && y in b ==> OcrPrecedes(x.metadata, y.metadata)
    ensures OcrOrdered(a + b)
  {
    var c := a + b;
    forall i, j | 0 <= i < j < |c|
      ensures OcrPrecedes(c[i].metadata, c[j].metadata)
    {
      if j < |a| {
        assert c[i] == a[i] && c[j] == a[j];
      } else if i < |a| {
        assert c[i] == a[i] && c[j] == b[j - |a|];
        assert c[i] in a && c[j] in b;
      } else {
        assert c[i] == b[i - |a|] && c[j] == b[j - |a|];
      }
    }
  }

  /** The record an image contributes, if any, is an OCR record of its page
      numbered after the image. */
  lemma ImageRecordShape(base: string, pageNum: nat, imgIndex: nat, ext: string, ocr: Outcome<string>)
    ensures |ImageRecords(base, pageNum, imgIndex, ext, ocr)| <= 1
    ensures forall d :: d in ImageRecords(base, pageNum, imgIndex, ext, ocr) ==>
              && OcrRecord(d, base)
              && d.metadata.page == pageNum + 1
              && d.metadata.imageIndex == imgIndex + 1
  {
    var text := OcrText(ocr);
    if ext in ImageExts && Strip(text) != [] {
      var prefix := "Image content from page " + NatToString(pageNum + 1) + ":\n";
      var d := Doc(prefix + text, ImageMeta(base, pageNum + 1, imgIndex + 1));
      assert ImageRecords(base, pageNum, imgIndex, ext, ocr) == [d];
      StartsWithConcat(prefix, text);
      assert OcrRecord(d, base);
    }
  }

  /** The OCR records of one page: OCR records of that page, numbered by image
      from 1 and in image order. */
  lemma {:induction false} ImagesScanRecords(base: string, pageNum: nat, images: seq<Image>, n: nat)
    requires n <= |images|
    ensures var docs := ImagesScan(base, pageNum, images, n).docs;
      && (forall d :: d in docs ==>
            OcrRecord(d, base) && d.metadata.page == pageNum + 1 && d.metadata.imageIndex <= n)
      && OcrOrdered(docs)
    decreases n
  {
    if n > 0 {
      ImagesScanRecords(base, pageNum, images, n - 1);
      var s := ImagesScan(base, pageNum, images, n - 1);
      if s.ok && images[n - 1].Image? {
        var img := images[n - 1];
        var added := ImageRecords(base, pageNum, n - 1, img.ext, img.ocr);
        assert ImagesScan(base, pageNum, images, n).docs == s.docs + added;
        ImageRecordShape(base, pageNum, n - 1, img.ext, img.ocr);
        assert OcrOrdered(added);
        OcrOrderedConcat(s.docs, added);
        forall d | d in s.docs + added
          ensures OcrRecord(d, base) && d.metadata.page == pageNum + 1 && d.metadata.imageIndex <= n
        {
          if d !in s.docs {
            assert d in added;
          }
        }
      }
    }
  }

  /** Every record of the OCR scan is an OCR record with a 1-based page within
      the scanned pages, and the records are ordered by page, then by image. */
  lemma {:induction false} PagesScanRecords(base: string, pages: seq<Page>, n: nat)
    requires n <= |pages|
    ensures var docs := PagesScan(base, pages, n).docs;
      && (forall d :: d in docs ==> OcrRecord(d, base) && d.metadata.page <= n)
      && OcrOrdered(docs)
    decreases n
  {
    if n > 0 {
      PagesScanRecords(base, pages, n - 1);
      var s := PagesScan(base, pages, n - 1);
      if s.ok && pages[n - 1].Page? {
        var images := pages[n - 1].images;
        ImagesScanRecords(base, n - 1, images, |images|);
        OcrOrderedConcat(s.docs, ImagesScan(base, n - 1, images, |images|).docs);
      }
    }
  }

  /** The table scan yields, in extraction order, the record of every table up
      to the first one that raised, numbered from 1. */
  lemma {:induction false} TablesScanRecords(base: string, tables: seq<Table>, n: nat)
    requires n <= |tables|
    ensures var s := TablesScan(base, tables, n);
      && |s.docs| <= n
      && (s.ok <==> |s.docs| == n)
      && (!s.ok ==> TableRecord(base, |s.docs|, tables[|s.docs|]).Raised?)
      && (forall k :: 0 <= k < |s.docs| ==> TableRecord(base, k, tables[k]) == Ok(s.docs[k]))
    decreases n
  {
    if n > 0 {
      TablesScanRecords(base, tables, n - 1);
    }
  }

  /** A table record: type "table_data", the file's base name, a 1-based table
      number, the page label read as an integer, and a header naming both. */
  lemma TableRecordContents(base: string, i: nat, t: Table)
    requires TableRecord(base, i, t).Ok?
    ensures var d := TableRecord(base, i, t).value;
      && d.metadata == TableMeta(base, d.metadata.page, i + 1)
      && ParseNat(t.pageLabel) == Some(d.metadata.page)
      && StartsWith(d.content, "Table " + NatToString(i + 1) + " from page " + t.pageLabel + ":\n\n")
  {
    var d := TableRecord(base, i, t).value;
    var header := TableHeader(i, t.pageLabel);
    assert d.content[..|header|] == header;
  }

  /** The page number in a table header reads back as the record's page when
      Camelot's page label is written without leading zeros. */
  lemma TablePageRoundTrip(base: string, i: nat, page: nat, md: string)
    ensures TableRecord(base, i, Table(NatToString(page), Ok(md)))
              == Ok(Doc(TableHeader(i, NatToString(page)) + md, TableMeta(base, page, i + 1)))
  {
    ParseNatToString(page);
  }

  lemma {:induction false} PagesScanStops(base: string, pages: seq<Page>, m: nat, n: nat)
    requires m <= n <= |pages| && !PagesScan(base, pages, m).ok
    ensures PagesScan(base, pages, n) == PagesScan(base, pages, m)
    decreases n - m
  {
    if m < n {
      PagesScanStops(base, pages, m, n - 1);
    }
  }

  lemma {:induction false} ImagesScanStops(base: string, pageNum: nat, images: seq<Image>, m: nat, n: nat)
    requires m <= n <= |images| && !ImagesScan(base, pageNum, images, m).ok
    ensures ImagesScan(base, pageNum, images, n) == ImagesScan(base, pageNum, images, m)
    decreases n - m
  {
    if m < n {
      ImagesScanStops(base, pageNum, images, m, n - 1);
    }
  }

  lemma {:induction false} TablesScanStops(base: string, tables: seq<Table>, m: nat, n: nat)
    requires m <= n <= |tables| && !TablesScan(base, tables, m).ok
    ensures TablesScan(base, tables, n) == TablesScan(base, tables, m)
    decreases n - m
  {
    if m < n {
      TablesScanStops(base, tables, m, n - 1);
    }
  }

  /** An image that cannot be extracted ends the scan of its page with the
      records gathered before it. */
  lemma ImagesScanUnreadable(base: string, pageNum: nat, images: seq<Image>, i: nat)
    requires i < |images| && ImagesScan(base, pageNum, images, i).ok && images[i].ImageUnreadable?
    ensures ImagesScan(base, pageNum, images, |images|) == Scan(ImagesScan(base, pageNum, images, i).docs, false)
  {
    ImagesScanStops(base, pageNum, images, i + 1, |images|);
  }

  /** A page that cannot be read ends the OCR scan with the records gathered
      before it. */
  lemma PagesScanUnreadable(base: string, pages: seq<Page>, p: nat)
    requires p < |pages| && PagesScan(base, pages, p).ok && pages[p].PageUnreadable?
    ensures PagesScan(base, pages, |pages|) == Scan(PagesScan(base, pages, p).docs, false)
  {
    PagesScanStops(base, pages, p + 1, |pages|);
  }

  /** An extractable image adds its records, if any, to the scan of its page. */
  lemma ImagesScanStep(base: string, pageNum: nat, images: seq<Image>, i: nat)
    requires i < |images| && ImagesScan(base, pageNum, images, i).ok && images[i].Image?
    ensures ImagesScan(base, pageNum, images, i + 1)
              == Scan(ImagesScan(base, pageNum, images, i).docs
                      + ImageRecords(base, pageNum, i, images[i].ext, images[i].ocr), true)
  {
  }

  /** A readable page adds the records of its images to the OCR scan, and
      passes on whether they could all be extracted. */
  lemma PagesScanStep(base: string, pages: seq<Page>, p: nat)
    requires p < |pages| && PagesScan(base, pages, p).ok && pages[p].Page?
    ensures PagesScan(base, pages, p + 1)
              == var t := ImagesScan(base, p, pages[p].images, |pages[p].images|);
                 Scan(PagesScan(base, pages, p).docs + t.docs, t.ok)
  {
  }

  /** A table whose record raises ends the table scan. */
  lemma TablesScanFailsAt(base: string, tables: seq<Table>, i: nat)
    requires i < |tables| && TablesScan(base, tables, i).ok
    requires TableRecord(base, i, tables[i]).Raised?
    ensures TablesScan(base, tables, |tables|) == Scan(TablesScan(base, tables, i).docs, false)
  {
    TablesScanStops(base, tables, i + 1, |tables|);
  }

  /** A table whose record is built adds exactly that record. */
  lemma TablesScanSucceedsAt(base: string, tables: seq<Table>, i: nat, md: string, page: nat)
    requires i < |tables| && TablesScan(base, tables, i).ok
    requires tables[i].markdown == Ok(md) && ParseNat(tables[i].pageLabel) == Some(page)
    ensures TablesScan(base, tables, i + 1).ok
    ensures TablesScan(base, tables, i + 1).docs
              == TablesScan(base, tables, i).docs + [Doc(TableHeader(i, tables[i].pageLabel) + md, TableMeta(base, page, i + 1))]
  {
  }

  /** Records appended before an exception are kept: the OCR scan of fewer
      pages is a prefix of the scan of more pages. */
  lemma {:induction false} PagesScanGrows(base: string, pages: seq<Page>, m: nat, n: nat)
    requires m <= n <= |pages|
    ensures PagesScan(base, pages, m).docs <= PagesScan(base, pages, n).docs
    decreases n - m
  {
    if m < n {
      PagesScanGrows(base, pages, m, n - 1);
    }
  }

  /** All OCR records come before all table records; every record carries the
      file's base name and is of one of the two kinds. */
  lemma AdditionalContentLayout(filepath: string, pdf: Pdf)
    requires AdditionalContent(filepath, pdf).Ok?
    ensures var docs := AdditionalContent(filepath, pdf).value;
      && (forall k :: 0 <= k < |docs| ==>
            docs[k].metadata.source == Basename(filepath)
            && (docs[k].metadata.ImageMeta? || docs[k].metadata.TableMeta?))
      && (forall i, j :: 0 <= i < j < |docs| && docs[i].metadata.TableMeta? ==>
            docs[j].metadata.TableMeta?)
  {
    assert pdf.Pdf?;
    var base := Basename(filepath);
    var s := PagesScan(base, pdf.pages, |pdf.pages|);
    PagesScanRecords(base, pdf.pages, |pdf.pages|);
    var docs := AdditionalContent(filepath, pdf).value;
    var t: seq<Doc> := [];
    if s.ok && pdf.tables.Ok? {
      var ts := pdf.tables.value;
      t := TablesScan(base, ts, |ts|).docs;
      TablesScanRecords(base, ts, |ts|);
      forall k | 0 <= k < |t|
        ensures t[k].metadata.source == base && t[k].metadata.TableMeta?
      {
        TableRecordContents(base, k, ts[k]);
      }
    }
    assert docs == s.docs + t;
    forall k | 0 <= k < |docs|
      ensures docs[k].metadata.source == base
      ensures docs[k].metadata.ImageMeta? || docs[k].metadata.TableMeta?
    {
      if k < |s.docs| {
        assert docs[k] in s.docs;
      } else {
        assert docs[k] == t[k - |s.docs|];
      }
    }
    forall i | 0 <= i < |s.docs|
      ensures docs[i].metadata.ImageMeta?
    {
      assert docs[i] == s.docs[i];
      assert s.docs[i] in s.docs;
    }
    forall i, j | 0 <= i < j < |docs| && docs[i].metadata.TableMeta?
      ensures docs[j].metadata.TableMeta?
    {
      assert docs[j] == t[j - |s.docs|];
    }
  }

  // ---------------------------------------------------------------------------
  // extract_additional_content_from_pdf
  // ---------------------------------------------------------------------------

  /** The body of the image loop for an extractable image: an image of a
      supported format whose recognised text is not blank gives one record. */
  method OcrImage(base: string, pageNum: nat, imgIndex: nat, ext: string, ocr: Outcome<string>)
    returns (added: seq<Doc>)
    ensures added == ImageRecords(base, pageNum, imgIndex, ext, ocr)
  {
    added := [];
    if ext in ImageExts {
      var text := OcrText(ocr);
      if Strip(text) != [] {
        added := [Doc(OcrContent(pageNum, text), ImageMeta(base, pageNum + 1, imgIndex + 1))];
      }
    }
  }

  /** The OCR records of the images of page `pageNum` (0-based), in image
      order. `ok` is false when an image could not be extracted. */
  method OcrPage(base: string, pageNum: nat, images: seq<Image>) returns (docs: seq<Doc>, ok: bool)
    ensures Scan(docs, ok) == ImagesScan(base, pageNum, images, |images|)
  {
    docs := [];
    var i := 0;
    while i < |images|
      invariant 0 <= i <= |images|
      invariant ImagesScan(base, pageNum, images, i) == Scan(docs, true)
    {
      match images[i] {
        case ImageUnreadable(_) =>
          ImagesScanUnreadable(base, pageNum, images, i);
          return docs, false;
        case Image(ext, ocr) =>
          var added := OcrImage(base, pageNum, i, ext, ocr);
          ImagesScanStep(base, pageNum, images, i);
          docs := docs + added;
      }
      i := i + 1;
    }
    return docs, true;
  }

  /** Section 1 of the extraction: OCR of every image of every page, in page
      then image order. `ok` is false when a page or an image could not be
      read, which ends the extraction with the records so far. */
  method OcrFromImages(base: string, pages: seq<Page>) returns (docs: seq<Doc>, ok: bool)
    ensures Scan(docs, ok) == PagesScan(base, pages, |pages|)
  {
    docs := [];
    var p := 0;
    while p < |pages|
      invariant 0 <= p <= |pages|
      invariant PagesScan(base, pages, p) == Scan(docs, true)
    {
      match pages[p] {
        case PageUnreadable(_) =>
          PagesScanUnreadable(base, pages, p);
          return docs, false;
        case Page(images) =>
          var pageDocs, pageOk := OcrPage(base, p, images);
          PagesScanStep(base, pages, p);
          docs := docs + pageDocs;
          if !pageOk {
            PagesScanStops(base, pages, p + 1, |pages|);
            return docs, false;
          }
      }
      p := p + 1;
    }
    return docs, true;
  }

  /** Section 2 of the extraction: one record per Camelot table, in table
      order. `ok` is false when rendering a table or reading its page label
      raised, which ends the extraction with the records so far. */
  method TableRecords(base: string, tables: seq<Table>) returns (docs: seq<Doc>, ok: bool)
    ensures Scan(docs, ok) == TablesScan(base, tables, |tables|)
  {
    docs := [];
    var i := 0;
    while i < |tables|
      invariant 0 <= i <= |tables|
      invariant TablesScan(base, tables, i) == Scan(docs, true)
    {
      var t := tables[i];
      match t.markdown {
        case Raised(_) =>
          TablesScanFailsAt(base, tables, i);
          return docs, false;
        case Ok(md) =>
          var content := TableHeader(i, t.pageLabel) + md;
          match ParseNat(t.pageLabel) {
            case None =>
              TablesScanFailsAt(base, tables, i);
              return docs, false;
            case Some(page) =>
              TablesScanSucceedsAt(base, tables, i, md, page);
              docs := docs + [Doc(content, TableMeta(base, page, i + 1))];
          }
      }
      i := i + 1;
    }
    return docs, true;
  }

  /** `extract_additional_content_from_pdf`: opens the PDF, runs both sections
      and returns every record gathered before the first exception. */
  method ExtractAdditionalContentFromPdf(filepath: string, pdf: Pdf) returns (r: Outcome<seq<Doc>>)
    ensures r == AdditionalContent(filepath, pdf)
  {
    if pdf.Unopenable? {
      // the handler reads `filename_base`, which was never bound
      return Raised(UnboundBaseError);
    }
    var base := Basename(filepath);
    var docs, ok := OcrFromImages(base, pdf.pages);
    if !ok {
      return Ok(docs);
    }
    match pdf.tables {
      case Raised(_) =>
        return Ok(docs);
      case Ok(tables) =>
        var more, _ := TableRecords(base, tables);
        return Ok(docs + more);
    }
  }

  // ---------------------------------------------------------------------------
  // load_and_process_camos_docs
  // ---------------------------------------------------------------------------

  /** One PDF as the two loaders see it: the page documents of the text loader
      (or its exception) and what the extraction libraries report. */
  datatype PdfFile = PdfFile(text: Outcome<seq<Doc>>, pdf: Pdf)

  /** The paths of the directory entries whose names end in ".pdf", in listing
      order. */
  function PdfPaths(dir: string, names: seq<string>): (r: seq<string>)
    ensures |r| <= |names|
    ensures forall p :: p in r ==> exists name :: name in names && EndsWith(name, ".pdf") && p == Join(dir, name)
  {
    if names == [] then []
    else
      var init, name := names[..|names| - 1], names[|names| - 1];
      var r := PdfPaths(dir, init) + (if EndsWith(name, ".pdf") then [Join(dir, name)] else []);
      assert forall n :: n in init ==> n in names;
      assert name in names;
      r
  }

  /** The chunks of one file, or the exception that makes the file skipped:
      text loading, extraction and splitting must all succeed. */
  function FileChunks(path: string, file: PdfFile, split: seq<Doc> -> Outcome<seq<Doc>>): (r: Outcome<seq<Doc>>)
    ensures file.text.Raised? || AdditionalContent(path, file.pdf).Raised? ==> r.Raised?
    ensures r.Ok? ==>
              && file.text.Ok? && AdditionalContent(path, file.pdf).Ok?
              && r == split(file.text.value + AdditionalContent(path, file.pdf).value)
  {
    match file.text
    case Raised(e) => Raised(e)
    case Ok(docs) =>
      match AdditionalContent(path, file.pdf)
      case Raised(e) => Raised(e)
      case Ok(extra) => split(docs + extra)
  }

  /** What one file adds to the result: all of its chunks or none. */
  function Contribution(path: string, files: string -> PdfFile, split: seq<Doc> -> Outcome<seq<Doc>>): (r: seq<Doc>)
    ensures r != [] ==> FileChunks(path, files(path), split) == Ok(r)
    ensures FileChunks(path, files(path), split).Raised? ==> r == []
  {
    match FileChunks(path, files(path), split)
    case Ok(chunks) => chunks
    case Raised(_) => []
  }

  /** The chunks of the given files, in order. */
  function Ingested(paths: seq<string>, files: string -> PdfFile, split: seq<Doc> -> Outcome<seq<Doc>>): (r: seq<Doc>)
    ensures forall d :: d in r ==> exists path :: path in paths && d in Contribution(path, files, split)
  {
    if paths == [] then []
    else
      var init, last := paths[..|paths| - 1], paths[|paths| - 1];
      assert forall path :: path in init ==> path in paths;
      assert last in paths;
      Ingested(init, files, split) + Contribution(last, files, split)
  }

  /** Builds the text splitter (`splitterError` is the exception its
      constructor raises, if any, e.g. for an overlap larger than the chunk
      size), lists the directory (which raises if it cannot be listed) and
      extends the result with each PDF's chunks, skipping a file whose
      processing raised. */
  method LoadAndProcessCamosDocs(pdfDir: string, splitterError: Option<string>, listing: Outcome<seq<string>>,
                                 files: string -> PdfFile, split: seq<Doc> -> Outcome<seq<Doc>>)
    returns (r: Outcome<seq<Doc>>)
    ensures splitterError.Some? ==> r == Raised(splitterError.value)
    ensures splitterError.None? && listing.Raised? ==> r == Raised(listing.error)
    ensures splitterError.None? && listing.Ok? ==> r == Ok(Ingested(PdfPaths(pdfDir, listing.value), files, split))
  {
    if splitterError.Some? {
      return Raised(splitterError.value);
    }
    if listing.Raised? {
      return Raised(listing.error);
    }
    var pdfFiles := PdfPaths(pdfDir, listing.value);
    var all: seq<Doc> := [];
    var k := 0;
    while k < |pdfFiles|
      invariant 0 <= k <= |pdfFiles|
      invariant all == Ingested(pdfFiles[..k], files, split)
    {
      var path := pdfFiles[k];
      var file := files(path);
      assert pdfFiles[..k + 1][..k] == pdfFiles[..k];
      match file.text {
        case Raised(_) =>
        case Ok(docs) =>
          var extra := ExtractAdditionalContentFromPdf(path, file.pdf);
          if extra.Ok? {
            var chunked := split(docs + extra.value);
            if chunked.Ok? {
              all := all + chunked.value;
            }
          }
      }
      k := k + 1;
    }
    assert pdfFiles[..k] == pdfFiles;
    return Ok(all);
  }

  /** A file added at the end contributes after all the others. */
  lemma IngestedSnoc(paths: seq<string>, path: string, files: string -> PdfFile,
                     split: seq<Doc> -> Outcome<seq<Doc>>)
    ensures Ingested(paths + [path], files, split) == Ingested(paths, files, split) + Contribution(path, files, split)
  {
    assert (paths + [path])[..|paths|] == paths;
  }

  /** The result for a list of files is the results for its parts, in order. */
  lemma {:induction false} IngestedConcat(a: seq<string>, b: seq<string>, files: string -> PdfFile,
                                          split: seq<Doc> -> Outcome<seq<Doc>>)
    ensures Ingested(a + b, files, split) == Ingested(a, files, split) + Ingested(b, files, split)
    decreases |b|
  {
    if b == [] {
      assert a + b == a;
    } else {
      var init, last := b[..|b| - 1], b[|b| - 1];
      assert b == init + [last];
      assert a + b == (a + init) + [last];
      IngestedSnoc(a + init, last, files, split);
      IngestedSnoc(init, last, files, split);
      IngestedConcat(a, init, files, split);
      SeqAssoc(Ingested(a, files, split), Ingested(init, files, split), Contribution(last, files, split));
    }
  }

  /** A file contributes all of its chunks, at its place in the listing. */
  lemma FileContributesAll(a: seq<string>, path: string, b: seq<string>, files: string -> PdfFile,
                           split: seq<Doc> -> Outcome<seq<Doc>>)
    requires FileChunks(path, files(path), split).Ok?
    ensures Ingested(a + [path] + b, files, split)
              == Ingested(a, files, split) + FileChunks(path, files(path), split).value + Ingested(b, files, split)
  {
    IngestedConcat(a + [path], b, files, split);
    IngestedSnoc(a, path, files, split);
  }

  /** A file whose processing raised contributes nothing, and the other files
      still contribute exactly what they would without it. */
  lemma FailingFileSkipped(a: seq<string>, path: string, b: seq<string>, files: string -> PdfFile,
                           split: seq<Doc> -> Outcome<seq<Doc>>)
    requires FileChunks(path, files(path), split).Raised?
    ensures Ingested(a + [path] + b, files, split) == Ingested(a + b, files, split)
  {
    IngestedConcat(a + [path], b, files, split);
    IngestedSnoc(a, path, files, split);
    assert Contribution(path, files, split) == [];
    assert Ingested(a, files, split) + [] == Ingested(a, files, split);
    IngestedConcat(a, b, files, split);
  }

  /** A PDF that cannot be opened is skipped whole, its page text included. */
  lemma UnopenableFileSkipped(path: string, text: Outcome<seq<Doc>>, error: string,
                              split: seq<Doc> -> Outcome<seq<Doc>>)
    ensures FileChunks(path, PdfFile(text, Unopenable(error)), split).Raised?
  {
  }

  lemma {:induction false} PdfPathsConcat(dir: string, a: seq<string>, b: seq<string>)
    ensures PdfPaths(dir, a + b) == PdfPaths(dir, a) + PdfPaths(dir, b)
    decreases |b|
  {
    if b == [] {
      assert a + b == a;
    } else {
      assert (a + b)[..|a + b| - 1] == a + b[..|b| - 1];
      PdfPathsConcat(dir, a, b[..|b| - 1]);
    }
  }

  /** Only entries whose names end in ".pdf" are processed, each once, in
      listing order: an entry with another name changes nothing, and a PDF
      entry adds its joined path at its place. */
  lemma PdfPathsFilter(dir: string, a: seq<string>, name: string, b: seq<string>)
    ensures !EndsWith(name, ".pdf") ==> PdfPaths(dir, a + [name] + b) == PdfPaths(dir, a + b)
    ensures EndsWith(name, ".pdf") ==>
              PdfPaths(dir, a + [name] + b) == PdfPaths(dir, a) + [Join(dir, name)] + PdfPaths(dir, b)
  {
    PdfPathsConcat(dir, a + [name], b);
    PdfPathsConcat(dir, a, [name]);
    PdfPathsConcat(dir, a, b);
    assert [name][..0] == [];
  }

  /** Records built for a listed entry carry its name as their source. */
  lemma SourceIsEntryName(dir: string, name: string, pdf: Pdf)
    requires '/' !in name
    requires AdditionalContent(Join(dir, name), pdf).Ok?
    ensures forall d :: d in AdditionalContent(Join(dir, name), pdf).value ==> d.metadata.source == name
  {
    BasenameJoin(dir, name);
    AdditionalContentLayout(Join(dir, name), pdf);
  }

  // ---------------------------------------------------------------------------
  // create_and_save_vector_store / load_vector_store
  // ---------------------------------------------------------------------------

  /** A FAISS index built from embedded chunks. */
  datatype Index = Index(docs: seq<Doc>)

  /** The index directory on disk: missing, or present with its file names and,
      when it holds one, the index that was saved there. The two are not tied
      together by the type; `SaveLocal`, the only writer, keeps them
      consistent (a saved index comes with "index.faiss" and "index.pkl"). */
  datatype IndexDir = Missing | Present(files: seq<string>, saved: Option<Index>)

  /** The directory after `save_local(ix)`: created if needed, holding
      "index.faiss" and "index.pkl" besides what it held before. */
  function SaveLocal(dir: IndexDir, ix: Index): (r: IndexDir)
    ensures r.Present? && r.saved == Some(ix)
    ensures "index.faiss" in r.files && "index.pkl" in r.files
    ensures dir.Present? ==> forall f :: f in dir.files ==> f in r.files
  {
    var before := if dir.Present? then dir.files else [];
    var withFaiss := if "index.faiss" in before then before else before + ["index.faiss"];
    var withPkl := if "index.pkl" in withFaiss then withFaiss else withFaiss + ["index.pkl"];
    Present(withPkl, Some(ix))
  }

  /** The value returned and the directory afterwards. */
  datatype Stored = Stored(result: Outcome<Option<Index>>, dir: IndexDir)

  /** `create_and_save_vector_store`: `None` for no documents, without
      embedding or writing; otherwise embed and save, either of which may
      raise. `saveError` is the exception `save_local` raises, if any; a save
      that raises is taken to leave the directory as it was. */
  function CreateAndSaveVectorStore(docs: seq<Doc>, embed: seq<Doc> -> Outcome<Index>,
                                    saveError: Option<string>, dir: IndexDir): (r: Stored)
    ensures docs == [] ==> r == Stored(Ok(None), dir)
    ensures docs != [] ==> (r.result.Ok? <==> embed(docs).Ok? && saveError.None?)
    ensures r.result.Ok? && r.result.value.Some? ==>
              && embed(docs) == Ok(r.result.value.value)
              && r.dir.Present? && r.dir.saved == r.result.value
    ensures r.result.Raised? ==> r.dir == dir
  {
    if docs == [] then Stored(Ok(None), dir)
    else match embed(docs)
      case Raised(e) => Stored(Raised(e), dir)
      case Ok(ix) =>
        match saveError
        case Some(e) => Stored(Raised(e), dir)
        case None => Stored(Ok(Some(ix)), SaveLocal(dir, ix))
  }

  /** `load_vector_store`: `None` when the path does not exist; otherwise it
      builds an embedding model, which may raise (`embedError` is that
      exception, if any), and then `FAISS.load_local`, which raises when no
      index was saved there. */
  function LoadVectorStore(dir: IndexDir, embedError: Option<string>): (r: Outcome<Option<Index>>)
    ensures dir.Missing? ==> r == Ok(None)
    ensures r.Raised? <==> dir.Present? && (embedError.Some? || dir.saved.None?)
    ensures dir.Present? && embedError.Some? ==> r == Raised(embedError.value)
    ensures r.Ok? && r.value.Some? ==> dir.Present? && embedError.None? && r.value == dir.saved
  {
    match dir
    case Missing => Ok(None)
    case Present(_, saved) =>
      match embedError
      case Some(e) => Raised(e)
      case None =>
        match saved
        case None => Raised("could not open index.faiss for reading: No such file or directory")
        case Some(ix) => Ok(Some(ix))
  }

  /** No documents: no index, nothing written, and neither the embedding model
      nor the save is consulted (any two of each give the same result). */
  lemma EmptyDocumentsNoIndex(embed: seq<Doc> -> Outcome<Index>, other: seq<Doc> -> Outcome<Index>,
                              saveError: Option<string>, otherError: Option<string>, dir: IndexDir)
    ensures CreateAndSaveVectorStore([], embed, saveError, dir) == Stored(Ok(None), dir)
    ensures CreateAndSaveVectorStore([], embed, saveError, dir) == CreateAndSaveVectorStore([], other, otherError, dir)
  {
  }

  /** What is saved is what is loaded back, unless building the embedding
      model for the load raises, and the directory is then not empty; a
      failed embedding or a failed save raises and writes nothing. */
  lemma SaveThenLoad(docs: seq<Doc>, embed: seq<Doc> -> Outcome<Index>, saveError: Option<string>,
                     dir: IndexDir, embedError: Option<string>)
    requires docs != []
    ensures var st := CreateAndSaveVectorStore(docs, embed, saveError, dir);
      && (embed(docs).Ok? && saveError.None? ==>
            && st.result == Ok(Some(embed(docs).value))
            && st.dir.Present? && |st.dir.files| > 0
            && (embedError.None? ==> LoadVectorStore(st.dir, embedError) == Ok(Some(embed(docs).value)))
            && (embedError.Some? ==> LoadVectorStore(st.dir, embedError) == Raised(embedError.value)))
      && (embed(docs).Ok? && saveError.Some? ==> st.result == Raised(saveError.value) && st.dir == dir)
      && (embed(docs).Raised? ==> st.result == Raised(embed(docs).error) && st.dir == dir)
  {
  }
}
