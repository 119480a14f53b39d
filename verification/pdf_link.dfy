/** Choosing the report's PDF among the links of the report page, and the names the
    download is stored under (main_script_cf.py:39-54, 88). The page is given as the
    `href` values of its anchors in document order; fetching and parsing the HTML are
    not modelled. */
module PdfLink {
  import opened Wrappers
  import opened Strings

  const PdfSuffix := ".pdf"
  const LinkNotFoundMessage := "PDF link not found on the page."
  const BlobFolder := "input/"

  /** The generator's condition: a non-empty `href` ending in `.pdf`. */
  predicate IsPdfHref(href: string) {
    |href| > 0 && EndsWith(href, PdfSuffix)
  }

  /** Position of the first PDF link, as `next(...)` over the anchors finds it. */
  function FirstPdfIndex(hrefs: seq<string>): (r: Option<nat>)
    ensures r.Some? ==> r.value < |hrefs| && IsPdfHref(hrefs[r.value])
    ensures r.Some? ==> forall j :: 0 <= j < r.value ==> !IsPdfHref(hrefs[j])
    ensures r.None? <==> forall j :: 0 <= j < |hrefs| ==> !IsPdfHref(hrefs[j])
    decreases |hrefs|
  {
    if |hrefs| == 0 then None
    else if IsPdfHref(hrefs[0]) then Some(0)
    else match FirstPdfIndex(hrefs[1..])
      case None => None
      case Some(i) => Some(i + 1)
  }

  /** The PDF URL of the page, or the script's "not found" exception
      (main_script_cf.py:41-44). */
  function FindPdfUrl(hrefs: seq<string>): (r: Result<string, string>)
    ensures r.Success? <==> exists i :: 0 <= i < |hrefs| && IsPdfHref(hrefs[i])
    ensures r.Success? ==> IsPdfHref(r.value)
    ensures r.Success? ==>
      exists i :: 0 <= i < |hrefs| && hrefs[i] == r.value && (forall j :: 0 <= j < i ==> !IsPdfHref(hrefs[j]))
    ensures r.Failure? ==> r.error == LinkNotFoundMessage
  {
    match FirstPdfIndex(hrefs)
    case None => Failure(LinkNotFoundMessage)
    case Some(i) => Success(hrefs[i])
  }

  /** `pdf_url.split('/')[-1]` (main_script_cf.py:50). */
  function FileName(url: string): (name: string)
    ensures '/' !in name
    ensures EndsWith(url, name)
    ensures name == url <==> '/' !in url
  {
    LastPieceIsSuffix(url, '/');
    SplitHasSecondPiece(url, '/');
    LastPiece(url, '/')
  }

  /** The file name is the text after the last `/` of the URL (the whole URL when it
      has none): it contains no `/`, ends the URL, and keeps the `.pdf` ending. */
  lemma FileNameShape(url: string)
    ensures '/' !in FileName(url)
    ensures EndsWith(url, FileName(url))
    ensures FileName(url) == url <==> '/' !in url
    ensures FileName(url) != url ==> EndsWith(url, "/" + FileName(url))
    ensures EndsWith(url, PdfSuffix) ==> EndsWith(FileName(url), PdfSuffix)
  {
    var name := FileName(url);
    LastPieceIsSuffix(url, '/');
    var pieces := Split(url, '/');
    assert name == pieces[|pieces| - 1];
    if name != url {
      assert url[|url| - |name| - 1..] == "/" + name;
    }
    if EndsWith(url, PdfSuffix) {
      assert forall k :: |url| - |PdfSuffix| <= k < |url| ==> url[k] != '/' by {
        forall k | |url| - |PdfSuffix| <= k < |url|
          ensures url[k] != '/'
        {
          assert url[k] == PdfSuffix[k - (|url| - |PdfSuffix|)];
        }
      }
      EndsWithSuffix(url, name, PdfSuffix);
    }
  }

  /** The object key the PDF is uploaded under and read back from
      (main_script_cf.py:54, 88). */
  function BlobKey(fileName: string): (key: string)
    ensures |key| == |BlobFolder| + |fileName|
    ensures key[..|BlobFolder|] == BlobFolder && key[|BlobFolder|..] == fileName
  {
    BlobFolder + fileName
  }

  /** The file name of an object key is the name it was built from, so the local
      copy's key and the upload's name the same file. */
  lemma BlobKeyFileName(name: string)
    requires '/' !in name
    ensures FileName(BlobKey(name)) == name
  {
    assert BlobKey(name) == "input" + ['/'] + name;
    SplitAtFirst("input", '/', name);
    SplitWithoutSeparator(name, '/');
  }
}
