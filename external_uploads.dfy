/**
 * app/controllers/external_uploads_controller.rb: the public, unauthenticated
 * redirects. `show` sends the browser to an upload's blob; `rescue` looks an
 * upload up by the URL it was originally fetched from and, when there is
 * none, answers an image URL with an SVG placeholder and anything else with
 * 404. The blob's service URL and an upload's CDN URL are parameters.
 */
module ExternalUploads {
  import opened Common
  import opened Records

  datatype Response = Head(status: nat) | Redirect(location: string) | ErrorImage(svg: string)

  /** `render_error_image`: an 800x400 card saying the original URL is not in the CDN. */
  const ERROR_SVG: string :=
    "<svg width=\"800\" height=\"400\" xmlns=\"http://www.w3.org/2000/svg\">\n"
    + "  <rect width=\"800\" height=\"400\" fill=\"#FBECED\"/>\n"
    + "  <circle cx=\"400\" cy=\"140\" r=\"40\" fill=\"#EC3750\" opacity=\"0.2\"/>\n"
    + "  <text x=\"400\" y=\"150\" font-family=\"Phantom Sans, system-ui, -apple-system, sans-serif\" font-size=\"32\" fill=\"#EC3750\" text-anchor=\"middle\" font-weight=\"700\">\n"
    + "    404\n"
    + "  </text>\n"
    + "  <text x=\"400\" y=\"210\" font-family=\"Phantom Sans, system-ui, -apple-system, sans-serif\" font-size=\"20\" fill=\"#1F2D3D\" text-anchor=\"middle\" font-weight=\"600\">\n"
    + "    Original URL not found in CDN\n"
    + "  </text>\n"
    + "  <text x=\"400\" y=\"250\" font-family=\"Phantom Sans, system-ui, -apple-system, sans-serif\" font-size=\"14\" fill=\"#3C4858\" text-anchor=\"middle\">\n"
    + "    This file hasn't been uploaded or rescued yet.\n"
    + "  </text>\n"
    + "  <text x=\"400\" y=\"280\" font-family=\"Phantom Sans, system-ui, -apple-system, sans-serif\" font-size=\"14\" fill=\"#3C4858\" text-anchor=\"middle\">\n"
    + "    Try uploading it at cdn.hackclub.com\n"
    + "  </text>\n"
    + "</svg>\n"

  /** `show`: 404 for an unknown id, otherwise a redirect to the blob. */
  function Show(uploads: seq<Upload>, id: nat, blobUrl: Blob -> string): (r: Response)
    ensures UploadIndex(uploads, id).None? <==> r == Head(404)
    ensures r != Head(404) ==> r == Redirect(blobUrl(uploads[UploadIndex(uploads, id).value].blob))
  {
    match UploadIndex(uploads, id)
    case None => Head(404)
    case Some(i) => Redirect(blobUrl(uploads[i].blob))
  }

  /** Whether the characters just before position `end` spell `ext`, ignoring ASCII case. */
  predicate ExtensionBefore(url: string, end: nat, ext: string)
    requires end <= |url|
  {
    |ext| <= end && LowerAscii(url[end - |ext|..end]) == ext
  }

  /** Where Ruby's `$` can match: the end of the string or just before a line feed. */
  predicate LineEnd(url: string, p: nat)
    requires p <= |url|
  {
    p == |url| || url[p] == '\n'
  }

  /**
   * `url.match?(/\.(png|jpe?g)$/i)`. Ruby's `$` is an end-of-line anchor,
   * so the extension may also sit just before any line feed.
   */
  predicate IsImageUrl(url: string)
  {
    exists p: nat :: p <= |url| && LineEnd(url, p)
                     && (ExtensionBefore(url, p, ".png") || ExtensionBefore(url, p, ".jpg")
                         || ExtensionBefore(url, p, ".jpeg"))
  }

  /** `render_not_found_response`. */
  function NotFoundResponse(url: string): (r: Response)
    ensures r.ErrorImage? <==> IsImageUrl(url)
    ensures !r.ErrorImage? ==> r == Head(404)
  {
    if IsImageUrl(url) then ErrorImage(ERROR_SVG) else Head(404)
  }

  function FromOriginalUrl(url: string): Upload -> bool
  {
    (u: Upload) => u.originalUrl == Some(url)
  }

  /**
   * `rescue`: 400 for a blank url; a redirect to the CDN URL of the first
   * upload fetched from this url; otherwise the not-found response.
   */
  function Rescue(uploads: seq<Upload>, url: Option<string>, cdnUrl: Upload -> string): (r: Response)
    ensures !IsPresent(url) <==> r == Head(400)
    ensures IsPresent(url) && (exists i :: 0 <= i < |uploads| && uploads[i].originalUrl == url) ==> r.Redirect?
    ensures IsPresent(url) && r.Redirect? ==>
              exists i :: 0 <= i < |uploads| && uploads[i].originalUrl == url && r == Redirect(cdnUrl(uploads[i]))
                          && forall k :: 0 <= k < i ==> uploads[k].originalUrl != url
    ensures IsPresent(url) && (forall i :: 0 <= i < |uploads| ==> uploads[i].originalUrl != url) ==>
              r == NotFoundResponse(url.value)
  {
    if !IsPresent(url) then Head(400)
    else match FirstIndex(uploads, FromOriginalUrl(url.value))
      case Some(i) => Redirect(cdnUrl(uploads[i]))
      case None => NotFoundResponse(url.value)
  }

  /** A rescued upload is found again by the URL it was fetched from. */
  lemma RescuedUploadRedirects(uploads: seq<Upload>, u: Upload, url: string, cdnUrl: Upload -> string)
    requires IsPresent(Some(url)) && u.originalUrl == Some(url)
    requires forall i :: 0 <= i < |uploads| ==> uploads[i].originalUrl != Some(url)
    ensures Rescue(uploads + [u], Some(url), cdnUrl) == Redirect(cdnUrl(u))
  {
    var all := uploads + [u];
    assert FromOriginalUrl(url)(all[|uploads|]);
    assert forall i :: 0 <= i < |uploads| ==> all[i] == uploads[i] && !FromOriginalUrl(url)(all[i]);
  }

  /** On a one-line URL the test is "ends in .png, .jpg or .jpeg, in any case". */
  lemma ImageUrlOnOneLine(url: string)
    requires '\n' !in url
    ensures IsImageUrl(url) <==>
              ExtensionBefore(url, |url|, ".png") || ExtensionBefore(url, |url|, ".jpg")
              || ExtensionBefore(url, |url|, ".jpeg")
  {
    if IsImageUrl(url) {
      var p: nat :| p <= |url| && LineEnd(url, p)
                    && (ExtensionBefore(url, p, ".png") || ExtensionBefore(url, p, ".jpg")
                        || ExtensionBefore(url, p, ".jpeg"));
      assert p == |url|;
    }
  }

  /** An image extension at the end of the first line counts, whatever follows the line feed. */
  lemma ImageExtensionBeforeLineFeed(first: string, rest: string, ext: string)
    requires ext == ".png" || ext == ".jpg" || ext == ".jpeg"
    requires ExtensionBefore(first, |first|, ext)
    ensures IsImageUrl(first + "\n" + rest)
  {
    var url := first + "\n" + rest;
    var p := |first|;
    assert url[p] == '\n';
    assert url[p - |ext|..p] == first[p - |ext|..p];
    assert ExtensionBefore(url, p, ext);
  }
}
