/** Deleting an image from the asset host: the public id is taken from the
    image URL (`url.split('/').slice(-1)[0].split('.')[0]`) and sent with
    the fixed upload preset. The request itself is not modelled. */
module Cloudinary {
  import opened Strings

  const UploadPreset := "paharpur"

  /** `url.split('/').slice(-1)[0]`: the text after the last `/`. */
  function LastSegment(url: string): string {
    Last(Split(url, '/'))
  }

  /** The public id: the last `/`-segment of the URL, cut at its first
      `.`. It holds neither separator and is a prefix of the last segment,
      all of it when the segment has no `.`; it is followed in the segment
      by a `.` when it is shorter. */
  function PublicId(url: string): (id: string)
    ensures '/' !in id && '.' !in id
    ensures id <= LastSegment(url)
    ensures |id| < |LastSegment(url)| ==> LastSegment(url)[|id|] == '.'
    ensures '.' !in LastSegment(url) ==> id == LastSegment(url)
  {
    var segment := LastSegment(url);
    var id := Split(segment, '.')[0];
    SplitFirst(segment, '.');
    assert '/' !in segment;
    assert forall i :: 0 <= i < |id| ==> id[i] == segment[i];
    id
  }

  /** A URL that ends in `/` has an empty public id. */
  lemma TrailingSlashEmptyId(url: string)
    requires |url| > 0 && url[|url| - 1] == '/'
    ensures PublicId(url) == ""
  {
    SplitLast(url, '/');
  }

  /** A URL without `/` is one segment: its id is its text before the
      first `.`. */
  lemma NoSlashWholeUrl(url: string)
    requires '/' !in url
    ensures LastSegment(url) == url
    ensures PublicId(url) == Split(url, '.')[0]
  {
    SplitWithoutSeparator(url, '/');
  }

  /** The id sits at the end of the URL's path: the URL is some text, then
      (unless the URL is a single segment) a `/`, then the last segment,
      whose first part is the id. */
  lemma PublicIdInUrl(url: string)
    ensures var segment := LastSegment(url);
      && |segment| <= |url|
      && url[|url| - |segment|..] == segment
      && (|segment| < |url| ==> url[|url| - |segment| - 1] == '/')
      && segment[..|PublicId(url)|] == PublicId(url)
  {
    SplitLast(url, '/');
  }

  /** The JSON body of the destroy request. */
  datatype DestroyRequest = DestroyRequest(publicId: string, uploadPreset: string)

  /** The body built for deleting the image at `url`: the extracted id and
      the fixed preset. */
  function DestroyBody(url: string): (body: DestroyRequest)
    ensures body.uploadPreset == UploadPreset
    ensures body.publicId == PublicId(url)
  {
    DestroyRequest(PublicId(url), UploadPreset)
  }
}
