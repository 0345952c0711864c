/**
 * Attachment extraction from an inbound Twilio payload: NumMedia declares how
 * many attachments there are, and attachment i is described by the fields
 * MediaUrl{i} and MediaContentType{i}.
 */
module TwilioMedia {
  import opened Sms
  import opened PhpStrings

  function MediaUrlKey(i: nat): string {
    "MediaUrl" + NatToString(i)
  }

  function MediaContentTypeKey(i: nat): string {
    "MediaContentType" + NatToString(i)
  }

  /** The payload carries NumMedia as an integer string. */
  predicate HasMediaCount(params: Params) {
    "NumMedia" in params && IsIntegerString(params["NumMedia"])
  }

  /** The declared number of attachments; it may be zero or negative. */
  function MediaCount(params: Params): int
    requires HasMediaCount(params)
  {
    IntegerValue(params["NumMedia"])
  }

  /** Both fields of attachment i are present for every i below n. */
  predicate HasMediaFields(params: Params, n: int) {
    forall i: nat :: i < n ==> MediaUrlKey(i) in params && MediaContentTypeKey(i) in params
  }

  /** What extraction needs of a payload: a numeric NumMedia and the fields it announces. */
  predicate WellFormedMedia(params: Params) {
    HasMediaCount(params) && HasMediaFields(params, MediaCount(params))
  }

  /** Attachment i, read from its two fields. */
  function MediaEntry(params: Params, i: nat): MediaFile
    requires MediaUrlKey(i) in params && MediaContentTypeKey(i) in params
  {
    MediaFile(params[MediaUrlKey(i)], params[MediaContentTypeKey(i)])
  }

  /** The first n attachments, built one index at a time in ascending order. */
  function MediaPrefix(params: Params, n: nat): (files: seq<MediaFile>)
    requires HasMediaFields(params, n)
    ensures |files| == n
    ensures forall i :: 0 <= i < n ==> files[i] == MediaEntry(params, i)
  {
    if n == 0 then [] else MediaPrefix(params, n - 1) + [MediaEntry(params, n - 1)]
  }

  /**
   * The attachment list of a payload: one entry per index from 0 up to, not
   * including, NumMedia; none when NumMedia is zero or negative.
   */
  function ExtractMedia(params: Params): (files: seq<MediaFile>)
    requires WellFormedMedia(params)
    ensures MediaCount(params) <= 0 ==> files == []
    ensures MediaCount(params) >= 0 ==> |files| == MediaCount(params)
    ensures forall i :: 0 <= i < |files| ==> files[i] == MediaEntry(params, i)
  {
    if MediaCount(params) <= 0 then [] else MediaPrefix(params, MediaCount(params))
  }

  /**
   * Two payloads with the same NumMedia that agree on the attachment fields it
   * announces have the same attachments, whatever else they hold.
   */
  lemma ExtractMediaFrame(p: Params, q: Params)
    requires WellFormedMedia(p) && WellFormedMedia(q)
    requires p["NumMedia"] == q["NumMedia"]
    requires forall i: nat :: i < MediaCount(p) ==> p[MediaUrlKey(i)] == q[MediaUrlKey(i)]
    requires forall i: nat :: i < MediaCount(p) ==> p[MediaContentTypeKey(i)] == q[MediaContentTypeKey(i)]
    ensures ExtractMedia(p) == ExtractMedia(q)
  {
  }

  /** The keys of different attachments, and the two keys of one attachment, never collide. */
  lemma MediaKeysDistinct(i: nat, j: nat)
    ensures MediaUrlKey(i) != MediaContentTypeKey(j)
    ensures i != j ==> MediaUrlKey(i) != MediaUrlKey(j) && MediaContentTypeKey(i) != MediaContentTypeKey(j)
  {
    assert MediaUrlKey(i)[5] != MediaContentTypeKey(j)[5];
    if i != j {
      if NatToString(i) == NatToString(j) {
        NatToStringInjective(i, j);
      }
      assert NatToString(i) == MediaUrlKey(i)[8..] && NatToString(j) == MediaUrlKey(j)[8..];
      assert NatToString(i) == MediaContentTypeKey(i)[16..] && NatToString(j) == MediaContentTypeKey(j)[16..];
    }
  }

  /**
   * Fields of attachments at or beyond NumMedia are never read: overwriting
   * MediaUrl{j} and MediaContentType{j} for j >= NumMedia leaves the list as it was.
   */
  lemma ExtractMediaIgnoresLaterIndices(params: Params, j: nat, url: string, contentType: string)
    requires WellFormedMedia(params)
    requires j >= MediaCount(params)
    ensures WellFormedMedia(params[MediaUrlKey(j) := url][MediaContentTypeKey(j) := contentType])
    ensures ExtractMedia(params[MediaUrlKey(j) := url][MediaContentTypeKey(j) := contentType]) == ExtractMedia(params)
  {
    var q := params[MediaUrlKey(j) := url][MediaContentTypeKey(j) := contentType];
    MediaKeysDistinct(j, j);
    assert "NumMedia" != MediaUrlKey(j) by { assert "NumMedia"[5] != MediaUrlKey(j)[5]; }
    assert "NumMedia" != MediaContentTypeKey(j) by { assert "NumMedia"[5] != MediaContentTypeKey(j)[5]; }
    forall i: nat | i < MediaCount(params)
      ensures q[MediaUrlKey(i)] == params[MediaUrlKey(i)]
      ensures q[MediaContentTypeKey(i)] == params[MediaContentTypeKey(i)]
    {
      MediaKeysDistinct(i, j);
      MediaKeysDistinct(j, i);
    }
    ExtractMediaFrame(params, q);
  }

  /**
   * TwilioMedia::processMedia. Counts i up from 0 while i is below NumMedia,
   * appending one {url, content-type} entry per step.
   */
  method ProcessMedia(params: Params) returns (files: seq<MediaFile>)
    requires WellFormedMedia(params)
    ensures files == ExtractMedia(params)
  {
    var i := 0;
    files := [];
    while i < MediaCount(params)
      invariant 0 <= i && (i <= MediaCount(params) || i == 0)
      invariant |files| == i
      invariant files == MediaPrefix(params, i)
    {
      files := files + [MediaFile(params[MediaUrlKey(i)], params[MediaContentTypeKey(i)])];
      i := i + 1;
    }
  }
}
