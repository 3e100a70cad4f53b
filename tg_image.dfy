/** The photo choice of src/catgpt/utils/tg_image.py. */
module TgImage {
  import opened Wrappers

  /** The sizes of one rendition of a Telegram photo. */
  datatype PhotoSize = PhotoSize(fileId: string, width: int, height: int)

  function Abs(x: int): (r: nat)
    ensures r == x || r == -x
  {
    if x < 0 then -x else x
  }

  /** Line 12: how far a rendition's width plus height is from the wanted one. */
  function Delta(photo: PhotoSize, width: int, height: int): nat {
    Abs(photo.width + photo.height - (width + height))
  }

  /** Line 9: the starting bound; a rendition at least this far off is never chosen. */
  const NO_CANDIDATE_DELTA: int := 1000000

  /**
   * Lines 7-17: the earliest rendition whose size is closest to the wanted one, or None when
   * the list is empty or every rendition is at least a million off.
   */
  method FindCandidate(photoList: seq<PhotoSize>, width: int := 640, height: int := 480)
    returns (candidate: Option<PhotoSize>)
    ensures candidate.None? <==> forall j :: 0 <= j < |photoList| ==> Delta(photoList[j], width, height) >= NO_CANDIDATE_DELTA
    ensures candidate.Some? ==> exists k ::
      && 0 <= k < |photoList| && photoList[k] == candidate.value
      && Delta(photoList[k], width, height) < NO_CANDIDATE_DELTA
      && (forall j :: 0 <= j < |photoList| ==> Delta(photoList[k], width, height) <= Delta(photoList[j], width, height))
      && (forall j :: 0 <= j < k ==> Delta(photoList[j], width, height) > Delta(photoList[k], width, height))
  {
    var distance := width + height;
    var delta := NO_CANDIDATE_DELTA;
    candidate := None;
    ghost var at := 0;
    for i := 0 to |photoList|
      invariant candidate.None? ==> delta == NO_CANDIDATE_DELTA
      invariant candidate.None? <==> forall j :: 0 <= j < i ==> Delta(photoList[j], width, height) >= NO_CANDIDATE_DELTA
      invariant forall j :: 0 <= j < i ==> delta <= Delta(photoList[j], width, height)
      invariant candidate.Some? ==>
        && 0 <= at < i && photoList[at] == candidate.value
        && delta == Delta(photoList[at], width, height) && delta < NO_CANDIDATE_DELTA
        && forall j :: 0 <= j < at ==> Delta(photoList[j], width, height) > delta
    {
      var photo := photoList[i];
      var newDelta := Abs(photo.width + photo.height - distance);
      if newDelta < delta {
        delta := newDelta;
        candidate := Some(photo);
        at := i;
      }
    }
  }
}
