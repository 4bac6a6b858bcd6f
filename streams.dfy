/**
 * The stream selector `get_best_quality_stream`: keep the streams that carry
 * both a video and an audio track, then take the one with the highest
 * quality label. Rust's `max_by_key` keeps the later element on a tie, so
 * among equally good streams the last one in the list wins.
 *
 * The selector hands back a reference into the video's stream list; here that
 * reference is the stream's index in the list.
 */
module Streams {
  import opened Wrappers

  /** One downloadable rendition. The quality label is given by its rank in the label order. */
  datatype Stream = Stream(includesVideoTrack: bool, includesAudioTrack: bool, qualityLabel: int)

  /** The video metadata the selector looks at: its list of streams. */
  datatype Video = Video(streams: seq<Stream>)

  /** The filter condition: both tracks present. */
  predicate Qualifies(s: Stream) {
    s.includesVideoTrack && s.includesAudioTrack
  }

  /** Every reference points into the list. */
  ghost predicate InRange(streams: seq<Stream>, refs: seq<nat>) {
    forall p :: 0 <= p < |refs| ==> refs[p] < |streams|
  }

  /** Every reference after position `p` has a strictly smaller label than the one at `p`. */
  ghost predicate LaterAreWorse(streams: seq<Stream>, refs: seq<nat>, p: nat)
    requires InRange(streams, refs) && p < |refs|
  {
    forall q :: p < q < |refs| ==> streams[refs[q]].qualityLabel < streams[refs[p]].qualityLabel
  }

  /** `.filter(...)` over the first `n` streams: the indices of qualifying streams, in list order. */
  function FilterQualifying(streams: seq<Stream>, n: nat): (refs: seq<nat>)
    requires n <= |streams|
    ensures forall p :: 0 <= p < |refs| ==> refs[p] < n && Qualifies(streams[refs[p]])
    ensures forall k :: 0 <= k < n && Qualifies(streams[k]) ==> k in refs
    ensures forall p, q :: 0 <= p < q < |refs| ==> refs[p] < refs[q]
  {
    if n == 0 then []
    else FilterQualifying(streams, n - 1) + (if Qualifies(streams[n - 1]) then [n - 1] else [])
  }

  /**
   * `.max_by_key(|stream| stream.quality_label)` over the references `refs`:
   * a left-to-right reduction in which a later element replaces the one kept
   * so far unless the kept one has a strictly greater label. The result is
   * absent only for no references; otherwise it is one of them, its label is
   * the largest, and every reference after it has a strictly smaller label.
   */
  function MaxByQuality(streams: seq<Stream>, refs: seq<nat>): (r: Option<nat>)
    requires InRange(streams, refs)
    ensures r.None? <==> refs == []
    ensures r.Some? ==> r.value in refs
    ensures r.Some? ==> forall p :: 0 <= p < |refs| ==>
      streams[refs[p]].qualityLabel <= streams[r.value].qualityLabel
    ensures r.Some? ==>
      exists p :: 0 <= p < |refs| && refs[p] == r.value && LaterAreWorse(streams, refs, p)
  {
    if refs == [] then None
    else
      var last := refs[|refs| - 1];
      match MaxByQuality(streams, refs[..|refs| - 1])
      case None => Some(last)
      case Some(kept) =>
        if streams[kept].qualityLabel > streams[last].qualityLabel then Some(kept) else Some(last)
  }

  /** `get_best_quality_stream`: the index of the selected stream, if any stream qualifies. */
  function BestQualityStream(streams: seq<Stream>): (r: Option<nat>)
    ensures r.None? <==> forall k :: 0 <= k < |streams| ==> !Qualifies(streams[k])
    ensures r.Some? ==> r.value < |streams| && Qualifies(streams[r.value])
  {
    MaxByQuality(streams, FilterQualifying(streams, |streams|))
  }

  /** The selection rule stated without reference to how it is computed. */
  ghost predicate IsBestQuality(streams: seq<Stream>, i: int) {
    && 0 <= i < |streams|
    && Qualifies(streams[i])
    && (forall k :: 0 <= k < |streams| && Qualifies(streams[k]) ==>
          streams[k].qualityLabel <= streams[i].qualityLabel)
    && (forall k :: i < k < |streams| && Qualifies(streams[k]) ==>
          streams[k].qualityLabel < streams[i].qualityLabel)
  }

  /** The selected stream is qualifying, of maximal label, and the last such on a tie. */
  lemma BestQualityStreamIsBest(streams: seq<Stream>)
    requires BestQualityStream(streams).Some?
    ensures IsBestQuality(streams, BestQualityStream(streams).value)
  {
    var refs := FilterQualifying(streams, |streams|);
    var i := MaxByQuality(streams, refs).value;
    var p :| 0 <= p < |refs| && refs[p] == i && LaterAreWorse(streams, refs, p);
    forall k | 0 <= k < |streams| && Qualifies(streams[k])
      ensures streams[k].qualityLabel <= streams[i].qualityLabel
      ensures i < k ==> streams[k].qualityLabel < streams[i].qualityLabel
    {
      assert k in refs;
      var q :| 0 <= q < |refs| && refs[q] == k;
      if i < k {
        // the filter keeps list order, so k comes after i among the references
        assert p < q;
      }
    }
  }

  /**
   * The selector and the rule agree on every input: the selector picks `i`
   * exactly when `i` is the last qualifying stream of maximal label.
   */
  lemma BestQualityStreamCharacterised(streams: seq<Stream>, i: int)
    ensures BestQualityStream(streams) == Some(i) <==> IsBestQuality(streams, i)
  {
    var r := BestQualityStream(streams);
    if r.Some? {
      BestQualityStreamIsBest(streams);
      // two indices that both follow the rule are equal: the later one
      // would have to be strictly worse than the earlier, yet both are maximal
    }
  }

  /** Two equally good qualifying streams: the later one is chosen. */
  lemma TieGoesToLater(a: Stream, b: Stream)
    requires Qualifies(a) && Qualifies(b) && a.qualityLabel == b.qualityLabel
    ensures BestQualityStream([a, b]) == Some(1)
  {
    BestQualityStreamCharacterised([a, b], 1);
  }
}
