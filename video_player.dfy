/** The live preview (src/components/VideoPlayer.tsx): which subtitles are on
    screen at the current playback time, and where each one is anchored. */
module VideoPlayer {
  import opened JsLib
  import opened SubtitleForm

  /** A subtitle is on screen while the playback time lies in its closed
      interval `[startTime, endTime]`. */
  predicate IsShown(s: Subtitle, currentTime: real) {
    currentTime >= s.startTime && currentTime <= s.endTime
  }

  /** `currentSubtitles`: the subtitles on screen at `currentTime`. */
  function CurrentSubtitles(subtitles: seq<Subtitle>, currentTime: real): (r: seq<Subtitle>)
    ensures |r| <= |subtitles|
    ensures forall i :: 0 <= i < |r| ==> r[i] in subtitles && IsShown(r[i], currentTime)
    ensures forall i :: 0 <= i < |subtitles| && IsShown(subtitles[i], currentTime) ==> subtitles[i] in r
  {
    Filter(subtitles, s => IsShown(s, currentTime))
  }

  /** The CSS `bottom` offset of an overlay box. */
  function BottomOffset(position: Position): (r: string)
    ensures r == "0%" <==> position == Bottom
    ensures r == "80%" <==> position == Top
    ensures r == "50%" <==> position == Middle
  {
    assert "0%"[0] == '0' && "80%"[0] == '8' && "50%"[0] == '5';
    match position
    case Bottom => "0%"
    case Top => "80%"
    case Middle => "50%"
  }

  /** Every overlay box is horizontally centred. */
  const LeftOffset := "50%"

  /** What is rendered for one visible subtitle: its text in its colour and
      size (in px), at the anchor its position gives. */
  datatype Overlay = Overlay(text: string, bottom: string, left: string, color: string, fontSize: int)

  function OverlayOf(s: Subtitle): Overlay {
    Overlay(s.text, BottomOffset(s.position), LeftOffset, s.fontColor, s.fontSize)
  }

  /** The overlay boxes drawn over the video at `currentTime`, one per visible
      subtitle, in list order. */
  function Overlays(subtitles: seq<Subtitle>, currentTime: real): seq<Overlay> {
    var shown := CurrentSubtitles(subtitles, currentTime);
    seq(|shown|, i requires 0 <= i < |shown| => OverlayOf(shown[i]))
  }

  /** The preview returns exactly the subtitles whose closed interval holds
      `currentTime`, each as often as it occurs in the list, in list order and
      with no limit on how many overlap. */
  lemma CurrentSubtitlesExact(subtitles: seq<Subtitle>, currentTime: real, s: Subtitle)
    ensures |CurrentSubtitles(subtitles, currentTime)| <= |subtitles|
    ensures SubsequenceOf(CurrentSubtitles(subtitles, currentTime), subtitles)
    ensures multiset(CurrentSubtitles(subtitles, currentTime))[s]
         == if s.startTime <= currentTime <= s.endTime then multiset(subtitles)[s] else 0
  {
    FilterIsSubsequence(subtitles, t => IsShown(t, currentTime));
    FilterCount(subtitles, t => IsShown(t, currentTime), s);
  }

  /** Both ends of the interval are inclusive: a listed subtitle with
      `startTime <= endTime` is on screen at its start and at its end time. */
  lemma ShownAtBothEnds(subtitles: seq<Subtitle>, i: nat)
    requires i < |subtitles| && subtitles[i].startTime <= subtitles[i].endTime
    ensures subtitles[i] in CurrentSubtitles(subtitles, subtitles[i].startTime)
    ensures subtitles[i] in CurrentSubtitles(subtitles, subtitles[i].endTime)
  {
  }

  /** A subtitle that ends before it starts is never on screen. */
  lemma InvertedNeverShown(subtitles: seq<Subtitle>, s: Subtitle, currentTime: real)
    requires s.startTime > s.endTime
    ensures s !in CurrentSubtitles(subtitles, currentTime)
  {
    FilterCount(subtitles, t => IsShown(t, currentTime), s);
  }

  /** Every box is centred horizontally and sits at 0%, 80% or 50% from the
      bottom for a bottom, top or middle subtitle; every visible subtitle gets
      its box. */
  lemma OverlaysAnchored(subtitles: seq<Subtitle>, currentTime: real)
    ensures |Overlays(subtitles, currentTime)| <= |subtitles|
    ensures forall o :: o in Overlays(subtitles, currentTime) ==>
              o.left == "50%" && o.bottom in {"0%", "80%", "50%"}
    ensures forall i :: 0 <= i < |subtitles| && IsShown(subtitles[i], currentTime) ==>
              OverlayOf(subtitles[i]) in Overlays(subtitles, currentTime)
  {
    var shown := CurrentSubtitles(subtitles, currentTime);
    forall i | 0 <= i < |subtitles| && IsShown(subtitles[i], currentTime)
      ensures OverlayOf(subtitles[i]) in Overlays(subtitles, currentTime)
    {
      var k :| 0 <= k < |shown| && shown[k] == subtitles[i];
      assert Overlays(subtitles, currentTime)[k] == OverlayOf(subtitles[i]);
    }
  }

  /** Example: a cue added for 1 to 3 seconds is on screen at 2 and at its
      end time 3, and gone at 4 and just after its end, at 3.0001. */
  lemma AddThenPreviewScenario(hi: Subtitle)
    requires hi.text == "Hi" && hi.startTime == 1.0 && hi.endTime == 3.0
    ensures CurrentSubtitles([hi], 2.0) == [hi]
    ensures CurrentSubtitles([hi], 3.0) == [hi]
    ensures CurrentSubtitles([hi], 4.0) == []
    ensures CurrentSubtitles([hi], 3.0001) == []
  {
    assert [hi][1..] == [];
  }
}
