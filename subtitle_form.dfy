/** The subtitle record and the form that drafts one (src/components/SubtitleForm.tsx).
    The form keeps seven pieces of state; its handlers overwrite them, and the
    callbacks it invokes are returned as values instead of being called. */
module SubtitleForm {
  import opened JsLib

  datatype Position = Top | Middle | Bottom

  /** One timed text overlay. Times are seconds (JavaScript numbers, modelled as
      reals: they are only compared and added); the font size is what `parseInt`
      produced. */
  datatype Subtitle = Subtitle(
    text: string,
    startTime: real,
    endTime: real,
    fontSize: int,
    fontColor: string,
    position: Position)

  /** The field values the form resets to: empty text, both times 0, size 24,
      white. Only the position differs between the two places that reset. */
  function Blank(position: Position): (s: Subtitle)
    ensures s.text == "" && s.startTime == 0.0 && s.endTime == 0.0
    ensures s.fontSize == 24 && s.fontColor == "#FFFFFF" && s.position == position
  {
    Subtitle("", 0.0, 0.0, 24, "#FFFFFF", position)
  }

  /** Which of the two callbacks `handleSubmit` invokes, and with what. */
  datatype Submission = EditCall(edited: Subtitle) | AddCall(added: Subtitle)

  class Form {
    var text: string
    var startTime: real
    var endTime: real
    var fontSize: int
    var fontColor: string
    var position: Position
    /** Seconds added to the playback time to get the end time; starts at 1. */
    var currentTimeOffset: real

    /** The six subtitle fields as one record. */
    function Current(): Subtitle
      reads this
    {
      Subtitle(text, startTime, endTime, fontSize, fontColor, position)
    }

    /** The initial `useState` values. */
    constructor ()
      ensures Current() == Blank(Middle)
      ensures currentTimeOffset == 1.0
    {
      text, startTime, endTime := "", 0.0, 0.0;
      fontSize, fontColor, position := 24, "#FFFFFF", Middle;
      currentTimeOffset := 1.0;
    }

    // Input handlers: each overwrites one field with what the control reports.

    method SetText(value: string)
      modifies this
      ensures Current() == old(Current()).(text := value)
      ensures currentTimeOffset == old(currentTimeOffset)
    {
      text := value;
    }

    method SetStartTime(value: real)
      modifies this
      ensures Current() == old(Current()).(startTime := value)
      ensures currentTimeOffset == old(currentTimeOffset)
    {
      startTime := value;
    }

    method SetEndTime(value: real)
      modifies this
      ensures Current() == old(Current()).(endTime := value)
      ensures currentTimeOffset == old(currentTimeOffset)
    {
      endTime := value;
    }

    method SetFontSize(value: int)
      modifies this
      ensures Current() == old(Current()).(fontSize := value)
      ensures currentTimeOffset == old(currentTimeOffset)
    {
      fontSize := value;
    }

    method SetFontColor(value: string)
      modifies this
      ensures Current() == old(Current()).(fontColor := value)
      ensures currentTimeOffset == old(currentTimeOffset)
    {
      fontColor := value;
    }

    method SetPosition(value: Position)
      modifies this
      ensures Current() == old(Current()).(position := value)
      ensures currentTimeOffset == old(currentTimeOffset)
    {
      position := value;
    }

    method SetCurrentTimeOffset(value: real)
      modifies this
      ensures Current() == old(Current())
      ensures currentTimeOffset == value
    {
      currentTimeOffset := value;
    }

    /** "Set to current time": the cue starts now and lasts `currentTimeOffset`
        seconds; nothing else changes. */
    method SetCurrentTime(videoCurrentTime: real)
      modifies this
      ensures startTime == videoCurrentTime
      ensures endTime - startTime == currentTimeOffset
      ensures Current() == old(Current()).(startTime := startTime, endTime := endTime)
      ensures currentTimeOffset == old(currentTimeOffset)
    {
      startTime := videoCurrentTime;
      endTime := videoCurrentTime + currentTimeOffset;
    }

    /** The effect that runs when the edit target changes: copy the target's
        six fields, or reset them (to position `Middle`) when there is none. */
    method Seed(subtitleToEdit: Option<Subtitle>)
      modifies this
      ensures Current() == if subtitleToEdit.Some? then subtitleToEdit.value else Blank(Middle)
      ensures currentTimeOffset == old(currentTimeOffset)
    {
      if subtitleToEdit.Some? {
        var s := subtitleToEdit.value;
        text, startTime, endTime := s.text, s.startTime, s.endTime;
        fontSize, fontColor, position := s.fontSize, s.fontColor, s.position;
      } else {
        text, startTime, endTime := "", 0.0, 0.0;
        fontSize, fontColor, position := 24, "#FFFFFF", Middle;
      }
    }

    /** The effect that reports the fields to the parent: when an `onChange`
        callback is present it receives exactly the current six values. */
    method NotifyChange(hasOnChange: bool) returns (payload: Option<Subtitle>)
      ensures payload.Some? <==> hasOnChange
      ensures payload.Some? ==> payload.value == Current()
    {
      if hasOnChange {
        payload := Some(Subtitle(text, startTime, endTime, fontSize, fontColor, position));
      } else {
        payload := None;
      }
    }

    /** Submitting: the current fields go to the edit callback when there is an
        edit target and an edit callback, otherwise to the add callback; then
        the fields reset, this time to position `Bottom`. */
    method Submit(subtitleToEdit: Option<Subtitle>, hasOnEditSubtitle: bool) returns (call: Submission)
      modifies this
      ensures call.EditCall? <==> subtitleToEdit.Some? && hasOnEditSubtitle
      ensures call == if call.EditCall? then EditCall(old(Current())) else AddCall(old(Current()))
      ensures Current() == Blank(Bottom)
      ensures currentTimeOffset == old(currentTimeOffset)
    {
      var submitted := Subtitle(text, startTime, endTime, fontSize, fontColor, position);
      if subtitleToEdit.Some? && hasOnEditSubtitle {
        call := EditCall(submitted);
      } else {
        call := AddCall(submitted);
      }
      text, startTime, endTime := "", 0.0, 0.0;
      fontSize, fontColor, position := 24, "#FFFFFF", Bottom;
    }
  }
}
