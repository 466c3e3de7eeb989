/** The editor (src/components/VideoEditor.tsx): the committed subtitle list,
    the edit target, the live draft, the preview list built from them, and the
    bookkeeping around a render. The FFmpeg work itself is abstracted: loading
    the library, staging files, running and reading back are replaced by the
    outcome a render ends with. */
module VideoEditor {
  import opened JsLib
  import opened SubtitleForm
  import opened DrawtextFilter
  import VideoPlayer

  // ---------------------------------------------------------------------------
  // The list operations behind the handlers
  // ---------------------------------------------------------------------------

  /** A subtitle whose text is not empty after `trim`. */
  predicate NotBlank(s: Subtitle) {
    Trim(s.text) != ""
  }

  /** `allSubtitles`: while an edit target is set, the committed list as it is;
      otherwise the committed list with the draft appended, every entry whose
      trimmed text is empty removed. */
  function AllSubtitles(subtitles: seq<Subtitle>, subtitleToEdit: Option<Subtitle>,
                        editingSubtitle: Subtitle): (r: seq<Subtitle>)
    ensures subtitleToEdit.Some? ==> r == subtitles
    ensures subtitleToEdit.None? ==>
              |r| <= |subtitles| + 1 && forall i :: 0 <= i < |r| ==> NotBlank(r[i])
    ensures subtitleToEdit.None? && NotBlank(editingSubtitle) ==> editingSubtitle in r
  {
    if subtitleToEdit.Some? then subtitles
    else
      var all := subtitles + [editingSubtitle];
      assert all[|subtitles|] == editingSubtitle;
      Filter(all, NotBlank)
  }

  /** What the preview list is made of: while editing, exactly the committed
      list (the draft does not appear a second time); while creating, the
      non-blank committed entries in order, then the draft if its text has a
      character that is not whitespace. */
  lemma AllSubtitlesComposition(subtitles: seq<Subtitle>, subtitleToEdit: Option<Subtitle>,
                                editingSubtitle: Subtitle)
    ensures subtitleToEdit.Some? ==> AllSubtitles(subtitles, subtitleToEdit, editingSubtitle) == subtitles
    ensures subtitleToEdit.None? ==>
              AllSubtitles(subtitles, subtitleToEdit, editingSubtitle)
              == Filter(subtitles, NotBlank) + (if AllWhitespace(editingSubtitle.text) then [] else [editingSubtitle])
  {
    FilterAppend(subtitles, [editingSubtitle], NotBlank);
    FilterSingleton(editingSubtitle, NotBlank);
    TrimEmptyIffBlank(editingSubtitle.text);
  }

  /** While creating, a list whose committed entries all have text shows all
      of them followed by the draft, unless the draft is blank. */
  lemma AllSubtitlesWithoutBlanks(subtitles: seq<Subtitle>, editingSubtitle: Subtitle)
    requires forall i :: 0 <= i < |subtitles| ==> !AllWhitespace(subtitles[i].text)
    ensures AllSubtitles(subtitles, None, editingSubtitle)
         == if AllWhitespace(editingSubtitle.text) then subtitles else subtitles + [editingSubtitle]
  {
    forall i | 0 <= i < |subtitles| ensures NotBlank(subtitles[i]) {
      TrimEmptyIffBlank(subtitles[i].text);
    }
    FilterKeepsAll(subtitles, NotBlank);
    AllSubtitlesComposition(subtitles, None, editingSubtitle);
  }

  /** `newSubtitles[editIndex] = updated` on a copy of the list. Inside the
      list only that position changes; one past the end JavaScript appends.
      Further out JavaScript would leave holes in the array; the model leaves
      the list as it is there. */
  function WriteAt(subtitles: seq<Subtitle>, i: nat, updated: Subtitle): (r: seq<Subtitle>)
    ensures i < |subtitles| ==>
              |r| == |subtitles| && r[i] == updated
              && forall j :: 0 <= j < |r| && j != i ==> r[j] == subtitles[j]
    ensures i == |subtitles| ==> r == subtitles + [updated]
    ensures i > |subtitles| ==> r == subtitles
  {
    if i < |subtitles| then subtitles[i := updated]
    else if i == |subtitles| then subtitles + [updated]
    else subtitles
  }

  /** Writing the same subtitle at the same index twice is writing it once. */
  lemma WriteAtIdempotent(subtitles: seq<Subtitle>, i: nat, updated: Subtitle)
    ensures WriteAt(WriteAt(subtitles, i, updated), i, updated) == WriteAt(subtitles, i, updated)
  {
    if i == |subtitles| {
      assert (subtitles + [updated])[i := updated] == subtitles + [updated];
    }
  }

  /** `subtitles.filter((_, i) => i !== index)`: drops the element at
      `index` and shifts the later ones down by one; an index outside the
      list drops nothing. */
  function RemoveAt(subtitles: seq<Subtitle>, index: int): (r: seq<Subtitle>)
    ensures 0 <= index < |subtitles| ==>
              |r| == |subtitles| - 1
              && (forall j :: 0 <= j < index ==> r[j] == subtitles[j])
              && (forall j :: index <= j < |r| ==> r[j] == subtitles[j + 1])
    ensures !(0 <= index < |subtitles|) ==> r == subtitles
    decreases |subtitles|
  {
    if subtitles == [] then []
    else (if index == 0 then [] else [subtitles[0]]) + RemoveAt(subtitles[1..], index - 1)
  }

  // ---------------------------------------------------------------------------
  // The editor's state and handlers
  // ---------------------------------------------------------------------------

  /** How a render attempt ends once FFmpeg is involved: staging the video or
      the font fails, `exec` fails, reading the output fails, or it completes
      and the output is published under an object URL. */
  datatype FfmpegRun = StagingFails | ExecFails | ReadFails | Completes(url: string)

  /** The editor's state as one value (see Editor.State). */
  datatype EditorState = EditorState(
    subtitles: seq<Subtitle>,
    subtitleToEdit: Option<Subtitle>,
    editIndex: Option<nat>,
    editingSubtitle: Subtitle,
    videoFile: Option<string>,
    videoSrc: string,
    videoDuration: real,
    currentTime: real,
    outputVideo: string,
    processing: bool)

  class Editor {
    /** The committed subtitles, in insertion order. */
    var subtitles: seq<Subtitle>
    /** The subtitle being edited and its index; set and cleared together. */
    var subtitleToEdit: Option<Subtitle>
    var editIndex: Option<nat>
    /** The form's live draft. */
    var editingSubtitle: Subtitle
    /** The chosen video file (by name) and its object URL. */
    var videoFile: Option<string>
    var videoSrc: string
    /** Playback facts reported by the video element, stored as reported. */
    var videoDuration: real
    var currentTime: real
    /** The object URL of the last rendered video, "" before the first. */
    var outputVideo: string
    var processing: bool

    ghost predicate Valid()
      reads this
    {
      subtitleToEdit.Some? <==> editIndex.Some?
    }

    function State(): EditorState
      reads this
    {
      EditorState(subtitles, subtitleToEdit, editIndex, editingSubtitle, videoFile, videoSrc,
                  videoDuration, currentTime, outputVideo, processing)
    }

    /** The initial `useState` values. */
    constructor ()
      ensures Valid()
      ensures State() == EditorState([], None, None, Blank(Middle), None, "", 0.0, 0.0, "", false)
    {
      subtitles, subtitleToEdit, editIndex := [], None, None;
      editingSubtitle := Blank(Middle);
      videoFile, videoSrc := None, "";
      videoDuration, currentTime := 0.0, 0.0;
      outputVideo, processing := "", false;
    }

    /** The list handed to the preview. */
    function Effective(): (r: seq<Subtitle>)
      reads this
      ensures subtitleToEdit.Some? ==> r == subtitles
      ensures subtitleToEdit.None? ==> forall i :: 0 <= i < |r| ==> NotBlank(r[i])
    {
      AllSubtitles(subtitles, subtitleToEdit, editingSubtitle)
    }

    /** The subtitles the preview draws now: none while no video is loaded,
        since the player is mounted only when `videoSrc` is set; otherwise the
        entries of the list handed to the player that cover `currentTime`. */
    function Preview(): (r: seq<Subtitle>)
      reads this
      ensures videoSrc == "" ==> r == []
      ensures forall i :: 0 <= i < |r| ==> r[i] in Effective() && VideoPlayer.IsShown(r[i], currentTime)
      ensures videoSrc != "" ==>
                forall i :: 0 <= i < |Effective()| && VideoPlayer.IsShown(Effective()[i], currentTime) ==>
                  Effective()[i] in r
    {
      if videoSrc == "" then [] else VideoPlayer.CurrentSubtitles(Effective(), currentTime)
    }

    /** `handleSubtitleChange`: the form reported new field values. */
    method HandleSubtitleChange(subtitle: Subtitle)
      requires Valid()
      modifies this
      ensures Valid()
      ensures State() == old(State()).(editingSubtitle := subtitle)
    {
      editingSubtitle := subtitle;
    }

    /** `handleEditSubtitle`: the list's edit button at `index` selects that
        subtitle as edit target. */
    method HandleEditSubtitle(index: nat)
      requires Valid()
      requires index < |subtitles|
      modifies this
      ensures Valid()
      ensures State() == old(State()).(subtitleToEdit := Some(old(subtitles)[index]), editIndex := Some(index))
    {
      subtitleToEdit := Some(subtitles[index]);
      editIndex := Some(index);
    }

    /** `updateSubtitle`: with an edit index, write the edited subtitle there
        and clear the edit target; without one, do nothing. */
    method UpdateSubtitle(updated: Subtitle)
      requires Valid()
      modifies this
      ensures Valid()
      ensures old(editIndex).None? ==> State() == old(State())
      ensures old(editIndex).Some? ==>
                State() == old(State()).(subtitles := WriteAt(old(subtitles), old(editIndex).value, updated),
                                         subtitleToEdit := None, editIndex := None)
    {
      if editIndex.Some? {
        subtitles := WriteAt(subtitles, editIndex.value, updated);
        subtitleToEdit := None;
        editIndex := None;
      }
    }

    /** `deleteSubtitle`: drop the subtitle at `index`. The edit target and
        its index are left alone, so they can go stale. */
    method DeleteSubtitle(index: int)
      requires Valid()
      modifies this
      ensures Valid()
      ensures State() == old(State()).(subtitles := RemoveAt(old(subtitles), index))
    {
      subtitles := RemoveAt(subtitles, index);
    }

    /** The `onAddSubtitle` handler: append whatever the form submitted, with
        no check of its text or times, and reset the draft. */
    method AddSubtitle(subtitle: Subtitle)
      requires Valid()
      modifies this
      ensures Valid()
      ensures State() == old(State()).(subtitles := old(subtitles) + [subtitle], editingSubtitle := Blank(Middle))
    {
      subtitles := subtitles + [subtitle];
      editingSubtitle := Blank(Middle);
    }

    /** `handleVideoUpload`: when a file was chosen, keep it and its object URL. */
    method HandleVideoUpload(file: Option<string>, objectUrl: string)
      requires Valid()
      modifies this
      ensures Valid()
      ensures State() == if file.Some? then old(State()).(videoFile := file, videoSrc := objectUrl)
                         else old(State())
    {
      if file.Some? {
        videoFile := file;
        videoSrc := objectUrl;
      }
    }

    /** The `loadedmetadata` handler: store the duration as reported. */
    method HandleLoadedMetadata(duration: real)
      requires Valid()
      modifies this
      ensures Valid()
      ensures State() == old(State()).(videoDuration := duration)
    {
      videoDuration := duration;
    }

    /** The `timeupdate` handler: store the playback time as reported. */
    method HandleTimeUpdate(time: real)
      requires Valid()
      modifies this
      ensures Valid()
      ensures State() == old(State()).(currentTime := time)
    {
      currentTime := time;
    }

    /** The synchronous start of `transcode`: without a video nothing happens;
        otherwise `processing` is raised and the committed list the handler
        closed over is the one that will be compiled. */
    method StartTranscode() returns (job: Option<seq<Subtitle>>)
      requires Valid()
      modifies this
      ensures Valid()
      ensures old(videoFile).None? ==> job.None? && State() == old(State())
      ensures old(videoFile).Some? ==> job == Some(old(subtitles)) && State() == old(State()).(processing := true)
    {
      if videoFile.None? {
        job := None;
      } else {
        processing := true;
        job := Some(subtitles);
      }
    }

    /** The rest of `transcode`, once FFmpeg is done with `job`: `exec` is
        reached unless staging failed, and then receives the fixed argument
        vector around the filter chain of `job` (never the draft); the output
        URL changes only when the run completes; every failure raises the
        alert; `processing` is false again either way. */
    method FinishTranscode(job: seq<Subtitle>, run: FfmpegRun, num: real -> string)
      returns (exec: Option<seq<string>>, alerted: bool)
      requires Valid()
      modifies this
      ensures Valid()
      ensures exec.Some? <==> !run.StagingFails?
      ensures exec.Some? ==> exec.value == ExecArgs(FilterGraph(job, num))
      ensures alerted <==> !run.Completes?
      ensures State() == old(State()).(processing := false,
                                       outputVideo := if run.Completes? then run.url else old(outputVideo))
    {
      exec := if run.StagingFails? then None else Some(ExecArgs(FilterGraph(job, num)));
      alerted := !run.Completes?;
      if run.Completes? {
        outputVideo := run.url;
      }
      processing := false;
    }
  }

  // ---------------------------------------------------------------------------
  // The form wired to the editor
  // ---------------------------------------------------------------------------

  /** Submitting the form inside the editor: the editor always passes its edit
      callback, so an edit target routes the draft to `updateSubtitle` and its
      absence to the add handler. */
  method SubmitForm(editor: Editor, form: Form) returns (call: Submission)
    requires editor.Valid()
    modifies editor, form
    ensures editor.Valid()
    ensures call.EditCall? <==> old(editor.subtitleToEdit).Some?
    ensures call == if call.EditCall? then EditCall(old(form.Current())) else AddCall(old(form.Current()))
    ensures old(editor.subtitleToEdit).Some? ==>
              editor.State() == old(editor.State()).(
                subtitles := WriteAt(old(editor.subtitles), old(editor.editIndex).value, old(form.Current())),
                subtitleToEdit := None, editIndex := None)
    ensures old(editor.subtitleToEdit).None? ==>
              editor.State() == old(editor.State()).(
                subtitles := old(editor.subtitles) + [old(form.Current())],
                editingSubtitle := Blank(Middle))
    ensures form.Current() == Blank(Bottom)
    ensures form.currentTimeOffset == old(form.currentTimeOffset)
  {
    call := form.Submit(editor.subtitleToEdit, true);
    match call
    case EditCall(s) => editor.UpdateSubtitle(s);
    case AddCall(s) => editor.AddSubtitle(s);
  }

  // ---------------------------------------------------------------------------
  // Worked scenarios
  // ---------------------------------------------------------------------------

  /** Deleting shifts indices under a pending edit: with [a, b, c], editing
      index 1 and then deleting index 1 leaves [a, c] and a stale index 1, so
      the edit replaces c, not b. A second update finds no index and does
      nothing. */
  method StaleEditIndexScenario(a: Subtitle, b: Subtitle, c: Subtitle, x: Subtitle)
  {
    var e := new Editor();
    e.AddSubtitle(a);
    e.AddSubtitle(b);
    e.AddSubtitle(c);
    assert e.subtitles == [a, b, c];
    e.HandleEditSubtitle(1);
    e.DeleteSubtitle(1);
    assert e.subtitles == [a, c] && e.editIndex == Some(1) && e.subtitleToEdit == Some(b);
    e.UpdateSubtitle(x);
    assert e.subtitles == [a, x];
    e.UpdateSubtitle(c);
    assert e.subtitles == [a, x];
  }

  /** A stale index one past the end: editing the last of [a, b] and deleting
      the first makes the edit commit append, so the list grows back to two. */
  method StaleIndexAppendsScenario(a: Subtitle, b: Subtitle, x: Subtitle)
  {
    var e := new Editor();
    e.AddSubtitle(a);
    e.AddSubtitle(b);
    assert e.subtitles == [a, b];
    e.HandleEditSubtitle(1);
    e.DeleteSubtitle(0);
    assert e.subtitles == [b] && e.editIndex == Some(1);
    e.UpdateSubtitle(x);
    assert e.subtitles == [b, x];
  }

  /** While editing, the preview never shows the draft beside the committed
      list, so a changed draft is not on screen; an edit commit keeps the
      length. */
  method EditDraftScenario(a: Subtitle, draft: Subtitle)
  {
    var e := new Editor();
    e.HandleVideoUpload(Some("clip.mp4"), "blob:clip");
    e.AddSubtitle(a);
    assert e.subtitles == [a] && e.videoSrc == "blob:clip";
    e.HandleEditSubtitle(0);
    e.HandleSubtitleChange(draft);
    assert e.subtitleToEdit == Some(a) && e.subtitles == [a];
    assert e.Effective() == [a];
    assert draft != a ==> draft !in e.Preview();
    e.UpdateSubtitle(draft);
    assert e.subtitles == [draft];
  }

  /** Without a video nothing is drawn, even a non-blank draft covering the
      playback time; once a video is loaded the same draft is on screen. */
  method NoVideoNoPreviewScenario()
  {
    var e := new Editor();
    var hi := Subtitle("Hi", 0.0, 0.0, 24, "#FFFFFF", Middle);
    e.HandleSubtitleChange(hi);
    assert e.Preview() == [];
    e.HandleVideoUpload(Some("clip.mp4"), "blob:clip");
    assert e.subtitleToEdit.None? && e.editingSubtitle == hi && e.currentTime == 0.0 && e.videoSrc != "";
    assert NotBlank(hi) by {
      assert !IsJsWhitespace(hi.text[0]);
      TrimEmptyIffBlank(hi.text);
    }
    assert hi in e.Effective();
    assert hi in e.Preview();
  }

  /** A render compiles the list as it was when it started: edits made while
      FFmpeg runs do not reach the filter. */
  method RenderSnapshotScenario(a: Subtitle, b: Subtitle, num: real -> string)
  {
    var e := new Editor();
    e.HandleVideoUpload(Some("clip.mp4"), "blob:clip");
    e.AddSubtitle(a);
    assert e.subtitles == [a];
    var job := e.StartTranscode();
    assert job == Some([a]) && e.processing;
    e.AddSubtitle(b);
    var exec, alerted := e.FinishTranscode(job.value, Completes("blob:out"), num);
    assert exec == Some(ExecArgs(FilterGraph([a], num))) && !alerted;
    assert e.outputVideo == "blob:out" && !e.processing && e.subtitles == [a, b];
  }
}
