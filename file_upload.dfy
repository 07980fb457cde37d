/** The upload widget (app/components/FileUpload.tsx): the client-side accept
    test, and the drag-and-drop and file-input handlers, which update the
    `isDragOver` flag and call `onFileSelect` or `alert`. The calls made to
    those two callbacks are recorded, in order, in the widget's state. */
module FileUpload {
  import opened Wrappers
  import opened Text
  import AnalyzeCall

  /** What is handed to `onFileSelect`: the file itself and its name. The
      human-readable size string is not modelled. */
  datatype AudioFile = AudioFile(file: AnalyzeCall.File, name: string)

  const InvalidFileAlert: string := "Please select a valid audio file (.mp3 or .wav)"

  /** The test in `handleFile`: the type contains "audio", or the name ends in
      ".mp3" or ".wav" in any letter case. */
  predicate IsAcceptedAudio(f: AnalyzeCall.File)
  {
    Contains(f.mimeType, "audio") || EndsWith(Lower(f.name), ".mp3") || EndsWith(Lower(f.name), ".wav")
  }

  /** The client accepts exactly the files whose type the server's check lets through. */
  lemma ClientMatchesServerTypeCheck(f: AnalyzeCall.File)
    ensures IsAcceptedAudio(f) <==> !AnalyzeCall.IsInvalidType(f.mimeType, f.name)
    ensures IsAcceptedAudio(f) ==>
      AnalyzeCall.Validate(AnalyzeCall.Form(AnalyzeCall.FileField(f))) != AnalyzeCall.Rejected(AnalyzeCall.InvalidType)
  {
  }

  class FileUploader {
    /** Whether the widget shows its drag-over style. */
    var isDragOver: bool
    /** The `disabled` prop. The page passes its `isProcessing` state, so the
        prop can change while the widget stays mounted; no handler changes it. */
    var disabled: bool
    /** The arguments of every `onFileSelect` call so far. */
    var selections: seq<AudioFile>
    /** The message of every `alert` so far. */
    var alerts: seq<string>

    constructor(disabled: bool)
      ensures this.disabled == disabled
      ensures !isDragOver && selections == [] && alerts == []
    {
      this.disabled := disabled;
      isDragOver := false;
      selections := [];
      alerts := [];
    }

    /** `handleFile`: an accepted file is passed on once, its name copied
        unchanged; any other file raises the alert instead. */
    method HandleFile(f: AnalyzeCall.File)
      modifies this`selections, this`alerts
      ensures IsAcceptedAudio(f) ==>
        selections == old(selections) + [AudioFile(f, f.name)] && alerts == old(alerts)
      ensures !IsAcceptedAudio(f) ==>
        selections == old(selections) && alerts == old(alerts) + [InvalidFileAlert]
    {
      if Contains(f.mimeType, "audio") || EndsWith(Lower(f.name), ".mp3") || EndsWith(Lower(f.name), ".wav") {
        selections := selections + [AudioFile(f, f.name)];
      } else {
        alerts := alerts + [InvalidFileAlert];
      }
    }

    /** `handleDragOver`: shows the drag-over style unless the widget is disabled. */
    method HandleDragOver()
      modifies this`isDragOver
      ensures isDragOver == (old(isDragOver) || !disabled)
    {
      if !disabled {
        isDragOver := true;
      }
    }

    /** `handleDragLeave`: always clears the drag-over style. */
    method HandleDragLeave()
      modifies this`isDragOver
      ensures !isDragOver
    {
      isDragOver := false;
    }

    /** `handleDrop`: clears the drag-over style; unless disabled, handles the first
        dropped file and ignores the rest, and ignores an empty drop. */
    method HandleDrop(files: seq<AnalyzeCall.File>)
      modifies this`isDragOver, this`selections, this`alerts
      ensures !isDragOver
      ensures disabled || files == [] ==> selections == old(selections) && alerts == old(alerts)
      ensures !disabled && files != [] && IsAcceptedAudio(files[0]) ==>
        selections == old(selections) + [AudioFile(files[0], files[0].name)] && alerts == old(alerts)
      ensures !disabled && files != [] && !IsAcceptedAudio(files[0]) ==>
        selections == old(selections) && alerts == old(alerts) + [InvalidFileAlert]
    {
      isDragOver := false;
      if disabled {
        return;
      }
      if |files| > 0 {
        HandleFile(files[0]);
      }
    }

    /** `handleFileInputChange`: handles the first chosen file, if any. It does not
        look at `disabled`: the disabled input element is what keeps it from firing. */
    method HandleFileInputChange(files: Option<seq<AnalyzeCall.File>>)
      modifies this`selections, this`alerts
      ensures files.None? || files.value == [] ==> selections == old(selections) && alerts == old(alerts)
      ensures files.Some? && files.value != [] && IsAcceptedAudio(files.value[0]) ==>
        selections == old(selections) + [AudioFile(files.value[0], files.value[0].name)] && alerts == old(alerts)
      ensures files.Some? && files.value != [] && !IsAcceptedAudio(files.value[0]) ==>
        selections == old(selections) && alerts == old(alerts) + [InvalidFileAlert]
    {
      if files.Some? && |files.value| > 0 {
        HandleFile(files.value[0]);
      }
    }
  }
}
