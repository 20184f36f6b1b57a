/** The post creator's local state (components/post-creator.tsx) and the
    event handlers that change it without calling the remote client. */
module PostDraft {
  import opened Wrappers
  import opened Remote
  import opened Status
  import opened Lists

  /** A file chosen in the image picker. */
  datatype File = File(name: string, content: Bytes)

  /** A recorded voice note. */
  datatype Blob = Blob(content: Bytes, mimeType: string)

  /** What asking for the microphone yields: a new recorder, identified by a
      number, or a refusal (no device, or the user declined). */
  datatype MicAccess = Granted(recorder: nat) | Denied

  /** The component's state: its eight React state cells, plus the recorder and
      chunk buffer it keeps in refs. Object URLs are plain strings. */
  datatype Draft = Draft(
    image: Option<File>,
    imagePreview: Option<string>,
    caption: string,
    isRecording: bool,
    audioBlob: Option<Blob>,
    audioUrl: Option<string>,
    isSubmitting: bool,
    message: Option<Message>,
    recorder: Option<nat>,
    chunks: seq<Bytes>)

  const Initial := Draft(None, None, "", false, None, None, false, None, None, [])

  const MicrophoneErrorText := "Could not access microphone. Please allow microphone access."
  const RecordingMimeType := "audio/webm"

  // Groups of fields, for stating what a handler leaves alone.

  predicate SameImage(a: Draft, b: Draft)
  {
    a.image == b.image && a.imagePreview == b.imagePreview
  }

  predicate SameAudio(a: Draft, b: Draft)
  {
    a.audioBlob == b.audioBlob && a.audioUrl == b.audioUrl
  }

  predicate SameRecorder(a: Draft, b: Draft)
  {
    a.isRecording == b.isRecording && a.recorder == b.recorder && a.chunks == b.chunks
  }

  predicate SameStatus(a: Draft, b: Draft)
  {
    a.isSubmitting == b.isSubmitting && a.message == b.message
  }

  /** handleImageChange: a picked file is stored together with its preview URL
      (`previewUrl` stands for what `URL.createObjectURL` returns); when the
      picker yields no file nothing changes. */
  function SelectImage(d: Draft, file: Option<File>, previewUrl: string): (r: Draft)
    ensures file.None? ==> r == d
    ensures file.Some? ==> r.image == file && r.imagePreview == Some(previewUrl)
    ensures SameAudio(d, r) && SameRecorder(d, r) && SameStatus(d, r) && r.caption == d.caption
  {
    if file.Some? then d.(image := file, imagePreview := Some(previewUrl)) else d
  }

  /** removeImage: clears the image and its preview, nothing else. */
  function RemoveImage(d: Draft): (r: Draft)
    ensures r.image.None? && r.imagePreview.None?
    ensures SameAudio(d, r) && SameRecorder(d, r) && SameStatus(d, r) && r.caption == d.caption
  {
    d.(image := None, imagePreview := None)
  }

  /** The caption textarea's change handler. */
  function EditCaption(d: Draft, text: string): (r: Draft)
    ensures r.caption == text
    ensures SameImage(d, r) && SameAudio(d, r) && SameRecorder(d, r) && SameStatus(d, r)
  {
    d.(caption := text)
  }

  /** startRecording, up to the point where it returns: with microphone access
      a new recorder replaces whatever the ref held, the chunk buffer is emptied
      and recording starts; without it only the error message is set. There is
      no guard against starting while a recording is under way. */
  function StartRecording(d: Draft, access: MicAccess): (r: Draft)
    ensures access.Granted? ==>
      r.isRecording && r.recorder == Some(access.recorder) && r.chunks == [] && r.message == d.message
    ensures access.Denied? ==>
      r.message == Some(ErrorMessage(MicrophoneErrorText)) && SameRecorder(d, r)
    ensures SameImage(d, r) && SameAudio(d, r) && r.caption == d.caption && r.isSubmitting == d.isSubmitting
  {
    match access
    case Granted(rec) => d.(recorder := Some(rec), chunks := [], isRecording := true)
    case Denied => d.(message := Some(ErrorMessage(MicrophoneErrorText)))
  }

  /** The recorder's `ondataavailable` callback: the chunk is buffered. */
  function DataAvailable(d: Draft, chunk: Bytes): (r: Draft)
    ensures r.chunks == d.chunks + [chunk]
    ensures r.recorder == d.recorder && r.isRecording == d.isRecording
    ensures SameImage(d, r) && SameAudio(d, r) && SameStatus(d, r) && r.caption == d.caption
  {
    d.(chunks := d.chunks + [chunk])
  }

  /** stopRecording: only a held recorder that is recording is stopped; in
      every other state the handler does nothing. The ref keeps the recorder. */
  function StopRecording(d: Draft): (r: Draft)
    ensures !(d.recorder.Some? && d.isRecording) ==> r == d
    ensures d.recorder.Some? && d.isRecording ==>
      !r.isRecording && r.recorder == d.recorder && r.chunks == d.chunks
    ensures SameImage(d, r) && SameAudio(d, r) && SameStatus(d, r) && r.caption == d.caption
  {
    if d.recorder.Some? && d.isRecording then d.(isRecording := false) else d
  }

  /** The recorder's `onstop` callback: the buffered chunks become one
      "audio/webm" blob, with `audioUrl` standing for its object URL. */
  function RecordingFinished(d: Draft, audioUrl: string): (r: Draft)
    ensures r.audioBlob.Some? && r.audioBlob.value.mimeType == RecordingMimeType
    ensures r.audioBlob.value.content == Flatten(d.chunks)
    ensures r.audioUrl == Some(audioUrl)
    ensures SameImage(d, r) && SameRecorder(d, r) && SameStatus(d, r) && r.caption == d.caption
  {
    d.(audioBlob := Some(Blob(Flatten(d.chunks), RecordingMimeType)), audioUrl := Some(audioUrl))
  }

  /** removeAudio: clears the blob and its URL, nothing else. */
  function RemoveAudio(d: Draft): (r: Draft)
    ensures r.audioBlob.None? && r.audioUrl.None?
    ensures SameImage(d, r) && SameRecorder(d, r) && SameStatus(d, r) && r.caption == d.caption
  {
    d.(audioBlob := None, audioUrl := None)
  }

  /** The recorder delivering `chunks` one after another. */
  function DeliverChunks(d: Draft, chunks: seq<Bytes>): Draft
    decreases |chunks|
  {
    if chunks == [] then d else DeliverChunks(DataAvailable(d, chunks[0]), chunks[1..])
  }

  // ---------------------------------------------------------------------------
  // Properties relating several handlers

  /** Removing the image undoes any selection made before it. */
  lemma RemoveImageUndoesSelect(d: Draft, file: Option<File>, previewUrl: string)
    ensures RemoveImage(SelectImage(d, file, previewUrl)) == RemoveImage(d)
  {
  }

  /** Removing the image and removing the audio touch disjoint fields. */
  lemma RemovalsCommute(d: Draft)
    ensures RemoveImage(RemoveAudio(d)) == RemoveAudio(RemoveImage(d))
  {
  }

  /** A second stop does nothing. */
  lemma StopRecordingIdempotent(d: Draft)
    ensures StopRecording(StopRecording(d)) == StopRecording(d)
  {
  }

  /** Two granted starts in a row, as when the record button is pressed again
      while the first microphone request is still pending: the second recorder
      holds the ref with an empty buffer, and a later stop reaches only it. */
  lemma RestartReplacesRecorder(d: Draft, first: nat, second: nat)
    ensures var twice := StartRecording(StartRecording(d, Granted(first)), Granted(second));
      && twice.recorder == Some(second) && twice.chunks == [] && twice.isRecording
      && StopRecording(twice).recorder == Some(second)
      && (first != second ==> StopRecording(twice).recorder != Some(first))
  {
  }

  /** A granted start leaves the draft as it was exactly when that recorder
      already holds the ref, recording is on and the buffer is empty. */
  lemma StartIsNoOpOnlyWhenAlreadyStarted(d: Draft, rec: nat)
    ensures StartRecording(d, Granted(rec)) == d <==>
      d.recorder == Some(rec) && d.isRecording && d.chunks == []
  {
  }

  /** Delivered chunks are appended to the buffer in order, and nothing else moves. */
  lemma {:induction false} DeliverChunksAppends(d: Draft, chunks: seq<Bytes>)
    ensures DeliverChunks(d, chunks).chunks == d.chunks + chunks
    ensures DeliverChunks(d, chunks) == d.(chunks := d.chunks + chunks)
    decreases |chunks|
  {
    if chunks != [] {
      DeliverChunksAppends(DataAvailable(d, chunks[0]), chunks[1..]);
      assert d.chunks + [chunks[0]] + chunks[1..] == d.chunks + chunks;
    }
  }

  /** A whole recording: start with microphone access, receive `early` while
      recording, stop, receive `late` (the recorder hands over its data when it
      is stopped, since `start` is called without a timeslice), and let
      `onstop` run. The voice note is exactly the received bytes, in order, and
      recording has ended. */
  lemma {:induction false} RecordingLifecycle(d: Draft, rec: nat, early: seq<Bytes>, late: seq<Bytes>, audioUrl: string)
    ensures var r := RecordingFinished(DeliverChunks(StopRecording(DeliverChunks(StartRecording(d, Granted(rec)), early)), late), audioUrl);
      && r.audioBlob == Some(Blob(Flatten(early + late), RecordingMimeType))
      && r.audioUrl == Some(audioUrl)
      && !r.isRecording
      && SameImage(d, r) && r.caption == d.caption
  {
    var started := StartRecording(d, Granted(rec));
    DeliverChunksAppends(started, early);
    var stopped := StopRecording(DeliverChunks(started, early));
    DeliverChunksAppends(stopped, late);
    assert [] + early + late == early + late;
  }
}
