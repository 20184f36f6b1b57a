/** handleSubmit of components/post-creator.tsx: validation, storage paths,
    the ordered chain of remote steps, and what the draft looks like after. */
module PostSubmit {
  import opened Wrappers
  import opened Strings
  import opened Remote
  import opened Status
  import opened PostDraft
  import opened Lists

  const MissingImageText := "Please select an image"
  const MissingContentText := "Please add a caption or record a voice note"
  const NotAuthenticatedText := "Not authenticated"
  const FallbackErrorText := "Failed to submit post"
  const SubmittedText := "Post submitted successfully! It will be published shortly."
  const ProcessingStatus := "processing"
  const VoiceExtension := "webm"

  // ---------------------------------------------------------------------------
  // Validation

  /** A draft can be sent: it has an image, and a caption or a voice note. */
  predicate Submittable(d: Draft)
  {
    d.image.Some? && (d.caption != "" || d.audioBlob.Some?)
  }

  /** The two checks made before any remote call; the image check comes first. */
  function Validate(d: Draft): (r: Result<File, string>)
    ensures r.Success? <==> Submittable(d)
    ensures r.Success? ==> d.image == Some(r.value)
    ensures d.image.None? ==> r == Failure(MissingImageText)
    ensures d.image.Some? && !Submittable(d) ==> r == Failure(MissingContentText)
  {
    if d.image.None? then Failure(MissingImageText)
    else if d.caption == "" && d.audioBlob.None? then Failure(MissingContentText)
    else Success(d.image.value)
  }

  // ---------------------------------------------------------------------------
  // Storage paths

  /** `name.split(".").pop()`: the text after the last dot, or the whole name
      when it has none. */
  function Extension(fileName: string): (ext: string)
    ensures '.' !in ext
    ensures |ext| <= |fileName| && ext == fileName[|fileName| - |ext|..]
    ensures |ext| == |fileName| || fileName[|fileName| - |ext| - 1] == '.'
  {
    LastPiece(fileName, '.');
    Last(Split(fileName, '.'))
  }

  /** `${user.id}/${Date.now()}.${imageExt}` with the clock reading as input. */
  function ImagePath(userId: string, clock: nat, fileName: string): string
  {
    userId + "/" + Decimal(clock) + "." + Extension(fileName)
  }

  /** `${user.id}/${Date.now()}.webm`. */
  function VoicePath(userId: string, clock: nat): string
  {
    userId + "/" + Decimal(clock) + "." + VoiceExtension
  }

  /** Reads a path of the shape `<user>/<clock>.<ext>` back into its parts. */
  function ParsePath(path: string): Option<(string, nat, string)>
  {
    match SplitLast(path, '.')
    case None => None
    case Some((stem, ext)) =>
      match SplitLast(stem, '/')
      case None => None
      case Some((user, digits)) =>
        if IsDigits(digits) then Some((user, ParseDecimal(digits), ext)) else None
  }

  lemma StemRoundTrip(userId: string, clock: nat, ext: string)
    requires '.' !in ext
    ensures ParsePath(userId + "/" + Decimal(clock) + "." + ext) == Some((userId, clock, ext))
  {
    var digits := Decimal(clock);
    var stem := userId + "/" + digits;
    assert userId + "/" + digits + "." + ext == stem + ['.'] + ext;
    SplitLastOfJoin(stem, ext, '.');
    assert forall i :: 0 <= i < |digits| ==> digits[i] != '/';
    assert stem == userId + ['/'] + digits;
    SplitLastOfJoin(userId, digits, '/');
    ParseDecimalOfDecimal(clock);
  }

  /** An image path gives back the user, the clock reading and the extension,
      whatever characters the user id holds. */
  lemma ImagePathRoundTrip(userId: string, clock: nat, fileName: string)
    ensures ParsePath(ImagePath(userId, clock, fileName)) == Some((userId, clock, Extension(fileName)))
  {
    StemRoundTrip(userId, clock, Extension(fileName));
  }

  /** A voice path gives back the user and the clock reading, with extension "webm". */
  lemma VoicePathRoundTrip(userId: string, clock: nat)
    ensures ParsePath(VoicePath(userId, clock)) == Some((userId, clock, VoiceExtension))
  {
    StemRoundTrip(userId, clock, VoiceExtension);
  }

  /** Image paths of different users, or of different clock readings, never collide. */
  lemma ImagePathsDistinct(u1: string, c1: nat, f1: string, u2: string, c2: nat, f2: string)
    requires u1 != u2 || c1 != c2
    ensures ImagePath(u1, c1, f1) != ImagePath(u2, c2, f2)
  {
    ImagePathRoundTrip(u1, c1, f1);
    ImagePathRoundTrip(u2, c2, f2);
  }

  // ---------------------------------------------------------------------------
  // The remote steps

  /** Why the chain of remote steps stopped. */
  datatype SubmitError = NotAuthenticated | Client(err: ClientError)

  /** What the client answers during one submission: the signed-in user, the
      two clock readings (`Date.now()` is read once per path), and the error,
      if any, of each upload and of the insert. */
  datatype Oracle = Oracle(
    user: Option<string>,
    imageClock: nat,
    voiceClock: nat,
    imageUpload: Option<ClientError>,
    voiceUpload: Option<ClientError>,
    insert: Option<ClientError>)

  /** The calls made, in order, and the inserted row or the error that stopped the chain. */
  datatype Run = Run(trace: seq<Effect>, outcome: Result<PostRow, SubmitError>)

  function NewPost(userId: string, imagePath: string, voicePath: Option<string>, caption: string): PostRow
  {
    PostRow(userId, imagePath, voicePath, if caption == "" then None else Some(caption), ProcessingStatus)
  }

  function InsertStep(trace: seq<Effect>, row: PostRow, error: Option<ClientError>): Run
  {
    var t := trace + [Insert(PostsTable, row)];
    match error
    case Some(e) => Run(t, Failure(Client(e)))
    case None => Run(t, Success(row))
  }

  /** The body of handleSubmit's try block, up to the insert: look up the user,
      upload the image, upload the voice note when there is one, insert the
      post. Each step runs only if every earlier one succeeded. */
  function RemoteSteps(image: File, caption: string, audio: Option<Blob>, o: Oracle): (r: Run)
    ensures |r.trace| >= 1 && r.trace[0] == GetUser
    ensures r.outcome == Failure(NotAuthenticated) <==> o.user.None?
    ensures o.user.None? ==> r.trace == [GetUser]
    ensures r.outcome.Success? ==>
      var row := r.outcome.value;
      && row.customerId == o.user.value
      && row.imagePath == ImagePath(o.user.value, o.imageClock, image.name)
      && (row.voicePath.None? <==> audio.None?)
      && (row.userPrompt.None? <==> caption == "")
      && (row.userPrompt.Some? ==> row.userPrompt.value == caption)
      && row.status == ProcessingStatus
      && Last(r.trace) == Insert(PostsTable, row)
  {
    match o.user
    case None => Run([GetUser], Failure(NotAuthenticated))
    case Some(uid) =>
      var imagePath := ImagePath(uid, o.imageClock, image.name);
      var afterImage := [GetUser, Upload(PostMediaBucket, imagePath, image.content)];
      match o.imageUpload
      case Some(e) => Run(afterImage, Failure(Client(e)))
      case None =>
        match audio
        case None => InsertStep(afterImage, NewPost(uid, imagePath, None, caption), o.insert)
        case Some(blob) =>
          var voicePath := VoicePath(uid, o.voiceClock);
          var afterVoice := afterImage + [Upload(VoiceNotesBucket, voicePath, blob.content)];
          match o.voiceUpload
          case Some(e) => Run(afterVoice, Failure(Client(e)))
          case None => InsertStep(afterVoice, NewPost(uid, imagePath, Some(voicePath), caption), o.insert)
  }

  // A reference formulation: the steps as a plan run until the first failure.

  /** A planned call and the error the client would answer it with. */
  datatype Call = Call(effect: Effect, error: Option<ClientError>)

  /** Issues `calls` in order and stops right after the first one that fails. */
  function RunUntilFailure(calls: seq<Call>): (r: (seq<Effect>, Option<ClientError>))
    ensures |r.0| <= |calls|
    ensures forall i :: 0 <= i < |r.0| ==> r.0[i] == calls[i].effect
    ensures r.1.None? <==> forall i :: 0 <= i < |calls| ==> calls[i].error.None?
    ensures r.1.None? ==> |r.0| == |calls|
    ensures r.1.Some? ==>
      && |r.0| >= 1
      && calls[|r.0| - 1].error == r.1
      && forall i :: 0 <= i < |r.0| - 1 ==> calls[i].error.None?
    decreases |calls|
  {
    if calls == [] then ([], None)
    else if calls[0].error.Some? then ([calls[0].effect], calls[0].error)
    else
      var rest := RunUntilFailure(calls[1..]);
      ([calls[0].effect] + rest.0, rest.1)
  }

  /** Running a plan of one call makes that call and reports its error. */
  lemma RunSingleCall(c: Call)
    ensures RunUntilFailure([c]) == ([c.effect], c.error)
  {
    assert [c][1..] == [];
    assert RunUntilFailure([]) == ([], None);
    assert [c.effect] + [] == [c.effect];
  }

  /** A first call that fails ends the run. */
  lemma RunAfterFailure(c: Call, rest: seq<Call>)
    requires c.error.Some?
    ensures RunUntilFailure([c] + rest) == ([c.effect], c.error)
  {
    assert ([c] + rest)[0] == c;
  }

  /** A first call that succeeds is followed by the rest of the plan. */
  lemma RunAfterSuccess(c: Call, rest: seq<Call>)
    requires c.error.None?
    ensures RunUntilFailure([c] + rest) == ([c.effect] + RunUntilFailure(rest).0, RunUntilFailure(rest).1)
  {
    assert ([c] + rest)[1..] == rest;
  }

  /** The calls a signed-in submission plans: image upload, voice upload when
      there is audio, insert. */
  function Plan(image: File, caption: string, audio: Option<Blob>, userId: string, o: Oracle): seq<Call>
  {
    var imagePath := ImagePath(userId, o.imageClock, image.name);
    [Call(Upload(PostMediaBucket, imagePath, image.content), o.imageUpload)]
      + PlanAfterImage(imagePath, caption, audio, userId, o)
  }

  function PlanAfterImage(imagePath: string, caption: string, audio: Option<Blob>, userId: string, o: Oracle): seq<Call>
  {
    match audio
    case None =>
      [Call(Insert(PostsTable, NewPost(userId, imagePath, None, caption)), o.insert)]
    case Some(blob) =>
      var voicePath := VoicePath(userId, o.voiceClock);
      [Call(Upload(VoiceNotesBucket, voicePath, blob.content), o.voiceUpload)]
        + [Call(Insert(PostsTable, NewPost(userId, imagePath, Some(voicePath), caption)), o.insert)]
  }

  /** Once the user is known, the remote steps are exactly the plan run until
      its first failure: same calls in the same order, no call after a failure,
      and the failure reported is the one that stopped the plan. */
  lemma RemoteStepsFollowPlan(image: File, caption: string, audio: Option<Blob>, o: Oracle)
    requires o.user.Some?
    ensures var planned := RunUntilFailure(Plan(image, caption, audio, o.user.value, o));
      var r := RemoteSteps(image, caption, audio, o);
      && r.trace == [GetUser] + planned.0
      && (planned.1.None? <==> r.outcome.Success?)
      && (planned.1.Some? ==> r.outcome == Failure(Client(planned.1.value)))
  {
    if o.imageUpload.Some? {
      ImageFailureFollowsPlan(image, caption, audio, o);
    } else if audio.None? {
      ImageOnlyFollowsPlan(image, caption, o);
    } else {
      WithVoiceFollowsPlan(image, caption, audio.value, o);
    }
  }

  lemma ImageFailureFollowsPlan(image: File, caption: string, audio: Option<Blob>, o: Oracle)
    requires o.user.Some? && o.imageUpload.Some?
    ensures var planned := RunUntilFailure(Plan(image, caption, audio, o.user.value, o));
      var r := RemoteSteps(image, caption, audio, o);
      r.trace == [GetUser] + planned.0 && planned.1 == o.imageUpload && r.outcome == Failure(Client(o.imageUpload.value))
  {
    var uid := o.user.value;
    var imagePath := ImagePath(uid, o.imageClock, image.name);
    var imageEffect := Upload(PostMediaBucket, imagePath, image.content);
    RunAfterFailure(Call(imageEffect, o.imageUpload), PlanAfterImage(imagePath, caption, audio, uid, o));
    assert RemoteSteps(image, caption, audio, o) == Run([GetUser, imageEffect], Failure(Client(o.imageUpload.value)));
  }

  lemma ImageOnlyFollowsPlan(image: File, caption: string, o: Oracle)
    requires o.user.Some? && o.imageUpload.None?
    ensures var planned := RunUntilFailure(Plan(image, caption, None, o.user.value, o));
      var r := RemoteSteps(image, caption, None, o);
      && r.trace == [GetUser] + planned.0
      && planned.1 == o.insert
      && (o.insert.None? ==> r.outcome.Success?)
      && (o.insert.Some? ==> r.outcome == Failure(Client(o.insert.value)))
  {
    var uid := o.user.value;
    var imagePath := ImagePath(uid, o.imageClock, image.name);
    var imageCall := Call(Upload(PostMediaBucket, imagePath, image.content), o.imageUpload);
    var row := NewPost(uid, imagePath, None, caption);
    var insertCall := Call(Insert(PostsTable, row), o.insert);
    RunSingleCall(insertCall);
    RunAfterSuccess(imageCall, [insertCall]);
    assert RemoteSteps(image, caption, None, o) == InsertStep([GetUser, imageCall.effect], row, o.insert);
  }

  lemma WithVoiceFollowsPlan(image: File, caption: string, blob: Blob, o: Oracle)
    requires o.user.Some? && o.imageUpload.None?
    ensures var planned := RunUntilFailure(Plan(image, caption, Some(blob), o.user.value, o));
      var r := RemoteSteps(image, caption, Some(blob), o);
      && r.trace == [GetUser] + planned.0
      && (planned.1.None? <==> r.outcome.Success?)
      && (planned.1.Some? ==> r.outcome == Failure(Client(planned.1.value)))
  {
    if o.voiceUpload.Some? {
      VoiceFailureFollowsPlan(image, caption, blob, o);
    } else {
      VoiceUploadedFollowsPlan(image, caption, blob, o);
    }
  }

  lemma VoiceFailureFollowsPlan(image: File, caption: string, blob: Blob, o: Oracle)
    requires o.user.Some? && o.imageUpload.None? && o.voiceUpload.Some?
    ensures var planned := RunUntilFailure(Plan(image, caption, Some(blob), o.user.value, o));
      var r := RemoteSteps(image, caption, Some(blob), o);
      && r.trace == [GetUser] + planned.0
      && planned.1 == o.voiceUpload
      && r.outcome == Failure(Client(o.voiceUpload.value))
  {
    var uid := o.user.value;
    var imagePath := ImagePath(uid, o.imageClock, image.name);
    var imageCall := Call(Upload(PostMediaBucket, imagePath, image.content), o.imageUpload);
    var voicePath := VoicePath(uid, o.voiceClock);
    var voiceCall := Call(Upload(VoiceNotesBucket, voicePath, blob.content), o.voiceUpload);
    var insertCall := Call(Insert(PostsTable, NewPost(uid, imagePath, Some(voicePath), caption)), o.insert);
    RunAfterSuccess(imageCall, [voiceCall] + [insertCall]);
    RunAfterFailure(voiceCall, [insertCall]);
    assert RemoteSteps(image, caption, Some(blob), o)
      == Run([GetUser, imageCall.effect] + [voiceCall.effect], Failure(Client(o.voiceUpload.value)));
  }

  lemma VoiceUploadedFollowsPlan(image: File, caption: string, blob: Blob, o: Oracle)
    requires o.user.Some? && o.imageUpload.None? && o.voiceUpload.None?
    ensures var planned := RunUntilFailure(Plan(image, caption, Some(blob), o.user.value, o));
      var r := RemoteSteps(image, caption, Some(blob), o);
      && r.trace == [GetUser] + planned.0
      && planned.1 == o.insert
      && (o.insert.None? ==> r.outcome.Success?)
      && (o.insert.Some? ==> r.outcome == Failure(Client(o.insert.value)))
  {
    var uid := o.user.value;
    var imagePath := ImagePath(uid, o.imageClock, image.name);
    var imageCall := Call(Upload(PostMediaBucket, imagePath, image.content), o.imageUpload);
    var voicePath := VoicePath(uid, o.voiceClock);
    var voiceCall := Call(Upload(VoiceNotesBucket, voicePath, blob.content), o.voiceUpload);
    var row := NewPost(uid, imagePath, Some(voicePath), caption);
    var insertCall := Call(Insert(PostsTable, row), o.insert);
    RunAfterSuccess(imageCall, [voiceCall] + [insertCall]);
    RunAfterSuccess(voiceCall, [insertCall]);
    RunSingleCall(insertCall);
    assert RemoteSteps(image, caption, Some(blob), o)
      == InsertStep([GetUser, imageCall.effect] + [voiceCall.effect], row, o.insert);
  }

  // ---------------------------------------------------------------------------
  // The whole handler

  /** The message text for an error reaching the catch block: the error's own
      message when it is an `Error`, else a fixed fallback. */
  function ErrorText(e: SubmitError): string
  {
    match e
    case NotAuthenticated => NotAuthenticatedText
    case Client(err) => if err.isErrorInstance then err.message else FallbackErrorText
  }

  /** The form reset after a successful submission. */
  function ClearDraft(d: Draft): Draft
  {
    d.(image := None, imagePreview := None, caption := "", audioBlob := None, audioUrl := None)
  }

  /** The calls made and the final state. */
  datatype Submission = Submission(trace: seq<Effect>, state: Draft)

  /** handleSubmit. */
  function Submit(d: Draft, o: Oracle): (r: Submission)
    ensures d.image.None? ==>
      r.trace == [] && r.state == d.(message := Some(ErrorMessage(MissingImageText)))
    ensures d.image.Some? && d.caption == "" && d.audioBlob.None? ==>
      r.trace == [] && r.state == d.(message := Some(ErrorMessage(MissingContentText)))
    ensures Submittable(d) ==>
      |r.trace| >= 1 && r.trace[0] == GetUser && !r.state.isSubmitting && r.state.message.Some?
    ensures Submittable(d) && o.user.None? ==>
      && r.trace == [GetUser]
      && r.state == d.(isSubmitting := false, message := Some(ErrorMessage(NotAuthenticatedText)))
    ensures SameRecorder(d, r.state)
  {
    match Validate(d)
    case Failure(text) => Submission([], d.(message := Some(ErrorMessage(text))))
    case Success(image) =>
      var busy := d.(isSubmitting := true, message := None);
      var run := RemoteSteps(image, d.caption, d.audioBlob, o);
      match run.outcome
      case Success(_) =>
        Submission(run.trace, ClearDraft(busy).(isSubmitting := false, message := Some(SuccessMessage(SubmittedText))))
      case Failure(e) =>
        Submission(run.trace, busy.(isSubmitting := false, message := Some(ErrorMessage(ErrorText(e)))))
  }

  /** Every remote step of a submission succeeds. */
  predicate Succeeds(d: Draft, o: Oracle)
  {
    && o.user.Some?
    && o.imageUpload.None?
    && (d.audioBlob.Some? ==> o.voiceUpload.None?)
    && o.insert.None?
  }

  /** A sendable draft's submission makes the remote steps' calls and ends in
      the reset draft or in the kept draft with the error's text. */
  lemma SubmitRunsRemoteSteps(d: Draft, o: Oracle)
    requires Submittable(d)
    ensures var run := RemoteSteps(d.image.value, d.caption, d.audioBlob, o);
      var r := Submit(d, o);
      && r.trace == run.trace
      && (run.outcome.Success? ==>
            r.state == ClearDraft(d).(isSubmitting := false, message := Some(SuccessMessage(SubmittedText))))
      && (run.outcome.Failure? ==>
            r.state == d.(isSubmitting := false, message := Some(ErrorMessage(ErrorText(run.outcome.error)))))
  {
    assert Validate(d) == Success(d.image.value);
  }

  /** A sendable draft ends with the success message exactly when every step
      succeeds; then the image, preview, caption, voice note and its URL are back
      to their initial values. Otherwise the draft is kept and the message is
      an error. Either way the submitting flag ends false. */
  lemma SubmitOutcome(d: Draft, o: Oracle)
    requires Submittable(d)
    ensures var s := Submit(d, o).state;
      && !s.isSubmitting
      && (s.message == Some(SuccessMessage(SubmittedText)) <==> Succeeds(d, o))
      && (Succeeds(d, o) ==>
            && s.image == Initial.image && s.imagePreview == Initial.imagePreview
            && s.caption == Initial.caption
            && s.audioBlob == Initial.audioBlob && s.audioUrl == Initial.audioUrl)
      && (!Succeeds(d, o) ==>
            SameImage(d, s) && SameAudio(d, s) && s.caption == d.caption && s.message.value.kind == ErrorKind)
  {
  }

  /** The error text a failed submission shows is that of the first failing step. */
  lemma SubmitShowsFirstError(d: Draft, o: Oracle)
    requires Submittable(d) && o.user.Some?
    ensures var planned := RunUntilFailure(Plan(d.image.value, d.caption, d.audioBlob, o.user.value, o));
      planned.1.Some? ==>
        Submit(d, o).state.message == Some(ErrorMessage(ErrorText(Client(planned.1.value))))
  {
    RemoteStepsFollowPlan(d.image.value, d.caption, d.audioBlob, o);
  }

  /** An image and a caption, no voice note: one upload to "post-media", no
      upload to "voice-notes", one post with no voice path. */
  lemma CaptionOnlyPost(d: Draft, o: Oracle)
    requires d.image.Some? && d.caption != "" && d.audioBlob.None? && Succeeds(d, o)
    ensures var uid := o.user.value;
      var path := ImagePath(uid, o.imageClock, d.image.value.name);
      Submit(d, o).trace == [
        GetUser,
        Upload(PostMediaBucket, path, d.image.value.content),
        Insert(PostsTable, PostRow(uid, path, None, Some(d.caption), ProcessingStatus))]
  {
    var uid := o.user.value;
    var image := d.image.value;
    var path := ImagePath(uid, o.imageClock, image.name);
    var row := NewPost(uid, path, None, d.caption);
    var afterImage := [GetUser, Upload(PostMediaBucket, path, image.content)];
    var run := RemoteSteps(image, d.caption, d.audioBlob, o);
    assert run == InsertStep(afterImage, row, None);
    assert run.trace == afterImage + [Insert(PostsTable, row)];
    SubmitRunsRemoteSteps(d, o);
    assert afterImage + [Insert(PostsTable, row)] == [GetUser, Upload(PostMediaBucket, path, image.content), Insert(PostsTable, row)];
  }

  /** An image and a voice note: one upload to each bucket, then one post whose
      voice path is the uploaded one. */
  lemma VoicePost(d: Draft, o: Oracle)
    requires d.image.Some? && d.audioBlob.Some? && Succeeds(d, o)
    ensures var uid := o.user.value;
      var path := ImagePath(uid, o.imageClock, d.image.value.name);
      var voice := VoicePath(uid, o.voiceClock);
      Submit(d, o).trace == [
        GetUser,
        Upload(PostMediaBucket, path, d.image.value.content),
        Upload(VoiceNotesBucket, voice, d.audioBlob.value.content),
        Insert(PostsTable, NewPost(uid, path, Some(voice), d.caption))]
  {
    var uid := o.user.value;
    var image := d.image.value;
    var path := ImagePath(uid, o.imageClock, image.name);
    var voice := VoicePath(uid, o.voiceClock);
    var row := NewPost(uid, path, Some(voice), d.caption);
    var afterVoice := [GetUser, Upload(PostMediaBucket, path, image.content)]
      + [Upload(VoiceNotesBucket, voice, d.audioBlob.value.content)];
    var run := RemoteSteps(image, d.caption, d.audioBlob, o);
    assert run == InsertStep(afterVoice, row, None);
    assert run.trace == afterVoice + [Insert(PostsTable, row)];
    SubmitRunsRemoteSteps(d, o);
    assert afterVoice + [Insert(PostsTable, row)] == [GetUser, Upload(PostMediaBucket, path, image.content),
      Upload(VoiceNotesBucket, voice, d.audioBlob.value.content), Insert(PostsTable, row)];
  }

  /** Nothing is rolled back: when the image upload succeeded but a later step
      failed, the uploaded image stays in storage with no post referring to it,
      and the draft still holds the image for a retry. */
  lemma FailureAfterImageUploadKeepsIt(d: Draft, o: Oracle)
    requires Submittable(d) && o.user.Some? && o.imageUpload.None? && !Succeeds(d, o)
    ensures var r := Submit(d, o);
      && Upload(PostMediaBucket, ImagePath(o.user.value, o.imageClock, d.image.value.name), d.image.value.content) in r.trace
      && (forall e :: e in r.trace ==> e.GetUser? || e.Upload? || e.Insert?)
      && r.state.image == d.image
      && r.state.message.value.kind == ErrorKind
  {
    SubmitRunsRemoteSteps(d, o);
    var run := RemoteSteps(d.image.value, d.caption, d.audioBlob, o);
    assert run.trace[1] == Upload(PostMediaBucket, ImagePath(o.user.value, o.imageClock, d.image.value.name), d.image.value.content);
  }

  /** A recorded voice note reaches the "voice-notes" bucket byte for byte. */
  lemma RecordedVoiceIsUploaded(d: Draft, rec: nat, early: seq<Bytes>, late: seq<Bytes>, audioUrl: string, o: Oracle)
    requires d.image.Some? && o.user.Some? && o.imageUpload.None? && o.voiceUpload.None? && o.insert.None?
    ensures var recorded := RecordingFinished(DeliverChunks(StopRecording(DeliverChunks(StartRecording(d, Granted(rec)), early)), late), audioUrl);
      Upload(VoiceNotesBucket, VoicePath(o.user.value, o.voiceClock), Flatten(early + late)) in Submit(recorded, o).trace
  {
    RecordingLifecycle(d, rec, early, late, audioUrl);
    var recorded := RecordingFinished(DeliverChunks(StopRecording(DeliverChunks(StartRecording(d, Granted(rec)), early)), late), audioUrl);
    VoicePost(recorded, o);
  }
}
