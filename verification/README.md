# easy-posting: a Dafny model of post submission, company info and the auth button

This project models the logic of a small web application in which a business
user submits social-media posts (an image with a caption and/or a recorded voice
note) and keeps a brand profile. The application is mostly forms bound to a
remote data client (authentication, storage buckets, tables). Three pieces carry
logic:

- **The post creator** (`components/post-creator.tsx`). The draft (image,
  preview URL, caption, recording flag, voice note and its URL, submitting flag,
  status message, plus the recorder and chunk buffer held in refs) is the
  immutable record `PostDraft.Draft`. Each event handler is a pure transition.
  `handleSubmit` is `PostSubmit.Submit`: two validation checks before any remote
  call, then `PostSubmit.RemoteSteps`, a chain of remote steps that stops at the
  first error. The chain looks up the user, uploads the image to `post-media`,
  uploads the voice note to `voice-notes` when there is one, and inserts the
  post into `posts`. A reset runs only on success. The client's answers come
  from an `Oracle` record: the user, two clock readings, and the error of each
  step, if any. Every operation returns the trace of calls it made and the new
  state.
- **The company-info page** (`app/dashboard/company-info/page.tsx`). It covers
  the post-style checkbox toggle, loading the saved row with nulls replaced by
  defaults, and saving behind the signed-in check.
- **The auth button** (`components/auth-button.tsx`). It derives the greeting
  name: the email, or the first word of the customer's full name. It also
  chooses between the greeting and the sign-in links.

Supporting modules: `Wrappers` (Option, Result), `Status` (the status line),
`Remote` (rows, client errors, and the calls recorded as `Effect`s), `Strings`
(JavaScript's `split` with a one-character separator, splitting at the last
occurrence of a character, decimal numerals) and `Lists` (removal of every
occurrence, subsequences, duplicate-freedom).

Each remote operation, the recording and toggle handlers, and each string and
list function has a partner that it is proved against (the caption setter is
specified by its frame contract alone):

- storage paths parse back into user, clock reading and extension;
- `split` round-trips with `join`;
- the remote chain equals a reference "run the planned calls until the first
  failure";
- the toggle is characterised by membership, multiplicity and order;
- saving and then loading restores the form;
- a recording's delivered chunks become the voice note, in order.

## Behaviour of the code worth knowing

- `startRecording` (components/post-creator.tsx:43-66) has no re-entry guard.
  It sets the recording flag only at line 62, after awaiting the microphone at
  line 45. While that request is pending the record button (line 214) still
  routes to `startRecording`, so a second press starts a second recorder. The
  later start replaces the recorder in the ref and empties the chunk buffer,
  and a stop reaches only that recorder (`PostDraft.RestartReplacesRecorder`).
- `mediaRecorder.start()` (line 61) is called without a timeslice, so the
  recorded data arrives in the `dataavailable` event fired by `stop()` (line
  70), after the stop and before `onstop` (`PostDraft.RecordingLifecycle`).
- A thrown value that is not an `Error` shows "Failed to submit post" (line
  152); an `Error` shows its own message. `Remote.ClientError.isErrorInstance`
  carries this distinction.
- A successful post resets only the image, preview, caption, voice note and
  voice URL (lines 140-144). The recorder, the chunk buffer and the recording
  flag stay as they were.
- A validation failure does not touch `isSubmitting` (lines 82-90). Only the
  remote path sets it to true and then back to false.

## Model

Some functions have no row of their own because rows about them state their
behaviour:
- `PostSubmit.ImagePath` (components/post-creator.tsx:101) and
  `PostSubmit.VoicePath` (line 112) are covered by the path round-trip and
  distinctness rows.
- `PostSubmit.ErrorText` (line 152) is covered by `SubmitShowsFirstError`.
- `PostSubmit.ClearDraft` (lines 140-144) is covered by `SubmitOutcome`.

| member | source | states |
|---|---|---|
| `PostDraft.SelectImage` | components/post-creator.tsx:25-32 | a picked file is stored with its preview URL; with no file the state is unchanged; audio, recorder, caption and status untouched |
| `PostDraft.RemoveImage` | components/post-creator.tsx:34-40 | image and preview cleared; every other field untouched |
| `PostDraft.EditCaption` | components/post-creator.tsx:227 | only the caption changes |
| `PostDraft.StartRecording` | components/post-creator.tsx:43-66 | with microphone access: recording, the new recorder in the ref, an empty chunk buffer; without: the microphone error message and the recorder state unchanged; image, audio and caption untouched either way |
| `PostDraft.DataAvailable` | components/post-creator.tsx:50-52 | a delivered chunk is appended to the buffer, nothing else changes |
| `PostDraft.StopRecording` | components/post-creator.tsx:68-73 | changes nothing unless a recorder is held and recording is on; then only the recording flag goes false |
| `PostDraft.RecordingFinished` | components/post-creator.tsx:54-59 | the voice note becomes the concatenated chunks typed "audio/webm", with its URL; nothing else changes |
| `PostDraft.RemoveAudio` | components/post-creator.tsx:75-78 | voice note and its URL cleared; every other field untouched |
| `PostDraft.RemoveImageUndoesSelect` | components/post-creator.tsx:25-40 | removing the image after any selection equals removing it without the selection |
| `PostDraft.RemovalsCommute` | components/post-creator.tsx:34-78 | removing the image and removing the audio commute |
| `PostDraft.StopRecordingIdempotent` | components/post-creator.tsx:68-73 | a second stop is a no-op |
| `PostDraft.RestartReplacesRecorder` | components/post-creator.tsx:43-73 | two granted starts in a row leave the second recorder in the ref, recording, with an empty buffer; a following stop keeps that recorder and never reaches the first |
| `PostDraft.StartIsNoOpOnlyWhenAlreadyStarted` | components/post-creator.tsx:43-62 | a granted start changes the draft unless, and only unless, that same recorder already holds the ref, recording is on and the buffer is empty |
| `PostDraft.DeliverChunksAppends` | components/post-creator.tsx:50-52 | a sequence of deliveries appends exactly those chunks, in order, and changes nothing else |
| `PostDraft.RecordingLifecycle` | components/post-creator.tsx:43-73 | start, chunks delivered while recording, stop, chunks delivered after the stop, onstop: the voice note holds exactly all delivered bytes in order, recording is off, image and caption untouched |
| `PostSubmit.Validate` | components/post-creator.tsx:82-90 | succeeds exactly for a draft with an image and a caption or voice note; a missing image is reported first, then a missing caption-or-voice |
| `PostSubmit.Extension` | components/post-creator.tsx:100 | the extension is the longest dot-free suffix of the file name: the whole name when it has no dot, else the text after the last dot |
| `PostSubmit.ImagePathRoundTrip` | components/post-creator.tsx:100-101 | an image path parses back to the user id, the clock reading and the extension |
| `PostSubmit.VoicePathRoundTrip` | components/post-creator.tsx:112 | a voice path parses back to the user id, the clock reading and "webm" |
| `PostSubmit.ImagePathsDistinct` | components/post-creator.tsx:101 | image paths for different users or different clock readings differ |
| `PostSubmit.RemoteSteps` | components/post-creator.tsx:96-132 | the user lookup is always first; no user gives "not authenticated" with no upload or insert; a success inserts a row with the user id, the uploaded image path, a voice path exactly when there is audio, the caption or null when it is empty, status "processing", and the insert is the last call |
| `PostSubmit.RunUntilFailure` | components/post-creator.tsx:103-132 | the reference chain: the calls made are a prefix of the plan; no error means all calls were made; an error is the first failing call's and is the last call made |
| `PostSubmit.RemoteStepsFollowPlan` | components/post-creator.tsx:96-132 | once the user is known, the remote steps equal the plan (image upload, voice upload when there is audio, insert) run until its first failure, with the same error |
| `PostSubmit.Submit` | components/post-creator.tsx:81-157 | a missing image, or a missing caption and voice note, sets its message and makes no remote call; a valid draft always looks up the user first and ends not submitting with a message; no user ends with "Not authenticated" and the draft unchanged; the recorder is never touched |
| `PostSubmit.SubmitOutcome` | components/post-creator.tsx:137-156 | the success message appears exactly when every step succeeds; then image, preview, caption, voice note and its URL are back to their initial values; otherwise they are kept and the message is an error |
| `PostSubmit.SubmitShowsFirstError` | components/post-creator.tsx:149-153 | a failed submission shows the text of the first failing step's error |
| `PostSubmit.CaptionOnlyPost` | components/post-creator.tsx:103-130 | image and caption only: exactly user lookup, one upload to "post-media", one insert with no voice path and status "processing" |
| `PostSubmit.VoicePost` | components/post-creator.tsx:103-130 | image and voice note: exactly one upload to each bucket, then one insert whose voice path is the uploaded one |
| `PostSubmit.FailureAfterImageUploadKeepsIt` | components/post-creator.tsx:103-132 | when a step after a successful image upload fails, the image upload stays, no call removes anything, and the draft keeps the image |
| `PostSubmit.RecordedVoiceIsUploaded` | components/post-creator.tsx:43-119 | when every remote step succeeds, a voice note recorded through start, stop and the deliveries around the stop is uploaded to "voice-notes" byte for byte |
| `Strings.Split` | components/post-creator.tsx:100 | `split` with one separator character: at least one piece, none holding the separator, a single piece exactly when the separator is absent |
| `Strings.JoinSplit` | components/post-creator.tsx:100 | joining the pieces with the separator restores the string |
| `Strings.SplitJoin` | components/post-creator.tsx:100 | splitting a join of separator-free pieces gives the pieces back |
| `Strings.FirstPiece` | components/auth-button.tsx:22 | the first piece is the longest separator-free prefix |
| `Strings.LastPiece` | components/post-creator.tsx:100 | the last piece (`pop()`) is the longest separator-free suffix |
| `Strings.LastPieceIsAfterLastSeparator` | components/post-creator.tsx:100 | the last piece is the text after the last separator, or the whole string without one |
| `Strings.Decimal` | components/post-creator.tsx:101 | the rendering of a clock reading is a non-empty string of digits with no leading zero |
| `Strings.ParseDecimalOfDecimal` | components/post-creator.tsx:101 | the rendered numeral reads back as the number |
| `Strings.DecimalOfParseDecimal` | components/post-creator.tsx:101 | every canonical numeral is the rendering of its value |
| `Lists.RemoveAll` | app/dashboard/company-info/page.tsx:28 | `filter((v) => v !== value)`: the result is a subsequence of the input; it holds every other element with its multiplicity and no occurrence of the value |
| `CompanyInfo.TogglePostStyle` | app/dashboard/company-info/page.tsx:26-29 | the value is in the result exactly when it was not in the input; no other value's membership changes; an absent value is appended at the end; a present one is removed everywhere, keeping the order and counts of the rest |
| `CompanyInfo.ToggleTwiceRestoresAbsent` | app/dashboard/company-info/page.tsx:28 | toggling an absent value twice returns the original list |
| `CompanyInfo.ToggleTwiceMovesPresentToEnd` | app/dashboard/company-info/page.tsx:28 | toggling a present value of a duplicate-free list twice keeps the same multiset and puts the value last |
| `CompanyInfo.ToggleKeepsNoDuplicates` | app/dashboard/company-info/page.tsx:28 | a duplicate-free list stays duplicate-free |
| `CompanyInfo.LoadSettings` | app/dashboard/company-info/page.tsx:33-61 | loading always ends; with no user no query is made and the fields are unchanged; otherwise one select by customer id; a returned row sets each field, null becoming "" or []; no row leaves the fields |
| `CompanyInfo.Save` | app/dashboard/company-info/page.tsx:66-106 | saving ends with the saving flag false and the fields unchanged; with no user the login message and no upsert; otherwise one upsert of exactly the form's fields plus the user id, on conflict "customer_id", followed by the error's text or the success message |
| `CompanyInfo.SaveThenLoadRestoresFields` | app/dashboard/company-info/page.tsx:43-94 | loading the row that was upserted restores every saved field |
| `AuthButton.FirstName` | components/auth-button.tsx:22 | the name is the longest space-free prefix of the full name |
| `AuthButton.DisplayName` | components/auth-button.tsx:12-24 | without a subject claim or a non-empty full name the name is the email or ""; otherwise a space-free prefix of the full name ending at its first space |
| `AuthButton.Render` | components/auth-button.tsx:9-40 | sign-in links exactly when there is no user, else the greeting with the display name; the customer_info lookup is made exactly when there is a subject claim |
| `AuthButton.NoSubjectIgnoresLookup` | components/auth-button.tsx:14-24 | without a subject claim the output does not depend on the lookup, and the greeting is the email fallback |
| `AuthButton.OneWordFullname` | components/auth-button.tsx:22 | a full name without spaces is shown whole |
| `AuthButton.LeadingSpaceGivesEmptyName` | components/auth-button.tsx:22 | a full name that starts with a space yields the empty greeting name |

## Left out

- Browser media APIs are not modelled: microphone permission, the
  `MediaRecorder` object and the release of the stream's tracks in `onstop`
  (components/post-creator.tsx:58). The permission outcome and the recorder's
  identity are inputs, and so are the object URLs from `URL.createObjectURL`.
- `mediaRecorder.start()` (components/post-creator.tsx:61) throwing after
  lines 47-59 ran is not modelled. In that case the ref is replaced, the buffer
  emptied and the stream left open. A rejection from `getUserMedia` (line 45)
  or a throw from `new MediaRecorder` (line 46) happens before the ref is
  touched, and is modelled as `Denied`.
- Clearing the file input's DOM value (components/post-creator.tsx:37-39,
  145-147) is DOM state and is not modelled.
- `Date.now()` is an input. The two readings in `handleSubmit` (lines 101 and
  112) are independent inputs.
- Strings.Decimal: covers integer clock readings only. JavaScript writes numbers
  of 10^21 and above in exponent notation, and millisecond clocks never reach
  that.
- Asynchrony is not modelled. Steps run in sequence with no interleaving; a
  second record press during the microphone prompt appears as two granted
  starts in the order their requests resolve. Also outside the model: a
  toggle made while the settings are still loading, or a second submit before
  the submitting flag renders.
- Promise rejections from the client are not modelled. A lookup that throws,
  or an upsert that throws on the company-info page (which has no try/finally
  and would leave `isSaving` true), is outside the model. Returned errors are
  modelled.
- Uniqueness and idempotence of the `brand_settings` row per customer is not
  modelled. The store's conflict target enforces it, not this code.
- The webhook is not modelled. It is only a TODO comment (lines 134-135).
- Rendering is not modelled: JSX, CSS classes, the button `disabled`
  expressions (components/post-creator.tsx:251,
  app/dashboard/company-info/page.tsx:198), the checkbox list
  (app/dashboard/company-info/page.tsx:166-181) and message colours. The auth
  button's views are reduced to "sign-in links" versus "greeting with a name".
- The claims and rows carry only the fields the code reads.
- app/dashboard/settings/page.tsx (its save only logs),
  components/dashboard-header.tsx (a string equality for link styling) and the
  layout pages are not part of this model.
