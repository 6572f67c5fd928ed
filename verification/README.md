# Face recognition access control — a Dafny model

The system is a door-access product made of two parts:

- a React Native app with a verification screen, a registration screen, an HTTP client and an app-wide store;
- a Flask service that registers users with face images, recognises a visitor's face against the stored users, migrates old records and deletes users.

The verification screen photographs the visitor every five seconds and asks the service who it is. It shows the verdict for a few seconds and mirrors its busy flag and last verdict into the store. The registration screen walks the user through three poses, collects a profile and sends one registration request.

This project models the decision logic of both parts and proves what it promises. The modules follow the source files:

| module | file | form |
|---|---|---|
| `Values` | shared | JSON values, JavaScript and Python truthiness, `||`/`or`, whitespace trimming in both languages, decimal rendering |
| `Api` | `frontend/src/utils/api.js` | functions for payload choice, error classification and messages; methods for the form-building loop and `registerFace` |
| `Store` | `frontend/src/store/appStore.js` | class `AppStore` whose setters replace one field each |
| `EnrollmentScreen` | `frontend/src/screens/RegistrationScreen.js` | class `Enrollment` with the screen's state as fields and its handlers as methods, each proved against functions on a `Session` value |
| `VerificationScreen` | `frontend/src/screens/HomeScreen.js` | class `VerificationLoop`, each handler proved equal to one step of the event function `Step`, with an invariant kept by every event |
| `UserModel` | `app/models/user.py` | the document builder as a function |
| `ServerDocs` | `app/main.py` | stored documents as `map<string, Json>`, `user_to_response` |
| `ServerRegister` | `app/main.py` | `register_user` up to document assembly, as a function and as a method with the route's loops |
| `ServerRecognize` | `app/main.py` | `recognize_face`: room filter, projection, the nested best-match loop (methods) against a scan function |
| `ServerAdmin` | `app/main.py` | `migrate_timestamps` and `delete_user_by_userid`, as functions and as methods with the route's loops |
| `EndToEnd` | both | how a service answer travels back through the HTTP library to a screen, and how a client form arrives at the service |

These are abstract inputs:

- The camera, image normalisation and the client's cache writes are outcomes passed in. On the service side every file write is taken to succeed; the failures that are not modelled are listed under "Left out". The delete route works on the set of files on disk, with the error `os.remove` raises for a path passed in.
- HTTP is an `HttpOutcome`: either a 2xx body or an error record with `code`, `message` and `response`.
- Timers are pending entries that an explicit event fires.
- On the service side these are parameters: the clock, base64 decoding, image reading and face detection, the similarity of two embeddings, rounding to four places, and the database contents.

Where the code and the design description of the product disagree, the model follows the code:

- A capture appends at the end of the image list. It does not fill the slot of the current pose.
- A retake moves the cursor to the retaken index only when the cursor was on the last pose. So the list order can diverge from the pose order, and after a second retake the screen can ask for one pose while the next image is stored at another position. This is proved in `RetakeMovesImageToEnd` and `RetakeCanLeaveCursorBehind`. Deleting the only thumbnail leaves an empty list with the screen asking for the second pose, as `ThumbnailRetakeLeavesCursorAhead` proves.
- The manual capture button checks only that no capture is running. Only the interval also waits for the shown verdict to clear.
- The 3-second timer follows every answer the service accepted, including a refusal body. The 5-second timer follows every thrown error. The store is cleared only by the 3-second timer.
- A failed registration check shows one fixed alert; it does not name the missing fields.

## Model

| member | source | states |
|---|---|---|
| Api.Classify | frontend/src/utils/api.js:41-51 | The four failure kinds are tried in order: timeout (`ECONNABORTED` or a message containing `timeout`), then network (`ERR_NETWORK` or `Network Error`), then a server response, then unknown. Each kind is characterised by an if-and-only-if. |
| Api.ErrorText | frontend/src/utils/api.js:41-51 | The thrown message is never empty, whatever the error. |
| Api.TimeoutMessage | frontend/src/utils/api.js:41-42 | A timeout is reported with the fixed timeout text. |
| Api.UnreachableMessage | frontend/src/utils/api.js:43-44 | A network failure that is not a timeout is reported with the text naming the server URL. |
| Api.RejectedMessage | frontend/src/utils/api.js:45-48 | A server rejection shows the backend's `error`, else its `message`, else `Server error: <status> - <statusText>`. The connectivity check always shows the status and prefers the backend's `message` to the status text. |
| Api.UnknownMessage | frontend/src/utils/api.js:49-51 | Any other error shows its own message, else the operation's default text. |
| Api.PingServerTextHasStatus | frontend/src/utils/api.js:131-132 | For a server rejection, the connectivity-check message always starts with `Server error: <status> - `. |
| Api.LocalErrorPassesThrough | frontend/src/utils/api.js:111-113 | An error without code or response whose message mentions neither `timeout` nor `Network Error` reaches the caller unchanged. |
| Api.ValidationTextsPassThrough | frontend/src/utils/api.js:61-66 | Both validation messages of `registerFace` pass through its own `catch` unchanged. |
| Api.ReplyOf | frontend/src/utils/api.js:30-51 | A 2xx answer resolves with its body; a rejection throws the non-empty classified message. |
| Api.VerifyForm | frontend/src/utils/api.js:8-19 | The form has exactly one entry. It is `image_base64` with the URL exactly when the input is a string starting with `data:`; otherwise it is one `image` part typed `image/jpeg` and named `face.jpg`. |
| Api.VerifyFace | frontend/src/utils/api.js:3-31 | Always one POST to `<url>/recognize` with that form and a 10000 ms timeout. The reply is the classified outcome. |
| Api.RegisterProblem | frontend/src/utils/api.js:61-66 | Images are checked first, then identity. Each message holds exactly when its condition fails, and there is no problem exactly when both hold. |
| Api.ImageParts | frontend/src/utils/api.js:73-79 | One `images` part per URI, in input order, the i-th named `face_<i+1>.jpg`. |
| Api.RegisterForm | frontend/src/utils/api.js:68-88 | The form `registerFace` builds. It has no contract of its own: `RegisterFormLayout`, `ImageParts` and `ImagePartNamesDistinct` state its layout, and `BuildRegisterForm` proves the loop equal to it. |
| Api.RegisterFormLayout | frontend/src/utils/api.js:73-88 | The image parts come first, then `name`, then `student_id`. Only `department`, `class` and `room` follow, each exactly when truthy, and no later key is `images`. |
| Api.ImagePartNamesDistinct | frontend/src/utils/api.js:77 | The image parts at two different positions of one form carry different file names. |
| Api.BuildRegisterForm | frontend/src/utils/api.js:68-88 | The `forEach` loop and the appends build exactly the registration form. |
| Api.RegisterFace | frontend/src/utils/api.js:58-97 | An invalid argument throws its validation message and sends nothing. Otherwise one POST to `<url>/register` with the form and a 15000 ms timeout. |
| Api.TestServerConnection | frontend/src/utils/api.js:117-122 | One GET to `<url>/ping` with a 5000 ms timeout. |
| Store.InitialTheme | frontend/src/store/appStore.js:5-16 | Dark exactly when the platform reports `dark`; light when the query throws. |
| Store.NextCamera | frontend/src/store/appStore.js:25-27 | `front` becomes `back`; anything else becomes `front`. |
| Store.ToggleCameraTwice | frontend/src/store/appStore.js:25-27 | Two toggles return to `front` or `back`; from any other value they land on `back`. |
| Store.AppStore.constructor | frontend/src/store/appStore.js:18-54 | The initial store: the initial theme, `front`, no face, not recognising, no result, no images, the default URL and no device id. |
| Store.AppStore.ToggleTheme | frontend/src/store/appStore.js:21 | Negates `isDarkMode`; nothing else changes. |
| Store.AppStore.ToggleCamera | frontend/src/store/appStore.js:25-27 | Replaces `cameraType` by its toggle; nothing else changes. |
| Store.AppStore.SetFaceDetected | frontend/src/store/appStore.js:31 | Sets only `faceDetected`. |
| Store.AppStore.SetIsRecognizing | frontend/src/store/appStore.js:35 | Sets only `isRecognizing`. |
| Store.AppStore.SetRecognitionResult | frontend/src/store/appStore.js:38 | Sets only `recognitionResult`. |
| Store.AppStore.AddRegistrationImage | frontend/src/store/appStore.js:42-44 | Appends one image at the end and keeps the earlier images in order; nothing else changes. |
| Store.AppStore.ClearRegistrationImages | frontend/src/store/appStore.js:45 | Empties the list; nothing else changes. |
| Store.AppStore.SetServerUrl | frontend/src/store/appStore.js:49 | Sets only `serverUrl`. |
| Store.AppStore.SetDeviceId | frontend/src/store/appStore.js:53 | Sets only `deviceId`. |
| EnrollmentScreen.ShotOutcome | frontend/src/screens/RegistrationScreen.js:76-112 | A shot that throws is dropped with the capture-failed notice. Off the web the normalised URI is kept. On the web a shot without any base64 payload is refused, and a kept shot is the cache file `reg_<now>.jpg`. |
| EnrollmentScreen.AfterCapture | frontend/src/screens/RegistrationScreen.js:104-109 | The URI is appended at the end. The cursor advances only below the last pose. The profile is unchanged. |
| EnrollmentScreen.Splice | frontend/src/screens/RegistrationScreen.js:125-126 | Removes exactly the element at the index and keeps the others in order (as a multiset too). An index past the end changes nothing. |
| EnrollmentScreen.AfterRetake | frontend/src/screens/RegistrationScreen.js:124-131 | The image is spliced out. The cursor moves to the index only when it was on the last pose. The profile is unchanged. |
| EnrollmentScreen.SubmitCheck | frontend/src/screens/RegistrationScreen.js:133-142 | The validation of `handleSubmit`. It has no contract of its own: `ScreenCheckImpliesClientCheck`, `SubmitAfterResetRefused` and `Enrollment.Submit` state what it decides. |
| EnrollmentScreen.ScreenCheckImpliesClientCheck | frontend/src/screens/RegistrationScreen.js:134-156 | A session that passes the screen's checks also passes `registerFace`'s, so the request is always built. |
| EnrollmentScreen.Apply | frontend/src/screens/RegistrationScreen.js:104-131 | One press of the capture button, of a thumbnail delete button (below three images) or of a preview retake button (at three). A capture appends its URI only while a pose is left. A retake of a held index removes exactly that image and keeps the others in order; any other index changes nothing. The profile is untouched, and the list and cursor stay in range. |
| EnrollmentScreen.ThumbnailRetakeLeavesCursorAhead | frontend/src/screens/RegistrationScreen.js:124-131 | One capture and a delete of its thumbnail, whose button calls the retake, leave no image while the cursor stays on the second pose. |
| EnrollmentScreen.ReplayStaysInRange | frontend/src/screens/RegistrationScreen.js:104-131 | Under any sequence of captures and retakes, the retakes reachable from the thumbnails below three images and from the preview at three, the list never holds more images than poses and the cursor stays on a pose. |
| EnrollmentScreen.ThreeShots | frontend/src/screens/RegistrationScreen.js:104-109 | Three captures from a fresh screen give the three URIs in order and leave the cursor on the last pose. Submission then fails only on the profile. |
| EnrollmentScreen.RetakeMovesImageToEnd | frontend/src/screens/RegistrationScreen.js:124-131 | Retaking the first of three poses and shooting again gives `[b, c, x]` with the cursor on pose 1. |
| EnrollmentScreen.RetakeCanLeaveCursorBehind | frontend/src/screens/RegistrationScreen.js:124-131 | From all three images on the last pose: retaking the first, capturing, and retaking the first again leaves two images with the cursor on pose 1, while the next capture fills position 2. |
| EnrollmentScreen.SubmitAfterResetRefused | frontend/src/screens/RegistrationScreen.js:134-137 | A cleared screen is refused for lack of images. |
| EnrollmentScreen.SendRegistration | frontend/src/screens/RegistrationScreen.js:133-183 | Images are checked first, then the trimmed name and student id; a refused session sends nothing. Otherwise the held images go out in order with all five fields trimmed. The notice is success, or the client's message. |
| EnrollmentScreen.FailureNoticeText | frontend/src/screens/RegistrationScreen.js:177-178 | The client's message is never empty, so the screen's default failure text is never shown. |
| EnrollmentScreen.Enrollment.constructor | frontend/src/screens/RegistrationScreen.js:39-50 | A fresh session, no notice, camera not ready. |
| EnrollmentScreen.Enrollment.OnCameraReady | frontend/src/screens/RegistrationScreen.js:289-292 | Marks the camera ready and changes nothing else. |
| EnrollmentScreen.Enrollment.OnMountError | frontend/src/screens/RegistrationScreen.js:293-297 | Marks the camera not ready and raises the camera alert. |
| EnrollmentScreen.Enrollment.Edit | frontend/src/screens/RegistrationScreen.js:354-426 | Each input changes its own profile field only. |
| EnrollmentScreen.Enrollment.Capture | frontend/src/screens/RegistrationScreen.js:70-113 | With the camera not ready, or a dropped shot, neither the list nor the cursor changes and the notice says why. A kept shot is `AfterCapture`. The invariant is kept. |
| EnrollmentScreen.Enrollment.StartCountdown | frontend/src/screens/RegistrationScreen.js:54-68 | Without the permission read at the press, the press is refused. Otherwise a press with the camera not ready is refused, and a press with the camera ready is a capture: a kept shot is appended and keeps the notice, a dropped shot leaves the session and raises its notice. |
| EnrollmentScreen.Enrollment.Retake | frontend/src/screens/RegistrationScreen.js:124-131 | The state becomes `AfterRetake` and the list shrinks by one. |
| EnrollmentScreen.Enrollment.Submit | frontend/src/screens/RegistrationScreen.js:133-187 | The session is untouched. The notice is `SubmitNotice`. A request goes out exactly when the checks pass: one POST to `/register` carrying the held images and the trimmed profile, with the registration timeout. The busy flag is down on every path, and a success waits for its acknowledgement. |
| EnrollmentScreen.Enrollment.AcknowledgeSuccess | frontend/src/screens/RegistrationScreen.js:164-172 | Empties the images and the five fields and puts the cursor on pose 0. |
| VerificationScreen.ResultOf | frontend/src/screens/HomeScreen.js:70-79 | Success exactly when `recognized` is truthy. A greeting carries the granted text and a truthy name: the profile name, else `user.name`, else `User`. A refusal has no name and carries the server's message, else the fixed text. |
| VerificationScreen.FailureResult | frontend/src/screens/HomeScreen.js:91-101 | A refusal carrying the error's message, or the fixed failure text when the message is empty. |
| VerificationScreen.RequestOf | frontend/src/screens/HomeScreen.js:56-66 | A request goes out exactly when the photo was taken. It is the recognition POST for that photo's URI. |
| VerificationScreen.Step | frontend/src/screens/HomeScreen.js:37-130 | One event of the screen: permission, camera readiness, a tick, a press, a completed capture or a timer. It has no contract of its own: `StepKeepsInv`, `NoSecondCapture`, `AutoCaptureWaitsForVerdict` and `SettlePublishes` state its properties. |
| VerificationScreen.InitialInv | frontend/src/screens/HomeScreen.js:31-34 | The first render satisfies the screen invariant. |
| VerificationScreen.FireKeepsInv | frontend/src/screens/HomeScreen.js:85-104 | Firing either timer keeps the invariant. |
| VerificationScreen.SettleKeepsInv | frontend/src/screens/HomeScreen.js:81-108 | Ending a capture keeps the invariant. |
| VerificationScreen.StepKeepsInv | frontend/src/screens/HomeScreen.js:44-130 | Every event keeps the invariant. The store's busy flag always mirrors the screen's, no verdict shows during a capture, a shown verdict has a timer pending, and a published verdict has a store-clearing timer pending. Every event leaves the store's other fields alone. |
| VerificationScreen.SettleStoreFrame | frontend/src/screens/HomeScreen.js:81-108 | Ending a capture lowers the store's busy flag and writes at most its verdict. |
| VerificationScreen.RunKeepsInv | frontend/src/screens/HomeScreen.js:44-130 | The invariant holds after any sequence of events. |
| VerificationScreen.NoSecondCapture | frontend/src/screens/HomeScreen.js:45-48 | While a capture runs, a tick or a press changes nothing. |
| VerificationScreen.AutoCaptureWaitsForVerdict | frontend/src/screens/HomeScreen.js:119-124 | A tick never starts a capture while a verdict shows. A press with the camera ready does, and drops the verdict. |
| VerificationScreen.SettlePublishes | frontend/src/screens/HomeScreen.js:81-104 | An accepted answer is shown and published to the store. A failure is shown only, as a refusal, and the store keeps what it held. |
| VerificationScreen.RejectionShowsClientMessage | frontend/src/screens/HomeScreen.js:90-108 | A rejected request is shown with the client's classified message and arms the local timer. The store only stops being busy. |
| VerificationScreen.StaleTimerClearsNewerVerdict | frontend/src/screens/HomeScreen.js:85-104 | A greeting's pending timer also clears a later failure's verdict while that failure's own timer is still pending. |
| VerificationScreen.VerificationLoop.constructor | frontend/src/screens/HomeScreen.js:30-35 | The initial screen over the given store, with the invariant. |
| VerificationScreen.VerificationLoop.GrantPermission | frontend/src/screens/HomeScreen.js:37-42 | One `Grant` step; the invariant is kept. |
| VerificationScreen.VerificationLoop.OnCameraReady | frontend/src/screens/HomeScreen.js:211-215 | One `CameraReady` step; the invariant is kept. |
| VerificationScreen.VerificationLoop.OnMountError | frontend/src/screens/HomeScreen.js:216-220 | One `MountError` step; the invariant is kept. |
| VerificationScreen.VerificationLoop.CaptureAndVerify | frontend/src/screens/HomeScreen.js:44-53 | Refused unless the camera is mounted and ready and nothing runs. Otherwise the screen and the store go busy and the verdict is dropped. |
| VerificationScreen.VerificationLoop.OnTick | frontend/src/screens/HomeScreen.js:112-130 | One `Tick` step; the invariant is kept. |
| VerificationScreen.VerificationLoop.OnPress | frontend/src/screens/HomeScreen.js:288 | One `Press` step; the invariant is kept. |
| VerificationScreen.VerificationLoop.Finish | frontend/src/screens/HomeScreen.js:56-108 | One `Complete` step. It returns the request sent, and the busy flags are down on every path. |
| VerificationScreen.VerificationLoop.OnTimer | frontend/src/screens/HomeScreen.js:85-88 | One `Fire` step; the invariant is kept. |
| ServerDocs.FirstFaceAddedAt | app/main.py:63-65 | A falsy `faces` is never indexed. A truthy non-list, or a first entry that is not an object, raises. Otherwise the first face's truthy `added_at` is used. |
| ServerDocs.LegacyProfile | app/main.py:49-55 | Exactly the five legacy keys, each read from the top level. |
| ServerDocs.ProfileOf | app/main.py:46-55 | A truthy `profile` is used. Without one, a document with a top-level `name` gets the legacy profile. Otherwise the falsy value found is used. |
| ServerDocs.RegisteredAt | app/main.py:58-67 | A truthy stored value is used, else the first face's `added_at`, else the clock. Reading the faces may raise. |
| ServerDocs.FaceList | app/main.py:237-238 | What iterating `faces` visits: a missing key gives nothing, and a list gives its entries. |
| ServerDocs.UserToResponse | app/main.py:44-78 | No response exactly when reading the faces raises. Otherwise exactly the five public keys: `user_id` is `user_id` or `uuid`, the profile and registration time take their fallbacks, `updated_at` falls back to the registration time, and `embedding_version` is as stored. |
| ServerDocs.ResponseTimestampsPresent | app/main.py:57-70 | With a non-empty clock both timestamps are truthy. `updated_at` equals `registered_at` whenever the document has none. |
| ServerDocs.ResponseHidesInternals | app/main.py:72-78 | Neither `faces`, `face_encoding`, `name`, `uuid` nor `image_path` reach the public form. |
| UserModel.CreateUserDocument | app/models/user.py:4-25 | `create_user_document`. It has no contract of its own: `CreatedDocumentKeys`, `CreatedDocumentFlat`, `CreatedDocumentValues` and `CreatedDocumentIsLegacy` state what it builds. |
| UserModel.EncodingJson | app/models/user.py:22-23 | The encoding is stored as a list of the same numbers. |
| UserModel.CreatedDocumentKeys | app/models/user.py:9-25 | Exactly `uuid`, the seven copied keys, `image_path`, and `face_encoding` exactly when an encoding is passed. |
| UserModel.CreatedDocumentFlat | app/models/user.py:9-25 | The record has no `faces` list, no `profile` and no `user_id`. |
| UserModel.FlatDocumentResponse | app/main.py:44-78 | Any flat record with a non-empty `uuid` and a `name` is read through the older schema, with its id from `uuid`. |
| UserModel.CreatedDocumentValues | app/models/user.py:9-23 | The copied fields are the data's values (null when absent). `uuid` is the generated id, `image_path` is as given, and the encoding is stored as a list. |
| UserModel.BaseDocumentCopies | app/models/user.py:11-18 | Each of the seven fields is copied from the data. |
| UserModel.CreatedDocumentIsLegacy | app/models/user.py:4-25 | A built document is read back through the older schema. Its profile comes from the top-level fields and its id from `uuid`, and a set registration time is kept. |
| ServerRegister.Problem | app/main.py:95-111 | The route checks, in order, the stripped name, then the stripped student id, then some image source. Each 400 holds exactly when its condition is the first to fail. |
| ServerRegister.Join | app/main.py:121 | A name starting with `/` replaces the folder; otherwise it is `folder/name`. |
| ServerRegister.JoinInjective | app/main.py:121 | Joining under the upload folder loses nothing. |
| ServerRegister.AbsoluteStudentIdEscapesFolder | app/main.py:120-121 | A student id starting with `/` puts the saved file outside the upload folder. |
| ServerRegister.UploadPathInjective | app/main.py:120 | Different list positions give different file names. |
| ServerRegister.ListPathsExact | app/main.py:116-123 | A path is saved exactly when it belongs to a named list entry at its original 1-based position. |
| ServerRegister.ListPathsBounded | app/main.py:117-120 | Every saved position lies within the list. |
| ServerRegister.ListPathsAllNamed | app/main.py:116-123 | A list of named entries saves one file per entry, in order, under its own position. |
| ServerRegister.ListPathsDistinct | app/main.py:116-123 | No two saved files share a path. |
| ServerRegister.ListPathsUnnamed | app/main.py:117-119 | A list without a named entry saves nothing. |
| ServerRegister.StripDataPrefix | app/main.py:131-133 | A text with a comma is cut after its first comma; a text without one is unchanged. |
| ServerRegister.DataUrlPayload | app/main.py:131-133 | A `data:` URL whose header has no comma yields exactly its payload (section 3 of RFC 2397). |
| ServerRegister.WithFaces | app/main.py:144-153 | No more entries than saved paths. Every entry is a saved path in which detection found a face, paired with that face. |
| ServerRegister.WithFacesAt | app/main.py:143-153 | The faces found are, in saving order, one entry per saved position whose image reads and holds a face, with that path and that face. |
| ServerRegister.WithFacesComplete | app/main.py:143-153 | Every saved file in which a face is found appears among the faces, with that face. |
| ServerRegister.Register | app/main.py:95-162 | `register_user` as far as it is modelled. It has no contract of its own: `ListTakesPrecedence`, `SavedPathsDistinct`, `UnnamedListRefusedForNoFace` and `RegisterUser` state its properties. |
| ServerRegister.ListTakesPrecedence | app/main.py:116-141 | With a non-empty `images` list, the single file and the base64 field make no difference. |
| ServerRegister.SavedPathsDistinct | app/main.py:113-162 | Every file saved, and every file the cleanup removes, has a path of its own. |
| ServerRegister.UnnamedListRefusedForNoFace | app/main.py:110-162 | A list whose entries all lack a file name passes validation, saves nothing and is refused for lack of a face. |
| ServerRegister.SaveUploads | app/main.py:113-141 | Saves the list's named entries, else the single file, else the decoded base64 image. A decoding failure is a 400 carrying the decoder's message. |
| ServerRegister.DetectFaces | app/main.py:143-153 | The loop computes `WithFaces`. By `WithFacesAt` and `WithFacesComplete`, that keeps, in order, each saved path whose image reads and has a face. |
| ServerRegister.RegisterUser | app/main.py:95-162 | The route's steps compute `Register`. A no-face refusal removes exactly the saved files. Reaching assembly means at least one face, and no more faces than files. |
| ServerRecognize.ProjectFaces | app/main.py:376-385 | Projected faces are objects holding only `embedding` and `confidence`, no more of them than stored faces. |
| ServerRecognize.ProjectFacesAt | app/main.py:378-385 | The projected face list holds, in order, one entry per object face: that face reduced to its `embedding` and `confidence`. Other entries are dropped. |
| ServerRecognize.ProjectFacesKeepsObjects | app/main.py:380-381 | A face list starting with an object keeps an entry. |
| ServerRecognize.ProjectKeeps | app/main.py:376-385 | The projection keeps the five requested fields unchanged. It keeps a list or object `faces`, reduced, and adds nothing else. |
| ServerRecognize.CandidatesUnfiltered | app/main.py:371-376 | Without a room, every user is a candidate, in order. |
| ServerRecognize.CandidatesExact | app/main.py:371-385 | A document is a candidate exactly when it is the projection of a user that the room query admits. |
| ServerRecognize.CandidatesInOrder | app/main.py:376-385 | The candidates keep database order: candidate `j` is the projection of the `j`-th user the room filter admits. |
| ServerRecognize.CandidateIsProjection | app/main.py:376-385 | Every candidate is the projection of a stored user. |
| ServerRecognize.FaceHitsPrefixRaises | app/main.py:392-397 | A scan that raises on some face raises on the whole list. |
| ServerRecognize.HitsPrefixRaises | app/main.py:390-397 | A scan that raises on some candidate raises on the whole list. |
| ServerRecognize.BestIsEarliestMax | app/main.py:387-403 | Starting from -1.0 with a strict `>`, the scan keeps the earliest highest-scoring face; no score exceeds the kept one. No match remains only at -1.0. |
| ServerRecognize.EarliestMaxUnique | app/main.py:398 | The earliest maximum is unique. |
| ServerRecognize.NoMatchIffAllLow | app/main.py:387-403 | No match exactly when every score is at most -1.0. |
| ServerRecognize.MeetsThresholdIff | app/main.py:412-415 | The best match meets the threshold exactly when some face scores at least 0.70. |
| ServerRecognize.ScanFaces | app/main.py:391-403 | The inner loop continues the scan over one candidate's faces, skipping null embeddings. It raises on a non-object entry. |
| ServerRecognize.BestMatch | app/main.py:387-403 | The nested loops compute the scan over all hits, or raise where it raises. |
| ServerRecognize.NoImageIff | app/main.py:339-340 | The route answers `No image provided` exactly when there is neither a named file nor a base64 text. |
| ServerRecognize.HitsBelongToCandidates | app/main.py:390-403 | Every scored face belongs to a scanned candidate. |
| ServerRecognize.FaceHitsBelongTo | app/main.py:391-403 | Every scored face of one candidate carries that candidate. |
| ServerRecognize.Judge | app/main.py:415-428 | The answer once the scan has run. It has no contract of its own: `JudgeVerdict`, `JudgeGreets` and `JudgeAnswers` state its cases. |
| ServerRecognize.JudgeVerdict | app/main.py:412-428 | 404 exactly when every score is below 0.70. A 200 greets the earliest maximum with its public form and rounded score. Confidence is 0.0 when nothing matched. |
| ServerRecognize.JudgeGreets | app/main.py:415-422 | A 200 reports `recognized` and the public form of the scan's match. |
| ServerRecognize.MatchedUserIsStored | app/main.py:376-422 | A 200 reports the public form of the projection of some stored user. |
| ServerRecognize.Recognize | app/main.py:329-435 | `recognize_face`. It has no contract of its own: `NoImageIff`, `FileIgnoresBase64`, `RecognizeAnswers` and `BestMatch` state its properties. |
| ServerRecognize.FileIgnoresBase64 | app/main.py:345-356 | With a named file, the base64 field is never looked at. |
| ServerRecognize.JudgeAnswers | app/main.py:415-435 | After detection the answer is 200, 404 or 500. A 500 carries an error, and a 200 exactly reports a recognised user. |
| ServerRecognize.RecognizeAnswers | app/main.py:329-435 | The route answers 200, 400, 404 or 500. Every 400 and 500 carries an error, and 200 exactly reports a recognised user. |
| ServerRecognize.LegacyUserLosesIdentity | app/main.py:376-385 | A recognised older-schema user is reported with an empty profile and a null id. |
| ServerRecognize.ProjectionForgetsAddedAt | app/main.py:376-385 | A user with faces but no stored registration time is reported as registered at the clock, because the projection drops `added_at`. |
| ServerAdmin.UpdateFields | app/main.py:296-310 | The fields one record gets. It has no contract of its own: `UpdateFieldsExact` states them. |
| ServerAdmin.UpdateFieldsExact | app/main.py:296-310 | Only the missing timestamps are written. `registered_at` comes from the faces or the clock. `updated_at` prefers the stored registration time, then the one just written. |
| ServerAdmin.Migration | app/main.py:283-327 | `migrate_timestamps` as a function. It has no contract of its own: `MigrationSound`, `MigrationComplete`, `MigrationCount`, `MigrationStops` and `MigrationSettles` state its properties. |
| ServerAdmin.MigrationSettles | app/main.py:296-310 | A migrated record needs no further migration. |
| ServerAdmin.MigrationSound | app/main.py:292-318 | Every update targets a record that needs it, with its computed fields, in increasing database order. |
| ServerAdmin.MigrationBounded | app/main.py:292-318 | Every update targets a stored record. |
| ServerAdmin.MigrationComplete | app/main.py:292-318 | A completed migration updates every record that needs it. |
| ServerAdmin.MigrationCount | app/main.py:313-318 | A completed migration issues exactly one update per record that needs it. |
| ServerAdmin.MigrateTimestamps | app/main.py:282-326 | The loop issues the migration's updates. It answers 200 with the message and a count equal to the number of records that needed it, or 500 `Migration failed: ...`. |
| ServerAdmin.MigrationStops | app/main.py:288-326 | Once the migration has raised, later records change nothing. |
| ServerAdmin.FirstWithId | app/main.py:230-233 | The first stored user with the id, or none exactly when no user has it. |
| ServerAdmin.ImagePaths | app/main.py:236-241 | Only truthy `image_path` values are collected, no more of them than faces. |
| ServerAdmin.ImagePathsRaisesIff | app/main.py:236-240 | Collecting the paths raises exactly when some face is not an object. |
| ServerAdmin.ImagePathsAt | app/main.py:236-240 | The collected paths are the `image_path` values of exactly the faces with a truthy one, in face order. |
| ServerAdmin.RemovalDeletesEachFileOnce | app/main.py:250-258 | Starting from the files on disk, the removal loop deletes exactly the collected files that exist and whose removal does not raise, and counts each of them once, even when several faces name the same file. |
| ServerAdmin.RepeatedPathRemovedOnce | app/main.py:250-258 | Two faces naming one removable file give one deletion, no failure, and that file gone from disk. |
| ServerAdmin.RemovalAccounting | app/main.py:250-258 | Removed plus failed never exceeds the paths tried. Nothing failed exactly when no collected file on disk made `os.remove` raise. |
| ServerAdmin.Delete | app/main.py:223-272 | `delete_user_by_userid` as a function over the users and the files on disk. It has no contract of its own: `DeleteReport` and `DeleteMissing` state its answers, and `DeleteUser` proves the route's steps equal to it. |
| ServerAdmin.DeleteReport | app/main.py:228-270 | A 200 removes exactly the first user with the id and exactly its removable files from disk. It reports the number of collected paths as `total_images` and the number of distinct files deleted as `deleted_images`, which is at most `total_images`. `failed_images` appears exactly when some collected file on disk made `os.remove` raise. |
| ServerAdmin.DeleteMissing | app/main.py:230-233 | An unknown id answers 404 and changes neither the users nor the files on disk. |
| ServerAdmin.CollectImagePaths | app/main.py:236-241 | The collecting loop computes `ImagePaths`. |
| ServerAdmin.ImagePathsPrefixRaises | app/main.py:238-241 | A face that raises makes the whole collection raise. |
| ServerAdmin.RemoveImages | app/main.py:250-258 | The removal loop, on the set of files on disk, computes the removed count, the failure records and the files left, as `Removal` does. |
| ServerAdmin.DeleteUser | app/main.py:222-273 | The route's steps compute `Delete`: the users left, the files left on disk and the answer. |
| EndToEnd.Transport | frontend/src/utils/api.js:22-31 | The client resolves exactly for a 2xx answer. |
| EndToEnd.StatusMessagePlain | frontend/src/utils/api.js:41-45 | The HTTP library's rejection message is classified neither as a timeout nor as a network error. |
| EndToEnd.RejectedAnswerText | frontend/src/utils/api.js:45-48 | A non-2xx answer is a server rejection. The screen shows its `error`, else its `message`, else the status line. |
| EndToEnd.RejectedAnswerShown | frontend/src/screens/HomeScreen.js:90-108 | A non-2xx answer ends the capture in the failure branch. It shows the server's text, else the status line, keeps the store's verdict and arms the local timer. |
| EndToEnd.NoMatchShownAsFailure | app/main.py:423-428 | A non-match is a 404, so the verification screen shows the service's text as a refusal. It publishes nothing and arms only the 5-second timer. |
| EndToEnd.LegacyMatchAnonymous | app/main.py:376-422 | Against older-schema users, a 200 names a user with an empty profile and no name. |
| EndToEnd.AnonymousGreetedAsUser | frontend/src/screens/HomeScreen.js:70-75 | A recognised user without profile name or top-level name is greeted as `User`. |
| EndToEnd.LegacyUsersGreetedAsUser | frontend/src/screens/HomeScreen.js:73 | Against older-schema users, every recognised visitor is greeted as `User`, whatever name is stored. |
| EndToEnd.VerifyFormHasImage | app/main.py:335-340 | The client's recognition form always passes the service's image check. |
| EndToEnd.RegisteredImagesAllSaved | app/main.py:116-123 | Every image part of a client registration form arrives named, so the service saves every one, in order, under its own position. |
| EndToEnd.SeparatorNamePassesClientOnly | app/main.py:95-107 | A name made of U+001C passes the screen's and the client's checks. The service's strip removes it, so the service refuses the name as missing. |

## Left out

- Rendering, styles, navigation, animation and alerts are not modelled. Alerts are recorded as a notice value, and the success alert's OK button is an explicit method. `SettingsScreen.js` is not part of this model; it only forwards to `testServerConnection` and `setServerUrl`.
- Camera capture, image manipulation, cache writes, axios, Flask request parsing, MongoDB and the file system are outcomes or values passed in. Their failures are modelled only where a member takes a failure outcome as a parameter.
- ServerRegister.SaveUploads: a failing `f.save` or `image_file.save` (app/main.py:122, 127) is not modelled. Those calls are outside any handler, so Flask answers 500; the model records the path as saved and goes on to detection. A student id such as `a/b`, naming a missing sub-folder, would cause this.
- ServerRegister.SaveUploads: a failing write of the decoded base64 image (app/main.py:137-138) is modelled only through `decodeError`, which sees the payload text and not the path.
- ServerRecognize.Recognize: a failing `image_file.save` of the temporary file (app/main.py:345-346) is not modelled; Flask would answer 500. The base64 write there is modelled as in registration.
- ServerAdmin.Removal: the file system is a set of paths. A truthy `image_path` that is not text makes `os.path.exists` raise inside the same handler (app/main.py:251-257); the model covers that only when the caller places the value in the set with a removal error, and does not model an integer path naming an open file descriptor.
- ServerAdmin.Delete: `delete_one` raising (app/main.py:244) is not modelled. Only its deleted count is a parameter (`removed`), so the 500 `Error deleting user: …` is produced only for a failure while reading the faces.
- ServerAdmin.Migration: `update_one` raising (app/main.py:314) is not modelled; every issued update is taken to succeed.
- Mongo's matching details beyond an equal or array-held `profile.room` are not modelled. This includes projection of nested arrays inside `faces`.
- The HTTP library's own behaviour is an assumption written in `EndToEnd.Transport`: 2xx resolves; any other status rejects with `ERR_BAD_REQUEST`/`ERR_BAD_RESPONSE` and the message `Request failed with status code <n>`.
- `normalize_embedding`, `cosine_similarity`, float32 arithmetic and NaN scores are not modelled. A score is an abstract real from a scoring function, and `round(x, 4)` is a parameter.
- `datetime.now()`, `uuid.uuid4()` and `base64.b64decode` are parameters. One clock reading serves a whole request.
- Timers have no durations. Each pending timer is an event that may fire at any later point, and the relative order of the 3-second and 5-second timers is not constrained.
- The contents of uploaded and saved files are not modelled. The service's removal of the temporary recognition file is not modelled either.
- Document assembly and insertion in `register_user` (app/main.py:164-192) are not modelled. That code calls `create_user_document` with an `embedding_version` keyword and then appends to `user_doc["faces"]`, and neither exists in app/models/user.py. The model stops where the document would be assembled.
- The routes `/`, `/ping`, `/users`, `/users/student/<id>` and `GET /users/userid/<id>` are not modelled; they only read and forward to `user_to_response`.
- The registration screen's rendering conditions are not modelled. The capture button exists only below three images, and the submit button only at three. `Enrollment.Submit` is modelled for any session, as `handleSubmit` itself checks the count.
- React's stale closures are not modelled beyond the permission read in `startCountdown`. A second press while a registration is out is not modelled either: the submit button is disabled then.
- A JSON `error`/`message` that is truthy but not a string is treated as absent when the client builds its message.
- test.py and test_recognize.py are manual scripts and are not part of this model.
