# Face-recognition attendance: client orchestration and server enrollment/matching

This project models the decision logic of a face-recognition attendance
system and proves properties of it in Dafny. The system has two parts.

- **Web client** (`frontend/src/App.jsx`), with four pieces:
  - an attendance log kept in the browser's local storage;
  - an attendance page that scans a face and classifies the server's reply;
  - a five-step registration wizard (data, front, left, right, review);
  - a dataset-upload page.
- **Backend** (`backend/main.py`), with three endpoints:
  - `/register` and `/upload-dataset` collect face embeddings from posted images and store them;
  - `/verify` matches one image against every stored embedding.

Module layout:

| module | file | models |
|---|---|---|
| `Json` | json.dfy | JavaScript values after `response.json()`, property access, truthiness, object spread |
| `Http` | http.dfy | the client's reading of one awaited `fetch` (success / other status / `catch`) |
| `AttendanceLog` | attendance_log.dfy | the `App` component's log, its local-storage copy, reload |
| `Verification` | verification.dfy | `AttendancePage.handleDeepFaceCheck` |
| `Registration` | registration.dfy | `RegisterPage` (step guard, `capture`, camera effect, `handleRegister`, `reset`) |
| `UploadPage` | upload_page.dfy | `UploadDatasetPage.handleUpload` |
| `DataUrl` | data_url.dfy | the comma split in `base64_to_cv2` |
| `Numerals` | numerals.dfy | the decimal count in the upload message |
| `Server` | server.dfy | the store, the embedding loop, the upsert, the best-match loop and threshold |
| `Wire` | wire.dfy | what the client receives for each backend reply |
| `Wrappers` | wrappers.dfy | `Option` |

Each component whose state the source updates in place is a class:
`App`, `AttendancePage`, `RegisterPage`, `UploadDatasetPage` and the backend
`Store`. An asynchronous handler is split at its first `await` into two
methods:

- a `Start…` method for the synchronous part. Its precondition is that the
  page is not busy, because the button is disabled while busy.
- a `Finish…` method for the continuation. It takes the reply as a
  parameter.

Some things enter as parameters:

- The clock: the `now` string.
- The canvas snapshot: a `frame` string.
- The camera grant: `granted`.
- The backend's foreign calls, gathered in an `Oracle` value: image
  decoding, `DeepFace.represent` and the cosine distance.
- Database availability: `Db`.

In these places the model follows the code exactly:

- A non-2xx reply from the backend is not a transport failure. Its JSON body
  is parsed, it has no `status`, and the scan shows the default rejection text
  while the backend stays marked reachable.
- The backend is marked reachable as soon as `fetch` resolves. It is marked
  unreachable again if parsing the body throws.
- A recognised log entry has no model field. The backend's success payload
  has none.
- The camera effect re-runs on every step change. So the stream is stopped
  and requested again between steps 1, 2 and 3, not held across them.
- Unreadable saved logs are not treated as empty. `JSON.parse` throws inside
  the load effect. This case is not modelled (see below).
- The reset button stays enabled while a registration is in flight, so the
  registration reply may arrive when the wizard is already back at step 0.

## Model

| member | source | states |
|---|---|---|
| `AttendanceLog.Recorded` | frontend/src/App.jsx:72-74 | recording puts the entry at index 0, keeps every earlier entry in order one place later, and grows the log by one |
| `AttendanceLog.Reversed` | frontend/src/App.jsx:72-74 | the newest-first order of a run of entries: same length, the entry at position `k` is the run's entry `n-1-k` |
| `AttendanceLog.RecordedAllIsNewestFirst` | frontend/src/App.jsx:72-74 | after a run of recordings the log is those entries newest-first, in front of the earlier log; the `k`-th recorded entry sits at position `n-1-k` and the earlier log follows in its order |
| `AttendanceLog.Loaded` | frontend/src/App.jsx:63-64 | a page load finds the list saved under `deepface_logs` when there is one, and the empty list otherwise |
| `AttendanceLog.App.constructor` | frontend/src/App.jsx:56-70 | mounting loads the saved list under `deepface_logs` if one exists and stays empty otherwise; the backend starts marked reachable; storage then holds the loaded log |
| `AttendanceLog.App.RecordAttendance` | frontend/src/App.jsx:67-74 | the new log is the old one with the entry prepended, and the full list is written back under `deepface_logs` |
| `AttendanceLog.Reload` | frontend/src/App.jsx:61-70 | a reload over the same storage finds exactly the log the previous page held |
| `Json.Member` | frontend/src/App.jsx:289-296 | for the names the client reads (`status`, `message`, `data`), reading a property throws exactly on `null`, and is defined exactly for an object's own field |
| `Json.Truthy` | frontend/src/App.jsx:296 | the test that picks `data.message` over the default text: `undefined` and `null` are falsy, a string is truthy exactly when non-empty, objects and arrays are truthy |
| `Json.Spread` | frontend/src/App.jsx:292 | `...data` copies exactly an object's own fields, and nothing from any other value |
| `Http.Read` | frontend/src/App.jsx:282-300 | a reply counts as success exactly when its body's `status` is the string `success`; it reaches the `catch` branch exactly on a network error, a body that is not JSON, or a `null` body |
| `Http.MessageOf` | frontend/src/App.jsx:296 | `data.message` on a parsed non-null body never throws; it is the body's `message` field when present and `undefined` otherwise |
| `Verification.Stamped` | frontend/src/App.jsx:292 | the entry has every field of the server's `data` (except a replaced `timestamp`) and `timestamp` set to the receipt time |
| `Verification.Classify` | frontend/src/App.jsx:282-300 | a scan is accepted exactly on a `success` reply, with the stamped `data` as its entry; it is unreachable exactly on a thrown error; otherwise it is rejected with the server's message if truthy, else "Wajah tidak dikenali." |
| `Verification.PanelOf` | frontend/src/App.jsx:293-300 | the success panel exactly for an accepted scan, carrying its entry; a rejection shows its message; an unreachable backend shows "Gagal koneksi server." |
| `Verification.PanelOfShowsOutcome` | frontend/src/App.jsx:293-300 | the success panel appears exactly for a `success` reply, and a failed panel always carries a truthy message |
| `Verification.AttendancePage.constructor` | frontend/src/App.jsx:247-251 | a new page selects `facenet`, is not processing and shows no result |
| `Verification.AttendancePage.SelectModel` | frontend/src/App.jsx:312-315 | the selector sets one of its two options and touches nothing else |
| `Verification.AttendancePage.StartScan` | frontend/src/App.jsx:271-286 | without a video element nothing changes and nothing is sent; otherwise the page is processing with no result and sends the frame with the selected model |
| `Verification.AttendancePage.FinishScan` | frontend/src/App.jsx:282-303 | the panel shows the verdict; the backend is marked reachable exactly when nothing threw; the log gains exactly the stamped entry on success and is unchanged otherwise; processing ends on every path |
| `Verification.Scan` | frontend/src/App.jsx:271-304 | one whole scan grows the log by one exactly on a `success` reply, by none otherwise, and keeps the earlier entries as its tail |
| `Registration.CaptureStep` | frontend/src/App.jsx:401 | the video element and camera belong exactly to the steps strictly between 0 and the review step 4 |
| `Registration.RegisterPage.constructor` | frontend/src/App.jsx:381-388 | the wizard starts at step 0 with no photos, empty fields, no modal, not uploading and no camera |
| `Registration.RegisterPage.EditNim` | frontend/src/App.jsx:468 | the NIM input sets the NIM |
| `Registration.RegisterPage.EditName` | frontend/src/App.jsx:469 | the name input sets the name |
| `Registration.RegisterPage.CameraEffect` | frontend/src/App.jsx:398-412 | after a step change a stream is held exactly when the step is 1 to 3 and the camera was granted |
| `Registration.RegisterPage.Continue` | frontend/src/App.jsx:470 | step 0 moves to step 1 exactly when both NIM and name are non-empty; the invariant (step in 0..4, one photo per earlier capture step, camera only on steps 1 to 3) is kept |
| `Registration.RegisterPage.Capture` | frontend/src/App.jsx:414-422 | outside steps 1 to 3 nothing changes; on them exactly one frame is appended and the step advances by one, keeping the invariant |
| `Registration.RegisterPage.StartRegister` | frontend/src/App.jsx:424-431 | submitting from the review step sends the NIM, the name and exactly three photos, and marks the page uploading |
| `Registration.RegisterPage.FinishRegister` | frontend/src/App.jsx:432-436 | success shows the modal; a refusal alerts with the server's `message`, a thrown error with the connection text; step, photos, NIM and name are never changed; uploading ends on every path |
| `Registration.RegisterPage.Reset` | frontend/src/App.jsx:439 | from any step: step 0, no photos, empty NIM and name, hidden modal, camera released |
| `Registration.CaptureAll` | frontend/src/App.jsx:414-422 | front, left and right captured from step 1 reach step 4 with those three photos in order; a fourth capture changes nothing |
| `UploadPage.UploadDatasetPage.constructor` | frontend/src/App.jsx:510-513 | the upload page starts with no NIM, no files and not uploading |
| `UploadPage.UploadDatasetPage.EditNim` | frontend/src/App.jsx:543 | the NIM input sets the NIM, also while uploading |
| `UploadPage.UploadDatasetPage.SelectFiles` | frontend/src/App.jsx:545 | a file choice replaces the chosen files, also while uploading |
| `UploadPage.UploadDatasetPage.StartUpload` | frontend/src/App.jsx:515-531 | nothing is sent exactly when there are no files or no NIM (an alert only); otherwise the NIM and files are sent and the page is uploading |
| `UploadPage.UploadDatasetPage.FinishUpload` | frontend/src/App.jsx:533-537 | success clears NIM and files; any failure keeps them; uploading ends on every path |
| `DataUrl.Split` | backend/main.py:76 | `split(',')` yields at least one field, and exactly one exactly when the text has no comma |
| `DataUrl.JoinSplit` | backend/main.py:76 | joining the fields with the separator gives the text back |
| `DataUrl.SplitFieldsAvoidSep` | backend/main.py:76 | no field contains the separator |
| `DataUrl.Before` | backend/main.py:76 | the text up to the first comma is a comma-free prefix ending at a comma or at the end |
| `DataUrl.SplitAtFirst` | backend/main.py:76 | the first field is the text before the first comma, and the later fields are those of the text after it |
| `DataUrl.Payload` | backend/main.py:76-77 | the text handed to the decoder never contains a comma, and is the whole input when the input has none |
| `DataUrl.PayloadIsSecondField` | backend/main.py:74-80 | the decoded text is the whole input without a comma, and otherwise exactly the text between the first and the second comma (or the end) |
| `DataUrl.DataUrlPayload` | backend/main.py:76-77 | for a client data URL `data:<type>;base64,<payload>` the decoder receives exactly the payload |
| `Numerals.Decimal` | backend/main.py:178 | a count is written as one or more decimal digits without a leading zero |
| `Numerals.ParseDecimal` | backend/main.py:178 | reading the written digits back gives the count |
| `Server.ToImage` | backend/main.py:74-80 | the decoder receives the whole string when it has no comma, and otherwise the text between its first and second comma |
| `Server.EmbeddingOf` | backend/main.py:127-132 | an image contributes an embedding exactly when it decodes and the model returns at least one face, and then the first face's |
| `Server.Collected` | backend/main.py:125-133 | the embeddings of a list of images number at most the images, and none for no images |
| `Server.CollectedSnoc` | backend/main.py:125-133 | one more image adds its embedding, if any, at the end |
| `Server.CollectedBounds` | backend/main.py:125-136 | at most one embedding per image, and none exactly when no image decodes and yields a face |
| `Server.CollectedAll` | backend/main.py:125-133 | when every image yields a face, the embeddings are those images' own, one for one, in order |
| `Server.CollectEmbeddings` | backend/main.py:125-133 | the loop skips images that do not decode, that make the model raise or that have no face, and keeps the others' first embeddings in input order |
| `Server.Rows` | backend/main.py:142-143 | one embeddings row per vector, all under the request's NIM, in order |
| `Server.Joined` | backend/main.py:194-195 | the join has one row per embedding, carrying its NIM, its vector and the user's name for that NIM |
| `Server.BestMatch` | backend/main.py:197-208 | the minimum starts at 100.0 and ends at or below every row's distance; with no row under 100.0 there is no match; otherwise the match is the first row at that minimum |
| `Server.Confidence` | backend/main.py:210-211 | confidence is never negative, equals `(1 - d/0.30)*100` for an accepted distance, and is at most 100 for a non-negative distance |
| `Server.ConfidenceDecreases` | backend/main.py:211 | a smaller distance never gives a smaller confidence, and distance 0 gives 100 |
| `Server.AddedMessage` | backend/main.py:178 | the upload message is `Added ` and ` photos` around a string of decimal digits |
| `Server.AddedMessageReportsCount` | backend/main.py:178 | the upload message is `Added <n> photos` with `n` the number of embeddings stored |
| `Server.Store.Valid` | backend/main.py:50 | every embedding row's NIM is a registered user (the foreign key) |
| `Server.Store.constructor` | backend/main.py:45-51 | the three tables start empty and the foreign-key invariant holds |
| `Server.Store.InsertEmbeddings` | backend/main.py:142-143 | one embeddings row per vector is appended under the NIM, keeping every embedding's NIM a registered user |
| `Server.Store.Register` | backend/main.py:120-148 | empty NIM, name or image list gives 400 "Missing data"; no collected embedding gives 400 "No faces detected"; a database failure gives 500; in none of these does anything change; otherwise the name is upserted for the NIM and one row per embedding is appended; logs never change |
| `Server.Store.UploadDataset` | backend/main.py:150-178 | empty NIM or image list gives 400; no embedding gives 400 before the user is looked up; an unknown NIM gives 404 and inserts nothing; otherwise one row per embedding is appended and the message reports the count; users and logs never change |
| `Server.Store.Verify` | backend/main.py:180-220 | an undecodable image gives 400 "Invalid image"; no face gives "failed"/"No face detected"; a database failure gives "error"; otherwise the reply is a match exactly when some stored embedding is within 0.30, with the least distance, the first joined row at that distance, the matched user and its confidence, and then exactly one log row with model `Facenet512` is added whatever model was requested; otherwise "failed"/"Face not recognized" and no log row |
| `Wire.Body` | backend/main.py:120-220 | FastAPI's JSON for each reply: an object with `detail` exactly for a raised error and `status` exactly otherwise, `success` for both success replies, and `status` with `message` for a failed or error reply |
| `Wire.RaisedIsRefusalWithoutMessage` | frontend/src/App.jsx:288-297 | a raised backend error reaches a page as a refusal with no `message`, so a scan shows "Wajah tidak dikenali." and not a connection failure |
| `Wire.MatchedEntryHasNoModel` | backend/main.py:215 | a match reaches the log as an entry with the NIM, name, confidence, distance and timestamp and no `model` field |
| `Wire.NotDoneShowsServerMessage` | frontend/src/App.jsx:295-297 | a `failed` or `error` reply with a non-empty message shows that message |
| `Wire.EnrollmentSuccessIsDone` | frontend/src/App.jsx:433 | the registration page counts a reply from the enrollment endpoints as success exactly when it is a `Done` reply |

## Left out

- Rendering and styling: all markup, `Button`, `Card`, `NavItem`, the mobile menu, page navigation and the mirrored video.
- Camera and canvas APIs: `getUserMedia`, stopping tracks, `drawImage` and `toDataURL`. A frame is an opaque string and the camera a held/not-held flag. The attendance page's own camera effect is not modelled.
- Transport and storage mechanics: `fetch`, `JSON.stringify`/`JSON.parse` and `localStorage`. Storage maps a key to the log itself, so unreadable saved data (which makes `JSON.parse` throw in the load effect) is not represented.
- `FileReader` and `Promise.all` in the upload page. The files are their data URLs already. A file whose read fails never settles its promise, so the page stays uploading. This path has no `FinishUpload` call.
- React scheduling: the model assumes one event per render. Double clicks before a re-render, and a camera cleanup that runs before `getUserMedia` resolves, are not modelled.
- The dashboard: the `/stats` request and the average-confidence formatting (`parseFloat`, `toFixed`).
- Backend numerics and libraries: base64 decoding, `cv2.imdecode`, `DeepFace.represent` and `find_cosine_distance` are the `Oracle`'s functions. Floats are reals, so NaN distances and the inexact 0.30 are not represented.
- Number formatting: the `:.2f%` confidence text (a parameter of `Wire.Body`) and `round(min_distance, 4)` (the reply carries the distance unrounded).
- Backend infrastructure: `get_db_connection`, `init_db`, SQL text, `/dashboard`, CORS and `uvicorn`. A database failure is all-or-nothing, with no partial writes.
- Request validation by FastAPI (422 replies for malformed bodies).
- `Server.Joined`: SQL gives no order for the join's rows. The model takes the embeddings' insertion order, so which of two equally distant rows wins a tie is decided only under that assumption.
- `Json.Spread`: spreading a string or an array `data` copies index-keyed fields in JavaScript. The model copies none.
