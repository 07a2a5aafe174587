# TechTive backend core in Dafny

A model of the core of the TechTive journaling backend, with proofs about it:

- the memory manager, which groups a user's notes into memories of three and builds the context for advice;
- the emotion-classifier helpers: the response validator of the hosted inference API, and the post-processing of the `send_note` task;
- the filename rules for profile pictures, and the four `/api/pfp/` handlers that keep a user's picture URL and storage name;
- the authentication decorator: reading the bearer token, and finding or creating the local user for a verified uid;
- the CSV loader of the quote table.

Database tables are sequences of records. The SQLAlchemy session is the class `Models.Database` (notes, memories, users, and the next user id). The quote loader has its own class, `QuoteLoader.QuoteTable`. That class holds the committed rows, the session's pending additions and a commit counter. Queries are functions over a snapshot of the tables. Operations that write rows are methods whose `modifies` clauses name the one table they touch.

Python dicts are lists of (key, value) items in insertion order (`OrderedDict`). So `max(d.items(), key=...)` returns the first item with the largest value, and a key written twice keeps its first position and its last value. Scores are `real`. Strings are sequences of characters, and lowercasing covers ASCII letters only.

Every outside effect is an input to the model: what the summariser returned, whether a step raised, what the HTTP post returned, what the classifier returned, what token verification decoded, what object storage returned, the database clock, and the random hex of `uuid.uuid4()`.

Modules, one file each: `Wrappers`, `OrderedDict`, `Sorting`, `Text`, `Models`, `MemoryManager`, `ApiUtils`, `Tasks`, `AwsUtils`, `FirebaseAuth`, `RoutesUser`, `QuoteLoader`.

In the batching rule, the window of notes still to summarise starts after the newest memory's `created_at`, not after its `last_note_date` (app/utils/memory_manager.py:32, 45). If more than three notes are waiting when a memory is made, the extra ones are older than the new memory and never get into any batch. The model proves what the code does ensure: no note is selected for two memories (`NoNoteInTwoBatches`), and notes at or before a stored memory's timestamp are never selected again (`EarlierNotesNeverSelected`).

## Model

| member | source | states |
|---|---|---|
| OrderedDict.IndexOf | app/utils/tasks.py:74-80 | the position of the first item with the key, or None exactly when no item has it |
| OrderedDict.GetOr | app/utils/tasks.py:74-80 | `d.get(k, default)`: the value of the first item with the key, or the default when no item has it |
| OrderedDict.Get | app/utils/tasks.py:74-80 | `d.get(k)`: None exactly when the key is absent, otherwise a value stored under the key |
| OrderedDict.Put | app/utils/tasks.py:67 | assigning a key keeps keys distinct, makes the key map to the value and leaves every other key's value alone; a present key keeps its position, a new key goes last |
| OrderedDict.FromPairs | app/utils/tasks.py:67 | the dict comprehension over (label, score) pairs has distinct keys |
| OrderedDict.LastValue | app/utils/tasks.py:67 | the value of the last pair with the key, None when no pair has it |
| OrderedDict.FromPairsGet | app/utils/tasks.py:67 | in the built dict, a label repeated by the classifier keeps the score of its last occurrence |
| OrderedDict.FromPairsKeyOrder | app/utils/tasks.py:67 | the built dict has exactly the labels of the pairs, in the order of their first occurrence |
| OrderedDict.MaxIndex | app/utils/memory_manager.py:68 | `max` over dict items: an item whose value is at least every other value, and every earlier item's value is strictly smaller (ties go to the first inserted) |
| Sorting.Insert | app/utils/memory_manager.py:47 | inserting into an ascending list keeps it ascending and adds exactly the one element |
| Sorting.SortBy | app/utils/memory_manager.py:47 | `order_by(asc)`: a permutation of the rows, ascending by the key |
| Sorting.NewestFirst | app/utils/memory_manager.py:115 | `order_by(desc)`: a permutation of the rows, descending by the key |
| Sorting.Earliest | app/utils/memory_manager.py:47-48 | `order_by(asc).limit(k)`: min(k, n) rows, ascending, a sub-multiset of the input (no row taken more often than it occurs), and no row left out is older than a row taken |
| Sorting.Latest | app/utils/memory_manager.py:114-121 | `order_by(desc).limit(k)`: min(k, n) rows, descending, a sub-multiset of the input, and no row left out is newer than a row taken |
| Text.Lower | app/utils/aws_utils.py:37 | `lower()` on ASCII: same length, no upper-case letter left, each upper-case letter moved to its lower-case form, every other character unchanged |
| Text.StartsWith | app/auth/firebase_auth.py:37 | `startswith`: the pattern fits and agrees with the string character by character |
| Text.Contains | app/utils/api_utils.py:49 | `p in s`: the pattern starts at some position of the string |
| Text.FindFrom | app/auth/firebase_auth.py:40 | the first position at or after the start where the pattern occurs, None when it occurs nowhere there |
| Text.LastIndexOf | app/utils/aws_utils.py:37 | the position of the last occurrence of the character, None when absent |
| Text.LastIndexOfIs | app/utils/aws_utils.py:37 | an occurrence with no occurrence after it is the one `rsplit` splits at |
| Models.FindById | app/main/routes_user.py:27 | `query.get(id)` on users and notes: a position holding a row with that primary key, None exactly when no row has it |
| MemoryManager.NotesOf | app/utils/memory_manager.py:27 | `filter_by(user_id=u)`: exactly the notes of the user, each as often as in the table, so its length is the `.count()` |
| MemoryManager.NotesAfter | app/utils/memory_manager.py:31-32 | `filter(created_at > t)`: exactly the notes created strictly after t, each as often as in the input |
| MemoryManager.MemoriesOf | app/utils/memory_manager.py:22 | exactly the memories of the user, each as often as in the table |
| MemoryManager.LatestMemory | app/utils/memory_manager.py:22-23 | None exactly when the user has no memory, otherwise a memory of the user with the largest `created_at` |
| MemoryManager.Window | app/utils/memory_manager.py:42-45 | a note is waiting exactly when it is the user's and, if the user has a memory, it was created strictly after the newest memory's `created_at`; each waiting note occurs as often as in the table |
| MemoryManager.ShouldCreateMemory | app/utils/memory_manager.py:19-34 | true exactly when at least 3 notes are waiting |
| MemoryManager.GetNotesForMemory | app/utils/memory_manager.py:36-48 | min(3, waiting) notes, oldest first, a sub-multiset of the waiting notes (no note twice unless it is in the table twice), and no waiting note left out is older than one taken |
| MemoryManager.GateIffFullBatch | app/utils/memory_manager.py:19-48 | `should_create_memory` holds exactly when `get_notes_for_memory` yields 3 notes, with or without an earlier memory |
| MemoryManager.Averages | app/utils/memory_manager.py:57-65 | one entry per emotion, in the dict's order, labelled and holding that emotion's average |
| MemoryManager.AnalyzeNotesBatch | app/utils/memory_manager.py:50-70 | an empty batch gives ("neutral", 0.0, ""); themes are always empty; otherwise the label and intensity of the first emotion, in the order joy, sadness, anger, fear, neutral, disgust, surprise, whose average is the largest |
| MemoryManager.MaxIndexIsFirstMaximum | app/utils/memory_manager.py:57-68 | the item `max` picks from the averages dict is at least all averages, and strictly above every earlier one |
| MemoryManager.SumBounds | app/utils/memory_manager.py:58-64 | with scores in [0, 1], a sum over n notes lies in [0, n] |
| MemoryManager.AverageInUnit | app/utils/memory_manager.py:58-64 | with scores in [0, 1], each average lies in [0, 1] |
| MemoryManager.IntensityInUnit | app/utils/memory_manager.py:57-70 | with scores in [0, 1], the batch intensity lies in [0, 1] |
| MemoryManager.NewMemory | app/utils/memory_manager.py:76-97 | a memory exists exactly when the gate is open; it has 3 notes, first and last note dates from the first and last selected notes (first <= last), the batch's dominant emotion and intensity, empty themes, the given summary and time |
| MemoryManager.BuildMemory | app/utils/memory_manager.py:88-97 | the record's user, summary, batch size, first and last note dates, dominant emotion, intensity and empty themes, from the batch and its analysis |
| MemoryManager.CreateAndSaveMemory | app/utils/memory_manager.py:72-108 | on success appends exactly that memory and returns it; when fewer than 3 notes wait or a step raises, returns None and the memories table is unchanged |
| MemoryManager.NoNoteInTwoBatches | app/utils/memory_manager.py:39-48 | once a memory stamped after every existing note is stored, every note selected later is strictly newer than every note of its batch |
| MemoryManager.EarlierNotesNeverSelected | app/utils/memory_manager.py:44-45 | a note created at or before a stored memory of the user is never selected again |
| MemoryManager.NothingAfter | app/utils/memory_manager.py:31-32 | no note is counted after a time that all notes precede |
| MemoryManager.GateClosesAfterMemory | app/utils/memory_manager.py:19-34 | right after a memory is stored, `should_create_memory` is false |
| MemoryManager.ContextMemories | app/utils/memory_manager.py:114-116 | min(5, n) memories of the user, newest first, a sub-multiset of them, and no memory left out is newer than one taken |
| MemoryManager.RecentNotes | app/utils/memory_manager.py:119-121 | min(3, n) notes of the user, newest first, a sub-multiset of them, taken from all the user's notes whether or not a memory covers them |
| MemoryManager.CurrentEmotions | app/utils/memory_manager.py:123-141 | no notes give an empty dict and "neutral"; otherwise the five averages of joy, sadness, anger, fear, neutral in that order, and the dominant is the first maximal of them |
| MemoryManager.NoNotesIff | app/utils/memory_manager.py:119-125 | the user's notes are empty exactly when the user has no note |
| MemoryManager.GetContextForAdvice | app/utils/memory_manager.py:110-142 | the memories are the user's 5 newest, newest first; the notes are the user's 3 newest, newest first; the emotions and the dominant one are those of `CurrentEmotions` on those notes (the five averages, first maximum dominant); the notes are empty exactly when the user has none, and then the emotions are empty with "neutral" |
| ApiUtils.ValidateResponse | app/utils/api_utils.py:42-70 | accepting means status 200 and the value is the body's first element, a non-empty list of objects with "label" and "score"; a rejection is never a network or configuration error |
| ApiUtils.CallHfEmotionApi | app/utils/api_utils.py:17-75 | without a token, "not configured" and no request; with one, a request is made, a request exception becomes the network error, and a network error comes only from one; a response that came back gives exactly `ValidateResponse`'s result, so success returns the body's first element and every validation failure propagates unchanged |
| ApiUtils.NonOkStatusFails | app/utils/api_utils.py:42-43 | any status other than 200 fails, whatever the body |
| ApiUtils.ErrorBodyFails | app/utils/api_utils.py:48-53 | an object body with a text "error": "loading" in any case means retry, otherwise the API error carrying the text |
| ApiUtils.ValidateIff | app/utils/api_utils.py:55-70 | the response is accepted with a list exactly when the body's first element is that list, non-empty, of valid emotion objects |
| ApiUtils.MalformedBodyFails | app/utils/api_utils.py:55-63 | a non-list body, an empty list, or a first element that is not a non-empty list fails with "could not extract" |
| ApiUtils.BadElementFails | app/utils/api_utils.py:66-68 | one element without "label" or "score" makes the whole response fail |
| Tasks.TruncateContent | app/utils/tasks.py:58-59 | content over 1000 characters becomes its first 1000; shorter content is unchanged |
| Tasks.ScoresFromMap | app/utils/tasks.py:74-80 | each of the seven note fields is the dict's value for its label, or 0.0 |
| Tasks.OtherLabelsIgnored | app/utils/tasks.py:74-80 | a label outside the seven never changes the note's fields |
| Tasks.FieldsFromClassifier | app/utils/tasks.py:67-80 | each note field is the score the classifier gave last to its label, or 0.0 |
| Tasks.ValueInUnit | app/utils/tasks.py:67-80 | with classifier scores in [0, 1], a looked-up value lies in [0, 1] |
| Tasks.FieldsInUnit | app/utils/tasks.py:67-80 | with classifier scores in [0, 1], all seven note fields lie in [0, 1] |
| Tasks.TopEmotion | app/utils/tasks.py:84 | ("unknown", 0.0) for an empty dict; otherwise the first-inserted item with the largest score |
| Tasks.WithScores | app/utils/tasks.py:72-81 | only the note with that id gets the new scores, and nothing changes when there is no such note |
| Tasks.ErrorResult | app/utils/tasks.py:95-105 | the `except` dict: the note id and content, status "error", top emotion "error", confidence 0.0, no emotions, and the message |
| Tasks.SendNote | app/utils/tasks.py:40-105 | success exactly when the pipeline loaded, classification returned and the database did not raise; the result echoes the truncated text, the score dict and its top emotion, and the note gets the seven fields; any failure gives the error result with "error", 0.0 and an empty dict and writes nothing; its message is the pipeline-load message, or the message classification raised, or the message the database raised |
| Tasks.Process | app/utils/tasks.py:30-38 | the loop runs exactly 5 rounds and the result is x*x + y*y |
| AwsUtils.Extension | app/utils/aws_utils.py:37 | the text after the last '.', None exactly when there is no '.' |
| AwsUtils.AllowedFile | app/utils/aws_utils.py:35-37 | true exactly when the name has a '.' with no '.' after it and the text after it, lower-cased, is png, jpg, jpeg or gif |
| AwsUtils.ExtensionAfterLastDot | app/utils/aws_utils.py:37 | a '.' with no '.' after it marks the extension `rsplit` returns |
| AwsUtils.GenerateUniqueFilename | app/utils/aws_utils.py:39-42 | fails exactly when the name has no '.'; otherwise the hex, one '.', and the lower-cased last extension, with no other '.' |
| AwsUtils.RenamedStaysAllowed | app/utils/aws_utils.py:35-42 | an allowed name is renamed without failing, and the new name is allowed too |
| AwsUtils.LastDotOfLower | app/utils/aws_utils.py:37 | lowercasing does not move the last '.' |
| AwsUtils.AllowedFileIgnoresCase | app/utils/aws_utils.py:37 | a name and its lower-cased form get the same answer |
| AwsUtils.AllowedFileExamples | app/utils/aws_utils.py:35-37 | "a.tar.PNG" is allowed; "x.png.exe", "photo." and "png" are not |
| FirebaseAuth.ExtractToken | app/auth/firebase_auth.py:36-40 | a token exists exactly when the header starts with "Bearer "; the header is "Bearer " + token followed by nothing or by another "Bearer ", and the token holds no "Bearer " |
| FirebaseAuth.ExtractTokenRoundTrip | app/auth/firebase_auth.py:40 | a token without "Bearer " inside is read back from "Bearer " + token |
| FirebaseAuth.ExtractTokenStrict | app/auth/firebase_auth.py:37-40 | no header, "bearer ..." and "Bearerabc" give no token; a second space stays in the token |
| FirebaseAuth.FindByUid | app/auth/firebase_auth.py:26 | the first user with the uid, None exactly when none has it |
| FirebaseAuth.GetOrCreateUser | app/auth/firebase_auth.py:24-31 | returns the existing user with the uid without adding a row; otherwise adds exactly one user with that uid and the next id; distinct uids stay distinct |
| FirebaseAuth.GetOrCreateUserTwice | app/auth/firebase_auth.py:24-31 | a second call returns the same user, and the table grows by at most one row |
| FirebaseAuth.FirebaseAuthRequired | app/auth/firebase_auth.py:33-57 | no valid header gives 401 "No token provided"; a verification or lookup failure gives 401 "Invalid token"; in both cases the handler does not run and no user is added; otherwise the handler runs once, for a stored user with the decoded uid, and its reply is returned, or 401 "Invalid token" when it raises; the users table is unchanged when that uid had a row, and otherwise gains exactly that user |
| RoutesUser.SetPicture | app/main/routes_user.py:48-49 | only the one user's picture columns change, to the given values; setting both or neither keeps every user consistent |
| RoutesUser.AfterUpload | app/main/routes_user.py:45-57 | 200 with the URL and storage name exactly when storage returned a URL; otherwise 500, with the handler's message when storage raised |
| RoutesUser.UploadProfilePicture | app/main/routes_user.py:10-60 | 400 for no file, an empty name or a bad extension; 404 for a missing user; 409 with the existing URL when both columns are set, and then no upload; on 200 both columns hold the new URL and name; on any other status nothing changes |
| RoutesUser.UpdateProfilePicture | app/main/routes_user.py:62-105 | 400 "Invalid file" for an empty name or a bad extension; 404 for a missing user; the old object is deleted before the upload, so a failed upload leaves the row naming a deleted object; on 200 both columns hold the new values; otherwise nothing changes |
| RoutesUser.DeleteProfilePicture | app/main/routes_user.py:107-133 | 404 for a missing user or no stored name; a storage failure gives 500 and changes nothing; a confirmed delete clears both columns |
| RoutesUser.GetProfilePicture | app/main/routes_user.py:135-149 | 200 with the URL exactly when the user exists and has a URL (the storage name is not consulted); otherwise 404 |
| RoutesUser.UploadTwice | app/main/routes_user.py:32-50 | after a successful POST, a second POST gets 409 and uploads nothing |
| QuoteLoader.QuoteTable.LoadQuotesFromCsv | models/quote.py:18-35 | committed quotes stay, unchanged and in place, followed by the pending ones; the table becomes what the session saw plus the quotes the pass adds; nothing stays pending; exactly one commit |
| QuoteLoader.AddedComeFromRows | models/quote.py:27-33 | every added quote takes its content from a row's "Quote" and its author from the same row's "Author", and that content was not in the table |
| QuoteLoader.EveryRowPresent | models/quote.py:25-33 | after the pass, every row's content is in the table |
| QuoteLoader.NoDuplicates | models/quote.py:26-33 | a table without duplicate contents stays without them, even when the file repeats a quote |
| QuoteLoader.NothingAbsent | models/quote.py:27-28 | rows whose contents are all present add nothing |
| QuoteLoader.LoadTwiceAddsNothing | models/quote.py:25-33 | loading the same file again adds nothing |
| QuoteLoader.LoadOnce | models/quote.py:18-35 | one load into a table: existing quotes kept, every row's content present, new quotes only from rows, no duplicates, one commit |

## Left out

- Object storage and images: the S3 client, `upload_to_s3`, `delete_from_s3` and `resize_image` are network I/O and PIL image processing. Their results are inputs (`UploadOutcome`, `DeleteOutcome`).
- The HTTP post of `call_hf_emotion_api` is an input (`PostOutcome`). A body that is not JSON, which makes `response.json()` raise, is not modelled.
- Loading and running the transformers pipeline, `gc.collect()`, `sleep` and `print` are left out. The classifier output is given as a list of (label, score) pairs, or the message it raised.
- `create_memory_summary` is not part of this model. The summary is a parameter of `CreateAndSaveMemory`.
- `should_generate_advice` and `generate_advice_task` are not part of this model.
- Firebase SDK initialisation and `verify_id_token` are a library. Verification is an input function from token to decoded uid or failure.
- The SQLAlchemy and Marshmallow declarations, the migrations and the Flask and Celery wiring supply record shapes only.
- The advice and memory pagination handlers, random quote selection and the note-creation handler are thin wrappers over library calls.
- Concurrency between Celery tasks: the code has no locking, and the model treats each operation as atomic.
- Floating point: scores are reals, so rounding is not modelled.
- Unicode case folding: lowercasing covers ASCII letters only.
- Reading the CSV file is left out; its rows are the input. A row missing the "Quote" or "Author" column, which raises KeyError, is not modelled.
- Autoincrement ids of quotes and memories are not modelled. The printed memory id is output only.
- Timestamp ties: the database leaves the order of equal `created_at` values open. The sort fixes one order, and the lemmas hold whatever order is chosen.
- CreateAndSaveMemory: one flag stands for any exception of the summariser, the insert or the commit. The rollback then leaves the memories table unchanged.
- SendNote: one message stands for an exception raised by the note lookup or the commit. A result that is not a list of lists (`result[0] if isinstance(result, list) else result`) is not modelled.
- FirebaseAuthRequired: a commit of a new user that fails after the add is treated like a failed lookup, with no row added.
- UploadProfilePicture: a database exception while reading or committing the user row (500 "Upload failed") is not modelled. The same holds for UpdateProfilePicture and DeleteProfilePicture.
- GetProfilePicture: the 500 "Failed to retrieve profile picture" branch, reached only by a database exception, is not modelled.
- QuoteLoader.Added: its own contract only bounds its length; what it adds is stated by the lemmas beside it.
