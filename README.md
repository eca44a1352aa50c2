# Face login and registration for the CineVerse movie app, modelled in Dafny

CineVerse is a Next.js movie browser with a face-recognition gate. This project models
that gate and the catalogue logic around it.

- **Login page** (`LoginPage`): a per-frame detection loop. It anchors on the first box
  it sees, keeps the anchor while the face moves less than 50 px on each axis, and
  locks once the face has been held still for more than 800 ms. The lock hands that
  frame's descriptor to the login request. A failed login unlocks the face and zeroes
  the progress bar; a successful one switches the camera off.
- **Registration page** (`RegisterPage`): the e-mail check, and the 400 ms scan
  interval that adds 10 points per tick showing exactly one face and starts the
  snapshot capture once progress already stood at 100. Also the capture itself and
  `saveFace`'s ordered form checks.
- **Login API** (`LoginFaceApi`): checks the method and the embedding, then scans the
  stored users in order. It accepts the first user whose Euclidean distance to the
  probe is below 0.6.
- **Registration API** (`RegisterFaceApi`): checks the method and the required fields,
  then appends one user record to the collection.
- **Movie database URLs** (`Tmdb`): the category-to-language switch and the three
  request URLs.
- **Home page** (`HomePage`): the title search, the list update (page 1 replaces,
  later pages append), the category and page state, and the section title.

Time, the detector's output, the camera and every request's outcome are parameters.
Each frame and tick comes with its timestamp and its detections. Each request comes with
the reply it received or the fact that it threw (`LoginReply`, `Reply`, `Store`,
`Database`, `fetchThrows`). The stateful pages and the user collection are classes with
the fields the source keeps. The decisions they make are value-level functions of the
old state, and the lemmas are about those functions:

- `Advance` and `Run` give the login lock;
- `TickOutcome` and `ScanRun` give the registration scan;
- `FirstMatch` gives the login scan.

The model follows the code as written, including these points a reader might not expect:

- **First match, not nearest.** The login scan breaks at the first user under the
  threshold. It does not search for the nearest user (`LoginFaceApi.FirstNotNearest`).
- **Progress is not monotone.** Progress drops while the anchor stays put: the
  anchoring frame shows 10, and a still frame 30 ms later shows 3
  (`LoginPage.ProgressDropsAfterAnchoring`).
- **The lock needs strictly more than 800 ms.** A frame exactly 800 ms after the
  anchor does not lock (`LoginPage.HoldScenario`).
- **A start stamp of 0 never locks.** A timestamp of 0 is falsy in JavaScript, so it
  reads as "no start" and the elapsed time stays 0 (`LoginPage.Elapsed`,
  `LoginPage.HeldStill`).
- **A clock that steps back gives a negative bar.** Frames are stamped with wall-clock
  time, and nothing guards against it stepping back. A still frame stamped before the
  anchor's start gives a negative elapsed time and a negative progress, and no lock
  (`LoginPage.BackwardClockGivesNegativeProgress`). So `LoginScreen.Valid` keeps only
  the upper bound and the anchor/start pairing, and `TrackerValid` adds `0 <= progress`,
  which holds while the clock does not run backwards (`LoginPage.RunValid`).
- **Mismatched descriptor lengths are a server error.** They do not count as "no
  match".

Two further consequences of the code are stated as lemmas:

- A failed login keeps the anchor and its start time, so the next still frame locks
  and posts again at once. The user gets no fresh dwell before the next attempt
  (`LoginPage.RelockAfterFailedLogin`).
- The registration scan counts exactly eleven consecutive single-face ticks before it
  captures (`RegisterPage.CaptureNeedsSteadyRun`). The capturing tick removes the
  interval. If the capture then finds no face, the camera stays on and the face stays
  unlocked. None of the following changes that state:
  - `StartCamera` (the Start Camera button) acts only while the camera is off;
  - `ScanTick` acts only while the interval is installed;
  - `Rearm` runs only when the camera, models or lock change.
  The page stays on the error dialog with no scan running. The contracts of
  `CaptureSnapshot`, `StartCamera` and `ScanTick` state each of these steps.

## Model

| member | source | states |
|---|---|---|
| Faces.SquaredDistance | src/pages/api/login-face.ts:20 | the squared Euclidean distance of two equal-length descriptors is never negative |
| Faces.DistanceSymmetric | src/pages/api/login-face.ts:20 | the distance does not depend on argument order |
| Faces.DistanceToSelf | src/pages/api/login-face.ts:20 | a descriptor is at distance 0 from itself |
| LoginPage.Still | src/pages/login.tsx:58-61 | a face is held still when its box moved less than 50 px from the anchor on both axes |
| LoginPage.Elapsed | src/pages/login.tsx:62 | no start, or a start stamp of 0, gives 0; a truthy start gives exactly `now - start`, which is never negative when the clock has not run backwards |
| LoginPage.StillProgress | src/pages/login.tsx:62-63 | the bar shows a tenth of the elapsed milliseconds, rounded down and capped at 100; a negative elapsed time gives a negative bar |
| LoginPage.Advance | src/pages/login.tsx:43-74 | one loop pass: a locked face changes nothing; no face resets everything; the first face anchors at 10; a still face keeps the anchor and locks iff more than 800 ms have elapsed, handing over exactly that frame's descriptor; movement re-anchors and lowers progress by 5, not below 0; progress never passes 100 and the anchor keeps its start time whatever the clock does, and progress stays within 0..100 while the clock does not run backwards |
| LoginPage.AfterFailedLogin | src/pages/login.tsx:100-134 | a failed or throwing login unlocks and zeroes progress, while the anchor and start time stay |
| LoginPage.RelockAfterFailedLogin | src/pages/login.tsx:109-110 | after a failed login, the next still frame relocks and hands over its descriptor at once |
| LoginPage.ProgressDropsAfterAnchoring | src/pages/login.tsx:51-63 | progress falls from 10 to 3 on a still frame right after anchoring |
| LoginPage.Run | src/pages/login.tsx:31-80 | the tracker after the loop has seen a run of frames: an anchor always has its start time, progress is at most 100, and a lock shows a full bar |
| LoginPage.BackwardClockGivesNegativeProgress | src/pages/login.tsx:58-63 | a still frame stamped 100 ms before the anchor's start leaves the bar at -10 and the face unlocked |
| LoginPage.RunValid | src/pages/login.tsx:31-80 | with timestamps that never decrease, progress stays within 0..100 and the start time is never after the newest frame |
| LoginPage.AnchorHistory | src/pages/login.tsx:50-74 | while unlocked, the anchor is the frame that began the current unbroken still run, and every later frame stayed within tolerance of it |
| LoginPage.LockNeedsDwell | src/pages/login.tsx:58-69 | a locked tracker implies a run of still frames from a truthy start stamp, spanning more than 800 ms |
| LoginPage.HeldStill | src/pages/login.tsx:58-69 | for frames all still against the first one, the anchor stays the first frame, and the lock holds iff its stamp is truthy and some frame is more than 800 ms later |
| LoginPage.HoldScenario | src/pages/login.tsx:61-66 | a box held at 200 ms steps is not locked 800 ms in and is locked at 1000 ms |
| LoginPage.LoginAccepted | src/pages/login.tsx:100 | a login succeeds iff the reply arrived with an ok status and `success` set |
| LoginPage.FailureNotice | src/pages/login.tsx:100-134 | a thrown request shows "Error"/"Something went wrong"; a rejected one shows "Login Failed" with the server message, or "Face not recognized" when there is none |
| LoginPage.LoginScreen.constructor | src/pages/login.tsx:9-16 | models not loaded, camera off, not loading, tracker in its initial state |
| LoginPage.LoginScreen.ModelsReady | src/pages/login.tsx:18-29 | loading the models turns the camera on and leaves the tracker alone |
| LoginPage.LoginScreen.Observe | src/pages/login.tsx:31-80 | for any timestamp, with the camera on and models loaded, the tracker moves exactly as `Advance` says and the locking descriptor is returned; otherwise nothing changes; progress stays a percentage when the frame is not stamped before the anchor's start |
| LoginPage.LoginScreen.AutoLogin | src/pages/login.tsx:88-138 | a request in flight makes it a no-op; otherwise it posts exactly the descriptor it was handed; an accepted login shows "Welcome name" and stops the camera; any failure applies `AfterFailedLogin` and shows `FailureNotice`; loading is cleared afterwards |
| RegisterPage.IsValidEmailCharacterized | src/pages/register.tsx:28-29 | the e-mail test holds iff the address is a non-empty local part, "@", and a domain holding a "." with non-empty text on both sides, where no part contains "@" or whitespace |
| RegisterPage.IsValidEmail | src/pages/register.tsx:28-29 | the whole address matches the pattern, with its "@" and its "." at some positions; an address that passes has at least 5 characters |
| RegisterPage.TickOutcome | src/pages/register.tsx:91-107 | no face gives 0 and "Align your face"; several give 0 and "Multiple faces detected!"; one adds 10, or starts the capture at 100 when progress already stood at 100; progress stays a multiple of 10 in 0..100 |
| RegisterPage.ScanRun | src/pages/register.tsx:80-108 | the scan after a run of ticks from 0, stopping at the capture; progress stays a multiple of 10 in 0..100, and a capture holds 100 |
| RegisterPage.ScanCountsSteadyTicks | src/pages/register.tsx:80-108 | after any run of ticks, progress is 10 times the trailing single-face ticks, capped at 100; a tick captures iff it ends a run of at least 11 such ticks |
| RegisterPage.CaptureNeedsSteadyRun | src/pages/register.tsx:91-106 | the capture has fired iff some prefix of the ticks ends in 11 consecutive single-face ticks |
| RegisterPage.SteadyRunSeenStep | src/pages/register.tsx:91-106 | a steady run of eleven single-face ticks has been seen iff it was seen before the last tick or the last tick ends one |
| RegisterPage.SteadyFaceScenario | src/pages/register.tsx:97-106 | ten steady ticks reach 100 without capturing, and the eleventh captures |
| RegisterPage.CheckForm | src/pages/register.tsx:130-143 | the checks run in order ("Name & Email required", "Invalid Email", "Face scan required"); the form passes iff all hold, and then carries the entered name, e-mail and descriptor |
| RegisterPage.RegisterScreen.constructor | src/pages/register.tsx:13-26 | initial state: nothing loaded or locked, progress 0, "Align your face", empty form |
| RegisterPage.RegisterScreen.Rearm | src/pages/register.tsx:77-113 | the interval is installed exactly while the camera is on, the models are loaded and no face is locked |
| RegisterPage.RegisterScreen.ModelsReady | src/pages/register.tsx:32-38 | loading the models marks them loaded and re-evaluates the interval; nothing else changes |
| RegisterPage.RegisterScreen.StartCamera | src/pages/register.tsx:188-195 | with the camera off and no snapshot, the camera turns on, the scan resets and the interval re-arms; otherwise nothing changes |
| RegisterPage.RegisterScreen.ScanTick | src/pages/register.tsx:80-108 | an installed interval with a ready video applies `TickOutcome` and removes itself when it captures; otherwise nothing changes |
| RegisterPage.RegisterScreen.CaptureSnapshot | src/pages/register.tsx:41-62 | no video ready: nothing; no face: an error dialog; no screenshot: nothing; otherwise the image and descriptor are kept, the face locks and the camera stops |
| RegisterPage.RegisterScreen.StopCamera | src/pages/register.tsx:116-126 | the interval is removed and the camera switched off |
| RegisterPage.RegisterScreen.SaveFace | src/pages/register.tsx:129-179 | posts exactly the registration `CheckForm` passes, or shows its first error; a POST that does not throw clears the capture and the form whatever the status, and shows the success dialog; a thrown POST shows "Failed to save data" and keeps everything |
| LoginFaceApi.Judge | src/pages/api/login-face.ts:19-21 | a user without an embedding is skipped; a length mismatch throws; a user is a match iff the distance is below the threshold |
| LoginFaceApi.Passes | src/pages/api/login-face.ts:19-21 | the loop moves past a user iff it has no embedding, or one of the probe's length at least the threshold away |
| LoginFaceApi.FirstMatch | src/pages/api/login-face.ts:18-25 | the scan stops at the first user that matches or throws, and every user before it was passed over; "no match" means every user was passed over |
| LoginFaceApi.ScanResponse | src/pages/api/login-face.ts:27-32 | a match gives 200 with that user's name; no match gives 401 "Face not recognized"; a throw gives 500 "Server error" |
| LoginFaceApi.Handler | src/pages/api/login-face.ts:6-34 | 405 for a non-POST, 500 when the database is unreachable, 400 without an embedding, 500 when the query fails; otherwise the response `ScanResponse` gives for where `FirstMatch` stops |
| LoginFaceApi.MatchScenarios | src/pages/api/login-face.ts:15-29 | a probe near the first of two enrolled users matches that user; a probe far from both is not recognized |
| LoginFaceApi.FirstNotNearest | src/pages/api/login-face.ts:18-25 | the first user within the threshold is accepted even when a later user is nearer |
| RegisterFaceApi.HasRequiredFields | src/pages/api/register-face.ts:21 | a request passes the field check iff the record it would save is complete |
| RegisterFaceApi.UserStore.constructor | src/pages/api/register-face.ts:26-32 | the collection starts empty, and so holds only complete records |
| RegisterFaceApi.UserStore.Handler | src/pages/api/register-face.ts:5-45 | 405 for a non-POST; 500 with the error when connecting fails; 400 "Missing required fields"; 500 with the error when saving fails; otherwise 201, with the one new record appended; the collection grows iff the status is 201, and only complete records are stored |
| RegisterFaceApi.RegisteredFaceIsFound | src/pages/api/register-face.ts:26-36 | a login with the embedding just registered, at the end of the collection, is never "Face not recognized" |
| Tmdb.Language | src/utils/tmdb.ts:9-24 | hollywood gives "en", bollywood "hi", punjabi "pa", and every other category no language |
| Tmdb.NatToString | src/utils/tmdb.ts:26 | a page number prints as decimal digits without leading zeros |
| Tmdb.ParseNatToString | src/utils/tmdb.ts:26 | the printed digits read back as the same number |
| Tmdb.IntToString | src/utils/tmdb.ts:26 | an integer prints with a leading "-" iff it is negative |
| Tmdb.IntToStringInjective | src/utils/tmdb.ts:26 | distinct integers print differently |
| Tmdb.PageOrDefault | src/utils/tmdb.ts:5-8 | an absent page is page 1 |
| Tmdb.DiscoverBase | src/utils/tmdb.ts:26 | the discover query template with the key and the page; it has no contract of its own, and `Tmdb.DiscoverSortsByPopularity` states its properties |
| Tmdb.LanguageSuffix | src/utils/tmdb.ts:27 | the language parameter, appended only when the language is truthy; it has no contract of its own, and `Tmdb.DiscoverUrl` states how it joins the URL |
| Tmdb.DiscoverSortsByPopularity | src/utils/tmdb.ts:26 | every discover query starts with the discover path and the key, and ends with the popularity sort |
| Tmdb.DiscoverUrl | src/utils/tmdb.ts:9-27 | the URL is the popularity-sorted discover query for the page, followed by the language parameter exactly when the category has a language |
| Tmdb.DiscoverUrlParts | src/utils/tmdb.ts:26-27 | the URL splits into fixed head, printed page, and fixed tail plus language |
| Tmdb.DiscoverPageInjective | src/utils/tmdb.ts:26 | different pages of one category give different URLs |
| Tmdb.DiscoverLanguageInjective | src/utils/tmdb.ts:11-27 | equal URLs for one page imply the same language |
| Tmdb.DetailsUrl | src/utils/tmdb.ts:34-37 | the details URL is the movie path, then the printed id and the key |
| Tmdb.VideosUrl | src/utils/tmdb.ts:40-45 | the videos URL is the movie path, then `/videos`, the key and US English |
| Tmdb.DetailsUrlInjective | src/utils/tmdb.ts:35 | different movies have different details URLs |
| Tmdb.VideosUrlInjective | src/utils/tmdb.ts:42 | different movies have different videos URLs |
| Tmdb.DiscoverExamples | src/utils/tmdb.ts:5-27 | the default page equals page 1, and page 2 of hollywood asks for English originals |
| HomePage.LowerChar | src/pages/index.tsx:50 | ASCII capitals are lowered, everything else is kept |
| HomePage.UpperChar | src/pages/index.tsx:85 | ASCII small letters are raised, everything else is kept |
| HomePage.Lower | src/pages/index.tsx:50 | lower-casing keeps the length and works character by character |
| HomePage.Contains | src/pages/index.tsx:50 | `includes` holds when the needle occurs at some position, so a contained string is never longer |
| HomePage.EmptyNeedleContained | src/pages/index.tsx:50 | the empty string is contained in every string |
| HomePage.Matches | src/pages/index.tsx:49-51 | the lower-cased title contains the lower-cased search, so no title matches a longer search |
| HomePage.EmptySearchMatches | src/pages/index.tsx:49-51 | an empty search matches every title |
| HomePage.FilterMovies | src/pages/index.tsx:49-51 | the result is a subsequence of the list, holding exactly the movies whose lower-cased title contains the lower-cased search |
| HomePage.ResultsOf | src/pages/index.tsx:20-21 | a reply without `results` contributes no movies, and one with them contributes exactly those |
| HomePage.FilterAppend | src/pages/index.tsx:49-51 | filtering a concatenation is concatenating the filters |
| HomePage.EmptySearchKeepsAll | src/pages/index.tsx:49-51 | an empty search shows every movie |
| HomePage.MergeResults | src/pages/index.tsx:20-21 | page 1 replaces the list; any other page appends to it |
| HomePage.LoadedPagesConcatenate | src/pages/index.tsx:16-46 | loading pages 1, 2, ..., n in order yields their results back to back |
| HomePage.SectionTitle | src/pages/index.tsx:83-85 | "all" gives "All Movies"; any other category gives the category with its first letter raised and " Movies" after it |
| HomePage.HomeScreen.constructor | src/pages/index.tsx:9-13 | empty search, empty list, page 1, category "all" |
| HomePage.HomeScreen.Visible | src/pages/index.tsx:49-51 | the grid shows exactly the list's movies whose titles match the search, in list order |
| HomePage.HomeScreen.SetSearch | src/pages/index.tsx:63 | the search box sets the search text |
| HomePage.HomeScreen.Load | src/pages/index.tsx:16-27 | a completed request merges its results (missing results count as none), and a later page keeps the visible movies and adds its own matching ones after them; a thrown one leaves the list |
| HomePage.HomeScreen.Mount | src/pages/index.tsx:30-34 | the saved category, or "all" when none or an empty one is saved, is selected and its first page replaces the list |
| HomePage.HomeScreen.ChangeCategory | src/pages/index.tsx:37-41 | the category's first page replaces the list and the page goes back to 1 |
| HomePage.HomeScreen.LoadMore | src/pages/index.tsx:113 | the page goes up by one |
| HomePage.HomeScreen.PageChanged | src/pages/index.tsx:44-46 | a page after the first is fetched and appended, and its matching movies appear after those already visible; page 1 fetches nothing |

## Left out

- Face detection: bounding boxes, descriptors and face counts are inputs, and the detector's models and options are not modelled.
- Timing and scheduling: `requestAnimationFrame`, `setInterval` and the React effect machinery are out. Each loop pass, tick and effect is a method call, and the caller chooses their order. Overlapping asynchronous loads and their completion order are not modelled.
- I/O: `fetch`, JSON parsing, the sweetalert2 dialogs (kept only as their titles and texts), `localStorage` (input to `Mount`; the write in the category effect is out) and the camera stream are out.
- The MongoDB connection (`lib/mongo.ts`) and the `User` model are not part of this model. The database's outcomes are inputs (`Store`, `Database`), and the collection is a sequence of `UserRecord`.
- Faces.SquaredDistance: works on exact reals and compares squared distances with 0.36. The source takes a floating-point square root and compares with 0.6, so a distance within rounding error of the threshold can fall on the other side.
- LoginPage.StillProgress: computes `elapsed / 10` on integers. The source floors the double `elapsed / 1000 * 100`, whose rounding can land one below (0.29 * 100 is 28.999999999999996 in double arithmetic).
- LoginPage.LoginScreen.AutoLogin: an absent `name` in an accepted reply is modelled as "". JavaScript would print "undefined".
- Fields the source reads as JavaScript truthiness (an absent or empty string, a missing embedding) are modelled as `""` and `None`. Any stored embedding, even an empty one, counts as present, as a JavaScript array does.
- HomePage.Lower, HomePage.LowerChar, HomePage.UpperChar, HomePage.FilterMovies, HomePage.SectionTitle: only ASCII letters change case. The source's `toLowerCase`/`toUpperCase` follow Unicode, where one character can map to several ("ß" upper-cases to "SS"). So the search can match differently outside ASCII, and `SectionTitle`'s length would not hold there.
- Tmdb.IntToString: prints integers in plain decimal. JavaScript prints numbers of 1e21 and above in exponent form, and fractional pages are not modelled. `API_KEY` is a parameter.
- The loading flags on the home page and the disabled state of buttons are display state and are not modelled. The login and registration loading flags are modelled.
- The movie details page (`src/pages/movie/[id].tsx`), `MovieCard`, `Footer`, `_document` and the static movie list are not part of this model. The registration form's input setters are plain assignments and are not modelled separately.
