# Portfolio site core, modelled in Dafny

This project models the core of a Next.js portfolio site with an admin
area. It covers five parts:

- **Session and access control.** The signed `admin-session` cookie, the
  page-level middleware with its route matcher, the login, me and logout
  routes, and the client-side expiry notification.
- **Images.** Storage paths and their parsing back, file validation, the
  unused-image sweep, the upload route, and the two drag-and-drop
  uploaders.
- **Content APIs.** Listing with filters and pagination, creating blogs
  and projects, reading, adding and updating settings, and the contact
  form.
- **The admin dashboard.** The session guard, the "time ago" phrase,
  feature names, status tallies and the activity feed.
- **Editing helpers and the gallery.** Slugs, read time and tags in the
  blog editor, the settings panel, the searchable and toggleable project
  and blog lists, and the lightbox gallery on a project page.

Each source file becomes one Dafny module, or two where it holds two
concerns. Code that only computes a value becomes functions over
datatypes. React components and route handlers that change state become
classes. Their fields are the component's state variables, or the
database table and the folder a handler writes. Each method sets a field
to a pure updater of the old state, and the updater is the function the
lemmas talk about.

Shared helpers live in three modules:

- `Opt`: an `Option` type.
- `Text`: ASCII string helpers.
- `Cookies`: a mutable cookie jar and the `Set-Cookie` attributes.

Everything outside the program enters as a parameter:

- the clock, as milliseconds since the epoch;
- the environment variables;
- the JWT signer and verifier, as a `Codec` pair of functions;
- the password check;
- the database tables, as sequences of rows;
- the public folder: for the upload route, a map from normalised absolute
  paths to file sizes; for the unused-image sweep, a map from directory
  paths to their listings;
- the outcome of each network call.

## Model

| member | source | states |
|---|---|---|
| Cookies.CookieJar.constructor | lib/session.ts:45 | the server cookie store starts with the given entries |
| Cookies.CookieJar.Delete | lib/session.ts:71 | deleting a cookie removes that name only; every other entry keeps its value |
| Cookies.ResponseCookies.constructor | app/api/auth/logout/route.ts:7 | a fresh response sets no cookies |
| Cookies.ResponseCookies.Set | app/api/auth/logout/route.ts:10-16 | setting a cookie on a response records that directive under the name and leaves the others |
| Session.Secret | lib/session.ts:5-7 | the signing key is `NEXTAUTH_SECRET` when it is set and non-empty, otherwise `fallback-secret-key` |
| Session.Seconds | lib/session.ts:23 | the whole-second clock is the floor of the millisecond clock over 1000 |
| Session.Claims | lib/session.ts:20-24 | the signed claims keep the four identity fields and set `exp` to the current second plus 3600 |
| Session.CreateSession | lib/session.ts:20-42 | with a sound codec, the minted token verifies, at any later clock reading, to exactly the claims built from the caller's identity and the minting time while the clock's second is before `exp`, and to `None` from `exp` on |
| Session.VerifySession | lib/session.ts:35-42 | with a sound codec, a token signed under the secret verifies to exactly the signed claims while the current second is before their `exp` and to `None` once it is not; a failure is `None`, never an exception; with a verifier that checks `exp`, a verified session is never expired |
| Session.MintThenVerify | lib/session.ts:20-42 | a token from `createSession` verifies to the caller's identity with `exp` one hour past the minting second while the clock's second is before that `exp`, and to `None` from that second on |
| Session.TokenOf | lib/session.ts:56-60 | a token is present exactly when the `admin-session` cookie exists and is non-empty, and it is that cookie's value |
| Session.GetSessionFromRequest | lib/session.ts:55-63 | a missing or empty cookie gives `None`; otherwise the answer is the verifier's answer for the cookie under the secret at the current time |
| Session.VerifiedSessionIsLive | lib/session.ts:35-42 | with a verifier that checks `exp`, a session read from a request is live exactly when it is present, so the separate `isSessionExpired` test never refuses one |
| Session.AbsentCookieNeedsNoVerifier | lib/session.ts:58-60 | without the cookie every codec gives `None`, so no verification happens |
| Session.GetSession | lib/session.ts:44-53 | reading the server cookie store gives the same answer as reading a request with those cookies |
| Session.ExpiryIsStrict | lib/session.ts:65-67 | a session is still live during the second `exp` and expired one second later |
| Session.IsSessionExpired | lib/session.ts:65-67 | a session is expired when the whole-second clock is past its `exp` |
| Session.ExpiryIsMonotone | lib/session.ts:65-67 | once a session is expired it stays expired at every later instant |
| Session.FreshSessionLivesAnHour | lib/session.ts:20-24 | a freshly minted session is not expired at any instant up to and including its 3600th second |
| Session.ClearSession | lib/session.ts:69-72 | logging out server-side removes the `admin-session` cookie and keeps every other cookie |
| AccessGate.Middleware | middleware.ts:5-40 | the decision is pass, redirect to `/login` or redirect to `/admin/dashboard`. Under `/admin` a request passes exactly when its session is live and is otherwise sent to `/login`. `/login` redirects to the dashboard exactly when the session is live. Every other path passes. |
| AccessGate.AdminBranchLoginTestIsDead | middleware.ts:9-13 | no path starting with `/admin` equals `/login`, so the early exit inside the admin branch never fires |
| AccessGate.OtherPathsIgnoreSession | middleware.ts:39 | paths outside `/admin*` and `/login` pass whatever cookies, secret, codec or clock come with the request |
| AccessGate.AtMostOneRedirect | middleware.ts:18-34 | with the session state fixed, the target of any redirect passes the gate, so redirects never loop |
| AccessGate.AdministratorIsGated | middleware.ts:9 | the prefix test also gates `/administrator`: without a live session it redirects to `/login` |
| AccessGate.Gate | middleware.ts:42-53 | a path the matcher does not intercept passes untouched; an intercepted path gets the middleware's decision |
| AccessGate.Excluded | middleware.ts:51 | the matcher's negative look-ahead: the rest of the path begins `api`, `_next/static` or `_next/image`, or is `favicon.ico` with the dot as a wildcard |
| AccessGate.Intercepted | middleware.ts:42-53 | the matcher takes a path that begins with `/` and whose rest is not excluded |
| AccessGate.ApiRoutesBypassGate | middleware.ts:51 | every path beginning `/api`, including `/apiary`, passes the gate with or without a session |
| AccessGate.FaviconWildcard | middleware.ts:51 | the unescaped `.` in `favicon.ico` is a wildcard, so `/faviconXico` is also kept out of the gate |
| AccessGate.ConsoleIsIntercepted | middleware.ts:51 | the matcher does intercept `/admin/dashboard`, so the console is protected |
| LoginRoute.Project | app/api/auth/login/route.ts:59-64 | the user a reply exposes carries id, username, email and role, never the password hash |
| LoginRoute.Login | app/api/auth/login/route.ts:5-74 | the replies are checked in order. Unparseable JSON gives 500. A missing or empty field gives 400 before the store is read. A failing store gives 500. An unknown user gives 401 "Invalid credentials". An inactive account gives 401 "Account is deactivated". A wrong password gives 401 "Invalid credentials". Otherwise 200 with the public user. No outcome sets a cookie. |
| LoginRoute.InactiveBeforePassword | app/api/auth/login/route.ts:29-45 | an inactive account gets the same "deactivated" reply whatever password is offered |
| LoginRoute.NoAccountEnumeration | app/api/auth/login/route.ts:22-45 | an unknown username and a wrong password give identical reply bodies |
| MeRoute.Me | app/api/auth/me/route.ts:4-23 | the reply is 401 exactly when the request has no live session; otherwise 200 with the session's id, username, email and role; no cookie is set |
| MeRoute.MintedSessionIsAccepted | app/api/auth/me/route.ts:6-23 | a token minted by `createSession` under the configured secret and used strictly before its `exp` second yields 200 with the minting identity |
| MeRoute.MintedSessionRefusedAtExpiry | app/api/auth/me/route.ts:6-13 | the same token presented at or after its `exp` second is refused by the verifier and gets 401 |
| MeRoute.ExpiredSessionRefused | app/api/auth/me/route.ts:8-13 | a verified session whose `exp` lies ten seconds in the past gets 401, even from a verifier that does not check `exp` |
| LogoutRoute.ClearingCookie | app/api/auth/logout/route.ts:10-16 | the cookie is cleared with an empty value, `Max-Age=0`, path `/`, httpOnly and SameSite=Lax, and it is `Secure` exactly in production |
| LogoutRoute.LogoutResponse.constructor | app/api/auth/logout/route.ts:7 | the response starts as 200 `{success: true}` with no cookies |
| LogoutRoute.Logout | app/api/auth/logout/route.ts:6-19 | logout answers 200 `{success: true}` and sets exactly one cookie, `admin-session`, with the clearing attributes |
| ExpiryWatch.Remaining | components/session-expiry-notification.tsx:21-23 | the remaining time is the reported expiry minus now; a missing or zero expiry counts as a full hour (3600) |
| ExpiryWatch.Poll | components/session-expiry-notification.tsx:15-33 | a poll shows the warning with the remaining time exactly when the fetch succeeded and at most 600 seconds remain; failures and longer times change nothing; a poll never hides a shown warning |
| ExpiryWatch.Tick | components/session-expiry-notification.tsx:42-57 | one countdown second decrements `timeLeft`; at 1 it hides the warning, sets 0 and calls `logout()`; at 0 or below nothing runs; a running countdown strictly decreases |
| ExpiryWatch.CountdownRunning | components/session-expiry-notification.tsx:42-57 | after fewer than `t` seconds a countdown from `t` shows `t - k` and has not logged out |
| ExpiryWatch.CountdownExpires | components/session-expiry-notification.tsx:42-57 | however many seconds at or beyond `t` pass, a countdown from `t` ends hidden at 0 with exactly one `logout()` |
| ExpiryWatch.IdleCountdownStays | components/session-expiry-notification.tsx:43 | with `timeLeft` at or below 0 the countdown never runs and never logs out |
| ExpiryWatch.PollResultOf | components/session-expiry-notification.tsx:17-19 | a 2xx reply from `/api/auth/me` reaches the poll without a `sessionExpiry` field; any other status is a not-ok response |
| ExpiryWatch.RealPollsNeverWarn | components/session-expiry-notification.tsx:17-28 | because `/api/auth/me` never sends `sessionExpiry`, every real poll computes 3600 seconds left and leaves the state unchanged, so the warning never appears |
| ExpiryWatch.JsRem | components/session-expiry-notification.tsx:62 | JavaScript's `%` agrees with the mathematical remainder for non-negative operands; for a negative one it is the remainder of truncation toward zero, the one value in `(-b, 0]` that differs from the operand by a multiple of `b` |
| ExpiryWatch.LabelShape | components/session-expiry-notification.tsx:61-62 | for a non-negative count the label is the minutes, a colon and exactly two digits of seconds, and minutes and seconds recompose the count |
| ExpiryWatch.Label | components/session-expiry-notification.tsx:61-62 | the label is the floored minutes, a colon, and the seconds (JavaScript remainder) padded to two characters |
| ExpiryWatch.NineMinutesLabel | components/session-expiry-notification.tsx:72 | 540 seconds reads `9:00` |
| ExpiryWatch.NineMinuteWarning | components/session-expiry-notification.tsx:21-28 | an expiry 540 seconds ahead raises the warning with a countdown from 540 |
| ExpiryWatch.Notification.constructor | components/session-expiry-notification.tsx:10-11 | the component starts hidden, with `timeLeft` 0 and no logout |
| ExpiryWatch.Notification.CheckSessionExpiry | components/session-expiry-notification.tsx:15-33 | the component state after a poll is `Poll` of the old state, and no logout happens |
| ExpiryWatch.Notification.Second | components/session-expiry-notification.tsx:44-53 | the component state after one interval second is `Tick` of the old state; the logout counter goes up exactly when `Tick` reports a logout |
| ExpiryWatch.Notification.Rendered | components/session-expiry-notification.tsx:59-72 | something is rendered exactly when the warning is shown |
| LayoutShell.Layout | components/shared/LayoutShell.tsx:7-38 | before hydration every path gets the full chrome. After hydration a path renders bare exactly when it is `/login`, under `/login/`, `/admin` or under `/admin/`. The header, the footer and the `pt-16` padding always appear together. |
| LayoutShell.IsLogin | components/shared/LayoutShell.tsx:16 | a login path is `/login` itself or a path under `/login/` |
| LayoutShell.IsAdminRoute | components/shared/LayoutShell.tsx:18 | an admin path is `/admin` itself or a path under `/admin/` |
| LayoutShell.ServerRenderIgnoresPath | components/shared/LayoutShell.tsx:20-29 | the server render and the first client render agree for every path, so hydration cannot mismatch |
| LayoutShell.SegmentBoundaries | components/shared/LayoutShell.tsx:16-18 | the tests match whole path segments: `/administrator` and `/loginx` keep the chrome, while `/admin/dashboard` and `/login` do not |
| Gallery.NextIndex | components/views/projects/project-gallery.tsx:18 | next moves one image on and wraps from the last image to the first, always staying in range |
| Gallery.PrevIndex | components/views/projects/project-gallery.tsx:24-26 | previous moves one image back and wraps from the first image to the last |
| Gallery.NextPrevInverse | components/views/projects/project-gallery.tsx:16-28 | on every valid index, previous undoes next and next undoes previous |
| Gallery.NextTimesIsRotation | components/views/projects/project-gallery.tsx:16-20 | up to one full round, `k` presses of next move `k` places on, wrapping once past the end |
| Gallery.FullCircle | components/views/projects/project-gallery.tsx:16-20 | pressing next once per image returns to the starting image |
| Gallery.Shown | components/views/projects/project-gallery.tsx:104 | the lightbox shows the selected image when it exists and is non-empty, otherwise the placeholder |
| Gallery.CounterReadsBack | components/views/projects/project-gallery.tsx:143 | the counter `{position} / {total}` names one position and one total: two selections with equal counters are equal |
| Gallery.ProjectGallery.constructor | components/views/projects/project-gallery.tsx:14 | the gallery starts with the lightbox closed |
| Gallery.ProjectGallery.OpenMain | components/views/projects/project-gallery.tsx:46 | clicking the main image opens the lightbox at image 0 |
| Gallery.ProjectGallery.OpenThumbnail | components/views/projects/project-gallery.tsx:64-72 | clicking thumbnail `k` of the grid opens image `k + 1`, and the lightbox then shows the picture that thumbnail showed |
| Gallery.ProjectGallery.NextImage | components/views/projects/project-gallery.tsx:16-20 | with the lightbox closed nothing changes; otherwise the selection moves to `NextIndex`, staying valid |
| Gallery.ProjectGallery.PrevImage | components/views/projects/project-gallery.tsx:22-28 | with the lightbox closed nothing changes; otherwise the selection moves to `PrevIndex`, staying valid |
| Gallery.ProjectGallery.Close | components/views/projects/project-gallery.tsx:94 | the backdrop and the close button both close the lightbox |
| ImageUtils.ExtName | lib/image-utils.ts:33 | `path.extname` gives either the empty string or one dot followed by text with no dot and no slash |
| ImageUtils.ExtNameOfSegment | lib/image-utils.ts:33 | on the last segment (trailing slashes ignored), the extension is empty exactly when the segment has no dot, is `..` or has its only dot in front; otherwise it is the proper suffix from the last dot |
| ImageUtils.ExtNameOfAppended | lib/image-utils.ts:95-98 | appending an extension to a name that ends in neither `/` nor `.` makes that exactly the extension |
| ImageUtils.Subdir | lib/image-utils.ts:31-46 | exactly the five known kinds have a storage directory: thumbnails, gallery, logos, featured, content |
| ImageUtils.Suffix | lib/image-utils.ts:35 | a given index `i` adds `-{i+1}`; no index adds nothing |
| ImageUtils.GenerateImagePath | lib/image-utils.ts:22-47 | the path lies under `/images/{type}s/` and ends with the file name's extension |
| ImageUtils.IndexOnlyNumbersGalleryAndContent | lib/image-utils.ts:31-46 | for every kind other than gallery and content the index does not affect the path |
| ImageUtils.OnlyExtensionMatters | lib/image-utils.ts:22-47 | two file names with the same extension give the same storage path |
| ImageUtils.ValidateImageFile | lib/image-utils.ts:50-73 | a disallowed MIME type is reported with the allowed list. An allowed type is valid exactly when the size is at most `maxSizeMB` MiB, and otherwise gets the size message. |
| ImageUtils.SizeBoundary | lib/image-utils.ts:52-70 | with the defaults, a file of exactly 5 MiB passes and one byte more fails with "Maximum size: 5MB" |
| ImageUtils.TypeReportedBeforeSize | lib/image-utils.ts:56-61 | a file with a disallowed type that is also too large is reported for its type |
| ImageUtils.GenerateUniqueFilename | lib/image-utils.ts:90-99 | the name begins `{slug}-{kind}-` and ends with the original's extension |
| ImageUtils.UniqueFilenameIgnoresBaseName | lib/image-utils.ts:90-99 | the original base name never reaches the generated name; only its extension does |
| ImageUtils.UniqueFilenameKeepsExtension | lib/image-utils.ts:95-98 | the generated name has the same extension as the original |
| ImageUtils.SlugEnd | lib/image-utils.ts:123 | the lazy group ends at the first position from 1 on where `-{kind}` begins, with no line terminator before it |
| ImageUtils.SlugOf | lib/image-utils.ts:123-124 | a non-empty slug is a prefix of the file name and is followed by `-{kind}` |
| ImageUtils.GetImageInfo | lib/image-utils.ts:108-132 | a path with fewer than four `/`-separated parts gives null. Otherwise the type is "project" exactly when part 2 is `projects` and "blog" in every other case. The kind is part 3, the file name is the last part, and the slug is read from the file name. |
| ImageUtils.SlugOfStored | lib/image-utils.ts:122-124 | for a conforming slug, a name `{slug}-{kind}…` gives that slug back |
| ImageUtils.GetImageInfoOfStoredPath | lib/image-utils.ts:114-131 | parsing `/images/{dir}/{subdir}/{name}` reads back the section, the sub-directory and the name |
| ImageUtils.SlugOfStoredName | lib/image-utils.ts:22-47 | the file name `generateImagePath` builds gives its slug back |
| ImageUtils.GetImageInfoInvertsGenerateImagePath | lib/image-utils.ts:22-132 | round trip: parsing a generated path returns the content type, the slug and the stored file name; the kind comes back as its directory name (`thumbnails`, `logos`, …) rather than the kind itself |
| ImageUtils.GetImageUrl | lib/image-utils.ts:189-193 | one leading `/` is stripped and one added: the URL starts with `/`, a path that already starts with `/` comes back unchanged (so `//x` stays `//x`), and any other path gets one `/` in front |
| ImageUtils.GetImageUrlIdempotent | lib/image-utils.ts:189-193 | normalising a display URL again changes nothing |
| ImageUtils.OptimizedUrlIgnoresHints | lib/image-utils.ts:196-207 | width, height and quality do not affect the optimised URL; it is the display URL |
| ImageUtils.GetOptimizedImageUrl | lib/image-utils.ts:196-207 | the optimised URL is the display URL; the hints are unused |
| ImageCleanup.Deleted | lib/image-utils.ts:151-158 | the path of every listed file that is not in use is deleted, and a sweep deletes at most as many paths as the listing holds |
| ImageCleanup.Kept | lib/image-utils.ts:151-158 | the kept files come from the listing, and a listed file is kept exactly when it is in use; kept and deleted together account for the listing |
| ImageCleanup.KeptAreUsed | lib/image-utils.ts:151-158 | every kept file parses to a slug in use, and every deleted path is a listed file whose parsed slug is not in use |
| ImageCleanup.SweepOfUsedIsIdentity | lib/image-utils.ts:151-158 | a listing of only used files loses nothing |
| ImageCleanup.SweepSectionCleans | lib/image-utils.ts:146-160 | after a section sweep each of its directories holds only used files, and no directory appears or disappears |
| ImageCleanup.SweepSectionOfClean | lib/image-utils.ts:146-160 | sweeping directories that are already clean changes nothing and deletes nothing |
| ImageCleanup.SweepSectionFrame | lib/image-utils.ts:168-182 | a section sweep leaves every directory outside its own sub-directories untouched |
| ImageCleanup.CleanupIsIdempotent | lib/image-utils.ts:135-186 | a second cleanup with the same slugs deletes nothing and leaves the folder as the first run left it |
| ImageCleanup.UnusedBySlug | lib/image-utils.ts:152-153 | a file is unused exactly when its parsed slug is not among the slugs in use; a listed file is kept exactly when its slug is in use, and otherwise its path is deleted |
| ImageCleanup.NonconformingNamesAreDeleted | lib/image-utils.ts:123-124 | a listed file not named `{slug}-{kind}…` parses to slug `''`, so when `''` is not a slug in use it is not kept and its path is deleted |
| ImageCleanup.Unused | lib/image-utils.ts:150-153 | a file is unused when its path parses and the parsed slug is not in use |
| ImageCleanup.SweepDir | lib/image-utils.ts:148-158 | one sub-directory's sweep replaces its listing by the kept files and reports the deleted paths; a missing directory is skipped |
| ImageCleanup.SweepSection | lib/image-utils.ts:144-160 | a section's sweep visits its sub-directories in order and reports their deleted paths in that order |
| ImageCleanup.Cleanup | lib/image-utils.ts:135-186 | the cleanup sweeps the project directories with the project slugs, then the blog directories with the blog slugs |
| ImageCleanup.DirOfInjective | lib/image-utils.ts:146-147 | two sub-directories of one section have one directory path only when they are the same |
| ImageCleanup.SweepDirKeepsUsed | lib/image-utils.ts:148-158 | a used file stays listed in its directory whichever sub-directory is swept |
| ImageCleanup.SweepSectionKeepsUsed | lib/image-utils.ts:144-160 | a used file stays listed in its directory after a section sweep |
| ImageCleanup.CleanupKeepsUsed | lib/image-utils.ts:135-186 | the cleanup never removes a file whose slug is in use, in either section |
| ImageCleanup.PublicImages.constructor | lib/image-utils.ts:142-143 | the folder model starts with the given directory listings |
| ImageCleanup.PublicImages.CleanSubdir | lib/image-utils.ts:146-159 | sweeping one sub-directory unlinks exactly the `Deleted` files, keeps the `Kept` ones in listing order, and returns the deleted paths; a missing directory is skipped |
| ImageCleanup.PublicImages.CleanSection | lib/image-utils.ts:144-160 | a section sweep visits its sub-directories in order with the result of `SweepSection` |
| ImageCleanup.PublicImages.CleanupUnusedImages | lib/image-utils.ts:135-186 | the folder after the cleanup and the returned paths (projects first, then blogs) are those of `Cleanup` |
| UploadRoute.PublicFolder.constructor | app/api/upload/route.ts:36 | the folder model starts with the given files |
| UploadRoute.TargetPath | app/api/upload/route.ts:26-33 | an accepted upload is written under `/images/{type}s/` and keeps the uploaded file's extension |
| UploadRoute.Normalize | app/api/upload/route.ts:36 | the segments `path.join` resolves to: plain segments stay plain, and the path grows by at most one segment per input segment |
| UploadRoute.LeadingSlashIgnored | app/api/upload/route.ts:36 | `path.join` gives `/images/x.png` and `images/x.png` one location |
| UploadRoute.DotDotCancels | app/api/upload/route.ts:77 | a segment followed by `..` cancels out, so `a/../x` names the same file as `x` |
| UploadRoute.ParentEscapesPublic | app/api/upload/route.ts:77-87 | the path is not confined to `public`: `/../{name}` names a file in the working directory itself, which the unauthenticated `DELETE` then removes |
| UploadRoute.PublicFolder.Post | app/api/upload/route.ts:6-64 | a missing file, type, kind or slug gives 400 with the fields message. A file failing the default validation gives 400 with its error. A filesystem failure gives 500. In these cases the folder is unchanged. Otherwise the file is written at the generated path, replacing any file there, and the reply is 200 with that URL, the generated name, the size and the kind. |
| UploadRoute.PublicFolder.Delete | app/api/upload/route.ts:66-103 | a missing path gives 400; an absent file, or a path ending in `/`, gives 404; an unlink failure gives 500, with the folder unchanged. Otherwise the file is removed, every other file stays, and the reply is 200. |
| UploadRoute.TrailingSlashSameLocation | app/api/upload/route.ts:77-85 | a trailing `/` names the same normalised location, yet `existsSync` of a file path with a trailing separator is false, which is why `Delete` answers 404 for it |
| UploadRoute.NormalizeAppend | app/api/upload/route.ts:77 | resolving `a` then `b` gives the same segments as resolving `a + b` |
| UploadRoute.ServerLimitIsFiveMegabytes | app/api/upload/route.ts:23 | the server validates with the 5 MB default, so a file the client's larger limit admits is still refused |
| UploadRoute.UploadedUrlParsesBack | app/api/upload/route.ts:32-33 | the URL an upload is stored at parses back into its content type, directory and slug |
| UploadRoute.UploadIsUnauthenticated | app/api/upload/route.ts:6-15 | `/api/upload` lies outside the page gate, so a request with no cookies reaches the handler, and the handler never checks a session |
| UploadEntries.FailureMessage | components/ui/image-upload.tsx:114-117 | a refused upload is reported with the body's `error` when it is non-empty and with "Upload failed" otherwise; a thrown fetch is reported with its own message |
| UploadEntries.Bumped | components/ui/image-upload.tsx:101 | a progress tick adds 10 but never goes past 90 |
| UploadEntries.Fresh | components/ui/image-upload.tsx:75-79 | each valid file gets one entry, in order, at progress 0, uploading, with no error |
| UploadEntries.TickFile | components/ui/image-upload.tsx:97-105 | one interval tick bumps the progress of that file's uploading entries only; every other entry is unchanged |
| UploadEntries.Ticks | components/ui/image-upload.tsx:97-105 | `n` interval ticks of one file keep the number of entries |
| UploadEntries.SucceedFile | components/ui/image-upload.tsx:122-128 | success sets every entry of that file to progress 100 and succeeded; the others are unchanged |
| UploadEntries.FailFile | components/ui/image-upload.tsx:140-150 | failure marks every entry of that file errored with the message and keeps its progress; the others are unchanged |
| UploadEntries.Step | components/ui/image-upload.tsx:97-150 | one upload's ticks followed by its success or failure keep the number of entries |
| UploadEntries.RemoveFile | components/ui/image-upload.tsx:170-172 | removal drops exactly the entries of that file, keeps every other entry and adds none |
| UploadEntries.FreshIsWellFormed | components/ui/image-upload.tsx:75-79 | new entries satisfy the progress invariant: an uploading entry is between 0 and 90, a succeeded one at 100 |
| UploadEntries.UpdatesKeepWellFormed | components/ui/image-upload.tsx:97-150 | every update (tick, any number of ticks, success, failure, removal) keeps the progress invariant |
| UploadEntries.RemoveKeepsWellFormed | components/ui/image-upload.tsx:134-138 | removal keeps the progress invariant |
| UploadEntries.ProgressCurve | components/ui/image-upload.tsx:97-105 | a fresh entry shows `min(10 n, 90)` after `n` ticks |
| UploadEntries.RemoveFileAppend | components/ui/image-upload.tsx:136 | removal keeps the other entries in order: it distributes over concatenation |
| UploadEntries.RemoveFileOfAbsent | components/ui/image-upload.tsx:136 | removing a file with no entries leaves the list as it is |
| UploadEntries.RemoveFileIdempotent | components/ui/image-upload.tsx:134-138 | the delayed removal after a manual removal changes nothing more |
| MultiUpload.ValidFiles | components/ui/image-upload.tsx:63-70 | the kept files are exactly the dropped files that pass `validateImageFile` with the component's limit and types |
| MultiUpload.InvalidNotices | components/ui/image-upload.tsx:63-70 | each refused file yields one error callback, so notices and valid files together account for every dropped file |
| MultiUpload.FormFor | components/ui/image-upload.tsx:89-94 | the form for the `k`-th valid file carries that file and index `k`; with non-empty type, kind and slug the route sees no missing field |
| MultiUpload.Forms | components/ui/image-upload.tsx:84-94 | one form is posted per valid file, in order, each with its position as `index` |
| MultiUpload.StepNotice | components/ui/image-upload.tsx:131-153 | an upload calls the completion callback exactly when its response was ok, and the error callback otherwise |
| MultiUpload.UploadNotices | components/ui/image-upload.tsx:84-155 | each uploaded file yields exactly one callback, in order |
| MultiUpload.Settle | components/ui/image-upload.tsx:84-155 | settling the uploads one after another keeps the number of entries |
| MultiUpload.SettleKeepsWellFormed | components/ui/image-upload.tsx:84-155 | the sequence of uploads keeps the progress invariant |
| MultiUpload.SettleFrame | components/ui/image-upload.tsx:98-150 | uploading some files never touches the entries of files that are not among them |
| MultiUpload.TicksFrame | components/ui/image-upload.tsx:98-104 | the progress interval of one file never touches another file's entry |
| MultiUpload.MultiUploader.constructor | components/ui/image-upload.tsx:36-48 | the limit defaults to 5 MB and the types to the four image types; the component starts with no entries |
| MultiUpload.MultiUploader.OnDrop | components/ui/image-upload.tsx:50-158 | if any file was rejected, only one joined error is reported. Otherwise each invalid file is reported and the valid ones are appended as fresh entries. They are then uploaded one after another with their positions as indices, and each gets one callback. The progress invariant is kept. |
| MultiUpload.MultiUploader.FilterValid | components/ui/image-upload.tsx:63-70 | the loop returns `ValidFiles` and reports `InvalidNotices`, in order |
| MultiUpload.MultiUploader.UploadEach | components/ui/image-upload.tsx:84-155 | the upload loop leaves the entries at `Settle`, posts `Forms` and makes `UploadNotices` |
| MultiUpload.MultiUploader.UploadOne | components/ui/image-upload.tsx:85-154 | one pass posts the file's form with its loop index, advances its progress by the timer's ticks, then settles it as `Step` does and reports `StepNotice` of the reply |
| MultiUpload.MultiUploader.RemoveFile | components/ui/image-upload.tsx:170-172 | removal drops the file's entries, makes no callback, posts nothing and keeps the progress invariant |
| MultiUpload.SingleRejectionText | components/ui/image-upload.tsx:54-58 | a single rejected file is reported as its name, a colon and its messages joined by commas |
| MultiUpload.AllValidAllUploaded | components/ui/image-upload.tsx:63-72 | when every dropped file passes validation, all are uploaded and none is reported |
| SingleUpload.ResultUrl | components/ui/simple-image-upload.tsx:94 | `onChange` receives `result.url` when it is non-empty, otherwise `result.data.url` when there is a `data` field, otherwise `''` |
| SingleUpload.FormOf | components/ui/simple-image-upload.tsx:56-57 | the form carries only the file, so the upload route finds type, kind and slug missing and answers it with 400 |
| SingleUpload.RouteUrlReachesOnChange | components/ui/simple-image-upload.tsx:82-94 | given the upload route's success body, `onChange` receives the stored URL |
| SingleUpload.SingleUploader.constructor | components/ui/simple-image-upload.tsx:31 | the uploader starts with no entries, no `onChange` call and no upload |
| SingleUpload.SingleUploader.OnDrop | components/ui/simple-image-upload.tsx:34-116 | a drop with any rejected file or no accepted file does nothing. Otherwise the list is replaced by one fresh entry for the first file, only that file is posted, and the entry then follows the progress, success or failure updates. `onChange` is called once with the result URL exactly on success. The list never grows past one entry. |
| SingleUpload.SingleUploader.RemoveFile | components/ui/simple-image-upload.tsx:127-129 | removal empties the list and calls nothing |
| SingleUpload.SingleUploader.ClearImage | components/ui/simple-image-upload.tsx:131-133 | clearing calls `onChange('')` and leaves the list alone |
| SingleUpload.SingleEntryOutcome | components/ui/simple-image-upload.tsx:53-111 | after a drop the single entry reads 100 and succeeded on success; on failure it is errored with the failure message and its progress stays at `min(10 n, 90)` |
| Listing.TotalPages | app/api/blogs/route.ts:59 | the page count is the ceiling of total over limit: enough pages for every row, no empty last page, and 0 exactly for an empty table |
| Listing.Paginate | app/api/blogs/route.ts:59-72 | the pagination echoes page, limit and total, has `totalPages` pages, and has a next page exactly when `page < totalPages` and a previous page exactly when `page > 1` |
| Listing.HasNextIffRowsRemain | app/api/blogs/route.ts:16-70 | there is a next page exactly when rows remain after the ones this page takes |
| Listing.Listed | app/api/blogs/route.ts:16-70 | the route sends pagination exactly for a page of at least 1, and then it is `Paginate`'s; below that the negative `skip` makes Prisma refuse the query and the reply is the 500 of the `catch` block |
| Listing.EmptyHasNoNext | app/api/blogs/route.ts:59-70 | an empty table has no pages and, by the formula, no next page for any page number from 0 up; page 0 is answered with no pagination at all |
| Listing.NegativePageClaimsNext | app/api/blogs/route.ts:9-70 | the page number is not checked: for page -1 of an empty table the formula claims a next page and a negative skip, and the route never sends it, because Prisma refuses that skip |
| Listing.RowOnPage | app/api/projects/route.ts:16-59 | every row lies on exactly one page between 1 and `totalPages` |
| Listing.BuildWhere | app/api/blogs/route.ts:19-30 | the `where` object has a status only for a non-empty status. The published (or visible) flag and `isFeatured` are present whenever given, and true exactly for the text `true`. A search is present only when it is non-empty. |
| Listing.WhereOf | app/api/blogs/route.ts:19-30 | the query parameters become the filter: status and search when non-empty, the two flags as `value == 'true'` when given |
| Listing.NoParamsKeepAll | app/api/projects/route.ts:19-30 | without parameters, or with an empty status and search, every row matches |
| Listing.FlagIsExact | app/api/blogs/route.ts:22 | a given flag alone selects exactly the rows whose flag equals "value is `true`" |
| Listing.SearchIsOneDisjunction | app/api/blogs/route.ts:24-30 | a non-empty search alone keeps a row exactly when one of its searched texts contains the term, ignoring case |
| Listing.MoreParamsNarrow | app/api/projects/route.ts:19-30 | adding a search only narrows the result |
| ContentImages.OrderOf | app/api/blogs/route.ts:157 | an image keeps a non-zero order; a missing order or an order of 0 becomes the image's position |
| ContentImages.ImagesOf | app/api/projects/route.ts:153-165 | a missing `images` field creates no image. Otherwise there is one stored image per input, in order. Each keeps its URL, alt text and caption, and takes its kind, order and primary flag from the defaults. |
| ContentImages.UnorderedImagesAreNumbered | app/api/blogs/route.ts:151-163 | images without an order are numbered by position, so their orders are distinct |
| ContentImages.ZeroOrderBecomesPosition | app/api/blogs/route.ts:157 | an explicit order 0 is not kept: at position 3 it becomes 3 |
| ContentImages.StoredDefaults | app/api/blogs/route.ts:152-162 | with a non-empty default kind every stored image has a kind, keeps its URL, and is primary exactly when the input says `true` |
| BlogsApi.Create | app/api/blogs/route.ts:85-189 | the replies are checked in order. No session gives 401. An unparseable body gives 500. A missing title, slug, excerpt or content gives 400. A taken slug gives 400. In all these cases the table is unchanged. Otherwise the new blog is stored under its slug, with the author taken from the session and the stated defaults, and the reply is 200. |
| BlogsApi.NewBlog | app/api/blogs/route.ts:134-151 | the created row: the four required fields, flags defaulting to false, status defaulting to `DRAFT`, `publishedAt` set when published, and the session's user as author |
| BlogsApi.CreateKeepsSlugsUnique | app/api/blogs/route.ts:121-134 | creation never changes an existing blog, adds at most one row, adds nothing on a non-200 reply, and keeps every row under its own slug |
| BlogsApi.MinimalBodyDefaults | app/api/blogs/route.ts:140-151 | a body with only the four required fields creates an unpublished, unfeatured `DRAFT` with no `publishedAt` and no images, authored by the session's user |
| BlogsApi.PublishedAtIffPublished | app/api/blogs/route.ts:140-147 | `publishedAt` is set exactly when the blog is created published |
| BlogsApi.TagIdsIgnored | app/api/blogs/route.ts:109-150 | `tagIds` are read and dropped: they never change the reply or the table |
| BlogsApi.ExpiredTokenRefused | app/api/blogs/route.ts:88-94 | a token minted by `createSession` and presented at or after its `exp` second is refused by the verifier, so the POST gets 401 and the table is unchanged |
| ProjectsApi.Create | app/api/projects/route.ts:85-191 | the same ladder for projects. No session gives 401, a bad body 500, a missing title, description or slug 400, and a taken slug 400; the table is unchanged in each case. Otherwise the new project is stored under its slug and the reply is 200. |
| ProjectsApi.NewProject | app/api/projects/route.ts:136-151 | the created row: the required fields, empty stack and features by default, visible by default, not featured by default, status `DRAFT` and order 0 by default, and the session's user as author |
| ProjectsApi.CreateKeepsSlugsUnique | app/api/projects/route.ts:123-136 | creation never changes an existing project, adds at most one row, adds nothing on a non-200 reply, and keeps every row under its own slug |
| ProjectsApi.MinimalBodyDefaults | app/api/projects/route.ts:142-151 | a body with only the three required fields creates a visible, unfeatured `DRAFT` with empty tech stack and features, order 0, authored by the session's user |
| ProjectsApi.ExplicitFalseKept | app/api/projects/route.ts:147-150 | `isVisible: false` is kept because `??` replaces only a missing value, while `order: 0` and a missing order both give 0 |
| ProjectsApi.ImagesDefaultToGallery | app/api/projects/route.ts:158 | a project image without a kind is stored as `gallery` |
| SettingsApi.BuildWhere | app/api/settings/route.ts:16-19 | the filter has an `isPublic` condition whenever the parameter is given, true exactly for `true`, and a type condition only for a non-empty type |
| SettingsApi.WhereOf | app/api/settings/route.ts:16-19 | `isPublic` becomes `value == 'true'` when given, and the type is a condition when non-empty |
| SettingsApi.Select | app/api/settings/route.ts:21-24 | `GET` returns exactly the stored settings that meet every present condition |
| SettingsApi.PublicFlagIsExactlyTrue | app/api/settings/route.ts:18-19 | `?isPublic=yes` selects the private settings, `?isPublic=true` excludes them, and an empty type filters nothing |
| SettingsApi.Create | app/api/settings/route.ts:40-96 | the replies are checked in order. No session gives 401. An unparseable body gives 500. A missing or empty key, value or type gives 400. An existing key gives 400. In these cases the table is unchanged. Otherwise the setting is stored under its key, private unless `isPublic` is given, and the reply is 200. |
| SettingsApi.CreateKeepsKeysUnique | app/api/settings/route.ts:62-83 | creation keeps every row under its own key, never alters an existing setting, changes nothing on a non-200 reply, and makes a new setting private unless asked |
| SettingsApi.EmptyValueRefused | app/api/settings/route.ts:55-60 | an empty-string value is refused with 400 like a missing one |
| SettingsApi.Apply | app/api/settings/route.ts:123-130 | an update never changes the setting's key |
| SettingsApi.ApplyAll | app/api/settings/route.ts:121-133 | applying the list keeps the set of keys, returns one row per update, and leaves unnamed keys alone |
| SettingsApi.Put | app/api/settings/route.ts:99-146 | no session gives 401; an unparseable body gives 500; a non-array gives 400; an unknown key anywhere in the list gives 500 with nothing written; otherwise the updates apply in order and the reply lists the updated rows |
| SettingsApi.PutIsAllOrNothing | app/api/settings/route.ts:120-133 | the transaction is all or nothing: a failure leaves the table as it was, and a success keeps the keys and keeps every row under its own key |
| SettingsApi.ApplyAllKeepsKeying | app/api/settings/route.ts:121-133 | the updates keep every row stored under its own key |
| SettingsApi.LastValueWins | app/api/settings/route.ts:121-126 | when the last update gives a value, that key ends with that value, even if earlier updates named the same key |
| SettingsApi.UnlistedUntouched | app/api/settings/route.ts:121-133 | a successful `PUT` leaves keys that the list does not name as they were |
| ContactApi.LengthIssues | app/api/contact/route.ts:11-14 | a length-bounded field gives no issue exactly when it is present and within its inclusive bounds, and at most one issue otherwise |
| ContactApi.Issues | app/api/contact/route.ts:10-15 | the body validates exactly when the name has 1-100 characters, the e-mail is an address, the subject has 1-200 and the message 10-2000; there is at most one issue per field, in schema order |
| ContactApi.DeliveryNotes | app/api/contact/route.ts:61-116 | without the API key the only note is the missing-key warning. With the key there is one note per failed send, the notification's first and the confirmation's last. |
| ContactApi.Deliver | app/api/contact/route.ts:58-116 | the delivery step leaves exactly `DeliveryNotes` of the key and the two send outcomes, and reports a failure exactly when it left a note |
| ContactApi.ContactDesk.constructor | app/api/contact/route.ts:28 | the contact and activity tables start empty |
| ContactApi.ContactDesk.Post | app/api/contact/route.ts:17-167 | an unparseable body gives 500 and an invalid one gives 400 with the issues; neither writes anything. Otherwise the contact is stored unread. An activity is logged only when an administrator exists. The reply is 202 with the notes exactly when a note was left, and 200 otherwise, both echoing id, name, e-mail and subject. |
| ContactApi.MissingKeyIgnoresSends | app/api/contact/route.ts:61-65 | without the API key no send is attempted, so the send outcomes do not matter |
| ContactApi.BothFailuresNoted | app/api/contact/route.ts:86-115 | a failed notification does not stop the confirmation attempt; both failures are noted, in order |
| ContactApi.NineCharacterMessage | app/api/contact/route.ts:14 | a nine-character message is refused with exactly the "at least 10 characters" issue |
| ContactApi.BoundsInclusive | app/api/contact/route.ts:11-14 | the upper bounds are inclusive: 100 characters of name, 200 of subject and 2000 of message are accepted |
| Dashboard.Guarded | app/api/dashboard/activities/route.ts:11-17 | each dashboard route answers 401 exactly when the request has no live session, and otherwise 200 with its payload |
| Dashboard.AgoOf | app/api/dashboard/quick-data/route.ts:172-203 | the reference buckets read an age below 60 seconds as seconds and every older age as a number of units |
| Dashboard.TimeAgoMatchesBuckets | app/api/dashboard/quick-data/route.ts:172-203 | the nested floors of `getTimeAgo` give the same text as the direct buckets: minutes below 3600 s, hours below 86400 s, days below 604800 s, weeks below 2419200 s, otherwise months of 30 days |
| Dashboard.TimeAgo | app/api/dashboard/quick-data/route.ts:173-203 | `getTimeAgo` with its nested floors: seconds below a minute, then minutes, hours, days, weeks and months |
| Dashboard.SecondsAlwaysPlural | app/api/dashboard/overview/route.ts:133-164 | under a minute the unit is always plural: one second reads `1 seconds ago` |
| Dashboard.BucketRanges | app/api/dashboard/activities/route.ts:56-87 | for a non-negative age the number shown stays in its bucket: seconds 0-59, minutes 1-59, hours 1-23, days 1-6, weeks 1-3, months from 0 |
| Dashboard.TwentyEightDays | app/api/dashboard/quick-data/route.ts:196-202 | 28 days is past four weeks but short of 30 days, so it reads `0 month ago` |
| Dashboard.PluralIffMoreThanOne | app/api/dashboard/quick-data/route.ts:183-202 | for every unit but seconds, `s` is appended exactly when the number exceeds one |
| Dashboard.FeatureName | app/api/dashboard/quick-data/route.ts:134 | a feature's display name has the key's length and no underscore |
| Dashboard.FeatureNamePointwise | app/api/dashboard/quick-data/route.ts:134 | each `_` becomes a space; a letter or digit that opens a word (first, or after a non-alphanumeric) is upper-cased; every other character is kept as it is |
| Dashboard.DarkModeName | app/api/dashboard/quick-data/route.ts:134 | the key `dark_mode` is shown as `Dark Mode` |
| Dashboard.FeatureNameIdempotent | app/api/dashboard/quick-data/route.ts:134 | formatting a display name again changes nothing |
| Dashboard.FeatureOf | app/api/dashboard/quick-data/route.ts:133-137 | a feature is enabled exactly when its setting's value is `true`; the description is kept |
| Dashboard.TallyOf | app/api/dashboard/quick-data/route.ts:140-143 | the status map has exactly the lower-cased statuses of the rows as keys |
| Dashboard.Tally | app/api/dashboard/overview/route.ts:92-101 | the `reduce` loop builds exactly `TallyOf` of the rows |
| Dashboard.TallyCounts | app/api/dashboard/quick-data/route.ts:139-149 | when the lower-cased statuses are distinct, each maps to its own row's count |
| Dashboard.ReadTally | app/api/dashboard/overview/route.ts:104-107 | the contact map has only the keys `read` and `unread`, and has the key of every row |
| Dashboard.ReadTallyCounts | app/api/dashboard/overview/route.ts:104-107 | a row's flag maps to that row's count unless a later row has the same flag, so with one row per flag every count is there |
| Dashboard.FormatRecent | app/api/dashboard/overview/route.ts:83-89 | there is one view per activity item, in order, keeping its fields and adding its age |
| Dashboard.Fetch20 | app/api/dashboard/activities/route.ts:20-22 | at most 20 rows are fetched, and they are the first rows in newest-first order |
| Dashboard.FormatActivities | app/api/dashboard/activities/route.ts:33-40 | there is one view per activity, in order, with its action, item, time, user and age |
| Dashboard.Activities | app/api/dashboard/activities/route.ts:8-45 | the reply is 401 exactly without a live session; otherwise it lists `min(rows, 20)` activities |
| Dashboard.FormatPrefix | app/api/dashboard/activities/route.ts:20-40 | the 20 activities shown are the first 20 of the formatted list |
| TagList.Added | app/admin/blogs/create/page.tsx:89-97 | the trimmed input is appended exactly when it is non-empty and not yet in the list; otherwise the list is unchanged |
| TagList.AddedKeepsClean | app/admin/settings/page.tsx:45-50 | adding keeps the list free of duplicates and of empty entries. A non-blank input is in the list afterwards. The list grows by one exactly when the input is accepted. |
| TagList.AddedIdempotent | app/admin/blogs/create/page.tsx:90 | adding the same input twice is the same as adding it once |
| TagList.Without | app/admin/blogs/create/page.tsx:99-104 | removal leaves exactly the entries other than the removed one |
| TagList.WithoutAppend | app/admin/settings/page.tsx:52-54 | removal works piecewise, so the remaining entries keep their order |
| TagList.WithoutKeepsClean | app/admin/blogs/create/page.tsx:102 | removing an absent entry changes nothing, and a clean list stays clean |
| TagList.WithoutIdempotent | app/admin/blogs/create/page.tsx:102 | removing the same entry twice is the same as removing it once |
| TagList.AddThenRemove | app/admin/settings/page.tsx:45-54 | adding an accepted entry and then removing it restores the list |
| BlogEditor.DropRun | app/admin/blogs/create/page.tsx:76 | dropping a leading run of non-`[a-z0-9]` characters leaves a suffix that is empty or starts with a kept character |
| BlogEditor.Collapse | app/admin/blogs/create/page.tsx:76 | replacing each run of non-`[a-z0-9]` characters with one dash never lengthens the text, and the result is empty exactly when the input is |
| BlogEditor.CollapseShape | app/admin/blogs/create/page.tsx:76 | after the collapse only `[a-z0-9-]` remains, there are never two dashes in a row, and a kept first character stays first |
| BlogEditor.StripDashes | app/admin/blogs/create/page.tsx:77 | removing a dash from each end never lengthens the text |
| BlogEditor.StripGivesSlug | app/admin/blogs/create/page.tsx:77 | stripping the end dashes of a collapsed text leaves a slug |
| BlogEditor.GenerateSlug | app/admin/blogs/create/page.tsx:73-78 | a generated slug has only `[a-z0-9-]`, no dash at either end and no `--`, and is no longer than the title |
| BlogEditor.CollapseOfSlugChars | app/admin/blogs/create/page.tsx:76 | the collapse leaves text of `[a-z0-9-]` without `--` unchanged |
| BlogEditor.GenerateSlugIdempotent | app/admin/blogs/create/page.tsx:73-78 | generating a slug from a slug gives the same slug |
| BlogEditor.CollapseKeptPrefix | app/admin/blogs/create/page.tsx:76 | a prefix of kept characters passes the collapse unchanged |
| BlogEditor.LowerOfPlain | app/admin/blogs/create/page.tsx:75 | lower-casing text made only of `[a-z0-9]` and spaces changes nothing |
| BlogEditor.SlugOfTwoWords | app/admin/blogs/create/page.tsx:73-78 | two lower-case alphanumeric words joined by a space give `word-word` |
| BlogEditor.SpaceRuns | app/admin/blogs/create/page.tsx:108 | there are never more whitespace runs than characters |
| BlogEditor.WordCount | app/admin/blogs/create/page.tsx:108 | splitting the trimmed content on whitespace always gives at least one piece |
| BlogEditor.CalculateReadTime | app/admin/blogs/create/page.tsx:106-110 | the read time is the ceiling of words over 200: at least one minute, with `(m-1)*200 < words <= m*200` |
| BlogEditor.SpaceRunsNoSpace | app/admin/blogs/create/page.tsx:108 | appending non-whitespace after a non-whitespace character adds no run |
| BlogEditor.SentenceRuns | app/admin/blogs/create/page.tsx:108 | words joined by single spaces have one whitespace run fewer than words, and no whitespace at either end |
| BlogEditor.TrimOfTrimmed | app/admin/blogs/create/page.tsx:108 | trimming text with no whitespace at either end changes nothing |
| BlogEditor.SentenceWordCount | app/admin/blogs/create/page.tsx:108 | the word count of words joined by spaces is the number of words |
| BlogEditor.BlankReadsInOneMinute | app/admin/blogs/create/page.tsx:106-110 | empty or blank content still counts one word and reads in one minute |
| BlogEditor.ReadTimeSteps | app/admin/blogs/create/page.tsx:107-109 | up to 200 words read in one minute, and word 201 starts the second minute |
| BlogEditor.SubmittedBody | app/admin/blogs/create/page.tsx:131-134 | the posted body is the form with its tags emptied and every other field kept |
| BlogEditor.CreateBlogPage.constructor | app/admin/blogs/create/page.tsx:56-71 | the editor starts with the empty draft form and an empty tag input |
| BlogEditor.CreateBlogPage.SetNewTag | app/admin/blogs/create/page.tsx:56 | typing into the tag box changes only the input |
| BlogEditor.CreateBlogPage.HandleTitleChange | app/admin/blogs/create/page.tsx:80-87 | a title change sets the title, the generated slug and the meta title together, and nothing else |
| BlogEditor.CreateBlogPage.AddTag | app/admin/blogs/create/page.tsx:89-97 | the tags become `Added` of the input. The input is cleared exactly when it was accepted. The tags stay distinct and non-empty. |
| BlogEditor.CreateBlogPage.RemoveTag | app/admin/blogs/create/page.tsx:99-104 | the tags become `Without` the removed tag; every other field stays and the tags stay clean |
| BlogEditor.CreateBlogPage.HandleContentChange | app/admin/blogs/create/page.tsx:112-118 | a content change sets the content and its read time (at least one minute) and nothing else |
| SettingsPanel.Toggled | app/admin/settings/page.tsx:41-43 | toggling flips exactly the chosen feature flag and leaves every other flag as it was |
| SettingsPanel.FlagsDetermine | app/admin/settings/page.tsx:18-24 | the five flags determine the `features` record: two records that agree on every flag are equal |
| SettingsPanel.ToggleInvolution | app/admin/settings/page.tsx:41-43 | toggling the same feature twice restores the record |
| SettingsPanel.TogglesCommute | app/admin/settings/page.tsx:41-43 | toggles of two features give the same record in either order |
| SettingsPanel.SaveLabel | app/admin/settings/page.tsx:71-73 | the button reads "Saving..." exactly when it is disabled |
| SettingsPanel.InitialTechStackClean | app/admin/settings/page.tsx:26-36 | the starting tech stack has no duplicates and no empty entries |
| SettingsPanel.Panel.constructor | app/admin/settings/page.tsx:14-39 | the panel starts idle, with blog, contact, hire-me banner and analytics on and testimonials off, the nine starting technologies and an empty input |
| SettingsPanel.Panel.ToggleFeature | app/admin/settings/page.tsx:41-43 | the features become `Toggled` for the chosen key and nothing else changes |
| SettingsPanel.Panel.SetNewTech | app/admin/settings/page.tsx:38 | typing changes only the input |
| SettingsPanel.Panel.AddTech | app/admin/settings/page.tsx:45-50 | the stack becomes `Added` of the input. The input is cleared exactly when it was accepted. The stack stays clean. |
| SettingsPanel.Panel.RemoveTech | app/admin/settings/page.tsx:52-54 | the stack becomes `Without` the removed entry and stays clean; nothing else changes |
| SettingsPanel.Panel.HandleSave | app/admin/settings/page.tsx:56-57 | saving sets the status to `saving`, which disables the button, and changes nothing else |
| SettingsPanel.Panel.SavedTimerFires | app/admin/settings/page.tsx:58-59 | the first timer sets the status to `saved`, which re-enables the button |
| SettingsPanel.Panel.IdleTimerFires | app/admin/settings/page.tsx:60 | the second timer sets the status back to `idle` |
| SettingsPanel.SaveCycle | app/admin/settings/page.tsx:56-62 | one save followed by both timers passes through idle, saving, saved and idle; the button is disabled only while saving, and the features and stack are untouched |
| AdminLists.Filter | app/admin/projects/page.tsx:65-69 | filtering keeps the kept rows in their order. A row is in the result exactly when it is in the input and passes the test. When every row passes, the list comes back whole. |
| AdminLists.EmptyTermMentioned | app/admin/projects/page.tsx:67 | every text mentions the empty search term |
| AdminLists.FilteredProjects | app/admin/projects/page.tsx:65-69 | a project is shown exactly when its title or description mentions the term, case-insensitively. Shown projects keep their order, and an empty term shows every project. |
| AdminLists.EmptyTermKeepsProjects | app/admin/projects/page.tsx:62-69 | with the starting empty term every project matches |
| AdminLists.ToggledVisibility | app/admin/projects/page.tsx:71-77 | the list keeps its length and order; each row with the id has its `visible` flag flipped and every other row is unchanged |
| AdminLists.ToggleVisibilityTwice | app/admin/projects/page.tsx:71-77 | toggling the same id twice restores the list |
| AdminLists.ToggleVisibilityFrame | app/admin/projects/page.tsx:73-75 | no field other than `visible` ever changes, and an id no row has changes nothing |
| AdminLists.ProjectsManager.constructor | app/admin/projects/page.tsx:61-62 | the page starts with its projects and an empty search term |
| AdminLists.ProjectsManager.SetSearchTerm | app/admin/projects/page.tsx:62 | typing a search term changes only the term |
| AdminLists.ProjectsManager.ToggleVisibility | app/admin/projects/page.tsx:71-77 | the projects become `ToggledVisibility` of the id; the term is kept |
| AdminLists.FilteredBlogs | app/admin/blogs/page.tsx:67-74 | a post is shown exactly when its title, its excerpt or one of its tags mentions the term, case-insensitively. Shown posts keep their order, and an empty term shows every post. |
| AdminLists.EmptyTermKeepsBlogs | app/admin/blogs/page.tsx:65-74 | with the starting empty term every post matches |
| AdminLists.TagAloneKeeps | app/admin/blogs/page.tsx:71-73 | one matching tag is enough to show a post |
| AdminLists.ToggledPublished | app/admin/blogs/page.tsx:76-82 | the list keeps its length and order; each post with the id has `published` flipped and every other post is unchanged |
| AdminLists.TogglePublishedTwice | app/admin/blogs/page.tsx:76-82 | toggling the same id twice restores the list |
| AdminLists.TogglePublishedFrame | app/admin/blogs/page.tsx:78-80 | no field other than `published` ever changes, and an id no post has changes nothing |
| AdminLists.BlogManager.constructor | app/admin/blogs/page.tsx:64-65 | the page starts with its posts and an empty search term |
| AdminLists.BlogManager.SetSearchTerm | app/admin/blogs/page.tsx:65 | typing a search term changes only the term |
| AdminLists.BlogManager.TogglePublished | app/admin/blogs/page.tsx:76-82 | the posts become `ToggledPublished` of the id; the term is kept |

## Left out

- The JSON Web Token codec (`jose`) is an abstract `Codec` parameter; the signing algorithm, `setIssuedAt` and the token's byte format are not modelled. `Session.Sound` states what `jwtVerify` does for a minted token: its claims come back while the current second is before `exp`, and it is refused from `exp` on (no clock tolerance). `Session.ChecksExpiry` states that nothing it accepts has expired.
- Password hashing (`bcrypt.compare`) is an abstract predicate on the password and the stored hash.
- The database (Prisma) is a sequence or map of rows held by the model; query ordering (`orderBy` on `publishedAt`, `createdAt` or `key`), `include` of relations, and Prisma's treatment of `undefined` fields are not modelled.
- The clock (`Date.now()`, which also makes unique file names unique), `process.env` and the outcome of network calls are parameters of the operations that use them.
- Session.Claims: `createSession` reads the clock twice (once for the expiry, once for the token's expiration); the model uses one reading for both.
- The 500 replies of the `catch` blocks are modelled where the failing step is the handler's own: the login route, the upload route's file-system failures, and the unparseable bodies of the blog, project, settings and contact routes. A rejected database query inside an otherwise valid request is not modelled.
- BlogsApi and ProjectsApi GET: `parseInt` of a non-numeric `page` or `limit` (NaN) is not modelled.
- Listing.TotalPages: requires a positive limit. A limit of zero makes JavaScript divide by zero, and a negative limit is a negative Prisma `take` (rows counted from the end), whose reply is not modelled.
- The dashboard quick-data route's recent projects, recent posts and recent contacts (app/api/dashboard/quick-data/route.ts:99-130) are not modelled separately; they follow the same fetch-and-format pattern as Dashboard.FormatRecent.
- `getImageDimensions` (lib/image-utils.ts:76-87) loads an image in the browser and is not modelled.
- `imagePathExists` (lib/image-utils.ts:102-105) and the `fs.existsSync` checks on the section directories during cleanup are file-system queries; a missing directory is a missing key in the model's folder map.
- The `IMAGE_SPECS` size table in lib/image-utils.ts is a constant list of recommended dimensions that no modelled operation reads.
- UploadRoute.PublicFolder.Delete: the folder holds files only. A path that names a directory passes `existsSync` and then fails in `unlink` with 500; the model answers 404. The working directory is a list of plain segments.
- ImageUtils.ValidateImageFile: `maxSizeMB` is an integer in the model, while JavaScript accepts a fractional number of megabytes; the upload route uses the default 5, and the multi-file uploader passes its own `maxSizeMB`, which defaults to 5.
- UploadRoute.PublicFolder.Post: the stored size is the uploaded file's size rather than a `stat` of the written file, and `mkdir` is folded into writing the map entry.
- MultiUpload.MultiUploader.OnDrop: the upload loop and each file's progress interval run concurrently in the component; the model runs the files one after another and counts each file's progress ticks, so interleavings are not captured.
- The `setTimeout` that removes a finished upload entry is the separate RemoveFile method, run when the timer fires.
- SettingsPanel.Panel: a second save started before the previous timers fire is not modelled; each timer is a method of its own, and the bio text is held but its editing is not modelled.
- The contact form's `isEmail` check (zod) is an abstract predicate, and the HTML body of the notification e-mails and its timestamp are not modelled; a stored contact's id is its position in the table.
- Strings are ASCII in meaning: case mapping, the whitespace class `\s` and `trim()` cover the ASCII characters only, and lengths count characters rather than UTF-16 code units.
- Gallery.ProjectGallery.NextImage and PrevImage require at least one image, because with none the source computes `% 0` (NaN).
- BlogEditor: `handleSubmit`'s fetch and the router navigation are not modelled beyond the body it posts (BlogEditor.SubmittedBody).
- MeRoute.Me: the reply of the `catch` block is not modelled.
- Rendering (JSX, styles, animation, icons) is not modelled; only the values the components compute and the state they keep are.
