# Calibration and device-portal service, modelled in Dafny

This project models the decision logic of `main.py`, a FastAPI service. The service lets a logged-in
user do three things:

- list their cameras from a remote video platform;
- upload a captured frame as a snapshot;
- mark ten calibration points on that frame and get the annotated image back.

The model covers these parts of the service:

- **Session identifiers.** `sanitize_sid` keeps only the letters, digits, `_` and `-` of the
  identifier, and falls back to `public`. The model keeps ASCII letters and digits only, where
  `isalnum` also keeps other Unicode letters and digits (see `SessionIds.IsAlnum` under "Left out"). The result names the session's storage namespace under
  `calibration_data/<sid>`.
- **Frame identifiers.** `now_id` formats the clock reading as `%Y%m%d_%H%M%S`: `DateTime` in
  module `Timestamp`, with the decimal formatting in `Decimal`.
- **Per-key locks.** `get_lock` keeps a process-wide registry with one lock per `(sid, id)`. Locks are
  created lazily and never removed. This is class `Locks.LockRegistry`, and a lock is represented by
  the number it was created under.
- **Storage layout and snapshot lookup.**
  - `get_user_dirs` creates `calibration_data/<sid>/{snapshots,annotated,json}`.
  - `os.path.join` is `Storage.Join`.
  - The filesystem is class `Storage.FileStore`: a set of directories and a map from file paths to
    bytes.
  - A snapshot is looked up by trying, in order, the extensions `png`, `jpg`, `jpeg`, `webp`. Both
    `calibrate_page` and `save_calibration` do this.
- **Upload.** `upload_snapshot` does these steps:
  1. rejects a data URL that has no comma;
  2. splits the URL at the first comma;
  3. picks the extension from the lower-cased header;
  4. decodes the body;
  5. writes `<ts>.<ext>`;
  6. answers with the public `/calib/...` address.
- **Save calibration.** `save_calibration` does these steps:
  1. checks the point count, then each point's shape;
  2. clamps every coordinate into [0, 1];
  3. looks up the snapshot;
  4. takes the `(sid, id)` lock;
  5. maps the points to pixels with `int(x*W)`;
  6. draws the closed polyline, then a ring, a dot and a number label for each point;
  7. answers with the echoed `id`, the unchanged `zoomf`, the clamped points and the JPEG data URL.

  What is drawn is modelled as a list of drawing commands (`Calibration.DrawCmd`). Opening and
  encoding the image are functions passed in.
- **Login gate.** The session store is a token → `{username, exp}` map with these behaviours:
  - expiry is strict (`exp < now` is expired);
  - an expired session is removed when it is looked up;
  - every successful lookup renews the session (sliding expiry).

  The gate also covers `require_login`, logout, and the two checks of `api_login` in their order.
  The clock reading and the fresh random token are parameters.
- **Device list.** `list_my_devices` shapes each remote entry into a fixed record. It then sorts the
  records with the key `(not online, device_id)`: Python's stable `list.sort` on tuples and strings.

Stateful parts of the service are classes with `modifies` clauses: `_locks`, `_SESSIONS` and the
filesystem. The loops in the service are methods proved against specification functions:

- the `pts` loop of `save_calibration`;
- the drawing loop;
- the extension loop of `calibrate_page`;
- the `items` loop of `list_my_devices`.

## Model

| member | source | states |
|---|---|---|
| Decimal.Padded | main.py:56-57 | `%04d`/`%02d` zero padding: exactly `width` decimal digits |
| Decimal.ValueOfPadded | main.py:56-57 | the padded digits read back as the number that was padded |
| Decimal.PaddedOfValue | main.py:56-57 | any digit string is the padding of the number it denotes (the other direction) |
| Decimal.ToString | main.py:805 | `str(n)` for `n >= 0`: non-empty, all digits, no leading zero, one digit exactly when `n < 10` |
| Decimal.ValueOfToString | main.py:847 | `str(n)` reads back as `n` |
| Decimal.ToStringInjective | main.py:847 | different numbers give different texts, so the point labels are distinct |
| SessionIds.Keep | main.py:64 | the filter keeps only letters, digits, `_`, `-` and never lengthens its input |
| SessionIds.SanitizeSid | main.py:60-65 | never empty, only allowed characters; `public` for `None`, the empty string, or an input with nothing kept; otherwise the kept characters |
| SessionIds.KeepAppend | main.py:64 | filtering distributes over concatenation |
| SessionIds.KeepIsSubsequence | main.py:64 | the result is a subsequence of the input: the kept characters in their original order |
| SessionIds.KeepCounts | main.py:64 | each allowed character is kept as often as it occurs, and no other character survives |
| SessionIds.KeepFixedPoint | main.py:64 | the filter leaves its input unchanged if and only if the input has only allowed characters |
| SessionIds.SanitizeIdempotent | main.py:60-65 | sanitizing twice is sanitizing once |
| SessionIds.SanitizedHasNoSeparator | main.py:60-65 | a sanitized identifier contains neither `/` nor `.`, so it is one directory name |
| Timestamp.NowId | main.py:56-57 | the identifier has 15 characters: 8 digits, `_`, 6 digits |
| Timestamp.ParseId | main.py:56-57 | only a well-shaped identifier of a valid date-time parses |
| Timestamp.ParseNowId | main.py:56-57 | parsing the formatted identifier gives back the date-time |
| Timestamp.NowIdOfParse | main.py:56-57 | every identifier that parses is the formatting of its parse |
| Timestamp.NowIdInjective | main.py:56-57 | two clock readings give the same identifier only in the same second |
| Storage.Join | main.py:70-73 | `os.path.join`: an absolute second part replaces the first; otherwise both parts appear, in order |
| Storage.JoinComponent | main.py:70-73 | joining a relative name onto a directory adds exactly one separator |
| Storage.Ancestors | main.py:74-76 | what `os.makedirs(p, exist_ok=True)` makes exist: `p` itself and every non-empty prefix of `p` ending just before a `/`, and nothing that is not a prefix of `p` |
| Storage.UserDirsOf | main.py:70-73 | definition: `base = join("calibration_data", sid)` and the joins of `snapshots`, `annotated` and `json` onto `base`; UserDirsLayout states what they are |
| Storage.UserDirsLayout | main.py:68-77 | for a one-component sid the directories are `calibration_data/<sid>` and its `snapshots`, `annotated`, `json` |
| Storage.AncestorsOfSubDir | main.py:74-76 | `os.makedirs` on `calibration_data/<sid>/<sub>` makes exactly the root, the session directory and the sub-directory exist |
| Storage.ProvisionedLayout | main.py:68-77 | `get_user_dirs` makes exactly five directories exist |
| Storage.SnapshotBelongsToSession | main.py:68-77 | every file in a session's snapshot directory lies under that session's directory |
| Storage.SessionsAreDisjoint | main.py:68-77 | snapshot files of two distinct sessions never coincide |
| Storage.FindSnapshot | main.py:816-819 | the index of the first candidate, in `png, jpg, jpeg, webp` order, that exists; none of the earlier ones exists; `None` only when no candidate exists |
| Storage.LookupExt | main.py:393-397 | the loop with `break` answers the extension of the first existing candidate, or `None` |
| Storage.FileStore.constructor | main.py:50-51 | the data root exists at start-up |
| Storage.FileStore.MakeDirs | main.py:74-76 | `os.makedirs(p, exist_ok=True)` adds `p` and its parents and touches no file |
| Storage.FileStore.WriteFile | main.py:378-379 | the file is created or overwritten with the data; the directories are unchanged |
| Storage.GetUserDirs | main.py:68-77 | returns the session's four paths; the directories grow by exactly the provisioned ones; calling it again changes nothing |
| Storage.CalibratePageLookup | main.py:389-400 | 404 when no candidate exists; otherwise `/calib/<sid>/snapshots/<id>.<ext>` with the first existing extension |
| Locks.LockRegistry.constructor | main.py:24 | the registry starts empty |
| Locks.LockRegistry.GetLock | main.py:26-32 | a present key returns its stored lock and leaves the map unchanged; an absent key inserts exactly one new entry holding a lock no other key has; no key is removed and no other key's lock changes |
| Locks.SameKeySameLock | main.py:26-32 | the same key gives the same lock again, even after a different key was requested; different keys get different locks |
| Upload.Lower | main.py:371 | `str.lower` on ASCII: no capital letter is left, each capital becomes its lower-case letter (code + 32), every other character is kept in place |
| Upload.LowerIdempotent | main.py:371 | lower-casing a lower-cased header changes nothing |
| Upload.SplitAtComma | main.py:370 | `split(",", 1)`: header, comma and body rebuild the input, and the header has no comma |
| Upload.SplitAtFirstComma | main.py:370 | the header is exactly the text before the first comma, and the body is the rest |
| Upload.ExtFromHeader | main.py:371-374 | the extension is `jpg` exactly when the lower-cased header contains `jpeg` or `jpg`; `webp` exactly when it contains neither but contains `webp`; `png` exactly otherwise |
| Upload.Contains | main.py:373-374 | definition of Python's `sub in s`: `sub` is a prefix of `s` or of one of its suffixes |
| Upload.ExtIsLookedUp | main.py:372-374 | the chosen extension is one the snapshot lookup tries, and never `jpeg` |
| Upload.ExtIgnoresCase | main.py:371 | the header's letter case does not change the extension |
| Upload.UploadSnapshot | main.py:362-384 | no comma: `invalid dataURL`, and nothing is created or written. Otherwise the session's directories exist. A decode failure returns its message with no file written. Success writes `<ts>.<ext>` with the decoded bytes and answers `ts` and `/calib/<sid>/snapshots/<ts>.<ext>` |
| Upload.UrlServesWrittenFile | main.py:380 | the returned address is served by the `/calib` mount from exactly the written file, and `ts` has the `YYYYMMDD_HHMMSS` shape |
| Upload.ServedFileOf | main.py:53 | for a one-component sid, the `/calib` mount maps the snapshot address to the snapshot file |
| Upload.ServedFile | main.py:53 | the `/calib` mount serves a path exactly when it starts with `/calib/`, and then the file `calibration_data/` followed by the rest of the path |
| Upload.UploadedSnapshotIsFound | main.py:378-380 | after an upload, the lookup under the same id finds a stored file at the same or a higher priority; it finds the written file exactly when no higher-priority file exists |
| Calibration.Clamp | main.py:807-808 | the result is in [0, 1]; below 0 gives 0, above 1 gives 1, in range is unchanged |
| Calibration.ClampIsNearest | main.py:807-808 | no value of [0, 1] is closer to the input than its clamp |
| Calibration.ClampIdempotent | main.py:807-808 | clamping twice equals clamping once |
| Calibration.ClampMonotonic | main.py:807-808 | clamping preserves order |
| Calibration.FirstMalformed | main.py:803-805 | the index of the first entry that is not a pair, or `None` when every entry is a pair |
| Calibration.CheckPoints | main.py:797-809 | definition of the validation outcome: `need 10 points` unless there are 10 entries, then `point[i] invalid` for the first non-pair, else the clamped points; CheckOrder, AcceptedPointsAreClamped and EchoIsStable state its properties |
| Calibration.ValidatePoints | main.py:797-809 | the `pts` loop computes the validation outcome exactly: count first, then the first bad entry, else the clamped points |
| Calibration.CheckOrder | main.py:798-805 | a count other than 10 gives `need 10 points`; with 10, the first non-pair at index i gives `point[i] invalid`; success exactly when there are 10 pairs |
| Calibration.AcceptedPointsAreClamped | main.py:803-809 | accepted points keep count and order, and each coordinate is the clamp of the input coordinate, in [0, 1] |
| Calibration.EchoIsStable | main.py:824 | sending the echoed points back is accepted and yields the same points |
| Calibration.Truncate | main.py:839 | `int(v)` truncates toward zero and stays within one unit of `v` |
| Calibration.Pixel | main.py:839 | definition: `int(v * size)`, the truncation of the exact product; PixelInFrame states its bounds |
| Calibration.Poly | main.py:839 | one pixel point per calibration point, in order; PolyInFrame states that clamped points land inside the image |
| Calibration.PixelInFrame | main.py:839 | a coordinate in [0, 1] maps to a pixel in [0, size], at most one pixel below its exact position |
| Calibration.CentreMapsToMiddle | main.py:839 | coordinate 0.5 maps to pixel `size // 2` |
| Calibration.PolyInFrame | main.py:839 | clamped points map inside the image, right and bottom edges included |
| Calibration.DrawPlan | main.py:840-849 | one polyline (when there are at least two points) plus three commands per point |
| Calibration.PlanDrawing | main.py:840-849 | the drawing loop issues exactly the draw plan, in order |
| Calibration.OutlineIsClosed | main.py:840-841 | the polyline is red, 3 wide, has n + 1 vertices and ends where it starts; it holds every edge `poly[i] -> poly[(i+1) % n]` |
| Calibration.MarkersOfPoint | main.py:842-847 | point i gets a red ring box `(x±10, y±10)` of width 3, a filled red dot box `(x±3, y±3)` and the label `str(i+1)` at `(x+12, y-14)` |
| Calibration.PrepareSave | main.py:797-819 | a validation failure returns its error with the filesystem unchanged. Otherwise the session's directories are provisioned; `snapshot not found` when no candidate exists; else the first existing candidate is chosen |
| Calibration.RenderResponse | main.py:824-865 | a saved answer echoes `id`, the unchanged `zoomf` and the given points, and its image is a `data:image/jpeg;base64,` URL; a failure to open the image answers that failure |
| Calibration.RenderLocked | main.py:822-865 | takes the `(sid, id)` lock before the image work: a lock already stored for that key is reused and the map is unchanged, otherwise only that key is added; answers with the echoed id and zoomf, the points, the JPEG data URL and the two fixed messages, or the image library's error |
| Calibration.SaveCalibration | main.py:794-869 | every rejection happens before a lock is taken and leaves the lock map unchanged. Otherwise the lock for `(sid, id)` is registered, an already stored one is kept with the map unchanged, and the answer is the rendered response for the first existing snapshot; a saved answer always echoes `id`, the unchanged `zoomf` and the clamped points |
| Sessions.CredentialError | main.py:1002-1007 | no error exactly when the user is known and the password is `123456`; an unknown user is reported before a wrong password |
| Sessions.UnknownUserRejectedFirst | main.py:1003-1004 | an unknown user name is rejected whatever the password |
| Sessions.SessionStore.constructor | main.py:883 | no sessions at start-up |
| Sessions.SessionStore.CreateSession | main.py:885-888 | stores the fresh token with `exp = now + SESSION_TTL` and returns it |
| Sessions.SessionStore.UserFromCookie | main.py:890-900 | the answer and the new map are those of the lookup specification |
| Sessions.LookupSession | main.py:890-900 | definition of `_get_user_from_cookie`: `None` for a missing, empty or unknown token; an expired session (`exp < now`) is removed; otherwise the expiry moves to `now + SESSION_TTL` and the user is answered. UnknownTokenChangesNothing, ExpiryIsStrict, LookupRenews and CreatedSessionLifetime state its properties |
| Sessions.SessionStore.RequireLogin | main.py:902-906 | 401 `unauthorized` unless the lookup yields a non-empty user; the map changes as the lookup changes it |
| Sessions.SessionStore.Logout | main.py:1011-1014 | removes the cookie's token, if any |
| Sessions.LoggedOut | main.py:1013-1014 | definition: the map without the cookie's token when the cookie is non-empty, else unchanged; LogoutIdempotent states its property |
| Sessions.SessionStore.ApiLogin | main.py:999-1009 | a failed check answers its message and changes no session; success creates the session, sets the cookie to the token with max-age `SESSION_TTL`, and answers the user |
| Sessions.UnknownTokenChangesNothing | main.py:891-894 | a missing, empty or unknown token answers `None` and leaves the map unchanged |
| Sessions.ExpiryIsStrict | main.py:895-897 | `exp < now` removes only that token and answers `None`; `exp == now` is still live |
| Sessions.LookupRenews | main.py:898-900 | a successful lookup keeps every key and every other session, and the session stays live for one TTL afterwards |
| Sessions.CreatedSessionLifetime | main.py:885-897 | a new session is answered up to one TTL after creation and removed by a later lookup |
| Sessions.LogoutIdempotent | main.py:1011-1014 | logging out twice equals logging out once, and the token is no longer answered |
| Devices.Shape | main.py:1077-1083 | the record has the remote id, status and name, `last_seen = 0`, and `stream_url` defaulting to `""` |
| Devices.StrLess | main.py:1085 | definition of Python's string `<`: code-point lexicographic order, a proper prefix first; StrLessIrreflexive, StrLessTransitive and StrLessTotal state that it is a strict total order |
| Devices.KeyLess | main.py:1085 | definition of `<` on the key `(not online, device_id)`: online before offline, then by id; KeyAtMostTransitive and KeyAtMostTotal state that it gives a total preorder |
| Devices.StrLessIrreflexive | main.py:1085 | string `<` is irreflexive |
| Devices.StrLessTransitive | main.py:1085 | string `<` is transitive |
| Devices.StrLessTotal | main.py:1085 | distinct strings are ordered one way or the other |
| Devices.KeyAtMostTransitive | main.py:1085 | the tuple-key order is transitive |
| Devices.KeyAtMostTotal | main.py:1085 | the tuple-key order is total |
| Devices.Insert | main.py:1085 | inserting adds exactly one element and keeps a sorted list sorted |
| Devices.SortDevices | main.py:1085 | the sorted list is ordered by key and is a permutation of the input |
| Devices.WithKeyInsert | main.py:1085 | insertion puts the new element before every element of equal key |
| Devices.SortIsStable | main.py:1085 | elements with equal keys keep their input order |
| Devices.SortedOrder | main.py:1085 | in a sorted list, online devices precede offline ones and ids ascend within each group |
| Devices.BuildItems | main.py:1075-1085 | the result is sorted, is a permutation of the shaped entries, and is stable; every item is the shape of some remote entry and has `last_seen = 0` |
| Devices.ListMyDevices | main.py:1069-1087 | a fetch failure answers `fetch remote devices failed: ` followed by its description; otherwise the sorted, stable permutation of the shaped entries |

## Left out

- The `/stream/flv` relay (main.py:332-360): HTTP streaming, cancellation and client-disconnect detection are asynchronous I/O.
- The image library: decoding, RGB conversion, rasterising lines, ellipses and text, font fallback, and JPEG encoding. `openImage` and `encodeJpeg` are parameters of `SaveCalibration`, and only the coordinates of what is drawn are modelled.
- The exception that `draw.text` may raise and that is silently ignored: the label command is always part of the plan.
- Base64 decoding in `upload_snapshot` is the parameter `b64decode`. Base64 encoding is inside `encodeJpeg`.
- The asyncio lock's mutual exclusion: concurrency is not modelled, only the registry map.
- The remote video-platform adapter: `_admin_token`, `_user_token`, the clock-bucketed `lru_cache` of users, and the HTTP calls of `remote_devices_for_user`. The user set and the fetched device list, or a description of the failure, are passed in.
- Randomness and the wall clock: `secrets.token_urlsafe`, `time.time()` and `datetime.now()` are parameters.
- `_get_user_from_cookie` reads `time.time()` twice, for the expiry test and the renewal; the model uses one reading `now` for both.
- The HTML and JavaScript pages: player, calibrate, login and portal, including the client-side calculations. The `/static` mount, the file serving itself and the `/api/field-calibration` sample answer are also left out. The `/calib` mount's mapping from address to file is modelled by `Upload.ServedFile`.
- Timestamp.NowId: does not model Python's `%Y` without zero padding for years below 1000; the model always pads the year to four digits. The microsecond of `datetime.now()` is dropped because the format never prints it.
- SessionIds.IsAlnum: Python's `isalnum` accepts every Unicode letter and digit; the model accepts only ASCII letters and digits.
- Upload.Lower: `str.lower` is modelled on ASCII letters only.
- Calibration.Clamp: coordinates are `real`, so the model does not capture floating-point rounding in `x*W`. Non-finite values (NaN, infinity) are also not modelled.
- Calibration.CheckPoints: pydantic guarantees a list of lists of floats here, so every entry is a sequence of reals. The `isinstance` test is therefore modelled only through the length check.
- Filesystem errors: directory creation and file writes always succeed in the model. The generic `except Exception` answers of `upload_snapshot` and `save_calibration` are modelled only for the failures of the passed-in decoder and image functions.
- Path normalisation: `.`, `..`, and symbolic links in paths are not modelled. `os.path.exists` is membership in the set of existing directories and files.
- Devices.SortDevices: Python's `list.sort` (Timsort) is modelled as a stable insertion sort. Both sorts are stable, so they give the same order. Device ids are modelled as strings. Python would sort integer ids numerically, and it raises `TypeError` only when it must compare ids of unorderable types, such as a `None` id and a string id with the same `online` flag.
- Response headers other than the login cookie's token and max-age are not modelled: `Cache-Control` and the cookie attributes `httponly`, `samesite` and `path`.
- Sessions.SessionStore.ApiLogin: the fetch of the user list by `remote_users()` (main.py:1002) can raise, through `raise_for_status` (main.py:936) or a network error. That exception is not handled in `api_login` and becomes a server error. The model takes the user set as given and does not model this failure.
- Sessions.SessionStore.Logout: models only the removal of the session. The `delete_cookie("auth_token", path="/")` header and the HTML page it answers (main.py:1015-1016) are not modelled.
- The traceback logging (`print(..., traceback.format_exc())`) in the exception handlers of `upload_snapshot` and `save_calibration` (main.py:382, main.py:868) is console output and is not modelled.
- The two handlers describe a failure differently: `upload_snapshot` answers `str(e)` and `save_calibration` answers `TypeName: message`. The model passes each description in as the failure value of `b64decode`, `openImage` and `encodeJpeg`.
