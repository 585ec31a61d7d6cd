# HyperLearn local store — a Dafny model

HyperLearn is a browser-only learning application. All of its logic that is not rendering lives in
`hyperlearn/src/App.jsx`. It keeps accounts, one session, per-tutorial progress and the tutorial
catalog under four localStorage keys. It hashes passwords with SHA-256, rendered by `bytesToHex`.
It also filters the tutorial list by a search query. This project models that logic and proves what
it promises.

Modules, one per component:

- `Wrappers` (`wrappers.dfy`): `Option` and `Result`, which stand for `null` and thrown errors.
- `Text` (`text.dfy`): the JavaScript primitives the code relies on. These are `toString(radix)`,
  `toLowerCase`, `includes`, `slice(-n)` and `join`.
- `Hex` (`hex.dfy`): `bytesToHex`, and its inverse `HexToBytes`. The inverse is not in the program.
  It is there to state that the encoding loses nothing.
- `Json` (`json.dfy`): a localStorage key as a `Slot`. A slot is missing, empty text, malformed text,
  or a parsed value. `readJSON` is modelled with its fallback.
- `Catalog` (`catalog.dfy`): the tutorial record, a shortened seed catalog, and the search filter.
- `Progress` (`progress.dfy`): progress records and the field-level merge used by `saveProgress`.
- `Storage` (`storage.dfy`): a `Snapshot` of the four keys. Each operation is a step function from
  snapshot to snapshot plus a result. The lemmas about the operations are stated here.
- `LocalStore` (`local_store.dfy`): class `BrowserStore`. Its fields are the four keys, and its
  methods update them in place. Each method's `ensures` ties the new state and the result to the
  matching `Storage` step function.

Collaborators that are passed in:

- The browser's SHA-256 is a `Digest` function value (`string -> seq<uint8>`) held by the store. It
  is deterministic but not assumed to be injective. `sha256(text)` is `BytesToHex(digest(text))`, as
  at line 16.
- `Date.now()` is given as a `now: nat` parameter.

Three behaviours of the code are easy to misread:

- The search filter lower-cases the title and the query, but not the joined tags. A tag query is
  therefore case-sensitive on the tag side, and a tag written in capitals is never found by searching
  for that tag (`Catalog.UpperCaseTagMissed`).
- The password check compares digests, not passwords. A different password with the same digest
  signs in (`Storage.CollidingPasswordSignsIn`). So a wrong password is rejected only when its
  digest differs from the stored one.
- Only `saveProgress` reads the progress key, and nothing displays it. `Storage.ProgressOf` exists
  only to state properties.

## Model

| member | source | states |
|---|---|---|
| `Text.Radix` | hyperlearn/src/App.jsx:9 | `n.toString(base)` is never empty, and it is one digit exactly when `n` is below the base |
| `Text.ContainsEmpty` | hyperlearn/src/App.jsx:293 | every string `includes` the empty query |
| `Text.JoinContainsPart` | hyperlearn/src/App.jsx:293 | each tag occurs inside the tags joined with `' '` |
| `Text.DigitChar` | hyperlearn/src/App.jsx:9 | digit `d` below 36 is written `0-9` for values below 10 and `a-z` above, each character standing for its own value; digits below 16 are lower-case hex digits |
| `Text.SliceFromEnd` | hyperlearn/src/App.jsx:9 | `s.slice(-n)` is the last `n` characters of `s`, or all of `s` when it is shorter; `s.slice(-0)` is all of `s` |
| `Text.ToLower` | hyperlearn/src/App.jsx:293 | `toLowerCase` keeps the length and lower-cases each character independently (ASCII letters) |
| `Text.Contains` | hyperlearn/src/App.jsx:293 | `includes` holds when the string starts with the query, and only when the query is no longer than the string |
| `Text.Join` | hyperlearn/src/App.jsx:293 | joining no parts gives `""`; otherwise the joined string starts with the first part |
| `Hex.ByteToHex` | hyperlearn/src/App.jsx:9 | `("00" + x.toString(16)).slice(-2)` is exactly two lower-case hex digits: the high nibble, then the low nibble (zero-padded) |
| `Hex.BytesToHex` | hyperlearn/src/App.jsx:7-11 | n bytes give 2·n characters; byte i fills positions 2i and 2i+1 with its two digits |
| `Hex.BytesToHexAlphabet` | hyperlearn/src/App.jsx:7-11 | every output character is one of `0-9a-f` |
| `Hex.DigitValue` | hyperlearn/src/App.jsx:9 | a character has a digit value exactly when it is a lower-case hex digit, and that digit prints back as the character |
| `Hex.HexRoundTrip` | hyperlearn/src/App.jsx:7-11 | decoding the output of `bytesToHex` gives back the bytes |
| `Hex.HexToBytesInverse` | hyperlearn/src/App.jsx:7-11 | every string the decoder accepts is exactly what `bytesToHex` prints for the decoded bytes |
| `Hex.BytesToHexInjective` | hyperlearn/src/App.jsx:7-11 | different byte buffers render as different strings |
| `Json.ReadJSON` | hyperlearn/src/App.jsx:24-31 | the parsed value when the key holds valid JSON; the fallback when the key is absent, empty or malformed |
| `Json.ReadJSONOrNull` | hyperlearn/src/App.jsx:24-31 | with a `null` fallback, a value is returned exactly when the key holds valid JSON |
| `Storage.Sha256` | hyperlearn/src/App.jsx:12-17 | the digest string has two lower-case hex digits per digest byte, so 64 digits for a 32-byte SHA-256 digest |
| `Storage.SessionToken` | hyperlearn/src/App.jsx:83 | the token is the digest of email plus `Date.now().toString()`: lower-case hex, 64 digits for a 32-byte digest |
| `Storage.UsersOf` | hyperlearn/src/App.jsx:70 | `readJSON(USERS, {})`: the stored user map when the key holds parsed JSON, otherwise the empty map |
| `Storage.ProgressMapOf` | hyperlearn/src/App.jsx:296 | `readJSON(PROGRESS, {})`: the stored progress map when the key holds parsed JSON, otherwise the empty map |
| `Storage.FoundAsWritten` | hyperlearn/src/App.jsx:71 | `users[email]` is truthy for every stored email and for every name inherited from `Object.prototype`; for any other name, exactly when a record is stored |
| `Storage.SessionOf` | hyperlearn/src/App.jsx:90-92 | `getSession` returns a session exactly when the session key holds parsed JSON, and then it returns that session |
| `Storage.UserOf` | hyperlearn/src/App.jsx:93-96 | `getUser` returns a record exactly when one is stored under the email, and returns that record; nothing when the users key cannot be read |
| `Storage.CurrentUser` | hyperlearn/src/App.jsx:356-358 | there is a current user exactly when a session is stored and its email has a record, and the current user is that record |
| `Storage.CatalogOf` | hyperlearn/src/App.jsx:280 | the stored catalog when the key holds parsed JSON, otherwise the sample catalog |
| `Storage.CreateUserStep` | hyperlearn/src/App.jsx:69-76 | fails exactly when the email has a record, then with "User already exists" and no change; otherwise returns a record with this email and `sha256(password)` and stores it under the email; the session, progress and catalog never change |
| `Storage.SignInStep` | hyperlearn/src/App.jsx:77-86 | succeeds exactly when the email has a record whose `passHash` equals `sha256(password)`; on failure nothing changes; on success a session with this email becomes the stored one; users, progress and catalog never change |
| `Storage.SignOutStep` | hyperlearn/src/App.jsx:87-89 | afterwards there is no session; users, progress and catalog are unchanged |
| `Storage.SaveProgressStep` | hyperlearn/src/App.jsx:295-299 | the tutorial's record becomes the merge of its old record (or `{}`) with the update; other tutorials' records, users, session and catalog are unchanged |
| `Storage.BootstrapStep` | hyperlearn/src/App.jsx:351-354 | afterwards a catalog is stored; a stored catalog is left untouched; users, session and progress are unchanged |
| `Storage.FailureMessages` | hyperlearn/src/App.jsx:69-85 | each failure carries the message the code throws, and the three messages are different |
| `Storage.CreateUserStepAsWritten` | hyperlearn/src/App.jsx:71 | as written, every name inherited from `Object.prototype` is rejected with "User already exists" and nothing changes; every other email behaves as in `CreateUserStep` |
| `Storage.SignInStepAsWritten` | hyperlearn/src/App.jsx:79-82 | as written, an inherited name without a stored record fails with "Incorrect password" and nothing changes; every other email behaves as in `SignInStep` |
| `Storage.CreateUserRejectsExisting` | hyperlearn/src/App.jsx:69-71 | an email already in the user map fails with "User already exists", and nothing is stored |
| `Storage.CreateUserAddsOne` | hyperlearn/src/App.jsx:72-75 | a new email adds exactly one entry `{email, passHash = sha256(password), displayName, createdAt}` and returns it; other users, the session, progress and catalog are unchanged |
| `Storage.CreateUserKeepsWellKeyed` | hyperlearn/src/App.jsx:73 | every record stays stored under its own email |
| `Storage.SignInOutcome` | hyperlearn/src/App.jsx:77-85 | "No user with that email" exactly when the email is absent; "Incorrect password" exactly when the digest differs from the stored `passHash`; no change on failure; on success the stored user is returned, and the session with this email replaces the stored one |
| `Storage.SignInReturnsOwnRecord` | hyperlearn/src/App.jsx:79-85 | in a store whose records sit under their own emails, sign-in returns the record for the given email, and that user becomes the current user |
| `Storage.SessionIsReplaced` | hyperlearn/src/App.jsx:83-84 | after two sign-ins, only the second session is stored |
| `Storage.CollidingPasswordSignsIn` | hyperlearn/src/App.jsx:81-82 | any password with the same digest as the registered one is accepted |
| `Storage.RegisterThenSignIn` | hyperlearn/src/App.jsx:223-224 | for a new email, `createUser` then `signIn` with the same credentials succeeds; it returns the created record and stores its session, and that user becomes the current user |
| `Storage.NoSessionUnlessStored` | hyperlearn/src/App.jsx:90-92 | `getSession` is null exactly when the session key is missing, empty or corrupt, and then there is no current user |
| `Storage.SignOutEndsSession` | hyperlearn/src/App.jsx:87-89 | after `signOut` there is no session and no current user; signing out twice is the same as once; users are untouched |
| `Storage.SaveProgressMerges` | hyperlearn/src/App.jsx:295-299 | `progress[tid]` gains every field of the update with its value, keeps its other fields, and no other tutorial's record changes |
| `Storage.SaveProgressKeepsEarlierFields` | hyperlearn/src/App.jsx:297 | two saves to one tutorial equal one merge of both updates, so fields from the first save survive the second |
| `Storage.BootstrapWritesOnlyWhenAbsent` | hyperlearn/src/App.jsx:351-354 | a stored catalog is left as it is; otherwise the seed is written |
| `Storage.BootstrapTwice` | hyperlearn/src/App.jsx:351-354 | a second bootstrap, even with a different seed, changes nothing |
| `Storage.BootstrapKeepsLoadedCatalog` | hyperlearn/src/App.jsx:351-354 | bootstrapping with the sample catalog never changes the catalog that the learning screen loads |
| `Storage.InheritedEmailCannotRegister` | hyperlearn/src/App.jsx:71 | as written, registering "constructor" in an empty store fails with "User already exists"; the own-key reading lets it succeed |
| `Storage.InheritedEmailWrongMessage` | hyperlearn/src/App.jsx:79-82 | as written, signing in as "toString" in an empty store reports "Incorrect password" instead of "No user with that email" |
| `Storage.AsWrittenAgreesElsewhere` | hyperlearn/src/App.jsx:71 | for any email that is not inherited from `Object.prototype`, both readings of `createUser` and `signIn` agree |
| `Catalog.Matches` | hyperlearn/src/App.jsx:293 | the empty query matches every tutorial, and so does a query equal to the title up to case |
| `Catalog.Filtered` | hyperlearn/src/App.jsx:293 | a tutorial is in the result exactly when it is in the catalog and its lower-cased title, or its space-joined tags, contain the lower-cased query |
| `Catalog.FilteredIsSubsequence` | hyperlearn/src/App.jsx:293 | the result is a subsequence of the catalog, in catalog order |
| `Catalog.FilteredAppend` | hyperlearn/src/App.jsx:293 | filtering a concatenation is the concatenation of the filtered parts |
| `Catalog.FilteredSingleton` | hyperlearn/src/App.jsx:293 | a single tutorial is kept exactly when it matches; with `FilteredAppend`, this determines the whole result |
| `Catalog.FilteredEmptyQuery` | hyperlearn/src/App.jsx:293 | the empty query returns the whole catalog |
| `Catalog.FilteredIdempotent` | hyperlearn/src/App.jsx:293 | filtering the result again changes nothing |
| `Catalog.TagQueryMatches` | hyperlearn/src/App.jsx:293 | a lower-case query equal to one of a tutorial's tags finds that tutorial |
| `Catalog.UpperCaseTagMissed` | hyperlearn/src/App.jsx:293 | the tags are not lower-cased: a tutorial tagged "CSS" with an empty title is not found by the query "CSS" |
| `Progress.Merge` | hyperlearn/src/App.jsx:297 | the merged record has the fields of both records; the update's values win, and other fields keep their values |
| `Progress.MergeTwice` | hyperlearn/src/App.jsx:297 | two merges in a row equal one merge of the later update over the earlier |
| `Progress.MergeDisjointCommutes` | hyperlearn/src/App.jsx:297 | updates to different fields give the same record in either order |
| `Progress.MergeIdempotent` | hyperlearn/src/App.jsx:297 | saving the same update twice equals saving it once |
| `LocalStore.BrowserStore.GetSession` | hyperlearn/src/App.jsx:90-92 | the stored session, or none when the key is absent, empty or corrupt |
| `LocalStore.BrowserStore.GetUser` | hyperlearn/src/App.jsx:93-96 | the record stored under the email, or none |
| `LocalStore.BrowserStore.CreateUser` | hyperlearn/src/App.jsx:69-76 | new state and result are those of `CreateUserStep`; it succeeds exactly when the email had no record before and has one after |
| `LocalStore.BrowserStore.SignIn` | hyperlearn/src/App.jsx:77-86 | new state and result are those of `SignInStep`; on success the new session is stored, and on failure the session slot is untouched |
| `LocalStore.BrowserStore.SignOut` | hyperlearn/src/App.jsx:87-89 | the session key is removed and nothing else changes |
| `LocalStore.BrowserStore.SaveProgress` | hyperlearn/src/App.jsx:295-299 | the new state is that of `SaveProgressStep` |
| `LocalStore.BrowserStore.Bootstrap` | hyperlearn/src/App.jsx:351-354 | the new state is that of `BootstrapStep`; a stored catalog is kept |
| `LocalStore.BrowserStore.LoadCatalog` | hyperlearn/src/App.jsx:280-287 | returns the stored catalog, or the sample catalog when none can be read, and writes that catalog back |
| `LocalStore.BrowserStore.RegisterAndSignIn` | hyperlearn/src/App.jsx:222-225 | for a new email: signed in as the freshly created record, which becomes the current user; the new state is the old one with exactly that record added and that session stored; for an existing email: "User already exists" and nothing changes |

## Findings

| source | as written | input that shows it | evidently intended | confidence | as-written member | corrected member |
|---|---|---|---|---|---|---|
| hyperlearn/src/App.jsx:71 | `if (users[email])` is also true for names inherited from `Object.prototype` | `createUser("constructor", p, n)` in an empty store throws "User already exists" | reject only emails that already have a stored record | high, not executed | `Storage.CreateUserStepAsWritten` (shown by `Storage.InheritedEmailCannotRegister`) | `Storage.CreateUserStep` (proved by `Storage.CreateUserAddsOne`) |
| hyperlearn/src/App.jsx:79-82 | `u = users[email]` is a function for inherited names, and its `passHash` is undefined | `signIn("toString", p)` in an empty store throws "Incorrect password" | "No user with that email" | high, not executed | `Storage.SignInStepAsWritten` (shown by `Storage.InheritedEmailWrongMessage`) | `Storage.SignInStep` (proved by `Storage.SignInOutcome`) |

The rest of the model uses the own-key readings, except for the `__proto__` case of `saveProgress`
listed under `Storage.SaveProgressStep` below.

## Left out

- `Storage.UserOf` and `LocalStore.BrowserStore.GetUser` look only at stored records. As written,
  line 95 performs the same inherited lookup as line 71, so `getUser("toString")` returns the
  inherited function instead of `null`. The model follows the own-key reading used everywhere else.
- `Storage.SaveProgressStep` and `LocalStore.BrowserStore.SaveProgress` store the record for every
  tutorial id. As written, with `tid == "__proto__"` the assignment at line 297 calls the inherited
  `__proto__` setter: it changes the prototype of `p` instead of adding a key, so `writeJSON` drops the
  record. The model stores it.
- `Storage.CreateUserStep`, `Storage.SignInStep` and `Storage.SaveProgressStep` assume every write
  succeeds. `localStorage.setItem` in `writeJSON` (line 33) can throw, for example when the quota is
  exceeded. `createUser`, `signIn` and `saveProgress` then reject, and nothing is stored.
- The `Runner` component (lines 98-137) is not modelled. That covers the sandboxed iframe,
  `doc.write`, the patched `console.log`, the window event plumbing and the log-line formatting. All
  of it is browser isolation that a verifier cannot observe.
- The React components are not modelled: `Editor`, `Header`, `Auth`, `SignUp`, `SignIn`, the layouts
  of `LearningApp` and `App`, animation, the theme toggle and the clipboard copy. Presentation only.
- The sign-up form's checks are not modelled: the "Email and password required" check and the
  `name || email` default at lines 220 and 223. They are form handling. `RegisterAndSignIn` starts
  from the arguments the form passes.
- SHA-256 and `TextEncoder` are not modelled. They are a foreign call, so the `Digest` function
  value stands for both.
- JSON text, `JSON.stringify` and `JSON.parse` are not modelled. A `Slot` holds the parsed value.
  Stored text that parses to a value of another shape (for example `null` or a number) is not
  represented.
- `Date.now()` is not modelled. Timestamps are parameters, and the contents of session tokens are
  opaque.
- `Text.Radix` and `Storage.SessionToken` write every number in plain digits. JavaScript writes
  base-10 numbers from 10^21 upwards in exponent notation, so `Date.now().toString()` would differ
  there. Millisecond timestamps stay far below that bound.
- `toLowerCase` is modelled for ASCII letters only. Unicode case mapping is not modelled.
- The seed catalog keeps the ids, titles, tags, durations, difficulties and hints of lines 36-67.
  Its content and starter documents are shortened, because no property depends on them.
- Progress records hold string values only, since the application saves `notes` text. Key order
  inside JSON objects is not modelled, because nothing depends on it.
- `async`/`await` interleaving is not modelled. Every operation runs to completion before the next
  one starts.
- Timestamps are unbounded integers. JavaScript numbers are doubles, but millisecond timestamps are
  exact in that range.
