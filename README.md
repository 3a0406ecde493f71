# Events web client: page state and response rules

A Dafny model of the three pages of the events web client that hold logic:

- **HomePage** (`Home`): the roster of events the signed-in user sees, the
  loading flag, the fetch that replaces the roster, and the join/leave
  handlers that patch one record's membership flag only after the server
  confirms. The patch is the source's own search loop, which keeps the LAST
  matching index, followed by a write into a copy of the list.
- **LoginPage** (`Login`): the length rules and messages of the sign-in
  schema, the request path, and how the response status becomes an error
  line or a navigation to `/Inicio`. Status 204 is tested before `ok`, so a
  204 is refused with "Usuário ou senha inválidos".
- **CreateEventPage** (`CreateEvent`): the required fields of the schema,
  the date string `date + "T" + hour`, the busy flag that brackets `create`,
  the form reset on success, and the place list and its dialog.

`Replies` holds what the repositories resolve with: a `Reply` whose `message`
is either absent or a string, plus a payload. The pages test the message in
two ways. `HasMessage` is `message !== undefined` and is used by the join,
leave and place-loading handlers. `HasTruthyMessage` is `if (message)` and is
used by event creation. The two differ on an empty message. `Text` holds
JavaScript's string length (UTF-16 code units), used by the schema's length
rules, and a first-separator split, used to state what the concatenated
strings keep of their parts.

Each page is a class whose fields are the page's `useState` values, plus a
log of toasts, requests and navigations and, on the creation page, the
form's values. Each handler is a method that runs
atomically on the current state. A network call is a parameter holding the
value it resolved with. For `onSubmit` of the creation page, the `await`
splits the handler into `OnSubmit`, which raises the busy flag and issues the
request, and `OnCreated`, which lowers it and reports the outcome.

Inputs taken as parameters rather than computed: the repositories' replies
(`getAllEvents`, `enterInEvent`, `exitOfEvent`, `getAll`, `create`), the
outcome of `fetch` on the sign-in path, the user id, the API base address
`ipAPI`, and the validation library's verdict on the shape of an email
address.

Three behaviours of the roster code worth knowing:
- a patch selects the last record with the id, because the search loop
  never breaks (`PatchedUnique` shows this is the only such record when
  ids are unique);
- patching an absent id throws at `tempEvents[-1]`, so the model makes a
  present id a precondition of the success path rather than a no-op;
- the fetched list is installed without any failure test.

The email length message says 100 while the enforced bound is 50. The model
keeps both exactly as written (`EmailTooLong`, `EmailMaxLength`).

## Model

| member | source | states |
|---|---|---|
| Home.LastIndex | site/src/home/presenter/HomePage.js:62-67 | the search result is -1 exactly when no record has the id; otherwise that record has the id and no later one does (the loop never breaks) |
| Home.FindLastIndex | site/src/home/presenter/HomePage.js:62-67 | the `for` loop ends with exactly `LastIndex` of the list and the id |
| Home.Patched | site/src/home/presenter/HomePage.js:69-72 | for a present id: same length and order, every id and every other field kept, only the found record's `is_in_event` changed to the given flag |
| Home.PatchedUnique | site/src/home/presenter/HomePage.js:61-72 | with unique ids, exactly the record carrying the id gets the new flag, all others are identical, and ids stay unique |
| Home.PatchedTwice | site/src/home/presenter/HomePage.js:61-72 | repeating a patch with the same flag leaves the list unchanged |
| Home.ShowEvents | site/src/home/presenter/HomePage.js:75-81 | the empty-state card exactly when the list is empty, otherwise the grid over the whole list in order |
| Home.Render | site/src/home/presenter/HomePage.js:94-98 | the loading view exactly while loading, whatever the list; otherwise the empty state for an empty list and the grid of all events for a non-empty one (`HomePage.View` applies it to the page's fields) |
| Home.HomePage.constructor | site/src/home/presenter/HomePage.js:15-16 | the page starts with an empty list, loading, and no toasts |
| Home.HomePage.BeginFetch | site/src/home/presenter/HomePage.js:22 | the loading flag is raised before the fetch; the list is untouched |
| Home.HomePage.OnEventsFetched | site/src/home/presenter/HomePage.js:23-27 | the list becomes exactly the fetched list (no merge) and loading becomes false |
| Home.HomePage.UpdateEvent | site/src/home/presenter/HomePage.js:61-73 | the new list is `Patched` of the old one; loading and toasts unchanged |
| Home.HomePage.OnEnterEvent | site/src/home/presenter/HomePage.js:41-49 | a reply with a message appends exactly one error toast with that text and leaves the list unchanged; otherwise the event's flag becomes true and no toast is added |
| Home.HomePage.OnExitEvent | site/src/home/presenter/HomePage.js:51-59 | the same rule, with the flag becoming false on success |
| Text.Utf16Length | site/src/login/presenter/LoginPage.js:16-21 | the JavaScript length the length rules measure: between the character count and twice it, and equal to it exactly when no character needs a surrogate pair |
| Login.EmailError | site/src/login/presenter/LoginPage.js:12-16 | the email passes exactly when it is non-empty, well-formed and at most 50 UTF-16 code units long; otherwise the first broken rule's message (the length message reads 100) |
| Login.PasswordError | site/src/login/presenter/LoginPage.js:17-21 | the password passes exactly when it is 4 to 50 UTF-16 code units long; otherwise the required, too-short or too-long message, each in exactly its case |
| Login.PasswordLengthInCodeUnits | site/src/login/presenter/LoginPage.js:20-21 | two characters outside the Basic Multilingual Plane already meet the minimum of 4; a password with no such character is measured by its character count |
| Login.SignInPath | site/src/login/presenter/LoginPage.js:39 | the string handed to `fetch` starts with the base address followed by `/login/signin/` |
| Login.SignInPathSegments | site/src/login/presenter/LoginPage.js:39 | in that string, after the prefix come the email, a slash and the password, unescaped; splitting it at the first slash gives back email and password exactly when the email has no slash |
| Login.SignInResult | site/src/login/presenter/LoginPage.js:41-55 | 204 is refused as invalid credentials; any other status outside 200..299 is refused as a server problem; another 2xx with a JSON body signs in; a network failure or an unparsable body is swallowed |
| Login.SignedInOnlyOnOkBody | site/src/login/presenter/LoginPage.js:42-50 | a named restatement of the 204 case: signing in implies a 2xx status other than 204, and 204 is refused although it is an ok status |
| Login.LoginPage.constructor | site/src/login/presenter/LoginPage.js:28 | the error line starts empty, with no navigation and no request |
| Login.LoginPage.OnSubmit | site/src/login/presenter/LoginPage.js:37-56 | the path is requested once; a refusal sets the error line to its message without navigating; a sign-in clears it and navigates once to `/Inicio`; a swallowed failure changes neither |
| Login.LoginPage.HandleSubmit | site/src/login/presenter/LoginPage.js:79 | a form the schema rejects sends nothing and changes nothing; an accepted form sends the path once, and then: a refusal sets the error line to its message without navigating, a sign-in clears it and navigates to `/Inicio`, and a swallowed failure changes neither |
| Replies.MessageTestsDiffer | site/src/create_event/presenter/CreateEventPage.js:52-67 | a truthy message is always a defined one, and the tests disagree exactly on the empty message |
| CreateEvent.FieldErrors | site/src/create_event/presenter/CreateEventPage.js:15-27 | no message exactly when title, description, date and hour are non-empty and the place is a number; each field's message appears exactly when that field fails |
| CreateEvent.EventDate | site/src/create_event/presenter/CreateEventPage.js:61 | the combined string is one character longer than the two fields together |
| CreateEvent.EventDateSplits | site/src/create_event/presenter/CreateEventPage.js:61 | splitting the combined string at its first T gives back date and hour exactly when the date holds no T |
| CreateEvent.CreateEventPage.constructor | site/src/create_event/presenter/CreateEventPage.js:32-42 | no places, button idle, dialog closed, no toasts, blank form |
| CreateEvent.CreateEventPage.Edit | site/src/create_event/presenter/CreateEventPage.js:115 | typing into the registered inputs changes only the form values |
| CreateEvent.CreateEventPage.LoadAllPlaces | site/src/create_event/presenter/CreateEventPage.js:50-58 | a defined message (empty included) appends one error toast and keeps the places; otherwise the places become the reply's data |
| CreateEvent.CreateEventPage.OpenAddPlace | site/src/create_event/presenter/CreateEventPage.js:162 | the plus button opens the dialog and changes nothing else |
| CreateEvent.CreateEventPage.CloseAddPlace | site/src/create_event/presenter/CreateEventPage.js:84 | the dialog's close callback hides it and changes nothing else |
| CreateEvent.CreateEventPage.OnAddedLocal | site/src/create_event/presenter/CreateEventPage.js:76-79 | the dialog is closed and the places are reloaded by the `LoadAllPlaces` rule |
| CreateEvent.CreateEventPage.OnSubmit | site/src/create_event/presenter/CreateEventPage.js:60-64 | the button turns busy and exactly one `create` request is issued with the user id, title, description, `date + "T" + hour` and the place |
| CreateEvent.CreateEventPage.OnCreated | site/src/create_event/presenter/CreateEventPage.js:65-73 | the button is released on both paths; a truthy message adds one error toast and keeps the form; otherwise (an empty message too) one "Evento Criado" toast is added and the form is reset |
| CreateEvent.CreateEventPage.HandleSubmit | site/src/create_event/presenter/CreateEventPage.js:108 | values the schema rejects send nothing and leave the busy flag as it was; accepted values start `OnSubmit` with them |

## Left out

- The masonry grid (`Masonry` from `masonic`): its column packing and virtualization are library code; the model records only that the grid receives the whole list in order.
- The repositories and `fetch`: their code is not part of this model; each call is the value it resolved with, passed as a parameter.
- Asynchronous interleaving: each handler runs atomically on the current state. A handler created in an older render searches and copies the list it captured, not the current one. If a later fetch replaced the list in between, that handler reinstalls the list from before the fetch. When two replies for the same record arrive, the last one to arrive decides its flag. A second submit can also arrive while `create` is pending. None of this is modelled.
- Aliasing in `updateEvent`: the spread copies the array but shares the record objects, so the write at line 70 also changes that record inside the list it was copied from, which older handlers may still hold. The model treats records as values and the list as a single current value, so it does not capture this sharing.
- CreateEvent.CreateEventPage.OnCreated: the reset on success is modelled as blank values with the place unset (`BlankForm`). The form declares no default values, so `reset()` falls back to the browser's native form reset, and that puts a select with loaded places back on its first option. The model does not capture this. How the form library's stored value and the select's displayed value relate after that reset is library behaviour, not source code. In the model, a second submit with the select untouched is rejected for the place. In the page, it may be sent with the first place.
- URL parsing by `fetch`: `Login.SignInPathSegments` is about the string handed to `fetch`. The model does not cover how `fetch` turns that string into a request. A `#` starts a fragment that is never sent, a `?` starts a query, a `\` reads as `/`, `.` and `..` segments are collapsed, and non-ASCII characters are percent-encoded. So a password such as `pa#ss` reaches the server as `pa`.
- `Home.HomePage.OnEventsFetched`: assumes the fetch resolves with a list of records. The source installs whatever the repository returns, without a failure test.
- `Login.EmailError`: the email-format test is the validation library's; it enters as the boolean `wellFormed`. The order of its messages and the choice of the first one follow the schema's declaration order, not a model of the library.
- `CreateEvent.FieldErrors`: the cast of the select's text to a number is the library's; it enters as `local: Option<int>`. A place is taken to be an integer.
- A `message` property that is neither `undefined` nor a string (for example `null`): only those two kinds are modelled.
- A reply that is itself `undefined`, which would throw on `result.message`.
- Rendering, styling, toast presentation, `document.title`, `console.log`, the `Context` provider and `parseInt` of the user id: the user id enters as an integer parameter.
- The route table of `App.js`: it is static and has no logic.
