# Roomie core in Dafny

Roomie matches room seekers with room listers. This project models the core of the app and proves properties of the model:

- **Seeker onboarding chat** (`SeekerChatScreen`). Five fixed questions are asked one at a time. The answers are kept in a map from question text to answer. Each message's id is its position in the log. After the fifth answer the user's `seeker_profiles` row is found or created and marked onboarded.
- **Listing form** (`ListerFormScreen`). Submission checks the required fields and finds or creates the user's `listers` row. It then inserts the listing, whose amenities come from a comma-separated string (split, trim, drop empties).
- **Dashboard** (`DashboardScreen`). The user's profile row decides between the seeker view and the lister view. The seeker view asks `match-rooms` for matches and updates `matchedRooms` and `isLoading` around the call.
- **Three Deno edge functions**, each a case split from the request and the upstream outcomes to the HTTP status and body:
  - `generate-embedding` (Gemini embedding API);
  - `match-rooms` (a stored embedding, then the `match_listings` database function);
  - `gemini-chat-proxy` (Gemini `generateContent`).

Mutable screen state is modelled as classes whose methods change their fields, with `modifies` clauses and `old()` contracts. Each class owns the tables it writes:
- `ChatScreen` owns `profiles`;
- `FormScreen` owns `listers` and `listings`;
- `DashboardScreen` reads `profiles`.

Each method is tied to a pure specification function, and the properties the app relies on are proved about those functions. The edge functions are pure, total functions over datatypes.

External calls are parameters of the operations that make them. These are `fetch`, the Supabase `from`/`rpc`/`functions.invoke` calls and `auth.getUser`. The parameter is the outcome the call produced: a failure, a decoded body or a returned row id. The edge-function models and the dashboard's match request also record which calls they made, and with what arguments; the screens' table reads and writes, and `auth.getUser`, show only through their effect on the tables and the screen state.

JavaScript behaviour the code depends on is written out in the model:
- truthiness;
- `String.prototype.trim` over the ECMAScript white-space and line-terminator set;
- `split` always returning at least one piece;
- optional chaining, and reading a property of `null` throwing;
- `response.ok` meaning 200–299;
- `new Response` throwing for the null-body statuses 204, 205 and 304.

Files: `wrappers.dfy` (Option, Result), `text.dfy` (trim, split/join, decimal ids), `json.dfy` (JSON values and property reads), `http.dfy` (requests, responses, shared catch block), `db.dfy` (rows and `.single()`), `app.dfy` (routes, signed-in test), and one file per core source file: `seeker_chat.dfy`, `lister_form.dfy`, `dashboard.dfy`, `generate_embedding.dfy`, `match_rooms.dfy` and `chat_proxy.dfy`.

Behaviours of the code worth knowing:
- `generate-embedding` refuses only a missing, empty or non-string `text`; a whitespace-only text is sent to the API (`GenerateEmbedding.SpacesAreNotRefused`).
- `match-rooms` answers 404 for any failure of the embedding lookup, database errors included, not only for a missing embedding.
- `match-rooms` relays the database function's rows as they come: no threshold filtering, ranking or tie-breaking in the function itself.
- No retries, content hashing or embedding cache exist in the code.

## Model

| member | source | states |
|---|---|---|
| Text.TrimIsInfix | app/screens/SeekerChatScreen.js:54 | `trim()` returns the part of its input between a run of leading and a run of trailing white space, and that part neither starts nor ends with white space |
| Text.TrimOfPadded | app/screens/ListerFormScreen.js:76 | trimming a trimmed string with only white space around it gives back exactly that string |
| Text.TrimEmptyIffAllSpace | app/screens/SeekerChatScreen.js:54 | `!s.trim()` holds exactly for strings made only of white space, the empty string included |
| Text.TrimKeepsOnlyInputChars | app/screens/ListerFormScreen.js:76 | every character of a trimmed string occurs in the input |
| Text.Split | app/screens/ListerFormScreen.js:76 | `split(',')` gives at least one piece, no piece contains the separator, and joining the pieces with it gives back the input |
| Text.SplitOfJoin | app/screens/ListerFormScreen.js:76 | splitting pieces joined by a separator they do not contain gives back those pieces, in order |
| Text.NatToString | app/screens/SeekerChatScreen.js:50 | `length.toString()` is a non-empty digit string with no leading zero except for 0 |
| Text.ParseNatToString | app/screens/SeekerChatScreen.js:50 | reading the decimal string of n gives back n |
| Text.NatToStringInjective | app/screens/SeekerChatScreen.js:50 | different lengths give different id strings |
| SeekerChat.AddMessage | app/screens/SeekerChatScreen.js:49-51 | `addMessage` appends exactly one message with the given sender and text, keeps the earlier log, and keeps ids equal to positions |
| SeekerChat.LinesOfAddMessage | app/screens/SeekerChatScreen.js:49-51 | adding a message adds exactly its sender and text at the end of the chat as the seeker reads it |
| SeekerChat.IdsAreUnique | app/screens/SeekerChatScreen.js:49-51 | when ids are positions, two messages with the same id are the same message |
| SeekerChat.RecordAnswer | app/screens/SeekerChatScreen.js:62-65 | the answer is stored under the current question's text; every other question's answer, present or absent, is unchanged |
| SeekerChat.RecordAnswerKeepsEarlier | app/screens/SeekerChatScreen.js:62-65 | recording the answer to question k keeps the answers already stored for the questions before it |
| SeekerChat.QuestionsDistinct | app/screens/SeekerChatScreen.js:16-22 | the five question texts are pairwise different, so no answer overwrites another |
| SeekerChat.NextIndex | app/screens/SeekerChatScreen.js:67-69 | below the last question the index advances by one; at the last it stays; it never leaves 0..4 |
| SeekerChat.QuestionNumber | app/screens/SeekerChatScreen.js:133 | the counter is min(index + 1, 5) and always lies in 1..5 |
| SeekerChat.SendRefusedIff | app/screens/SeekerChatScreen.js:54 | a send is refused exactly when the input is empty or white space only, a send is loading, or no user id is set |
| SeekerChat.ProfileUpsert | app/screens/SeekerChatScreen.js:84-113 | no row (PGRST116) inserts one with the new id; another lookup error aborts with no write; an existing row is updated and keeps its id; a no-rows error injected while a row exists inserts a new one; a failed write writes nothing; a saved row holds the preferences with onboarding complete; no other user's row changes |
| SeekerChat.ProfileUpsertIdempotent | app/screens/SeekerChatScreen.js:84-113 | saving the same preferences a second time changes nothing and reports the same profile id |
| SeekerChat.LastSaveAsWritten | app/screens/SeekerChatScreen.js:98 | the final save stores the preferences of the render in which Send was pressed |
| SeekerChat.LastSave | app/screens/SeekerChatScreen.js:62 | the corrected final save stores the preferences with the fifth answer recorded |
| SeekerChat.StaleSnapshotDropsLastAnswer | app/screens/SeekerChatScreen.js:98 | for a first answer to question five, the saved row lacks it as written and holds it once corrected |
| SeekerChat.ChatScreen.constructor | app/screens/SeekerChatScreen.js:7-12 | empty log, empty input, index 0, no answers, not loading, no user |
| SeekerChat.ChatScreen.Mount | app/screens/SeekerChatScreen.js:24-40 | without a user, navigate to Auth and change nothing; with one, store its id and add the current question only to an empty log |
| SeekerChat.ChatScreen.SetInput | app/screens/SeekerChatScreen.js:164 | the input field holds the typed text |
| SeekerChat.ChatScreen.SaveSeekerProfile | app/screens/SeekerChatScreen.js:84-121 | the table and the outcome are those of `ProfileUpsert` on the current preferences |
| SeekerChat.ChatScreen.HandleSendMessage | app/screens/SeekerChatScreen.js:53-82 | a refused send changes nothing. An accepted one appends one You message, clears the input and stores the untrimmed input under the current question. Before the last question it advances the index, asks question index + 1 and saves nothing. At the last it keeps the index, adds the closing message and performs the corrected final save. Loading is over afterwards |
| SeekerChat.ChatScreen.RecordSend | app/screens/SeekerChatScreen.js:56-65 | logs the answer, clears the input, starts loading and records the answer |
| SeekerChat.ChatScreen.AskNext | app/screens/SeekerChatScreen.js:71-74 | adds the question after the one answered and stops loading |
| SeekerChat.ChatScreen.FinishOnboarding | app/screens/SeekerChatScreen.js:76-81 | adds the closing message, saves the profile, and stops loading |
| SeekerChat.CompletionTextNeverShown | app/screens/SeekerChatScreen.js:159 | the index is always below 5, so the input stays on screen and the counter is index + 1 |
| SeekerChat.DialogueAlternates | app/screens/SeekerChatScreen.js:53-74 | the onboarding dialogue alternates: its line 2j is the seeker's j-th answer and line 2j+1 is question j+1 |
| SeekerChat.Answer | app/screens/SeekerChatScreen.js:53-74 | a non-blank answer to a question before the last is accepted: it is stored under its question, the index advances, the chat gains the answer and then the next question, and nothing is saved |
| SeekerChat.AnswerLast | app/screens/SeekerChatScreen.js:53-81 | a non-blank answer to the last question is stored, the chat gains the answer and then the thanks, and the tables and outcome are those of the corrected final save |
| SeekerChat.AnswerUntilLast | app/screens/SeekerChatScreen.js:53-74 | four accepted sends in a row record each answer under its question, end at the last question, save nothing, and extend the chat by the dialogue of those answers and the questions after them |
| SeekerChat.OnboardingRun | app/screens/SeekerChatScreen.js:53-82 | five non-blank answers leave each answer under its question; the chat is, in order, the opening question, each answer followed by the next question, the last answer and the thanks (eleven messages); and, with the corrected final save, a new onboarded profile holds all five answers |
| ListerForm.ParseAmenities | app/screens/ListerFormScreen.js:76 | an empty amenity string gives an empty list |
| ListerForm.AmenitiesAreClean | app/screens/ListerFormScreen.js:76 | every parsed amenity is non-empty, has no surrounding white space and contains no comma |
| ListerForm.KeepTrimmedClean | app/screens/ListerFormScreen.js:76 | trim-then-filter keeps only non-empty trimmed pieces and adds no separator |
| ListerForm.KeepTrimmedAppend | app/screens/ListerFormScreen.js:76 | trim-then-filter works piece by piece, left to right: the result for a concatenation is the concatenation of the results |
| ListerForm.KeepTrimmedOne | app/screens/ListerFormScreen.js:76 | one piece gives its trimmed text, or nothing when that is empty |
| ListerForm.KeepTrimmedMembers | app/screens/ListerFormScreen.js:76 | a string is in the result exactly when it is non-empty and is the trimmed text of some piece |
| ListerForm.KeepTrimmedOfClean | app/screens/ListerFormScreen.js:76 | pieces that are already non-empty and trimmed come through unchanged |
| ListerForm.ParseOfJoin | app/screens/ListerFormScreen.js:76 | parsing comma-free pieces joined by commas trims and filters those pieces, keeping their order |
| ListerForm.ParseAmenitiesIdempotent | app/screens/ListerFormScreen.js:76 | parsing the comma-joined parsed list again gives the same list |
| ListerForm.GetOrCreateLister | app/screens/ListerFormScreen.js:45-65 | PGRST116 creates one lister and uses its id; another lookup error aborts with nothing written; an existing lister's id is reused; a failed creation writes nothing; only the user's entry can be written |
| ListerForm.FormScreen.constructor | app/screens/ListerFormScreen.js:7-15 | all seven fields empty, not loading, no user |
| ListerForm.FormScreen.Mount | app/screens/ListerFormScreen.js:17-29 | with a user its id is stored; without one, navigate to Auth |
| ListerForm.FormScreen.Fill | app/screens/ListerFormScreen.js:100-143 | each field holds the typed text |
| ListerForm.FormScreen.HandleSubmit | app/screens/ListerFormScreen.js:31-94 | with no user id, or a missing title, location, rent or available-from date, nothing is written. Otherwise loading is over afterwards, and a created lister stays even when the listing insert fails. A failure leaves the listings unchanged. Success appends exactly the form's row, with the parsed amenities and the resolved lister id, and navigates to SensorScan with the new listing's id |
| ListerForm.FormScreen.ResolveLister | app/screens/ListerFormScreen.js:45-65 | the `listers` table and the lister id are those of `GetOrCreateLister` |
| ListerForm.SubmitRun | app/screens/ListerFormScreen.js:31-94 | a complete form with no failures yields one listing with the parsed amenities, filed under the existing or the new lister |
| Http.Caught | supabase/functions/generate-embedding/index.ts:68-74 | the catch block answers 500 with a JSON `error` member |
| Http.PassThrough | supabase/functions/generate-embedding/index.ts:45-48 | the caller sees either the upstream status or the catch block's 500, and an error object passed through is still an error report |
| Db.SingleByUserAfterWrite | app/screens/SeekerChatScreen.js:87-91 | after a user's row is written, `.single()` by that user finds exactly that row, and every other user's lookup is unchanged |
| GenerateEmbedding.EmbeddingOfReply | supabase/functions/generate-embedding/index.ts:53-55 | the vector read from a `{embedding: {values}}` answer is its `values` array, an empty array is no vector, and an answer without `embedding` or with a null one has none |
| GenerateEmbedding.Classify | supabase/functions/generate-embedding/index.ts:30-75 | 200 exactly for a usable answer, with exactly the upstream vector. A refused request keeps the upstream status with `details`. A missing or empty vector is a 500 with `rawResponse`. Whatever throws is a 500. Every non-200 body has an `error` member |
| GenerateEmbedding.Handle | supabase/functions/generate-embedding/index.ts:16-75 | a non-POST is 405. The API is called exactly for an accepted request, with `models/embedding-001` and exactly its text. A bad `text` is a 400 with no call. A body that fails to decode or is null escapes the handler |
| GenerateEmbedding.NoCallNoDependence | supabase/functions/generate-embedding/index.ts:17-28 | a request answered before the call does not depend on what the API would do |
| GenerateEmbedding.SpacesAreNotRefused | supabase/functions/generate-embedding/index.ts:23 | a text of spaces is sent to the API unchanged |
| GenerateEmbedding.FailuresCarryError | supabase/functions/generate-embedding/index.ts:16-75 | every answer other than 200 and 405 is a JSON object with an `error` member |
| GenerateEmbedding.MalformedBodyEscapes | supabase/functions/generate-embedding/index.ts:21 | a POST whose body does not parse is rejected, not answered |
| GenerateEmbedding.HandleGuarded | supabase/functions/generate-embedding/index.ts:21 | with decoding inside the try block every request is answered, the same calls are made, and such a body gets the catch block's 500 |
| MatchRooms.Search | supabase/functions/match-rooms/index.ts:30-94 | the table is read exactly when the client is created. Any lookup error is a 404 with no search. The search gets the stored embedding with threshold 0.5 and count 10. A search error is a 500 with `details`. 200 happens exactly on search rows and relays them untouched |
| MatchRooms.Handle | supabase/functions/match-rooms/index.ts:16-94 | a non-POST is 405. A falsy `seeker_id` is a 400 before any database access. An accepted request runs `Search` on its id. A body that fails to decode or is null escapes the handler |
| MatchRooms.MatchesFollowTheTable | supabase/functions/match-rooms/index.ts:40-86 | a stored id leads to the search with its embedding and relays the rows; an id without an embedding is a 404 with no search |
| MatchRooms.MalformedBodyEscapes | supabase/functions/match-rooms/index.ts:21 | a POST whose body does not parse is rejected, not answered |
| MatchRooms.HandleGuarded | supabase/functions/match-rooms/index.ts:21 | with decoding inside the try block every request is answered, with the same lookups and searches |
| GeminiChatProxy.ReplyTextOfReply | supabase/functions/gemini-chat-proxy/index.ts:49 | the text read is the first candidate's first part, whatever follows them |
| GeminiChatProxy.NoCandidatesNoText | supabase/functions/gemini-chat-proxy/index.ts:49 | missing, null or empty `candidates` give no text |
| GeminiChatProxy.Classify | supabase/functions/gemini-chat-proxy/index.ts:27-69 | 200 exactly when the nested text is truthy, with exactly that text. A refused request keeps the upstream status with `details`. Missing text is a 500 with `rawResponse`. Whatever throws is a 500. Every non-200 body has an `error` member |
| GeminiChatProxy.Handle | supabase/functions/gemini-chat-proxy/index.ts:16-70 | a non-POST is 405. A falsy `prompt` is a plain-text 400 with no call. Gemini is called exactly for an accepted prompt, with exactly that prompt. A body that fails to decode or is null escapes the handler |
| GeminiChatProxy.RelaysWellFormedReply | supabase/functions/gemini-chat-proxy/index.ts:47-62 | a well-formed reply to a prompt is answered 200 with `{response: text}` |
| GeminiChatProxy.MalformedBodyEscapes | supabase/functions/gemini-chat-proxy/index.ts:21 | a POST whose body does not parse is rejected, not answered |
| GeminiChatProxy.HandleGuarded | supabase/functions/gemini-chat-proxy/index.ts:21 | with decoding inside the try block every request is answered, with the same calls |
| Dashboard.MatchOutcomeOnScreen | app/screens/DashboardScreen.js:44-60 | the screen gets data exactly when `match-rooms` found the embedding and the search returned rows, and the data is `{matches: rows}`; otherwise an alert is raised and the list is emptied; rows that are truthy are shown as they are, with no alert |
| Dashboard.RoomsAfter | app/screens/DashboardScreen.js:48-60 | after a fetch the rooms are the truthy `matches` of a truthy answer, untouched, and otherwise the empty list, a failed call included |
| Dashboard.DashboardScreen.constructor | app/screens/DashboardScreen.js:7-10 | no user, no rooms, loading, not a seeker |
| Dashboard.DashboardScreen.FetchMatchedRooms | app/screens/DashboardScreen.js:41-64 | asks `match-rooms` about the given id; the rooms become `RoomsAfter` of the outcome and loading is over, whatever happened |
| Dashboard.DashboardScreen.FetchUserAndMatches | app/screens/DashboardScreen.js:12-39 | with no user, navigate to Auth with the spinner left on. Otherwise the seeker view is chosen exactly for a found profile with onboarding complete, and only then are matches fetched, by the profile id. Loading ends either way |
| Dashboard.DashboardScreen.RefreshMatchesAsWritten | app/screens/DashboardScreen.js:109 | the Refresh button asks `match-rooms` about the user id |
| Dashboard.DashboardScreen.RefreshMatches | app/screens/DashboardScreen.js:26 | the corrected Refresh asks about the profile id, as the initial fetch does |
| Dashboard.RefreshByUserIdLosesMatches | app/screens/DashboardScreen.js:109 | with embeddings under profile ids and a user id that differs, the initial fetch shows the matches and the Refresh as written empties the list |
| Dashboard.RefreshByProfileIdKeepsMatches | app/screens/DashboardScreen.js:26 | asking by profile id shows the search rows |
| Dashboard.SavedProfileShowsSeekerView | app/screens/DashboardScreen.js:18-26 | after onboarding saves the profile, the dashboard picks the seeker view and fetches by the saved profile id |

## Left out

- Supabase and Gemini calls are parameters, not modelled transport: `auth.getUser`, `from(...)`, `rpc`, `functions.invoke` and `fetch`. Each parameter is the outcome of the call. The edge-function models and the dashboard's match request also record their calls' arguments; the screens' table reads and writes, and `auth.getUser`, show only through their effect on the tables and the screen state.
- The similarity search is not computed. `match_listings` runs inside the database and is not part of this model, so its rows are an input and are compared only for being relayed unchanged.
- `parseFloat(rent)` is not modelled, because it is floating point: a listing keeps the typed rent text.
- The progress fraction and the similarity percentage are not modelled, because they are floating-point display values.
- JSON numbers are exact reals; floating point is not modelled.
- The one-second `setTimeout` before the next question is taken as immediate. The model therefore does not capture a second send racing the timer.
- Alerts, console logging, scrolling, the loading indicators and all rendering are left out. An alert shows up only through an outcome value, such as `SubmitOutcome` or `AlertAfter`.
- Navigation is a returned value. After the fifth answer the chat always goes to the dashboard; `Finished` stands for that navigation.
- The API key and Supabase secrets are not read from the environment. A missing key shows up only as the upstream outcome, and a missing URL as `ClientThrew`.
- `.single()` finding several rows is not modelled: tables are maps with one row per key. The code would treat that case like no rows.
- Strings are sequences of code points; UTF-16 code units are not modelled. Property reads cover only own members, not prototype properties.
- A request's headers are not modelled. Decoding its body is an outcome: a parse error, or a JSON value.
- SensorScreen, AuthScreen, HomeScreen, App and the client setup are not part of this model.
- `DashboardScreen` has one field the screen does not have, `seekerProfileId`, which remembers the profile id for the corrected Refresh button; the code as written keeps only the user id.
- The listings table is a sequence that only grows; listing ids are given by the database and are not checked for uniqueness here.
- ListerForm.GetOrCreateLister: when the lookup fails with PGRST116 although a row exists, the new lister id replaces the table entry. This stands for the duplicate-row case, which the map cannot hold.

## Findings

| source | as written | input that shows it | evidently intended | confidence | as-written member | corrected member |
|---|---|---|---|---|---|---|
| app/screens/SeekerChatScreen.js:98 | the final `saveSeekerProfile` writes `seekerPreferences` as captured by the render in which Send was pressed, before the fifth answer's update | a first-time seeker answers all five questions; the saved row has no answer to question five | the saved preferences include the fifth answer | not executed; follows from React state updates not reaching the current closure | SeekerChat.StaleSnapshotDropsLastAnswer | SeekerChat.LastSave |
| app/screens/DashboardScreen.js:109 | the Refresh button calls `fetchMatchedRooms(userId)` | a seeker with user id u and profile id p ≠ u, embeddings stored under p: the initial fetch shows matches and Refresh gets a 404 and an empty list | `fetchMatchedRooms` with the profile id, as at line 26 | not executed; depends on embeddings being keyed by profile id, as the initial fetch implies | Dashboard.RefreshByUserIdLosesMatches | Dashboard.DashboardScreen.RefreshMatches |
| supabase/functions/match-rooms/index.ts:21 | `await req.json()` runs before the try block | a POST whose body is `{` | the catch block's 500 JSON error | not executed | MatchRooms.MalformedBodyEscapes | MatchRooms.HandleGuarded |
| supabase/functions/generate-embedding/index.ts:21 | `await req.json()` runs before the try block | a POST whose body is `{` | the catch block's 500 JSON error | not executed | GenerateEmbedding.MalformedBodyEscapes | GenerateEmbedding.HandleGuarded |
| supabase/functions/gemini-chat-proxy/index.ts:21 | `await req.json()` runs before the try block | a POST whose body is `{` | the catch block's 500 JSON error | not executed | GeminiChatProxy.MalformedBodyEscapes | GeminiChatProxy.HandleGuarded |
