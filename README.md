# Amigo secreto: the assignment engine, modelled in Dafny

The application organises a Secret Santa ("amigo secreto"). An organiser creates a
draw (`sorteo`), registers participants, runs the draw, and sends every participant a
private link (`token_acceso`) that reveals whom they give a present to. This project
models the part of the application that decides and stores who gives to whom:

- the session store shared by the pages (`secretSantaStore.ts`);
- the participants page: the checks before an insert, add, delete, and the guard in
  front of the draw (`Participantes.tsx`);
- the draw page: a Fisher-Yates shuffle repeated until nobody draws themself, the
  assignment rows, the upsert keyed on `participante_id`, completing the draw,
  marking assignments notified, and `getAmigoAsignado` (`Sorteo.tsx`);
- the result page: token to participant, to assignment row, to friend (`Resultado.tsx`).

Layout, one module per file:

| file | module | what it holds |
|---|---|---|
| wrappers.dfy | `Wrappers` | `Option`, `Result` |
| text.dfy | `Text` | JavaScript `trim` and `toLowerCase` on strings |
| tables.dfy | `Tables` | the row types of `supabase.ts`; lookups, filters, upsert and updates on tables held as sequences |
| derangement.dfy | `Derangement` | the shuffle, the fixed-point scan and the retry loop, in place on an array, with their specification functions |
| backend.dfy | `Backend` | class `Database`: the three tables and one method per request the pages send |
| store.dfy | `SessionStore` | class `Store`: the four fields of the session store and its actions |
| participantes.dfy | `ParticipantesPage` | the add checks and class `ParticipantesView` |
| sorteo.dfy | `SorteoPage` | what a finished draw must look like and class `SorteoView` |
| resultado.dfy | `ResultadoPage` | the lookup chain, the page state and what it renders, and class `ResultadoView` |

Modelling choices:

- **Random numbers.** `Math.floor(Math.random() * (i + 1))` is an oracle
  `pick(t, i)`, where `t` counts the draws made so far. `ValidOracle` requires
  `pick(t, i) <= i` for every draw.
- **The retry loop.** `while (!isValid)` has no bound in the application, so the
  model runs at most `fuel` passes. Running out of fuel stands for a loop that is
  still running: the page stays loading and nothing is written.
- **Requests.** Every request takes a `fault` flag. A fault means the request came
  back with an error, and the tables are left as they were.
- **The clock.** `new Date().toISOString()`, the browser's time when the draw is
  completed, is the parameter `now`.
- **Server-chosen values.** The id and token the server gives a new participant are
  parameters.
- **Uniqueness.** `Database.Valid()` states the schema's constraints: participant
  ids, access tokens and `asignaciones.participante_id` are each unique.

Behaviour of the code the model keeps:

- `if (!currentSorteoId)` is a JavaScript truthiness test, so an empty draw id counts as
  no draw, exactly like a missing one (`Tables.HasSorteo`).
- A retry reshuffles the already shuffled list, not the original one
  (`Derangement.Retry`).
- Removing an id that is not in the list succeeds and changes nothing; there is no
  "not found" error (`SessionStore.Store.RemoveParticipante`,
  `Backend.Database.DeleteParticipante`).
- An upsert that succeeds followed by a failed completion of the draw sets the same
  generic message as any other failure. There is no separate partial-commit error,
  and the upsert is not undone (`SorteoPage.SorteoView.CommitDraw`).
- A redraw updates `amigo_asignado_id` on the existing rows. It keeps their
  `notificado` flag and does not delete rows of participants who have left the draw
  (`Tables.UpsertOne`).
- `.single()` returns an error when it finds no row. The `!participanteData` and
  `!asignacionData` branches of the result page therefore never run, and every
  failure shows "Error al cargar el resultado" (`ResultadoPage.Resolve`).
- `cargarResultado` never clears `error`. Once a load has failed, a later
  successful load on the same page still shows the error card
  (`ResultadoPage.StaleErrorPersists`).

## Model

| member | source | states |
|---|---|---|
| Tables.HasSorteo | src/pages/Participantes.tsx:42 | `!currentSorteoId` is true exactly for the two falsy values of a nullable string: no id, and the empty id |
| Tables.FindById | src/pages/Sorteo.tsx:151 | the first participant whose id equals the key; none exactly when no row carries it |
| Tables.FindByToken | src/pages/Resultado.tsx:23-27 | a participant whose `token_acceso` equals the token; none exactly when no row carries it |
| Tables.LookupAsignacion | src/pages/Sorteo.tsx:149 | the first assignment row whose `participante_id` is the key, with no earlier row carrying it; none exactly when the key is absent |
| Tables.AmigoAsignado | src/pages/Sorteo.tsx:148-152 | `getAmigoAsignado`: no result without an assignment; otherwise a listed participant whose id is the `amigo_asignado_id` of the row the lookup returns, defined exactly when such a participant is listed |
| Tables.AmigoAsignadoFirst | src/pages/Sorteo.tsx:151 | the friend returned is the first listed participant carrying the target id |
| Tables.FindByIdUnique | src/pages/Sorteo.tsx:151 | with unique ids, looking up a listed participant's id returns that participant |
| Tables.FindByTokenUnique | src/pages/Resultado.tsx:23-27 | with unique tokens, looking up a participant's token returns that participant |
| Tables.LookupAsignacionUnique | src/pages/Resultado.tsx:38-42 | with unique keys, looking up a row's `participante_id` returns that row |
| Tables.Without | src/store/secretSantaStore.ts:30-32 | the filtered list holds exactly the entries whose id differs from the removed one |
| Tables.WithoutConcat | src/store/secretSantaStore.ts:30-32 | the filter works on each part of a list separately, so the remaining entries keep their order |
| Tables.WithoutAbsent | src/store/secretSantaStore.ts:30-32 | removing an absent id leaves the list unchanged |
| Tables.WithoutIdempotent | src/store/secretSantaStore.ts:30-32 | removing the same id twice is removing it once |
| Tables.WithoutOnePresent | src/store/secretSantaStore.ts:30-32 | with unique ids, removing a present id shortens the list by exactly one |
| Tables.OfSorteo | src/pages/Participantes.tsx:46-49 | the selected rows are exactly the rows of that draw |
| Tables.OfSorteoAppend | src/pages/Participantes.tsx:81-91 | a row inserted into a draw becomes the last of that draw's rows |
| Tables.OfSorteoWithout | src/pages/Participantes.tsx:105-111 | deleting by id and selecting one draw's rows commute |
| Tables.UpsertOne | src/pages/Sorteo.tsx:84-86 | one row of the upsert adds at most one row, and every row with another key stays at its position unchanged |
| Tables.Upsert | src/pages/Sorteo.tsx:84-86 | the batch upsert adds at most one row per batch row, and every row whose key is not in the batch stays at its position unchanged |
| Tables.UpsertOneKeys | src/pages/Sorteo.tsx:84-86 | a one-row upsert keeps the key column when the key exists and appends the key otherwise |
| Tables.UpsertOneLookup | src/pages/Sorteo.tsx:84-86 | after a one-row upsert, its key maps to the new target and every other key keeps its row |
| Tables.UpsertKeys | src/pages/Sorteo.tsx:84-86 | an upsert keeps the keys unique, and its keys are the old keys together with the batch's keys |
| Tables.UpsertPresentKeys | src/pages/Sorteo.tsx:84-86 | upserting keys that are all present adds no row |
| Tables.UpsertLookup | src/pages/Sorteo.tsx:84-86 | after an upsert with distinct batch keys, each batch key maps to its batch target and every other key keeps its old row |
| Tables.RedrawReplaces | src/pages/Sorteo.tsx:84-86 | a second draw over the same participants adds no row, keeps keys unique, and points everyone at the second draw's target |
| Tables.WithKeys | src/pages/Sorteo.tsx:34-37 | the selected rows are exactly the rows whose key is listed |
| Tables.WithKeysLookup | src/pages/Sorteo.tsx:84-87 | selecting by listed keys does not change what a selected key looks up to |
| Tables.MarkNotified | src/pages/Sorteo.tsx:116-119 | same rows in the same order; `notificado` becomes true exactly on the listed participants' rows; key and target never change |
| Tables.MarkNotifiedKeepsMapping | src/pages/Sorteo.tsx:116-119 | marking keeps the key column and every lookup's target, and marking twice equals marking once |
| Tables.MarkNotifiedLookup | src/pages/Sorteo.tsx:116-119 | a key found before marking is found after it, with the same target |
| Tables.CompleteSorteo | src/pages/Sorteo.tsx:92-98 | the draws with that id become `completado` with the given date; every other draw is unchanged |
| Text.TrimStart | src/pages/Participantes.tsx:64 | a suffix of the input that does not start with white space; only white space was removed |
| Text.TrimEnd | src/pages/Participantes.tsx:64 | a prefix of the input that does not end with white space; only white space was removed |
| Text.Trim | src/pages/Participantes.tsx:64 | empty exactly for blank input; otherwise neither end is white space |
| Text.TrimCutsEnds | src/pages/Participantes.tsx:64 | what `trim` keeps is a middle part of the input, and everything cut off before and after it is white space |
| Text.TrimTrimmed | src/pages/Participantes.tsx:85 | a string without white space at either end is its own trim |
| Text.TrimIdempotent | src/pages/Participantes.tsx:85 | trimming a trimmed name changes nothing |
| Text.Lower | src/pages/Participantes.tsx:74 | same length; each character lower-cased |
| Text.LowerCharKeepsWhiteSpace | src/pages/Participantes.tsx:74 | lower-casing neither creates nor removes white space |
| Text.LowerIdempotent | src/pages/Participantes.tsx:74 | lower-casing twice equals lower-casing once |
| Text.TrimLowerCommute | src/pages/Participantes.tsx:74 | lower-casing then trimming equals trimming then lower-casing |
| ParticipantesPage.NameTaken | src/pages/Participantes.tsx:74 | the duplicate test holds exactly when some listed name, lower-cased, equals the input trimmed and lower-cased |
| ParticipantesPage.CheckAdd | src/pages/Participantes.tsx:64-77 | the checks run in the order blank name, no draw (a missing or empty id), duplicate, each with its message; an accepted name is the non-empty trimmed input attached to the current draw |
| ParticipantesPage.EmptyDrawIdRejected | src/pages/Participantes.tsx:69-72 | a non-blank name is refused with "No hay sorteo activo" when the draw id is the empty string |
| ParticipantesPage.AcceptKeepsNamesDistinct | src/pages/Participantes.tsx:74-91 | appending an accepted name keeps the list's names trimmed, non-empty and distinct once lower-cased |
| ParticipantesPage.DuplicateRejected | src/pages/Participantes.tsx:74-77 | with a draw open, an input that trims and lower-cases to a listed name is rejected as a duplicate, whatever its case and surrounding white space |
| ParticipantesPage.ParticipantesView.constructor | src/pages/Participantes.tsx:9 | the name field starts empty |
| ParticipantesPage.ParticipantesView.LoadParticipantes | src/pages/Participantes.tsx:41-59 | without a draw id (missing or empty) nothing changes; with one, the list becomes that draw's rows, or the error is set; loading ends; the list then matches the table |
| ParticipantesPage.ParticipantesView.HandleAgregarParticipante | src/pages/Participantes.tsx:61-100 | a rejected name sets its message and changes nothing else; an accepted name is inserted trimmed; only a successful insert appends the row and clears the field and the error; a failed insert changes no list and sets the error; the list keeps matching the table |
| ParticipantesPage.ParticipantesView.HandleEliminarParticipante | src/pages/Participantes.tsx:102-118 | the entry leaves the list only after the delete succeeded; a failed delete keeps the list and sets the error; loading ends; the list keeps matching the table |
| ParticipantesPage.ParticipantesView.HandleRealizarSorteo | src/pages/Participantes.tsx:120-126 | fewer than 3 participants sets the error and does not navigate; otherwise it navigates to the current draw and changes nothing |
| SessionStore.Store.constructor | src/store/secretSantaStore.ts:20-23 | no draw id, no participants, not loading, no error |
| SessionStore.Store.SetCurrentSorteoId | src/store/secretSantaStore.ts:25 | sets the draw id; the other three fields are unchanged |
| SessionStore.Store.SetParticipantes | src/store/secretSantaStore.ts:26 | replaces the list; the other three fields are unchanged |
| SessionStore.Store.AddParticipante | src/store/secretSantaStore.ts:27-29 | the old list in order with the participant appended at the end; the other fields are unchanged |
| SessionStore.Store.RemoveParticipante | src/store/secretSantaStore.ts:30-32 | keeps exactly the entries with another id, in order; an absent id leaves the list unchanged; the other fields are unchanged |
| SessionStore.Store.SetLoading | src/store/secretSantaStore.ts:33 | sets the loading flag; the other fields are unchanged |
| SessionStore.Store.SetError | src/store/secretSantaStore.ts:34 | sets the error; the other fields are unchanged |
| SessionStore.Store.ClearStore | src/store/secretSantaStore.ts:35-40 | the initial state, whatever the state before, so clearing twice equals clearing once |
| Derangement.Swap | src/pages/Sorteo.tsx:66 | the two positions are exchanged and every other position is unchanged |
| Derangement.ShufflePass | src/pages/Sorteo.tsx:64-67 | the Fisher-Yates loop from index i down to 1, drawing one random index per step; same length as its input |
| Derangement.Shuffled | src/pages/Sorteo.tsx:64-67 | one whole Fisher-Yates shuffle of the list; same length as its input |
| Derangement.SwapPermutes | src/pages/Sorteo.tsx:66 | a swap rearranges the list |
| Derangement.ShufflePassPermutes | src/pages/Sorteo.tsx:64-67 | a full Fisher-Yates pass with indices `j <= i` rearranges the list |
| Derangement.Retry | src/pages/Sorteo.tsx:58-76 | the loop reshuffles its current arrangement until the scan finds no fixed point, or gives up when out of fuel |
| Derangement.RetryIsDerangement | src/pages/Sorteo.tsx:58-76 | what the loop returns is a rearrangement of the participants in which nobody is at their own position |
| Derangement.DrawOutcome | src/pages/Sorteo.tsx:58-76 | the loop started on the participant list returns nothing or a derangement of it |
| Derangement.RetryMoreFuel | src/pages/Sorteo.tsx:62 | fuel only cuts the loop off: a draw found with some fuel is found unchanged with more |
| Derangement.ZeroOracleRotates | src/pages/Sorteo.tsx:64-67 | when every random index is 0, a pass rotates the list left by one |
| Derangement.ZeroOracleSucceedsAtOnce | src/pages/Sorteo.tsx:58-76 | with unique ids and at least two participants, some random sequence succeeds on the first pass, with the rotation |
| Derangement.Shuffle | src/pages/Sorteo.tsx:64-67 | the array after the in-place loop is the specified shuffle of the array before it, and it consumed one random index per step |
| Derangement.IsValidDraw | src/pages/Sorteo.tsx:69-75 | the flag is true exactly when no participant is at their own position |
| Derangement.DrawDerangement | src/pages/Sorteo.tsx:58-76 | the copy, the `while` loop with its shuffle and scan return what `Retry` specifies; any result is a derangement |
| Derangement.BuildRows | src/pages/Sorteo.tsx:78-81 | one row per participant in list order: the key column is the participants' ids and the target column is the shuffled list's ids |
| Derangement.IdsOfPermutation | src/pages/Sorteo.tsx:78-81 | rearranged participants have rearranged ids |
| Derangement.DistinctPermutation | src/pages/Sorteo.tsx:78-81 | a rearrangement of a list without repeats has no repeats |
| Derangement.RowsAreDerangement | src/pages/Sorteo.tsx:78-81 | with unique ids, nobody is their own target, keys and targets are each unique, and the targets are the keys rearranged, so everyone is a target exactly once |
| SorteoPage.DrawnRowResolves | src/pages/Sorteo.tsx:84-87 | after the upsert of a derangement's rows, participant i resolves to the i-th shuffled participant, in the table and in the returned rows |
| SorteoPage.UpsertedDrawResolves | src/pages/Sorteo.tsx:84-86 | in the table, every participant then has a friend who is not themself, and no two share a friend |
| SorteoPage.ReturnedDrawResolves | src/pages/Sorteo.tsx:84-87 | the same holds for the rows the upsert returns to the page |
| SorteoPage.CompletedDrawIsSecretSanta | src/pages/Sorteo.tsx:49-110 | whatever the draw loop finds, once upserted, is such an assignment |
| SorteoPage.MarkNotifiedKeepsFriends | src/pages/Sorteo.tsx:116-119 | marking notified changes nobody's friend |
| SorteoPage.MarkNotifiedKeepsAssignment | src/pages/Sorteo.tsx:116-119 | a valid assignment stays valid after the links are generated |
| SorteoPage.SorteoView.constructor | src/pages/Sorteo.tsx:8-11 | the page holds the draw id of its route, no assignment rows, and links not yet generated |
| SorteoPage.SorteoView.GetAmigoAsignado | src/pages/Sorteo.tsx:148-152 | a listed participant whose id is the `amigo_asignado_id` of pid's row, defined exactly when pid has a row whose target is listed |
| SorteoPage.SorteoView.LoadParticipantes | src/pages/Sorteo.tsx:20-47 | the list becomes the draw's rows; with at least one, the page's rows become their assignment rows; each failure sets the error; loading ends |
| SorteoPage.SorteoView.RealizarSorteo | src/pages/Sorteo.tsx:49-110 | fewer than 3 participants sets the error and changes nothing else; an unfinished loop stays loading and writes nothing; otherwise as `CommitDraw` |
| SorteoPage.SorteoView.CommitDraw | src/pages/Sorteo.tsx:78-109 | the rows are upserted; the draw is completed only after the upsert succeeded; only when both succeed are the returned rows taken and the error cleared; any failure sets the error and keeps the page's rows; loading ends |
| SorteoPage.SorteoView.GenerarEnlaces | src/pages/Sorteo.tsx:112-131 | exactly the listed participants' rows are marked notified, nobody's friend changes, and the error is set or cleared by the outcome |
| Backend.Database.InsertParticipante | src/pages/Participantes.tsx:81-88 | on success, the new row carries the given draw and name and is appended; on failure nothing changes |
| Backend.Database.DeleteParticipante | src/pages/Participantes.tsx:105-108 | on success, every row with that id is gone and the others remain; an absent id is not an error |
| Backend.Database.SelectParticipanteByToken | src/pages/Resultado.tsx:23-27 | succeeds exactly when a row holds the token, and returns that row |
| Backend.Database.SelectParticipanteById | src/pages/Resultado.tsx:51-55 | succeeds exactly when a row carries the id, and returns that row |
| Backend.Database.SelectParticipantesBySorteo | src/pages/Participantes.tsx:46-49 | on success, exactly the draw's rows |
| Backend.Database.SelectAsignacion | src/pages/Resultado.tsx:38-42 | succeeds exactly when the participant has a row, and returns that row |
| Backend.Database.SelectAsignacionesIn | src/pages/Sorteo.tsx:34-37 | on success, exactly the rows of the listed participants |
| Backend.Database.UpsertAsignaciones | src/pages/Sorteo.tsx:84-87 | succeeds exactly when there is no fault and no key repeats in the batch; then the table is the upsert and the result is the batch participants' rows; keys stay unique |
| Backend.Database.CompleteSorteo | src/pages/Sorteo.tsx:92-98 | on success, the draw is completed with the date; the other tables are unchanged |
| Backend.Database.MarkNotified | src/pages/Sorteo.tsx:116-119 | on success, the listed participants' rows are marked notified; the other tables are unchanged |
| Backend.WithoutKeepsUnique | src/pages/Participantes.tsx:105-108 | a delete keeps ids and tokens unique |
| ResultadoPage.Resolve | src/pages/Resultado.tsx:19-66 | the chain stops at the first failing step; a found participant holds the token; a found friend is a participant named by that participant's row |
| ResultadoPage.ResolveComplete | src/pages/Resultado.tsx:23-58 | with unique ids, tokens and keys, the chain finds the token's holder and the friend that holder's row names |
| ResultadoPage.LinkShowsDrawnFriend | src/pages/Resultado.tsx:19-66 | after a draw is upserted, each participant's link shows them with their drawn friend, who is someone else |
| ResultadoPage.AfterLoad | src/pages/Resultado.tsx:19-66 | loading ends; an existing error is never cleared; the page ends without an error exactly when it had none and the chain found the friend; a failure leaves the friend as it was |
| ResultadoPage.Render | src/pages/Resultado.tsx:68-95 | a spinner while loading; the greeting exactly when there is no error and both participants are set, showing the two names only; otherwise the error card |
| ResultadoPage.FirstLoadScreen | src/pages/Resultado.tsx:79 | on a fresh page, the greeting appears exactly when the chain succeeded, with the token holder's and the friend's names; otherwise the generic error |
| ResultadoPage.StaleErrorPersists | src/pages/Resultado.tsx:20 | an earlier error survives a later successful load and hides the greeting |
| ResultadoPage.ResultadoView.constructor | src/pages/Resultado.tsx:8-11 | loading, no participant, no friend, no error |
| ResultadoPage.ResultadoView.CargarResultado | src/pages/Resultado.tsx:19-66 | the three requests with early exit leave the state that `AfterLoad` gives for the chain's outcome |

## Left out

- Network, asynchrony and concurrency. Requests complete one after the other, and
  two sessions never work on the same draw at once.
- The probability distribution of `Math.random`. The shuffle's uniformity and the
  expected number of retries are not modelled; the random source is an oracle.
- `Derangement.DrawDerangement`: the `while (!isValid)` loop has no bound in the
  application; here it is cut off after `fuel` passes. `RetryMoreFuel` shows that
  the cut-off never changes a draw that was found.
- `Text.Lower`: only ASCII letters are lower-cased; Unicode case mapping is not
  modelled.
- Server-generated columns: `Asignacion.id`, `fecha_asignacion`, `creado_en` and
  `fecha_creacion`. Default values of the `estado` column are also not modelled.
- `.single()` when several rows match. With the uniqueness constraints, at most one
  row ever matches.
- Foreign keys and cascading deletes. Deleting a participant leaves their assignment
  rows in place.
- The row order of the upsert's result. `Backend.Database.UpsertAsignaciones`
  returns the batch participants' rows in table order; it does not claim the
  batch's order.
- Creating a draw when the participants page opens (`createSorteo`), and
  `src/pages/Home.tsx`. They are outside the assignment engine.
- The WhatsApp message, the clipboard, `window.open`, `setTimeout` and
  `window.location`. These are browser side effects.
- `ParticipantesPage.ParticipantesView.HandleRealizarSorteo`: the route is returned
  as the draw id it carries, not as a URL string.
- Rendering of the draw and participants pages, and the intermediate
  `isLoading = true` state between two awaits. Only the final state of each handler
  is stated.
