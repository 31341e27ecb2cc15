# Task list state machine, in Dafny

This project models the logic of a browser to-do list (`script.js`). The page keeps
a module-level array `tareas` of task records `{id, texto, fecha, categoria,
prioridad, completada}`, two filter selections (`filtroActual`, `filtroCategoria`)
and a copy of the array in local storage. Each user action rewrites the array and
then writes the whole array to storage:

- add (`agregarTarea`), reached from the form's submit handler;
- edit the text (`editarTarea`);
- toggle completion (`toggleTarea`);
- delete (`eliminarTarea`);
- clear the completed tasks (the clear button).

Three read-only queries feed the display:

- the combined status-and-category filter (`filtrarTareas`);
- the pending counter (`actualizarContador`);
- the "upcoming" cue shown for a task due in the next seven days.

Layout:

- `option.dfy`, module `Wrappers`: the `Option` type. It is used for an absent due date, a cancelled prompt and an unwritten storage key.
- `sequences.dfy`, module `Sequences`: `Filter` stands for `Array.prototype.filter`. The module also defines the order-preserving subsequence relation and the general facts about filtering.
- `jstext.dfy`, module `JsText`: `String.prototype.trim` over the ECMAScript WhiteSpace and LineTerminator code points.
- `fechas.dfy`, module `Fechas`: due dates as integer calendar-day numbers, with "today" as a parameter. It has the past-date test and the upcoming cue. It also models the millisecond-level comparisons the browser really makes, which are the subject of the findings below.
- `tareas.dfy`, module `Tareas`: the `Tarea` record and the list invariant. The invariant is that identifiers are unique and every text is trimmed and non-empty. The module gives the pure meaning of every operation and the lemmas about each one.
- `app.dfy`, module `App`: the class `ListaTareas`. Its fields are `tareas`, `filtroActual`, `filtroCategoria` and `tareasGuardadas` (the storage copy). It has one method per user action. Each method's postcondition ties the new list to the pure function of the old one. Each method also states that the invariant and the "storage equals memory" property are kept.

Modelling decisions:

- Dates are whole day numbers and today is an input. The identifier produced by `Date.now()` is an input too, and adding requires it to be fresh.
- The answer of the edit prompt is an `Option<string>`, where `None` means cancelled. The answer of the clear-completed confirmation is a `bool`.
- Editing requires the identifier to exist. The source dereferences the result of `find` without a check, so an unknown identifier throws there.
- The model follows the code where it differs from what the application is meant to do. `agregarTarea` does not check the text itself; only the submit handler trims it and skips blank input. Toggling or deleting an unknown identifier is a silent no-op that still saves. No operation reports "not found", and no storage failure is handled. Clearing completed tasks does not return a count. The count of removed tasks is stated as a lemma instead (`SinCompletadasEspec`).

## Model

| member | source | states |
|---|---|---|
| Sequences.Filter | script.js:141 | `Array.prototype.filter`. The result is no longer than the input. It holds only elements of the input that satisfy the predicate, and every element of the input that satisfies it. |
| Sequences.FilterIsSubsequence | script.js:152 | A filter result is an order-preserving subsequence of its input. |
| Sequences.FilterKeepsAll | script.js:141 | If the predicate holds of every element, the filter returns the input unchanged. |
| Sequences.FilterKeepsNone | script.js:154-157 | If the predicate holds of no element, the filter returns the empty sequence. |
| Sequences.FilterCongruent | script.js:152-165 | Predicates that agree on every element give the same filter result. |
| Sequences.FilterIdempotent | script.js:300 | Filtering twice by one predicate equals filtering once. |
| Sequences.FilterPartition | script.js:224 | The sizes of the filters by a predicate and by its negation add up to the length. |
| JsText.Trim | script.js:248 | `trim` returns the slice of the input between a blank prefix and a blank suffix. It is empty iff the input is blank. Otherwise it starts and ends with a non-blank character. |
| JsText.TrimIdempotent | script.js:105-106 | Trimming a trimmed text changes nothing. |
| Fechas.FechaPasada | script.js:82 | The past-date test over calendar days: a date is present and its day is strictly before today. `App.ListaTareas.AgregarTarea` refuses exactly these dates. |
| Fechas.Proximo | script.js:184-187 | The upcoming cue over calendar days: a date is present and falls 0 to 6 days after today. `Fechas.ProximoDias` states its boundary cases. |
| Fechas.ProximoDias | script.js:184-190 | The upcoming cue holds for today and for six days ahead. It does not hold for seven days ahead, for yesterday, or with no date. |
| Fechas.MedianocheLocal | script.js:79 | `new Date().setHours(0,0,0,0)` on a given day: the instant at which a clock that is `desfaseMs` ahead of UTC reads midnight. |
| Fechas.FechaComoUtc | script.js:80 | `new Date(fecha)` for a date-only string: midnight UTC of that day, in milliseconds. |
| Fechas.DiferenciaDias | script.js:186 | The distance from `hoy` to the due instant in fractional days, by exact real division by the milliseconds in a day. |
| Fechas.ProximoMs | script.js:187 | `diferencia >= 0 && diferencia < 7` on two instants. `Fechas.ProximoMsVentana` characterises it. |
| Fechas.ProximoMsVentana | script.js:185-187 | `diferencia >= 0 && diferencia < 7`, computed with real division by the milliseconds in a day, holds iff the due instant is in the week starting at `hoy`. |
| Fechas.ProximoMsEnDias | script.js:184-190 | When the due date and today are midnights of the same clock, the millisecond test equals the calendar-day cue. |
| Fechas.RechazaTalCual | script.js:79-82 | The past-date test as the code evaluates it: the due date read as UTC midnight comes before local midnight today. |
| Fechas.ProximoTalCual | script.js:185-187 | The upcoming test as the code evaluates it: `ProximoMs` from local midnight today to the due date read as UTC midnight. |
| Fechas.TalCualAlEste | script.js:79-82 | At UTC or east of it (offset under a day), the past-date test and the cue as written agree with the calendar-day tests on every date. |
| Fechas.RechazaHoyAlOeste | script.js:79-82 | West of UTC, the past-date test as written refuses today's own date, which the calendar-day test accepts. |
| Fechas.ProximoDesplazadoAlOeste | script.js:185-187 | West of UTC, the cue as written is missing for a task due today and shown for one due in seven days. |
| Tareas.TrimEsLimpio | script.js:248-254 | The trim of a non-blank entry is non-empty and already trimmed, so it is a text the invariant accepts. |
| Tareas.Nueva | script.js:87-94 | The record the add operation creates: the given identifier, text, date, category and priority, with `completada` false. |
| Tareas.PrefijarIdsUnicos | script.js:88-96 | Putting a task with a fresh identifier in front keeps identifiers unique. |
| Tareas.AgregarConservaValida | script.js:87-96 | Putting a new task with a fresh identifier and a clean text in front keeps the list invariant. |
| Tareas.AgregarSumaPendiente | script.js:93-96 | A new task is pending, so adding it raises the pending count by exactly one. |
| Tareas.IndiceDe | script.js:103 | `find` gives the position of the first task with the identifier. The task there has it and no earlier task does. |
| Tareas.Editadas | script.js:103-106 | The list after the text of the first task with the identifier (found by `IndiceDe`) is replaced. `Tareas.EditadasSoloTexto` states what changes. |
| Tareas.EditadasSoloTexto | script.js:103-106 | With unique identifiers, editing keeps the length and gives the matching task the new text. Every other field and every other task stay as they were. |
| Tareas.EditarConservaValida | script.js:105-106 | Editing to a clean text keeps the list invariant. |
| Tareas.Alternar | script.js:122-126 | The callback of the toggle's `map`: a task with the identifier comes back with `completada` negated and every other field kept; any other task comes back unchanged. |
| Tareas.Alternadas | script.js:121-127 | The toggle keeps length and order. It flips `completada` exactly on the tasks with the identifier and leaves every other field and task untouched. |
| Tareas.AlternarDosVeces | script.js:121-127 | Toggling the same identifier twice gives back the original list. |
| Tareas.AlternarConservaValida | script.js:121-127 | Toggling keeps the list invariant. |
| Tareas.AlternarAusente | script.js:121-127 | Toggling an identifier that no task has leaves the list equal to before. |
| Tareas.SinId | script.js:141 | `tareas.filter(t => t.id !== id)`: the delete operation's new list. `Tareas.SinIdEspec` states its meaning. |
| Tareas.SinIdEspec | script.js:141 | Deleting keeps, in relative order, exactly the tasks with a different identifier. Afterwards no task has that identifier. The kept tasks and the tasks with the identifier add up to the whole list. |
| Tareas.SinIdAusente | script.js:141 | Deleting an identifier that no task has leaves the list equal to before. |
| Tareas.SinIdQuitaUna | script.js:141 | With unique identifiers, deleting a present identifier removes exactly one task. |
| Tareas.FilterIdsUnicos | script.js:141 | A filtered list with unique identifiers still has unique identifiers. |
| Tareas.FilterConservaValida | script.js:300 | Any filter of a valid list is valid, so delete and clear-completed keep the invariant. |
| Tareas.SinCompletadas | script.js:300 | `tareas.filter(t => !t.completada)`: the clear-completed operation's new list. `Tareas.SinCompletadasEspec` states its meaning. |
| Tareas.Pendientes | script.js:224 | The pending counter: the number of tasks of the whole list that are not completed. |
| Tareas.PendientesMasCompletadas | script.js:224 | The pending count is the length minus the number of completed tasks. |
| Tareas.SinCompletadasEspec | script.js:300 | After clear-completed, no task is completed. Every pending task is kept, in its original order. Exactly the completed tasks are removed, and the pending count does not change. |
| Tareas.CumpleEstado | script.js:154-157 | The status test: the filter is `'todas'`, or it is `'pendientes'` and the task is pending, or it is `'completadas'` and the task is completed. |
| Tareas.CumpleCategoria | script.js:160-162 | The category test: the category filter is `'todas'` or equals the task's category exactly. |
| Tareas.Criterio | script.js:152-164 | The predicate passed to `filter`: the status test AND the category test. |
| Tareas.Filtrar | script.js:151-165 | `filtrarTareas()` for given filter values: the list filtered by `Criterio`. `Tareas.FiltrarEspec` states its meaning. |
| Tareas.FiltrarEspec | script.js:152-165 | The visible list is an order-preserving subsequence. A task is shown iff it passes the status test and the category test. The shown and the hidden tasks add up to the whole list. |
| Tareas.FiltrarTodas | script.js:155-161 | With both filters on `'todas'` the whole list is shown, in order. |
| Tareas.FiltrarDesconocido | script.js:154-157 | A status filter other than `'todas'`, `'pendientes'` or `'completadas'` shows nothing. |
| Tareas.FiltrarPendientes | script.js:156 | With `'pendientes'` and every category, the filter shows exactly the pending tasks. Their number equals the counter. |
| Tareas.FiltrarCategoria | script.js:160-162 | With every status and a named category, the filter shows exactly the tasks of that category, in order. |
| App.ListaTareas.constructor | script.js:44-58 | On page load, both filters are `'todas'`. The list is the stored one if the key holds one, and empty otherwise. |
| App.ListaTareas.GuardarTareas | script.js:66-70 | Storage holds the whole current list. |
| App.ListaTareas.AgregarTarea | script.js:78-100 | A due date before today changes nothing, neither the list nor storage. Otherwise the new pending task is put in front of the unchanged old list and saved. The invariant is kept for a clean text. |
| App.ListaTareas.EnviarFormulario | script.js:245-258 | A blank entry or a past date changes nothing. Otherwise the trimmed text is added in front and saved. The invariant is kept. |
| App.ListaTareas.EditarTarea | script.js:102-110 | A non-blank answer sets the found task's text to its trimmed form and saves. A cancelled or blank answer changes nothing. The invariant is kept. |
| App.ListaTareas.ToggleTarea | script.js:118-133 | The list becomes the toggled list and is saved. The invariant is kept. |
| App.ListaTareas.EliminarTarea | script.js:140-144 | The list becomes the list without the identifier and is saved. The invariant is kept. |
| App.ListaTareas.LimpiarCompletadas | script.js:298-304 | If confirmed, the list becomes its pending tasks and is saved. Otherwise nothing changes. The invariant is kept. |
| App.ListaTareas.CambiarFiltro | script.js:261-277 | Selecting a status filter changes only `filtroActual`. Nothing is saved. |
| App.ListaTareas.CambiarCategoria | script.js:284-291 | Selecting a category changes only `filtroCategoria`. Nothing is saved. |
| App.ListaTareas.Visibles | script.js:151-165 | The tasks shown form an order-preserving subsequence of the list. Exactly those passing both current filters are shown, and the shown and the hidden tasks add up to the list. |
| App.ListaTareas.Contador | script.js:222-226 | The counter is the length of the whole list minus the completed tasks, whatever filters are selected. |
| App.RecargarPagina | script.js:308 | After a save, loading the page from storage gives back the same list, with both filters reset. |

## Left out

- DOM work: element lookup, building the `<li>` items and their `innerHTML`, wiring the event listeners, `focus()` and `formulario.reset()`. These are presentation only.
- `escaparHTML`: it escapes through a DOM element, a browser facility outside the model.
- Storage and JSON: `localStorage` is the `tareasGuardadas` field, and JSON encoding is taken to round-trip a task list exactly. Stored data that does not parse makes `cargarTareas` throw in the source. The model's storage always holds a list, so that failure is not represented.
- `alert`, `prompt` and `confirm` are inputs: the `agregada` result, an `Option<string>` and a `bool`.
- The deletion deferred to `onanimationend` is UI timing. The model deletes when `EliminarTarea` is called.
- The dark-mode toggle and its storage flag have nothing to do with tasks.
- `console.log` calls have no behaviour.
- `Date.now()` is not modelled as a clock. The identifier is an input required to be fresh, so two additions in the same millisecond, which would collide in the source, are excluded.
- Object identity: `editarTarea` assigns the text field of the record object found in the array, and records are values here. The handlers that `renderizarTareas` attaches to each item, and the filtered array it builds, keep references to the same record objects. Those handlers read only the record's `id`, which no operation writes, so no aliasing is lost.
- Floating point: the cue's division is modelled with exact reals. For day-sized differences below 2^53 milliseconds, the double result is on the same side of 0 and 7.
- `AgregarTarea`, `EnviarFormulario` and the other methods in the main model compare calendar days. They are not the instant-level comparisons of the code; those are modelled separately in `Fechas` (see Findings).

## Findings

| source | as written | input that shows it | evidently intended | confidence | as-written member | corrected member |
|---|---|---|---|---|---|---|
| script.js:79-82 | `new Date(fecha)` reads a date-only string as UTC midnight, but `hoy` is local midnight, and the two are compared as instants | a clock at UTC-5 adding a task due today: the instant is 5 hours before local midnight, so the task is refused as a past date | only dates strictly before today's calendar day are refused, in every time zone | high, not executed | Fechas.RechazaHoyAlOeste | App.ListaTareas.AgregarTarea |
| script.js:185-187 | the cue measures from local midnight to the due date read as UTC midnight | a clock at UTC-5: a task due today gets -0.21 days (no cue), and one due in 7 days gets 6.79 days (cue shown) | the cue holds for due dates 0 to 6 calendar days from today | high, not executed | Fechas.ProximoDesplazadoAlOeste | Fechas.ProximoDias |
