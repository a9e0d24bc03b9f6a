# Homologation requests: coordinator dashboard logic in Dafny

This project models the client-side logic of the coordinator screens of
the Uniautónoma homologation system. A homologation request
(`solicitud`) is a student's request to have earlier studies recognised.
It has a case number (`numero_radicado`), the student's names, a target
programme, a status and a submission timestamp. The two screens load the
request list and derive everything they show from it:

- **Request page** (`solicitudhomologacion/page.jsx`):
  - the table filtered by four optional criteria (status, UTC day,
    programme, student name or case number);
  - the sorted, duplicate-free options of the status and programme
    selectors;
  - the quick counters;
  - the status badge;
  - the rule that a closed request cannot be edited;
  - the criteria record and its two handlers;
  - the load step.
- **Home dashboard** (`Views/home.jsx`):
  - the exact-status counters;
  - the date-descending order of the list;
  - the notifications built from it: at most one "new in 24 hours", at most
    one "pending over 7 days", then up to three approved and up to three
    rejected;
  - the load step with its success and failure outcomes;
  - the "latest requests" panel, which sorts the held list in place and
    shows eight.

Modules, one concern each:

- `Texto` (`texto.dfy`): the string operations of JavaScript the code
  relies on. These are `toLowerCase`, `includes`, `trim`, `${n}` for a
  natural number, zero padding, and the order the default `sort` gives
  strings.
- `Solicitudes` (`solicitudes.dfy`): the request record; the outcome of a
  fetch (`Respuesta`); the proleptic Gregorian calendar behind
  `toISOString().split('T')[0]`, with its inverse proved. Timestamps are
  milliseconds since the epoch, limited to the range a `Date` can hold.
- `Secuencias` (`secuencias.dfy`): `filter` and `slice(0, n)` and the
  facts about them.
- `FiltroSolicitudes` (`filtro.dfy`) and `PaginaCoordinador`
  (`pagina.dfy`): the request page. The first holds everything it computes;
  the second is a class with the page's state fields and handlers.
- `Tablero` (`tablero.dfy`) and `TableroEstado` (`tablero_estado.dfy`):
  the home dashboard. The first holds its specification functions and
  lemmas; the second holds the notification method with its push loops
  and a class with the dashboard's state.

Where the two screens differ, the model follows each file:

- A failed load empties the list on the request page but keeps it on the
  home dashboard.
- The request page counts statuses by case-insensitive substring; the home
  dashboard counts them by exact equality.
- `StatsFrenteAPagina` relates the two ways of counting.
- Both requests for the screen's data become a `Respuesta` parameter, and
  the current time on the home dashboard becomes a `now` parameter.

## Model

| member | source | states |
|---|---|---|
| Texto.Minuscula | src/app/homologacionesuniautonoma/Coordinador/solicitudhomologacion/page.jsx:70-72 | lower-casing keeps the length, leaves no capital and keeps every other character |
| Texto.MinusculaIdempotente | src/app/homologacionesuniautonoma/Coordinador/solicitudhomologacion/page.jsx:70-72 | lower-casing an already lower-cased string changes nothing |
| Texto.Incluye | src/app/homologacionesuniautonoma/Coordinador/solicitudhomologacion/page.jsx:51 | the empty query is found in every string |
| Texto.IncluyeSiiVentana | src/app/homologacionesuniautonoma/Coordinador/solicitudhomologacion/page.jsx:51 | `includes` holds exactly when some window of the string equals the query |
| Texto.NoIncluyeMasLargo | src/app/homologacionesuniautonoma/Coordinador/solicitudhomologacion/page.jsx:115-118 | a string never contains a longer keyword |
| Texto.Recortar | src/app/homologacionesuniautonoma/Coordinador/solicitudhomologacion/page.jsx:48 | `trim` returns an infix that starts and ends with non-space, and everything it cuts off is white space |
| Texto.RecortarFinal | src/app/homologacionesuniautonoma/Coordinador/solicitudhomologacion/page.jsx:48 | a string that starts with non-space and has only white space after its first m characters, the last of them non-space, is trimmed to exactly those m |
| Texto.NatATexto | src/app/homologacionesuniautonoma/Coordinador/Views/home.jsx:95 | `${n}` is a non-empty run of decimal digits, with no leading zero unless n is 0; this is JavaScript's rendering for the safe integers below 2^53 that the model's counts and ids stand for |
| Texto.TextoANatDeNatATexto | src/app/homologacionesuniautonoma/Coordinador/Views/home.jsx:95 | reading back the digits of `${n}` gives n |
| Texto.RellenarCeros | src/app/homologacionesuniautonoma/Coordinador/solicitudhomologacion/page.jsx:57 | padding reaches the width and keeps the original digits at the end |
| Texto.RellenarCerosCeros | src/app/homologacionesuniautonoma/Coordinador/solicitudhomologacion/page.jsx:57 | every character the padding adds is '0' |
| Texto.PrecedeIrreflexivo | src/app/homologacionesuniautonoma/Coordinador/solicitudhomologacion/page.jsx:125 | no string sorts before itself |
| Texto.PrecedeAsimetrico | src/app/homologacionesuniautonoma/Coordinador/solicitudhomologacion/page.jsx:125 | two strings never sort before each other |
| Texto.PrecedeTotal | src/app/homologacionesuniautonoma/Coordinador/solicitudhomologacion/page.jsx:125 | any two different strings are ordered one way or the other |
| Texto.PrecedeTransitivo | src/app/homologacionesuniautonoma/Coordinador/solicitudhomologacion/page.jsx:125 | the string order is transitive |
| Solicitudes.MensajeDeFalla | src/app/homologacionesuniautonoma/Coordinador/solicitudhomologacion/page.jsx:26-34 | a rejected fetch gives its own message; a failed status gives `Error `, the status digits, which read back to the status, then `: ` and the status text |
| Solicitudes.AnioYDia | src/app/homologacionesuniautonoma/Coordinador/solicitudhomologacion/page.jsx:57 | a day count splits into a year and a day within that year |
| Solicitudes.FechaDeDia | src/app/homologacionesuniautonoma/Coordinador/solicitudhomologacion/page.jsx:57 | the calendar date of a day count is valid, and counting its days back gives the same number |
| Solicitudes.FechaDeDiaInyectiva | src/app/homologacionesuniautonoma/Coordinador/solicitudhomologacion/page.jsx:57 | different days get different dates |
| Solicitudes.DiaIso | src/app/homologacionesuniautonoma/Coordinador/solicitudhomologacion/page.jsx:57 | the date text of a timestamp is that of a valid calendar date whose UTC day, from its first to its last millisecond, contains the timestamp |
| Solicitudes.TextoFechaForma | src/app/homologacionesuniautonoma/Coordinador/solicitudhomologacion/page.jsx:57 | for years 0 to 9999 the day is written as ten characters, YYYY-MM-DD, all digits but the dashes |
| Solicitudes.DiaIsoEpoca | src/app/homologacionesuniautonoma/Coordinador/solicitudhomologacion/page.jsx:57 | timestamp 0 falls on 1970-01-01 |
| Solicitudes.FechaAntesDeEpoca | src/app/homologacionesuniautonoma/Coordinador/solicitudhomologacion/page.jsx:57 | timestamp -1 falls on 1969-12-31: days round down, not toward zero |
| Secuencias.Filtrar | src/app/homologacionesuniautonoma/Coordinador/solicitudhomologacion/page.jsx:46 | `filter` keeps exactly the elements that pass, and no more of them than there were |
| Secuencias.Primeros | src/app/homologacionesuniautonoma/Coordinador/Views/home.jsx:124 | `slice(0, n)` is the first min(n, length) elements, each one from the list |
| Secuencias.PrimerosSubmultiset | src/app/homologacionesuniautonoma/Coordinador/Views/home.jsx:124 | `slice(0, n)` takes no element more often than the list holds it |
| Secuencias.FiltrarEsSubsecuencia | src/app/homologacionesuniautonoma/Coordinador/solicitudhomologacion/page.jsx:46 | `filter` keeps the original order |
| Secuencias.FiltrarIdempotente | src/app/homologacionesuniautonoma/Coordinador/solicitudhomologacion/page.jsx:46 | filtering twice with one test is filtering once |
| Secuencias.FiltrarConcatenacion | src/app/homologacionesuniautonoma/Coordinador/solicitudhomologacion/page.jsx:46 | filtering distributes over concatenation |
| Secuencias.FiltrarDisjuntos | src/app/homologacionesuniautonoma/Coordinador/Views/home.jsx:51-53 | three tests that exclude each other keep, together, no more than the list holds |
| FiltroSolicitudes.ConCampo | src/app/homologacionesuniautonoma/Coordinador/solicitudhomologacion/page.jsx:84-89 | setting one criterion gives it the new value and leaves the other three as they were |
| FiltroSolicitudes.NombreCompleto | src/app/homologacionesuniautonoma/Coordinador/solicitudhomologacion/page.jsx:48 | the full name searched neither starts nor ends with white space |
| FiltroSolicitudes.CumpleEstado | src/app/homologacionesuniautonoma/Coordinador/solicitudhomologacion/page.jsx:50-53 | an empty status criterion passes every request; an active one rejects a request without a status and passes one whose status equals it up to case |
| FiltroSolicitudes.CumpleFecha | src/app/homologacionesuniautonoma/Coordinador/solicitudhomologacion/page.jsx:55-61 | an empty date criterion passes every request; an active one passes exactly the requests whose UTC day text is the query |
| FiltroSolicitudes.CumpleCarrera | src/app/homologacionesuniautonoma/Coordinador/solicitudhomologacion/page.jsx:63-66 | an empty programme criterion passes every request; an active one rejects a request without a programme and passes one whose programme equals it up to case |
| FiltroSolicitudes.CumpleEstudiante | src/app/homologacionesuniautonoma/Coordinador/solicitudhomologacion/page.jsx:68-77 | an empty search passes every request |
| FiltroSolicitudes.Cumple | src/app/homologacionesuniautonoma/Coordinador/solicitudhomologacion/page.jsx:46-80 | the empty criteria pass every request, and a request that passes meets each of the four criteria |
| FiltroSolicitudes.SolicitudesFiltradas | src/app/homologacionesuniautonoma/Coordinador/solicitudhomologacion/page.jsx:45-81 | the table is an order-preserving subsequence holding exactly the requests that pass every active criterion. An active status or programme criterion rejects a request missing that field; an active date keeps only requests on that UTC day |
| FiltroSolicitudes.FiltradasSinFiltros | src/app/homologacionesuniautonoma/Coordinador/solicitudhomologacion/page.jsx:45-81 | with every criterion empty the table is the whole list |
| FiltroSolicitudes.FiltradasIdempotente | src/app/homologacionesuniautonoma/Coordinador/solicitudhomologacion/page.jsx:45-81 | filtering the table again with the same criteria changes nothing |
| FiltroSolicitudes.FiltradasComposicion | src/app/homologacionesuniautonoma/Coordinador/solicitudhomologacion/page.jsx:50-78 | the four criteria are independent: one filter equals the four single-criterion filters applied in turn |
| FiltroSolicitudes.BusquedaPorRadicado | src/app/homologacionesuniautonoma/Coordinador/solicitudhomologacion/page.jsx:69-77 | a case number equal to the query up to letter case is found by the student search |
| FiltroSolicitudes.BusquedaRadicadoEjemplo | src/app/homologacionesuniautonoma/Coordinador/solicitudhomologacion/page.jsx:69-77 | searching RAD-001 or rad-001 finds a request numbered either way |
| FiltroSolicitudes.ConsultaMasLarga | src/app/homologacionesuniautonoma/Coordinador/solicitudhomologacion/page.jsx:68-77 | a search longer than both the full name and the case number finds nothing |
| FiltroSolicitudes.NombreSinSegundoNombre | src/app/homologacionesuniautonoma/Coordinador/solicitudhomologacion/page.jsx:48-77 | without a second first name the full name of Ana Ruiz is `Ana  Ruiz`, with two spaces: searching `ana  ruiz` finds her, searching `ana ruiz` does not |
| FiltroSolicitudes.InsertarUnico | src/app/homologacionesuniautonoma/Coordinador/solicitudhomologacion/page.jsx:123-126 | adding a value to a sorted duplicate-free list keeps it sorted and duplicate-free, with the value added |
| FiltroSolicitudes.Unicos | src/app/homologacionesuniautonoma/Coordinador/solicitudhomologacion/page.jsx:123-132 | the distinct present non-empty values, sorted |
| FiltroSolicitudes.EstadosUnicos | src/app/homologacionesuniautonoma/Coordinador/solicitudhomologacion/page.jsx:123-126 | the status options are sorted ascending, hold no value twice, and are exactly the non-empty statuses present |
| FiltroSolicitudes.CarrerasUnicas | src/app/homologacionesuniautonoma/Coordinador/solicitudhomologacion/page.jsx:129-132 | the programme options are sorted ascending, hold no value twice, and are exactly the non-empty programmes present |
| FiltroSolicitudes.CrecienteSinRepetidos | src/app/homologacionesuniautonoma/Coordinador/solicitudhomologacion/page.jsx:123-126 | a strictly sorted list holds no value twice |
| FiltroSolicitudes.CrecienteUnica | src/app/homologacionesuniautonoma/Coordinador/solicitudhomologacion/page.jsx:123-132 | two strictly sorted lists with the same values are equal, so the order `Set` iterates in does not matter |
| FiltroSolicitudes.EstadosUnicosDeterminados | src/app/homologacionesuniautonoma/Coordinador/solicitudhomologacion/page.jsx:123-126 | any sorted duplicate-free listing of the statuses present is the status options |
| FiltroSolicitudes.CalcularEstadisticas | src/app/homologacionesuniautonoma/Coordinador/solicitudhomologacion/page.jsx:135-142 | the total is the list length and each counter is at most the total |
| FiltroSolicitudes.EstadisticasDeUna | src/app/homologacionesuniautonoma/Coordinador/solicitudhomologacion/page.jsx:135-142 | one request adds one to the total and one to each bucket whose word its lower-cased status contains |
| FiltroSolicitudes.EstadisticasConcatenadas | src/app/homologacionesuniautonoma/Coordinador/solicitudhomologacion/page.jsx:135-142 | the counters of a list are the sums of the counters of its parts |
| FiltroSolicitudes.GetBadgeClass | src/app/homologacionesuniautonoma/Coordinador/solicitudhomologacion/page.jsx:112-120 | the badge is that of the first keyword contained, in the order aprobado, rechazado, revisión, radicado; otherwise, and for a missing status, slate |
| FiltroSolicitudes.EdicionPermitida | src/app/homologacionesuniautonoma/Coordinador/solicitudhomologacion/page.jsx:522 | a request without a status can be edited; one that cannot has a seven-character status |
| FiltroSolicitudes.CerradaSinCategoria | src/app/homologacionesuniautonoma/Coordinador/solicitudhomologacion/page.jsx:112-142 | a closed request gets the slate badge and falls in no counter |
| FiltroSolicitudes.InsigniaSegunEstadisticas | src/app/homologacionesuniautonoma/Coordinador/solicitudhomologacion/page.jsx:112-142 | a request counts as approved in the statistics exactly when its badge is emerald, both testing the lower-cased status the same way |
| FiltroSolicitudes.CerradaSinMayusculas | src/app/homologacionesuniautonoma/Coordinador/solicitudhomologacion/page.jsx:430 | Cerrado and CERRADO both lock the edit button |
| PaginaCoordinador.CoordinadorDashboard.Filtradas | src/app/homologacionesuniautonoma/Coordinador/solicitudhomologacion/page.jsx:45-81 | the shown table is a subsequence of the held list, holding exactly the requests that pass the held criteria |
| PaginaCoordinador.CoordinadorDashboard.constructor | src/app/homologacionesuniautonoma/Coordinador/solicitudhomologacion/page.jsx:7-17 | the page starts with no data, loading, no error and empty criteria |
| PaginaCoordinador.CoordinadorDashboard.FetchSolicitudes | src/app/homologacionesuniautonoma/Coordinador/solicitudhomologacion/page.jsx:21-39 | success installs the data and clears the error; failure empties the list and shows the banner with the error message. Loading ends either way |
| PaginaCoordinador.CoordinadorDashboard.HandleFiltroChange | src/app/homologacionesuniautonoma/Coordinador/solicitudhomologacion/page.jsx:84-89 | only the named criterion changes, and the list, loading flag and error stay |
| PaginaCoordinador.CoordinadorDashboard.LimpiarFiltros | src/app/homologacionesuniautonoma/Coordinador/solicitudhomologacion/page.jsx:92-99 | every criterion becomes empty and the table becomes the whole list |
| Tablero.CalcularStats | src/app/homologacionesuniautonoma/Coordinador/Views/home.jsx:50-53 | the total is the list length; the pending, approved and rejected counters never add up to more than the total |
| Tablero.StatsFrenteAPagina | src/app/homologacionesuniautonoma/Coordinador/Views/home.jsx:50-53 | the home counters by exact status are at most the request page's substring counters |
| Tablero.ColorEstado | src/app/homologacionesuniautonoma/Coordinador/Views/home.jsx:223-234 | green exactly for Aprobado, red exactly for Rechazado, yellow exactly for En revisión, blue otherwise |
| Tablero.ColorSegunContadores | src/app/homologacionesuniautonoma/Coordinador/Views/home.jsx:223-234 | the pill is green or red exactly for the requests the approved or rejected counter counts |
| Tablero.Insertar | src/app/homologacionesuniautonoma/Coordinador/Views/home.jsx:78-80 | inserting one request adds exactly it to the list |
| Tablero.InsertarOrdenada | src/app/homologacionesuniautonoma/Coordinador/Views/home.jsx:78-80 | inserting into a date-descending list keeps it date-descending |
| Tablero.Ordenar | src/app/homologacionesuniautonoma/Coordinador/Views/home.jsx:78-80 | the sorted copy is a permutation of the list with non-increasing dates |
| Tablero.OrdenarEstable | src/app/homologacionesuniautonoma/Coordinador/Views/home.jsx:78-80 | requests with equal dates keep their input order |
| Tablero.OrdenarConservaCuentas | src/app/homologacionesuniautonoma/Coordinador/Views/home.jsx:78-80 | sorting changes no count |
| Tablero.OrdenarMismos | src/app/homologacionesuniautonoma/Coordinador/Views/home.jsx:78-80 | a request is in the sorted copy exactly when it is in the list |
| Tablero.OrdenarOrdenada | src/app/homologacionesuniautonoma/Coordinador/Views/home.jsx:368 | sorting a date-descending list leaves it unchanged |
| Tablero.OrdenarIdempotente | src/app/homologacionesuniautonoma/Coordinador/Views/home.jsx:368 | sorting twice is sorting once |
| Tablero.FiltrarNoCreciente | src/app/homologacionesuniautonoma/Coordinador/Views/home.jsx:124 | filtering a date-descending list keeps it date-descending |
| Tablero.MasRecientes | src/app/homologacionesuniautonoma/Coordinador/Views/home.jsx:124 | the first n of a date-descending list are its n most recent |
| Tablero.PluralNuevas | src/app/homologacionesuniautonoma/Coordinador/Views/home.jsx:95 | one new request reads "nueva solicitud", more read "nuevas solicitudes" |
| Tablero.PluralDemoradas | src/app/homologacionesuniautonoma/Coordinador/Views/home.jsx:116 | one delayed request reads "solicitud pendiente", more read "solicitudes pendientes" |
| Tablero.AvisoResuelta | src/app/homologacionesuniautonoma/Coordinador/Views/home.jsx:125-145 | a resolved-request notice is success for approved and error for rejected, dated as the request; its id is `aprobada-` or `rechazada-` followed by digits that read back to the request id |
| Tablero.AvisoIdsDistintos | src/app/homologacionesuniautonoma/Coordinador/Views/home.jsx:127-139 | requests with different ids get notices with different ids |
| Tablero.AvisoResueltaMensaje | src/app/homologacionesuniautonoma/Coordinador/Views/home.jsx:128-140 | the notice message starts with `Solicitud ` and the case number, contains the first name and first surname separated by a space, and ends in ` aprobada` for an approved request and ` rechazada` for a rejected one |
| Tablero.MensajeForma | src/app/homologacionesuniautonoma/Coordinador/Views/home.jsx:128-140 | the message text splits into the case number after `Solicitud `, the name inside it and the closing word at its end |
| Tablero.Avisos | src/app/homologacionesuniautonoma/Coordinador/Views/home.jsx:125-145 | one notice per request, in the requests' order |
| Tablero.AvisoNuevas | src/app/homologacionesuniautonoma/Coordinador/Views/home.jsx:85-100 | at most one notice, and when there is one it is the info notice `nuevas-solicitudes` dated now |
| Tablero.AvisoDemoradas | src/app/homologacionesuniautonoma/Coordinador/Views/home.jsx:103-121 | at most one notice, and when there is one it is the warning `pendientes-demoradas` dated now |
| Tablero.TresMasRecientes | src/app/homologacionesuniautonoma/Coordinador/Views/home.jsx:124 | at most three requests, each one from the list and in the bucket |
| Tablero.Notificaciones | src/app/homologacionesuniautonoma/Coordinador/Views/home.jsx:77-148 | there are never more than eight notifications, and an empty list gives none |
| Tablero.NotificacionesPorTipo | src/app/homologacionesuniautonoma/Coordinador/Views/home.jsx:82-147 | the notices of each kind are exactly the part that kind contributes |
| Tablero.NotificacionesOrdenadas | src/app/homologacionesuniautonoma/Coordinador/Views/home.jsx:82-147 | the kinds come in the order info, warning, success, error |
| Tablero.AvisoNuevasSii | src/app/homologacionesuniautonoma/Coordinador/Views/home.jsx:85-100 | there is an info notice exactly when some request is less than a day old; it comes first, it is the only info notice, and it counts all such requests |
| Tablero.AvisoDemoradasSii | src/app/homologacionesuniautonoma/Coordinador/Views/home.jsx:103-121 | there is a warning exactly when some Radicado or En revisión request is more than seven days old; it is the only warning and counts all such requests |
| Tablero.ElegidasDe | src/app/homologacionesuniautonoma/Coordinador/Views/home.jsx:124 | the requests chosen from a bucket are newest first, min(3, bucket size) of them, each a request of the list in the bucket |
| Tablero.AvisosAprobadasSiempre | src/app/homologacionesuniautonoma/Coordinador/Views/home.jsx:124-133 | for every list the success notices are one per chosen approved request, in order; the chosen are newest first, min(3, approved count) of them, all approved requests of the list |
| Tablero.AvisosRechazadasSiempre | src/app/homologacionesuniautonoma/Coordinador/Views/home.jsx:136-145 | for every list the error notices are one per chosen rejected request, in order; the chosen are newest first, min(3, rejected count) of them, all rejected requests of the list |
| Tablero.CuantasPorTipo | src/app/homologacionesuniautonoma/Coordinador/Views/home.jsx:82-147 | at most one info, one warning, three success and three error notices |
| Tablero.AvisosAprobadas | src/app/homologacionesuniautonoma/Coordinador/Views/home.jsx:124-133 | when an approved request has no notice, exactly three approved requests do, newest first, and none is older than it |
| Tablero.AvisosRechazadas | src/app/homologacionesuniautonoma/Coordinador/Views/home.jsx:136-145 | when a rejected request has no notice, exactly three rejected requests do, newest first, and none is older than it |
| Tablero.AvisosAprobadasTodas | src/app/homologacionesuniautonoma/Coordinador/Views/home.jsx:124 | with at most three approved requests, every one gets a notice |
| Tablero.AvisosRechazadasTodas | src/app/homologacionesuniautonoma/Coordinador/Views/home.jsx:136 | with at most three rejected requests, every one gets a notice |
| Tablero.Ultimas | src/app/homologacionesuniautonoma/Coordinador/Views/home.jsx:367-369 | the panel is the first min(8, length) requests of the sorted list: newest first, each from the list, none shown more often than the list holds it |
| Tablero.UltimasMasRecientes | src/app/homologacionesuniautonoma/Coordinador/Views/home.jsx:367-369 | a request left off the panel is no more recent than any shown |
| TableroEstado.AgregarAvisos | src/app/homologacionesuniautonoma/Coordinador/Views/home.jsx:125-133 | the forEach appends one notice per request, in order |
| TableroEstado.ActualizarNotificaciones | src/app/homologacionesuniautonoma/Coordinador/Views/home.jsx:77-148 | the pushes build exactly the notification list of the specification |
| TableroEstado.MensajeDeCarga | src/app/homologacionesuniautonoma/Coordinador/Views/home.jsx:42-69 | a rejected fetch keeps its message, as on the request page; a failed status gives the fixed `Error al cargar los datos`, which differs from the request page's message with the status |
| TableroEstado.Dashboard.Valid | src/app/homologacionesuniautonoma/Coordinador/Views/home.jsx:50-60 | the counters describe the held list: the total is its length and the buckets add up to no more than the total |
| TableroEstado.Dashboard.constructor | src/app/homologacionesuniautonoma/Coordinador/Views/home.jsx:16-26 | zero counters, no data, no notifications, loading, no error |
| TableroEstado.Dashboard.CargarDatos | src/app/homologacionesuniautonoma/Coordinador/Views/home.jsx:37-74 | success replaces the list, recomputes counters and notifications and clears the error; failure sets the error and keeps the rest. Loading ends false. The counters always describe the list held |
| TableroEstado.Dashboard.UltimasSolicitudes | src/app/homologacionesuniautonoma/Coordinador/Views/home.jsx:367-369 | the held list is sorted in place, the first eight are shown, and the counters stay true of the reordered list |
| TableroEstado.UltimasEstable | src/app/homologacionesuniautonoma/Coordinador/Views/home.jsx:367-369 | drawing the panel again leaves the list and the panel as the first drawing left them |

## Left out

- HTTP: the `fetch` call, the URL, `response.ok` and JSON parsing are
  outside the model. Their outcome is the `Respuesta` parameter: a list, a
  status code with its text, or a failure message.
- Polling: the five-minute `setInterval`/`clearInterval` refresh is
  outside the model. So are the intermediate `loading = true` render and
  any race between overlapping loads; React state updates are modelled as
  sequential assignments.
- The clock: `new Date()` on the home dashboard becomes the `now`
  parameter, one value for the whole update. The source reads the clock
  anew for each request.
- Invalid or missing dates: `fecha_solicitud` is always a valid
  timestamp. The model does not cover invalid dates, `NaN` in the sort
  comparator, or `toISOString` throwing.
- Locale formatting: `formatearFecha` and the `toLocale*` calls are
  presentation only.
- Lower-casing: `Minuscula` lower-cases ASCII and the Latin-1 capitals
  only; it does not do the full Unicode `toLowerCase`.
- Sort order of strings: `sort` compares strings by UTF-16 code unit. The
  model compares code points, which agree except for characters outside
  the Basic Multilingual Plane.
- Missing and null fields: a missing or null text field is `None`; a
  present string, the empty one included, is `Some`. In template literals
  `None` renders as `undefined`; the JSON `null` rendering `null` is not
  distinguished.
- Request id: `id` is assumed present and a safe integer: a natural
  number below 2^53, as every count, being a list length, also is. Only
  then is a notice id `aprobada-` or `rechazada-` followed by digits
  that read back to the id; from 10^21 up JavaScript writes a number in exponent form
  (`aprobada-1e+21`), and above 2^53 the id is already rounded when the
  JSON is parsed. A missing id, which the source would render as
  `aprobada-undefined`, is not modelled. The request table's row key
  `id_solicitud` is presentation only.
- Date parsing: `fecha_solicitud` arrives as a string that `new Date(...)`
  parses. The model starts from the parsed timestamp. A date-time string
  without an offset is read as local time (a date-only string such as
  `2024-05-01` is read as UTC), so its UTC day, which the date filter
  compares, can differ from the date written in the data; that parse is
  outside the model.
- Solicitudes.FechaAntesDeEpoca: proves only the calendar date of
  timestamp -1, not its `1969-12-31` text. The text needs a literal
  evaluation too costly for the verifier.
- FiltroSolicitudes.NombreCompleto: its contract only says the name has
  no white space at either end. Which queries a name matches is proved
  only for a query longer than the name and for the missing-middle-name
  example, not in general.
- Presentation: JSX rendering, CSS classes (badges and pills are tags),
  icons, `showAlert` and the `console.log` handlers are outside the
  model.
- `src/components/layout/vertical/menus/MenuCoordinador.jsx`: a static
  navigation menu with no logic. It is not part of this model.
