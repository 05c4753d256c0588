# Manuscript unlock and download, modelled in Dafny

This project models the core of a browser-automation script that walks a paginated catalogue of
manuscripts. On each page it reads the manuscript cards, sorts them by century, and goes through
those whose PDF is not yet on disk. Each manuscript is downloaded directly, unlocked with the code
taken from the previous PDF, or unlocked through an HTTP challenge API. The PDF is then repaired
with a Ghostscript subprocess, and the next access code is read out of its text with a regular
expression.

The model is split into modules that follow the source files:

| module | file | what it holds |
|---|---|---|
| `JsStrings` | js_strings.dfy | The JavaScript string semantics the source relies on: the `\s` / `trim` whitespace set, `trim`, and first-occurrence `replace`. |
| `Records` | records.dfy | The `Manuscrito` record. |
| `Helpers` | helpers.dfy | `sigloARoman`, the stable sort by century rank, and the PDF file name built from a title (`src/utils/helpers.ts`). |
| `Listing` | listing.dfy | The title deduplication at the end of `obtenerManuscritos`, and `obtenerPaginas`. |
| `Patterns` | patterns.dfy | The two case-insensitive regular expressions `acceso:\s*([A-Z0-9\-]+)` and `contraseña:\s*([A-Z0-9]+)`. |
| `PdfUtils` | pdf_utils.dfy | `descargarPDF`, `repararYReemplazarPDF` and `extraerCodigoPDF`, over a downloads directory modelled as a map from path to file size. The class `Archivos` holds that map and updates it in place. |
| `ApiUtils` | api_utils.dfy | `obtenerCodigo`, the request URL, and `resolverDesafioApi`'s handling of errors and of status 400. |
| `Unlock` | unlock.dfy | `desbloquearTodos` and `procesarModalYDesbloquear` as functions of what the site answers. |
| `UnlockProcedure` | unlock_procedure.dfy | The same procedures written as the loops they are, each proved to compute what `Unlock` specifies. |
| `Pages` | pages.dfy | The driver `desbloquearTodasLasPaginas`, as a specification and as a loop. |

The browser, the clipboard, the HTTP API, the Ghostscript subprocess and `pdf-parse` are not
executed. Their answers are parameters: an `Unlock.Sitio` value bundles them, looked up by
title or, for the HTTP request, by URL.

Behaviour of the code that is easy to misread, and that the model reproduces as written:

- **Exceptions in branches 1-3.** Only the fallback branch (`src/scripts/manuscritos.ts:241-254`)
  has a `try`. An exception in the direct-download, unlock-with-code or challenge branch ends
  `desbloquearTodos` and the page driver. The model calls this `Abortado`.
- **Errors other than 400.** The outer `catch` (`src/scripts/apiUtils.ts:87-89`) turns every
  error other than a handled 400 into `undefined`, modelled as `None`.
- **What `procesarModalYDesbloquear` returns.** When the clipboard holds a password, it returns
  the whole clipboard text (`src/scripts/manuscritos.ts:167`), not the captured group.
  `Unlock.ProcesarModal` returns that same text.
- **Duplicated helpers.** `src/scripts/manuscritos.ts:19-34` repeats `sigloARoman` and
  `ordenarManuscritosPorSiglo` from `src/utils/helpers.ts` word for word. They are modelled once,
  in `Helpers`.

## Model

| member | source | states |
|---|---|---|
| JsStrings.IndexOf | src/utils/helpers.ts:12 | The search `replace` uses: the result is the first position at or after the start where the pattern occurs, and `None` exactly when there is no such position. |
| JsStrings.RemoveFirst | src/utils/helpers.ts:12 | `replace` with a string pattern: the text is unchanged when the pattern does not occur; otherwise the pattern is cut out at its first occurrence `i`: the text is the result's first `i` characters, then the pattern, then the rest of the result. |
| JsStrings.RemoveFirstAfterSpace | src/utils/helpers.ts:12 | A pattern that starts with a non-space and follows only whitespace is the occurrence that `replace` removes. |
| JsStrings.RemoveFirstPrefix | src/utils/helpers.ts:12 | A pattern at the very start of the text is the occurrence that `replace` removes. |
| JsStrings.TrimStart | src/utils/helpers.ts:12 | The first half of `trim`: a suffix of the text, what it drops is all whitespace, and it does not start with whitespace. |
| JsStrings.TrimEnd | src/utils/helpers.ts:12 | The second half of `trim`: a prefix of the text, what it drops is all whitespace, and it does not end with whitespace. |
| JsStrings.Trim | src/utils/helpers.ts:12 | `trim` never lengthens the text, and its result neither starts nor ends with whitespace. |
| JsStrings.TrimIsInfix | src/utils/helpers.ts:12 | `trim` removes only a whitespace prefix and a whitespace suffix. What remains neither starts nor ends with whitespace. |
| JsStrings.TrimPadded | src/utils/helpers.ts:12 | Trimming a word padded with whitespace on both sides gives back the word. |
| Helpers.Romano | src/utils/helpers.ts:5-12 | The lookup table: every rank is 0 (key missing) or between 14 and 18. |
| Helpers.Clave | src/utils/helpers.ts:12 | The key looked up in the table never starts or ends with whitespace. |
| Helpers.SigloARoman | src/utils/helpers.ts:4-13 | A century label ranks 0 or 14..18. |
| Helpers.ClavePrefijada | src/utils/helpers.ts:12 | The key of "Siglo " + whitespace + numeral + whitespace is the numeral. |
| Helpers.ClaveSinPrefijo | src/utils/helpers.ts:12 | Without the "Siglo " prefix, the key of a padded numeral is still the numeral. |
| Helpers.SigloConocido | src/utils/helpers.ts:5-12 | The five table labels, with or without the prefix, with whitespace between prefix and numeral and after the numeral, rank as the table says. |
| Helpers.SigloConocidoTrasEspacios | src/utils/helpers.ts:5-12 | Whitespace before the "Siglo " prefix is trimmed too: such a label still ranks as the table says. |
| Helpers.RangoCreciente | src/utils/helpers.ts:5-12 | XIV < XV < XVI < XVII < XVIII in rank. |
| Helpers.SigloDesconocido | src/utils/helpers.ts:5-12 | A label whose key is none of XIV, XV, XVI, XVII, XVIII ranks 0, below every label whose key is one of them. |
| Helpers.Rango | src/utils/helpers.ts:19 | The comparator key of a record is 0 or a rank between 14 and 18. |
| Helpers.Insertar | src/utils/helpers.ts:18-20 | Inserting into a sorted sequence adds exactly the new record to the multiset, and the result is still sorted. |
| Helpers.InsertarDeClave | src/utils/helpers.ts:18-20 | Insertion puts the record ahead of the records with its key and leaves every other key's records as they were. |
| Helpers.OrdenarPor | src/utils/helpers.ts:18-20 | The sort returns a permutation of its input, ordered by the key. |
| Helpers.OrdenarPorEstable | src/utils/helpers.ts:18-20 | The sort is stable: for every key, the records with that key keep their input order. |
| Helpers.OrdenarManuscritosPorSiglo | src/utils/helpers.ts:15-21 | `ordenarManuscritosPorSiglo` returns a permutation of the records, in non-decreasing century rank. |
| Helpers.OrdenarEstable | src/utils/helpers.ts:18-20 | Records of equal century rank keep their relative order, as `Array.prototype.sort` guarantees. |
| Helpers.OrdenEstableUnico | src/utils/helpers.ts:18-20 | Two sorted sequences that agree key by key on their records in order are equal. So a stable sort has exactly one possible result. |
| Helpers.OrdenarOrdenado | src/utils/helpers.ts:18-20 | Sorting an already sorted sequence returns it unchanged. |
| Helpers.Sanear | src/utils/helpers.ts:24 | `title.replace(/\s+/g, "_")` leaves no whitespace and never lengthens the title. |
| Helpers.SanearSinEspacios | src/utils/helpers.ts:24 | A title without whitespace is unchanged. |
| Helpers.SanearIdempotente | src/utils/helpers.ts:24 | Sanitising twice is the same as sanitising once. |
| Helpers.SanearRacha | src/utils/helpers.ts:24 | A whitespace run alone becomes one underscore. |
| Helpers.SanearConcatena | src/utils/helpers.ts:24 | Sanitising distributes over any split that does not fall inside a whitespace run. |
| Helpers.SanearConRacha | src/utils/helpers.ts:24 | A maximal whitespace run between two other parts becomes exactly one underscore. |
| Helpers.MismaRachaMismoNombre | src/utils/helpers.ts:23-25 | Titles that differ only in the length of one whitespace run map to the same PDF name. |
| Helpers.NombrePdf | src/utils/helpers.ts:23-25 | The file name has no whitespace, ends in ".pdf", and before that is the sanitised title. |
| Listing.PrimeraPos | src/scripts/manuscritos.ts:55-59 | The first position of a title: it holds the title and no earlier position does. |
| Listing.UltimaPos | src/scripts/manuscritos.ts:55-59 | The last position of a title: it holds the title and no later position does. |
| Listing.TitulosEnOrden | src/scripts/manuscritos.ts:55-59 | The `Map`'s keys: non-empty titles, each exactly once. A title is a key iff it is non-empty and on some card. |
| Listing.TitulosEnOrdenDePrimeraAparicion | src/scripts/manuscritos.ts:55-59 | The keys are in order of first appearance: a `Map` keeps insertion order when a key is set again. |
| Listing.Unicos | src/scripts/manuscritos.ts:55-59 | One record per key. |
| Listing.UnicosTitulos | src/scripts/manuscritos.ts:55-59 | The deduplicated list drops the cards with an empty title and holds every other title exactly once. |
| Listing.UnicosUltimoYPrimero | src/scripts/manuscritos.ts:55-59 | Each kept record is the last card with its title (later `set` calls overwrite), placed where the title first appeared. |
| Listing.Deduplicar | src/scripts/manuscritos.ts:55-59 | The `forEach` over the cards with a key list and a value map computes exactly `Unicos`. |
| Listing.TodoDigitos | src/scripts/manuscritos.ts:285 | `/^\d+$/`: a non-empty text of decimal digits only. |
| Listing.ValorDecimal | src/scripts/manuscritos.ts:286 | `Number` of a digit string; a numeral without a leading zero is positive. `ValorDeDigitos` shows it inverts `Digitos`. |
| Listing.Digitos | src/scripts/manuscritos.ts:285 | A page number's numeral consists of decimal digits only. |
| Listing.ValorDeDigitos | src/scripts/manuscritos.ts:286 | `Number` of a page number's numeral gives the number back. |
| Listing.ObtenerPaginas | src/scripts/manuscritos.ts:281-288 | There are at most as many pages as node texts. |
| Listing.PaginaDe | src/scripts/manuscritos.ts:284-286 | Each node text yields at most one page. |
| Listing.ObtenerPaginasConcatena | src/scripts/manuscritos.ts:282-287 | The pages of a document are the pages of its parts, in document order, with duplicates kept. |
| Listing.PaginaDeBoton | src/scripts/manuscritos.ts:284-286 | A node whose text is the numeral of n, padded with whitespace, yields page n. |
| Listing.PaginaDeUnTexto | src/scripts/manuscritos.ts:284-286 | A padded numeral yields its page. A text that is not all digits after trimming yields none. |
| Patterns.Mayuscula | src/scripts/pdfUtils.ts:11 | The case folding of the `i` flag on ASCII letters and ñ; other characters are left alone. |
| Patterns.EnClase | src/scripts/pdfUtils.ts:11 | `[A-Z0-9\-]` and `[A-Z0-9]` under the `i` flag: letters of either case, digits, and `-` for the access code only. |
| Patterns.Coincide | src/scripts/pdfUtils.ts:11 | The pattern matches at a position: the keyword in any letter case, then whitespace, then at least one class character. |
| Patterns.FinEspacios | src/scripts/pdfUtils.ts:11 | `\s*` consumes the whole whitespace run and stops at a non-space or at the end. |
| Patterns.FinClase | src/scripts/pdfUtils.ts:11 | A greedy `[C]+` consumes the longest run of class characters. |
| Patterns.Captura | src/scripts/pdfUtils.ts:11-12 | The captured group is non-empty and made of class characters only. |
| Patterns.PrimeraCoincidencia | src/scripts/pdfUtils.ts:11 | The leftmost match: it matches, and no earlier position does. |
| Patterns.Buscar | src/scripts/pdfUtils.ts:11-12 | No result iff the pattern matches nowhere. A result is a non-empty run of class characters. |
| Patterns.BuscarEsLaPrimera | src/scripts/pdfUtils.ts:11-12 | The returned group is the one captured by the leftmost match. |
| Patterns.BuscarAlInicio | src/scripts/pdfUtils.ts:11 | The keyword (in any letter case), whitespace, then a run of class characters ended by a non-class character: the match captures exactly that run. |
| Patterns.CodigoDeAcceso | src/scripts/pdfUtils.ts:11-12 | A code found in a PDF's text is non-empty. |
| Patterns.AccesoSinDistinguirCaso | src/scripts/pdfUtils.ts:11 | Under the `i` flag, "ACCESO:" matches and lower-case letters stay in the captured code. |
| Patterns.ContrasenaEn | src/scripts/manuscritos.ts:154-155 | A password found on the clipboard is non-empty. |
| Patterns.ContrasenaHastaGuion | src/scripts/manuscritos.ts:154 | `-` is not a password character: it ends the capture. |
| PdfUtils.TrasSubproceso | src/scripts/pdfUtils.ts:56 | The Ghostscript run changes only the temporary path: it holds a file exactly when the subprocess left one, of the size it left, and every other path is as before. |
| PdfUtils.TrasDescarga | src/scripts/pdfUtils.ts:18-33 | An existing file is left alone and nothing throws. Otherwise the call throws exactly when the download fails, and a download that succeeds leaves a file at the path. No other path changes. |
| PdfUtils.DescargaIdempotente | src/scripts/pdfUtils.ts:23 | After a download that did not throw, a second download of the same path changes nothing. |
| PdfUtils.TrasReparacion | src/scripts/pdfUtils.ts:54-66 | Resolves true iff the subprocess succeeded and left a temporary file larger than 1000 bytes. The temporary file never remains. On true it replaces the PDF; on false the PDF is as before. No other path changes. |
| PdfUtils.ExtraerCodigoPDF | src/scripts/pdfUtils.ts:6-16 | Throws iff the file is missing, because `readFileSync` is outside the `try`. A found code is the regex match on the parsed text. A parse failure resolves to no code. When the file exists and the text parses, the result is the regex match on that text. |
| PdfUtils.LecturaTrasDescarga | src/scripts/pdfUtils.ts:7 | After a download that did not throw and any repair, reading the PDF does not throw. |
| PdfUtils.Archivos.DescargarPDF | src/scripts/pdfUtils.ts:18-33 | The method's new directory and exception are exactly those of `TrasDescarga`. |
| PdfUtils.Archivos.RepararYReemplazarPDF | src/scripts/pdfUtils.ts:54-66 | The method's new directory and result are exactly those of `TrasReparacion`. |
| PdfUtils.Archivos.ExtraerCodigo | src/scripts/pdfUtils.ts:6-16 | The method returns `ExtraerCodigoPDF` of the current directory. |
| ApiUtils.ObtenerCodigo | src/scripts/apiUtils.ts:39-41 | No targets give the empty code. |
| ApiUtils.ObtenerCodigoConcatena | src/scripts/apiUtils.ts:40 | The code for two target lists in a row is the concatenation of their codes. |
| ApiUtils.ObtenerCodigoLargo | src/scripts/apiUtils.ts:40 | The code is as long as the selected entries together. |
| ApiUtils.ObtenerCodigoPosicional | src/scripts/apiUtils.ts:40 | Entry `vault[targets[k]]` sits between the codes of the targets before and after position k. |
| ApiUtils.IndiceAusente | src/scripts/apiUtils.ts:40 | A target outside the vault contributes nothing. |
| ApiUtils.EjemploCad | src/scripts/apiUtils.ts:39-41 | Vault A,B,C,D with targets 2,0,3 gives "CAD". |
| ApiUtils.CodigoDe | src/scripts/apiUtils.ts:72 | A missing challenge or missing `targets` throws. Empty targets give "". With both fields present, the code is `obtenerCodigo` of them. Non-empty targets without a vault throw. |
| ApiUtils.ConstruirUrl | src/scripts/apiUtils.ts:60-63 | The URL starts with the endpoint and is strictly longer. |
| ApiUtils.Parametros | src/scripts/apiUtils.ts:61-63 | The appended text starts with `bookTitle=`, ends with the encoded code, and adds 22 characters to the two encoded values. |
| ApiUtils.CamposDeParametros | src/scripts/apiUtils.ts:61-63 | With `&` and `#` encoded, the appended parameters are exactly the fields `bookTitle=…` and `unlockCode=…`. |
| ApiUtils.Consulta | src/scripts/apiUtils.ts:60-63 | The query component of a URL, in the sense of section 3.4 of RFC 3986, contains no `#`. |
| ApiUtils.ConsultaDeUrl | src/scripts/apiUtils.ts:60-63 | For an endpoint without a `#` fragment, and with `&` and `#` encoded in both values: the separator is `&` iff the endpoint has a `?`, and the request URL's query consists of the endpoint's own query fields, if any, followed by `bookTitle` and `unlockCode`. |
| ApiUtils.ResolucionDesafio | src/scripts/apiUtils.ts:43-90 | No "Copiar" button or an empty clipboard give `undefined`. Status 400 gives the previous code. A 2xx answer gives the assembled code. A code is returned only after a 400 or a 2xx. |
| ApiUtils.ResolverDesafioApi | src/scripts/apiUtils.ts:43-90 | The procedure, with its throws and two `catch` blocks, returns exactly `ResolucionDesafio`. |
| Unlock.Ruta | src/scripts/manuscritos.ts:184-187 | The PDF path of a title has no whitespace and ends in ".pdf". |
| Unlock.TemporalNoEsRuta | src/scripts/pdfUtils.ts:55 | The temporary path `pdfPath + ".tmp"` of one title is never the PDF path of any title, so the repair never overwrites another manuscript. |
| Unlock.Truthy | src/scripts/manuscritos.ts:212 | JavaScript truthiness of `codigoActual`: null, undefined and "" are false. |
| Unlock.Despachar | src/scripts/manuscritos.ts:201-241 | Each record takes the first applicable branch. Each branch is characterised by an iff. Without a truthy code, neither the unlock branch nor the challenge branch runs. |
| Unlock.DescargaYCodigo | src/scripts/manuscritos.ts:73-84 | Throws iff the PDF is absent and its download fails, leaving the files unchanged. Otherwise the PDF is on disk, no temporary copy remains, no other file changes, and the code is the regex match on its text. |
| Unlock.ProcesarModal | src/scripts/manuscritos.ts:124-168 | Completes iff the challenge resolves, the modal waits complete, and any password download succeeds. Without a password match it returns the resolved code and downloads nothing. With one, it returns the whole clipboard text, the PDF is on disk and no temporary copy remains. A completed call changes no file but that PDF and its temporary copy. |
| Unlock.Paso | src/scripts/manuscritos.ts:200-254 | A visit marks the title as processed and sets progress only for a title not processed before. The fallback and skip branches keep the code. The download branches give the extracted code; the challenge branch gives `ProcesarModal`'s result. Branches 1-3 complete exactly when their waits, unlock and download or challenge complete, and then set progress; otherwise the call aborts with the files as they were. A visit changes no file but the title's PDF and its temporary copy. |
| Unlock.DeTramo | src/scripts/manuscritos.ts:203-210 | A branch that completed replaces the code and sets progress. One that threw ends the call with the files as they are. |
| Unlock.Respaldar | src/scripts/manuscritos.ts:240-254 | The fallback marks the title in every case and keeps the code. It sets progress iff the wait and the download completed, and then the PDF is on disk with no temporary copy left. Otherwise the files are unchanged. No file but the title's PDF and its temporary copy ever changes. |
| Unlock.Barrido | src/scripts/manuscritos.ts:195-255 | A turn that completes adds exactly the pending titles to the processed set. Progress implies a new title was processed. |
| Unlock.SinArchivo | src/scripts/manuscritos.ts:183-189 | The filter keeps exactly the records whose PDF is not on disk. |
| Unlock.Pendientes | src/scripts/manuscritos.ts:179-190 | The pending list is sorted by century rank and holds only records whose PDF is not on disk. |
| Unlock.Pasada | src/scripts/manuscritos.ts:178-261 | The `while (true)` loop: a completed call never removes titles from the processed set. The loop terminates because each turn with progress adds a title from a finite universe. |
| Unlock.PendientesEnUniverso | src/scripts/manuscritos.ts:179-190 | Every pending title is one the site can list. |
| Unlock.PendienteDeLista | src/scripts/manuscritos.ts:179-190 | Every pending record is a listed card with a title and no PDF on disk. |
| Unlock.ListaPendiente | src/scripts/manuscritos.ts:179-190 | Every listed card with a title and no PDF on disk has its title pending. |
| Unlock.SinArchivoOrdenado | src/scripts/manuscritos.ts:183-189 | Filtering keeps a sorted sequence sorted. |
| Unlock.SegundoOrdenSinEfecto | src/scripts/manuscritos.ts:190 | The second sort changes nothing: the pending list is the filtered sorted listing, already in rank order. |
| Unlock.TodoEnDisco | src/scripts/manuscritos.ts:192 | When every listed title has its PDF on disk, the call returns at once with code, set and files unchanged. |
| Unlock.BarridoConservaCodigo | src/scripts/manuscritos.ts:195-255 | A turn in which none of the code-setting branches can run keeps the code. |
| Unlock.CodigoSinCambios | src/scripts/manuscritos.ts:176-260 | Without direct downloads, and with a falsy code or no unlockable cards, the call returns the code it was given. |
| Unlock.BarridoFallido | src/scripts/manuscritos.ts:240-254 | When every fallback wait fails, a turn marks all pending titles and makes no progress. |
| Unlock.UnaSolaVuelta | src/scripts/manuscritos.ts:241-258 | With a falsy code, no direct downloads and failing fallbacks, the call ends after one turn. It marks every pending title and leaves code and files unchanged. |
| UnlockProcedure.ProcesarDescargaYCodigo | src/scripts/manuscritos.ts:73-84 | The procedure returns `DescargaYCodigo` and leaves the directory as it says. |
| UnlockProcedure.ProcesarModalYDesbloquear | src/scripts/manuscritos.ts:124-168 | The procedure returns `ProcesarModal` and leaves the directory as it says. |
| UnlockProcedure.IntentarRespaldo | src/scripts/manuscritos.ts:241-254 | The `try`/`catch` fallback computes `Respaldar`. |
| UnlockProcedure.Visitar | src/scripts/manuscritos.ts:196-254 | One iteration of the inner loop computes `Paso`. |
| UnlockProcedure.VisitarConDescarga | src/scripts/manuscritos.ts:201-223 | The two download branches compute `Paso`. |
| UnlockProcedure.VisitarDesafio | src/scripts/manuscritos.ts:224-238 | The challenge branch computes `Paso`. |
| UnlockProcedure.VisitarRespaldo | src/scripts/manuscritos.ts:241-254 | The fallback branch computes `Paso`. |
| UnlockProcedure.RecorrerPendientes | src/scripts/manuscritos.ts:195-255 | The `for` loop over the pending records computes `Barrido`. |
| UnlockProcedure.DesbloquearTodos | src/scripts/manuscritos.ts:170-261 | `desbloquearTodos` computes `Pasada` from turn 0, both its result and the files left on disk. |
| Pages.MayoresQueUno | src/scripts/manuscritos.ts:270-271 | The pages above 1 are exactly the listed ones above 1. |
| Pages.NavegaSoloMayores | src/scripts/manuscritos.ts:270-271 | Every page navigated to is a listed page above 1, whether or not the driver threw. |
| Pages.NavegaMayoresQueUno | src/scripts/manuscritos.ts:270-271 | Without an exception, the driver navigates to exactly the listed pages above 1, in order. |
| Pages.RecorrerConcatena | src/scripts/manuscritos.ts:269-278 | Two runs of pages in a row: the second run starts from the code and files the first left, unless the first threw. The last code is threaded from page to page. |
| Pages.EnPagina | src/scripts/manuscritos.ts:271-277 | A failed navigation to a page above 1 throws with the files unchanged. Otherwise the page runs `desbloquearTodos` from its first turn, with a fresh empty processed set and the code carried over from the previous page. |
| Pages.Recorrer | src/scripts/manuscritos.ts:269-278 | The driver navigates at most once per listed page; no pages means no navigation, code and files unchanged. |
| Pages.RecorrerPaso | src/scripts/manuscritos.ts:270-278 | One page of the loop: navigation above page 1, then a pass with a fresh set and the previous code. |
| Pages.VisitarPagina | src/scripts/manuscritos.ts:271-277 | One page's navigation and pass, with its new directory. |
| Pages.PasoPagina | src/scripts/manuscritos.ts:270-278 | One iteration of the `for` loop keeps what remains to be done. |
| Pages.RecorrerPaginas | src/scripts/manuscritos.ts:268-278 | The `for` loop over the page numbers computes `Recorrer`. |
| Pages.DesbloquearTodasLasPaginas | src/scripts/manuscritos.ts:264-279 | `desbloquearTodasLasPaginas` computes `Recorrer` over `obtenerPaginas`' numbers, starting from no code. |

## Left out

- The DOM queries, Playwright waits and timeouts, `console` output, and `page.waitForTimeout` are not modelled. A wait is a boolean oracle answer: it completes or it throws.
- `irAPagina` is a boolean answer per page, `Pages.Pagina.navegacion`. A missing page button is a completed no-op.
- `clickearBotonVerDocumentacion` and `cerrarModal` are not modelled, since their outcomes do not change what the model tracks. This assumes they do not throw.
- `desbloquearSiguienteManuscrito` is a boolean answer per title, `Unlock.Sitio.desbloqueo`. Its `fill` and submit are not modelled separately.
- The clipboard, `axios.get`, `encodeURIComponent`, the `gswin64c` subprocess and `pdf-parse` are oracle parameters.
  - `encodeURIComponent` is an arbitrary function. `ApiUtils.ConsultaDeUrl` assumes only that it escapes `&` and `#`.
- ApiUtils.CodigoDe: the challenge answer is typed, with `vault` a list of strings and `targets` a list of integers. Other JSON shapes the source would accept at `src/scripts/apiUtils.ts:72` are not modelled: a `null` entry joins as "", a string vault is indexed by character, a fractional index gives "", and a non-array `targets` throws, which makes the call resolve to `undefined`.
- PdfUtils.TrasReparacion: `fs.renameSync` and `fs.unlinkSync` (`src/scripts/pdfUtils.ts:58`, `:62`) are taken never to throw. A throw there would end the call in branches 1-3 and be caught in the fallback branch.
- ApiUtils.ConsultaDeUrl: stated only for an endpoint without a `#`. With a fragment in the endpoint, the appended parameters land in the fragment, not the query; the model says nothing about that case.
- `path.join(downloadsDir, name)` is not modelled. The downloads directory is keyed by the file name alone, `Helpers.NombrePdf`, since every path in one run shares the same directory. The file system is taken to be case-sensitive and to treat a name as one component. Titles that differ only in letter case, or that contain `/`, `\` or `..`, could collide on a real disk; the model keeps them apart.
- `input.fill(password)` with an undefined password is taken to throw, which is how Playwright's `fill` treats a non-string value. `Unlock.ProcesarModal` therefore ends the call when the challenge resolves to `undefined`.
- Asynchrony is modelled as sequential execution, which is how the `await`s run. `Promise.all` in `descargarPDF` is one atomic download step.
- `Unlock.Pasada`: the listing is read on turn n of the loop from an oracle, `tarjetas(n)`. The other oracles answer per title, which loses no generality within one call, because a call visits each title at most once. Across pages, each page brings its own `Sitio`.
- `Helpers.SigloARoman`: lookups of object-prototype keys (such as `"constructor"`) in the `romanos` literal are not modelled. Such a key is taken to rank 0 like any other missing key.
- `Listing.ValorDecimal`: `Number` of a digit string is modelled exactly. Loss of precision above 2^53 is not modelled.
- Strings are sequences of Unicode scalar values (Dafny's `char`); JavaScript strings are UTF-16 code units. The two agree on every string of characters from the Basic Multilingual Plane. A character outside it is one `char` here and two code units in the source, which changes no modelled result: the whitespace set, the regular-expression classes and `/^\d+$/` hold no surrogates, and no modelled result depends on a string's length. Lone surrogates cannot be represented. The `i` flag's case folding is modelled for ASCII letters and ñ only.
- The default argument `descargados = descargadosGlobal` of `desbloquearTodos` is not modelled as shared state. Its only caller passes a fresh set.
- `obtenerManuscritos`' card reading (title and century texts, and the three flags) is not modelled. The cards are its input; only the deduplication is modelled.
