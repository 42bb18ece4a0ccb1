# UniStock admin console — a Dafny model of its client-side rules

UniStock is a Next.js console for lending sports equipment (*implementos*)
at a university. Loan state, availability and lateness are decided by a
remote REST API. What the console decides for itself is modelled here:

- Role normalisation and the authorisation predicates of `lib/auth.ts`.
- The role-gated navigation menu.
- The client side of the API (`lib/api.ts`):
  - the headers `fetchWithAuth` sends and the session clear on a 401;
  - the login and registration answers and their error messages;
  - the endpoints;
  - the user search.
- How the login page settles on the user record it stores.
- The aggregates of the reports page:
  - the state counts;
  - the category histogram;
  - the five most-lent items;
  - the last six months of loans;
  - the rounded percentages.
- The filters, searches, days-remaining indicator and form handling of the
  loans, inventory and dashboard pages.

Modules, one per source file plus shared helpers:

| file | module | models |
|---|---|---|
| `wrappers.dfy` | `Wrappers` | `Option`, `Result` |
| `text.dfy` | `Text` | JavaScript string operations, ASCII only: case mapping, `includes`, `trim`, `split`/`join`, `parseInt`/`toString` in base 10, `padStart(2, '0')`, and the default `sort` order |
| `seqs.dfy` | `Seqs` | `filter`, `filter(...).length`, `Math.max(..., 1)` |
| `js.dfy` | `Js` | JSON-like values, truthiness, the or-operator on values, property access, `String(v)`, `Object.entries` |
| `domain.dfy` | `Domain` | the records of `lib/config.ts` and the state names |
| `storage.dfy` | `Storage` | `localStorage` as a class over `map<string, string>`, and logout |
| `auth.dfy` | `Auth` | `lib/auth.ts` |
| `sidebar.dfy` | `Sidebar` | `app/components/Sidebar.tsx` |
| `api.dfy` | `Api` | `lib/api.ts` |
| `login.dfy` | `LoginPage` | `app/login/page.tsx` |
| `tally.dfy` | `Tally` | the `reduce` into a counting object, as an insertion-ordered list of `(key, count)` |
| `ranking.dfy` | `Ranking` | the stable descending sort by count |
| `report_stats.dfy`, `top_items.dfy`, `monthly_loans.dfy` | `ReportStats`, `TopItems`, `MonthlyLoans` | `app/reportes/page.tsx` |
| `loans.dfy` | `LoansPage` | `app/prestamos/page.tsx` |
| `inventory.dfy` | `InventoryPage` | `app/inventario/page.tsx` |
| `dashboard.dfy` | `DashboardPage` | `app/dashboard/page.tsx` |

Modelling choices:

- Outside inputs are parameters:
  - the answers of the server;
  - `JSON.parse` (a partial function);
  - `JSON.stringify` of the user;
  - the token-payload decoder (`atob`, `decodeURIComponent`, `JSON.parse`);
  - the clock and the parsed dates, as millisecond integers and as a `(year, month)` pair or an invalid date;
  - the answer to `confirm`.
- Numbers are unbounded integers and ids are naturals.
- The reports page accumulates into plain objects. These become lists with:
  - insertion order for string keys;
  - ascending order for integer keys (the item ids), which is how JavaScript enumerates them.
- Where the type declarations and the code differ, the code is followed. The loan request type in `lib/config.ts` has three fields, but the page also sends `fechaPrestamo`, and so does `LoansPage.RegistroPrestamo`.
- The engine's own error texts (a `SyntaxError` from `response.json()`, a `TypeError` from reading a property of `null`) are stand-in constants `Api.SYNTAX_ERROR` and `Api.TYPE_ERROR`.

## Model

| member | source | states |
|---|---|---|
| Auth.NormalizeRole | lib/auth.ts:36-42 | the result is always `Admin` or `Estudiante`, and the empty role gives `Estudiante` |
| Auth.CapitalizeIsAdmin | lib/auth.ts:38-41 | first-letter-upper, rest-lower gives `Admin` exactly for the spellings of `admin` in any case |
| Auth.NormalizeRoleAdminIff | lib/auth.ts:36-42 | a role normalises to `Admin` iff its lower case is `admin`, and to `Estudiante` otherwise, so unknown roles are coerced |
| Auth.NormalizeRoleCaseInsensitive | lib/auth.ts:36-42 | two roles equal up to case normalise alike |
| Auth.NormalizeRoleIdempotent | lib/auth.ts:36-42 | normalising twice is normalising once |
| Auth.RolesExhaustive | lib/auth.ts:47-69 | no user has no role; a user is exactly one of administrator and student; `isAdmin` is `hasRole(·, Admin)` |
| Auth.IsAdminIff | lib/auth.ts:56-60 | a user is an administrator iff the stored role is `admin` in any case |
| Auth.CanAccessRouteIff | lib/auth.ts:74-89 | access holds iff there is a user and the route is one of the three public ones, whatever the role |
| Auth.IsAuthenticatedIff | lib/auth.ts:20-104 | authenticated iff a token entry exists and a non-empty user entry parses |
| Auth.ClearedSessionIsAnonymous | lib/auth.ts:102-104 | after a logout or a 401 clear, nobody is authenticated and there is no current user |
| Storage.LocalStorage.SetItem | app/login/page.tsx:159-163 | the store gains or overwrites exactly that key |
| Storage.LocalStorage.RemoveItem | lib/api.ts:35-36 | the store loses exactly that key |
| Storage.Logout | app/prestamos/page.tsx:84-89 | the store afterwards is the old one without `user`, `token` and `rememberMe`, and the page goes to `/login` |
| Storage.LoggedOutKeeps | app/inventario/page.tsx:54-59 | logout removes only the three session keys and keeps every other entry's value |
| Storage.SessionClearedKeeps | lib/api.ts:33-40 | the 401 clear removes only `token` and `user`, and keeps `rememberMe` and every other entry |
| Sidebar.GetMenuItems | app/components/Sidebar.tsx:87-99 | the pushing loop yields the common items followed by the administration items the raw role admits |
| Sidebar.MenuStartsWithCommon | app/components/Sidebar.tsx:22-88 | the menu has 3 to 5 items, starts with the three common items in declared order, and the rest are administration items |
| Sidebar.MenuWithoutUser | app/components/Sidebar.tsx:87-99 | with no user the menu is exactly the common items |
| Sidebar.AdminItemShownIff | app/components/Sidebar.tsx:92-94 | an administration item is shown iff it has no role list or its list contains the role exactly as stored |
| Sidebar.MenuForAdmin | app/components/Sidebar.tsx:54-95 | for the stored role `Admin` the menu is the common items then Reportes and Configuración, 5 items |
| Sidebar.MenuForOtherRoles | app/components/Sidebar.tsx:92-94 | any other stored role gets only the common items, even `admin`, whom `isAdmin` accepts |
| Api.HeadersSpec | lib/api.ts:14-25 | `Authorization` is `Bearer <token>` iff a non-empty token is stored; `Content-Type` is JSON iff the body is not a form; every other caller header is kept |
| Api.BuildHeaders | lib/api.ts:14-25 | the assignments build exactly the header map described above |
| Api.FetchWithAuth | lib/api.ts:13-43 | the request goes to the base URL plus the path with those headers; a 401 clears token and user, redirects and fails with the session-expired message; any other answer is returned unchanged with the store untouched |
| Api.LoginSucceedsIff | lib/api.ts:57-100 | login succeeds iff the answer is ok and its body parses to a value with a truthy `token`, and then yields that value; otherwise no-token or invalid-response errors |
| Api.LoginErrorPrecedence | lib/api.ts:57-73 | a failed JSON answer reports `message`, else `title`, else the default; a failed text answer reports its text or the default |
| Api.RegistroBodyFields | lib/api.ts:104-116 | the password travels as `PasswordHash` and never as `password`; the role defaults to `Estudiante` |
| Api.Registro | lib/api.ts:119-159 | registration succeeds iff the answer is ok and (for JSON) parses; a text answer yields its text or the success default as `message` |
| Api.ErrorDetailsLines | lib/api.ts:126-133 | validation errors come out as one line per field, in order, each `field: m1, m2` |
| Api.SingleMessage | lib/api.ts:129-130 | a message that is not an array is shown as a single message |
| Api.CallOutcomeSpec | lib/api.ts:163-342 | an authenticated call succeeds iff the fetch went through with an ok answer whose body, for the seven calls that return `response.json()`, parses; it then yields the parsed body, or the body text for the writes that return `response.text()`; an ok answer that does not parse rejects with a syntax error; every failure carries a non-empty message |
| Api.EndpointIdRoundTrip | lib/api.ts:206-216 | the id in an item path splits back out of the path and parses back to the same id |
| Api.ItemPathsDistinct | lib/api.ts:206-216 | two ids get the same item path only when they are the same id |
| Api.BuscarSpec | lib/api.ts:273-286 | the search returns exactly the users whose id text contains the term or whose lower-cased name or email contains the lower-cased term, never more than listed; a failure gives `[]` |
| Api.BuscarEmptyTerm | lib/api.ts:273-281 | the empty term returns every user, in order |
| Api.BuscarCaseInsensitive | lib/api.ts:276-280 | terms equal up to the case of letters return the same users in the same order |
| Api.CoincideCaseInsensitive | lib/api.ts:276-280 | terms equal up to case match the same user: names and emails are compared lower-cased, and a term found in the id text is all digits, so it is the only term with its lower-case form |
| Api.BuscarConcat | lib/api.ts:273-286 | searching a concatenated listing is searching each part and concatenating, so results keep the listing's order and multiplicity |
| Api.BuscarSingle | lib/api.ts:277-281 | a single user is returned exactly when it matches |
| LoginPage.RoleFrom | app/login/page.tsx:72-75 | a string role is re-cased (first letter upper, the rest lower) and keeps its length; a non-string role becomes `Estudiante` |
| LoginPage.RoleDefaults | app/login/page.tsx:72-96 | a falsy role becomes `Estudiante`; a non-empty role is first-letter-upper, rest-lower |
| LoginPage.UnknownRoleKept | app/login/page.tsx:119-123 | unknown roles are kept, not coerced: `profesor` is saved as `Profesor` |
| LoginPage.RoleFromNormalizes | app/login/page.tsx:72-75 | the re-cased role means the same to `normalizeRole` as the raw one |
| LoginPage.Base64UrlToBase64At | app/login/page.tsx:44 | the two global replacements map `-` to `+` and `_` to `/` position by position and keep every other character |
| LoginPage.Base64UrlToBase64Clean | app/login/page.tsx:43-44 | the converted payload has no `-` or `_`, and converting again changes nothing |
| LoginPage.TokenWithoutDot | app/login/page.tsx:41-55 | a token without a dot never reaches the decoder and decodes to nothing |
| LoginPage.UsuarioTakesPrecedence | app/login/page.tsx:68-88 | a present `usuario` alone decides the record; the token decoder is irrelevant |
| LoginPage.UserObjectUsedSecond | app/login/page.tsx:89-108 | without `usuario`, a present `user` decides the record with the same mapping |
| LoginPage.ClaimsPrecedence | app/login/page.tsx:125-130 | claim aliases are tried in order skipping falsy values: id is `id`, `sub`, `userId`, `nameid`, else 0; email is `email`, `unique_name`, `upn`, else the form email |
| LoginPage.FallbackWhenUndecodable | app/login/page.tsx:138-147 | an undecodable token gives id 0, the local part of the email, the form email and `Estudiante` |
| LoginPage.EmailPatchIsNoOp | app/login/page.tsx:84-88 | the after-the-fact email check can never change the record |
| LoginPage.EmailAlwaysTruthy | app/login/page.tsx:80-154 | a non-empty form email always gives a record with a truthy email |
| LoginPage.SavedSessionSpec | app/login/page.tsx:158-164 | a successful login sets exactly `token` and `user`, sets `rememberMe` only when ticked, and keeps every other entry |
| LoginPage.HandleSubmit | app/login/page.tsx:27-171 | a failed call shows its error, a missing token shows the invalid-response error, a record without email shows the no-information error, all with the store untouched; otherwise the session is saved and the page goes to the dashboard |
| Tally.TallyOfSpec | app/reportes/page.tsx:70-103 | a counting object has distinct keys, exactly the keys seen, each counted as often as it occurs (at least once), and the counts sum to the input length |
| Tally.BumpCount | app/reportes/page.tsx:71 | incrementing a key's count (missing counts as 0) adds one to that key's count and leaves every other count |
| Tally.CountOfEntry | app/reportes/page.tsx:350-352 | each entry of `Object.entries` carries its key's count |
| Tally.TallyEntryBound | app/reportes/page.tsx:353 | no category count exceeds the total |
| ReportStats.StatsImplementosPartition | app/reportes/page.tsx:62-67 | each item count is at most the total, and the three add up to the total when every state is one of the three declared in `lib/config.ts` |
| ReportStats.StatsPrestamosPartition | app/reportes/page.tsx:76-81 | the same for the loan states |
| ReportStats.Percent | app/reportes/page.tsx:224 | the guarded `Math.round(c/t*100)`: 0 for a zero total, otherwise the nearest integer to 100c/t, halves rounded up |
| ReportStats.PercentBounds | app/reportes/page.tsx:224-301 | a count within its total gives at most 100, the whole gives 100, nothing gives 0 |
| ReportStats.StatsPorCategoria | app/reportes/page.tsx:70-73 | the reduce loop produces the category counting object of the items, in first-seen order |
| ReportStats.CategoryHistogramSpec | app/reportes/page.tsx:70-73 | category keys are distinct and exactly the categories present; each count is at least 1 and is its multiplicity; counts sum to the number of items |
| ReportStats.CategoryPercentDefined | app/reportes/page.tsx:349-353 | the unguarded category percentage divides only when some category exists, so the total is positive |
| ReportStats.FilasCategoriaSpec | app/reportes/page.tsx:349-353 | the category rows are a permutation of the histogram, in non-increasing count, each percentage at most 100 |
| Ranking.InsertDescSpec | app/reportes/page.tsx:94 | inserting into a descending list keeps it descending and adds exactly that element |
| Ranking.SortDescSpec | app/reportes/page.tsx:94 | sorting by `b.cantidad - a.cantidad` gives a permutation in non-increasing count |
| Ranking.SortDescStable | app/reportes/page.tsx:93-94 | the sort is stable: input in ascending key order comes out ranked by count, ties in ascending key |
| TopItems.ImplementosMasPrestados | app/reportes/page.tsx:84-91 | the reduce loop produces the per-item counting object |
| TopItems.PerItemSpec | app/reportes/page.tsx:84-91 | per-item entries are in ascending id order; an id has an entry iff it was lent, counting its loans and named after its last loan; counts sum to the number of loans |
| TopItems.PerItemEntries | app/reportes/page.tsx:86-89 | every entry counts at least one loan of its item and carries the last loan's name |
| TopItems.RecordFind | app/reportes/page.tsx:86-89 | one step of the reduce bumps that id's count, renames it after the new loan, and leaves every other id alone |
| TopItems.TopImplementosSpec | app/reportes/page.tsx:93-95 | the top list has min(5, items) entries, ranked by count with ties by ascending id; every excluded item ranks after every shown one; entries keep their counts and names |
| TopItems.MaxCantidadOfRanking | app/reportes/page.tsx:389 | the bar scale of the top list is its first entry's count |
| MonthlyLoans.PrestamosPorMes | app/reportes/page.tsx:98-103 | the reduce loop produces the counting object over `YYYY-MM` keys |
| MonthlyLoans.SortLexSpec | app/reportes/page.tsx:105-106 | the default sort gives a permutation, strictly ascending when keys are distinct |
| MonthlyLoans.MesesSpec | app/reportes/page.tsx:105-112 | at most 6 months shown, ascending; they are loan months; every omitted month sorts before every shown one; each count is its multiplicity, at least 1, and at most the bar scale |
| MonthlyLoans.MesKeyChronological | app/reportes/page.tsx:100 | for 4-digit years, key order is chronological order and equal keys mean equal months |
| MonthlyLoans.LatestMonthsShown | app/reportes/page.tsx:105-107 | a loan month left out is earlier than every shown one |
| MonthlyLoans.MesLabelOfKey | app/reportes/page.tsx:109-111 | a valid date's key labels back to its month's name, so the label index is in 0..11 |
| MonthlyLoans.InvalidDateLabel | app/reportes/page.tsx:99-111 | an invalid date is keyed `NaN-NaN` and gets no label |
| Seqs.MaxOr1 | app/reportes/page.tsx:114 | `Math.max(...counts, 1)` is at least 1, at least every count, and is 1 or one of the counts |
| LoansPage.FilteredPrestamosSpec | app/prestamos/page.tsx:114-116 | `Todos` shows every loan; any other filter shows exactly the loans in that state, in order |
| LoansPage.EstadoColorSpec | app/prestamos/page.tsx:91-102 | green iff active, red iff late, gray for returned and any unknown state |
| LoansPage.LoanSourceSpec | app/prestamos/page.tsx:50-56 | the loans come from `getTodos` iff the stored role is `admin` in any case, else from `getMisPrestamos` |
| LoansPage.DiasRestantes | app/prestamos/page.tsx:296 | the ceiling of the time left in days: `(r-1)·day < due-now <= r·day` |
| LoansPage.PlazoSpec | app/prestamos/page.tsx:296-313 | late iff at least a whole day past due, by the whole days passed; due soon iff less than a day past or at most three days ahead; otherwise on time |
| LoansPage.IndicadorSpec | app/prestamos/page.tsx:293-297 | the indicator appears exactly for `Activo` and `Retrasado` loans, classifies the due date against now, and is late exactly when a whole day has passed |
| LoansPage.PlazoTextoSpec | app/prestamos/page.tsx:308-312 | late loans show `Math.abs` of the day count, loans due within three days get the warning sign, others the tick, an unparseable date shows `NaN`; the warning sign appears iff the due time is at most three days ahead |
| LoansPage.Disponibles | app/prestamos/page.tsx:400-404 | the dialog offers only available items |
| LoansPage.UserSearchSpec | app/prestamos/page.tsx:383-430 | the user results open iff the term has two non-blank characters and someone matches; they are exactly the matching users; a failed listing closes them |
| LoansPage.ImplementoSearchOpenIff | app/prestamos/page.tsx:392-456 | the item list opens iff `getImplementosFiltrados` has something to show |
| LoansPage.ImplementosFiltradosSpec | app/prestamos/page.tsx:446-456 | a blank term offers nothing; otherwise exactly the available items whose lower-cased name, code or category contains the lower-cased term |
| LoansPage.CreatePrestamoForm.SeleccionarUsuario | app/prestamos/page.tsx:458-466 | selecting a user sets its id text and record, fills the box and closes the list; the item selection and date are unchanged |
| LoansPage.CreatePrestamoForm.SeleccionarImplemento | app/prestamos/page.tsx:468-476 | the same for the item; the user selection is unchanged |
| LoansPage.CreatePrestamoForm.CambiarBusquedaUsuario | app/prestamos/page.tsx:550-555 | the user box takes the typed text; emptying it drops the selected user, other typing keeps it; every other field of the form is unchanged |
| LoansPage.CreatePrestamoForm.CambiarBusquedaImplemento | app/prestamos/page.tsx:622-627 | the item box takes the typed text; emptying it drops the selected item, other typing keeps it; every other field of the form is unchanged |
| LoansPage.CreatePrestamoForm.HandleSubmit | app/prestamos/page.tsx:478-516 | without a user, the user error and no request; else without an item, the item error and no request; else the error is cleared and the request carries both selected ids, read back from their text; the selections, the date and the search boxes and flags are unchanged |
| InventoryPage.FilteredImplementosSpec | app/inventario/page.tsx:93-95 | `Todos` shows every item; any other filter shows exactly the items in that state, in order |
| InventoryPage.EstadoColorSpec | app/inventario/page.tsx:80-91 | available, lent and in-maintenance get three different classes; anything else gets gray |
| InventoryPage.ControlesSpec | app/inventario/page.tsx:105-274 | the new, edit and delete buttons and both dialogs appear only for an administrator, who gets them as requested |
| InventoryPage.CreateFormData | app/inventario/page.tsx:309-315 | the create form sends name, category and description in order, then the image only when chosen, and never a state |
| InventoryPage.EditFormInit | app/inventario/page.tsx:425-431 | the edit dialog starts with no image |
| InventoryPage.EditFormData | app/inventario/page.tsx:441-448 | the edit form sends name, category, description and state, then the image only when chosen |
| InventoryPage.EditUnchanged | app/inventario/page.tsx:425-448 | submitting the edit dialog untouched sends back exactly the item's current name, category, description and state |
| InventoryPage.FindById | app/inventario/page.tsx:63 | `find` returns a listed item with that id, and nothing exactly when no item has it |
| InventoryPage.FindByIdFirst | app/inventario/page.tsx:63 | the item `find` returns is the first one in list order with that id |
| InventoryPage.HandleDelete | app/inventario/page.tsx:62-68 | the question names the item (or `este implemento`); the delete call for that id is made iff the question is confirmed |
| InventoryPage.NombreParaConfirmarSpec | app/inventario/page.tsx:63-64 | the question names the first item with that id, or the stand-in when that item's name is empty |
| InventoryPage.NombreParaConfirmarMissing | app/inventario/page.tsx:63-64 | an id no listed item carries is asked about with the stand-in |
| DashboardPage.EntradaSpec | app/dashboard/page.tsx:29-39 | the page redirects to `/login` iff no non-empty user is stored; it loads the counters iff the stored text parses, even to `null`, showing what `getCurrentUser` reads; whenever `getCurrentUser` finds a user the counters are loaded |
| DashboardPage.LoggedOutRedirects | app/dashboard/page.tsx:29-75 | after logging out, the page always redirects to the login page |
| DashboardPage.StatsBounds | app/dashboard/page.tsx:49-51 | lent plus available items never exceed the items listed, and active loans never exceed the loans listed |
| DashboardPage.ActivosCount | app/dashboard/page.tsx:55 | the active-loans counter is the number of times `Activo` occurs among the loan states |
| DashboardPage.Dashboard.LoadStats | app/dashboard/page.tsx:41-68 | on success the counters are those of the fetched lists; on failure they are kept; loading ends either way |
| DashboardPage.RoleTestsDisagree | app/dashboard/page.tsx:102-214 | whoever gets the administration quick actions gets the administration title, but a role stored as `admin` gets the title without the actions |
| Text.IntToStringRoundTrip | app/prestamos/page.tsx:461-512 | `parseInt(id.toString())` gives back the id |
| Text.SplitJoin | lib/api.ts:132 | splitting a join on a separator none of the parts contains gives back the parts |
| Text.LexLessTotal | app/reportes/page.tsx:106 | the default sort order is total on distinct strings |
| Js.FirstTruthyPicksEarliest | app/login/page.tsx:126-128 | a chain of JavaScript or-operators yields its earliest truthy alternative |

## Left out

- HTTP itself is left out. The server's answer is an input; the `content-type` header is reduced to "is JSON".
- React rendering and markup are left out, except the few colour classes and texts modelled above. So are toasts, images and links.
- The 30-second polling, the blur delays and `Promise.all` are left out. These are timing and concurrency.
- Date parsing, time zones and locale formatting are left out. The loan month is given as a year and month (or an invalid date), and the timestamps as integers. The date texts of the loan request are inputs.
- `atob`, `decodeURIComponent` and `JSON.parse` inside the token decoder are one opaque partial function. `JSON.parse` of stored and received text is a parameter too, and so is `JSON.stringify`.
- LoansPage.UserSearchSpec: `trim().length` is counted in characters, not UTF-16 code units (app/prestamos/page.tsx:384). A character outside the Basic Multilingual Plane counts 2 in JavaScript, so a single such character already opens the user search there.
- Upper and lower case are mapped for ASCII only. `parseInt` reads decimal digits only, without the `0x` prefix. `String.prototype` methods on token payloads that are not objects are not modelled.
- Numbers are unbounded integers, not IEEE doubles. Ids are naturals.
- ReportStats.Percent: computed with exact rational rounding. The double-precision `Math.round(c / t * 100)` can land on the other side of a half near .5.
- The bar widths and heights in percent, which are not rounded, are left out, as are the colours of the category bars.
- TopItems.TopImplementosSpec: ties are ordered by ascending id. That is JavaScript's enumeration order for array-index keys, that is for ids below 2^32 − 1. Larger ids are enumerated after them in insertion order; that case is not modelled.
- ReportStats.CategoryHistogramSpec: keys are in first-seen order. A category name that is an integer literal would be enumerated first by JavaScript; that case is not modelled.
- ReportStats.CategoryHistogramSpec: a category named like an inherited property of `Object.prototype` is not modelled (app/reportes/page.tsx:70). For `toString` the lookup finds a function, so the count becomes a string. `__proto__` never becomes a key.
- MonthlyLoans.MesLabelOfKey: the label round trip is proved for years from 0 on. A negative year puts an extra `-` in the key, and its label is not modelled.
- MonthlyLoans.MesKeyChronological: stated for four-digit years only. Other years do not sort chronologically under the default string order.
- The server-rendering guard `typeof window === 'undefined'` is left out; the model always runs in the browser.
- The `err instanceof Error` fallback messages are left out. Every thrown value in the model is an error with a message.
- The loans page's return flow (`handleDevolucion` with its confirmation) is left out. Only its endpoint, `Api.Call.Devolucion`, is modelled.
- The `loading` flags of the dialogs are left out. The dashboard's flag is modelled.
