# EstagioPro — a verified model of its decision logic

EstagioPro is the internship-control system of UFVJM. Advisors sign in and then browse
paginated lists of students, companies, advisors, mandatory and non-mandatory internships and
alerts. A dashboard counts internships by status. Most of the application is markup and thin
calls to a hosted database. This project models the small decision procedures around those calls
and proves what they promise:

- **List queries** (`ListQuery`, `src/services/api.ts`). Each list operation builds a query as a
  chain of clauses: select, conditional filters, ordering, and an inclusive row range. The result
  is wrapped in a `{data, total, page, limit, totalPages}` envelope. The dashboard tallies
  internships by status.
- **Dashboard statistics route** (`StatsEndpoint`, `src/pages/api/dashboard/stats.ts`). The route
  checks the method and a Bearer token (section 2.1 of RFC 6750). It then folds
  `GROUP BY status` rows into four buckets.
- **Login route** (`LoginEndpoint`, `src/pages/api/auth/login.ts`). A chain of guard clauses
  leads to a digest comparison. On success the route signs a token and sends back the advisor
  row without its password column.
- **Authentication service** (`AuthService`, `src/services/auth.ts`). It signs in through the
  hosted identity service and falls back to a legacy digest column. It also reads the current
  profile and answers the administrator test.
- **Password digest text** (`Hex`). This is the lowercase base16 encoding of section 8 of
  RFC 4648, proved to round-trip.
- **Browser session** (`AuthContext.AuthProvider`, `src/contexts/AuthContext.tsx`). A class
  holds the signed-in user, the loading flag and the two cookies `auth-token` and `user-data`.
- **Data table** (`DataTable`, `src/components/ui/Table.tsx`). It covers the sort toggle, the
  sort icon and the choice between spinner, empty message and rows.
- **Navigation**:
  - `Menu`: the role filter shared by both sidebars.
  - `Initials`: the avatar initials shared by three components.
  - `Sidebar` (`src/components/layout/Sidebar.tsx`): prefix-based highlighting of the active
    entry.
  - `AppLayout` (`src/components/Layout.tsx`): the redirect guard, exact-match highlighting and
    the mobile sidebar state.
  - `Header` (`src/components/layout/Header.tsx`): the alert badge.
- **Login page** (`LoginPage`, `src/pages/login.tsx`). It covers the e-mail pattern, the
  password minimum length and the form's `loading` flag.

Some values come from code outside this model. Each becomes a parameter:

- **Database**: rows, counts and errors are inputs. A `None` stands for an error or an
  exception.
- **Identity service**: the signed-in user's id, or `None` when sign-in failed.
- **SHA-256**: a function `string -> seq<byte>`.
- **Token signing and verification**: functions.
- **`JSON.parse` and `JSON.stringify`**: functions.
- **`Math.random()`**: its sampled value is an input.
- **`process.env.JWT_SECRET`**: an optional string.

Where the code works by changing state, the model does too:

- `AuthProvider`, `LayoutState` and `LoginForm` are classes whose methods update fields.
- The stats route's `forEach` fold is a loop proved against `BucketsOf`.
- The list query is built by reassigning a clause list.

## Model

| member | source | states |
|---|---|---|
| Types.Secret | src/pages/api/dashboard/stats.ts:5 | the signing key is the environment's value when it is a non-empty string and the built-in default otherwise; it is never empty |
| Hex.ToBase16 | src/services/auth.ts:220 | `toString(16)` of a byte has one or two digits |
| Hex.PadStart | src/services/auth.ts:220 | `padStart` keeps the text as its suffix, fills the front with the fill character and reaches the requested width |
| Hex.ByteToHex | src/services/auth.ts:220 | every byte becomes exactly two lowercase digits, high nibble first, zero-padded |
| Hex.Encode | src/services/auth.ts:219-221 | the hex text is twice as long as the digest and holds only lowercase hex digits |
| Hex.DecodeEncode | src/services/auth.ts:219-221 | decoding the hex text of any byte string gives back those bytes |
| Hex.EncodeDecode | src/services/auth.ts:219-221 | any text that decodes is exactly the encoding of what it decodes to |
| Hex.EncodeInjective | src/services/auth.ts:219-221 | different digests never have the same hex text |
| Hex.HashPassword | src/services/auth.ts:215-222 | the stored form of a password is 64 lowercase hex digits for a 32-byte SHA-256 digest, and it decodes back to the digest |
| Hex.SameHashSameDigest | src/pages/api/auth/login.ts:60-65 | comparing stored texts is the same as comparing digests, in both directions |
| ListQuery.ProjectionOf | src/services/api.ts:283-288 | no listing can return the advisors' `senha` column, either directly or through the advisor embedded in an internship |
| ListQuery.OrderFor | src/services/api.ts:40-44 | alerts are always ordered by `created_at` descending; otherwise the caller's field is used, ascending iff `asc`; without a spec, `nome` ascending for students, companies and advisors and `data_inicio` descending for internships |
| ListQuery.ChainIf | src/services/api.ts:32-37 | one `if (…) query = query.…` step appends the clause exactly when its condition holds |
| ListQuery.ChainFilters | src/services/api.ts:290-301 | the six conditional steps append exactly the listing's filter clauses, in order |
| ListQuery.BuildQuery | src/services/api.ts:26-49 | the chain is select, the filter clauses, the ordering, then the range `[(page-1)*limit, from+limit-1]` |
| ListQuery.FilterClauseMembership | src/services/api.ts:32-37 | a filter clause is present iff its value is truthy and the listing applies it: search only for students, companies and advisors; advisor only for internships; dates only for mandatory internships; type only for alerts |
| ListQuery.QueryShape | src/services/api.ts:27-49 | exactly one select comes first, the single ordering is second to last and the range is last |
| ListQuery.InternshipsIgnoreSearch | src/services/api.ts:372-377 | internship listings never add a free-text search, whatever the filters say |
| ListQuery.OnlyMandatoryInternshipsBoundDates | src/services/api.ts:290-301 | only the mandatory-internship listing adds the date bounds |
| ListQuery.RangeWidth | src/services/api.ts:47-48 | the range is inclusive and exactly `limit` rows wide; page 1 starts at row 0 |
| ListQuery.PagesTile | src/services/api.ts:175-176 | consecutive pages tile the rows: one page's last row is followed directly by the next page's first |
| ListQuery.RowOnExactlyOnePage | src/services/api.ts:47-48 | for a positive page size, every row index lies on exactly one page, page `row / limit + 1` |
| ListQuery.CeilDiv | src/services/api.ts:64 | `Math.ceil(total / limit)` for a positive page size covers the count, with no spare page |
| ListQuery.TotalPagesIsLeast | src/services/api.ts:64 | `totalPages` is the least number of pages that holds every row |
| ListQuery.TotalPages | src/services/api.ts:64 | the page count is the ceiling for a positive page size; for size 0 it is NaN when there are no rows and Infinity otherwise; for a negative size it is the non-positive ceiling |
| ListQuery.Envelope | src/services/api.ts:53-70 | a query error gives its own message and an exception gives the internal-error message; on success `data` is the rows or `[]`, `total` is the count or 0, `page` and `limit` are echoed and `totalPages` is `Math.ceil(total / limit)` as `TotalPages` gives it: for a positive page size the least covering page count (0 exactly when there are no rows) |
| ListQuery.DefaultPageIsFirstTen | src/services/api.ts:21-22 | a listing called without page arguments (page 1, size 10) asks for rows 0 to 9 and counts pages of ten |
| ListQuery.CountStatus | src/services/api.ts:441 | the number of rows with a status is 0 exactly when no row has it, and never more than the rows |
| ListQuery.ApiTallyOf | src/services/api.ts:440-449 | `total` is the number of rows, and the in-progress and completed counts never exceed it |
| ListQuery.CountsOfTwoLabels | src/services/api.ts:441-442 | two different labels never count the same row |
| ListQuery.ApiTallyDropsCancelled | src/services/api.ts:440-449 | as written, a cancelled internship is in `total` and in no bucket |
| ListQuery.TallyOf | src/services/api.ts:440-449 | the tally with a cancelled bucket agrees with the service's numbers, and its buckets plus the other statuses add up to `total` |
| ListQuery.PartitionByStatus | src/services/api.ts:440-449 | the three labels and the remaining statuses partition the rows |
| ListQuery.GetDashboardStats | src/services/api.ts:413-459 | a failed fan-out gives the internal-error message; otherwise each of the five counts is the query's count, or 0 when it is null; each kind's in-progress and completed buckets are the number of its rows with that status, with missing rows read as none; each kind's total is its number of rows, and its two buckets stay within it |
| StatsEndpoint.BearerToken | src/pages/api/dashboard/stats.ts:27-35 | a token exists iff the header is present and starts with `Bearer `, and the header is then exactly `Bearer ` followed by the token |
| StatsEndpoint.BearerRoundTrip | src/pages/api/dashboard/stats.ts:28-35 | a header built from any token yields that token back |
| StatsEndpoint.FoldStatusRows | src/pages/api/dashboard/stats.ts:90-99 | the `forEach` fold from the zeroed record adds every count to `total` and leaves each known bucket holding the count of the last row with its label |
| StatsEndpoint.Handle | src/pages/api/dashboard/stats.ts:18-138 | non-GET gives 405; a missing or non-Bearer header gives 401 with the missing-token message; a rejected token gives 401 with the invalid-token message; a database failure after a verified token gives 500 with the internal-error message; otherwise 200 with the counts (missing read as 0), the folded buckets and a pending-alert sample below 5 |
| StatsEndpoint.AbsentStatusIsZero | src/pages/api/dashboard/stats.ts:50-68 | a status carried by no row keeps its initial 0 |
| StatsEndpoint.BucketIsThatRowsCount | src/pages/api/dashboard/stats.ts:92-98 | with distinct statuses, a bucket is exactly the count of the row with that label |
| StatsEndpoint.TotalSplits | src/pages/api/dashboard/stats.ts:90-91 | with distinct statuses, `total` is the three buckets plus the counts of all other labels, which touch only `total` |
| StatsEndpoint.BucketsWithinTotal | src/pages/api/dashboard/stats.ts:90-99 | with distinct statuses and non-negative counts, the three buckets together never exceed `total` |
| StatsEndpoint.RepeatedStatusKeepsLastCount | src/pages/api/dashboard/stats.ts:92-97 | a repeated label adds to `total` twice but its bucket keeps only the last count |
| StatsEndpoint.GroupedTotal | src/pages/api/dashboard/stats.ts:83-91 | for the rows of a real `GROUP BY status`, `total` is the number of internships |
| StatsEndpoint.GroupedBucket | src/pages/api/dashboard/stats.ts:83-98 | for a real grouping, each bucket is the number of internships with that status |
| StatsEndpoint.FoldAgreesWithTally | src/pages/api/dashboard/stats.ts:90-99 | the route's four buckets equal the corrected service tally, and agree with the service's own total, in-progress and completed numbers |
| LoginEndpoint.WithoutPassword | src/pages/api/auth/login.ts:84 | the reply keeps every selected column except `senha`, unchanged |
| LoginEndpoint.StripRoundTrip | src/pages/api/auth/login.ts:84 | only `senha` is dropped: the public row plus the password is the original row |
| LoginEndpoint.StripKeepsOtherColumns | src/pages/api/auth/login.ts:84 | rows that differ in any column but the password are sent back differently |
| LoginEndpoint.FindActive | src/pages/api/auth/login.ts:46-50 | the lookup finds nothing iff no row has that email and status `Ativo`; a row found has both |
| LoginEndpoint.Handle | src/pages/api/auth/login.ts:25-99 | non-POST gives 405; a falsy email or password gives 400 before any lookup; a database failure gives 500; once both fields are present and the database answers, every reply that is not 200 is 401 with the invalid-credentials message, so an unknown, inactive or wrong-password user gets that one reply; 200 iff the active row's digest text equals the password's, and then the reply has that row without `senha` and a token signed over `{userId, email, tipo}` with a 7-day lifetime |
| LoginEndpoint.UnknownUserLooksLikeWrongPassword | src/pages/api/auth/login.ts:52-70 | an unknown email and a wrong password get the identical reply |
| LoginEndpoint.OnlyFirstActiveRowCounts | src/pages/api/auth/login.ts:46-70 | with several active rows for one email, only the first row's digest is checked; the schema's `UNIQUE` email (src/utils/database.ts:47) keeps such a table from arising in the application |
| AuthService.ToUser | src/services/auth.ts:33-41 | a `User` copies `id`, `email`, `nome`, `tipo`, `status` and both timestamps from the row |
| AuthService.ToUserIgnoresPassword | src/services/auth.ts:65-73 | nothing of the password column reaches a `User` |
| AuthService.Where | src/services/auth.ts:17-23 | a chain of `.eq` filters keeps exactly the matching rows, each as many times as the table holds it |
| AuthService.WhereOfUnique | src/services/auth.ts:17-23 | when exactly one position of the table matches, the filter keeps exactly that row |
| AuthService.WhereOfNone | src/services/auth.ts:17-23 | when no row matches, the filter keeps nothing |
| AuthService.WhereOfTwo | src/services/auth.ts:17-23 | two matching positions, even holding equal rows, leave at least two rows |
| AuthService.Single | src/services/auth.ts:17-23 | `.single()` yields a row iff the table answered and exactly one row matches, and then it is that row; no match, several matches or a failed query yield nothing |
| AuthService.SingleOfUnique | src/services/auth.ts:17-23 | a table with exactly one matching position makes `.single()` answer that row |
| AuthService.SingleRefusesTwo | src/services/auth.ts:17-23 | two matching positions make `.single()` answer an error |
| AuthService.Login | src/services/auth.ts:5-88 | when managed sign-in fails, the login succeeds with the user of the one active row with that email and digest exactly when there is one such row, and otherwise answers 'Credenciais inválidas ou usuário inativo'; when managed sign-in succeeds, it succeeds with the user of the one profile with that id exactly when there is one, and otherwise signs out and answers 'Perfil de usuário não encontrado'; every user returned is built from one row |
| AuthService.LegacyLoginSucceeds | src/services/auth.ts:13-30 | one active row with the email and the password's digest, and no other, logs that advisor in |
| AuthService.ManagedLoginSucceeds | src/services/auth.ts:50-73 | a signed-in id that exactly one profile carries logs that profile's user in, without signing out |
| AuthService.ManagedLoginIgnoresStatus | src/services/auth.ts:13-73 | the legacy path refuses an inactive advisor whom the managed path admits |
| AuthService.DuplicateLegacyRowsRefused | src/services/auth.ts:17-30 | two matching active legacy rows, equal or not, make `.single()` fail, so the login fails |
| AuthService.GetCurrentUser | src/services/auth.ts:114-160 | no session user gives 'Usuário não autenticado'; with a session, the answer is the user of the one profile with the session's id when exactly one exists, and 'Perfil de usuário não encontrado' otherwise |
| AuthService.CurrentUserOfUniqueProfile | src/services/auth.ts:124-140 | a session id that exactly one profile carries makes that profile the current user |
| AuthService.IsAdmin | src/services/auth.ts:225-228 | true iff the current user is found and its `tipo` is `administrador` |
| AuthContext.CookieValue | src/contexts/AuthContext.tsx:27-28 | `Cookies.get` gives a value iff the cookie is set, and then its value |
| AuthContext.AuthProvider.IsAuthenticated | src/contexts/AuthContext.tsx:97 | `isAuthenticated` is exactly `user != null`, and then both cookies are set |
| AuthContext.AuthProvider.constructor | src/contexts/AuthContext.tsx:20-21 | the provider starts with no user and loading |
| AuthContext.AuthProvider.CheckAuth | src/contexts/AuthContext.tsx:24-45 | the user is set from the stored profile only when both cookies are truthy; a parse failure removes both cookies; loading ends |
| AuthContext.AuthProvider.BeginLogin | src/contexts/AuthContext.tsx:49 | loading starts and nothing else changes |
| AuthContext.AuthProvider.FinishLogin | src/contexts/AuthContext.tsx:61-77 | both 7-day cookies and the user are set iff the reply has success, a user and a token; otherwise it answers false and changes neither; loading ends either way |
| AuthContext.AuthProvider.Logout | src/contexts/AuthContext.tsx:80-90 | both cookies are removed, the user is cleared and the browser is sent to `/login` |
| AuthContext.Visit | src/contexts/AuthContext.tsx:20-97 | across mount, check, login and logout, the user is signed in after login iff the login or the stored session succeeded, and after logout nobody is signed in and neither cookie remains |
| DataTable.HandleSort | src/components/ui/Table.tsx:34-40 | no event for a non-sortable column or without `onSort`; otherwise the column's key, descending iff it is the active column sorted ascending |
| DataTable.SortIconFor | src/components/ui/Table.tsx:42-55 | no icon iff the column is not sortable; a blank placeholder iff it is sortable and inactive; up iff active and ascending; down iff active and not ascending |
| DataTable.NewColumnStartsAscending | src/components/ui/Table.tsx:37-39 | a click on a sortable column other than the active one asks for ascending |
| DataTable.TwoClicksReturnToAscending | src/components/ui/Table.tsx:38 | two clicks from ascending, each fed back by the parent, return to ascending |
| DataTable.IconShowsLastSort | src/components/ui/Table.tsx:34-55 | once the parent feeds a sort event back, the clicked column shows a chevron, up iff ascending, and every other sortable column shows the placeholder |
| DataTable.BodyFor | src/components/ui/Table.tsx:83-97 | the spinner iff loading; the empty message (by default 'Nenhum dado encontrado') iff not loading and no rows; otherwise the rows |
| Menu.FilterMenu | src/components/layout/Sidebar.tsx:99-101 | an administrator sees the whole menu, and nobody sees more entries than it has |
| Menu.FilterMenuMembers | src/components/layout/Sidebar.tsx:99-101 | an entry is shown iff it is in the menu and is not administrator-only or the user is an administrator |
| Menu.FilterMenuKeepsOrder | src/components/layout/Sidebar.tsx:99-101 | the shown entries are a subsequence of the menu, in menu order |
| Menu.FilterMenuAppend | src/components/layout/Sidebar.tsx:99-101 | filtering a menu filters its parts one after the other |
| Initials.Split | src/components/layout/Sidebar.tsx:156 | `split(' ')` gives at least one piece, and no piece contains a space |
| Initials.JoinSplit | src/components/layout/Sidebar.tsx:156 | joining the pieces again gives the original name |
| Initials.Take | src/components/layout/Sidebar.tsx:156 | `slice(0, n)` is the prefix of length `n`, or the whole text when it is shorter |
| Initials.FirstCharsOfSplit | src/components/layout/Sidebar.tsx:156 | the first characters of the pieces are exactly the characters that start a word, in order |
| Initials.Initials | src/components/layout/Sidebar.tsx:156 | the initials are at most two characters, the first word starts of the name, and never a space; the header (src/components/layout/Header.tsx:76) and the layout's sidebars and header (src/components/Layout.tsx:161) run the same pipeline |
| Initials.WordStartPosition | src/components/layout/Sidebar.tsx:156 | every initial is a character of the name at the start of a word |
| Sidebar.SidebarMenu | src/components/layout/Sidebar.tsx:97-101 | an administrator sees all ten entries; anyone else sees exactly Dashboard, both internship lists, Certificados and Relatórios, so never Estudantes, Empresas, Orientadores, Central de Alertas or Configurações |
| Sidebar.NonAdministratorMenu | src/components/layout/Sidebar.tsx:33-89 | the filtered menu of a non-administrator is those five entries, in order |
| Sidebar.DashboardActiveOnlyThere | src/components/layout/Sidebar.tsx:170-171 | the dashboard entry is active only on `/dashboard` itself |
| Sidebar.ActiveBelowOwnRoute | src/components/layout/Sidebar.tsx:170-171 | any other entry is active on its route and on every route below it |
| Sidebar.ActiveMeansPrefix | src/components/layout/Sidebar.tsx:170-171 | an entry is only active on a route that starts with its `href` |
| Sidebar.AtMostOneActive | src/components/layout/Sidebar.tsx:169-171 | on any route, no two entries are active together |
| AppLayout.RenderFor | src/components/Layout.tsx:51-62 | without a user, every route but `/login` redirects to `/login`; `/login` is rendered bare; any other route is framed with the role-filtered menu and the user's initials |
| AppLayout.LayoutItemsWithoutAlerts | src/components/Layout.tsx:33-43 | the layout's entries are the sidebar's entries without Central de Alertas |
| AppLayout.NonAdministratorMenu | src/components/Layout.tsx:61-62 | a non-administrator sees the same five entries as in the sidebar component, never the four administrator entries |
| AppLayout.FramedMenu | src/components/Layout.tsx:61-62 | a framed page shows an administrator all nine entries and anyone a subsequence of the list in order |
| AppLayout.LayoutActiveIsSidebarActive | src/components/Layout.tsx:177 | an entry the layout highlights is also highlighted by the sidebar component |
| AppLayout.BelowRouteOnlySidebarActive | src/components/Layout.tsx:236 | on `/estudantes/novo` the sidebar component highlights Estudantes and the layout does not |
| AppLayout.AtMostOneLayoutActive | src/components/Layout.tsx:177 | entries with different routes are never highlighted together |
| AppLayout.LayoutState.constructor | src/components/Layout.tsx:48 | the mobile sidebar starts closed |
| AppLayout.LayoutState.OpenSidebar | src/components/Layout.tsx:115 | the menu button opens the mobile sidebar |
| AppLayout.LayoutState.CloseSidebar | src/components/Layout.tsx:79 | the backdrop, the close button and an entry click close it |
| AppLayout.LayoutState.MobileLogout | src/components/Layout.tsx:245-248 | the mobile logout ends the session (both cookies gone, no user, sent to `/login`) and closes the sidebar |
| AppLayout.LogoutThenRender | src/components/Layout.tsx:51-54 | after the mobile logout, rendering any route but `/login` redirects to `/login` |
| Header.Decimal | src/components/layout/Header.tsx:66 | a count is written as decimal digits with no leading zero, one digit exactly below 10 |
| Header.DecimalRoundTrip | src/components/layout/Header.tsx:66 | reading the digits back gives the count |
| Header.Badge | src/components/layout/Header.tsx:64-66 | with the count defaulting to 0, there is no badge iff the count is not positive, '99+' iff it exceeds 99, and the count's one or two digits from 1 to 99 |
| Header.NoCountNoBadge | src/components/layout/Header.tsx:14 | without an alert count the bell shows no badge |
| Header.BadgeTellsCountsApart | src/components/layout/Header.tsx:66 | two counts from 1 to 99 with the same badge are equal |
| LoginPage.IndexOf | src/pages/login.tsx:88 | the first position of a character, none iff it is absent |
| LoginPage.LastIndexOf | src/pages/login.tsx:88 | the last position of a character, none iff it is absent |
| LoginPage.MatchIsCanonical | src/pages/login.tsx:88 | in any match of the pattern, the `@` is the first one and the dot before the last part is the last one |
| LoginPage.EmailShapeIsPattern | src/pages/login.tsx:88 | the executable check accepts exactly the texts the pattern matches |
| LoginPage.EmailError | src/pages/login.tsx:85-92 | 'Email é obrigatório' iff the field is empty; 'Email inválido' iff it is non-empty and the pattern fails; no error iff the pattern matches |
| LoginPage.AcceptedEmailParts | src/pages/login.tsx:88 | an accepted e-mail is a non-empty local part over `[A-Za-z0-9._%+-]`, a single `@`, a non-empty domain over `[A-Za-z0-9.-]`, a dot, and at least two letters |
| LoginPage.PasswordError | src/pages/login.tsx:115-121 | 'Senha é obrigatória' iff empty; the minimum-length message iff one or two characters; no error from three on |
| LoginPage.LoginForm.constructor | src/pages/login.tsx:14 | the form starts not loading |
| LoginPage.LoginForm.BeginSubmit | src/pages/login.tsx:36 | loading starts while the submission is in flight |
| LoginPage.LoginForm.FinishSubmit | src/pages/login.tsx:38-52 | success toasts and goes to `/dashboard`; a failure toasts its own message or 'Erro ao fazer login'; a throw toasts the internal error; loading ends whatever the outcome |
| LoginPage.LoginForm.Submit | src/pages/login.tsx:35-53 | the login is sent iff the browser's `type="email"` check (src/pages/login.tsx:81) lets the submit through and both fields pass the form's rules; otherwise nothing changes, and loading is false when it returns |

## Left out

- The hosted database's query semantics are not modelled: `ilike`, ordering, the range and exact
  counts. Rows, counts and errors are inputs. The list query is the clause list the code builds.
- SHA-256, JWT signing and verification, `TextEncoder`, `JSON.parse` and `JSON.stringify` are
  foreign calls. They are uninterpreted function parameters. Only the hex text around the digest
  is modelled.
- `ListQuery.GetDashboardStats`: the `Promise.all` fan-out is one optional input. A rejection is
  `None`. Ordering and concurrency are not modelled.
- `StatsEndpoint.Handle`: `Math.random()` is not modelled. The sampled pending-alert number is an
  input below 5.
- `ListQuery.CountStatus`: counts are unbounded integers. JavaScript's double-precision numbers
  are not modelled, so neither are very large counts or counts that are not integers.
- `Header.Badge`: the count is an integer. A fractional `alertsCount` is not modelled.
- `LoginPage.PasswordError`: length is counted in characters. JavaScript counts UTF-16 code
  units, so a character outside the Basic Multilingual Plane counts once here and twice there.
- `Initials.Initials`: works on Unicode characters. JavaScript's `n[0]` and `slice(0, 2)` take
  UTF-16 code units, so for a word starting outside the Basic Multilingual Plane the source
  yields a lone surrogate where the model yields the whole character. The same holds for
  `Initials.Take` and for the header and layout, which run the same pipeline.
- `ListQuery.BuildQuery`, `ListQuery.Envelope`: `page` and `limit` are always given. A call that
  leaves them out is the call with `DefaultPage` (1) and `DefaultLimit` (10), and
  `ListQuery.DefaultPageIsFirstTen` states what that call asks for.
- `AuthService.Where`: the contract states which rows are kept and how often, but not their
  order. `.single()` depends only on how many rows match.
- `LoginPage.LoginForm.Submit`: `email` is the value after the browser's sanitisation, which
  strips surrounding whitespace. The browser's own `type="email"` check is an input, not a
  definition: it refuses, among others, a domain label that is empty or starts or ends with `-`,
  which the form's pattern accepts.
- `LoginEndpoint.Handle`: body fields are optional strings. Non-string JSON values are not
  modelled. Their truthiness and the `.update` call on them differ.
- `AuthService.Login`: the `catch` branches reached by exceptions are not modelled. The identity
  service and the table answer with values or errors.
- `AuthService`: `logout`, `updatePassword`, `resetPassword` and `isAuthenticated` are not
  modelled. Each forwards to the identity service and holds no decision of its own.
- `AuthContext.AuthProvider.CheckAuth` is only called with no user signed in. The code runs it
  once, on mount.
- `AuthContext.AuthProvider.FinishLogin`: the request to the login route is an input.
  `login`'s `isLoading` span is split into `BeginLogin` and `FinishLogin`.
- The login page's mount effect (`AuthService.isAuthenticated` then a redirect to the dashboard)
  is not modelled. It is one call into the identity service.
- Rendering is not modelled: markup, cell rendering, icons, animations and the date and time
  shown in the headers.
- `src/components/layout/Layout.tsx` is not part of this model. It is the asynchronous auth
  effect of a second layout.

## Findings

| source | as written | input that shows it | evidently intended | confidence | as-written member | corrected member |
|---|---|---|---|---|---|---|
| src/services/api.ts:440-449 | the service's per-kind tally has `em_andamento`, `concluidos` and `total` but no `cancelados`, so cancelled internships count only in `total`. The `DashboardStats` type (src/types/index.ts:170-186) has no `cancelados` either. The dashboard page displays `cancelados` (src/pages/dashboard.tsx:183) but reads the statistics route (src/pages/dashboard.tsx:65), which computes it, and no page calls the service. The gap is latent, between the service and its only would-be consumer | one mandatory internship with status `Cancelado`: `total` is 1 and every bucket is 0 | a `cancelados` bucket, as the statistics route computes it, so that the buckets and the other statuses add up to `total` | medium, not executed | ListQuery.ApiTallyDropsCancelled | ListQuery.TallyOf |
