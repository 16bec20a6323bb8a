# Clinic front desk: the page logic, modelled in Dafny

This project models the deterministic logic inside the clinic application's React pages. The pages cover reception, medication, the doctor's dashboard, the product catalogue, the financial report and the public queue panel. The logic covers:

- the report sums and groupings computed from `services` and `service_items` rows;
- the client and daily summaries;
- the queue panel's two queries and its ticket format;
- the product form with its submit and delete flows;
- the role guard, the route table and the root page's redirect;
- the fixed label, badge and colour tables.

Rows of the backing store are Dafny datatypes shaped after the generated table types. A query is a function of a table, or it takes the rows the store returned as a parameter. The store's "no data" answer is modelled as `None`.

Modules (three shared ones, then one per source file):

- `Rows`: the `services` and `queue` rows, the `app_role` enum, `x.total_amount || 0`, the generic filter, the sums shared by the summaries, and the `table[key] || fallback` lookup of the label tables.
- `Sorting`: a stable insertion sort by an integer key, and its `sort(...).slice(0, n)` / `ORDER BY ... LIMIT n` prefix.
- `NumberText`: `Number.prototype.toString` on integers and `padStart`.
- `Financeiro`: the financial report.
  - The report is built by loops over the services and their items (`FetchFinancialData`, `VisitItems`, `VisitItem`).
  - Each loop is proved against snoc-recursive folds (`TotalCost`, `TypeBuckets`, `ProductsSummary`).
  - JavaScript objects keep insertion order, so the groupings are a key list plus a map (`Dict`).
- `ClienteDetalhes`: the client's financial summary and the record-type labels.
- `DoutorNew`: the doctor's daily summary and the status and payment badges.
- `PainelPublico`: the public queue panel. It shows the current ticket and the next ten waiting tickets, each number padded to three digits.
- `Produtos`: the product page.
  - Its component state is the class `ProductPage`.
  - The handlers are methods of that class.
  - The store's answer to a write is a method parameter.
- `ProtectedRoute`, `IndexPage`, `AppRoutes`, `DashboardLayout`: role-based access, the route table, the landing page of each role and the role's display name.

Money and quantities are integers. Averages and the profit margin are `real`.

## Model

| member | source | states |
|---|---|---|
| Rows.RoleTextInjective | src/integrations/supabase/types.ts:590 | the three `app_role` texts are pairwise distinct |
| Rows.ParseRole | src/integrations/supabase/types.ts:590 | a text names a role exactly when it is that role's text; otherwise it names none |
| Rows.ParseRoleText | src/integrations/supabase/types.ts:590 | reading a role's text gives back that role |
| Rows.AmountOrZero | src/pages/ClienteDetalhes.tsx:92 | a null `total_amount` counts as 0; otherwise the amount counts as it is |
| Rows.TotalAmount | src/pages/ClienteDetalhes.tsx:92 | the sum starts from 0 for no rows, and a single row sums to its own amount, a null counting as 0; with `TotalAmountAppend` this fixes every sum |
| Rows.TotalAmountAppend | src/pages/ClienteDetalhes.tsx:92 | summing two runs of rows one after the other gives the sum of their two sums |
| Rows.Filter | src/pages/ClienteDetalhes.tsx:93-94 | a filter never yields more rows than it was given |
| Rows.FilterMembers | src/pages/ClienteDetalhes.tsx:93-94 | a row is kept exactly when it was in the input and passes the test |
| Rows.FilterSubMultiset | src/pages/PainelPublico.tsx:55-56 | a filter never repeats a row: each row occurs in the result at most as often as in the input |
| Rows.TotalAmountPartition | src/pages/ClienteDetalhes.tsx:92-95 | splitting the rows by a test and its negation splits the sum of amounts: nothing is lost or counted twice |
| Rows.TotalAmountNonNegative | src/pages/ClienteDetalhes.tsx:92 | with no negative amount, the sum is not negative |
| Rows.FilterNonNegative | src/pages/ClienteDetalhes.tsx:93-95 | a filter of rows without negative amounts has none either |
| Rows.AverageTicket | src/pages/ClienteDetalhes.tsx:100 | with rows, the average times the count gives back the total; with no rows it is 0 |
| Sorting.InsertByPermutes | src/pages/Financeiro.tsx:113-114 | inserting an element adds exactly that element to the multiset |
| Sorting.InsertBySorted | src/pages/Financeiro.tsx:113-114 | inserting into a sorted list keeps it sorted |
| Sorting.SortByPermutes | src/pages/Financeiro.tsx:113-114 | sorting is a permutation of its input |
| Sorting.SortBySorted | src/pages/Financeiro.tsx:113-114 | sorting yields a list in non-decreasing key order |
| Sorting.Lowest | src/pages/Financeiro.tsx:113-115 | the prefix holds `n` elements, or all of them when there are fewer |
| Sorting.LowestIsLowest | src/pages/PainelPublico.tsx:57-58 | the prefix is sorted and drawn from the input; every element left out has a key no smaller than every element kept |
| Sorting.LowestIsPrefix | src/pages/Financeiro.tsx:113-115 | the kept elements are in ascending key order and form a sub-multiset of the input |
| Sorting.LowestLeavesOutLarger | src/pages/Financeiro.tsx:113-115 | no element left out has a smaller key than an element kept |
| Sorting.LowestKeepsAll | src/pages/PainelPublico.tsx:58 | when the input has at most `n` elements, all of them are kept |
| NumberText.NatToString | src/pages/Produtos.tsx:79-82 | the decimal text of a natural number is all digits, has no leading zero unless it is "0", and is one character long exactly for 0..9 |
| NumberText.NatToStringRoundTrip | src/pages/Produtos.tsx:79-82 | reading the decimal text back gives the number |
| NumberText.IntToString | src/pages/Produtos.tsx:79-82 | a non-negative number is written as its decimal digits, a negative one as '-' followed by the digits of its magnitude; the text is never empty, starts with '-' exactly for a negative number, and is all digits exactly otherwise |
| NumberText.ParseDecimal | src/pages/Produtos.tsx:79-82 | the empty text and a lone '-' denote no number; a text without a sign denotes a non-negative number and one with a sign a non-positive number |
| NumberText.IntTextRoundTrip | src/pages/Produtos.tsx:79-82 | the decimal text of every integer, negative ones included, reads back as that integer |
| NumberText.PadStart | src/pages/PainelPublico.tsx:90 | the result has at least the target width, ends with the original text, and everything before it is filler |
| NumberText.LeadingZerosValue | src/pages/PainelPublico.tsx:119 | leading zeros do not change the value of a digit string |
| NumberText.StripRepeatedZeros | src/pages/PainelPublico.tsx:119 | removing the zero padding in front of a text that does not start with '0' gives that text back |
| Financeiro.TypeBucketsWellFormed | src/pages/Financeiro.tsx:89-95 | each type appears at most once among the bucket keys, and the key list and the map agree |
| Financeiro.TypeKey | src/pages/Financeiro.tsx:90 | the type key of an item is never empty |
| Financeiro.NameKey | src/pages/Financeiro.tsx:98 | the name key of an item is never empty |
| Financeiro.KeyFallbacks | src/pages/Financeiro.tsx:90-102 | the key is 'other' (or 'Desconhecido') exactly for a missing product, an empty type (or name), or a product whose own type (or name) is that text; otherwise the key is the product's own type (or name) |
| Financeiro.ItemCost | src/pages/Financeiro.tsx:86 | an item whose product has a cost costs that cost times its quantity; a missing product or a null cost costs nothing, nor does a quantity of 0; non-negative cost and quantity give a non-negative cost |
| Financeiro.TotalCost | src/pages/Financeiro.tsx:86-87 | the summed cost starts from 0 for no items, and a single item costs its own cost; `FoldsStep` gives each further step |
| Financeiro.TypeBuckets | src/pages/Financeiro.tsx:90-95 | every key listed in `servicesByType` has a bucket |
| Financeiro.ProductsSummary | src/pages/Financeiro.tsx:98-108 | `productsSummary` lists each name once, and every listed name has an entry |
| Financeiro.TopProducts | src/pages/Financeiro.tsx:113-115 | at most ten products, ten when there are that many, by non-increasing revenue; a sub-multiset of the summary, so no product is listed twice or invented; none left out earns more than one listed |
| Financeiro.TopProductsFacts | src/pages/Financeiro.tsx:113-115 | the sorted and sliced list is ordered by revenue, is a sub-multiset of the summary, and leaves out no product earning more than one it lists |
| Financeiro.FoldsStep | src/pages/Financeiro.tsx:85-108 | visiting one more item advances the cost, the type buckets and the product summary by one step each |
| Financeiro.VisitItem | src/pages/Financeiro.tsx:86-108 | the per-item callback adds the item's cost, then creates the bucket and the summary entry if missing and adds the item's quantity and subtotal to them |
| Financeiro.VisitItems | src/pages/Financeiro.tsx:84-110 | walking one service's items continues all three folds over the items visited so far |
| Financeiro.ServicesStep | src/pages/Financeiro.tsx:81-82 | one more service adds its amount, counting null as 0, to the revenue, and its items to the visited items |
| Financeiro.FetchFinancialData | src/pages/Financeiro.tsx:74-124 | with no data the report is unchanged; otherwise it holds the sum of all amounts, the total item cost, profit = revenue − cost, the service count, the type buckets of all items, and the top products of the summary |
| Financeiro.TypeBucketsKeys | src/pages/Financeiro.tsx:90-93 | a bucket exists exactly for each type key that some item has, with 'other' standing in for a missing type |
| Financeiro.TypeBucketsContent | src/pages/Financeiro.tsx:90-95 | each bucket holds the summed quantity and subtotal of exactly the items of its type |
| Financeiro.SumBucketsUpdate | src/pages/Financeiro.tsx:94-95 | replacing one bucket changes the sum of distinct buckets by exactly that bucket's change |
| Financeiro.AddToBucketSum | src/pages/Financeiro.tsx:91-95 | adding an item to the buckets adds its quantity and subtotal to their overall sum |
| Financeiro.BucketSumStep | src/pages/Financeiro.tsx:91-95 | visiting one more item adds exactly its quantity and subtotal to the sum over all buckets |
| Financeiro.BucketTotals | src/pages/Financeiro.tsx:89-95 | the bucket counts add up to the total quantity and the bucket revenues to the total subtotal |
| Financeiro.ProductsSummaryKeys | src/pages/Financeiro.tsx:98-106 | an entry exists exactly for each name that some item has, with 'Desconhecido' standing in for a missing product |
| Financeiro.ProductsSummaryContent | src/pages/Financeiro.tsx:98-108 | each entry carries its own name and the summed quantity and subtotal of exactly the items with that name |
| Financeiro.ProductsSummaryType | src/pages/Financeiro.tsx:99-106 | an entry's type is the type of the first item seen with that name |
| Financeiro.TypeLabel | src/pages/Financeiro.tsx:144-153 | a known type gets its label; any other type is shown as itself, and only the empty type shows empty |
| Financeiro.BucketLabelsNonEmpty | src/pages/Financeiro.tsx:211-214 | every bucket of the report is shown under a non-empty label |
| Financeiro.ProfitMargin | src/pages/Financeiro.tsx:155-157 | the margin is the text '0' exactly when revenue is not positive; otherwise it is the percentage with margin × revenue = profit × 100 |
| Financeiro.MarginBounds | src/pages/Financeiro.tsx:155-157 | with a positive revenue and a non-negative cost, the margin is at most 100%, and it is not negative when the cost does not exceed the revenue |
| ClienteDetalhes.Summarize | src/pages/ClienteDetalhes.tsx:91-103 | with no data the summary is kept; otherwise the service count is the row count, the total is the sum of all amounts, the pending amount the sum over the pending rows, total = pending + non-pending amounts, 0 ≤ pending ≤ total for non-negative amounts, and the average is total / count, or 0 |
| ClienteDetalhes.ClientServices | src/pages/ClienteDetalhes.tsx:86-89 | exactly the table's services of that client are returned |
| ClienteDetalhes.PendingAtMostTotal | src/pages/ClienteDetalhes.tsx:92-95 | with non-negative amounts, the pending sum lies between 0 and the total |
| ClienteDetalhes.PartialIsNotPending | src/pages/ClienteDetalhes.tsx:93-95 | in any list of services a 'partial' payment is not among the pending rows, and adding one leaves the pending rows and their sum unchanged |
| ClienteDetalhes.RecordTypeLabel | src/pages/ClienteDetalhes.tsx:152-161 | the five record types get their labels; any other type is shown as itself |
| DoutorNew.DailyQuery | src/pages/DoutorNew.tsx:59-63 | exactly the completed services of the selected date are returned |
| DoutorNew.ClientIds | src/pages/DoutorNew.tsx:66 | every row's client id is in the set |
| DoutorNew.ClientIdsBounds | src/pages/DoutorNew.tsx:66 | the set holds exactly the rows' client ids, has no more elements than there are rows, and is empty only when there are no rows |
| DoutorNew.Summarize | src/pages/DoutorNew.tsx:65-75 | with no data the summary is kept; otherwise: revenue = the sum of all amounts, non-negative for non-negative amounts; services = rows; clients = distinct client ids ≤ services, and 0 exactly when services is 0; average = revenue / services, or 0 |
| DoutorNew.GetStatusBadge | src/pages/DoutorNew.tsx:124-133 | known statuses get their badge; any other status shows its own text; the outline variant is used exactly for 'scheduled' and unknown statuses |
| DoutorNew.GetPaymentBadge | src/pages/DoutorNew.tsx:135-144 | known payment statuses get their badge; any other shows its own text with the muted class, which no known status uses |
| PainelPublico.CurrentEntry | src/pages/PainelPublico.tsx:43-50 | none exactly when no entry today is 'attending'; otherwise a today/attending entry of the table that comes first under `called_at` descending, with nulls first |
| PainelPublico.WaitingCandidates | src/pages/PainelPublico.tsx:52-56 | exactly today's 'waiting' entries of the table, none repeated more often than in the table |
| PainelPublico.WaitingEntries | src/pages/PainelPublico.tsx:52-58 | ten of today's 'waiting' entries, or all of them when there are fewer, by ascending number; a sub-multiset of those entries, so none is shown twice; none left out has a smaller number than one shown |
| PainelPublico.FetchQueue | src/pages/PainelPublico.tsx:40-62 | an answered query sets the current entry to the `current` query's entry and the list to the `waiting` query's entries, and one without data gives none or an empty list; the current entry is attending and so never among the waiting ones; at most ten are waiting |
| PainelPublico.Ticket | src/pages/PainelPublico.tsx:90 | the ticket is the decimal text left-padded with '0' to three characters, and a longer text is unchanged |
| PainelPublico.OneDigitTicket | src/pages/PainelPublico.tsx:90 | a number from 0 to 9 is shown as two zeros followed by its digit |
| PainelPublico.TwoDigitTicket | src/pages/PainelPublico.tsx:90 | a number from 10 to 99 is shown as one zero followed by its two digits |
| PainelPublico.TicketRoundTrip | src/pages/PainelPublico.tsx:90 | a non-negative number's ticket reads back as that number |
| PainelPublico.TicketStripsToDecimal | src/pages/PainelPublico.tsx:119 | dropping the zero padding of a positive number's ticket gives its decimal text |
| PainelPublico.TicketInjective | src/pages/PainelPublico.tsx:119 | different non-negative numbers get different tickets |
| PainelPublico.TicketExamples | src/pages/PainelPublico.tsx:90 | 7 → "007", 42 → "042", 1234 → "1234" |
| PainelPublico.NegativeTicket | src/pages/PainelPublico.tsx:90 | −5 → "0-5": the filler goes in front of the sign |
| Produtos.EditForm | src/pages/Produtos.tsx:73-85 | the form copies name, type and active flag; the description is empty exactly for a null or empty one; each of the four number texts reads back as the product's number, and the stock texts are all digits for non-negative stock |
| Produtos.ToProductData | src/pages/Produtos.tsx:93-102 | an empty description is stored as null and any other unchanged; the numbers are the parsed ones; the other fields come from the form |
| Produtos.EditSubmitRoundTrip | src/pages/Produtos.tsx:78-102 | opening a product and saving it untouched writes back its own row exactly when its description is not the empty text, which comes back as null |
| Produtos.StockTextRoundTrip | src/pages/Produtos.tsx:81-82 | the stock and alert texts of the edit form read back as the product's numbers |
| Produtos.WriteFor | src/pages/Produtos.tsx:104-119 | an update keyed by the edited product's id when editing, an insert otherwise, carrying the same data |
| Produtos.LowStock | src/pages/Produtos.tsx:238-243 | only medication and products warn, and they warn exactly when the stock is at or below the alert level |
| Produtos.NewProductDefaults | src/pages/Produtos.tsx:36-45 | saving the default form inserts an active procedure with no description, whose stock is 0 and alert 5 as read from the texts "0" and "5"; its empty price and cost texts denote no number |
| Produtos.LowStockAfterStockChange | src/pages/Produtos.tsx:238-243 | only medication and products ever warn; the warning shows exactly when stock ≤ alert, so selling keeps it and restocking past the alert clears it |
| Produtos.TypeLabel | src/pages/Produtos.tsx:171-179 | the four known types get their labels; any other type is shown as itself |
| Produtos.TypeColor | src/pages/Produtos.tsx:181-189 | the four known types get their colours; every other type, and only those, gets the muted colour |
| Produtos.OptionsMatchLabels | src/pages/Produtos.tsx:311-314 | each option of the type select is labelled on the card as in the select and has its own colour, and the labelled types are exactly the select's |
| Produtos.ProductPage.constructor | src/pages/Produtos.tsx:29-45 | the page starts with the default form, nothing edited, the dialogs closed, and no save under way |
| Produtos.ProductPage.ResetForm | src/pages/Produtos.tsx:59-71 | restores the default form and clears the edited product, leaving everything else |
| Produtos.ProductPage.OpenNew | src/pages/Produtos.tsx:199 | opens a fresh form for a new product |
| Produtos.ProductPage.HandleEdit | src/pages/Produtos.tsx:73-86 | marks the product as edited, fills the form from it and opens the dialog |
| Produtos.ProductPage.ChangeForm | src/pages/Produtos.tsx:294-388 | an input change replaces the form and nothing else |
| Produtos.ProductPage.OnOpenChange | src/pages/Produtos.tsx:279 | the dialog follows the requested state, and closing it resets the form |
| Produtos.ProductPage.Cancel | src/pages/Produtos.tsx:399 | closes the dialog and resets the form |
| Produtos.ProductPage.HandleSubmit | src/pages/Produtos.tsx:88-141 | sends the write built from the form: an update of the edited product or an insert. On success the form is closed and reset; on an error it stays as it was; either way the save ends |
| Produtos.ProductPage.RequestDelete | src/pages/Produtos.tsx:267 | asks for confirmation of that product's deletion, leaving the form alone |
| Produtos.ProductPage.DismissDelete | src/pages/Produtos.tsx:413 | clears the pending deletion |
| Produtos.ProductPage.HandleDelete | src/pages/Produtos.tsx:143-168 | with no pending id (null or empty) nothing happens; otherwise the delete of that id is sent and the pending id cleared, whatever the store answers |
| ProtectedRoute.Decide | src/components/auth/ProtectedRoute.tsx:13-32 | spinner exactly while loading; `/auth` exactly when nobody is signed in; `/` exactly when the role is null, empty or not allowed; the page exactly otherwise |
| ProtectedRoute.EmptyAllowsNobody | src/components/auth/ProtectedRoute.tsx:28 | a guard allowing no role never shows its page |
| ProtectedRoute.AllowedRolesMonotone | src/components/auth/ProtectedRoute.tsx:28 | allowing more roles never turns away a user who was admitted |
| ProtectedRoute.AllowedRolesAsSet | src/components/auth/ProtectedRoute.tsx:28 | only which roles are allowed matters, not their order or repetition |
| IndexPage.Landing | src/pages/Index.tsx:15-24 | recepcionista lands on `/recepcao`, medicacao on `/medicacao` and doutor on `/doutor`; no landing page is `/auth` or `/` |
| IndexPage.RedirectTarget | src/pages/Index.tsx:10-30 | no navigation while loading or for a null or empty role; `/auth` when signed out or for an unknown role; each known role goes to its landing page |
| IndexPage.LandingInjective | src/pages/Index.tsx:15-24 | the three roles land on three different pages |
| IndexPage.Render | src/pages/Index.tsx:32-48 | the loading screen exactly while loading, nothing after |
| AppRoutes.RoutesDisjoint | src/App.tsx:32-98 | no path matches two routes of the table |
| AppRoutes.ClientePrefixNotExact | src/App.tsx:67-74 | no fixed path of the table starts with `/cliente/` |
| AppRoutes.Matches | src/App.tsx:68 | a fixed path matches only itself; `/cliente/:id` matches only its prefix followed by a non-empty segment without '/' |
| AppRoutes.MatchesEverySegment | src/App.tsx:68 | every such segment after the prefix gives a matching path |
| AppRoutes.FirstMatch | src/App.tsx:31-100 | the index found is the first route matching the path, or none when no route matches |
| AppRoutes.Resolve | src/App.tsx:31-100 | a path that matches a route gets that route; any other path gets the unguarded `NotFound` page |
| AppRoutes.Visit | src/App.tsx:31-100 | an unguarded page is shown as is; a guarded page shows the guard's decision for its allowed roles |
| AppRoutes.UnguardedPages | src/App.tsx:32-34 | `/painel`, `/` and `/auth` show their page whatever the session |
| AppRoutes.DoctorOnlyPages | src/App.tsx:51-58 | a signed-in user reaches `/doutor` and `/financeiro` exactly when the role is 'doutor' |
| AppRoutes.SharedPages | src/App.tsx:67-74 | every role reaches `/cliente/<id>` and `/chat` |
| AppRoutes.DoctorAllowedEverywhere | src/App.tsx:35-98 | a signed-in doctor passes the guard of every path |
| AppRoutes.MedicacaoPages | src/App.tsx:35-98 | the medication role passes a guard only at the medication page, a client's page and the chat |
| AppRoutes.LandingAdmitsRole | src/App.tsx:35-58 | the root page sends each role to a page that exists and admits it |
| AppRoutes.UnknownPathNotFound | src/App.tsx:99 | a path matching no route shows `NotFound` with no guard |
| DashboardLayout.RoleName | src/components/layout/DashboardLayout.tsx:16-27 | the three roles get "Recepção", "Medicação" and "Médico"; a null or unknown role, and only those, gets "Usuário" |
| DashboardLayout.RoleNamesDistinct | src/components/layout/DashboardLayout.tsx:16-27 | different roles get different names, none of them the default |

## Left out

- Calls to the backing store, and the realtime queue channel (src/pages/PainelPublico.tsx:21-38), are left out. A query is a function of the table, or takes the store's answer as a parameter. `Produtos.ProductPage.HandleSubmit` takes whether the write failed. The toasts, which only carry messages, are not modelled.
- Some queries are modelled as functions of the table: the client's services (`ClienteDetalhes.ClientServices`), the doctor's daily services (`DoutorNew.DailyQuery`) and the panel's two queries. The date-range query of the financial report (src/pages/Financeiro.tsx:59-72) is left out: its rows, with their joined items and products, are a parameter. The client row, the procedure, medication and record lists of the client page are left out, and so are the today/recent lists of the doctor's dashboard.
- Dates and clocks are left out: `new Date()`, `toISOString`, the report periods (src/pages/Financeiro.tsx:34-53) and the panel's today (src/pages/PainelPublico.tsx:41). Today is a parameter.
- Floating point is left out. Money and quantities are integers; averages and margins are exact reals.
- Formatting is left out: `Intl.NumberFormat`, `toFixed`, `toLocaleDateString`.
- `toString` of numbers of 1e21 or more, which JavaScript writes in exponent form, is left out.
- `Produtos.ProductPage.HandleSubmit`: `parseFloat`/`parseInt` of the form texts are not modelled. The parsed numbers are a parameter, so NaN from an empty or malformed input is not captured.
- `Produtos.EditForm`: a product's numeric columns are nullable in the table type. The model follows the page's own interface, in which they are not null.
- The profit-margin text on the product card is left out (src/pages/Produtos.tsx:250). It relies on NaN, `|| 0` and Infinity when the cost is 0, which do not exist in integer arithmetic.
- The width of the revenue bar of each bucket is left out (src/pages/Financeiro.tsx:224). It is floating point and divides by zero when there is no revenue.
- The product list reload after a write and the list rendering are left out. So is the disabled state of the save button: concurrent submits are not modelled.
- `Financeiro.TypeBuckets`: keys that look like array indices, which JavaScript objects enumerate first, are not modelled. Neither are keys that collide with inherited `Object.prototype` members, such as `constructor`. Keys are kept in insertion order.
- `Financeiro.ProductsSummary`: the same two object caveats apply to product names. `Object.values` would list index-like names first, which changes the input order and so the tie order of the stable sort at src/pages/Financeiro.tsx:113. An inherited name such as `constructor` would be found already present.
- `Rows.LookupOr`: the `table[key] || fallback` lookups (`Financeiro.TypeLabel`, `ClienteDetalhes.RecordTypeLabel`, `Produtos.TypeLabel`, `Produtos.TypeColor`, `DoutorNew.GetStatusBadge`, `DoutorNew.GetPaymentBadge`) are modelled on maps holding only the listed keys. In JavaScript a key naming an inherited `Object.prototype` member, such as `constructor`, finds that member, which is truthy, and it is shown instead of the fallback.
- `PainelPublico.CurrentEntry` and `PainelPublico.WaitingEntries`: the order the store gives rows that tie on `called_at` or `queue_number` is unspecified. The model takes them in table order.
- `AppRoutes.Resolve`: react-router's case-insensitive matching and its acceptance of a trailing slash are not modelled. Its ranking between routes is replaced by the proof that no path matches two routes.
- Sign-in and session handling are not part of this model; the guard takes the session state as parameters. The auth provider is src/components/auth/AuthProvider.tsx.
- The remaining pages are not part of this model: Auth, Chat, Recepcao, Medicacao, Doutor, Painel, NotFound. Only their routes are.
- No code implements a state machine for queue statuses, so the model has none. The statuses appear only in the panel's filters.
