# Um Ombro Amigo — a Dafny model

Um Ombro Amigo is an employee-assistance reimbursement application. A
requester ("solicitante") files a request for psychological, medical,
dental, physiotherapy or other care and attaches the invoices. A manager
("gestora") approves or rejects the requests of the sites ("polos") they may
see. An administrator grants managers access to other sites and sees a
report per site. Two serverless handlers sit behind the pages: one records
a status decision, the other erases a user's data as the LGPD asks.

This project models the logic of that core as pure Dafny functions over
in-memory tables, and proves what the pages and handlers promise:

- `Schema`: the four database enums, their text values and constant lists, and the row types.
- `Requests`: which requests each role is shown, their order, the `dependents` normalisation, and the payload `createRequest` inserts.
- `StatusUpdate`: the `request-management` handler, with the update record it builds and its effect on the table.
- `InvoiceManager` and `InvoiceCard`: the invoice list editor and one invoice card.
- `RequestForm`: the new-request form. It covers the schema, the dependents editor, the submission guards and the request it hands on.
- `UserPermissions`: the permissions hook, with the user/grant join and granting and revoking a site.
- `Attachments`: how attachment and invoice files are named and located.
- `GestoraDashboard`: the manager's page.
- `AdminDashboard`: the administrator's page.
- `RequesterDashboard`: the requester's page.
- `DataDeletion`: the `user-data-deletion` handler, as a plan of deletion steps and the store it leaves, both with its two invoice queries as written and as they are meant.
- `Routing`: the route table, the role redirects of the start and login pages, the consent dialog, and the dashboards' role guards.
- `Wrappers`, `Text` and `Seqs`: support modules. They hold `Option`/`Result`, the JavaScript string operations the pages use, and filter, map, sum, dedup and sort over sequences.

Database queries are filters over sequences. Every query error, clock
reading, generated id, parsed float and authentication lookup is a
parameter.

## Model

| member | source | states |
|---|---|---|
| Schema.ParsePolo | src/integrations/supabase/types.ts:308-312 | a text names a site exactly when it is one of the four listed site names, and the site read back prints as that text |
| Schema.ParseStatus | src/integrations/supabase/types.ts:313 | a text is a status exactly when it is "pending", "approved" or "rejected", and reads back to itself |
| Schema.ParseType | src/integrations/supabase/types.ts:314-319 | a text is a request type exactly when it is one of the five listed types, and reads back to itself |
| Schema.ParseRole | src/integrations/supabase/types.ts:320 | a text is a role exactly when it is "solicitante", "gestora" or "admin", and reads back to itself |
| Schema.PoloEnumMatchesConstants | src/integrations/supabase/types.ts:448-453 | the site enum has exactly four values, the constant list prints them in declaration order without repeats, and every site parses back from its name |
| Schema.StatusEnumMatchesConstants | src/integrations/supabase/types.ts:454 | the status enum and its constant list agree value for value, without repeats, and round-trip |
| Schema.TypeEnumMatchesConstants | src/integrations/supabase/types.ts:455-461 | the request type enum and its constant list agree value for value, without repeats, and round-trip |
| Schema.RoleEnumMatchesConstants | src/integrations/supabase/types.ts:462 | the role enum and its constant list agree value for value, without repeats, and round-trip |
| Requests.GrantedPolos | src/hooks/useRequests.ts:82-85 | the sites listed for a user are exactly those of the permission rows naming that user |
| Requests.AllowedPolosForFetch | src/hooks/useRequests.ts:74-88 | a manager's allowed sites are the manager's home site (first, when set) and the granted sites, each once; the list is empty exactly when there are neither |
| Requests.RoleQuery | src/hooks/useRequests.ts:63-100 | the rows selected are exactly the table's rows the role may see, in table order: a requester's own, a manager's allowed sites, all for an admin |
| Requests.Normalise | src/hooks/useRequests.ts:112-117 | a row's `dependents` becomes an array; an array is kept as it is and no other column changes |
| Requests.NormaliseIdempotent | src/hooks/useRequests.ts:112-117 | normalising twice is normalising once |
| Requests.FetchRequests | src/hooks/useRequests.ts:48-126 | nothing happens without a profile; a manager with no site gets an empty list; a query error is recorded; otherwise the list holds exactly the normalised visible rows, as many as there are, newest first |
| Requests.Listed | src/hooks/useRequests.ts:102-118 | the rows shown after a successful query are, as a multiset, the normalised rows the user may see, so one per visible row, newest first; a requester sees only their own, an admin as many rows as the table |
| Requests.NewestFirstNormalised | src/hooks/useRequests.ts:102-118 | ordering newest first and normalising keeps every selected row once, normalised, and yields a newest-first list |
| Seqs.MapPermutation | src/hooks/useRequests.ts:112-117 | mapping two orderings of the same rows gives two orderings of the same images |
| Requests.NormaliseKeepsOrder | src/hooks/useRequests.ts:111-117 | normalising the dependents after ordering leaves the list newest first |
| Seqs.SortDesc | src/hooks/useRequests.ts:102-103 | `order(created_at, descending)` returns the same rows, each as often as before, with no row after one created earlier |
| Requests.GestoraSeesAllowedPolos | src/hooks/useRequests.ts:90-92 | a manager is shown a request exactly when its site is among the manager's allowed sites |
| Requests.StatusCountsPartition | src/integrations/supabase/types.ts:313 | the pending, approved and rejected filters of a list add up to the whole list |
| Requests.CleanInvoice | src/hooks/useRequests.ts:148-155 | a cleaned invoice keeps the six stored fields: putting its file back gives the form's invoice |
| Requests.CleanAfterWithFile | src/hooks/useRequests.ts:148-155 | attaching a file to a stored invoice and cleaning it again gives the stored invoice back |
| Requests.CleanKeepsTotal | src/hooks/useRequests.ts:148-155 | cleaning the invoices keeps their total value |
| Requests.BuildPayload | src/hooks/useRequests.ts:146-168 | without a profile the call throws "User not authenticated"; otherwise the row is owned by the profile, missing lists become empty, each invoice loses only its file, and the invoice total is unchanged |
| Requests.CreateRequest | src/hooks/useRequests.ts:170-176 | the request is created exactly when there is a profile and the insert succeeds; an insert error is thrown as it came |
| StatusUpdate.BuildUpdate | supabase/functions/request-management/index.ts:58-69 | the record always sets the status and the time; it names the approver only when the lookup returned one; it holds a reason only for a rejection with a non-empty reason |
| StatusUpdate.ApplyUpdate | supabase/functions/request-management/index.ts:73-78 | the keys present overwrite their columns, absent keys keep the old values, and no other column changes |
| StatusUpdate.UpdateWhere | supabase/functions/request-management/index.ts:73-76 | every row with the id is updated and every other row is left as it was |
| StatusUpdate.TheRow | supabase/functions/request-management/index.ts:77-78 | the row `.single()` returns is in the table and carries the id |
| StatusUpdate.Handle | supabase/functions/request-management/index.ts:18-124 | OPTIONS is answered first; then a missing header is a 500; then only POST updates and anything else is a 405; an update succeeds exactly for a known status and an id selecting one row, changes only that row and answers "Request <status> successfully"; every failure leaves the table alone |
| StatusUpdate.GetWithoutAuthIsServerError | supabase/functions/request-management/index.ts:22-28 | a GET without credentials is answered 500, because the header is checked before the method |
| StatusUpdate.NoStatusPrecondition | supabase/functions/request-management/index.ts:73-78 | a request is updated whatever its current status, so a decided request can be decided again |
| StatusUpdate.ApprovalKeepsRejectionReason | supabase/functions/request-management/index.ts:67-69 | approving keeps whatever rejection reason was stored before |
| StatusUpdate.RejectionWithoutReasonKeepsOldReason | supabase/functions/request-management/index.ts:67-69 | a rejection without a reason, or with an empty one, keeps the stored reason |
| InvoiceManager.Merge | src/components/InvoiceManager.tsx:43-45 | spreading a draft over an invoice overwrites every field the draft carries and keeps the id when the draft has none |
| InvoiceManager.NewInvoice | src/components/InvoiceManager.tsx:55-58 | a new invoice takes the fresh id unless the draft brings its own, and otherwise is the draft |
| InvoiceManager.EditWhere | src/components/InvoiceManager.tsx:43-45 | the invoices with the edited id are merged with the draft; the others stay, in place |
| InvoiceManager.SaveInvoice | src/components/InvoiceManager.tsx:40-68 | while editing, the edited invoices are merged and editing ends; otherwise the new invoice is appended after the unchanged list and the new card closes; `onChange` receives the new list |
| InvoiceManager.DeleteInvoice | src/components/InvoiceManager.tsx:70-78 | the invoices with the id are removed; every other invoice keeps its count of copies and its order |
| InvoiceManager.Total | src/components/InvoiceManager.tsx:80 | the running total is the sum of the invoice values; `TotalAfterAdd` and `TotalAfterDelete` state how it moves |
| InvoiceManager.TotalAfterAdd | src/components/InvoiceManager.tsx:80 | adding an invoice raises the total by exactly its value |
| InvoiceManager.TotalAfterDelete | src/components/InvoiceManager.tsx:70-80 | the old total is the total kept plus the total of the deleted invoices |
| InvoiceManager.DeleteUndoesAdd | src/components/InvoiceManager.tsx:55-71 | deleting a newly added invoice by its fresh id restores the list, when that id was unused |
| InvoiceManager.NewCardSavedWhileEditingOverwrites | src/components/InvoiceManager.tsx:41-48 | saving the blank card while another invoice is being edited adds nothing: its data overwrites the edited invoice |
| InvoiceCard.InitialDraft | src/components/InvoiceCard.tsx:35-42 | a card starts from its invoice, or from value 0 with empty texts |
| InvoiceCard.CanSave | src/components/InvoiceCard.tsx:46-54 | a draft may be saved when its value is non-zero and it has a beneficiary and a description; `HandleSave` refuses exactly the others |
| InvoiceCard.HandleSave | src/components/InvoiceCard.tsx:45-57 | a save is refused exactly when the value is 0 or the beneficiary or description is empty; otherwise the draft is saved as it is and the edit toggle fires if given |
| InvoiceCard.BlankCardIsRefused | src/components/InvoiceCard.tsx:35-53 | a blank card cannot be saved |
| InvoiceCard.ChooseFile | src/components/InvoiceCard.tsx:66-75 | a chosen file sets the file and its name; no file changes nothing; no other field changes |
| InvoiceCard.ValueFromInput | src/components/InvoiceCard.tsx:96-99 | an unparsable value becomes 0; a parsed value is kept |
| InvoiceCard.SetValue | src/components/InvoiceCard.tsx:96-99 | typing a value changes only the value |
| InvoiceCard.SessionsFromInput | src/components/InvoiceCard.tsx:123-126 | the sessions are the integer `parseInt` reads, or 0 when it reads none |
| InvoiceCard.SetSessions | src/components/InvoiceCard.tsx:123-126 | typing sessions changes only the sessions |
| InvoiceCard.SessionsRoundTrip | src/components/InvoiceCard.tsx:123-126 | typing the decimal text of a count gives that count |
| InvoiceCard.SessionsWithoutDigits | src/components/InvoiceCard.tsx:123-126 | text without digits gives 0 sessions |
| InvoiceCard.BlankCardHasNoDeleteButton | src/components/InvoiceCard.tsx:186-190 | a card without an invoice id never shows the delete button |
| InvoiceCard.ShowsDeleteButton | src/components/InvoiceCard.tsx:186 | the delete button shows when the card has a delete handler and a saved invoice with a non-empty id |
| RequestForm.SchemaIssues | src/components/RequestForm.tsx:19-25 | each schema message appears exactly when its rule fails: unknown type, empty site, CPF shorter than 11, empty name |
| RequestForm.DefaultValues | src/components/RequestForm.tsx:55-61 | the form starts as "outros" with the profile's site and name when known and everything else empty |
| RequestForm.DefaultsNeedCpf | src/components/RequestForm.tsx:55-61 | the default values never pass the schema, since the CPF starts empty |
| RequestForm.AddDependent | src/components/RequestForm.tsx:66-68 | one blank dependent is appended and the others are kept |
| RequestForm.RemoveDependent | src/components/RequestForm.tsx:70-72 | the dependent at the index is removed; an index outside the list removes nothing |
| RequestForm.UpdateDependent | src/components/RequestForm.tsx:74-78 | only the chosen field of the chosen dependent changes |
| RequestForm.UpdateWithSameValueIsIdentity | src/components/RequestForm.tsx:74-78 | writing back a field's own value changes nothing |
| RequestForm.RequestData | src/components/RequestForm.tsx:117-127 | the request carries the invoice total, no attachments and every invoice; its dependents are the complete ones, in their order, each as often as in the form |
| RequestForm.TotalAmount | src/components/RequestForm.tsx:64 | the form's total is the sum of its invoice values |
| RequestForm.SubmitEnabled | src/components/RequestForm.tsx:358 | the submit button is enabled exactly when no upload runs and there is an invoice; `EnabledSubmitHasInvoices` shows it rules out the first refusal |
| RequestForm.OnSubmit | src/components/RequestForm.tsx:86-151 | the submission is refused without invoices, then without a CPF, then without a name, touching nothing; a created request carries the total of its invoices, the complete dependents in order with their repeats, and the caller as owner, and clears the form's lists; a failure keeps them; the upload flag always ends cleared |
| RequestForm.SchemaMakesGuardsRedundant | src/components/RequestForm.tsx:96-112 | data that passed the schema never trips the CPF or name guard |
| RequestForm.EnabledSubmitHasInvoices | src/components/RequestForm.tsx:358 | an enabled submit button never leads to the no-invoice refusal |
| UserPermissions.Attach | src/hooks/useUserPermissions.ts:48-51 | a user carries exactly the permission rows that name them |
| UserPermissions.JoinUsers | src/hooks/useUserPermissions.ts:33-51 | the list holds the non-admin users in table order, each once and with exactly their permission rows, and no admin |
| UserPermissions.FetchUsers | src/hooks/useUserPermissions.ts:28-64 | the joined list, or the error of the first query that failed |
| UserPermissions.CheckboxShowsGrant | src/pages/DashboardAdmin.tsx:224 | a listed user's checkbox for a site is ticked exactly when the table grants that site to that user |
| UserPermissions.HasPermission | src/pages/DashboardAdmin.tsx:224 | a site's checkbox is ticked when a permission row of the listed user names that site |
| UserPermissions.Grant | src/hooks/useUserPermissions.ts:66-92 | a successful grant appends one row for the pair and refetches; an error changes nothing |
| UserPermissions.Revoke | src/hooks/useUserPermissions.ts:94-119 | a successful revoke removes every row for the pair and keeps the other rows in order; an error changes nothing |
| UserPermissions.GrantTwiceAddsTwoRows | src/hooks/useUserPermissions.ts:68-73 | granting a site twice stores two rows for the pair |
| UserPermissions.RevokeUndoesGrant | src/hooks/useUserPermissions.ts:96-100 | revoking after a grant leaves the table that revoking alone leaves |
| UserPermissions.PermissionChange | src/pages/DashboardAdmin.tsx:36-42 | a click on a ticked box revokes and on an empty box grants |
| UserPermissions.ClickFlipsCheckbox | src/pages/DashboardAdmin.tsx:224-229 | a successful click flips the checkbox |
| Attachments.ViewInvoiceFile | src/components/RequestAttachments.tsx:49-61 | a URL starting with "http" is opened as it is; any other text is a path in the invoices bucket |
| Attachments.DownloadInvoiceFile | src/components/RequestAttachments.tsx:72-96 | a download comes from the bucket or the URL by the same test, and is saved under the invoice's name |
| Attachments.ViewAndDownloadAgree | src/components/RequestAttachments.tsx:72-86 | viewing and downloading resolve a file to the same place |
| Attachments.AttachmentSource | src/components/RequestAttachments.tsx:112-133 | attachments are always read from the request-attachments bucket |
| Attachments.DisplayName | src/components/RequestAttachments.tsx:193 | an attachment is listed under its last path segment, or as "Anexo n" counting from 1 when that is empty |
| Attachments.DownloadName | src/components/RequestAttachments.tsx:139 | an attachment is saved under its last path segment, or as "anexo" |
| Attachments.NamesOfStoredPath | src/components/RequestAttachments.tsx:193 | a path `dir/name` is listed and saved as `name` |
| Attachments.NamesOfDirectoryPath | src/components/RequestAttachments.tsx:139 | a path ending in '/' falls back to the numbered label and to "anexo" |
| Attachments.HasAttachments | src/components/RequestAttachments.tsx:173 | there is something to list when the attachment list is present and non-empty or there is an invoice |
| Attachments.NothingToShow | src/components/RequestAttachments.tsx:173-181 | the "no attachments" message shows exactly when both lists are empty or absent |
| Text.LastSegment | supabase/functions/user-data-deletion/index.ts:59 | `split('/').pop()` is the suffix after the last '/', holds no '/', and is the whole text when there is none |
| Text.LastSegmentOfJoin | supabase/functions/user-data-deletion/index.ts:77 | the last segment of `dir/name` is `name` |
| Text.ParseIntPrefix | src/components/InvoiceCard.tsx:125 | `parseInt` reads a number exactly when a digit follows the leading whitespace and optional sign, and the number is non-negative without a minus |
| Text.ParseSkipsWhitespace | src/components/InvoiceCard.tsx:125 | leading whitespace does not change what `parseInt` reads |
| Text.ParseSignedNumber | src/components/InvoiceCard.tsx:125 | a sign, the decimal digits of n and any tail not starting with a digit read as n, negated after '-' |
| Text.ParseLeadingNumber | src/components/InvoiceCard.tsx:125 | `parseInt` of whitespace, a sign, the digits of n and a non-digit tail, as in "3.5", " -2" or "12 sessões", is n with that sign |
| Text.NatToStringRoundTrip | src/pages/DashboardSolicitante.tsx:163 | the decimal text of a number parses back to it |
| GestoraDashboard.AllowedPolosForPage | src/pages/DashboardGestora.tsx:31-53 | the page's allowed sites are the home site (first) and, for a manager, the granted sites, each once |
| GestoraDashboard.PageAndFetchAgree | src/pages/DashboardGestora.tsx:35-47 | for a manager, the page's list equals the list the requests are fetched by |
| GestoraDashboard.HandleApprove | src/pages/DashboardGestora.tsx:79-96 | approving always sends "approved" without a reason |
| GestoraDashboard.HandleReject | src/pages/DashboardGestora.tsx:98-126 | a blank reason is refused on the page; any other reason is sent untrimmed with "rejected" |
| GestoraDashboard.RejectionFromPageRecordsReason | src/pages/DashboardGestora.tsx:98-110 | a rejection that leaves the page always stores the reason typed |
| GestoraDashboard.PendingRequests | src/pages/DashboardGestora.tsx:205 | the pending list holds exactly the pending requests, in list order |
| GestoraDashboard.ProcessedRequests | src/pages/DashboardGestora.tsx:206 | the processed list holds exactly the approved and the rejected requests, in list order |
| GestoraDashboard.MatchesSearch | src/pages/DashboardGestora.tsx:208-214 | a blank term matches every request; any other term must occur, ignoring case but not trimmed, in the name (the typed name, else the user's) or the CPF |
| GestoraDashboard.PendingProcessedPartition | src/pages/DashboardGestora.tsx:205-206 | every request is in exactly one of the pending and processed lists, as often as in the input |
| GestoraDashboard.FilteredLists | src/pages/DashboardGestora.tsx:208-217 | each shown list holds exactly the matching requests of its status, in order |
| GestoraDashboard.BlankSearchKeepsAll | src/pages/DashboardGestora.tsx:209 | a blank search hides nothing |
| GestoraDashboard.SearchIgnoresCase | src/pages/DashboardGestora.tsx:210-213 | a lower-cased term selects the same requests |
| GestoraDashboard.SearchFindsOccurrences | src/pages/DashboardGestora.tsx:208-214 | a non-blank term matches exactly when it occurs, ignoring case, in the name or the CPF |
| GestoraDashboard.Counters | src/pages/DashboardGestora.tsx:245-269 | the pending counter is the size of the pending list and the approved and rejected counters split the processed list; they add up to the requests loaded, and each is zero exactly when no request has its status |
| GestoraDashboard.ShowsRequestLists | src/pages/DashboardGestora.tsx:279 | the request lists show only for a manager with a home site; `GrantsWithoutHomeSiteAreHidden` shows the consequence |
| GestoraDashboard.InvoiceByFileName | src/pages/DashboardGestora.tsx:186 | the first loaded invoice with that file name, or none exactly when no invoice has it |
| GestoraDashboard.ViewInvoice | src/pages/DashboardGestora.tsx:143-157 | nothing happens without a URL; otherwise the URL or the bucket path is opened |
| GestoraDashboard.DownloadInvoice | src/pages/DashboardGestora.tsx:159-184 | nothing happens without a URL; otherwise the file is saved under its name, or "nota-fiscal.pdf" |
| GestoraDashboard.ViewByFileName | src/pages/DashboardGestora.tsx:187-194 | the "not found" toast shows exactly when no loaded invoice has the name; otherwise the first one is viewed |
| GestoraDashboard.DownloadByFileName | src/pages/DashboardGestora.tsx:195-202 | the "not found" toast shows exactly when no loaded invoice has the name; otherwise the first one is downloaded |
| GestoraDashboard.GrantsWithoutHomeSiteAreHidden | src/pages/DashboardGestora.tsx:279-285 | a manager with grants but no home site has requests loaded yet is shown the "configure your site" card |
| AdminDashboard.PolosAreTheSiteEnum | src/pages/DashboardAdmin.tsx:16 | the page's site list is the database site enum, in order, each once |
| AdminDashboard.PageStats | src/pages/DashboardAdmin.tsx:109-145 | the figures count the users, the pending requests, the approved requests and all requests; pending, approved and the rejected rest add up to the total; pending equals the total exactly when every request is pending |
| AdminDashboard.Group | src/pages/DashboardAdmin.tsx:73-76 | a site's group holds each request filed by a user of that site, as often as in the list, in order |
| AdminDashboard.Ungrouped | src/pages/DashboardAdmin.tsx:292 | the requests without a requester site are exactly those shown as "Não definido" |
| AdminDashboard.SiteLabel | src/pages/DashboardAdmin.tsx:292 | a request's site badge names its requester's site, or reads "Não definido"; `CardMatchesSiteColumn` ties it to the cards |
| AdminDashboard.ReportFollowsRequesterSite | src/pages/DashboardAdmin.tsx:74 | a request is reported under its requester's site, not under its own site column |
| AdminDashboard.CardMatchesSiteColumn | src/pages/DashboardAdmin.tsx:292 | a request is on a site's card exactly when the request table shows that site for it |
| AdminDashboard.GroupsCoverRequests | src/pages/DashboardAdmin.tsx:73-76 | the four groups and the unassigned requests account for every request exactly once |
| AdminDashboard.FiltersCover | src/pages/DashboardAdmin.tsx:73-76 | the sizes of the four site filters and of the requests without a site add up to the size of the list |
| AdminDashboard.InExactlyOneGroup | src/pages/DashboardAdmin.tsx:73-76 | each request passes exactly one of the four site tests and the no-site test |
| AdminDashboard.Report | src/pages/DashboardAdmin.tsx:313-353 | a card's counts are the requests of that site and status, they add up to its total, and its value is the sum of that site's amounts |
| AdminDashboard.SiteValuesCoverTotal | src/pages/DashboardAdmin.tsx:351-353 | the four cards' values plus the unassigned amounts are the amount of all requests |
| AdminDashboard.MaskedAmountsCover | src/pages/DashboardAdmin.tsx:351-353 | counting each request's amount only under its own site, the four site totals and the no-site total add up to the sum of all amounts |
| AdminDashboard.FilteredUsers | src/pages/DashboardAdmin.tsx:79-82 | the users listed are exactly those whose name or e-mail contains the term, ignoring case, in order |
| AdminDashboard.EmptySearchListsAllUsers | src/pages/DashboardAdmin.tsx:79-82 | an empty search lists every user |
| AdminDashboard.SpaceSearchNeedsASpace | src/pages/DashboardAdmin.tsx:79-82 | a single space is searched for literally: unlike the manager's search it is not ignored |
| AdminDashboard.UserSearchIgnoresCase | src/pages/DashboardAdmin.tsx:79-82 | a lower-cased term lists the same users |
| RequesterDashboard.ShortId | src/pages/DashboardSolicitante.tsx:172 | the card shows "#" and the first eight characters of the id, or all of a shorter id |
| RequesterDashboard.ShortIdsCollide | src/pages/DashboardSolicitante.tsx:172 | ids sharing their first eight characters look the same |
| RequesterDashboard.AttachmentLabels | src/pages/DashboardSolicitante.tsx:159-163 | one label per attachment, "Anexo n" counting from 1 |
| RequesterDashboard.StatusBadge | src/pages/DashboardSolicitante.tsx:24-35 | "Pendente" shows exactly for a pending request, "Aprovado" exactly for an approved one, "Recusado" exactly for a rejected one |
| RequesterDashboard.StatusBadgeDistinguishes | src/pages/DashboardSolicitante.tsx:24-35 | different statuses show different badges |
| RequesterDashboard.ShowsApproval | src/pages/DashboardSolicitante.tsx:176 | the approval note shows exactly for an approved request |
| RequesterDashboard.ShowsRefusal | src/pages/DashboardSolicitante.tsx:183 | the refusal note shows for any non-empty stored reason, whatever the status; `RefusedThenApprovedShowsBoth` shows both notes at once |
| RequesterDashboard.ShowsSessions | src/pages/DashboardSolicitante.tsx:140 | the sessions line shows only for a positive session count |
| RequesterDashboard.RefusedThenApprovedShowsBoth | src/pages/DashboardSolicitante.tsx:176-188 | a request refused with a reason and then approved shows both the approval and the refusal note |
| RequesterDashboard.RefusalWithoutReasonShowsNoNote | src/pages/DashboardSolicitante.tsx:183-188 | a refusal without a reason shows the "Recusado" badge but no refusal note |
| DataDeletion.FileRemovals | supabase/functions/user-data-deletion/index.ts:70-84 | at most one removal per invoice URL, each of the user's folder and the URL's last segment |
| DataDeletion.FileRemovalsRemovePaths | supabase/functions/user-data-deletion/index.ts:75-84 | the removals take exactly those paths out of storage and touch nothing else |
| DataDeletion.UserFileUrls | supabase/functions/user-data-deletion/index.ts:70-73 | step 1's query as meant lists exactly the file URLs of the invoices of the user's requests |
| DataDeletion.FileUrlsAsWritten | supabase/functions/user-data-deletion/index.ts:70-73 | step 1's query as written lists exactly the file URLs of the invoices whose request id is the text "in" |
| DataDeletion.SubqueryChars | supabase/functions/user-data-deletion/index.ts:99-104 | step 4's value list as written holds one-character values, one per character of the subquery text |
| DataDeletion.Plan | supabase/functions/user-data-deletion/index.ts:69-119 | the file removals and then the six table and account deletions; `PlanOrder` states the order and `PlanErases` the result |
| DataDeletion.PlanOrder | supabase/functions/user-data-deletion/index.ts:67-119 | the files go first, then audit logs, comments, invoices, requests and the profile, and the account last |
| DataDeletion.Erased | supabase/functions/user-data-deletion/index.ts:69-123 | the store the deletion is meant to leave: no row of the user, no invoice of the user's requests, every other row; storage loses the removed paths; the account goes unless its deletion fails |
| DataDeletion.PlanErases | supabase/functions/user-data-deletion/index.ts:69-123 | running the steps in order leaves exactly the erased store |
| DataDeletion.TableDeletionsErase | supabase/functions/user-data-deletion/index.ts:86-123 | steps 2 to 7 delete the user's rows and leave storage alone |
| DataDeletion.FinalDeletionsErase | supabase/functions/user-data-deletion/index.ts:98-123 | deleting the user's requests also deletes, by the foreign key's cascade, the invoices that point at them; then the profile and the account go |
| DataDeletion.TableDeletionsInErase | supabase/functions/user-data-deletion/index.ts:97-123 | when step 4 matches no invoice, the cascade of step 5 still leaves the tables as the intended deletion does, and storage untouched |
| DataDeletion.FirstDeletionsMissInvoices | supabase/functions/user-data-deletion/index.ts:86-104 | when step 4 matches no invoice, steps 2 to 4 remove only the user's audit logs and comments |
| DataDeletion.ProfileOf | supabase/functions/user-data-deletion/index.ts:47-55 | the caller's profile is found exactly when one profile carries the account id |
| DataDeletion.Authorise | supabase/functions/user-data-deletion/index.ts:15-63 | the checks in order, each with its own refusal: the preflight, the method, the header, the account, its one profile, and a path ending in that profile's id ("You can only delete your own data" otherwise) |
| DataDeletion.Handle | supabase/functions/user-data-deletion/index.ts:11-150 | with both invoice queries as meant: OPTIONS first, then a 405 for anything but DELETE, then the header, the account and the profile, then "You can only delete your own data" when the last path segment is not the caller's profile id; data is erased exactly for the caller whose profile id is the last path segment, leaving the erased store, and every refusal changes nothing |
| DataDeletion.HandleAsWritten | supabase/functions/user-data-deletion/index.ts:11-150 | with both invoice queries as written: the same answer as the corrected handler, and the as-written deletions run in order, the cascade included |
| DataDeletion.NoInvoiceOfRequestIn | supabase/functions/user-data-deletion/index.ts:70-84 | with UUID request ids, step 1 as written lists no URL and removes no file |
| DataDeletion.UuidsMissSubqueryChars | supabase/functions/user-data-deletion/index.ts:99-104 | no UUID request id is among step 4's one-character values |
| DataDeletion.PlanAsWrittenIsTableDeletions | supabase/functions/user-data-deletion/index.ts:69-119 | with UUID request ids, the as-written plan removes no file and is the six table and account deletions alone |
| DataDeletion.PlanAsWrittenKeepsFiles | supabase/functions/user-data-deletion/index.ts:69-123 | on UUID request ids the as-written deletions leave exactly the erased tables of a plan that removes no file |
| DataDeletion.AsWrittenKeepsFiles | supabase/functions/user-data-deletion/index.ts:69-140 | as written, the handler gives the corrected one's answer, "all data deleted" included, and leaves its tables, the user's invoices gone by cascade, yet keeps every stored file |
| DataDeletion.MethodCheckedFirst | supabase/functions/user-data-deletion/index.ts:15-23 | a GET is a 405 whatever its credentials |
| DataDeletion.OthersDataUntouched | supabase/functions/user-data-deletion/index.ts:87-110 | every other user's requests, comments and audit logs stay as they were, in order |
| DataDeletion.SecondDeletionFindsNoProfile | supabase/functions/user-data-deletion/index.ts:112-116 | after a deletion, the same call answers "User not found" |
| DataDeletion.AccountFailureStillSucceeds | supabase/functions/user-data-deletion/index.ts:119-140 | a failed account deletion is only logged: the answer is the same 200 and the account survives |
| DataDeletion.TrailingSlashIsRefused | supabase/functions/user-data-deletion/index.ts:58-63 | a path ending in '/' names nobody, so nothing is deleted |
| Routing.Resolve | src/App.tsx:23-31 | a path reaches the page of the listed pattern it matches, ignoring case and trailing '/'s as the router's `<Routes>` does by default, and the not-found page exactly when it matches none |
| Routing.PageOfKey | src/App.tsx:25-31 | a lower-cased, slash-trimmed path names a page exactly when it is the key of that page's pattern |
| Routing.ResolveRoundTrip | src/App.tsx:25-30 | each page is reached by its own path |
| Routing.ResolveIgnoresTrailingSlash | src/App.tsx:23-31 | adding a trailing '/' to a non-empty path does not change its page |
| Routing.ResolveIgnoresCase | src/App.tsx:23-31 | lower-casing a path does not change its page |
| Routing.UpperCaseLogin | src/App.tsx:26 | "/LOGIN" reaches the login page |
| Routing.SlashedLogin | src/App.tsx:26 | "/login/" reaches the login page |
| Routing.LongerThanLogin | src/App.tsx:26-31 | "/login/x" matches no pattern and reaches the not-found page |
| Routing.HomeOf | src/pages/Login.tsx:28-34 | each role has its own dashboard |
| Routing.IndexRedirect | src/pages/Index.tsx:9-28 | nothing happens while loading; then the profile's dashboard, or the login page without a profile |
| Routing.LoginRedirect | src/pages/Login.tsx:22-37 | with a session and a profile, no consent asks for it and consent goes to the dashboard; otherwise the page waits |
| Routing.IndexAndLoginAgree | src/pages/Index.tsx:12-21 | the start and login pages send a consenting user to the same dashboard |
| Routing.ConsentDialogChange | src/pages/Login.tsx:124-136 | closing the dialog redirects exactly when the profile has consented; the open flag follows the event |
| Routing.DismissWithoutConsentStays | src/pages/Login.tsx:124-136 | dismissing the dialog without consent stays on the login page |
| Routing.SubmitCall | src/pages/Login.tsx:39-56 | the form signs up with the chosen role, or signs in, with the typed credentials |
| Routing.SignUpOffersEveryRole | src/pages/Login.tsx:80-88 | sign-up accepts any role, the administrator's included |
| Routing.ToggleMode | src/pages/Login.tsx:114 | the link switches the mode |
| Routing.ModeTexts | src/pages/Login.tsx:66-116 | the heading, button and link texts of each mode |
| Routing.ToggleTwiceRestores | src/pages/Login.tsx:112-117 | toggling twice restores the mode |
| Routing.GuardAsWritten | src/pages/DashboardGestora.tsx:56-60 | the admin page sends other roles to their dashboards; the manager and profile pages send non-managers to the requester page; the requester page sends non-requesters to the manager page |
| Routing.Guard | src/pages/DashboardAdmin.tsx:26-34 | a user on a page meant for another role goes to their own dashboard |
| Routing.AdminBouncesBetweenDashboards | src/pages/DashboardSolicitante.tsx:18-22 | as written, an administrator on the manager's or requester's page is redirected forever |
| Routing.GuardSettlesInOneStep | src/pages/DashboardAdmin.tsx:26-34 | with the corrected guards every role settles after at most one redirect |
| Routing.GuardsDifferOnlyForAdmin | src/pages/DashboardGestora.tsx:56-60 | the written and corrected guards agree for every role but the administrator |
| Routing.HomeAdmitsItsRole | src/pages/ProfileGestora.tsx:12-16 | each role's dashboard admits that role under both sets of guards |
| Routing.ProfileBack | src/pages/ProfileGestora.tsx:28 | the back button leads to the manager's dashboard, which admits a manager |

## Left out

- I/O is not modelled: toasts, `console` logging, `window.open`, blob and object-URL handling, and currency and date formatting. Only the targets and names they receive are modelled.
- Supabase row-level security is not modelled. The tables passed in are the rows each query may see.
- The realtime subscription and the effect hooks that call `fetchRequests` are not modelled. Neither is the refetch after `createRequest`: each call is modelled once.
- The `updateRequestStatus` client wrapper in the requests hook is not modelled. It only forwards to the handler modelled in `StatusUpdate`.
- `useInvoices`, `ConsentModal`, `ProfileSettings` and `send-notification-email` are not part of this model. The status handler's e-mail is disabled in the source.
- The invoice query of `RequestAttachments` is a parameter list, and its error path only logs.
- `InvoiceCard.ValueFromInput`: the result of `parseFloat` is a parameter. Floating-point parsing and rounding are not modelled, and amounts are `real`.
- `Text.LowerChar`: `toLowerCase` is modelled for Basic Latin and Latin-1 capitals only. Other scripts are left unchanged.
- `Text.ParseIntPrefix`: decimal text only. The `0x` prefix and radix handling of `parseInt` are not modelled. `parseInt` returns a double, so a run of more than about 16 digits comes back rounded; the model returns the exact integer.
- `RequestForm.SchemaIssues`: lengths count Dafny characters. JavaScript counts UTF-16 code units, which differ only outside the Basic Multilingual Plane.
- `RequestForm.UpdateDependent`: requires the index of a listed dependent. The form only calls it for the rows it renders. An out-of-range index would write past the end of the JavaScript array, and that is not modelled.
- `RequestForm.OnSubmit`: a request type the schema rejected cannot reach `onSubmit`. The model sends it to the failure branch rather than assuming it away. `form.reset()` of the fields themselves is not modelled; the form's lists and upload flag are.
- `Routing.Resolve`: the router's percent-decoding of the path before matching is not modelled, so "/log%69n" reaches the not-found page in the model but the login page in the browser.
- `Routing.IndexRedirect`: the `default` branch of the role switch cannot be taken, because the role is the database enum.
- `StatusUpdate.Handle`: the failure messages for an unreadable body, an unknown status and an id that does not select one row are fixed labels. The handler passes on the database's own text.
- `StatusUpdate.Handle`: the approver lookup's result is a parameter. Its error is only logged, as in the source.
- `DataDeletion.Erased`: states the deletion as meant, with step 1 listing the files of the user's requests. The handler as written is `DataDeletion.HandleAsWritten`, which leaves the same tables but no file removed (see Findings).
- Foreign keys: only `invoices_request_id_fkey` (src/integrations/supabase/types.ts:118-121) is modelled, as cascading when a request is deleted, which the handler's delete order and its note on step 4 rely on (supabase/functions/user-data-deletion/index.ts:67 and supabase/functions/user-data-deletion/index.ts:98). The schema is not part of this model, so a key without that cascade, under which step 5 would fail and leave the requests and the profile, is not modelled; nor are the other keys, such as those of comments by other users on the user's requests.
- `DataDeletion.SubqueryChars`: which `.in` runs depends on the postgrest-js build served for the pinned supabase-js 2.38.0 (supabase/functions/user-data-deletion/index.ts:2). The model follows a client that builds the list from `new Set(values)`, so a string gives its characters. A client that calls `values.map` throws on a string inside the handler's `try`, which answers 500 after steps 1 to 3; that reading is not modelled.
- `DataDeletion.Handle`: errors of the deletion steps other than the account deletion are not looked at by the source, so they are not modelled.
- Concurrency between the pages, the handlers and other users is not modelled.

## Findings

| source | as written | input that shows it | evidently intended | confidence | as-written member | corrected member |
|---|---|---|---|---|---|---|
| src/pages/DashboardGestora.tsx:56-60 and src/pages/DashboardSolicitante.tsx:18-22 | the manager's dashboard sends every non-manager to the requester's dashboard, which sends every non-requester back to the manager's | an administrator opening /dashboard-gestora or /dashboard-solicitante | send a user of another role to their own dashboard, as src/pages/DashboardAdmin.tsx:26-34 does | medium, not executed | Routing.AdminBouncesBetweenDashboards | Routing.GuardSettlesInOneStep |
| supabase/functions/user-data-deletion/index.ts:70-73 and supabase/functions/user-data-deletion/index.ts:99-104 | step 1 filters with `.eq('request_id', 'in', …)`, which compares the request id with the text "in", so no stored file is removed; step 4 passes the subquery as a string to `.in`, which filters on the string's single characters and leaves the invoices to the cascade of step 5 | any user whose requests have invoices with stored files, the request ids being UUIDs | remove the stored files of the user's invoices | medium, not executed | DataDeletion.AsWrittenKeepsFiles | DataDeletion.PlanErases |
