# Portfolio admin, tech stack and contact form — a Dafny model

This project models the three pieces of the portfolio site that have behaviour
beyond rendering.

- **The content-management admin page** (`app/admin/page.tsx`). It has five tabs
  (analytics, projects, technologies, experiences, messages). It also has an
  add/edit modal whose draft is a tagged `Record` (`Project | Technology |
  Experience`, plus `Message` for the inbox rows that can only be deleted), a
  delete confirmation, and an image-upload sub-flow. The pure helpers are
  modelled too: the per-tab templates, the comma-separated tag input, the
  storage path of an uploaded image and the shaping of the analytics queries.
  The hosted backend becomes an in-memory store inside the `AdminSession` class:
  a map from table to rows with unique ids, the page-view log, and the set of
  object paths in the storage bucket. Every backend call's success or failure
  is an `ok: bool` parameter. The backend-assigned id of an inserted row, the
  random file name and the public URL are parameters too.
- **The tech-stack section** (`components/TechStackClient.tsx`). Its headline
  statistics come from `filter(...).length` over the technologies' lowercased
  categories. It also builds the tripled marquee list and has an empty-state
  branch. All of it is pure functions.
- **The contact form** (`components/ContactForm.tsx`). It is a `ContactForm`
  class with a four-field `FormData`, an `idle | loading | success | error`
  status and a double-submit guard. Submission is two events, `Submit` and then
  `InsertSettled(ok)`. The 8000 ms and 5000 ms timers and the close button are
  explicit events. The mobile-detection predicate is a pure function.

The JavaScript string built-ins these components use are modelled in `Text`:
`trim` (over the ECMAScript whitespace set), `split` on one character, `join`,
`includes`, ASCII `toLowerCase`, and the decimal rendering of a count.

## Model

| member | source | states |
|---|---|---|
| `Admin.AdminSession.constructor` | app/admin/page.tsx:67-84 | The page starts on the analytics tab with empty lists, zero analytics, no modal mode, no draft, no pending delete and no upload running. |
| `Admin.AdminSession.SelectTab` | app/admin/page.tsx:303 | A tab button makes that tab active, changes nothing else and keeps the session invariant. |
| `Admin.AdminSession.Load` | app/admin/page.tsx:98-143 | Loading replaces only the active tab's list. It becomes the sorted table on success and `[]` when no data comes back. On the analytics tab, only the analytics change. Every other list is unchanged. |
| `Admin.AnalyticsLoad` | app/admin/page.tsx:126-140 | `total_views` is the number of page views, or 0 when the count query fails. `unique_visitors` is always 0. `recent_views` holds at most 10 entries: the newest views, newest first, in non-increasing timestamp order, or none when its query fails. |
| `Admin.Newest` | app/admin/page.tsx:131-135 | The `k` most recent views of an oldest-first log: `min(k, n)` entries, where entry `i` is the view `i` places from the end. |
| `Admin.RecentQuery` | app/admin/page.tsx:130-134 | The recent-views query answers exactly when it succeeds. Its answer has exactly min(10, n) entries for n stored views, and entry `i` is the view `i` places from the newest. |
| `Admin.NoViewsShowsPlaceholder` | app/admin/page.tsx:394-407 | With no stored page views, the total is 0 and the recent list is empty whatever the query outcomes, so the placeholder "Aucune visite enregistrée pour le moment" is shown. |
| `Admin.TemplateFollowsRegistry` | app/admin/page.tsx:220-248 | The projects, tech and cv tabs each have an add template, and the other tabs have none. A template is a record of that tab's kind with no id and `order_index = listed + 1`. It has exactly the tab's form fields, each at its default value: `""`, `tags = []`, `span = "md:col-span-1"`, `icon_type = "Briefcase"`. |
| `Admin.AdminSession.OpenAdd` | app/admin/page.tsx:220-249 | The mode becomes `add`. On a tab with a form, the draft becomes that tab's template, ordered after the currently listed records. On any other tab the draft is left as it was. |
| `Admin.AdminSession.OpenEdit` | app/admin/page.tsx:251-254 | The mode becomes `edit` and the draft becomes a copy of the record, so the modal (`ModalVisible`, line 629) shows. No list is touched. |
| `Admin.WithField` | app/admin/page.tsx:662-942 | A field edit makes the edited field read the typed value, or the parsed tags for the tags input. Every other field, the id, the order and the kind stay the same. A field the kind does not have leaves the record unchanged. |
| `Admin.RecordsAgree` | app/admin/page.tsx:669-671 | Two editable records with the same kind, id, order and field readings are equal, so `WithField` changes exactly one field. |
| `Admin.AdminSession.EditField` | app/admin/page.tsx:681-685 | Typing into a field of the open modal changes only the draft, by `WithField`. The lists and the store are not touched. |
| `Admin.ParseTags` | app/admin/page.tsx:701 | Parsing gives one tag per comma-separated segment, empty segments kept, so there are (number of commas + 1) tags. Tag `i` is segment `i` trimmed. No tag contains a comma or has whitespace at either end. |
| `Admin.JoinTags` | app/admin/page.tsx:697 | The tags input shows the tags joined by `", "`. Its comma-separated segments are the tags, every tag after the first behind one space. An empty list shows `""`. |
| `Admin.TagsRoundTrip` | app/admin/page.tsx:697-701 | Joining a non-empty list of trimmed, comma-free tags with `", "` and parsing the text back gives the same tags. |
| `Admin.EmptyTagsReadBackAsOneEmptyTag` | app/admin/page.tsx:697-701 | The empty tag list prints as `""`, which parses back to `[""]`, not `[]`. |
| `Admin.FileExtension` | app/admin/page.tsx:176 | `split('.').pop()` gives a dot-free suffix of the file name. It is either the whole name, exactly when the name has no `.`, or it is preceded by a `.`. |
| `Admin.ExtensionAfterLastDot` | app/admin/page.tsx:176 | For any stem and any dot-free `ext`, the extension of `stem + "." + ext` is `ext`. |
| `Admin.StoragePath` | app/admin/page.tsx:176-178 | The object path is exactly `project-previews/`, the random name, a `.` and the chosen file's extension: it starts with the first three, has their length plus the extension's, and has the same extension as the file. |
| `Admin.RemoveById` | app/admin/page.tsx:155-158 | Deleting by id keeps only rows of the table without that id, and never adds a row. |
| `Admin.RemoveExactlyOne` | app/admin/page.tsx:155-158 | With unique ids, deleting the id held at position `k` removes exactly that row and keeps the others in order. |
| `Admin.RemoveAbsent` | app/admin/page.tsx:155-158 | Deleting an id that no row holds leaves the table unchanged. |
| `Admin.RemoveKeepsUnique` | app/admin/page.tsx:155-158 | Deleting keeps the table's ids unique. |
| `Admin.UpdateById` | app/admin/page.tsx:205-208 | An update by id keeps the table's length. Each row holding the id becomes the submitted data, and every other row stays as it was. Without an id, no row changes. |
| `Admin.UpdateChangesOnlyTarget` | app/admin/page.tsx:205-208 | Updating by the draft's id keeps ids unique and changes only rows holding that id. At most one row changes. |
| `Admin.InsertRow` | app/admin/page.tsx:202 | An insert appends one row and keeps the existing rows. The new row has the backend-assigned id and the draft's kind, field values and `order_index`. |
| `Admin.InsertKeepsUnique` | app/admin/page.tsx:202 | Inserting with a fresh backend-assigned id keeps the table's ids unique. |
| `Admin.ReloadShowsWrites` | app/admin/page.tsx:101-124 | After an add and a reload, the list holds the inserted record with the submitted fields. After a delete and a reload, no listed row holds the deleted id. |
| `Admin.SaveTable` | app/admin/page.tsx:960-965 | A save goes to the table the tab lists, for every tab with a form, and never to the messages table. |
| `Admin.AdminSession.Save` | app/admin/page.tsx:199-218 | In add mode, the draft is inserted into the tab's table. In edit mode, the row holding the draft's id is replaced by the draft. On success, mode and draft become null, so the modal is hidden. On failure, the store, mode and draft are unchanged for a retry. The store invariant holds either way. |
| `Admin.AdminSession.CancelModal` | app/admin/page.tsx:654 | The close button, "Annuler" and the backdrop clear only the mode. The draft is kept. The modal is hidden and the session invariant is kept. |
| `Admin.AdminSession.RequestDelete` | app/admin/page.tsx:148-150 | A delete button records the pending `{table, id}`, so the confirmation (`DeleteDialogVisible`, line 988) shows. Nothing else changes: no list and no table is touched. |
| `Admin.AdminSession.CancelDelete` | app/admin/page.tsx:1019 | "Annuler" and the backdrop of the confirmation clear the pending request and hide the confirmation. Nothing else changes. |
| `Admin.AdminSession.ConfirmDelete` | app/admin/page.tsx:152-168 | With nothing pending, nothing changes. Otherwise the pending request is cleared, and the confirmation hidden, on success and on failure. On success, the rows with that id leave that table and every other table is unchanged. |
| `Admin.AdminSession.BeginUpload` | app/admin/page.tsx:170-178 | With no file, nothing changes. Otherwise the uploading flag is raised, the object path is `project-previews/<name>.<extension>`, and the current draft is captured for the completion (line 190). |
| `Admin.AdminSession.FinishUpload` | app/admin/page.tsx:180-196 | After either outcome the uploading flag is false. On success, the object is in the bucket and only the draft's `image_url` changes, to the public URL. When the draft is still the one captured at file choice, this equals the completion as written. On failure, the draft and the bucket are unchanged. |
| `Admin.UploadedDraft` | app/admin/page.tsx:190 | The completion keeps a draft exactly when there was one. A project draft's `image_url` reads the public URL, and other kinds gain no image field. Every other field, the id, the kind and the order read as before. |
| `Admin.UploadedDraftAsWritten` | app/admin/page.tsx:190 | The completion as written gives the intended completion of the draft captured at file choice, whatever the current draft has become. |
| `Admin.StaleUploadRestoresOtherRecord` | app/admin/page.tsx:190 | After the modal is reopened on record `b` during an upload started on record `a`, the completion as written makes the draft carry `a`'s id, so the next save updates `a`'s row. The intended completion keeps `b`. |
| `Admin.StaleUploadDropsEdit` | app/admin/page.tsx:190 | A title typed while the upload runs is lost by the completion as written, and kept by `UploadedDraft`. |
| `TechStack.StatsShowCounts` | components/TechStackClient.tsx:19-32 | There are four tiles. The first reads back as `n+` for the number of technologies. The second counts the positions whose lowercased category contains "framework". The third counts those containing "language" or "langage". The last is the literal ∞. |
| `TechStack.CountBounds` | components/TechStackClient.tsx:21-30 | The framework and language counts are each at most n. A category mentioning both spellings is counted once: language count = #"language" + #"langage" − #both. |
| `TechStack.LanguageOverlap` | components/TechStackClient.tsx:26-30 | The inclusion–exclusion identity between the two spellings holds over any list. |
| `TechStack.FilterCountsPositions` | components/TechStackClient.tsx:21-30 | `filter(p).length` equals the number of positions whose element satisfies `p`. |
| `TechStack.Filter` | components/TechStackClient.tsx:22 | The filtered list is no longer than the input, and each element satisfies the test and comes from the input. |
| `TechStack.ReadCountOfDecimal` | components/TechStackClient.tsx:20 | The tile text `${n}+` reads back as `n`. |
| `TechStack.Marquee` | components/TechStackClient.tsx:82 | The marquee list has length 3·n, and element `i` is `technologies[i mod n]`. |
| `TechStack.RenderBranches` | components/TechStackClient.tsx:57-113 | The empty state is shown exactly when the list is empty. Otherwise both marquee rows cycle through the list three times and the first tile shows n. |
| `Contact.ContactForm.constructor` | components/ContactForm.tsx:9-15 | The form starts with four empty fields, status idle and no pending insert. |
| `Contact.With` | components/ContactForm.tsx:103-144 | A field edit makes that field read the typed value, and every other field reads as before. |
| `Contact.ContactForm.EditField` | components/ContactForm.tsx:103-144 | Typing changes exactly one of name, email, subject or message. The status and the stored messages are unchanged. |
| `Contact.ContactForm.Submit` | components/ContactForm.tsx:27-34 | A submit starts exactly when the button is enabled (`SubmitDisabled`, line 153). While loading, it changes nothing. Otherwise the status becomes loading, which disables the button and hides the overlay and the banner, and the insert of the current form is started, before any outcome is applied. |
| `Contact.ContactForm.InsertSettled` | components/ContactForm.tsx:36-56 | On success, the message is stored, the status becomes success and all four fields become `""`. On failure, the status becomes error and the form is kept. The success overlay (`SuccessModalShown`, line 168) shows exactly on success, and the error banner (`ErrorBannerShown`, line 195) exactly on failure. No insert is pending and the button is enabled afterwards. |
| `Contact.ContactForm.TimerFired` | components/ContactForm.tsx:50-55 | The 8000 ms (after success) or 5000 ms (after error) timer returns the status to idle, hiding the overlay and the banner. |
| `Contact.ContactForm.Close` | components/ContactForm.tsx:184 | The close button of the success overlay returns the status to idle. |
| `Contact.IsMobile` | components/ContactForm.tsx:20 | Holds iff width < 768 or one of iPhone, iPad, iPod, Android occurs in the user agent, ignoring ASCII case. |
| `Contact.IsMobileIgnoresCase` | components/ContactForm.tsx:20 | The test gives the same answer on a user agent and on its lowercased form. |
| `Text.Split` | app/admin/page.tsx:701 | `split(",")` gives one segment more than there are separators, and no segment contains the separator. |
| `Text.JoinSplit` | app/admin/page.tsx:701 | Joining the segments of a split with the separator gives back the text. |
| `Text.SplitJoin` | app/admin/page.tsx:697-701 | Splitting a join of separator-free segments gives back the segments. |
| `Text.Trim` | app/admin/page.tsx:701 | `trim` gives a string with no ECMAScript whitespace at either end. |
| `Text.TrimPadded` | app/admin/page.tsx:701 | `trim` removes any whitespace padding around a trimmed string. With `Trim`'s own contract, this fixes what `trim` returns. |
| `Text.ToLower` | components/TechStackClient.tsx:22 | `toLowerCase` keeps the length and leaves no ASCII capital. Each capital becomes the letter 32 code points above it, and every other character is unchanged. |
| `Text.ContainsIgnoringCase` | components/TechStackClient.tsx:22 | `toLowerCase().includes(p)` holds iff `p` matches some window of the text, ignoring ASCII case. |
| `Text.Decimal` | components/TechStackClient.tsx:20 | The rendering of a count is a non-empty run of digits with no leading zero. |
| `Text.ParseDecimalOfDecimal` | components/TechStackClient.tsx:20 | The decimal rendering of a count reads back as that count. |

## Left out

- Rendering is not modelled: JSX, Tailwind classes, framer-motion animation and icons. Only the visibility guards are kept, as predicates: `ModalVisible`, `DeleteDialogVisible`, `SuccessModalShown`, `ErrorBannerShown`, `SubmitDisabled`.
- The hosted backend's client library is not modelled: select, insert, update, delete, storage upload, `getPublicUrl` and auth. It is replaced by the in-memory store. Its outcomes, the id it assigns on insert and the public URL are parameters.
- A list query's answer is a parameter that must be the stored rows, sorted by `order_index` (or by `created_at` descending for messages). The backend's sort is not modelled.
- The random file name (`Math.random()`) is a parameter.
- `Date`/`toLocaleString` formatting is not modelled.
- Async interleaving is not modelled: a second submit racing the first, and the `loading` flag. Each event is atomic. Overlapping uploads cannot arise: the file input is disabled while one runs (app/admin/page.tsx:790), which `BeginUpload`'s precondition models. The reload the `useEffect` runs on a tab change (app/admin/page.tsx:92-96) and the `loadData()` that a successful save or delete calls directly (app/admin/page.tsx:213, 162) are not part of those events. They are a separate `Load` event.
- `Admin.AdminSession.Save`, `Admin.AdminSession.ConfirmDelete`: no listed row changes. The listed rows stay stale until a separate `Load`, which the page issues straight after the write. `Admin.ReloadShowsWrites` states what that reload shows.
- `Admin.AdminSession.FinishUpload`: the class applies the corrected completion (`UploadedDraft`, on the current draft). It agrees with the source's completion only while the current draft is still the one captured at file choice. Otherwise the source puts the captured draft back: typed edits are dropped, a modal reopened on another record gets the first record back, and a draft cleared by a save returns (see Findings).
- The failure alerts of the admin page (app/admin/page.tsx:165, 193, 216) are not modelled. A failed call is the `ok = false` outcome, which leaves the state as described for each event.
- `Contact.ContactForm.Submit`: accepts any form. The browser's `required` and `type="email"` validation (components/ContactForm.tsx:101, 113-114, 129, 142) keeps `handleSubmit` from running on an empty field or a malformed email, and is not modelled.
- `Contact.ContactForm.TimerFired` requires the status not to be loading. The source's timer fires unconditionally, so a stale timer can reset a newer submission's loading status; that race is not modelled.
- The auth redirect and the sign-out button of the admin page are not modelled, nor are `app/login/page.tsx`, `components/TechStack.tsx`, `components/AnalyticsTracker.tsx` and the static presentational components. They are routing and environment glue around foreign calls.
- ContactForm's resize listener is not modelled. `IsMobile` is the predicate it re-evaluates.
- `toLowerCase` and the `/i` flag cover ASCII only. Unicode case mapping is not modelled.
- `Admin.AdminSession.Load` does not model the backend's own failure modes. A query that returns no data is `ok = false`, and then the list becomes `[]`, as the source's `data || []` does. Load failures and empty tables are indistinguishable, as in the source.
- `Admin.ReloadShowsWrites`, `Admin.AdminSession.Save`: an id-less draft in edit mode updates no row. The source sends `eq("id", undefined)` in that case, and what the backend does with it is not modelled.

## Findings

| source | as written | input that shows it | evidently intended | confidence | as-written member | corrected member |
|---|---|---|---|---|---|---|
| app/admin/page.tsx:190 | When the storage call settles, the upload handler spreads the draft it captured when the file was chosen (`{ ...editingItem, image_url }`). So any field typed while the upload ran is overwritten. | Choose a file on a new project, type the title "Portfolio" before the upload settles, and let it succeed: the title is back to `""`. Or edit record `a`, choose a file, close the modal and open record `b` before the upload settles: the modal now holds `a` with the new image, and "Sauvegarder" updates `a`'s row (lines 205-208). | Only `image_url` of the current draft changes. | medium, not executed | `Admin.StaleUploadDropsEdit`, `Admin.StaleUploadRestoresOtherRecord` (on `Admin.UploadedDraftAsWritten`) | `Admin.UploadedDraft`, which `Admin.AdminSession.FinishUpload` uses |
