# GigForge marketplace core, modelled in Dafny

GigForge is a single-page internal marketplace: employees post small projects, browse and filter them, place bids in Bravo Points, and generate handover documents. This project models the logic underneath the screens, with proofs about that model:

- the application store (`App`): the current view, the project list and the selected project, and the four handlers that change them. It includes the rule that the main area renders the detail screen only when a project is selected.
- the listing (`Dashboard`): the case-insensitive search and department filter, the department menu, and the alert-tag subscriptions.
- the creation form (`CreateProject`): the debounced duplicate check as an event machine (edit, timer fire, check resolves), the feedback panel, the submit gate and the draft the form submits.
- the detail page (`ProjectDetail`): building and reporting a bid, and the handover-document generator (request, resolve, reset).

The files are `Types.dfy` (module `GigTypes`, the entities of `types.ts`), `Sequences.dfy` (no-duplicates and subsequence), `App.dfy`, `Dashboard.dfy`, `CreateProject.dfy` and `ProjectDetail.dfy`.

Modelling decisions:

- **Dates, ids and services.** Dates are integer timestamps. Ids built from the clock are method parameters: the new project's id in `App.AppState.CreateProject`, and the bid's id and time in `ProjectDetail.ProjectDetailView.SubmitBid`. Nothing guarantees that such an id is fresh, so freshness is a hypothesis: `IdFresh` in the lemma `PrependKeepsInvariant` and in the method's conditional postcondition.
- **External services.** The duplicate-check and document services do not appear. The form's `Fire` and the page's `GenerateDocs` return the request they would send. The answer comes back as the argument of `Resolve` or `DocsGenerated`, so any answer is allowed.
- **The debounce.** A timer is named by the number it was scheduled under. Only the timer in `pendingTimer` can take effect: firing any other timer changes nothing, which is how "a cleared timer never fires" shows up in the model. React also runs the effect once after mounting, so a new form already has timer 0 pending. The effect re-runs only when one of its inputs changes value. So an edit that leaves the text the same does not restart the timer.
- **`Partial<Project>`.** This is `ProjectDraft`, whose fields are all optional. `handleCreateProject` casts the spread draft to `Project`. The model takes that cast to require every field except `id`, `skills` and `requesterName` (`App.Castable`). The form never sets `requesterName`, so projects created in the app have no requester. The model gives them the empty name, which renders the same as an absent one.
- **Strings.** A string is a sequence of Unicode characters. `length` counts UTF-16 code units, so the model counts them explicitly (`CreateProject.Utf16Length`): two for a character outside the Basic Multilingual Plane, one otherwise. `includes` is "occurs at some offset". On strings of whole characters, a search by code units is the same as a search by characters. `toLowerCase` is modelled as ASCII folding (`Dashboard.Lower`).
- **Browser form checks.** Both forms are submitted through the browser, which refuses a submission before the handler runs. The creation form needs a title and a description (`required`) and an offer of at least 50 in steps of 50 (`min`, `step`), and a disabled submit button submits nothing (`CreateProject.CreateProjectForm.Submit`). The bid form needs a comment, and it can be submitted only while it is open (`ProjectDetail.ProjectDetailView.SubmitBid`). `required` refuses only an empty value, so a comment of spaces goes through.
- **The selection invariant.** The store keeps the selection equal to its list entry (`App.Mirrors`): the selection is listed, and every listed project with its id equals it. `handlePlaceBid` keeps this even when ids repeat (`App.AddBidKeepsMirror` assumes only the mirror), because it applies the same update to the selection and to every entry with that id. Unique ids (`App.UniqueIds`) are a separate invariant (`App.AddBidKeepsUniqueIds`). The detail page is re-rendered with the updated selection, so its `project` follows the store.

## Model

| member | source | states |
|---|---|---|
| `App.ScreenFor` | App.tsx:64-91 | the view-to-screen mapping of the main area: home, listing and creation screens for their views; the detail screen for the detail view only with a selection, and nothing without one |
| `App.DetailScreenGuard` | App.tsx:84-91 | the detail screen is rendered exactly when the view is the detail view and a project is selected, and it shows that project; the detail view with no selection renders nothing |
| `App.NewProject` | App.tsx:30-35 | the record `handleCreateProject` builds: the draft's fields, the generated id, the draft's skills or an empty list |
| `App.NewProjectIdAndSkills` | App.tsx:31-35 | the new record's id is the generated one whatever id the draft carried; its skills are the draft's skills, or empty when the draft has none |
| `App.SubmittedFormProject` | components/CreateProject.tsx:42-55 | a submitted form becomes an open project with the form's title, description, department and points, no skills, no bids, the generated id and no requester name |
| `App.PrependKeepsInvariant` | App.tsx:37 | prepending a project whose id is fresh keeps ids unique and keeps a mirrored selection mirrored |
| `App.WithBid` | App.tsx:42-47 | one entry of the mapped list: the bid appended when the id matches, the entry itself otherwise |
| `App.AddBid` | App.tsx:42-47 | the mapped list: `WithBid` on every entry, in order |
| `App.AddBidPointwise` | App.tsx:42-47 | placing a bid keeps the list's length and order; every project with the id gets exactly that bid appended, and every other project is unchanged |
| `App.AddBidNoMatch` | App.tsx:42-47 | a bid for an id no project has leaves the list as it was |
| `App.SelectionAfterBid` | App.tsx:50-53 | a selection with the bid's id gets the bid appended; any other selection, or none, is unchanged |
| `App.AddBidKeepsUniqueIds` | App.tsx:42-47 | a bid changes no id, so unique ids stay unique |
| `App.AddBidKeepsMirror` | App.tsx:42-53 | after a bid the updated selection still equals every list entry with its id, whether or not ids repeat |
| `App.AppState.constructor` | App.tsx:13-15 | the app starts on the home view with the initial list and no selection |
| `App.AppState.Navigate` | App.tsx:18-23 | sets the view; drops the selection exactly when the target is not the detail view and keeps it otherwise; the list is unchanged; afterwards no stale detail screen can render |
| `App.AppState.ProjectClick` | App.tsx:25-28 | selects the project and switches to the detail view, which then shows it; the list is unchanged; clicking a listed project keeps the invariant |
| `App.AppState.CreateProject` | App.tsx:30-39 | the new list is the new record followed by exactly the old list; the view becomes the listing; the selection is unchanged; with a fresh id the invariant is kept |
| `App.AppState.PlaceBid` | App.tsx:41-54 | same length and order; matching projects get the bid appended and others are unchanged; no match leaves the list as it was; a selection with that id gets the bid too, and any other selection is unchanged; unique ids and the mirror are each kept |
| `App.SubmitBidFromDetail` | components/ProjectDetail.tsx:25-37 | on the detail page of the selection, a refused form changes nothing; a bid that goes out is built from the user and the form, lands once in the selection and in each list entry with its id, leaves all other entries unchanged, and the page then shows the updated selection, ready for the next bid |
| `App.BidTwiceFromDetail` | App.tsx:84-91 | two bids placed one after the other from the same page, with a comment and the form reopened in between, both go out and end in the selection in order |
| `Dashboard.Lower` | components/Dashboard.tsx:21-22 | lowercasing keeps the length and leaves no capital letter; each capital becomes its own small letter, and every other character stays where it was |
| `Dashboard.LowerIdempotent` | components/Dashboard.tsx:21-22 | lowercasing twice is lowercasing once, and a string with no capital is its own lowercase |
| `Dashboard.SameIgnoringCase` | components/Dashboard.tsx:21-22 | two strings of the same length that differ at most in the case of their ASCII letters, defined without lowercasing |
| `Dashboard.LowerEqualIffSameIgnoringCase` | components/Dashboard.tsx:21-22 | two strings lowercase to the same string exactly when they differ only in case |
| `Dashboard.MatchesSearchIgnoresCase` | components/Dashboard.tsx:21-22 | changing the case of letters in the term, the title or the description does not change whether a project matches the search |
| `Dashboard.Includes` | components/Dashboard.tsx:21-22 | `includes`: the needle occurs in the haystack at some offset |
| `Dashboard.MatchesSearch` | components/Dashboard.tsx:21-22 | the lowercased term occurs in the lowercased title or description |
| `Dashboard.MatchesDept` | components/Dashboard.tsx:23 | the filter is "All" or names the project's department |
| `Dashboard.Keeps` | components/Dashboard.tsx:24 | a project passes when it matches both the search and the department |
| `Dashboard.FilterProjects` | components/Dashboard.tsx:20-25 | every shown project passes the search and the department test, and no more projects are shown than listed |
| `Dashboard.FilterIsSubsequence` | components/Dashboard.tsx:20-25 | the shown projects are a subsequence of the list, in the list's order |
| `Dashboard.FilterMembership` | components/Dashboard.tsx:21-24 | a project is shown if and only if it is listed, its lowercased title or description contains the lowercased term, and the filter is "All" or names its department |
| `Dashboard.FilterKeepsAll` | components/Dashboard.tsx:20-25 | when every listed project passes, the whole list is shown unchanged |
| `Dashboard.FilterInitialShowsAll` | components/Dashboard.tsx:13-14 | with the initial empty search term and "All", the whole list is shown |
| `Dashboard.FilterCount` | components/Dashboard.tsx:20-25 | each project is shown as many times as it is listed when it passes, and not at all otherwise |
| `Dashboard.FilterIdempotent` | components/Dashboard.tsx:20-25 | filtering the shown list again with the same term and department gives the same list |
| `Dashboard.Dedup` | components/Dashboard.tsx:27 | `Array.from(new Set(...))`: each element at its first occurrence, in input order |
| `Dashboard.DedupMembership` | components/Dashboard.tsx:27 | de-duplication keeps exactly the elements of its input |
| `Dashboard.DedupNoDup` | components/Dashboard.tsx:27 | de-duplication leaves no element twice |
| `Dashboard.DedupFirstOccurrenceOrder` | components/Dashboard.tsx:27 | de-duplicated elements come in the order of their first occurrences in the input |
| `Dashboard.FirstIndex` | components/Dashboard.tsx:27 | the index returned holds the element, and the element does not occur before it |
| `Dashboard.Departments` | components/Dashboard.tsx:27 | the department menu is never empty and starts with "All" |
| `Dashboard.DepartmentsMenu` | components/Dashboard.tsx:27 | after "All", the menu names each project's department exactly once, names nothing else, and keeps first-occurrence order |
| `Dashboard.RemoveAll` | components/Dashboard.tsx:31 | the list without every occurrence of the tag, in order |
| `Dashboard.Toggled` | components/Dashboard.tsx:29-35 | the subscription list after a toggle: without the tag when it was subscribed, with it appended otherwise |
| `Dashboard.RemoveAllMembership` | components/Dashboard.tsx:31 | removing a tag keeps exactly the other tags |
| `Dashboard.RemoveAllAppended` | components/Dashboard.tsx:31-33 | removing a tag that was just appended to a list without it gives back the list |
| `Dashboard.ToggleFlips` | components/Dashboard.tsx:29-35 | toggling flips whether the tag is subscribed and leaves every other tag's membership unchanged |
| `Dashboard.ToggleKeepsNoDup` | components/Dashboard.tsx:29-35 | toggling keeps a duplicate-free subscription list duplicate-free |
| `Dashboard.ToggleTwiceAbsent` | components/Dashboard.tsx:29-35 | subscribing to a new tag and then toggling it again restores the original list |
| `Dashboard.ToggleTwicePresent` | components/Dashboard.tsx:29-35 | unsubscribing and then resubscribing moves the tag to the end of the list |
| `Dashboard.DashboardState.constructor` | components/Dashboard.tsx:13-18 | the listing starts with an empty search term, filter "All" and the subscription ["Python"], and then shows every project |
| `Dashboard.DashboardState.SetSearchTerm` | components/Dashboard.tsx:69 | the search input sets the term |
| `Dashboard.DashboardState.SetFilterDept` | components/Dashboard.tsx:77 | the department menu sets the filter |
| `Dashboard.DashboardState.ToggleTag` | components/Dashboard.tsx:29-35 | a subscribed tag has every occurrence removed and an unsubscribed tag is appended; the flip, the other tags and freedom from duplicates are as in the lemmas |
| `CreateProject.Utf16Length` | components/CreateProject.tsx:27 | a string's `length` lies between its number of characters and twice that, and equals the number of characters when all lie in the Basic Multilingual Plane |
| `CreateProject.Utf16LengthAppend` | components/CreateProject.tsx:27 | the length of a concatenation is the sum of the lengths |
| `CreateProject.WorthChecking` | components/CreateProject.tsx:27 | a title longer than 5 and a description longer than 10, in UTF-16 code units |
| `CreateProject.AstralTitleWorthChecking` | components/CreateProject.tsx:27 | three emoji make a title of length six, long enough to check, while a three-letter title is not |
| `CreateProject.Panels` | components/CreateProject.tsx:125-169 | the panels whose render conditions hold, each tested on its own |
| `CreateProject.ExactlyOnePanel` | components/CreateProject.tsx:125-169 | exactly one of the checking, unique, duplicate and idle panels shows whenever a finished check always has a result |
| `CreateProject.SubmitDisabled` | components/CreateProject.tsx:183 | submit is disabled while checking or when the last result is a duplicate |
| `CreateProject.SubmitDisabledIffBlockingPanel` | components/CreateProject.tsx:183 | when the result and the checked flag go together, submit is disabled exactly while the checking or the duplicate panel shows |
| `CreateProject.SubmittedDraft` | components/CreateProject.tsx:42-55 | the draft `handleSubmit` hands up: the form's title, description, department and points, no skills, open, no bids, the posting date |
| `CreateProject.ConstraintsHold` | components/CreateProject.tsx:72-111 | the browser's checks: a title and a description, and an offer of at least 50 in steps of 50 from 50 |
| `CreateProject.CreateProjectForm.constructor` | components/CreateProject.tsx:14-22 | empty title and description, the first department, 100 points, no result, not checking and not checked; the mount-time timer is pending; the idle panel shows and submit is enabled |
| `CreateProject.CreateProjectForm.Reschedule` | components/CreateProject.tsx:37-39 | the pending timer is cleared and a new one with a new number is scheduled, so at most one timer is pending |
| `CreateProject.CreateProjectForm.SetTitle` | components/CreateProject.tsx:25-40 | sets the title; a changed title clears the pending timer and schedules a new one; an unchanged title leaves the timers alone |
| `CreateProject.CreateProjectForm.SetDescription` | components/CreateProject.tsx:25-40 | the same for the description |
| `CreateProject.CreateProjectForm.SetExistingProjects` | components/CreateProject.tsx:25-40 | the same for the project list the form checks against |
| `CreateProject.CreateProjectForm.SetDepartment` | components/CreateProject.tsx:87 | the department menu sets the department |
| `CreateProject.CreateProjectForm.SetPoints` | components/CreateProject.tsx:102 | the points input sets the points |
| `CreateProject.CreateProjectForm.Fire` | components/CreateProject.tsx:26-37 | a timer that is not pending changes nothing; the pending timer issues a check of the current title, description and list, and sets the checking flag, when the title is longer than 5 and the description longer than 10, in UTF-16 code units; otherwise it clears the result and the checked flag and issues nothing; the result-and-checked invariant holds throughout |
| `CreateProject.CreateProjectForm.Resolve` | components/CreateProject.tsx:28-32 | a resolved check stores the result, sets the checked flag and clears the checking flag; then the unique or duplicate panel shows, and submit is disabled exactly for a duplicate |
| `CreateProject.CreateProjectForm.Submit` | components/CreateProject.tsx:42-183 | a draft goes up exactly when the submit button is enabled and the browser's checks pass, and it is the form's draft; a submitted draft has a title and an offer of at least 50 |
| `ProjectDetail.CodeContext` | components/ProjectDetail.tsx:42 | the context sent is the pasted snippet when there is one and the fixed placeholder otherwise, so it is never empty |
| `ProjectDetail.ProjectDetailView.constructor` | components/ProjectDetail.tsx:14-23 | the bid amount starts at the project's offered points with an empty comment; both sub-forms are closed; there is no document and nothing pending |
| `ProjectDetail.ProjectDetailView.GenerateDisabled` | components/ProjectDetail.tsx:162 | the generate button is disabled while a request is pending or no repository URL is given |
| `ProjectDetail.ProjectDetailView.GenerateButtonShown` | components/ProjectDetail.tsx:139-162 | the generate button is on screen while the handover form is open and no document is shown |
| `ProjectDetail.ProjectDetailView.OpenBidForm` | components/ProjectDetail.tsx:236 | "Place a Bid" opens the bid form |
| `ProjectDetail.ProjectDetailView.CancelBidForm` | components/ProjectDetail.tsx:270 | "Cancel" closes the bid form |
| `ProjectDetail.ProjectDetailView.SetBidAmount` | components/ProjectDetail.tsx:251 | the points input sets the bid amount |
| `ProjectDetail.ProjectDetailView.SetBidComment` | components/ProjectDetail.tsx:262 | the comment box sets the comment |
| `ProjectDetail.ProjectDetailView.SubmitBid` | components/ProjectDetail.tsx:25-37 | a report goes up exactly when the form is open and has a comment, and nothing changes otherwise; it is one report for this project, of a bid with the given id and time, the current user's id and name, the form's amount and comment, and the bid form closes |
| `ProjectDetail.ProjectDetailView.ReceiveProject` | App.tsx:84-86 | the page takes the project the store passes it, keeping its own state |
| `ProjectDetail.ProjectDetailView.OpenHandover` | components/ProjectDetail.tsx:102 | "Start Handover Process" opens the handover form |
| `ProjectDetail.ProjectDetailView.SetRepoUrl` | components/ProjectDetail.tsx:120 | the URL input sets the repository URL |
| `ProjectDetail.ProjectDetailView.SetSolutionCode` | components/ProjectDetail.tsx:135 | the snippet box sets the code snippet |
| `ProjectDetail.ProjectDetailView.GenerateDocs` | components/ProjectDetail.tsx:39-42 | with an empty repository URL nothing changes and nothing is sent; otherwise generation is pending and the request carries the project title, the URL and the code context |
| `ProjectDetail.ProjectDetailView.ClickGenerate` | components/ProjectDetail.tsx:139-178 | the button sends a request exactly when it is shown (handover open, no document) and enabled (nothing pending, URL present), so only one request is ever pending; the request carries the project title, the URL and the code context |
| `ProjectDetail.ProjectDetailView.DocsGenerated` | components/ProjectDetail.tsx:43-44 | the resolved text becomes the document and generation is no longer pending; a non-empty document hides the generate button |
| `ProjectDetail.ProjectDetailView.ResetDocs` | components/ProjectDetail.tsx:152 | reset discards the document, which brings the generate button back while the handover form is open |

## Left out

- All rendering, styling, icons and animations, including the Home page and its FAQ toggle, and the navigation bar that only forwards navigation requests and highlights the current view.
- The duplicate-check and document services in services/geminiService.ts. They are replaced by the request the model returns and the answer passed to `Resolve` or `DocsGenerated`. Any answer is allowed, and the canned text plays no part.
- Real timers, promises and interleavings. Edits, timer fires and check results are discrete events. The 1500 ms delay plays no part: only the order of events matters.
- CreateProject.CreateProjectForm.Resolve: requires a check in flight, and one flag stands for all checks in flight. The source never cancels a running check, so checks can overlap when an edit settles while an earlier check is still out. The model then accepts only the first answer to arrive and has no step for the others. The source stores every answer, so the last one to arrive wins. Neither the source nor the model tells a stale answer from a current one: an answer that arrives after the form has changed, even below the length gate, is stored in both.
- CreateProject.CreateProjectForm.SetExistingProjects: React compares the project list by reference. The model compares it by value, so a new list with the same contents does not restart the timer.
- Points come from `Number(...)` on the input text, which can yield NaN or fractions. The model takes points as integers.
- `toLowerCase` follows Unicode case mapping. The model folds only ASCII letters.
- Clock access (`Date.now()`, `new Date()`). The model takes the values as parameters.
- JavaScript strings may hold unpaired surrogates. The model's strings hold whole characters only.
- The messages the browser shows for a refused form.
- The open and close state of the alert modal, and the list of tags it offers (constants only). The fixture data of constants.ts is left out too, except the department list. The build configuration in vite.config.ts is not part of this model.
