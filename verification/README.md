# Portfolio site: client-side rules, modelled in Dafny

This project models the client-side logic of a personal data-analysis
portfolio site. The site has four parts:

- a landing page whose search box filters the project list;
- a password-gated dashboard that adds and deletes projects in memory;
- editors for a user's experience and education entries and for project screenshots;
- upload widgets that store files in a hosted storage service.

Everything the site delegates to its hosted backend is an input to the
model: the rows a query returns, an insert's stored record, a storage
upload's outcome, and the public URL of a stored object. Each of these is a
record or an error. `Date.now()` is a `nat` parameter, and the signed-in user
is an `Option<User>`. The site's handlers run one at a time, so each is a pure
state-transition function.

String handling is modelled over ASCII only. `toLowerCase` changes just
`A`–`Z`. `trim` removes space, tab, line feed, vertical tab, form feed and
carriage return.

Modules, one per source file, plus three shared ones:

- `Common`: `Option`, `Result`, the `Outcome` of a state change, `User`.
- `Text`: lower-casing, trimming, substring search, `split(sep).pop()`, `join`, decimal rendering.
- `Lists`: `filter`, replace-by-predicate `map`, index removal, subsequence.
- `Projects`: the project record and the six fixture projects.
- `Pagination`: the page-number strip (`src/components/ProjectPagination.tsx`).
- `Search`: the landing page's search (`src/pages/Index.tsx`).
- `ProjectForm`: the project upload form (`src/components/ProjectUploadForm.tsx`).
- `Dashboard`: login, upload, delete and table figures (`src/pages/Dashboard.tsx`).
- `Storage`: object keys for upload and deletion (`src/hooks/useFileUpload.tsx`).
- `Screenshots`, `ScreenshotManager`: the screenshot hook and panel.
- `OwnedRecords`: the list logic that `useExperiences` and `useEducations` share, instantiated by `Experiences` and `Educations`.
- `ExperienceForm`, `EducationForm`: the entry forms.
- `FileUploadForm`, `BubbleFilter`, `FilterDropdown`: the small UI state machines.

## Model

| member | source | states |
|---|---|---|
| Pagination.Range | src/components/ProjectPagination.tsx:31-33 | the loop pushes exactly the consecutive pages from the low to the high end of the window, none when the window is empty |
| Pagination.Render | src/components/ProjectPagination.tsx:24-52 | nothing is rendered iff totalPages ≤ 1; otherwise the strip has at least two entries, begins with page 1 and ends with page totalPages |
| Pagination.NumbersIncrease | src/components/ProjectPagination.tsx:31-47 | for every currentPage, the page numbers in the strip strictly increase, so no page is listed twice |
| Pagination.ListedPages | src/components/ProjectPagination.tsx:27-47 | a page is listed iff it is 1, totalPages, or inside [max(2,c-2) .. min(T-1,c+2)] |
| Pagination.StripBounded | src/components/ProjectPagination.tsx:27-47 | the inner window holds at most 5 pages and the strip at most 9 entries |
| Pagination.LinksInRange | src/components/ProjectPagination.tsx:31-47 | every page link of the strip requests a page in [1, totalPages], for any currentPage |
| Pagination.EllipsisPlacement | src/components/ProjectPagination.tsx:35-47 | for 1 ≤ c ≤ T, the second entry is '...' iff c-2 > 2, and the second-to-last is '...' iff c+2 < T-1 |
| Pagination.GapsAreMarked | src/components/ProjectPagination.tsx:31-47 | for 1 ≤ c ≤ T, the current page is listed; adjacent links are consecutive pages; every '...' sits between two links that skip at least one page |
| Pagination.CurrentListed | src/components/ProjectPagination.tsx:31-47 | for 1 ≤ c ≤ T, page c is a link of the strip |
| Pagination.LinksConsecutive | src/components/ProjectPagination.tsx:31-47 | for 1 ≤ c ≤ T, two adjacent links are consecutive pages |
| Pagination.EllipsesBetween | src/components/ProjectPagination.tsx:35-47 | for 1 ≤ c ≤ T, each '...' sits between links that skip at least one page |
| Pagination.NavigationStaysInRange | src/components/ProjectPagination.tsx:59-90 | Previous requests c-1 only when c > 1, and Next requests c+1 only when c < T, so both stay in [1, T] |
| Pagination.OutOfRangeCurrentPage | src/components/ProjectPagination.tsx:31-47 | when currentPage is outside [1, T], the strip can show a '...' where no page is skipped (c = 10, T = 2) |
| Search.Search | src/pages/Index.tsx:14-18 | a project is kept iff the lowercased term occurs in its lowercased title, description or some tech entry |
| Search.HandleSearch | src/pages/Index.tsx:12-20 | the term is stored, and the shown list is an order-preserving subsequence of the full list |
| Search.EmptyTermMatches | src/pages/Index.tsx:15-17 | the empty term matches every project |
| Search.EmptySearchKeepsAll | src/pages/Index.tsx:9-18 | the empty term keeps every project, so the initial screen equals the result of searching for '' |
| Search.SearchRestartsFromFullList | src/pages/Index.tsx:12-20 | the result depends only on the term, not on what was shown before; every search leaves the screen consistent; repeating a search changes nothing |
| Search.CaseInsensitive | src/pages/Index.tsx:15-17 | two terms with the same lower-case form give the same result |
| Search.MatchesShorter | src/pages/Index.tsx:15-17 | a project that matches a term also matches every substring of that term |
| Search.LongerTermNarrows | src/pages/Index.tsx:14-18 | extending the term can only drop projects: the new result is the old result filtered again, and a subsequence of it |
| Search.PowFindsPowerBi | src/pages/Index.tsx:17 | 'pow' finds the fixture project whose stack lists 'Power BI' |
| ProjectForm.AddTechStackItem | src/components/ProjectUploadForm.tsx:29-34 | exactly one '' entry is appended after the existing entries, which are kept in order; other fields are unchanged |
| ProjectForm.RemoveTechStackItem | src/components/ProjectUploadForm.tsx:36-42 | exactly the entry at the index is removed and the others keep their order; an out-of-range index changes nothing; an emptied list becomes ['']; the list is never empty; other fields are unchanged |
| ProjectForm.UpdateTechStackItem | src/components/ProjectUploadForm.tsx:44-51 | only the entry at the index changes; length, other entries and other fields are unchanged |
| ProjectForm.CleanTechStack | src/components/ProjectUploadForm.tsx:24 | exactly the non-blank entries are kept, untrimmed and in their original order |
| ProjectForm.Submit | src/components/ProjectUploadForm.tsx:20-27 | the non-tech fields are submitted as entered; the stack is cleaned |
| ProjectForm.InitialFormShape | src/components/ProjectUploadForm.tsx:11-18 | the form starts with exactly one empty entry, shows no delete control, and would submit an empty stack |
| ProjectForm.AddThenRemove | src/components/ProjectUploadForm.tsx:29-42 | removing the entry just added restores the form |
| ProjectForm.UpdateThenRestore | src/components/ProjectUploadForm.tsx:44-51 | writing back an entry's old value undoes an update |
| ProjectForm.SubmitIgnoresAddedRow | src/components/ProjectUploadForm.tsx:22-34 | adding an empty row does not change what is submitted |
| ProjectForm.CleanIdempotent | src/components/ProjectUploadForm.tsx:24 | cleaning an already cleaned stack changes nothing |
| ProjectForm.CleanCount | src/components/ProjectUploadForm.tsx:24 | the submitted stack has as many entries as there are non-blank entries |
| ProjectForm.DeleteControlRemovesOne | src/components/ProjectUploadForm.tsx:150-157 | the delete control appears only while there are two or more rows, and a delete through it removes exactly one row |
| Dashboard.HandleLogin | src/pages/Dashboard.tsx:13-20 | login succeeds iff username = 'admin' and password = 'password123'; only success sets isAuthenticated; a failure changes nothing |
| Dashboard.HandleLogout | src/pages/Dashboard.tsx:22-24 | logout always signs out and changes nothing else |
| Dashboard.HandleProjectUpload | src/pages/Dashboard.tsx:26-33 | the new project is appended with id = previous length + 1 and the form closes; earlier projects are untouched |
| Dashboard.HandleDeleteProject | src/pages/Dashboard.tsx:35-37 | every project with the id is removed; the others are kept, in order, and the new length is the number of projects without the id |
| Lists.FilterUnique | src/pages/Dashboard.tsx:36 | a subsequence that keeps only wanted elements and has as many of them as the list holds is the filtered list itself, so a count of survivors pins the contents, duplicates included |
| Dashboard.TechCellOf | src/pages/Dashboard.tsx:121-132 | a row shows min(3, n) badges, which are the first tech entries in order, plus a +(n-3) badge iff n > 3 |
| Dashboard.LoginLogoutKeepProjects | src/pages/Dashboard.tsx:13-24 | from a signed-out state, only the fixed credentials sign in; logging out afterwards restores the state; projects are never touched |
| Dashboard.UploadThenDelete | src/pages/Dashboard.tsx:26-37 | deleting a just-uploaded project whose id was unused restores the list |
| Dashboard.IdReuseAfterDelete | src/pages/Dashboard.tsx:26-37 | ids are not kept unique: with unique ids and the last id equal to the length, deleting another project and then uploading hands out the last id again |
| Dashboard.TechnologiesUsedBounded | src/pages/Dashboard.tsx:79 | the number of distinct tech strings never exceeds the number of tech entries |
| Dashboard.TechCellCoversStack | src/pages/Dashboard.tsx:121-132 | the badges plus the hidden remainder make up the whole stack, and the +n count equals the hidden remainder's length |
| Storage.Extension | src/hooks/useFileUpload.tsx:15 | the extension contains no '.' |
| Storage.ExtensionIsLastPart | src/hooks/useFileUpload.tsx:15 | the extension is the whole name when it has no '.', otherwise the text after its last '.' |
| Storage.UploadKey | src/hooks/useFileUpload.tsx:16 | every upload key starts with userId + '/' |
| Storage.UploadKeyLayout | src/hooks/useFileUpload.tsx:16 | the key is userId/timestamp.ext, with folder/ inserted iff the folder is non-empty |
| Storage.UploadKeyExample | src/hooks/useFileUpload.tsx:15-16 | user u1, folder shots, time 7, file a.png give the key u1/shots/7.png |
| Storage.UploadFile | src/hooks/useFileUpload.tsx:10-35 | a signed-out user is rejected before anything starts and the uploading flag is untouched; otherwise the call returns the public URL of UploadKey or rethrows the storage error, and uploading ends false |
| Storage.DeletionKey | src/hooks/useFileUpload.tsx:39-40 | the deletion key is the non-empty text after the last '/' of the URL (the URL itself when it has none); 'Invalid file URL' is thrown when that text is empty |
| Storage.DeleteFile | src/hooks/useFileUpload.tsx:37-51 | an invalid URL throws without a request; otherwise removal of DeletionKey(url) is requested and its error rethrown |
| Storage.DeletionKeyMissesUploads | src/hooks/useFileUpload.tsx:16-44 | whatever URL an object is served under, the deletion key never equals its upload key |
| Storage.DeletionKeyExample | src/hooks/useFileUpload.tsx:39-40 | deleting a URL ending in u1/shots/7.png asks to remove 7.png |
| Storage.ObjectKey | src/hooks/useFileUpload.tsx:39-44 | corrected key extraction: the URL is the bucket's public prefix followed by the non-empty key |
| Storage.ObjectKeyRoundTrip | src/hooks/useFileUpload.tsx:16-44 | corrected: stripping the public prefix from an uploaded object's URL recovers exactly its upload key |
| Storage.DeleteObject | src/hooks/useFileUpload.tsx:37-51 | corrected delete: a removal is requested iff the URL is the public prefix followed by a non-empty key, the requested key is exactly that remainder, the storage error is rethrown, and any other URL throws 'Invalid file URL' without a request |
| Storage.UploadThenDeleteMisses | src/hooks/useFileUpload.tsx:10-51 | as written: deleting the URL that a successful upload returned never requests removal of the uploaded object's key |
| Storage.UploadThenDeleteObject | src/hooks/useFileUpload.tsx:10-51 | corrected: when public URLs are the prefix followed by the key, deleting the URL an upload returned requests removal of exactly the uploaded key and passes on the storage reply |
| Screenshots.MaxOrder | src/hooks/useProjectScreenshots.tsx:46 | the maximum display order is at least every order and is the order of some screenshot |
| Screenshots.NextDisplayOrder | src/hooks/useProjectScreenshots.tsx:46-54 | the new order is 0 for an empty list; otherwise it is one more than some existing order, and greater than every existing order |
| Screenshots.FetchScreenshots | src/hooks/useProjectScreenshots.tsx:20-40 | with no project id, or on a failed fetch, the list is kept; otherwise the returned rows (or none) replace it; loading ends false |
| Screenshots.AddScreenshot | src/hooks/useProjectScreenshots.tsx:42-66 | with no user it throws and the list is unchanged; with a user the backend reply is returned as is, a backend error leaves the list unchanged, and success appends the returned record |
| Screenshots.DeleteScreenshot | src/hooks/useProjectScreenshots.tsx:68-81 | on success exactly the screenshots with the id are removed, the rest keep their order, and the new length is the number without the id; on error nothing changes |
| Screenshots.UpdateScreenshotCaption | src/hooks/useProjectScreenshots.tsx:83-99 | on success each screenshot with the id is replaced by the returned record, with length and other entries unchanged; on error nothing changes |
| Screenshots.AddKeepsOrdersIncreasing | src/hooks/useProjectScreenshots.tsx:46-60 | if the backend stores the requested order, an add keeps display orders strictly increasing along the list |
| Screenshots.AddThenDelete | src/hooks/useProjectScreenshots.tsx:60-76 | deleting a just-added screenshot whose id was new restores the list |
| Screenshots.DeleteKeepsOrdersIncreasing | src/hooks/useProjectScreenshots.tsx:68-81 | a delete keeps display orders strictly increasing along the list |
| Screenshots.FetchReplacesList | src/hooks/useProjectScreenshots.tsx:20-66 | a successful fetch for a project makes the list the returned rows whatever it held before, fetching again changes nothing, and an add afterwards appends to those rows |
| Screenshots.UpdateKeepsIds | src/hooks/useProjectScreenshots.tsx:93 | a caption update that returns the same id leaves every position's id unchanged |
| ScreenshotManager.HandleCaptionEdit | src/components/ScreenshotManager.tsx:35-38 | editing sets the id to the screenshot's id and the text to its caption, or '' when it has none |
| ScreenshotManager.HandleCaptionCancel | src/components/ScreenshotManager.tsx:48-51 | cancel resets to (no id, '') |
| ScreenshotManager.HandleCaptionSave | src/components/ScreenshotManager.tsx:40-46 | with no id in edit nothing happens; otherwise an update of exactly that id with the current text is requested; the editor resets only if the update succeeds |
| ScreenshotManager.HandleDeleteScreenshot | src/components/ScreenshotManager.tsx:29-33 | a delete is requested iff the user confirms |
| ScreenshotManager.HandleScreenshotUpload | src/components/ScreenshotManager.tsx:17-27 | without a file nothing happens; with no user the upload throws and nothing else changes; a screenshot row is inserted iff the upload succeeds, for the URL of the key under screenshots/<projectId>, and a stored row is appended to the list; a storage error leaves the list alone; uploading ends false |
| ScreenshotManager.EditThenCancel | src/components/ScreenshotManager.tsx:35-51 | edit, type, then cancel returns the editor to idle |
| ScreenshotManager.EditTypeSave | src/components/ScreenshotManager.tsx:35-46 | edit, type, then a successful save requests exactly that id with the typed text, closes the editor and replaces that screenshot |
| ScreenshotManager.AtMostOneInEditMode | src/components/ScreenshotManager.tsx:86 | with unique ids, at most one screenshot is rendered in edit mode |
| ScreenshotManager.UploadGoesToProjectFolder | src/components/ScreenshotManager.tsx:22 | screenshot uploads are stored under <user>/screenshots/<projectId>/ |
| ScreenshotManager.DeleteTwiceIsOnce | src/components/ScreenshotManager.tsx:29-33 | confirming the same delete twice leaves the list as one delete does, and declining keeps the list |
| OwnedRecords.FetchOwnerId | src/hooks/useExperiences.tsx:24-28 | an explicit non-empty userId takes precedence over the signed-in user's id; no id results iff neither is a non-empty string |
| OwnedRecords.Fetch | src/hooks/useExperiences.tsx:21-42 | the rows are queried for the explicit non-empty userId if given, else the signed-in user's id, and no query is made iff neither exists; with no query the list becomes empty; a failed fetch keeps the list; otherwise the returned rows (or none) replace it; loading ends false |
| OwnedRecords.Add | src/hooks/useExperiences.tsx:44-54 | with no user it throws and the list is unchanged; with a user the backend reply is returned as is, an error leaves the list unchanged, and success prepends the returned record |
| OwnedRecords.Update | src/hooks/useExperiences.tsx:56-66 | on success entries with the id are replaced by the returned record, with length and other entries unchanged; on error nothing changes |
| OwnedRecords.Delete | src/hooks/useExperiences.tsx:68-75 | on success entries with the id are removed, the rest are kept in order, and the new length is the number without the id; on error nothing changes |
| OwnedRecords.AddThenDelete | src/hooks/useExperiences.tsx:52-74 | deleting the id of a just-added record whose id was new restores the list |
| OwnedRecords.UpdateKeepsIds | src/hooks/useExperiences.tsx:64 | an update whose reply keeps the id changes no entry's id |
| OwnedRecords.FetchThenAdd | src/hooks/useExperiences.tsx:21-54 | a successful fetch makes the list the returned rows whatever it held before, and an add afterwards puts the new record in front of them |
| Experiences.FetchExperiences | src/hooks/useExperiences.tsx:21-42 | the query goes to the explicit non-empty userId if given, else to the signed-in user, and none is made iff neither exists; with none the list becomes empty; a failed fetch keeps the list; otherwise the rows replace it; loading ends false |
| Experiences.AddExperience | src/hooks/useExperiences.tsx:44-54 | throws with no user; otherwise the backend reply is returned, an error leaves the list unchanged, and success prepends the returned record |
| Experiences.UpdateExperience | src/hooks/useExperiences.tsx:56-66 | replaces exactly the entries with the id; length kept; an error leaves the list unchanged |
| Experiences.DeleteExperience | src/hooks/useExperiences.tsx:68-75 | removes exactly the entries with the id, keeping the rest in order and leaving as many entries as lack the id; an error leaves the list unchanged |
| Educations.FetchEducations | src/hooks/useEducations.tsx:22-43 | the query goes to the explicit non-empty userId if given, else to the signed-in user, and none is made iff neither exists; with none the list becomes empty; a failed fetch keeps the list; otherwise the rows replace it; loading ends false |
| Educations.AddEducation | src/hooks/useEducations.tsx:45-55 | throws with no user; otherwise the backend reply is returned, an error leaves the list unchanged, and success prepends the returned record |
| Educations.UpdateEducation | src/hooks/useEducations.tsx:57-67 | replaces exactly the entries with the id; length kept; an error leaves the list unchanged |
| Educations.DeleteEducation | src/hooks/useEducations.tsx:69-76 | removes exactly the entries with the id, keeping the rest in order and leaving as many entries as lack the id; an error leaves the list unchanged |
| ExperienceForm.InitialState | src/components/ExperienceForm.tsx:11-17 | each field starts from initialData or '', a missing initialData gives all '', and there is no error |
| ExperienceForm.HandleSubmit | src/components/ExperienceForm.tsx:19-26 | rejected (error set, nothing saved) iff company, title or start date is empty; otherwise onSave gets exactly the fields and the state is unchanged |
| ExperienceForm.NullLikeEmpty | src/components/ExperienceForm.tsx:11 | a null initialData behaves like {} |
| ExperienceForm.OptionalFieldsIgnored | src/components/ExperienceForm.tsx:21 | end date and description never decide acceptance |
| ExperienceForm.WhitespaceAccepted | src/components/ExperienceForm.tsx:21 | only emptiness is tested: single-space required fields pass |
| ExperienceForm.EditUnchangedResubmits | src/components/ExperienceForm.tsx:11-25 | opening the form on a stored entry and saving unchanged hands back that entry's values |
| EducationForm.InitialState | src/components/EducationForm.tsx:11-18 | each field starts from initialData or '', a missing initialData gives all '', and there is no error |
| EducationForm.HandleSubmit | src/components/EducationForm.tsx:20-27 | rejected (error set, nothing saved) iff school, degree, field or start date is empty; otherwise onSave gets exactly the fields and the state is unchanged |
| EducationForm.NullLikeEmpty | src/components/EducationForm.tsx:11 | a null initialData behaves like {} |
| EducationForm.OptionalFieldsIgnored | src/components/EducationForm.tsx:22 | end date and description never decide acceptance |
| EducationForm.WhitespaceAccepted | src/components/EducationForm.tsx:22 | only emptiness is tested: single-space required fields pass |
| EducationForm.EditUnchangedResubmits | src/components/EducationForm.tsx:11-26 | opening the form on a stored entry and saving unchanged hands back that entry's values |
| FileUploadForm.HandleDrag | src/components/FileUploadForm.tsx:24-32 | dragenter and dragover set dragActive, dragleave clears it, and any other event leaves it |
| FileUploadForm.FirstFile | src/components/FileUploadForm.tsx:39-40 | the first file is taken, and nothing when there is none |
| FileUploadForm.Classify | src/components/FileUploadForm.tsx:47 | 'image' iff the MIME type starts with 'image/', otherwise 'file' |
| FileUploadForm.HandleFile | src/components/FileUploadForm.tsx:44-52 | the callback fires iff the upload succeeds, with the returned URL and the file's kind |
| FileUploadForm.HandleInputChange | src/components/FileUploadForm.tsx:54-58 | an empty selection does nothing; otherwise exactly the first selected file is handled |
| FileUploadForm.HandleDrop | src/components/FileUploadForm.tsx:34-42 | a drop always clears dragActive; an empty drop does nothing else; otherwise exactly the first dropped file is handled |
| FileUploadForm.OnlyFirstFileCounts | src/components/FileUploadForm.tsx:34-58 | a drop of several files acts exactly as a drop of the first file alone, and a selection acts as a drop of the same files |
| FileUploadForm.NoCallbackOnFailure | src/components/FileUploadForm.tsx:44-52 | a failed or signed-out upload never reaches the callback |
| FileUploadForm.ClassifyExamples | src/components/FileUploadForm.tsx:47 | image/png is an image; application/pdf and the bare word image are files |
| FileUploadForm.ClassifyImageSubtypes | src/components/FileUploadForm.tsx:47 | every 'image/' subtype is an image, and every type classed as an image is 'image/' followed by something |
| FileUploadForm.DragGesture | src/components/FileUploadForm.tsx:24-42 | enter then over lights the box, enter then leave dims it, an unrelated event leaves it, and a drop dims it |
| BubbleFilter.Label | src/components/BubbleFilter.tsx:18-21 | 'all' is labelled 'All'; every other category is its own label |
| BubbleFilter.Bubbles | src/components/BubbleFilter.tsx:43-64 | 'all' is never a bubble, every other category gets one, and a bubble is selected iff its category is in the selection |
| BubbleFilter.Dispatch | src/components/BubbleFilter.tsx:31-76 | both the All button and 'Clear all' clear the selection; a bubble or its cross toggles that bubble's category |
| BubbleFilter.BubbleOrder | src/components/BubbleFilter.tsx:43 | the bubbles follow the given category order |
| BubbleFilter.AllExcludesBubbles | src/components/BubbleFilter.tsx:34-50 | while All is highlighted no bubble is, and a selected bubble means All is not highlighted |
| BubbleFilter.SummaryListsLabels | src/components/BubbleFilter.tsx:68-71 | each selected category's label sits in the summary at its place in selection order, followed by ', ' unless it is the last, and the last label ends the summary |
| BubbleFilter.Summary | src/components/BubbleFilter.tsx:68-71 | the summary begins with the first selected label, and its length is the labels' lengths plus two per separator |
| BubbleFilter.BubbleClicksToggle | src/components/BubbleFilter.tsx:31-76 | a bubble and its cross toggle the same category, which is a listed one other than 'all', and the All button and 'Clear all' act alike |
| BubbleFilter.SummaryOfOne | src/components/BubbleFilter.tsx:71 | a one-category selection reads as that category's label |
| FilterDropdown.Label | src/components/FilterDropdown.tsx:18-21 | 'all' is labelled 'All Projects'; every other category is its own label |
| FilterDropdown.Handle | src/components/FilterDropdown.tsx:24-51 | the toggle flips isOpen and reports nothing; the backdrop and choosing close the menu; a category is reported only when one is chosen from the open menu, and it is exactly that category |
| FilterDropdown.Highlighted | src/components/FilterDropdown.tsx:53 | exactly the entries equal to selectedCategory are highlighted |
| FilterDropdown.OpenThenAct | src/components/FilterDropdown.tsx:16-51 | from the closed start, opening and choosing reports the choice and closes; opening and clicking the backdrop reports nothing and closes |
| FilterDropdown.ToggleTwice | src/components/FilterDropdown.tsx:26 | two presses of the toggle restore the menu |
| FilterDropdown.HighlightUnique | src/components/FilterDropdown.tsx:45-56 | with distinct categories at most one entry is highlighted, and one is iff the selection is among them |

## Left out

- Backend queries, inserts, updates, deletes, storage uploads and `getPublicUrl` are calls into the hosted service. Their results are inputs; server-side `.order(...)` sorting is the service's job.
- React scheduling (`useState`, `useEffect`, closures capturing stale state) is left out; every handler is a sequential state transition. The loading flags are modelled only as their final value.
- `console.error` logging and `confirm()` dialogs are left out; confirmation is a boolean input.
- ProjectForm.UpdateTechStackItem requires an index inside the list. The form calls it only with the index of a rendered row. An out-of-range JavaScript array write, which adds holes, is not modelled.
- Storage.UploadFile: the bucket name is not an argument. The storage reply and the `publicUrl` function stand for whichever bucket was addressed. FileUploadForm.HandleFile inherits this.
- The insert payloads (`{...exp, user_id}`, the screenshot row's project id and caption) are modelled only for screenshots (`Screenshots.InsertRow`). For experiences and educations only the returned record matters to the local list.
- Full Unicode case mapping and Unicode white space are left out. `Text.Lower` and `Text.Trim` act on ASCII only.
- `Projects.MockProjects` abridges the fixture descriptions and leaves the image and download URLs empty. No rule reads them beyond the search over descriptions.
- The category filtering, featured partition and page slicing described for the project discovery pipeline do not occur in these source files, so they are not modelled. `BubbleFilter` and `FilterDropdown` only display a selection held by their parent.
- Rendering, styling, animations, the splash screen, the contact button and the project detail page are presentation only.

## Findings

| source | as written | input that shows it | evidently intended | confidence | as-written member | corrected member |
|---|---|---|---|---|---|---|
| src/hooks/useFileUpload.tsx:39-44 | `deleteFile` asks storage to remove `url.split('/').pop()`, which is only the last path segment of the URL | user u1 uploads a.png into folder shots at time 7, so the object is stored as u1/shots/7.png; deleting its public URL asks to remove 7.png, a different object | remove the object the URL points to, i.e. its full key within the bucket (user/folder/timestamp.ext) | not executed; high (every upload key contains '/', a deletion key never does) | Storage.UploadThenDeleteMisses | Storage.UploadThenDeleteObject |
