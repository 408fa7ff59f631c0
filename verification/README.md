# cms-frontend, modelled in Dafny

A model of the ZAFIRI CMS dashboard, a React single-page app. It covers the
logic of:

- the authenticated fetch helper with its one-shot token refresh;
- the app shell's startup check, login and logout, and its route guard;
- the login form;
- the ten resource pages: News, Events, Publications, Services,
  Researches, Projects, Staff, Organization Structure, Gallery and Home
  management;
- the sidebar, header and settings reducers.

Each handler is a pure state-transition function. It takes the page state,
the browser storage and the outcome of every request it makes. It returns
the new state, the requests sent (verb, URL, body and, where the page sets
them, headers), whether the list is fetched again, and the alert or banner
shown. Nothing is sent over a network. An answer from the server, a
`confirm()` answer, `JSON.parse` and `JSON.stringify` are all parameters.

Shared modules:

- `JsStrings`: the string operations the pages use. These are
  `startsWith`, `endsWith`, ASCII `toLowerCase`, a one-character
  `replace`, `trim`, UTF-16 `length`, `split(sep)[0]`, `slice(0, n)` and
  decimal rendering of integers.
- `JsValues`: JavaScript values. Objects are ordered property lists, and the
  module defines truthiness, `||`, property reads with optional chaining,
  spread update and `String(v)`.
- `FormEncoding`: `FormData` and the three filtering policies the pages
  use.
- `Http`: requests and outcomes. An axios call either resolves with data
  or rejects; a `fetch` answers with a status and a body, or fails.
- `Dom`: input change events, previews and media sources.
- `Session`: `localStorage`, modelled as a map from keys to text.
- `Panel`: the list-and-form state machine shared by News, Publications,
  Services, Researches and Projects.

`SessionFlow` relates the modules to each other.

## Model

| member | source | states |
|---|---|---|
| Api.DefaultHeadersCarryToken | src/utils/api.js:7-17 | without caller headers a request carries `Bearer <access_token>` and a JSON content type |
| Api.RetryKeepsCallerHeaders | src/utils/api.js:9-26 | with caller headers, every dispatch (the retry included) carries exactly those headers, because `options` is spread last |
| Api.RefreshToken | src/utils/api.js:40-63 | no stored refresh token: false and no request; otherwise one POST; true exactly on an ok answer with a readable non-null body, when only `access_token` is written (to `data.access`); every failure leaves storage unchanged |
| Api.ApiRequest | src/utils/api.js:6-38 | a network failure or non-401 answer: one dispatch, no refresh, storage unchanged; on 401 one refresh; refreshed: exactly one retry with the newly stored token, whose answer is returned whatever its status; not refreshed: the three session keys removed, redirect to /login, the call throws |
| Api.OnlySessionKeysChange | src/utils/api.js:27-55 | no key outside access_token, refresh_token and userData is ever changed, so "authToken" survives |
| Api.NeverWritesRefreshOrProfile | src/utils/api.js:27-56 | a call never creates or alters refresh_token or userData |
| Api.RetryCarriesRefreshedToken | src/utils/api.js:19-26 | a refresh answering `{access: "tok2"}` makes the retry carry `Bearer tok2` |
| App.Startup | src/App.jsx:25-34 | authenticated iff both "authToken" and "userData" are stored non-empty, with the profile parsed from "userData"; loading ends |
| App.HandleLogin | src/App.jsx:36-43 | authenticated, and the profile's userId, username and email come from user_id, username and email |
| App.HandleLogout | src/App.jsx:45-53 | "authToken" and "userData" removed, every other key kept; signed out with a null profile |
| App.Route | src/App.jsx:56-216 | loading view iff loading; /login renders Login or redirects to /dashboard; each of the nine protected paths renders iff authenticated, else redirects to /login; `/` and unknown paths redirect to /dashboard or /login |
| App.GuardSeparatesLogin | src/App.jsx:70-216 | signed out, only the login page or a redirect to it is ever shown; signed in, never the login page |
| App.RedirectsSettle | src/App.jsx:70-216 | following any redirect lands on a rendered page |
| Login.ValidateForm | src/pages/Login/Login.jsx:36-51 | username error iff the username is blank after trim; password error iff its UTF-16 length is below 6; "required" for an empty password, otherwise the length message |
| Login.ValidIff | src/pages/Login/Login.jsx:49-50 | valid iff no messages, iff the username is not blank and the password has at least 6 code units |
| Login.BlankUsernameRefused | src/pages/Login/Login.jsx:39-41 | a whitespace-only username is refused; a good pair is accepted |
| Login.HandleChange | src/pages/Login/Login.jsx:17-34 | only the edited credential changes; its own error is blanked, other errors are kept; the banner is cleared |
| Login.HandleSubmit | src/pages/Login/Login.jsx:53-104 | invalid: messages and nothing sent; valid: one JSON POST of the credentials to the login endpoint; storage written only on an ok answer, then exactly "authToken" (= String(data.token)) and "userData", followed by onLogin and navigation to /dashboard; an ok answer with a non-null body logs in with exactly that body; a refusal shows `data.error` or the default; a network failure, an unreadable body or a null one shows the network message and logs nobody in |
| Home.GetAuthHeaders | src/pages/HomeManagement/HomeManagement.jsx:8-11 | `access_token` first, then "authToken"; no header iff neither is stored |
| Home.GetFileUrl | src/pages/HomeManagement/HomeManagement.jsx:51-74 | null for falsy values; an object URL for a file; `{url}`: the URL if it starts with "http", else host + url with no "/" added; strings that are http(s) URLs are kept; a TypeError for a truthy non-string url; null exactly for falsy values, objects with a falsy url, and booleans, numbers and arrays |
| Home.FileUrlJoinsOnce | src/pages/HomeManagement/HomeManagement.jsx:65-71 | a relative path becomes host + "/" + the path without its leading "/" |
| Home.FileUrlIdempotent | src/pages/HomeManagement/HomeManagement.jsx:65-71 | every resolved string path resolves to itself again |
| Home.ObjectUrlGluesWithoutSlash | src/pages/HomeManagement/HomeManagement.jsx:60-71 | the same relative path gives different URLs as `{url}` and as a string |
| Home.IsVideoFile | src/pages/HomeManagement/HomeManagement.jsx:76-79 | false for falsy input; for text, whether the part before "?" ends in a video extension, ignoring case; a TypeError for other values |
| Home.QueryIgnored | src/pages/HomeManagement/HomeManagement.jsx:78 | a query string never changes the verdict |
| Home.VideoNameIgnoresCase | src/pages/HomeManagement/HomeManagement.jsx:78 | a name and its lower-cased form get the same verdict |
| Home.FetchData | src/pages/HomeManagement/HomeManagement.jsx:82-113 | six GETs; if all succeed each list becomes `data \|\| []`, otherwise nothing changes |
| Home.FetchAllOrNothing | src/pages/HomeManagement/HomeManagement.jsx:85-108 | one failed section keeps every list, even those whose fetch succeeded |
| Home.HandleSave | src/pages/HomeManagement/HomeManagement.jsx:121-180 | body encoded by the typed policy; truthy id: PUT to `endpoint/id/`, then one PATCH there with the same body if the PUT fails; otherwise POST to `endpoint/`; only success resets that section's form, refetches and alerts "Saved successfully!"; failure changes nothing |
| Home.SaveFallsBackOnce | src/pages/HomeManagement/HomeManagement.jsx:151-170 | one or two calls with the same body and URL; two exactly for an update whose PUT failed |
| Home.FailedSaveKeepsForms | src/pages/HomeManagement/HomeManagement.jsx:176-179 | a failed save leaves every form and list as it was |
| Home.HandleEdit | src/pages/HomeManagement/HomeManagement.jsx:196-203 | the section's form becomes a copy of the record; other sections are untouched |
| Home.EditThenSaveResendsPath | src/pages/HomeManagement/HomeManagement.jsx:126-203 | saving an edited record PUTs to it and sends its stored image path back as a text part |
| Home.HandleDelete | src/pages/HomeManagement/HomeManagement.jsx:183-193 | nothing without confirmation; one DELETE with the auth headers; success refetches and alerts |
| Home.ToggleSlideActive | src/pages/HomeManagement/HomeManagement.jsx:214-226 | one PATCH of `is_active` set to the negated flag; success refetches; failure (a null slide included) alerts |
| Home.ToggleNegates | src/pages/HomeManagement/HomeManagement.jsx:218 | the PATCH asks for the opposite of the slide's current flag |
| Home.HandleFormChange | src/pages/HomeManagement/HomeManagement.jsx:229-235 | a file input stores its first file, a checkbox its checked state, any other input its text; only that field of that section changes |
| Home.CheckboxSentAsText | src/pages/HomeManagement/HomeManagement.jsx:137-235 | a checkbox change is later sent as "true" or "false" |
| FormEncoding.Convert | src/pages/HomeManagement/HomeManagement.jsx:126-149 | the typed policy skips null/undefined, arrays and objects, writes booleans as "true"/"false", and keeps numbers, strings and files; the other two policies skip nullish values, or null and "" |
| FormEncoding.Encode | src/pages/News/News.jsx:76-86 | at most one part per draft property; EncodeMembers says which parts |
| FormEncoding.EncodeMembers | src/pages/News/News.jsx:76-86 | a part is sent iff some draft property with that key converts to it |
| FormEncoding.EncodeConcat | src/pages/HomeManagement/HomeManagement.jsx:126-149 | encoding keeps the draft's key order |
| FormEncoding.DecodeEncode | src/pages/News/News.jsx:76-86 | a draft of non-empty text and files is read back unchanged |
| Events.FetchEvents | src/pages/Events/Events.jsx:25-39 | the list becomes `data.results \|\| data` whatever the status; an unreadable or null body sets the error |
| Events.EnvelopeOrBareArray | src/pages/Events/Events.jsx:31-32 | a `results` envelope and a bare array give the same list |
| Events.HandleChange | src/pages/Events/Events.jsx:45-61 | the image input with a file stores it and previews it; otherwise the input's text; no other field changes |
| Events.HandleSubmit | src/pages/Events/Events.jsx:63-104 | banners cleared; multipart body without null and "" fields; truthy editingId gives PUT `events/<id>/`, else POST; only a 2xx answer resets the form (status "draft"), binding and preview, shows "Event updated successfully!" or "Event created successfully!" as editingId says, and keeps the event list; otherwise the form and binding stay and the error is set |
| Events.EditDate | src/pages/Events/Events.jsx:111-112 | "" for a falsy date; otherwise its own `slice(0, 16)`: the first 16 characters of text, the first 16 elements of an array, a nameless, typeless Blob of at most 16 bytes of a file; a TypeError (None) exactly for true, non-zero numbers and objects |
| Events.HandleEdit | src/pages/Events/Events.jsx:106-118 | the form is built from the event (dates cut, image null); the id is bound; the preview is cleared; banners are kept; a date without `slice` throws and changes nothing |
| Events.EditCutsDatesDropsImage | src/pages/Events/Events.jsx:106-118 | after an edit the dates hold their first 16 characters and the image is null |
| Events.ArrayDatesAreSliced | src/pages/Events/Events.jsx:106-118 | an event whose dates are arrays is still edited, with the arrays cut to 16 elements and the id bound |
| Events.MissingFieldSentAsUndefined | src/pages/Events/Events.jsx:68-118 | a missing description is sent as the text "undefined" |
| Events.FalsyIdCreates | src/pages/Events/Events.jsx:75-76 | an event with id 0 is created anew instead of updated |
| Events.HandleDelete | src/pages/Events/Events.jsx:120-134 | no request unless confirmed; a non-2xx answer is a failure |
| Events.CancelEdit | src/pages/Events/Events.jsx:136-150 | back to the initial form, binding, preview and banners; the list is kept |
| Events.GetImageUrl | src/pages/Events/Events.jsx:153-172 | null iff no image; an "http" image wins over `image_url`; otherwise a truthy `image_url` is returned as it is; without one the path goes on the media host after a "/"; a TypeError for a truthy non-string image |
| Events.RelativeImageJoinsOnce | src/pages/Events/Events.jsx:162-171 | a relative image without `image_url` is put on the host with exactly one "/" |
| Events.ResolvedImageIsFixed | src/pages/Events/Events.jsx:157-159 | a resolved "http" URL resolves to itself |
| Staff.FetchStaff | src/pages/StaffManagement/StaffManagement.jsx:21-33 | `results` when truthy, else the data; any failure (a null body included) empties the list |
| Staff.FailedFetchEmptiesList | src/pages/StaffManagement/StaffManagement.jsx:27-29 | a failed fetch leaves an empty list |
| Staff.HandleChange | src/pages/StaffManagement/StaffManagement.jsx:39-55 | the image input with a file stores it and previews it; otherwise the text; no other field changes |
| Staff.Payload | src/pages/StaffManagement/StaffManagement.jsx:59-64 | name, position, gender and bio always, in that order; the image only when truthy |
| Staff.HandleSubmit | src/pages/StaffManagement/StaffManagement.jsx:57-83 | one call with the multipart content type: PUT `staff/<id>/` while editing, else POST; success refetches, resets and alerts updated/added; failure keeps everything and alerts |
| Staff.ResetForm | src/pages/StaffManagement/StaffManagement.jsx:115-119 | initial form, no binding, no preview |
| Staff.HandleEdit | src/pages/StaffManagement/StaffManagement.jsx:85-100 | the record is bound; the four text fields are copied and the image is null; the preview is host + image or none |
| Staff.EditThenSaveKeepsImage | src/pages/StaffManagement/StaffManagement.jsx:59-93 | saving an edit without a new picture PUTs the four text fields and no image part |
| Staff.HandleDelete | src/pages/StaffManagement/StaffManagement.jsx:102-113 | nothing unless confirmed; one DELETE; alerts for both outcomes |
| Staff.GetImageUrl | src/pages/StaffManagement/StaffManagement.jsx:122-142 | null for falsy values; "http" paths kept; every other text path lands under host + "/media/" |
| Staff.MediaPrefixesAgree | src/pages/StaffManagement/StaffManagement.jsx:131-141 | "/media/x", "media/x" and "x" give the same URL |
| Staff.ResolveIdempotent | src/pages/StaffManagement/StaffManagement.jsx:126-141 | a resolved URL resolves to itself |
| OrgStructure.EnsureArray | src/pages/OrganizationStructure/OrganizationStructure.jsx:22-27 | [] for falsy values; an array as it is; an object's values in order; [] otherwise |
| OrgStructure.EnsureArrayIdempotent | src/pages/OrganizationStructure/OrganizationStructure.jsx:36-117 | normalising twice changes nothing |
| OrgStructure.FetchFiles | src/pages/OrganizationStructure/OrganizationStructure.jsx:30-44 | success stores the normalised list; failure empties it and sets the error |
| OrgStructure.ChooseFile | src/pages/OrganizationStructure/OrganizationStructure.jsx:102 | the chosen file is truthy iff a file was picked |
| OrgStructure.HandleUpload | src/pages/OrganizationStructure/OrganizationStructure.jsx:51-69 | nothing without a file; otherwise one POST whose body is the single "file" part; success clears the choice and refetches; failure sets the error |
| OrgStructure.HandleDelete | src/pages/OrganizationStructure/OrganizationStructure.jsx:72-84 | nothing unless confirmed; one DELETE with only the bearer header |
| OrgStructure.LinkOf | src/pages/OrganizationStructure/OrganizationStructure.jsx:122-124 | the link goes to `file`; its text is `original_name`, else "File <id>" |
| OrgStructure.ItemsConcat | src/pages/OrganizationStructure/OrganizationStructure.jsx:118-130 | rendering keeps the list's order |
| OrgStructure.ItemsAreShownEntries | src/pages/OrganizationStructure/OrganizationStructure.jsx:120 | every entry with a truthy file is rendered; nothing is skipped iff every entry has one |
| OrgStructure.Render | src/pages/OrganizationStructure/OrganizationStructure.jsx:117-133 | "No files uploaded yet." iff the normalised list is empty |
| OrgStructure.ItemsEmptyIff | src/pages/OrganizationStructure/OrganizationStructure.jsx:120-132 | no item is rendered iff no entry is shown |
| OrgStructure.EmptyListingIff | src/pages/OrganizationStructure/OrganizationStructure.jsx:117-132 | the list renders empty, rather than as "No files uploaded yet.", iff it is non-empty and no entry is shown (so `[null]` renders empty) |
| Gallery.Load | src/pages/Gallery/Gallery.jsx:11-15 | the list becomes the data; a failure keeps it |
| Gallery.UploadPayload | src/pages/Gallery/Gallery.jsx:19-23 | exactly title, description, category and image, in that order |
| Gallery.FreshUploadPayload | src/pages/Gallery/Gallery.jsx:8-23 | the default category is "Nature", and with no file chosen the image is sent as "null" |
| Gallery.AppendRecord | src/pages/Gallery/Gallery.jsx:28 | a list gets the record at its end; text is spread into one-character strings followed by the record; a value that is neither list nor text is kept, as the spread throws |
| Gallery.HandleUpload | src/pages/Gallery/Gallery.jsx:17-30 | one POST with the multipart content type; on success the record is appended; a failure keeps the list |
| Gallery.UploadAppends | src/pages/Gallery/Gallery.jsx:28 | earlier images stay in place; exactly one is added, at the end |
| Gallery.WithoutId | src/pages/Gallery/Gallery.jsx:34 | when the filter does not throw, it returns at most as many entries as it was given |
| Gallery.WithoutIdThrows | src/pages/Gallery/Gallery.jsx:34 | the filter throws iff some entry is `null` or `undefined` |
| Gallery.WithoutIdKeeps | src/pages/Gallery/Gallery.jsx:34 | an entry is kept iff it was there and its id differs |
| Gallery.WithoutIdConcat | src/pages/Gallery/Gallery.jsx:34 | the filter keeps the order of the rest |
| Gallery.HandleDelete | src/pages/Gallery/Gallery.jsx:32-36 | one DELETE, with no confirmation; success filters the list; failure keeps it |
| Gallery.DeleteRemovesId | src/pages/Gallery/Gallery.jsx:34 | after a delete no entry with that id remains |
| Panel.Fetch | src/pages/News/News.jsx:31-43 | success replaces the list (and on some pages clears the error); failure keeps the list and sets the error |
| Panel.Submit | src/pages/News/News.jsx:94-121 | one call with the page's headers: PUT to the bound record while editing, else POST; success resets the form (success banner ends cleared) and refetches; failure keeps draft and binding |
| Panel.ResetForm | src/pages/News/News.jsx:67-74 | empty draft, not editing, no id, no preview, no banners; the list is kept |
| Panel.ResetForgetsEdit | src/pages/Projects/Projects.jsx:49-55 | resetting after an edit ends where resetting without it would, and resetting twice is resetting once |
| Panel.Delete | src/pages/News/News.jsx:144-158 | no request unless confirmed |
| Panel.ChangeText | src/pages/Services/Services.jsx:45-48 | only the named draft field changes |
| Panel.Edit | src/pages/News/News.jsx:123-142 | an edit binds the record's id and installs the page's draft and preview; banners cleared except on Projects |
| Panel.ChangeFile | src/pages/News/News.jsx:48-61 | the first chosen file, or `undefined`, goes into the draft and the preview follows it; nothing else changes |
| Panel.EditDraft | src/pages/News/News.jsx:127-133 | each fallback key gets the item's value when truthy, else its fallback |
| Panel.EditThenSubmitUpdates | src/pages/News/News.jsx:101-142 | after an edit the next submit PUTs to that record |
| Panel.MultipartCarriesSetFields | src/pages/News/News.jsx:76-86 | a part is sent iff a non-nullish property converts to it; plain drafts are read back unchanged |
| Panel.SubmitRouting | src/pages/News/News.jsx:101-111 | a submit POSTs iff not editing and never DELETEs or PATCHes |
| Panel.FailedSubmitKeepsDraft | src/pages/News/News.jsx:115-117 | a failed submit keeps draft and binding |
| Panel.ItemUrlInjective | src/pages/News/News.jsx:102 | distinct numeric ids give distinct record URLs |
| News.FetchItems | src/pages/News/News.jsx:31-43 | success replaces items and clears the error; failure keeps items |
| News.HandleChange | src/pages/News/News.jsx:45-65 | a file input stores its first file and previews it; others store text; nothing else changes |
| News.HandleSubmit | src/pages/News/News.jsx:88-121 | multipart content type and body without nullish fields; PUT `news/<id>/` while editing, else POST; success resets, failure keeps the draft with the create/update message |
| News.HandleEdit | src/pages/News/News.jsx:123-142 | title, summary and content default to "", status to "Draft"; image never copied; a truthy image becomes the preview; banners cleared |
| News.EditThenSubmit | src/pages/News/News.jsx:101-142 | an edited article is PUT to its own URL |
| News.HandleDelete | src/pages/News/News.jsx:144-158 | no request unless confirmed |
| News.HandlePublishToggle | src/pages/News/News.jsx:160-174 | one PATCH of status only; the banner names the new status in lower case |
| News.ToggleAlternates | src/pages/News/News.jsx:161 | "Published" goes to "Draft", everything else to "Published"; toggling twice restores |
| News.AnnouncedStatus | src/pages/News/News.jsx:165 | the banner says "draft" or "published" |
| Publications.FetchItems | src/pages/Publications/Publications.jsx:32-43 | success replaces items; failure keeps them |
| Publications.HandleChange | src/pages/Publications/Publications.jsx:45-65 | a file input stores its first file; others store text; nothing else changes |
| Publications.HandleSubmit | src/pages/Publications/Publications.jsx:67-100 | multipart content type and body without nullish fields; PUT `publications/<id>/` while editing, else POST; success resets, failure keeps the draft |
| Publications.HandleEdit | src/pages/Publications/Publications.jsx:111-131 | text fields default to "", status to "Draft"; file never copied; placeholder preview iff the item has a file |
| Publications.EditedDraftHasNoFile | src/pages/Publications/Publications.jsx:71-131 | the body after an edit has no "file" part |
| Publications.HandleDelete | src/pages/Publications/Publications.jsx:133-148 | no request unless confirmed |
| Publications.StatusClass | src/pages/Publications/Publications.jsx:306 | "pub-status-undefined" for a missing status, a TypeError for non-text; otherwise "pub-status-" followed, character by character, by the lower-cased status with its first space (only) turned into "-" |
| Publications.StatusClassIsOneToken | src/pages/Publications/Publications.jsx:306 | a status with at most one space gives a class with no space |
| Publications.StatusClassIgnoresCase | src/pages/Publications/Publications.jsx:306 | a status and its lower-cased form get the same class |
| Services.FetchItems | src/pages/Services/Services.jsx:32-43 | success replaces items; failure keeps them |
| Services.HandleChange | src/pages/Services/Services.jsx:45-48 | only the named draft field changes |
| Services.HandleSubmit | src/pages/Services/Services.jsx:50-70 | JSON body; PUT `services/<id>/` while editing, else POST; success resets, failure keeps the draft |
| Services.HandleEdit | src/pages/Services/Services.jsx:80-93 | fields default to "", status to "Active" |
| Services.ZeroPriceBecomesEmpty | src/pages/Services/Services.jsx:85 | a price of 0 is edited as "" |
| Services.HandleDelete | src/pages/Services/Services.jsx:95-110 | no request unless confirmed |
| Services.FormatPrice | src/pages/Services/Services.jsx:112-115 | "Free" for a falsy price; "$n.00" for integral prices |
| Services.PriceLabels | src/pages/Services/Services.jsx:112-115 | 0 shows "Free" but "0" shows "$0.00"; a positive number and the digit string that spells it get the same label |
| Researches.FetchItems | src/pages/Researches/Researches.jsx:30-36 | success replaces items; failure keeps them |
| Researches.HandleChange | src/pages/Researches/Researches.jsx:38-41 | only the named draft field changes |
| Researches.HandleSubmit | src/pages/Researches/Researches.jsx:43-59 | JSON body; PUT `research/<id>/` while editing, else POST; success resets, failure keeps the draft |
| Researches.HandleEdit | src/pages/Researches/Researches.jsx:69-81 | fields default to "", status to "Ongoing"; the id is bound |
| Researches.HandleDelete | src/pages/Researches/Researches.jsx:83-94 | no request unless confirmed |
| Researches.DescriptionPreview | src/pages/Researches/Researches.jsx:177 | nothing for "", the text up to 150 characters, else its first 150 and "..." |
| Researches.PreviewKeepsShortText | src/pages/Researches/Researches.jsx:177 | the text is shown unchanged iff it has at most 150 characters, or 153 ending in "..." |
| Researches.StatusClass | src/pages/Researches/Researches.jsx:173 | "status-undefined" for a missing status, a TypeError for non-text; otherwise "status-" followed, character by character, by the lower-cased status |
| Researches.StatusClassSameIff | src/pages/Researches/Researches.jsx:173 | two text statuses share a class iff they agree up to ASCII case |
| Projects.FetchProjects | src/pages/Projects/Projects.jsx:31-42 | success replaces items and clears the error; failure keeps them |
| Projects.HandleChange | src/pages/Projects/Projects.jsx:44-47 | only the named draft field changes |
| Projects.HandleSubmit | src/pages/Projects/Projects.jsx:57-75 | JSON body; PUT `projects/<id>/` while editing, else POST; failure says "Failed to save project" |
| Projects.HandleEdit | src/pages/Projects/Projects.jsx:77-81 | the draft is the whole record, id included; banners untouched |
| Projects.EditThenSaveEchoesRecord | src/pages/Projects/Projects.jsx:61-81 | saving an unchanged project PUTs the listed record to its own URL |
| Projects.HandleDelete | src/pages/Projects/Projects.jsx:83-95 | no request unless confirmed |
| Sidebar.AutoExpand | src/components/Sidebar/Sidebar.jsx:26-34 | /news, /events and /gallery routes expand Media; no menu is ever collapsed |
| Sidebar.AutoExpandNeverCollapses | src/components/Sidebar/Sidebar.jsx:32 | re-running the effect is idempotent and never closes Media |
| Sidebar.ToggleMenu | src/components/Sidebar/Sidebar.jsx:36-41 | flips only the named menu |
| Sidebar.ToggleTwice | src/components/Sidebar/Sidebar.jsx:36-41 | toggling twice restores the menu |
| Sidebar.SubmenuShownIffExpanded | src/components/Sidebar/Sidebar.jsx:69-81 | the Media links render iff Media is expanded; the top-level links always render |
| Sidebar.Links | src/components/Sidebar/Sidebar.jsx:47-122 | the links render in page order (the Media children only while Media is expanded), each active exactly when the path equals it |
| Sidebar.AtMostOneActive | src/components/Sidebar/Sidebar.jsx:47-117 | at most one link is active |
| Sidebar.ChildRouteShown | src/components/Sidebar/Sidebar.jsx:26-81 | on a Media child route that route's link is shown, active |
| Header.DeriveUser | src/components/Header/Header.jsx:34-38 | name is the username or "Admin User"; role is "Administrator" iff the email is truthy |
| Header.AdministratorIffOwnEmail | src/components/Header/Header.jsx:36-37 | "Administrator" iff the shown email is the user's own |
| Header.NoProfileDefaults | src/components/Header/Header.jsx:34-38 | a null profile shows every default |
| Header.ToggleProfileMenu | src/components/Header/Header.jsx:11 | flips the menu |
| Header.ToggleTwice | src/components/Header/Header.jsx:11 | opening and closing the profile menu restores it |
| Header.HandleLogout | src/components/Header/Header.jsx:13-20 | removes "authToken" and "userData" only, closes the menu, calls onLogout |
| Header.Badge | src/components/Header/Header.jsx:57-62 | a badge is rendered iff its count is positive, and its text is the decimal digits of the count, with no leading zero |
| Settings.HandleChange | src/pages/Settings/Settings.jsx:21-27 | a checkbox stores `checked`, other inputs their text; nothing else changes |
| Settings.ItemsPerPageBecomesText | src/pages/Settings/Settings.jsx:13-25 | the default 10 is a number and becomes text once edited |
| SessionFlow.LoginThenReload | src/pages/Login/Login.jsx:80-88 | a valid form and an ok answer with a non-null body log in, and a reload then restores the same profile |
| SessionFlow.MissingTokenStoredAsUndefined | src/pages/Login/Login.jsx:80 | after an ok answer without a token, the token is stored as "undefined" and a reload still authenticates |
| SessionFlow.LogoutThenReload | src/App.jsx:45-53 | after logout every protected page redirects to /login |
| SessionFlow.HeaderLogoutKeepsApiToken | src/components/Header/Header.jsx:13-20 | the header's logout leaves the fetch helper's bearer token in place |
| SessionFlow.SidebarLinksRouted | src/components/Sidebar/Sidebar.jsx:117-118 | every sidebar link renders its page, except /staffmanagement, which redirects to /dashboard |
| JsStrings.TrimEmptyIff | src/pages/Login/Login.jsx:39 | `trim()` is empty iff the text is all whitespace |
| JsStrings.DecimalRoundTrip | src/pages/Services/Services.jsx:115 | decimal rendering of a natural number reads back to it |
| JsStrings.ReplaceFirstChar | src/pages/Publications/Publications.jsx:306 | only the first occurrence is replaced |
| JsStrings.IntToDecimalInjective | src/pages/News/News.jsx:102 | distinct integers render as distinct decimal texts |
| Session.UserRecord | src/pages/Login/Login.jsx:81-85 | the stored profile carries the response's user_id, username and email as userId, username and email |
| Dom.FirstFile | src/pages/News/News.jsx:49 | a file exactly when one was chosen, `undefined` otherwise |
| JsValues.Set | src/pages/Services/Services.jsx:47 | the spread update changes the named property only and keeps key order |

## Left out

- Networking. Transport, timeouts, cancellation, refresh de-duplication and
  stale responses are all outside the model. Every answer is a parameter,
  and fire-and-forget refetches are a `refetch` flag.
- `window.confirm`, `alert`, `scrollTo` and the `loading`/`isSubmitting`
  flags. A confirmation is a boolean, an alert is a returned text, and the
  rest are omitted.
- `JSON.parse` and `JSON.stringify` are parameters, and the text format of
  JSON is not modelled. A malformed "userData" makes App.jsx:31 throw; that
  path is not modelled.
- FileReader and `URL.createObjectURL`. Their results are names for the
  chosen file, not contents.
- Route matching is exact string equality. The router's case and
  trailing-slash handling is left out.
- Numbers are integers. NaN and fractions are left out, and so are
  `parseFloat`/`toFixed` in the price label and the KB size on the
  Publications page.
- Services.FormatPrice: gives None for fractional or non-digit text, where
  the page would print a float or "$NaN".
- Number width. `Num` holds an unbounded integer, but a JavaScript number
  is a double: integers are exact only below 2^53, and `String()` and
  `toFixed` switch to exponent form from 1e21. The model prints every digit
  instead, so for ids or prices of 1e21 and above the record URLs
  (Panel.ItemUrl, Home.ItemUrl, Events.EventUrl, Staff.StaffUrl) and the price label
  differ from the page's: `${id}` gives "1e+21" where the model gives 22
  digits.
- Services.FormatPrice: for a price of 1e21 or more the page shows
  "$1e+21", while the model spells out every digit followed by ".00".
- `toLowerCase` is modelled for ASCII letters only. Characters are Unicode
  scalars, and `slice` counts them rather than UTF-16 units. The exception is
  the password length, which uses UTF-16 units.
- Researches.DescriptionPreview: counts characters, not UTF-16 code units.
- Events.EditDate: counts characters, not UTF-16 code units. A Blob cut from a file is a nameless, typeless `File`. An object with its own `slice` method is treated as having none, because functions are not values here.
- Strict inequality `!==` on objects compares structurally, not by
  identity.
- `for…in` and `Object.values` list integer-like keys before the others.
  Records here keep insertion order for every key.
- Settings' simulated save uses timers and is left out. So are Header's
  click-outside listener, the Dashboard's static data and the Layout.
- Home.GetFileUrl: the object-URL branch yields the file itself, not a
  `blob:` URL.
