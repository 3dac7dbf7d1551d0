# Feedback workflow, modelled in Dafny

A model of the request handlers of a small employee-feedback backend. Managers
write feedback records for employees. Employees acknowledge them, comment on
them and ask their manager for feedback. Both sides receive notifications. The
backend keeps four collections (users, feedback, feedback requests,
notifications), and its three routers (users, feedback, notifications) read and
update them.

The model is one `Store` class (module `Workflow`, `store.dfy`) whose fields are
the four collections. Each handler is a method of it:
- a handler that changes the store `modifies` it and states the whole new
  state;
- a handler that only reads is a function, or a read-only method when the
  handler loops.

Every answer is an `Outcome`:
- `NotFound`, `Forbidden` and `BadRequest` stand for the 404, 403 and 400
  errors the handlers raise, with their exact detail texts;
- `ServerError` stands for an exception the handler does not catch;
- `Ok` carries the answer.

Every handler keeps the store invariant `Valid()`:
- employee ids are unique;
- record ids are below the id counter;
- every stored feedback has one of the three sentiments;
- every stored comment has exactly the keys `employee_id` and `text`;
- every notification carries the one shared default timestamp.

The supporting modules:
- `records.dfy`: the stored documents.
- `schemas.dfy`: the request bodies and answer shapes.
- `sequences.dfy`: filtering, the first match, and a stable newest-first sort.
- `queries.dfy`: the lookups, filters, counts and record updates the handlers
  share, with lemmas about them.
- `pdf_layout.dfy`: the line cursor of the PDF export, with closed forms.
- `findings.dfy`: the sentiment defect of the update handler.

Behaviour modelled as the code has it:
- Update and delete of a feedback record test ownership against the first
  manager in the store, whoever calls. The manager dashboard takes no manager
  id and lists every employee.
- The PDF export steps its cursor by 20 points. It starts at 780 and starts a
  new page below 50. So the first page holds 37 record lines and every later
  page 38 (`PdfLayout.PageBreaksClosedForm`).
- `created_at` defaults of notifications are evaluated once, when the class is
  defined, so within one server process all notifications share one
  timestamp. "Newest first" then gives store order
  (`Workflow.Store.NotificationsInStoreOrder`).
- Creating feedback never sets `anonymous`, so it is always false.
- Deleting a feedback record when no manager exists dereferences a missing
  user and fails.
- Creating a user never sets `manager_employee_id`.
- Every user-management route needs some manager to exist already, so the
  first manager must come from outside the routers (the `Store` constructor
  takes the seed users).

## Model

| member | source | states |
|---|---|---|
| Records.CommentOf | Server/app/routers/feedback.py:263 | the appended comment has exactly the keys `employee_id` and `text`, holding the given values |
| Records.NewFeedback | Server/app/models/feedback.py:6-16 | a record built from the required fields is well formed, not anonymous, not acknowledged, has no tags or comments, and has the class-definition default timestamp |
| Schemas.FeedbackCreateWithDefaults | Server/app/schemas/feedback.py:5-12 | a body that omits the optional fields has `anonymous` false and `tags` empty, and carries the other fields unchanged |
| Schemas.TagsOrEmpty | Server/app/routers/feedback.py:185 | `tags or []`: a null tag list becomes empty, any other list is kept |
| Schemas.NewUser | Server/app/routers/user.py:21 | a registered user has every field of the body and no manager back-reference |
| Schemas.FromFeedback | Server/app/schemas/feedback.py:39-54 | the answer copies every stored field, takes the given manager name, and uses the rendered comments whenever a list is given, else the stored ones |
| Sequences.Filter | Server/app/routers/feedback.py:150 | a query keeps exactly the elements that match, no more of each than the collection holds |
| Sequences.FirstWhere | Server/app/routers/user.py:53 | `find_one` gives the first matching position, or none exactly when nothing matches |
| Sequences.SortNewestFirst | Server/app/routers/feedback.py:102-104 | the sorted list is a permutation of the input and its timestamps never increase |
| Sequences.NewestFirstPairwise | Server/app/routers/feedback.py:104 | a list whose keys never increase from one element to the next is ordered newest first over any distance |
| Sequences.SortedSameElements | Server/app/routers/user.py:57 | sorting keeps the length and the set of elements |
| Sequences.SameKeyKeepsOrder | Server/app/routers/notification.py:9-11 | when all timestamps are equal the sort returns the list unchanged |
| Sequences.FilterReplaceDropsOne | Server/app/routers/feedback.py:140-143 | replacing one matching element by a non-matching one makes the query one shorter |
| Sequences.FilterComplementSizes | Server/app/routers/feedback.py:212 | a query and its complement together have the size of the collection |
| Sequences.FilterNoneMatch | Server/app/routers/feedback.py:212 | a query that no element matches is empty |
| Queries.UserIndex | Server/app/routers/user.py:76 | the position of the user with the id, or none exactly when no user has it |
| Queries.FindUser | Server/app/routers/user.py:53 | the user found has the id and is stored; none exactly when no stored user has it |
| Queries.FindUserWithRole | Server/app/routers/feedback.py:22-25 | the user found has the id and the role; none exactly when no stored user has both |
| Queries.FirstManager | Server/app/routers/feedback.py:178 | the first manager in store order, and none exactly when there is no manager |
| Queries.RemoveUserKeepsUnique | Server/app/routers/user.py:108 | removing one user keeps employee ids unique and leaves no user with the removed id |
| Queries.FindWithRoleAgrees | Server/app/routers/user.py:53-54 | with unique ids, a lookup by id then a role test agrees with a lookup by id and role together |
| Queries.FeedbackIndex | Server/app/routers/feedback.py:164 | the position of the record with the id, or none exactly when no record has it |
| Queries.RequestIndex | Server/app/routers/feedback.py:121 | the position of the request with the id, or none exactly when no request has it |
| Queries.NotificationIndex | Server/app/routers/notification.py:16 | the position of the notification with the id, or none exactly when none has it |
| Queries.EmployeesOf | Server/app/routers/user.py:33 | exactly the users with the employee role |
| Queries.FeedbackOf | Server/app/routers/feedback.py:150 | exactly the feedback records about the employee |
| Queries.FeedbackBy | Server/app/routers/feedback.py:296 | exactly the feedback records written by the manager |
| Queries.WithoutManager | Server/app/routers/feedback.py:212 | after the bulk delete, exactly the records of other managers remain |
| Queries.RequestsTo | Server/app/routers/feedback.py:102-103 | exactly the requests addressed to the manager |
| Queries.NotificationsOf | Server/app/routers/notification.py:9-10 | exactly the notifications addressed to the id |
| Queries.DeleteByManagerCounts | Server/app/routers/feedback.py:212 | removed and kept records add up to the collection, and none of the manager's records are left |
| Queries.CountUnseen | Server/app/routers/feedback.py:140-143 | the number of positions holding an unseen request to the manager; zero exactly when every such request has been seen |
| Queries.MarkSeenLowersUnseen | Server/app/routers/feedback.py:125 | marking an unseen request seen lowers its manager's unseen count by one |
| Queries.MarkSeenKeepsOtherCounts | Server/app/routers/feedback.py:125 | marking a request seen leaves the unseen count of every other manager unchanged |
| Queries.SentimentCountsCoverAll | Server/app/routers/user.py:38-45 | with valid sentiments, the positive, neutral and negative counts add up to the record count |
| Queries.CountSentiment | Server/app/routers/user.py:38-45 | the `Counter` entry of a sentiment is never more than the number of records |
| Queries.CountSentimentCountsRecords | Server/app/routers/user.py:38-45 | the `Counter` entry of a sentiment is the number of positions whose record carries it |
| Queries.StatsRow | Server/app/routers/user.py:39-46 | the employee's id and name, and sentiment counts none of which exceeds the row's feedback count |
| Queries.StatsRowCountsRecords | Server/app/routers/user.py:37-42 | a row's feedback count is the number of stored records about the employee |
| Queries.StatsRowBalanced | Server/app/routers/user.py:37-46 | a dashboard row's three sentiment counts add up to its feedback count |
| Queries.NameOrUnknown | Server/app/routers/user.py:64 | the name of the user with the id, or "Unknown" exactly when no user has it |
| Queries.TimelineEntryOf | Server/app/routers/user.py:61-70 | the record's id, manager id and timestamp, with the manager's name or "Unknown" |
| Queries.HistoryEntry | Server/app/routers/feedback.py:154-158 | the record's id, manager and employee ids, with the given manager name |
| Queries.RenderComments | Server/app/routers/feedback.py:154-157 | one rendered comment per stored one, same order and author, text passed through the renderer |
| Queries.ViewsOf | Server/app/routers/feedback.py:106-115 | one view per request, in the same order and with the same timestamp, and every request appears |
| Queries.RequestsNewestFirst | Server/app/routers/feedback.py:102-115 | one view per request addressed to the manager, with timestamps that never increase |
| Queries.RequestsNewestFirstMembers | Server/app/routers/feedback.py:102-115 | the answer holds the view of every request to the manager and of nothing else |
| Queries.MarkAllSeenFor | Server/app/routers/notification.py:25-27 | only `seen` changes, and it becomes true exactly for the id's notifications |
| Queries.MarkAllSeenIdempotent | Server/app/routers/notification.py:23-28 | marking all seen twice is the same as once |
| Queries.OverwriteContent | Server/app/routers/feedback.py:182-185 | strengths, improvement, sentiment and tags take the body's values (sentiment unchecked); every other field is kept |
| Queries.WithComment | Server/app/routers/feedback.py:262-263 | the comment is appended at the end and nothing else in the record changes |
| PdfLayout.LineY | Server/app/routers/feedback.py:274-280 | the cursor never rises above the page top at 800 |
| PdfLayout.PageBreaks | Server/app/routers/feedback.py:278-280 | at most one `showPage` per record line |
| PdfLayout.LineYInBand | Server/app/routers/feedback.py:274-280 | every record line is drawn on the 20-point grid between 60 and 800 |
| PdfLayout.LineYClosedForm | Server/app/routers/feedback.py:274-280 | record line k is at 780 - 20k on the first page, and after that at 800 - 20((k - 37) mod 38) |
| PdfLayout.PageBreaksClosedForm | Server/app/routers/feedback.py:278-280 | n record lines cause no page break below 37 lines, and 1 + (n - 37) div 38 breaks from 37 on |
| Schemas.UserOutOf | Server/app/routers/user.py:23-28 | the answer carries the user's name, email, role and id, and not the password |
| Workflow.Store.constructor | Server/app/models/user.py:6-12 | a store holding the seed users and no records keeps the invariant |
| Workflow.Store.CreateUser | Server/app/routers/user.py:12-28 | 403 with no manager, 400 on a taken id, otherwise exactly the new user is appended and echoed back |
| Workflow.Store.UpdateUser | Server/app/routers/user.py:75-95 | 404 on an unknown id, then 403 with no manager; otherwise only that user's name, email, password and role change |
| Workflow.Store.DeleteUser | Server/app/routers/user.py:99-109 | 404 on an unknown id, then 403 with no manager; otherwise exactly that user is removed and no user keeps the id |
| Workflow.Store.ManagerDashboard | Server/app/routers/user.py:32-48 | one row per employee in store order, with the feedback count and sentiment counts that add up to it |
| Workflow.Store.DashboardRows | Server/app/routers/user.py:36-46 | the dashboard loop yields one row per employee, in order, each the employee's row |
| Workflow.Store.EmployeeDashboard | Server/app/routers/user.py:52-71 | 404 unless the id is an employee; else all their feedback newest first, with the manager name or "Unknown" |
| Workflow.Store.TimelineOf | Server/app/routers/user.py:59-70 | the timeline loop yields one entry per record, in order, named after the record's manager or "Unknown" |
| Workflow.Store.CreateFeedback | Server/app/routers/feedback.py:21-55 | 404 for a missing manager, then a missing employee; 500 for a bad sentiment; else one record and one notification to the employee are added |
| Workflow.Store.RequestFeedback | Server/app/routers/feedback.py:60-89 | 404 for a missing employee, then a missing manager; else one unseen request and one notification to the manager are added |
| Workflow.Store.GetFeedbackRequests | Server/app/routers/feedback.py:94-115 | 404 "Manager not found" exactly when the id is not a manager; else the manager's requests newest first |
| Workflow.Store.MarkFeedbackRequestSeen | Server/app/routers/feedback.py:120-127 | 404 on an unknown id; else only that request becomes seen, and the unseen count drops by one if it was unseen |
| Workflow.Store.CountUnseenRequests | Server/app/routers/feedback.py:132-145 | 404 unless the id is a manager; else the number of that manager's unseen requests, zero exactly when all are seen |
| Workflow.Store.GetFeedbackHistory | Server/app/routers/feedback.py:149-159 | every record about the id in store order, each with the manager name or "Unknown" and rendered comments |
| Workflow.Store.HistoryOf | Server/app/routers/feedback.py:152-158 | the history loop yields one answer per record, in order, named after the user the record names as manager |
| Workflow.Store.Acknowledge | Server/app/routers/feedback.py:163-169 | 404 on an unknown id; else only that record becomes acknowledged, and a repeat changes nothing |
| Workflow.Store.OwnedByFirstManager | Server/app/routers/feedback.py:178-179 | a record is owned exactly when its manager id is that of the earliest manager in the store |
| Workflow.Store.UpdateFeedback | Server/app/routers/feedback.py:173-189 | 404, then 403 unless the first manager owns the record, then refusal of a bad sentiment; else only the four content fields change |
| Workflow.Store.DeleteFeedback | Server/app/routers/feedback.py:193-203 | 404, then a server error with no manager, then 403 unless the first manager owns it; else exactly that record is removed |
| Workflow.Store.DeleteAll | Server/app/routers/feedback.py:207-213 | 403 unless the id is a manager; else exactly their records are removed, the rest keep order, and the count removed is returned |
| Workflow.Store.AddComment | Server/app/routers/feedback.py:253-265 | 404 on an unknown record, then 403 unless the author is an employee; else the comment is appended after the old ones |
| Workflow.Store.ExportPdf | Server/app/routers/feedback.py:269-283 | one record line per feedback of the id, each at the cursor's y inside the page, with the cursor's number of page breaks |
| Workflow.Store.GetManagerFeedbackHistory | Server/app/routers/feedback.py:289-311 | 404 unless the id is a manager; else every record they wrote, in store order, with their own name and rendered comments |
| Workflow.Store.GetNotifications | Server/app/routers/notification.py:9-12 | exactly the id's notifications, newest first |
| Workflow.Store.NotificationsInStoreOrder | Server/app/models/notification.py:9 | within one server process every notification shares the default timestamp, so the newest-first answer is in store order |
| Workflow.Store.MarkSeen | Server/app/routers/notification.py:15-21 | 404 on an unknown id; else only that notification's `seen` becomes the given value, false included |
| Workflow.Store.MarkAllSeen | Server/app/routers/notification.py:24-28 | always succeeds; all of the id's notifications become seen and no other one changes |
| Findings.UpdateAsWrittenBreaksWellFormed | Server/app/routers/feedback.py:184 | assigning a sentiment outside the three names leaves a record that is not well formed |
| Findings.OneBadSentimentMissesOne | Server/app/routers/user.py:38-45 | one record with such a sentiment leaves the three dashboard counts one short of the record count |
| Findings.DashboardAfterUpdateAsWritten | Server/app/routers/user.py:42-45 | a positive record updated as written to "excellent" shows one record and zero in every sentiment column |

## Left out

- HTTP routing, FastAPI request parsing, CORS and the application wiring are left out. Each handler is a method called directly.
- The database driver, async awaits and concurrent requests are left out. Each handler runs as one atomic step on the in-memory store.
- Document ids are modelled as naturals from a store counter. Parsing an id string, and the error a malformed id raises, are not modelled.
- Password hashing and login are left out. The routers modelled store the password as given.
- Email validation is left out: emails are plain strings.
- Markdown rendering is a parameter `render` of the history handlers. Nothing is assumed about its output.
- The PDF drawing calls, the text of each line (including `upper()`) and the byte stream are left out. Only the line cursor and page breaks are modelled.
- The wall clock is a `now` parameter. Timestamps are naturals.
- Workflow.Store.GetFeedbackRequests: requests with equal timestamps are listed in store order. The database does not promise any order among ties.
- Workflow.Store.EmployeeDashboard: records with equal timestamps are listed in store order, as above.
- Workflow.Store.GetNotifications: notifications with equal timestamps are listed in store order, as above.
- Workflow.Store.NotificationsInStoreOrder: the model covers one server process that starts from an empty notification collection. Notifications stored by an earlier process, or by a second worker, carry that process's own class-definition timestamp; across processes "newest first" lists the latest process's notifications first, which the model does not capture.
- The second `request_feedback` registration (Server/app/routers/feedback.py:216-248) is left out. The first registration of the same route is the one served. The second differs only in leaving `seen` and `created_at` to their defaults.
- Workflow.Store.DeleteAll: returns the number of records removed. The source formats the driver's delete-result object into its message.
- Workflow.Store.CreateFeedback: reads the manager id from the body's declared `manager_employee_id`. The source reads `payload.manager_id`, which the body schema does not declare, so as written every call fails with an attribute error.
- Workflow.Store.CreateFeedback: a sentiment outside the three names is a server error with a fixed detail text. The validation error's real text is not modelled.
- Workflow.Store.DeleteFeedback: the crash when no manager exists is a server error with a fixed detail text.
- Workflow.Store.ExportPdf: the contract bounds each line's y by 50..800, the page band. `PdfLayout.LineYInBand` gives the tighter 60..800.

## Findings

| source | as written | input that shows it | evidently intended | confidence | as-written member | corrected member |
|---|---|---|---|---|---|---|
| Server/app/routers/feedback.py:184 | the update body types `sentiment` as a plain `str` (Server/app/schemas/feedback.py:10); `update_feedback` assigns it to the stored record unchecked and saves the record (line 186) | update a positive record with sentiment "excellent": in the model the employee's dashboard row then shows 1 record and 0 positive, 0 neutral, 0 negative; against a real database the likelier symptom is that later loads of that record fail validation against the sentiment literal | only "positive", "neutral" or "negative" is ever stored, so the dashboard counts add up | not executed | Queries.OverwriteContent | Workflow.Store.UpdateFeedback |
