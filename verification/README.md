# StackIt forum state logic in Dafny

StackIt is a React question-and-answer forum. Most of it is JSX. The state changes sit inside
its event handlers and hooks, and this project models them as pure Dafny functions over
immutable records and sequences:

- the tri-state vote rule (no marker, up, down) shared by the question card, the compact
  question card and the question page;
- the question page's answer list: voting, accepting and un-accepting, submitting, and the
  accepted-first display order;
- the per-day activity records, the 365-day heatmap, and how the heatmap card groups it into
  week columns with its contribution total and current streak;
- the two notification lists: the context's and the panel's;
- the authentication context's capability check and session changes;
- the tag input, the ask-question validation, the home page filters and sorts, the editor's
  toolbar splice, and the translation lookup.

One module per source file, plus shared helpers:

- `Wrappers`: `Option`.
- `Seqs`: `filter`, counting, flattening.
- `Text`: JavaScript's `trim`, `toLowerCase` and `includes`.
- `Sorting`: a stable `Array.prototype.sort` with a descending numeric comparator.
- `Vote`: the vote table.
- `Questions`: the question summary record.

Modelling choices:

- Time and ids are parameters.
  - A calendar day is an integer.
  - The weekday of day `n` is `(n + k) % 7` for a calendar offset `k`.
  - `Date.now()` ids are passed in.
- Editor text is a sequence of UTF-16 code units. JavaScript's `substring`, `length` and the
  selection offsets count those units, and the emoji button inserts two of them.

Behaviour of the code worth knowing when reading the model:

- `markAsRead(id)` marks every entry carrying that id, however many there are.
- Accepting an answer checks only that the viewer is logged in and that the question's
  author is "User Name". It does not go through `hasPermission`.
- With no user, `hasPermission` allows 'view' and nothing else.
- The code closes a week column on a Saturday or on the last day. For consecutive days that
  makes every column one calendar week of exactly seven cells. With gaps between the days
  seven is no longer guaranteed, and a column can be longer.

## Model

| member | source | states |
|---|---|---|
| Vote.Transition | src/components/QuestionCard.tsx:34-47 | Clicking the held direction retracts it. Clicking the other direction swings to it. From no marker, a click sets the marker. The count moves by the new marker's contribution minus the old one's, so never by more than 2. |
| Vote.Cast | src/components/QuestionCard.tsx:34-50 | A click keeps the count minus the viewer's contribution (+1 up, -1 down, 0 none) unchanged. The new marker is none exactly when the clicked direction was already held. |
| Vote.CastAllKeepsBase | src/components/QuestionCard.tsx:34-50 | Over any click sequence, the count minus the viewer's contribution is constant, and the contribution stays in {-1, 0, 1}. |
| Vote.SameClickTwiceRestores | src/components/QuestionCard.tsx:35-47 | From no vote, clicking the same direction twice restores both the count and the marker. |
| Vote.CastMovesAtMostTwo | src/components/QuestionCard.tsx:34-47 | No click changes the count by more than 2 either way. |
| QuestionCard.Initial | src/components/QuestionCard.tsx:27-28 | A card starts with no marker, and its count is the question's count of other voters. |
| QuestionCard.HandleVote | src/components/QuestionCard.tsx:30-52 | The card's inline if/else chain equals the vote table. When `onVoteChange` is supplied, it receives the question id and exactly the stored new count. |
| QuestionCardCompact.HandleVote | src/components/QuestionCardCompact.tsx:28-47 | The compact card's inline chain equals the vote table, and its callback receives exactly the stored new count. |
| QuestionCardCompact.SameAsFullCard | src/components/QuestionCardCompact.tsx:32-45 | The compact card and the full card give the same state and callback for every count, marker, click and callback choice. |
| QuestionCardCompact.TagBadges | src/components/QuestionCardCompact.tsx:99-106 | The first three tags are shown, or all of them when there are fewer. A "+n" marker appears exactly when there are more than three tags, with n the number not shown, so n is the tag count minus 3. |
| QuestionDetail.Revote | src/pages/QuestionDetail.tsx:119-136 | The page's inline vote code for the question equals the vote table. |
| QuestionDetail.VoteAnswers | src/pages/QuestionDetail.tsx:139-157 | Answers whose id differs are unchanged. Each answer with the target id changes only its count and marker, as the vote table says. |
| QuestionDetail.HandleVote | src/pages/QuestionDetail.tsx:108-164 | Logged out: nothing changes and authentication is asked for. A question vote leaves every answer alone and applies the table to the question. An answer vote with a non-empty id leaves the question alone and applies the table to every answer with that id, and to no other answer. A missing or empty answer id changes nothing but still reports the vote. |
| QuestionDetail.AnswerVoteIsLocal | src/pages/QuestionDetail.tsx:139-157 | A vote on one answer id keeps every answer with another id and the list length. |
| QuestionDetail.AcceptAnswer | src/pages/QuestionDetail.tsx:166-187 | Refused, with no state change, when logged out or when the author is not "User Name". Otherwise the question becomes answered and every answer changes only its accepted flag. That flag ends up set exactly on the target answer when the target was not accepted before. |
| QuestionDetail.AcceptLeavesAtMostOne | src/pages/QuestionDetail.tsx:176-179 | With distinct answer ids, a permitted accept leaves at most one answer accepted, whatever the prior flags. |
| QuestionDetail.UnacceptKeepsAnsweredFlag | src/pages/QuestionDetail.tsx:176-181 | Accepting the already-accepted answer withdraws it. No answer is then accepted, yet the question stays marked answered. |
| QuestionDetail.NewAnswer | src/pages/QuestionDetail.tsx:214-222 | A submitted answer has the given id and content, author "Current User", 0 votes, is not accepted, was created "just now" and has no marker. |
| QuestionDetail.SubmitAnswer | src/pages/QuestionDetail.tsx:189-234 | Logged out: nothing changes. A whitespace-only draft is rejected and nothing is appended. Otherwise exactly one new answer goes at the end, the question's answer count rises by 1, and the draft is cleared. |
| QuestionDetail.DisplayOrder | src/pages/QuestionDetail.tsx:314-315 | The listing is a permutation of the answers, with every accepted answer before every other one. |
| QuestionDetail.DisplayOrderIsStable | src/pages/QuestionDetail.tsx:314-315 | The accepted answers, and the others, each keep their stored order in the listing. |
| UserActivity.FindIndex | src/hooks/useUserActivity.tsx:42 | Gives the first record with the date, or -1 exactly when no record has it. |
| UserActivity.RecordActivity | src/hooks/useUserActivity.tsx:38-66 | If today has a record, only that record changes: the chosen counter grows by 1 and the total becomes questions plus answers. Otherwise one record is appended with the chosen counter 1, the other 0 and total 1. Nothing stored counts as the empty list. |
| UserActivity.RecordActivityStandalone | src/hooks/useUserActivity.tsx:108-134 | The standalone copy writes back the same list as the hook's version for every input. |
| UserActivity.RecordKeepsTotals | src/hooks/useUserActivity.tsx:51-60 | If every record's total was questions plus answers before recording, it still is after. |
| UserActivity.RecordKeepsDatesUnique | src/hooks/useUserActivity.tsx:42-62 | Recording keeps at most one record per date, leaves the records of other dates unchanged, and leaves a record for today. |
| UserActivity.ThreeQuestionsTwoAnswers | src/hooks/useUserActivity.tsx:44-62 | Three questions then two answers on an empty store give one record: 3 questions, 2 answers, total 5. |
| UserActivity.Level | src/hooks/useUserActivity.tsx:82-88 | The level is in 0..4. It is 0 exactly for counts of 0 or less, and 4 exactly for counts of 7 or more. |
| UserActivity.LevelMonotone | src/hooks/useUserActivity.tsx:82-88 | A larger count never has a lower level. |
| UserActivity.LevelBoundaries | src/hooks/useUserActivity.tsx:82-88 | The bucket edges: 0→0, 1→1, 2→1, 3→2, 4→2, 5→3, 6→3, 7→4. |
| UserActivity.GenerateActivityData | src/hooks/useUserActivity.tsx:69-98 | Exactly 365 cells, oldest first, for the consecutive days today-364 through today. A day without a record gets count 0 and level 0. Otherwise the count is the total of the first record for that day, and the level is its bucket. |
| ActivityChart.DayOfWeek | src/components/ActivityChart.tsx:25-26 | A dated cell's weekday is in 0..6. A placeholder gives -1, which stands for NaN: equal to no weekday. |
| ActivityChart.Pad | src/components/ActivityChart.tsx:29-32 | n placeholder cells (none when n is not positive), each with an empty date, count 0 and level 0. |
| ActivityChart.FillWeek | src/components/ActivityChart.tsx:38-43 | A closed column is padded with placeholders to seven cells when it is shorter, and otherwise left as it is. |
| ActivityChart.PlaceDay | src/components/ActivityChart.tsx:24-47 | The laid-out cells grow by the leading placeholders (only before the first day), the day itself, and then placeholders only. A Saturday or the last day closes the column, which then has at least seven cells, keeps the earlier columns and leaves no open column. Any other day keeps the columns and lengthens the open one. The step is also stated as the relation `Placed`, which the grouping loop's proof carries its invariant across. |
| ActivityChart.GroupWeeks | src/components/ActivityChart.tsx:20-51 | Every column has at least seven cells, and there are no columns exactly when there are no days. Removing the placeholders gives the dated input in order, and the counts add up to the same total. The first column opens with one placeholder per weekday before the first day. For consecutive days every column is one calendar week: exactly seven cells, each dated cell in the row of its weekday (Sunday row 0 to Saturday row 6), one column per week the days touch (lead + days rounded up to sevens), and row r of column j holding day 7j + r - lead, or a placeholder before the first day and after the last. |
| ActivityChart.TotalContributions | src/components/ActivityChart.tsx:64 | The total is the sum of all counts. |
| ActivityChart.CurrentStreak | src/components/ActivityChart.tsx:65-75 | The streak is the length of the longest suffix with positive counts. It is at most the number of cells, and the cell just before that suffix, if any, has count 0 or less. |
| ActivityChart.IntensityColor | src/components/ActivityChart.tsx:53-62 | The muted class is given exactly to levels outside 1..4. |
| ActivityChart.OutOfRangeLevelIsMuted | src/components/ActivityChart.tsx:53-62 | A level outside 0..4 gets the same class as level 0. |
| ActivityChart.CalendarLayout | src/components/ActivityChart.tsx:29-47 | Seven-cell columns whose cells are the leading placeholders, the days, and fewer than seven closing placeholders number (lead + days + 6) / 7, and row r of column j holds day 7j + r - lead or a placeholder. |
| ActivityChart.BuildChart | src/components/ActivityChart.tsx:20-75 | The card shows the 365 window cells, each built from its day's record. The columns hold exactly those cells in order, as calendar weeks of seven rows with each day in its weekday's row: (lead + 365 + 6) / 7 columns, row r of column j holding day 7j + r - lead. The headline total is the sum of the counts. The streak is the longest run of positive counts ending today. |
| NotificationContext.UnreadCount | src/contexts/NotificationContext.tsx:63 | The unread count is the number of entries not read. It is 0 exactly when every entry is read. |
| NotificationContext.MarkAsRead | src/contexts/NotificationContext.tsx:65-73 | Length and order are kept, and only the read flag can change. An entry ends up read exactly when it was read or carries the id. |
| NotificationContext.MarkAsReadIdempotent | src/contexts/NotificationContext.tsx:65-73 | Marking the same id twice equals marking it once. |
| NotificationContext.MarkAsReadLowersUnread | src/contexts/NotificationContext.tsx:63-73 | Marking never raises the unread count. It lowers it exactly when an unread entry carries the id. |
| NotificationContext.MarkAllAsRead | src/contexts/NotificationContext.tsx:75-79 | Every entry becomes read, with length, order and all other fields kept, so the unread count is 0. |
| NotificationContext.MarkAllAsReadAbsorbsMarkAsRead | src/contexts/NotificationContext.tsx:65-79 | After marking all read, marking one id changes nothing. Marking one id first makes no difference to marking all. |
| NotificationContext.AddNotification | src/contexts/NotificationContext.tsx:81-89 | One unread entry with the given id, the draft's fields and the "just now" label goes in front. The old entries follow unchanged. |
| NotificationContext.AddNotificationRaisesUnread | src/contexts/NotificationContext.tsx:81-89 | Adding raises the unread count by exactly 1. |
| NotificationSystem.PanelMarkAsRead | src/components/NotificationSystem.tsx:56-64 | The panel's own copy of `markAsRead` equals the context's for every list and id. |
| NotificationSystem.PanelMarkAllAsRead | src/components/NotificationSystem.tsx:66-70 | The panel's own copy of `markAllAsRead` equals the context's for every list. |
| NotificationSystem.DeleteNotification | src/components/NotificationSystem.tsx:72-76 | No entry with the id remains, and the list does not grow. |
| NotificationSystem.DeleteRemovesExactly | src/components/NotificationSystem.tsx:72-76 | Every entry with the id is removed. Every other entry stays as many times as it occurred. |
| NotificationSystem.DeleteKeepsOrder | src/components/NotificationSystem.tsx:72-76 | Deleting from a concatenation deletes from each part in turn, so the survivors keep their order. |
| NotificationSystem.DeleteAbsentIsNoOp | src/components/NotificationSystem.tsx:72-76 | Deleting an id that no entry has leaves the list unchanged. |
| NotificationSystem.DeleteNeverRaisesUnread | src/components/NotificationSystem.tsx:72-76 | Deletion never raises the unread count. |
| AuthContext.HasPermission | src/contexts/AuthContext.tsx:79-91 | Everyone may view. The five user actions need the user level. The admin may do anything. No user, a guest and an unknown role get only 'view'. |
| AuthContext.RoleNamed | src/contexts/AuthContext.tsx:7 | The role strings 'admin', 'user' and 'guest' map to their own roles. Every other string maps to the unknown role, which is then never one of those three names. |
| AuthContext.PermissionMonotone | src/contexts/AuthContext.tsx:79-91 | What a lower level may do, a higher level may do: nobody or a guest, then a user, then the admin. |
| AuthContext.OnlyAdminBeyondUserActions | src/contexts/AuthContext.tsx:83-89 | An action outside the user actions, such as 'moderate', is allowed exactly for the admin. |
| AuthContext.FindByEmail | src/contexts/AuthContext.tsx:55 | Finds a user exactly when some user has the email, and then it is the first user with it. |
| AuthContext.Login | src/contexts/AuthContext.tsx:53-59 | Always succeeds and signs in one of the six built-in users. A known email signs in its account. An unknown one signs in the first user, the admin. |
| AuthContext.Register | src/contexts/AuthContext.tsx:61-72 | Always succeeds and signs in a 'user' with the given name, email and id, and no avatar. |
| AuthContext.Logout | src/contexts/AuthContext.tsx:74-77 | Signs out, after which only viewing is permitted. |
| AuthContext.UpdateUser | src/contexts/AuthContext.tsx:45-51 | Does nothing without a user. Otherwise each field the patch supplies replaces the user's, and the rest stay. |
| AuthContext.UpdateUserIdempotent | src/contexts/AuthContext.tsx:45-51 | An empty patch changes nothing, and applying a patch twice equals applying it once. |
| TagInput.AddTag | src/components/TagInput.tsx:24-30 | Run on Enter, on ',' and when the field loses focus. The trimmed text is appended, and the field cleared, exactly when the text is not blank and its trimmed form is not already a tag. Otherwise tags and text are unchanged. |
| TagInput.AddTagKeepsNoDuplicates | src/components/TagInput.tsx:24-30 | If the tags had no duplicates before adding, they have none after. |
| TagInput.SkipIndex | src/components/TagInput.tsx:33 | The index filter keeps the elements before and after the skipped index, in order. It keeps all of them when the index is outside the range. |
| TagInput.RemoveTag | src/components/TagInput.tsx:32-35 | Exactly the tag at the index is dropped, and the others keep their order. An out-of-range index changes nothing. |
| TagInput.RemoveTagKeepsNoDuplicates | src/components/TagInput.tsx:32-35 | Removing a tag never creates a duplicate. |
| TagInput.HandleKeyDown | src/components/TagInput.tsx:15-22 | Enter and ',' add the tag. Backspace in an empty field with tags removes the last tag. Backspace otherwise, and every other key, change nothing. |
| TagInput.HandleKeyDownKeepsNoDuplicates | src/components/TagInput.tsx:15-35 | No key creates a duplicate tag. |
| AskQuestion.Validate | src/pages/AskQuestion.tsx:20-50 | Submission starts exactly when the title and description are not blank and there is at least one tag, however many. Otherwise the reported problem is the first failing check: title, then description, then tags. |
| AskQuestion.FirstFailure | src/pages/AskQuestion.tsx:23-48 | A list of checks is rejected exactly when some check fails. |
| AskQuestion.ValidateReportsFirstFailure | src/pages/AskQuestion.tsx:23-50 | The verdict equals the first failing check among title, description and tags, in that order. |
| Home.FilterQuestions | src/pages/Home.tsx:78-90 | Every result satisfies the search, status and tag predicates. |
| Home.FilterQuestionsIsExact | src/pages/Home.tsx:78-90 | Each question satisfying all three predicates is kept as often as it occurs in the input. Nothing else is kept. |
| Home.FilterQuestionsKeepsOrder | src/pages/Home.tsx:78 | Filtering a concatenation filters each part in turn, so the survivors keep their order. |
| Home.DefaultFiltersKeepAll | src/pages/Home.tsx:73-89 | The empty search with 'all' and 'all-tags' keeps every question. |
| Home.UnknownStatusKeepsNothing | src/pages/Home.tsx:83-85 | A status other than 'all', 'answered' and 'unanswered' keeps nothing. |
| Home.SearchIgnoresQueryCase | src/pages/Home.tsx:79-81 | Lower-casing the query first does not change which questions match the search. |
| Home.SortByVotes | src/pages/Home.tsx:96-97 | The same questions, with votes never increasing along the list. |
| Home.SortByAnswers | src/pages/Home.tsx:98-99 | The same questions, with answer counts never increasing along the list. |
| Home.SortsAreStable | src/pages/Home.tsx:96-99 | Questions with equal votes, or equal answer counts, keep their filtered order. |
| Text.Trim | src/components/TagInput.tsx:25 | Gives the empty string exactly for blank text. Otherwise the result neither starts nor ends with whitespace. It is a piece of the text with only whitespace before and after it. |
| Text.TrimIdempotent | src/components/TagInput.tsx:25 | Trimming twice equals trimming once. |
| Text.Includes | src/pages/Home.tsx:79-81 | `includes` holds exactly when the substring occurs at some position. |
| Text.ToLower | src/pages/Home.tsx:79-81 | Keeps the length and maps each character through the lower-casing of A-Z. |
| Sorting.SortDesc | src/pages/Home.tsx:96-99 | Gives a permutation of the input with keys never increasing. |
| Sorting.SortDescIsStable | src/pages/Home.tsx:96-99 | For every key value, the elements with that key keep their input order. |
| RichTextEditor.SmileyIsSurrogatePair | src/components/RichTextEditor.tsx:69-70 | The emoji is the two UTF-16 code units D83D DE0A. |
| RichTextEditor.Substring | src/components/RichTextEditor.tsx:33 | For bounds inside the text in order, `substring` is the slice between them. |
| RichTextEditor.SubstringIsSymmetric | src/components/RichTextEditor.tsx:33 | Swapping the two bounds gives the same substring. |
| RichTextEditor.OrPlaceholder | src/components/RichTextEditor.tsx:48-67 | An empty selection is replaced by the placeholder, and a non-empty one kept. |
| RichTextEditor.FormatCode | src/components/RichTextEditor.tsx:37-74 | Bold, italic and strikethrough wrap the selection in `**`, `*` and `~~`. List, link, image and the alignments contain the selection, or their placeholder text when nothing is selected. The emoji is the two code units D83D DE0A whatever the selection. An unknown format gives back the selection. |
| RichTextEditor.ListCodes | src/components/RichTextEditor.tsx:47-52 | A list item is a new line, then "- " or "1. ", then the selection or "List item". |
| RichTextEditor.LinkCodes | src/components/RichTextEditor.tsx:53-58 | A link is `[` selection-or-"Link text" `](URL)`. An image is `![` selection-or-"Alt text" `](Image URL)`. |
| RichTextEditor.AlignmentCodes | src/components/RichTextEditor.tsx:59-67 | Each alignment wraps the selection, or "Text", in `<div align="left">`, `"center"` or `"right"`, closed by `</div>`. |
| RichTextEditor.PlaceholderFormats | src/components/RichTextEditor.tsx:48-67 | List, ordered list, link, image and the alignments use "List item", "Link text", "Alt text" or "Text" for an empty selection. A non-empty selection is kept. |
| RichTextEditor.FormatText | src/components/RichTextEditor.tsx:27-84 | The new text is the text before the clamped start, then the snippet, then the text after the clamped end. The caret is the start plus the snippet's length. |
| RichTextEditor.FormatTextSplices | src/components/RichTextEditor.tsx:76-83 | For a selection inside the text, the text outside it is kept and the selection becomes the snippet. The length changes by the snippet length minus the selection length, and the caret lands right after the snippet. |
| RichTextEditor.UnknownFormatKeepsText | src/components/RichTextEditor.tsx:72-77 | An unknown format leaves the text unchanged and puts the caret at the selection's end. |
| LanguageContext.T | src/contexts/LanguageContext.tsx:103-106 | An unknown language or an unknown key gives the key itself. Otherwise the result is the key or the table entry. |
| LanguageContext.SameKeysEverywhere | src/contexts/LanguageContext.tsx:11-88 | The languages are en, es, fr and de, and all four tables define the same 17 keys. |
| LanguageContext.EntriesAreProper | src/contexts/LanguageContext.tsx:11-88 | No table entry is empty, and none equals its key. |
| LanguageContext.KnownKeyIsTranslated | src/contexts/LanguageContext.tsx:103-106 | A key of the English table never falls back in a supported language. `t` gives that language's entry, which is not the key. |

## Left out

- Rendering: JSX, CSS classes other than the heatmap colours, toasts (only which one is raised
  is modelled), `navigate` and `e.preventDefault()`.
- Storage: `localStorage` reads and writes and `JSON.parse` / `JSON.stringify`.
  - The stored list comes in as an `Option` parameter; absence is `None`.
  - Corrupt stored data makes the source throw, which is not modelled.
- Events: `window` event dispatch (`activityUpdated`) and the hook's event listeners.
- Timers: the `setTimeout` delays of answer submission, question submission and caret placement.
  - Only the committed state change is modelled.
  - `isSubmitting` is not modelled.
- Dates: `Date`, `toISOString` (UTC) against `setDate` / `getDay` (local time), and the
  resulting time-zone mismatch around midnight.
  - Days are integers.
  - The weekday offset is a parameter.
  - `Date.now()` ids are parameters.
- Home's 'newest' and 'oldest' sorts and the default branch. They parse relative strings such
  as "2 hours ago" with `new Date`, which gives NaN and an implementation-defined order.
- Text.ToLower: folds only A-Z. JavaScript's `toLowerCase` also folds non-ASCII letters,
  which the modelled data does not use.
- LanguageContext.T: lookups that reach the object prototype are not modelled. An example is
  the key 'constructor'.
- QuestionDetail.DisplayOrder: the source sorts the answer array in place during rendering.
  The model returns the sorted list without changing the stored one.
- RichTextEditor.FormatText: the early return when the textarea element is missing is a DOM
  lookup and is left out.
- AuthContext.UpdateUser: a patch key present with the value `undefined` would overwrite the
  field with `undefined`. The model only distinguishes supplied from absent fields.
- The markdown renderer, the settings page and the pages that only render.
