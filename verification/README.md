# Speaki — a Dafny model of its core

Speaki is a language-learning web application. Learners browse courses and
debate topics and work through scripted audio lessons: the screen plays the
AI side of a conversation, records the learner's side and gives simulated
speaking feedback. They can also practise live debates against canned AI
replies. Administrators maintain courses, lessons and conversations through
server actions behind a cookie-guarded admin area. They can also upload a
spreadsheet of conversation turns. Everything is stored in Postgres through
Drizzle.

This project models the logic of that application as immutable datatypes and
pure functions, one module per source file or concern:

- `Wrappers`, `Text`, `Seqs`, `Sorting`, `Arith`, `Sql`: JavaScript string and
  array operations, `ORDER BY` with its NULL placement, `ILIKE`, rounding
  divisions.
- `Schema`: the database as a store of maps keyed by primary key. The enums,
  foreign keys, cascading deletes, the unique e-mail and the defaults of a
  new progress row are enforced by every statement.
- `CourseQueries`, `DebateQueries`, `Categories`, `LessonConversations`: the
  reads. These cover filters, ordering, lookups by id, the category list, and
  the lesson conversation with its in-memory fallbacks.
- `AdminForms`, `AdminCourses`, `AdminLessons`, `AdminConversations`,
  `UploadTurns`: the administrator's writes. These cover form validation, the
  two-statement `lessons_count` bump, and the spreadsheet import.
- `Middleware`: which requests reach the admin area.
- `VoiceConfig`, `VoiceRecorder`: language tags, voice presets, voice
  resolution, the recognition language, the transcript, and the speaking
  feedback.
- `Conversation`, `LessonInterface`, `DebateInterface`, `Clock`: the lesson
  and debate screens as state machines over explicit state records.
- `Dashboard`, `DebatesPage`, `CourseGrid`, `CourseCard`: what the pages
  derive from the data they receive.

Database statements are functions from a store to a new store. A statement
that a constraint rejects yields `Failure` and changes nothing. A statement
that throws for a reason outside the model (a lost connection) is a boolean
parameter of the write action that issues it (`fault`, `insertFails`,
`incrementFails`, `deleteFails`) and a `None` answer of a read. Generated ids,
the browser's voice list, recognition events and the JSON codec are
parameters of the operations that use them.

## Model

| member | source | states |
|---|---|---|
| Middleware.IsAuthenticated | middleware.ts:15-24 | signed in exactly when the `speaki_session` cookie is present, non-empty and its token verifies |
| Middleware.Gate | middleware.ts:26-41 | paths outside `/admin` pass; the sign-in page passes when signed out and sends a signed-in visitor to `/admin`; other admin pages pass only when signed in, else go to the sign-in page |
| Middleware.SignInUnderAdmin | auth.config.ts:1-2 | the sign-in path starts with the admin prefix (so the login branch is reachable) and not the other way round |
| Middleware.NoRedirectLoop | middleware.ts:26-41 | following any redirect of the gate with the same cookie is let through: the gate never redirects twice in a row |
| Middleware.SignInNeverRedirectsToItself | middleware.ts:34-36 | a request for the sign-in page is never redirected to the sign-in page |
| Middleware.AdminPagesNeedSignIn | middleware.ts:37-40 | an admin page other than sign-in is served exactly when the cookie verifies |
| Middleware.Route | middleware.ts:26-45 | only paths the `/admin/:path*` matcher selects are ever redirected; the sign-in page is served, or sends a signed-in user to `/admin`; every other matched page is served exactly when the cookie verifies |
| Middleware.MatchedIsAdmin | middleware.ts:43-45 | every matched path starts with `/admin`, so the gate treats it as an admin page |
| Middleware.AdministratorNotGated | middleware.ts:43-45 | `/administrator` starts with `/admin` and the gate alone would redirect it to sign-in, but the matcher does not select it, so it is served |
| Categories.CodePointsInjective | app/api/courses/categories/route.ts:19 | the sort key separates different strings, so the ordering of categories has no ties |
| Categories.Cleaned | app/api/courses/categories/route.ts:16 | one entry per row, the category with NULL read as empty, trimmed |
| Categories.CategoryList | app/api/courses/categories/route.ts:13-19 | a category is listed exactly when some row's trimmed category equals it and it is non-empty; no category twice; the list is in ascending order |
| Categories.CategoryListTrimmed | app/api/courses/categories/route.ts:16-17 | every listed category is non-empty and already trimmed |
| Categories.CategoryListStrict | app/api/courses/categories/route.ts:13-19 | the list is strictly increasing |
| Categories.GetCategories | app/api/courses/categories/route.ts:5-26 | success with status 200 and the category list exactly when the query succeeds; otherwise status 500 with no data |
| Clock.FormatTime | components/audio-lesson-interface.tsx:263-267 | the label is at least four characters, a colon third from the end, followed by two digits |
| Clock.FormatTimeRoundTrip | components/audio-debate-interface.tsx:162-166 | reading the label back (digits before the colon times 60 plus the two digits after) gives the seconds it was made from |
| CourseGrid.ToggleLike | components/course-grid.tsx:22-26 | the toggled id's membership flips, every other id keeps its membership, and an id not yet liked is appended at the end |
| CourseGrid.ToggleLikeTwice | components/course-grid.tsx:22-26 | toggling the same id twice restores the liked set |
| CourseGrid.ToggleLikeDistinct | components/course-grid.tsx:22-26 | a liked list without repeats keeps none after a toggle |
| CourseGrid.ColourIndex | components/course-grid.tsx:54 | the colour scheme chosen for a card is a valid index into the twelve-entry palette, congruent to the card's position |
| CourseGrid.ColourCycles | components/course-grid.tsx:28-41 | cards twelve positions apart get the same colour scheme |
| CourseGrid.FetchKeyInjective | components/course-grid.tsx:18 | different levels give different fetch keys, so a level change refetches |
| CourseCard.LeadingSlashes | components/course-card.tsx:22 | the length of the leading run of slashes that `^\/+` matches: every character before it is a slash and the next is not |
| CourseCard.CollapseLeadingSlashes | components/course-card.tsx:22 | a string without a leading slash is unchanged; otherwise its whole leading run of slashes becomes a single slash |
| CourseCard.CollapseIdempotent | components/course-card.tsx:22 | after the replacement no leading `//` remains and replacing again changes nothing |
| CourseCard.CollapseKeepsTail | components/course-card.tsx:22 | collapsing a prefix plus a tail that starts with one slash keeps the tail whole at the end and is never empty; an all-slash prefix disappears |
| CourseCard.EmptyBasePath | components/course-card.tsx:15-22 | with the default empty base path the link is `/courses/` followed by the id |
| CourseCard.HrefEndsWithCourse | components/course-card.tsx:22 | for every base path the link ends with `/courses/` and the id, and the collapsed string is never empty, so the `\|\|` fallback is dead code |
| Dashboard.ProgressOf | drizzle/schema.ts:213-219 | a stored progress row is a renderable record exactly when every column is present and no counter is negative, and then the record carries the row's values |
| Dashboard.XpPercent | app/dashboard/page.tsx:53-54 | the percentage is the XP as a share of 3000, times 100, and is never negative |
| Dashboard.PercentLabel | app/dashboard/page.tsx:90 | the label is the floor of the percentage: at most the percentage and less than one below it |
| Dashboard.BarWidth | app/dashboard/page.tsx:125-129 | the bar width lies in 0..100, is the percentage itself below 3000 XP, and is full exactly when the XP reaches 3000 |
| Dashboard.PercentLabelIsThirtieths | app/dashboard/page.tsx:53-54 | the label equals the XP integer-divided by 30, for the exact share (the page's double differs at 870 XP) |
| Dashboard.BarWidthMonotone | app/dashboard/page.tsx:128 | more XP never gives a shorter bar |
| Dashboard.LabelOutrunsBar | app/dashboard/page.tsx:90 | from 3030 XP on the label reads above 100 % while the bar is full: the label is not capped |
| Dashboard.NextLevelLabels | app/dashboard/page.tsx:120 | the heading after A1 and after A2 is `B`, after B1 `C`, after B2 `Expert` |
| Dashboard.StringOrderIsCefrOrder | app/dashboard/page.tsx:221 | on the four level names, the string comparison `level < progress.level` is exactly the CEFR order A1 < A2 < B1 < B2 |
| Dashboard.StringLessPair | app/dashboard/page.tsx:221 | on two-character strings, `<` compares the first characters, then the second |
| Dashboard.ProgressionWidths | app/dashboard/page.tsx:205-228 | of the four bars, those below the current level are 100 % wide, the current one 50 % and those above 0 %, each exactly so |
| Dashboard.TimeSpent | app/dashboard/page.tsx:244 | the time spent lies between 12 and 45 minutes per completed course or debate |
| Dashboard.AverageSessionAsWritten | app/dashboard/page.tsx:250 | the average as written is `NaN` exactly when nothing has been completed |
| Dashboard.NewUserSeesNaN | app/dashboard/page.tsx:250 | a freshly inserted progress row (all counters 0) makes the page show `NaN min` |
| Dashboard.AverageSession | app/dashboard/page.tsx:250 | the guarded average is 0 with no sessions and otherwise between 12 and 45 minutes |
| Dashboard.BetweenBounds | app/dashboard/page.tsx:250 | dividing a total between lo·n and hi·n by n gives a quotient between lo and hi |
| Dashboard.AverageSessionAgrees | app/dashboard/page.tsx:250 | wherever the written average shows a number, the guarded one shows the same number |
| Dashboard.AvatarSource | app/dashboard/page.tsx:64 | the image source is never empty and is the user's avatar whenever one is set |
| DebatesPage.Toggle | app/debates/page.tsx:88 | clicking the selected button clears the selection; clicking any other selects it |
| DebatesPage.ToggleTwice | app/debates/page.tsx:86-91 | clicking a button twice from no selection returns to no selection |
| DebatesPage.QueryString | app/debates/page.tsx:20-23 | no level (or an empty one) sends no parameter; a selected level is sent as `level=` and the level |
| DebatesPage.QueryStringInjective | app/debates/page.tsx:20-23 | different selected levels give different fetch keys, and a selected level never gives the same key as none |
| DebatesPage.VisibleTopics | app/debates/page.tsx:28-35 | the grid shows only received topics that pass the difficulty and search tests, shows every such topic, and shows all of them when all pass |
| DebatesPage.FiltersCompose | app/debates/page.tsx:28-35 | filtering by difficulty and search together is the same as filtering by difficulty and then by search |
| DebatesPage.VisibleKeepsOrder | app/debates/page.tsx:28 | the visible topics of two concatenated lists are the concatenation of their visible topics, so the received order is kept |
| DebatesPage.MatchesSearchAsWritten | app/debates/page.tsx:30-33 | the search test throws exactly when the query is non-empty, the title does not contain it and the description is NULL; otherwise it agrees with the null-safe test |
| DebatesPage.VisibleTopicsAsWritten | app/debates/page.tsx:28-35 | the filter as written fails exactly when some received topic throws in the search test, and otherwise yields the visible topics |
| DebatesPage.NullDescriptionCrashes | app/debates/page.tsx:33 | a topic with an empty title and a NULL description, searched for `x`, makes the render throw where the null-safe filter just hides it |
| Sql.DescNullsFirstOrder | lib/debates.ts:50 | under `DESC`, a NULL comes before everything and otherwise the larger value comes first |
| Sql.AscNullsLastOrder | lib/courses.ts:126 | under `ASC`, smaller values come first and NULLs come last |
| Sql.LexLePair | lib/debates.ts:50 | keys of two components are compared on the first, then on the second |
| Sql.ThenBy | lib/debates.ts:50 | `ORDER BY x, y` compares on x and falls back to y only on a tie |
| Sql.Select | lib/debates.ts:48-50 | the selected rows are exactly the table rows satisfying the `WHERE` clause, each with its multiplicity, sorted by the `ORDER BY` key |
| DebateQueries.RankOrder | lib/debates.ts:50 | a topic ranks no later than another exactly when its rating comes first under `DESC`, or the ratings tie and its participant count comes first |
| DebateQueries.SelectedTopics | lib/debates.ts:14-50 | the rows returned are exactly the matching rows (level, case-insensitive category substring, featured), with multiplicity, in rating-then-participants descending order with NULLs first |
| DebateQueries.DecodeList | lib/debates.ts:54-57 | a stored string is JSON-parsed, and an unparsable one throws; any other value passes through; NULL stays NULL |
| DebateQueries.NormaliseTopic | lib/debates.ts:52-62 | a row normalises exactly when its four list columns decode; the result keeps the row's id, title and counts, decodes the lists, reads a NULL rating as 0 and `isFeatured` as true only when it is true |
| DebateQueries.NormaliseAll | lib/debates.ts:52-62 | the map succeeds exactly when every row decodes, and then yields one normalised topic per row, in order |
| DebateQueries.GetDebateTopics | lib/debates.ts:14-67 | a failing query or a level that is not a `course_level` label gives `[]`; one unparsable row gives `[]`; otherwise the normalised selected rows, in order |
| DebateQueries.FeaturedOnly | lib/debates.ts:25-27 | with the featured switch on, every row selected and every topic returned is featured |
| DebateQueries.GetDebateTopicById | lib/debates.ts:69-110 | a topic is returned only for the requested id; an unknown id gives `null`; for a found row the result is its normalisation, present exactly when the row decodes |
| CourseQueries.SelectedCourses | lib/courses.ts:23-65 | the rows returned are exactly the rows matching the given filters, with multiplicity, newest first with a NULL creation time before every other |
| CourseQueries.GetCourses | lib/courses.ts:23-78 | a failing query or an invalid level label gives `[]`; otherwise one normalised course per selected row, in the selection's order (NULL rating and count read as 0, trending only when true, NULL date as the epoch) |
| CourseQueries.NoFiltersSelectAll | lib/courses.ts:64 | with no filter given every stored course is returned |
| CourseQueries.SearchMatches | lib/courses.ts:33-41 | a search matches a course exactly when its title, description or instructor contains the text, ignoring case, with NULL columns never matching |
| CourseQueries.LessonsOf | lib/courses.ts:112-126 | the lessons returned are exactly those of the course, with multiplicity, in ascending element order with NULL orders last |
| CourseQueries.GetCourseById | lib/courses.ts:84-140 | a course is returned exactly when both queries succeed and the id exists; it is the normalised row of that id together with its ordered lessons |
| Wrappers.Get | lib/admin-actions.ts:41-51 | a lookup answers exactly for a key that is present, and then with that key's value; `formData.get` of a field that was not sent is `null` |
| AdminForms.NullIfBlank | lib/admin-actions.ts:72-78 | `x \|\| null` is null exactly for a missing or empty text, and otherwise the text itself |
| AdminForms.RequiredText | lib/admin-actions.ts:12 | `min(1)` rejects exactly a missing or empty title; an accepted title is the non-empty text sent |
| AdminForms.WholeNumber | lib/admin-actions.ts:17-20 | a blank count is accepted as `null`; otherwise it is rejected exactly when `Number` of the text is not a non-negative whole number, and accepted as that number |
| AdminForms.OrZero | lib/admin-actions.ts:76-79 | `n \|\| 0` stores 0 for `null` and the number otherwise |
| AdminForms.ErrorIf | lib/admin-actions.ts:57-62 | a field is listed among the errors exactly when its check failed, and nothing else is listed |
| AdminForms.StampedId | lib/admin-actions.ts:66 | the id starts with its prefix and has at least one more character |
| AdminForms.StampedIdReadsBack | lib/admin-actions.ts:66 | the digits after the prefix parse back to the timestamp |
| AdminForms.StampedIdInjective | lib/admin-lesson-actions.ts:58 | ids made with the same prefix from different timestamps differ |
| AdminCourses.LessonsCountField | lib/admin-actions.ts:101 | a missing or blank lesson count becomes 0 before validation; any other text is checked as a whole number |
| AdminCourses.LevelField | lib/admin-actions.ts:14 | the level is accepted exactly when it is one of `A1`, `A2`, `B1`, `B2`, and is then that level |
| AdminCourses.ValidateCourse | lib/admin-actions.ts:10-21 | the form is rejected exactly when the title, level or one of the three counts fails its check, listing exactly the failing fields (never none); an accepted form keeps the title and level and stores blank optional texts as null |
| AdminCourses.NewCourseRow | drizzle/schema.ts:152-168 | the inserted row carries the form's fields, the counters the action sets, and the table defaults: enrollment and rating count 0, no rating, not trending, created now |
| AdminCourses.PatchCourse | lib/admin-actions.ts:117-131 | the update sets title, description, level, category, thumbnail, duration, lesson count, instructor and XP reward from the form and keeps the id, enrollment count, rating, rating count, trending flag and creation time |
| AdminCourses.CreateCourse | lib/admin-actions.ts:40-91 | field errors exactly when validation fails; `Database Error: Failed to Create Course.` exactly when the insert throws (a fault, a taken stamped id, or a duration or XP reward beyond the `integer` range, which zod lets through), with nothing changed; otherwise one new row under `c` + timestamp with lesson count 0, nothing else changed, and a redirect to `/admin/courses` |
| AdminCourses.UpdateCourseAction | lib/admin-actions.ts:93-139 | field errors exactly when validation fails; `Database Error: Failed to Update Course.` exactly when the update throws (a fault, or a duration, lesson count or XP reward beyond the `integer` range, whatever the id), with nothing changed; otherwise a redirect, the course `id` (when it exists) patched with the form, every other course and table unchanged, and no course added or removed |
| AdminCourses.DeleteCourseAction | lib/admin-actions.ts:141-150 | `Database Error: Failed to Delete Course.` with nothing changed when the delete throws; otherwise `Deleted Course.`, the course is gone, every other course stays, no lesson of it remains, and conversations and turns are untouched |
| AdminCourses.CreateCourseConsistent | lib/admin-actions.ts:68-80 | creating a course keeps every key, foreign-key and uniqueness constraint of the store |
| AdminCourses.UpdateCourseConsistent | lib/admin-actions.ts:117-131 | updating a course keeps every constraint of the store |
| AdminCourses.DeleteCourseActionConsistent | lib/admin-actions.ts:141-150 | deleting a course keeps every constraint of the store |
| AdminCourses.CreatedCourseNormalised | lib/admin-actions.ts:69-80 | a created course has a non-empty title, no empty optional text, duration and XP reward that are whole numbers within the `integer` range, and lesson count 0 |
| AdminCourses.CreatedCourseDuration | lib/admin-actions.ts:47 | a missing or blank duration is stored as 0, and a given one as the whole number `Number` made of it |
| AdminLessons.ValidateLesson | lib/admin-lesson-actions.ts:10-20 | the form is rejected exactly when the course, title, duration or element order fails its check, listing exactly those fields (never none); an accepted form keeps the course and title and stores blank optional texts as null |
| AdminLessons.LessonRowOf | lib/admin-lesson-actions.ts:64-74 | the stored row carries the id, the course, the title, the duration and order with blanks as 0, and the conversation id |
| AdminLessons.CreateLesson | lib/admin-lesson-actions.ts:39-91 | field errors exactly when validation fails; nothing changes exactly when the insert throws (a fault, a taken id, an unknown course, or a duration or element order beyond the `integer` range), and that is a database error; otherwise the lesson is inserted, and the course's count is bumped with a redirect unless the second statement throws (a fault, or a count already at the `integer` maximum), which leaves the lesson and reports a database error; no other table changes |
| AdminLessons.PatchLesson | lib/admin-lesson-actions.ts:117-129 | the update sets course id, title, description, content, duration, video URL, element order and conversation id from the form and keeps only the lesson's id |
| AdminLessons.UpdateLessonAction | lib/admin-lesson-actions.ts:93-137 | field errors exactly when validation fails; `Database Error: Failed to Update Lesson.` exactly when the update throws (a fault, a duration or element order beyond the `integer` range, or an existing lesson moved to an unknown course); otherwise a redirect with only lesson `id` patched; no lesson added or removed, no other table touched |
| AdminLessons.DeleteLessonAction | lib/admin-lesson-actions.ts:139-148 | `Database Error: Failed to Delete Lesson.` with nothing changed when the delete throws; otherwise `Deleted Lesson.` and exactly the lesson `id` goes; the other lessons and every course, its count included, stay as they were |
| AdminLessons.CreateLessonCounts | lib/admin-lesson-actions.ts:63-81 | a successful create adds exactly one lesson, raises its course's non-NULL count by one and leaves every other course's count alone |
| AdminLessons.CreateLessonHalfDone | lib/admin-lesson-actions.ts:63-87 | the two statements are not atomic: when the count update throws after an insert that went through, the action reports a database error but the new lesson stays and no count changes |
| AdminLessons.UpdateLessonKeepsCounts | lib/admin-lesson-actions.ts:116-129 | updating a lesson, even moving it to another course, changes no course's lesson count |
| AdminLessons.CreateLessonConsistent | lib/admin-lesson-actions.ts:63-81 | creating a lesson, with or without the count update failing, keeps every constraint of the store |
| AdminLessons.UpdateLessonConsistent | lib/admin-lesson-actions.ts:116-129 | updating a lesson keeps every constraint of the store |
| AdminLessons.DeleteLessonConsistent | lib/admin-lesson-actions.ts:139-148 | deleting a lesson keeps every constraint of the store |
| AdminLessons.CreateLessonAtCountLimit | lib/admin-lesson-actions.ts:76-87 | with no fault at all, a course whose count is already the `integer` maximum gets the new lesson but the count update throws: a database error, the lesson stays, and no count changes |
| AdminConversations.LessonChoice | lib/admin-conversation-actions.ts:32-34 | the picker value `none` means no lesson; any other value is passed on unchanged |
| AdminConversations.ValidateConversation | lib/admin-conversation-actions.ts:10-16 | the form is rejected exactly when the title is missing or empty, and then only the title is in error; an accepted form keeps the title and stores blank lesson, description and scenario as null |
| AdminConversations.ConversationRowOf | lib/admin-conversation-actions.ts:53-59 | the stored row carries the id and the validated fields, column for column |
| AdminConversations.CreateConversation | lib/admin-conversation-actions.ts:31-69 | field errors exactly when validation fails; `Database Error: Failed to Create Conversation.` exactly when the insert throws (a fault, or the stamped id is taken), with nothing changed; otherwise exactly one new conversation under `conv` + timestamp, nothing else changed, and a redirect to `/admin/conversations` |
| AdminConversations.UpdateConversationAction | lib/admin-conversation-actions.ts:71-108 | field errors exactly when validation fails; `Database Error: Failed to Update Conversation.` exactly when the update throws, with nothing changed; otherwise a redirect, with only the conversation `id` (when it exists) replaced by the form and no conversation added or removed |
| AdminConversations.DeleteConversationAction | lib/admin-conversation-actions.ts:110-119 | `Database Error: Failed to Delete Conversation.` with nothing changed when the delete throws; otherwise `Deleted Conversation.`, exactly the conversation `id` goes, every turn of it goes with it, every other turn stays, and lessons keep their (possibly dangling) conversation ids |
| AdminConversations.NoneMeansNoLesson | lib/admin-conversation-actions.ts:34 | choosing `none` stores no lesson, on create and on update alike |
| AdminConversations.CreateConversationConsistent | lib/admin-conversation-actions.ts:52-59 | creating a conversation keeps every constraint of the store |
| AdminConversations.UpdateConversationConsistent | lib/admin-conversation-actions.ts:91-100 | updating a conversation keeps every constraint of the store |
| AdminConversations.DeleteConversationActionConsistent | lib/admin-conversation-actions.ts:110-119 | deleting a conversation keeps every constraint of the store |
| Schema.ParseLevel | drizzle/schema.ts:4 | a text is a `course_level` exactly when it is `A1`, `A2`, `B1` or `B2`, and then it spells that level |
| Schema.LevelRoundTrip | drizzle/schema.ts:4 | every level's stored spelling reads back as that level |
| Schema.ParseDifficulty | drizzle/schema.ts:5 | a text is a `debate_difficulty` exactly when it is `easy`, `medium` or `hard`, and then it spells that difficulty |
| Schema.DifficultyRoundTrip | drizzle/schema.ts:5 | every difficulty's stored spelling reads back as that difficulty |
| Schema.ParseSpeaker | drizzle/schema.ts:6 | a text is a `speaker_type` exactly when it is `user` or `ai`, and then it spells that speaker |
| Schema.SpeakerRoundTrip | drizzle/schema.ts:6 | every speaker's stored spelling reads back as that speaker |
| Schema.ParseRole | drizzle/schema.ts:7 | a text is a `user_role` exactly when it is `user` or `admin`, and then it spells that role |
| Schema.RoleRoundTrip | drizzle/schema.ts:7 | every role's stored spelling reads back as that role |
| Schema.NewProgress | drizzle/schema.ts:213-219 | a progress row given only its key has XP, streak and both completion counters 0 and level A1 |
| Schema.EmptyDbConsistent | drizzle/schema.ts:26-226 | the empty store satisfies every key, foreign-key and uniqueness constraint |
| Schema.InsertConversation | drizzle/schema.ts:26-32 | the insert fails exactly on a taken id; otherwise exactly that row is added and nothing else changes |
| Schema.InsertTurn | drizzle/schema.ts:34-48 | the insert fails exactly on a taken id or an unknown conversation (`fk_turns_conversation`); otherwise exactly that row is added |
| Schema.InsertCourse | drizzle/schema.ts:152-168 | the insert fails exactly on a taken id or an `integer` column outside the signed 32-bit range; otherwise exactly that row is added |
| Schema.InsertLesson | drizzle/schema.ts:170-186 | the insert fails exactly on a taken id, a set but unknown course (`fk_lessons_course`) or a duration or element order outside the signed 32-bit range; otherwise exactly that row is added |
| Schema.InsertUser | drizzle/schema.ts:88-98 | the insert fails exactly on a taken id or an e-mail already in use (`users_email_key`); otherwise exactly that row is added |
| Schema.InsertProgress | drizzle/schema.ts:213-226 | the insert fails exactly when the user already has a progress row or does not exist, or a counter is outside the signed 32-bit range; otherwise exactly that row is added |
| Schema.InsertSession | drizzle/schema.ts:68-86 | the insert fails exactly on a taken id, a set but unknown topic or user, or a score or XP outside the signed 32-bit range; otherwise exactly that row is added |
| Schema.InsertMessage | drizzle/schema.ts:100-113 | the insert fails exactly on a taken id or an unknown session; otherwise exactly that row is added |
| Schema.InsertUserConsistent | drizzle/schema.ts:88-98 | a successful user insert keeps every constraint, e-mail uniqueness included |
| Schema.InsertProgressConsistent | drizzle/schema.ts:213-226 | a successful progress insert keeps every constraint |
| Schema.InsertTurnConsistent | drizzle/schema.ts:34-48 | a successful turn insert keeps every constraint |
| Schema.InsertLessonConsistent | drizzle/schema.ts:170-186 | a successful lesson insert keeps every constraint |
| Schema.InsertSessionConsistent | drizzle/schema.ts:68-86 | a successful session insert keeps every constraint |
| Schema.InsertMessageConsistent | drizzle/schema.ts:100-113 | a successful message insert keeps every constraint |
| Schema.UpdateCourse | drizzle/schema.ts:152-168 | an update fails exactly when an `integer` column is outside the signed 32-bit range, whatever the id; otherwise it replaces the course with that id when it exists and changes nothing else |
| Schema.UpdateLesson | drizzle/schema.ts:170-186 | an update fails exactly when a duration or element order is outside the signed 32-bit range, or an existing lesson would point at an unknown course; otherwise it replaces that lesson, or changes nothing for an unknown id |
| Schema.UpdateConversation | drizzle/schema.ts:26-32 | an update by id replaces that conversation when it exists and otherwise changes nothing; turns and the set of conversation ids stay |
| Schema.IncrementLessonsCount | lib/admin-lesson-actions.ts:76-81 | the statement fails exactly when the course's count is already the `integer` maximum; otherwise only the course's row changes, by one more lesson, and an unknown course changes nothing |
| Schema.Bump | lib/admin-lesson-actions.ts:79 | SQL `lessons_count + 1`: an error exactly when the count is the `integer` maximum; otherwise a NULL count stays NULL, any other count grows by one, and no other column changes |
| Schema.CoursesChangedConsistent | drizzle/schema.ts:152-186 | adding or rewriting courses under their own keys, removing none, keeps every constraint |
| Schema.LessonsChangedConsistent | drizzle/schema.ts:170-186 | any lesson table whose rows sit under their own keys and point at existing courses or none keeps every constraint |
| Schema.ConversationsChangedConsistent | drizzle/schema.ts:26-48 | adding or rewriting conversations under their own keys, removing none, keeps every constraint |
| Schema.UpdateCourseConsistent | drizzle/schema.ts:152-168 | a successful course update keeps every constraint |
| Schema.UpdateLessonConsistent | drizzle/schema.ts:170-186 | a successful lesson update keeps every constraint |
| Schema.IncrementLessonsCountConsistent | lib/admin-lesson-actions.ts:76-81 | a successful bump of a course's lesson count keeps every constraint |
| Schema.DeleteConversation | drizzle/schema.ts:43-47 | the conversation goes and, by the cascade, exactly the turns of it; lessons, courses and users stay |
| Schema.DeleteCourse | drizzle/schema.ts:181-185 | the course goes and, by the cascade, exactly the lessons of it; conversations and turns stay |
| Schema.DeleteLesson | drizzle/schema.ts:170-186 | only the lesson goes: nothing cascades from a lesson and no counter changes |
| Schema.DeleteSessions | drizzle/schema.ts:108-112 | the sessions go and, by `fk_messages_session`, exactly the messages of them |
| Schema.DeleteConversationConsistent | drizzle/schema.ts:43-47 | deleting a conversation keeps every constraint |
| Schema.DeleteConversationCascades | drizzle/schema.ts:43-47 | after deleting a conversation no turn of it remains and every other turn is intact |
| Schema.DeleteCourseConsistent | drizzle/schema.ts:181-185 | deleting a course keeps every constraint |
| Schema.DeleteCourseCascades | drizzle/schema.ts:181-185 | after deleting a course no lesson of it remains and every other lesson is intact |
| Schema.DeleteSessionsConsistent | drizzle/schema.ts:108-112 | deleting any set of sessions keeps every constraint |
| Schema.DeleteTopicConsistent | drizzle/schema.ts:76-80 | deleting a topic keeps every constraint |
| Schema.DropTopicConsistent | drizzle/schema.ts:76-80 | once no session refers to a topic, removing it keeps every constraint |
| Schema.DeleteUserConsistent | drizzle/schema.ts:81-85 | deleting a user keeps every constraint |
| Schema.DropUserConsistent | drizzle/schema.ts:221-225 | once no session refers to a user, removing it and its progress row keeps every constraint |
| Schema.DeleteUserCascades | drizzle/schema.ts:81-85 | deleting a user removes the user, its progress row, its sessions and their messages, and keeps every session of another user and its messages |
| Schema.DeleteTopicCascades | drizzle/schema.ts:76-80 | deleting a topic removes it, every session of it and every message of those sessions |
| Schema.EmailTakenRejected | drizzle/schema.ts:97 | a user whose e-mail another user already has cannot be inserted |
| LessonConversations.L1WordingFits | lib/lesson-conversations.ts:11-25 | the built-in `l1` conversation has six lines, three officer/passenger exchanges |
| LessonConversations.L2WordingFits | lib/lesson-conversations.ts:26-38 | the built-in `l2` conversation has four lines |
| LessonConversations.L3WordingFits | lib/lesson-conversations.ts:39-51 | the built-in `l3` conversation has four lines |
| LessonConversations.L4WordingFits | lib/lesson-conversations.ts:52-66 | the built-in `l4` conversation has six lines |
| LessonConversations.FallbacksWellScripted | lib/lesson-conversations.ts:10-67 | the in-memory table holds exactly `l1`–`l4`; each entry is filed under its own lesson id, has at least four turns, numbers them by position and alternates Officer/Passenger in whole exchanges |
| LessonConversations.NormaliseCapitalised | lib/lesson-conversations.ts:18-23 | a role written with one leading capital, as the built-in roles are, normalises to the same word with that capital lowered |
| LessonConversations.OfficerNormalises | lib/lesson-conversations.ts:18 | the built-in role `Officer` normalises to `officer` |
| LessonConversations.PassengerNormalises | lib/lesson-conversations.ts:19 | the built-in role `Passenger` normalises to `passenger` |
| LessonConversations.OfficerAlias | components/audio-lesson-interface.tsx:150-151 | `officer` is an AI alias and not a learner alias |
| LessonConversations.OfficerIsAi | lib/lesson-conversations.ts:18 | an `Officer` turn is never the learner's, at any index, under the record button's alias lists as written and as corrected |
| LessonConversations.PassengerIsLearner | lib/lesson-conversations.ts:19 | a `Passenger` turn is always the learner's, at any index, under the alias lists as written and as corrected |
| LessonConversations.WellScriptedLearnerTurns | lib/lesson-conversations.ts:10-67 | in every built-in conversation the learner speaks exactly the odd-indexed (passenger) turns, on the screen as written and as corrected |
| LessonConversations.DecodeColumn | lib/lesson-conversations.ts:106-107 | a language-map column fails exactly when it is a string that does not parse as JSON; it is absent exactly when it is SQL NULL; a structured value passes through unchanged |
| LessonConversations.TurnOf | lib/lesson-conversations.ts:104-108 | a turn row becomes a turn exactly when both language maps decode; the turn then keeps the row's id, role, text and order and carries the decoded maps |
| LessonConversations.TurnsOf | lib/lesson-conversations.ts:104-108 | mapping the rows succeeds exactly when every row decodes, and then yields one turn per row, in row order, each that row's decoded turn |
| LessonConversations.CollectTurns | lib/lesson-conversations.ts:91-101 | lists every turn row of the conversation exactly once, with its key, and no other row |
| LessonConversations.DecodedRows | lib/lesson-conversations.ts:91-108 | decoding the collected rows one by one yields, key for key, the decoded turns of the conversation |
| LessonConversations.AssembledOfSorted | lib/lesson-conversations.ts:102-113 | any `order_index`-sorted permutation of the decoded turns, with the conversation row's fields, is that conversation with all its turns and no others |
| LessonConversations.GetLessonConversationById | lib/lesson-conversations.ts:69-120 | a row is chosen exactly when the database answers and some conversation's id or lesson id equals the key; then the result is that conversation with all its turns sorted by `order_index` when every turn decodes, and otherwise (no row, database down, a turn that does not parse) the built-in table's entry |
| LessonInterface.Localized | components/audio-lesson-interface.tsx:39-48 | a turn's language map yields its exact entry for the language when that is non-empty; otherwise only the first key, in key order, that starts with the lower-cased primary subtag is consulted, and its value is used exactly when non-empty; nothing is ever the empty string |
| LessonInterface.LookupOfFirstVariant | components/audio-lesson-interface.tsx:45-46 | indexing the map by the variant key that `find` returned reads that same entry's value |
| LessonInterface.GetTurnText | components/audio-lesson-interface.tsx:37-49 | no turn gives '', a turn without translations gives its default text, and a translated turn gives its default text or one of its non-empty translations |
| LessonInterface.GetRomanization | components/audio-lesson-interface.tsx:52-63 | no turn, or a turn without romanizations, gives '' |
| LessonInterface.RomanizationIsTurnTextRule | components/audio-lesson-interface.tsx:51-63 | the romanization follows exactly the turn-text rule, applied to the romanization map with '' as the default |
| LessonInterface.ExactEntryWins | components/audio-lesson-interface.tsx:41-42 | a non-empty exact-language entry always wins over variants and the default text |
| LessonInterface.OnlyFirstVariantConsulted | components/audio-lesson-interface.tsx:45-48 | when the first matching variant is empty the default text is shown, whatever later variants hold |
| LessonInterface.NormalizeRole | components/audio-lesson-interface.tsx:94 | a normalised role holds no upper-case letter |
| LessonInterface.CapitalisedAliasesNeverMatch | components/audio-lesson-interface.tsx:94-96 | no normalised role can equal the capitalised aliases `Friend` or `Me` |
| LessonInterface.NormalizeTrimmedRole | components/audio-lesson-interface.tsx:94 | a role without surrounding white space is only lower-cased |
| LessonInterface.FriendAtEvenIndexIsNotUser | components/audio-lesson-interface.tsx:95-99 | a `Friend` turn at index 0 is not the learner's under the written aliases, but is under the lower-cased ones |
| LessonInterface.IsUserTurnAgrees | components/audio-lesson-interface.tsx:95-99 | the written and lower-cased alias lists classify every role alike except one normalising to `friend` (always the learner's when corrected) or `me` (never the learner's when corrected) |
| LessonInterface.DerivedRoles | components/audio-lesson-interface.tsx:152-159 | the AI and user roles are derived together, exactly when the first two turns' normalised roles differ, and then they are those two roles |
| LessonInterface.BlankFirstRoleIsNotAi | components/audio-lesson-interface.tsx:156-163 | a blank first role followed by `Passenger` makes the roles differ, yet the written check does not treat the opening turn as the AI's; the corrected one does |
| LessonInterface.FirstIsAiIff | components/audio-lesson-interface.tsx:156-163 | the opening turn is the AI's exactly when the first two normalised roles differ or the first is an AI alias |
| LessonInterface.FirstIsAiAgrees | components/audio-lesson-interface.tsx:156-163 | the written and corrected opening-turn checks agree whenever the first role is not blank |
| LessonInterface.PlayAiMessage | components/audio-lesson-interface.tsx:172-184 | playing an AI message appends it, for the given turn, and starts listening without moving the turn index |
| LessonInterface.SpeechEnded | components/audio-lesson-interface.tsx:189-192 | when the speech ends listening stops and the turn index moves one past the spoken turn |
| LessonInterface.Initial | components/audio-lesson-interface.tsx:140-170 | on mount the index is 0; the opening turn's text is played as an AI message exactly when the check as written (with its truthiness test) finds the opening turn the AI's, and otherwise there are no messages |
| LessonInterface.StartRecording | components/audio-lesson-interface.tsx:196-212 | recording starts with a cleared transcript when the microphone is granted and drops again when it is not; turn index and messages are untouched |
| LessonInterface.TranscriptUpdated | components/audio-lesson-interface.tsx:202-204 | a transcript update replaces the live transcript and nothing in the flow |
| LessonInterface.UserText | components/audio-lesson-interface.tsx:221 | the user's message is the trimmed live transcript, or the turn's scripted text when that is blank |
| LessonInterface.StopRecording | components/audio-lesson-interface.tsx:214-261 | a recorder never started, or an index past the script, only clears the processing flag; otherwise the current turn is recorded |
| LessonInterface.RecordTurn | components/audio-lesson-interface.tsx:221-255 | the user's message for the current turn is appended; on the last turn the conversation ends there, otherwise the index moves on and the next turn is played as an AI message |
| LessonInterface.InitialValid | components/audio-lesson-interface.tsx:140-170 | the mounted state as written keeps the flow invariant: index within the script, messages for real turns in turn order |
| LessonInterface.SpeechEndedValid | components/audio-lesson-interface.tsx:189-192 | the end of an AI message keeps the flow invariant |
| LessonInterface.StartRecordingValid | components/audio-lesson-interface.tsx:196-212 | starting a recording keeps the flow invariant |
| LessonInterface.RecordTurnValid | components/audio-lesson-interface.tsx:221-255 | recording a turn keeps the flow invariant |
| LessonInterface.StopRecordingValid | components/audio-lesson-interface.tsx:214-261 | stopping a recording keeps the flow invariant |
| LessonInterface.InitialCorrected | components/audio-lesson-interface.tsx:156-165 | the mount effect with the corrected check: the opening turn is played exactly when the first two normalised roles differ or the first is an AI alias |
| LessonInterface.InitialAgrees | components/audio-lesson-interface.tsx:156-165 | the written and corrected mount effects give the same state unless the first role is blank |
| LessonInterface.BlankFirstRoleStaysSilent | components/audio-lesson-interface.tsx:156-165 | with roles `""` then `Passenger` the written mount effect plays nothing, while the corrected one speaks turn 0 |
| LessonInterface.InitialCorrectedValid | components/audio-lesson-interface.tsx:140-170 | the corrected mounted state also keeps the flow invariant |
| DebateInterface.Shipped | components/audio-debate-interface.tsx:22-28 | the screen's script has five replies, a non-empty scoring vocabulary and a non-empty stand-in sentence |
| DebateInterface.RoundCount | components/audio-debate-interface.tsx:52 | the round is at least 1 and is one more than the number of complete exchanges: the transcript length lies in [2(r−1), 2r) |
| DebateInterface.AiReplyIndex | components/audio-debate-interface.tsx:137 | the reply index is always within the reply list, and is the round itself while the round is below the list's length |
| DebateInterface.UserText | components/audio-debate-interface.tsx:108 | the user's turn is the trimmed live transcript, or the stand-in sentence when that is blank, and so never empty |
| DebateInterface.Initial | components/audio-debate-interface.tsx:65-80 | the debate opens with an empty transcript while the topic title is being spoken, without feedback and not ended |
| DebateInterface.SpeechEnded | components/audio-debate-interface.tsx:77-79 | the end of the AI's speech stops listening and leaves the transcript alone |
| DebateInterface.StartRecording | components/audio-debate-interface.tsx:82-99 | recording starts with a cleared transcript when the microphone is granted and drops again when it is not; the debate transcript is untouched |
| DebateInterface.TranscriptUpdated | components/audio-debate-interface.tsx:90-92 | a recognition update replaces the live transcript only |
| DebateInterface.StopRecording | components/audio-debate-interface.tsx:101-160 | a recorder never started only clears the processing flag; otherwise the user's turn, with the feedback for its own text against the vocabulary, and then the reply chosen by the round count read before that turn was appended, are added, and the AI's reply is being spoken |
| DebateInterface.InitialWellFormed | components/audio-debate-interface.tsx:31 | the empty opening transcript is well formed |
| DebateInterface.WellFormedAlternates | components/audio-debate-interface.tsx:101-160 | a well-formed transcript holds whole exchanges: user turns with percentage feedback at even positions, the expected AI reply at odd ones |
| DebateInterface.StopRecordingWellFormed | components/audio-debate-interface.tsx:101-160 | stopping a recording keeps the transcript a sequence of user/AI exchanges, each reply the one for its position |
| DebateInterface.StopRecordingExchange | components/audio-debate-interface.tsx:101-160 | a stop either leaves the transcript as it was or extends it by exactly one well-formed user turn and the AI turn for its position |
| DebateInterface.AppendExchange | components/audio-debate-interface.tsx:132-155 | appending a well-formed user turn and the reply for its position keeps the transcript well formed |
| DebateInterface.FirstExchangeGetsSecondReply | components/audio-debate-interface.tsx:52-138 | the first exchange is answered with the second canned reply, never the first |
| DebateInterface.UserScoresArePercentages | components/audio-debate-interface.tsx:123-130 | every user turn of a well-formed transcript carries feedback whose score is a number in [0, 100] |
| DebateInterface.FeedbackCount | components/audio-debate-interface.tsx:226 | no more items carry feedback than the transcript holds |
| DebateInterface.NoFeedbackNoScore | components/audio-debate-interface.tsx:223-227 | with no feedback the score sum is 0 |
| DebateInterface.ScoreSumBounds | components/audio-debate-interface.tsx:223-227 | with percentage scores the sum lies between 0 and 100 times the number of scored items |
| DebateInterface.AverageScore | components/audio-debate-interface.tsx:223-227 | the average score is 0 when no item carries feedback |
| DebateInterface.AverageScoreBounds | components/audio-debate-interface.tsx:223-227 | with percentage scores the average lies in [0, 100] and is the nearest integer to the mean score |
| DebateInterface.WellFormedAverageBounds | components/audio-debate-interface.tsx:223-227 | the average score of any transcript the screen produces lies in [0, 100] |
| DebateInterface.EndDebate | components/audio-debate-interface.tsx:209-213 | ending the debate marks it ended and keeps the transcript |
| DebateInterface.EndDebateAfterExchange | components/audio-debate-interface.tsx:527-532 | "End Debate" is not offered at the start and is offered right after an exchange completes |
| VoiceConfig.SupportedLanguages | lib/voice-config.ts:22-43 | the nineteen supported languages, in the listed order, each with its listed code |
| VoiceConfig.VoiceAgents | lib/voice-config.ts:45-79 | the twenty-four voice presets, in the listed order, each with its listed id and language tag |
| VoiceConfig.PrimarySubtag | lib/voice-config.ts:82-93 | the primary subtag holds no '-' and no upper-case letter |
| VoiceConfig.IsEnglishLanguageIff | lib/voice-config.ts:81-83 | a code is English exactly when it starts with `en` in any case and is either just that or continues with '-' |
| VoiceConfig.GetVoiceAgentsForLanguage | lib/voice-config.ts:91-95 | the result holds exactly the presets whose lower-cased tag starts with the request's primary subtag, all of them |
| VoiceConfig.GetVoiceAgentsForLanguageAppend | lib/voice-config.ts:92-95 | the filter keeps the table's order: filtering two tables one after the other is filtering their concatenation |
| VoiceConfig.EmptySubtagSelectsAll | lib/voice-config.ts:93-94 | an empty code, or one starting with '-', selects every preset |
| VoiceConfig.GetVoiceAgentsForAccentDropdown | lib/voice-config.ts:85-89 | for English every preset is offered; for any other language, only that language's presets |
| VoiceConfig.GetVoiceAgentsForExactLang | lib/voice-config.ts:97-104 | the result holds exactly the presets whose tag equals the trimmed request, case-insensitively |
| VoiceConfig.ExactLangAgentsAreLanguageAgents | lib/voice-config.ts:92-104 | every preset for the exact tag is also a preset for its language |
| VoiceConfig.GetDefaultVoiceAgentForLang | lib/voice-config.ts:105-109 | there is a default exactly when some preset serves the language, and it is the first such preset in table order |
| VoiceConfig.PrimarySubtagOfTwoLetterTag | lib/voice-config.ts:22-43 | a tag of two lower-case letters followed by '-' has those two letters as its primary subtag |
| VoiceConfig.ServedBy | lib/voice-config.ts:105-109 | a two-letter-tag language has a default preset as soon as one preset's tag starts with the same two letters |
| VoiceConfig.AgentOfSupportedLanguage | lib/voice-config.ts:22-79 | every supported language's code is a two-letter tag and some preset's tag starts with its two letters |
| VoiceConfig.FirstLanguagesServed | lib/voice-config.ts:22-79 | the first ten supported languages are each served by the listed preset |
| VoiceConfig.LastLanguagesServed | lib/voice-config.ts:22-79 | the remaining supported languages are each served by the preset five places further down |
| VoiceConfig.DefaultAgentForEverySupportedLanguage | lib/voice-config.ts:22-109 | every supported language has a default voice preset |
| VoiceConfig.DefaultForBritishEnglish | lib/voice-config.ts:105-109 | the default preset for `en-GB` is the first preset, `en-us-1`, not a British one |
| VoiceConfig.NormalizeVoiceLang | lib/voice-config.ts:111-114 | a normalised tag holds no underscore and no upper-case letter |
| VoiceConfig.NormalizeVoiceLangIdempotent | lib/voice-config.ts:111-114 | normalising a normalised tag changes nothing |
| VoiceConfig.VoiceMatchesLangIff | lib/voice-config.ts:116-124 | a voice matches a request exactly when the normalised tags are equal or share the request's non-empty primary subtag |
| VoiceConfig.VoiceMatchesLangReflexive | lib/voice-config.ts:116-124 | every tag matches itself |
| VoiceConfig.ExactTargetIsNormalized | lib/voice-config.ts:131-133 | the target of the exact-match step is the normalised request |
| VoiceConfig.FindAnyVoiceForLang | lib/voice-config.ts:126-138 | a voice is found exactly when some voice matches the request and is then a matching voice of the list; it is the first voice equal after normalisation when there is one, and otherwise the first voice whose language or primary subtag matches |
| VoiceConfig.HasVoiceForLang | lib/voice-config.ts:140-146 | a language has a browser voice exactly when some voice matches it |
| VoiceConfig.FindVoiceForAgent | lib/voice-config.ts:148-161 | a voice is found exactly when some voice matches the preset's language; it is the first matching voice whose name contains the hint, case-insensitively, and failing that the first matching voice |
| VoiceConfig.GetLanguageByCode | lib/voice-config.ts:163-168 | a language is found exactly when some option's code equals the request case-insensitively, and it is the first such option |
| VoiceRecorder.NewRecorder | lib/voice-recorder.ts:20-27 | a new recorder recognises `en-US`, is not recording and holds no audio |
| VoiceRecorder.SetLanguage | lib/voice-recorder.ts:29-31 | the recognition language is never empty: a non-empty request is taken as is; recording state and audio are untouched |
| VoiceRecorder.SetThenGetLanguage | lib/voice-recorder.ts:29-35 | reading the language back gives the one set, or `en-US` for an empty request |
| VoiceRecorder.SetLanguageIdempotent | lib/voice-recorder.ts:29-35 | setting the language that was just read back changes nothing |
| VoiceRecorder.StopRecording | lib/voice-recorder.ts:106-139 | stopping fails with "Recording not started" exactly when no recording is running, and then changes nothing; otherwise it returns all recorded audio and leaves the recorder stopped and empty, with its language |
| VoiceRecorder.OnResult | lib/voice-recorder.ts:82-97 | each final result from the event's index on is appended, followed by a space, to the running transcript; the callback receives the new running transcript followed by this event's interim results |
| VoiceRecorder.FinalAfterGrows | lib/voice-recorder.ts:80-97 | the running transcript only grows from event to event |
| VoiceRecorder.FinalAfterAppend | lib/voice-recorder.ts:80-97 | processing two batches of events one after the other is processing them together |
| VoiceRecorder.FinalOnlyGrows | lib/voice-recorder.ts:80-97 | what is final after one event is a prefix of the final text and of every transcript reported after any later event |
| VoiceRecorder.NormalizeOptions | lib/voice-recorder.ts:202-204 | a bare callback becomes the end callback with no other option; no argument means no options |
| VoiceRecorder.ChooseVoice | lib/voice-recorder.ts:217-229 | an explicit voice is used; failing that the preset's voice; failing that, with a language and cached voices, any voice for the language; any voice chosen is a cached one |
| VoiceRecorder.Speak | lib/voice-recorder.ts:202-234 | without a synthesiser nothing happens; otherwise the previous speech is cancelled and the text is spoken at rate 0.9, pitch 1 and volume 1, with the chosen voice, the end callback, and exactly the requested language when one was given (none otherwise) |
| VoiceRecorder.SpeakFindsVoiceForLanguage | lib/voice-recorder.ts:224-229 | speaking in a language some cached voice matches always sets a matching cached voice |
| VoiceRecorder.ExplicitVoiceWins | lib/voice-recorder.ts:217-218 | an explicit voice is always the one used |
| VoiceRecorder.AgentVoiceMatchesAgent | lib/voice-recorder.ts:219-222 | a voice resolved for a preset is a cached voice matching the preset's language |
| VoiceRecorder.LowerAll | lib/voice-recorder.ts:257 | the vocabulary is lower-cased word by word, keeping its length and order |
| VoiceRecorder.RoundedPercent | lib/voice-recorder.ts:263-301 | the score is NaN exactly when nothing is matched against an empty vocabulary, and otherwise a percentage of at most 100 |
| VoiceRecorder.RoundedPercentIsNearest | lib/voice-recorder.ts:263 | below full marks the score is the matched share in percent, rounded to the nearest integer with halves up |
| VoiceRecorder.RoundedPercentMonotone | lib/voice-recorder.ts:263-301 | more matched words never lower the score |
| VoiceRecorder.Strengths | lib/voice-recorder.ts:269-297 | the strengths are exactly: length when longer than 20, punctuation when present, formal language when used, no fillers when none are used |
| VoiceRecorder.Improvements | lib/voice-recorder.ts:269-297 | the improvements are exactly: length when not long enough, formal language when not used, fillers when used |
| VoiceRecorder.Suggestions | lib/voice-recorder.ts:269-297 | a suggestion accompanies exactly each improvement |
| VoiceRecorder.GenerateSpeakingFeedback | lib/voice-recorder.ts:247-305 | the score is the rounded share of the response's words that match the vocabulary; every improvement comes with a suggestion; the response earns the length, punctuation and formal-language strengths exactly when it has them and the filler improvement exactly when it uses fillers |
| VoiceRecorder.FeedbackIgnoresCase | lib/voice-recorder.ts:256-297 | two responses that differ only in letter case get the same score, strengths, improvements and suggestions |
| VoiceRecorder.PunctuatedIgnoresCase | lib/voice-recorder.ts:273 | the punctuation test gives the same answer for responses that differ only in letter case |
| VoiceRecorder.NothingMatchesEmptyVocabulary | lib/voice-recorder.ts:259-261 | no word matches an empty vocabulary |
| VoiceRecorder.FeedbackScoreBounds | lib/voice-recorder.ts:263-301 | with a non-empty vocabulary the score is a percentage in [0, 100]; with an empty one it is NaN |
| VoiceRecorder.EmptyResponseMatchesEverything | lib/voice-recorder.ts:256-261 | an empty response splits into one empty word, which every vocabulary word contains |
| VoiceRecorder.EmptyResponseScore | lib/voice-recorder.ts:256-263 | an empty response scores one word's worth, and full marks against a one-word vocabulary |
| VoiceRecorder.FallbackVoiceSpeaksUtteranceLanguage | lib/voice-recorder.ts:215-229 | when neither an explicit nor an agent voice applies, a voice chosen by the fallback comes from the synthesiser's list, a language is set, and the voice matches that language |
| UploadTurns.Get | app/api/admin/upload/turns/route.ts:44-46 | a header's cell is absent exactly when no column has that header, and is otherwise the cell of a column with that header |
| UploadTurns.Coalesce | app/api/admin/upload/turns/route.ts:44-46 | `??` keeps a present first cell and otherwise falls back to the second |
| UploadTurns.IntToString | app/api/admin/upload/turns/route.ts:62-65 | a number cell's text is never empty: its decimal digits, with a minus sign when negative |
| UploadTurns.KindOf | app/api/admin/upload/turns/route.ts:56-67 | a header is reserved exactly when it is order, role or text in any case; otherwise a `Romanization:` header feeds the romanization map under the trimmed text between its first two colons, and any other header with a hyphen feeds the text map under itself |
| UploadTurns.Put | app/api/admin/upload/turns/route.ts:62-65 | assigning a key makes it read the new value and leaves every other key as it was; the map grows only for a new key |
| UploadTurns.PutDistinct | app/api/admin/upload/turns/route.ts:62-65 | assigning a key never makes a key appear twice |
| UploadTurns.CollectDistinct | app/api/admin/upload/turns/route.ts:52-67 | a collected language map never holds a key twice |
| UploadTurns.CollectLookup | app/api/admin/upload/turns/route.ts:56-67 | the collected map holds, under each language, the value of the last column for that language |
| UploadTurns.CollectEmpty | app/api/admin/upload/turns/route.ts:56-77 | a collected map is empty exactly when no column of the row lands in it |
| UploadTurns.OrderIndex | app/api/admin/upload/turns/route.ts:78 | a number order is stored as is; a text order as `parseInt` base 10 reads it, with NaN as nothing |
| UploadTurns.EncodeColumn | app/api/admin/upload/turns/route.ts:76-77 | a language map is stored as SQL NULL exactly when it has no keys, and otherwise as its JSON text |
| UploadTurns.RowTurn | app/api/admin/upload/turns/route.ts:44-79 | a row yields a turn exactly when its role and text are truthy and its order is present, numeric and within the signed 32-bit range of the `integer` column; the turn is in the conversation, under the given id, with the row's role, text, order and collected maps |
| UploadTurns.EncodeColumnReadsBack | app/api/admin/upload/turns/route.ts:76-77 | through a codec that round-trips, the lesson page reads a stored map back as that map, and an empty map as absent |
| UploadTurns.RowStep | app/api/admin/upload/turns/route.ts:48-79 | a row is skipped exactly when order, role or text is missing or falsy; a kept row whose order is not numeric or lies outside the signed 32-bit range makes the insert fail; otherwise the row's turn is inserted |
| UploadTurns.Steps | app/api/admin/upload/turns/route.ts:40-80 | one step per sheet row, in row order, each row's own step under its own id |
| UploadTurns.InsertSteps | app/api/admin/upload/turns/route.ts:40-80 | the loop keeps every turn already stored and adds only the turns of insert steps; if it runs to the end no step was rejected and every inserted turn is stored under its id |
| UploadTurns.StepInsertIsInsertTurn | app/api/admin/upload/turns/route.ts:71-79 | one insert of the loop succeeds exactly when the schema's insert would, and stores the same row |
| UploadTurns.InsertableStep | app/api/admin/upload/turns/route.ts:40-80 | after a successful insert the rest of the loop can complete exactly when the whole remaining run could |
| UploadTurns.InsertStepsOk | app/api/admin/upload/turns/route.ts:40-80 | the loop runs to the end exactly when no step is rejected and the turns to insert have fresh, pairwise distinct ids and existing conversations |
| UploadTurns.InsertableHead | app/api/admin/upload/turns/route.ts:40-80 | a skipped row leaves the outcome to the rest of the loop; a rejected row or a failing insert rules success out |
| UploadTurns.StepsInsertable | app/api/admin/upload/turns/route.ts:40-80 | a sheet's rows can all be handled exactly when every kept row has a numeric in-range order and a fresh id, the kept rows' ids are pairwise distinct, and the conversation exists when some row is kept |
| UploadTurns.InsertableRows | app/api/admin/upload/turns/route.ts:40-80 | the same condition for any steps that skip, reject and insert row by row as the sheet's do |
| UploadTurns.DeleteTurnsOf | app/api/admin/upload/turns/route.ts:38 | the delete removes exactly the conversation's turns, keeps every other turn unchanged and touches no other table |
| UploadTurns.Upload | app/api/admin/upload/turns/route.ts:8-92 | 401 exactly when the session is not an admin's; every status is 200, 400, 401 or 500; every failure except a failing insert leaves the database unchanged, a failing DELETE included; success requires a readable sheet and reports the number of sheet rows, skipped ones included |
| UploadTurns.UploadSucceeds | app/api/admin/upload/turns/route.ts:8-92 | the upload succeeds exactly when an admin posts a readable non-empty sheet and a non-empty conversation id, the DELETE of the old turns goes through, and every kept row can be inserted afterwards |
| UploadTurns.UploadReplaces | app/api/admin/upload/turns/route.ts:33-80 | once the request is well formed, a failing DELETE answers 500 with nothing changed; otherwise the conversation's turns afterwards are only turns built from sheet rows under their ids, every other turn is as before, and no other table changes, also after a failing insert |
| UploadTurns.StepsOfSheet | app/api/admin/upload/turns/route.ts:40-79 | each step of a sheet follows its row: skipped exactly when the row is not kept, rejected exactly when its order is not numeric or outside the signed 32-bit range, and otherwise inserting the row's turn in the conversation under the row's id |
| UploadTurns.ReplaceSteps | app/api/admin/upload/turns/route.ts:38-80 | deleting a conversation's turns and then inserting turns of that conversation keeps every other turn and leaves the conversation with just the inserted turns |
| UploadTurns.UploadStoresKept | app/api/admin/upload/turns/route.ts:40-82 | on success every kept row is stored as its turn under its id |
| UploadTurns.NonEmpty | lib/lesson-conversations.ts:106-107 | a map without entries reads back as absent, and any other map as itself |
| UploadTurns.RowReadsBack | app/api/admin/upload/turns/route.ts:71-79 | an uploaded turn, read back by the lesson page through a codec that round-trips, has the row's id, role, text and order and the collected maps, each absent when empty |
| UploadTurns.OrderBeyondIntegerRejected | drizzle/schema.ts:41 | a kept row whose numeric order does not fit the signed 32-bit `integer` column is not inserted: the insert fails |
| Conversation.Lookup | components/audio-lesson-interface.tsx:41 | a language map has no value for a key exactly when no entry has that key, and otherwise holds an entry pairing the key with that value |
| Text.ParseIntOfNat | app/api/admin/upload/turns/route.ts:78 | `parseInt` base 10 reads back every decimal rendering of a natural number, even with non-digit text after it |
| Text.SplitSpaces | lib/voice-recorder.ts:256 | splitting on white-space runs yields at least one piece and no piece contains white space |
| Text.Trim | components/audio-lesson-interface.tsx:94 | a trimmed string neither starts nor ends with white space and is the input with only surrounding white space removed |
| Text.TrimIdempotent | components/audio-lesson-interface.tsx:94 | trimming twice is trimming once |
| Text.TrimToLower | lib/voice-config.ts:113-133 | trimming and lower-casing commute |

## Left out

- Browser media and speech engines are not modelled: `getUserMedia`, `MediaRecorder`, speech-recognition wiring, the simulated `transcribeAudio`, the actual `speechSynthesis.speak` and `loadBrowserVoices`, because they are foreign APIs. Voice lists and recognition results are inputs.
- Timers and React scheduling are collapsed, because delays and effect ordering are not part of the logic. A transition yields the state after its scheduled callbacks have run. The per-second elapsed-time interval is reduced to the `m:ss` label of a given number of seconds.
- Database I/O is reduced to pure functions on a `Db` value, because transactions and connections are outside the logic. A connection fault is a `None` answer of a read, or a flag on each write action (and on the upload's DELETE) that makes its statement throw.
- Only these tables are modelled: conversations, conversation turns, debate topics, debate sessions, users, messages, courses, lessons and user progress. The framework tables of drizzle/schema.ts (`cache`, `cache_locks`, `failed_jobs`, `jobs`, `job_batches`, `migrations`, `password_reset_tokens`, `sessions`) are left out, because the application code never reads or writes them.
- `Schema.InsertTurn` does not check that `order_index` fits the signed 32-bit range itself, because its only caller, the turn upload, rejects such rows before the insert (`UploadTurns.OrderAccepted`).
- `varchar` length limits are not modelled, because no operation of the core depends on them. Timestamps are instants (integers) without date formatting.
- `Sql.ILike` treats `%` and `_` inside the search text literally, because it is modelled as a case-insensitive substring test rather than Postgres wildcard matching.
- Rows that compare equal under an `ORDER BY` keep storage order. Postgres does not promise any particular tie order, so this is one valid choice.
- `Categories.CategoryList` sorts by code-point order instead of `localeCompare`, because locale collation is not available.
- `Text.ToLower` lower-cases ASCII `A`–`Z` only, because Unicode case mapping is not available. UTF-16 code units are taken as characters.
- `Dashboard.XpPercent` and the bar widths use exact rational and integer arithmetic, not the IEEE double `(totalXp / 3000) * 100`, because floating point is not modelled. The rating `numeric(3,1)` is held in tenths.
- `Dashboard.PercentLabel` floors the exact rational share, while the page floors the IEEE double `(totalXp / 3000) * 100`. The two differ where the double falls just below a whole number: at 870 XP the double is 28.999999999999996 and the page shows "28%", where the model shows 29. Up to 6000 XP this happens at 870, 1710, 1740, 3390, 3420, 3450 and 3480 XP.
- PercentLabelIsThirtieths (`Dashboard.PercentLabelIsThirtieths`) states that the label is `totalXp / 30` rounded down, which holds for the exact share but not for the page's double at the XP values above (870 XP shows 28, not 29).
- Generated ids (`msg-${Date.now()}` for messages, `t${Date.now()}-…` with `Math.random()` for uploaded turns) are parameters, because clocks and randomness are not modelled, so uniqueness of fresh ids is not proved. The random initial letter on a course card is left out for the same reason.
- JSON text is not parsed or printed. A `jsonb` column holds either decoded entries or an unparsable marker, and the codec is a parameter.
- XLSX parsing is not modelled. A sheet is a sequence of rows, each a list of header and cell pairs, where a cell is text or a whole number.
- RowStep (`UploadTurns.RowStep`) does not model fractional, boolean or date cells, because a cell is text or a whole number. A number cell such as 1.5 or a boolean cell `true` in the order column makes the source's insert into the `integer` column fail; the model only rejects whole numbers outside the signed 32-bit range and non-numeric text.
- RowTurn (`UploadTurns.RowTurn`) stores a number cell under a language column as its decimal text, whereas the source puts the JSON number itself into the `jsonb` map, because the model's language maps hold text only.
- `UploadTurns.Upload` does not model an insert inside the row loop that throws for a reason other than the row itself (a lost connection), because per-statement faults of the loop are not parameters; only the DELETE before the loop carries a fault flag.
- `VoiceRecorder.RoundedPercent` rounds the exact rational 100·matched/expected half up, while the source computes `Math.round((matched / expected) * 100)` in IEEE doubles. The two differ where the double product falls just below a half: 23 of 40 (and 46 of 80) is 57.49999999999999 as a double and gives 57, where the model gives 58. Floating point is not modelled.
- RoundedPercentIsNearest (`VoiceRecorder.RoundedPercentIsNearest`) states exact half-up rounding of the rational share, so it is weaker than the source's behaviour where IEEE rounding error moves the product across a half (23 of 40 gives 57 in the source).
- GenerateSpeakingFeedback (`VoiceRecorder.GenerateSpeakingFeedback`) inherits the exact rounding of `VoiceRecorder.RoundedPercent` for its score, so on inputs such as 23 matched words of 40 its score is one higher than the source's.
- Authentication cryptography (auth.ts, lib/actions.ts) is not modelled. The middleware takes "the session token verifies" as a boolean input.
- Object key order (`Object.keys` over a turn's language map and over a spreadsheet row) is taken to be the order of the entries as given, because property enumeration order is not modelled.
- Negative counters and a NULL course level are not modelled: progress counters are `nat` and a course always has a level.
- The dashboard's `recentActivity` list, the course grid's loading flag, `revalidatePath`, the thin API route wrappers, and pure presentation components are left out, because they carry no logic beyond rendering.
- `LessonConversations.GetLessonConversationById` looks the built-in table up as a map with only the four lesson keys. The source indexes a plain object, whose prototype chain answers keys such as `constructor` or `toString` with a built-in function instead of `null`; inherited properties of JavaScript objects are not modelled.
- The wording tables (AI replies, vocabulary lists, fallback conversations) are parameters where an operation takes them, with the shipped values as constants, so the proofs do not depend on the literal text.

## Findings

| source | as written | input that shows it | evidently intended | confidence | as-written member | corrected member |
|---|---|---|---|---|---|---|
| components/audio-lesson-interface.tsx:95-99 | the alias lists contain `Friend` and `Me` capitalised, but the role is lower-cased before the lookup, so these two entries never match | role `Friend` at turn index 0 is classified as an AI turn | lower-case `friend` and `me` like the other aliases | high, not executed | LessonInterface.IsUserTurnAsWritten (FriendAtEvenIndexIsNotUser, CapitalisedAliasesNeverMatch) | LessonInterface.IsUserTurn (IsUserTurnAgrees) |
| components/audio-lesson-interface.tsx:156-163 | the AI role is taken to be the first turn's normalised role and then tested for truthiness, so a blank first role counts as "no AI opening" | turns with roles `""` then `Passenger` | the first turn opens for the AI whenever the first two normalised roles differ | medium, not executed | LessonInterface.Initial (FirstIsAiAsWritten, BlankFirstRoleIsNotAi, BlankFirstRoleStaysSilent) | LessonInterface.InitialCorrected (FirstIsAi, FirstIsAiIff, FirstIsAiAgrees, InitialAgrees) |
| app/debates/page.tsx:28-35 | the search filter calls `topic.description.toLowerCase()` whenever the title does not match, but `description` is a nullable column | a topic with an empty title and no description, searched for `x` | a topic without a description matches on its title only | high, not executed | DebatesPage.VisibleTopicsAsWritten (NullDescriptionCrashes) | DebatesPage.VisibleTopics (FiltersCompose, VisibleKeepsOrder) |
| app/dashboard/page.tsx:248-251 | the average session divides the time spent by the number of completed courses and debates with no guard | a new progress row, with no courses or debates completed | show 0 minutes when there are no sessions | high, not executed | Dashboard.AverageSessionAsWritten (NewUserSeesNaN) | Dashboard.AverageSession (AverageSessionAgrees) |
