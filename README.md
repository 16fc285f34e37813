# Project launch platform: core model

This project models the core of a platform on which students start
template projects ("launch packs"), tick off their milestones, ask a mentor
for review and, once verified, publish a portfolio entry. An AI assistant
suggests ideas, milestone plans, milestone help and portfolio blurbs, and
its completions are cached.

The model covers:

- **The AI cache and the four generators** (`lib/openai.ts`). The
  `ai_cache` table is a class over a map from keys to entries. A read
  deletes an expired entry, and a write is an upsert with a seven-day
  default time-to-live. The four generators share one protocol, stated once
  as a function (`AiContent.Protocol`) and run by one method
  (`AiContent.Generate`). The steps are: build a deterministic key; answer
  from the cache on a truthy hit; otherwise call the completion service;
  parse its text directly, or else from the first fenced block; write the
  result to the cache; on failure, return a fixed fallback payload. The
  fenced-block regular expression is modelled character by character.
- **The four routes**: start a project, request a review, create a
  portfolio, ask for milestone help. The store is a class `Store.Db` with
  one map per table and an id counter. Each route is a method `Post` that
  is proved equal to a pure function of the old tables and the route's
  inputs. The store's referential invariant (`Store.Consistent`) is proved
  to survive every route.
- **The project workspace** (`components/project-workspace.tsx`). It holds
  the record of completed flags built from the milestone rows, the
  completed count, the rounded percentage, and the toggle handler with the
  requests it sends.
- **The mentor's review form** (`components/review-form.tsx`). It covers
  the defaults taken from the stored review, the three-of-four verification
  rule, and the submit handler with its conditional portfolio request and
  navigation.
- **Sign-up profile creation** (`app/signup/page.tsx`). It covers skills
  parsing (split on commas, trim each piece, drop empty pieces), the
  profile row, and which outcomes insert a row and navigate.

The outside world enters as parameters:

- The completion service's answer, `JSON.parse` and `generateSlug`.
- The base-36 timestamp and the clock.
- The session user.
- The errors the store reports for writes and for some reads (see "## Left out" for the reads without one).

Files: `common.dfy` (Option, Result, JSON values, `error.message ||
fallback`), `text.dfy` (JavaScript `trim`, `split`, `join`, template
printing of integers, decimal `parseInt`), `store.dfy` (rows, responses,
`Db`), `ai_cache.dfy`, `ai_content.dfy`, `start_project.dfy`,
`request_review.dfy`, `create_portfolio.dfy`, `ai_help_route.dfy`,
`workspace.dfy`, `review_form.dfy`, `signup.dfy`.

## Model

| member | source | states |
|---|---|---|
| AiCache.TtlOrDefault | lib/openai.ts:26 | a missing or zero ttl becomes the seven-day default of 604,800,000 ms; any other ttl is kept; the result is never zero |
| AiCache.Expired | lib/openai.ts:26-28 | an entry is expired once its age is strictly greater than its effective ttl; ExpiryIsPermanent and ThousandMillisecondRoundTrip state its consequences |
| AiCache.Lookup | lib/openai.ts:23-33 | a successful read returns a payload exactly when the key holds an unexpired entry, and then it is that entry's payload |
| AiCache.Evict | lib/openai.ts:28-30 | the table after a read keeps every other key unchanged and never keeps an expired entry under the key read |
| AiCache.Upsert | lib/openai.ts:43-48 | the write adds or replaces exactly the key, storing prompt, payload and defaulted ttl, and leaves every other key unchanged |
| AiCache.Table.Get | lib/openai.ts:15-34 | a failed select returns nothing and changes nothing; otherwise returns the payload of an unexpired entry, and deletes the entry when its age exceeds its ttl |
| AiCache.Table.Put | lib/openai.ts:36-49 | the table after the write is the upsert of the key with prompt, payload and defaulted ttl |
| AiCache.UpsertThenLookup | lib/openai.ts:23-48 | a read after a write returns the written payload exactly while its age is at most the effective ttl, and nothing after that |
| AiCache.EvictionIsLocal | lib/openai.ts:28-31 | reading an expired entry returns nothing and removes that key and no other |
| AiCache.UpsertLeavesOtherKeys | lib/openai.ts:43-48 | writing one key changes neither what a read of another key returns nor what it evicts |
| AiCache.ExpiryIsPermanent | lib/openai.ts:27-28 | an entry expired at some time stays expired at every later time |
| AiCache.LookupReturnsStoredPayload | lib/openai.ts:23-33 | a read returns only the stored payload; a hit leaves the table unchanged, and a miss on a present key deletes it |
| AiCache.ThousandMillisecondRoundTrip | lib/openai.ts:26-33 | an entry with a 1000 ms ttl is a hit at ages 0 and 1000 and is gone at age 1001 |
| AiContent.FirstFence | lib/openai.ts:79 | finds the first index from a start point at which three backticks begin, or reports that there is none |
| AiContent.ExtractFenced | lib/openai.ts:79-80 | the capture group of the first match of the fenced-block pattern; FencedLayout, FencedBlockYieldsBody, NoFenceNoBlock and UnclosedFenceNoBlock state what it returns |
| AiContent.SkipSpace | lib/openai.ts:79 | `\s*` at an index: the first non-space index at or after it, with only white space skipped |
| AiContent.CaptureEnd | lib/openai.ts:79 | the lazy `([\s\S]*?)` capture ends at the first index where white space and a closing fence follow |
| AiContent.FirstFenceAt | lib/openai.ts:79 | a fence with no backtick before it is the first fence |
| AiContent.SkipSpaceTo | lib/openai.ts:79 | a white-space run ending at a non-space or at the end is what `\s*` consumes |
| AiContent.CaptureEndAt | lib/openai.ts:79 | the capture stops at the first closing fence when no backtick precedes it and the body ends in a non-space |
| AiContent.FencedLayout | lib/openai.ts:79 | for a text laid out as prefix, "```json", white space, body, white space and "```", the extracted block is the body |
| AiContent.FencedBlockYieldsBody | lib/openai.ts:79-81 | the first json fence around a trimmed body without backticks yields exactly that body, whatever follows |
| AiContent.NoFenceNoBlock | lib/openai.ts:79-84 | text without three backticks in a row has no fenced block |
| AiContent.UnclosedFenceNoBlock | lib/openai.ts:79-84 | an opening fence that nothing closes gives no block |
| AiContent.ParseCompletion | lib/openai.ts:71-85 | empty or absent content fails with "No response from OpenAI"; parsable text is parsed directly; unparsable text with a fenced block gives the parse of that block, error included; unparsable text without a block fails with "Invalid JSON response from OpenAI" |
| AiContent.FencedCompletionParsesBody | lib/openai.ts:74-85 | a completion that the parser rejects as a whole, but that wraps a body in a json fence, parses to that body |
| AiContent.Attempt | lib/openai.ts:64-85 | a thrown completion fails with its message; an answer goes through ParseCompletion, whose contract states the outcome |
| AiContent.Protocol | lib/openai.ts:51-102 | the shared generator protocol as a value (`Run`: answer, whether asked, new table); HitShortCircuits, SuccessIsCached, FailureFallsBack and SecondCallIsCached state its cases |
| AiContent.CacheHit | lib/openai.ts:57-58 | a hit only when the read succeeds, the key holds an unexpired entry, and its payload is truthy |
| AiContent.Generate | lib/openai.ts:51-102 | the answer, whether the service was asked, and the new cache table equal the shared generator protocol applied to the old table |
| AiContent.HitShortCircuits | lib/openai.ts:57-59 | a truthy unexpired entry is returned tagged as cached; the service is not called and the table is unchanged |
| AiContent.SuccessIsCached | lib/openai.ts:86-87 | a successful completion is returned uncached and written under the request's key with its prompt and the default ttl; other keys are unchanged |
| AiContent.FailureFallsBack | lib/openai.ts:88-101 | a failed completion returns the generator's fixed fallback with a non-empty error and writes nothing |
| AiContent.SecondCallIsCached | lib/openai.ts:56-87 | asking twice within the ttl: the second call is answered from the cache with the first call's data, without calling the service |
| AiContent.KeysOfDifferentGeneratorsDiffer | lib/openai.ts:56 | requests to different generators never share a cache key |
| AiContent.TitleKeysAreInjective | lib/openai.ts:108 | equal milestone keys, or equal blurb keys, mean equal project titles |
| AiContent.HelpKeysCanCollide | lib/openai.ts:150 | two different help requests can share a key when a title contains an underscore |
| AiContent.IdeaKeysCanCollide | lib/openai.ts:56 | two different idea requests share a key when a skill contains a comma |
| AiContent.FallbackShapes | lib/openai.ts:88-101 | the fallback is one sample idea, an empty milestone list, the help object with empty steps and empty starter code, or an empty blurb, and it is always truthy |
| AiContent.CacheKey | lib/openai.ts:56 | the keys `ideas_…`, `milestones_…`, `help_…` and `blurb_…` (lines 56, 108, 150, 191); KeysOfDifferentGeneratorsDiffer, TitleKeysAreInjective, HelpKeysCanCollide and IdeaKeysCanCollide state what they tell apart |
| AiContent.Prompt | lib/openai.ts:62 | the prompt templates (lines 62, 112, 154, 195); SuccessIsCached states that the prompt is written with the payload |
| AiContent.Fallback | lib/openai.ts:93-100 | the fixed fallback payloads (lines 93-100, 141, 183, 224); FallbackShapes states them |
| AiContent.DefaultError | lib/openai.ts:92 | the fixed error texts (lines 92, 140, 182, 223); FailureFallsBack states that the error returned is never empty |
| Common.Message | app/api/projects/start/route.ts:80 | `error.message \|\| fallback`: a non-empty message is kept, an empty one gives the fallback text, and the result is non-empty whenever the fallback is |
| Common.Truthy | lib/openai.ts:58 | JavaScript truthiness of a payload; CacheHit and FallbackShapes use it |
| Store.FindUser | app/api/portfolios/create/route.ts:38-42 | the user found has the requested id; none is found only when no user has it |
| Text.TrimStart | app/signup/page.tsx:48 | drops exactly the leading white space: a suffix of the input that does not start with white space |
| Text.TrimEnd | app/signup/page.tsx:48 | drops exactly the trailing white space: a prefix of the input that does not end with white space |
| Text.Trim | app/signup/page.tsx:48 | the result has no white space at either end and is the input with only white space removed before it and after it, so it is the maximal such slice |
| Text.TrimOfTrimmed | app/signup/page.tsx:48 | trimming a string without white space at its ends gives it back |
| Text.Split | app/signup/page.tsx:47 | a split always has at least one piece |
| Text.SplitWithoutSeparator | app/signup/page.tsx:47 | text without the separator splits into itself alone |
| Text.SplitAtFirstSeparator | app/api/projects/start/route.ts:41 | the first piece is everything before the first separator |
| Text.SplitAround | app/signup/page.tsx:47 | splitting around one separator is splitting the two sides |
| Text.SplitJoin | app/signup/page.tsx:46-47 | splitting the join of separator-free pieces gives the pieces back |
| Text.Join | lib/openai.ts:56 | `parts.join(sep)`; SplitJoin states that splitting inverts it |
| Text.NatToString | lib/openai.ts:56 | prints at least one digit, and only digits |
| Text.IntToString | lib/openai.ts:56 | prints a non-empty string |
| Text.DigitRun | app/signup/page.tsx:56 | the longest run of leading digits |
| Text.ParseInt | app/signup/page.tsx:56 | decimal `parseInt`: leading white space, one sign, the leading digits, NaN as none; ParseIntOfIntToString states that it reads printed integers back |
| Text.DigitsValueOfNatToString | app/signup/page.tsx:56 | reading printed digits back gives the number |
| Text.ParseIntOfIntToString | app/signup/page.tsx:56 | `parseInt` reads back every printed integer |
| StartProject.LocalPartOfAddress | app/api/projects/start/route.ts:41 | the email local part is the text before the first `@` |
| StartProject.EmailLocalPart | app/api/projects/start/route.ts:41 | `user.email?.split("@")[0]` as a template literal prints it; LocalPartOfAddress states its value for an address |
| StartProject.Slug | app/api/projects/start/route.ts:42 | `generateSlug(title)`, a dash and the timestamp; generateSlug and the timestamp are inputs |
| StartProject.Seeds | app/api/projects/start/route.ts:34-38 | the seeded milestones are the query result, or none when the query reports an error; PackMilestones states the query result |
| StartProject.OfPack | app/api/projects/start/route.ts:34-37 | keeps exactly the template milestones of the requested pack, each as many times as it is stored, and no others |
| StartProject.InsertByOrder | app/api/projects/start/route.ts:38 | inserting into a list ordered by `order_index` keeps it ordered and adds exactly that milestone |
| StartProject.SortByOrder | app/api/projects/start/route.ts:38 | the result is ordered by ascending `order_index` and is a permutation of the input |
| StartProject.PackMilestones | app/api/projects/start/route.ts:34-38 | the query result is ordered by `order_index` and holds each of the pack's milestones as many times as it is stored, and no others |
| StartProject.NewProject | app/api/projects/start/route.ts:41-55 | the new project is owned by the caller, belongs to the requested pack, is in progress at 0%, is titled pack title, " - " and email local part, has the summary "Building " and pack title, starts at the clock's time and carries the given public slug |
| StartProject.MilestoneRows | app/api/projects/start/route.ts:62-67 | one row per milestone under consecutive fresh ids, each for the new project and that milestone, none completed |
| StartProject.Post | app/api/projects/start/route.ts:5-84 | the answer and the new projects, milestone rows and id counter equal the route's specification; the store invariant is kept and the other tables are unchanged |
| StartProject.Start | app/api/projects/start/route.ts:5-84 | the route as a function of the old tables; StartRejections states its rejections, StartCreatesProject its project row and the milestone rows of a 200, SeededRowsOfNewProject that those rows are one per template milestone of the pack in `order_index` order, StartKeepsConsistent the store invariant |
| StartProject.Created | app/api/projects/start/route.ts:44-76 | the writes after the checks; CreatedWrites states them for any seeds, and StartCreatesProject and SeededRowsOfNewProject for the route's seeds |
| StartProject.Insert | app/api/projects/start/route.ts:44-76 | the project insert and then the milestone insert, as the specification of the writes states |
| StartProject.StartRejections | app/api/projects/start/route.ts:12-59 | 401 without a session, 500 for an unreadable body, 403 for another user's id, 404 for an unknown pack, 500 for a failed project insert; in exactly these cases nothing is written |
| StartProject.StartCreatesProject | app/api/projects/start/route.ts:44-82 | exactly one new project under a fresh id, owned by the caller, in progress at 0%, with the slug built from `generateSlug`, the title and the stamp; 200 with its id, every seeded milestone's row added under the ids after it and the id counter past them; or 500 with the project kept, no milestone rows and one id used when the milestone insert fails |
| StartProject.StartKeepsConsistent | app/api/projects/start/route.ts:44-73 | every outcome keeps ids below the counter and every milestone row pointing at an existing project |
| StartProject.SeededRowsOfNewProject | app/api/projects/start/route.ts:34-71 | after a 200 from the route, the new project's rows are exactly one uncompleted row per seeded milestone, at consecutive ids in seeding order; when the query succeeded the seeds are the pack's template milestones, each as often as stored, in `order_index` order |
| StartProject.CreatedWrites | app/api/projects/start/route.ts:44-76 | the project row under the next id; for an empty seed list or a successful milestone insert, 200 with the id, one row per seed under the following ids and the counter past them; a failed milestone insert answers 500 and adds no milestone row |
| StartProject.RowsOfNewProject | app/api/projects/start/route.ts:62-71 | added to a consistent table, the rows of the new project sit exactly at the fresh ids, row i naming seed i, uncompleted |
| RequestReview.FirstMentorAt | app/api/projects/request-review/route.ts:37-41 | the position of the first user whose role is mentor |
| RequestReview.FirstMentor | app/api/projects/request-review/route.ts:37-41 | none exactly when no user is a mentor; otherwise the id of the first mentor in storage order |
| RequestReview.PendingReview | app/api/projects/request-review/route.ts:43-48 | the inserted review names the project and mentor, is not verified, and has no checklist, rating or comments |
| RequestReview.Post | app/api/projects/request-review/route.ts:4-59 | the answer and the new projects, reviews and id counter equal the route's specification; the store invariant is kept and the other tables are unchanged |
| RequestReview.Requested | app/api/projects/request-review/route.ts:4-59 | the route as a function of the old tables; RequestRejections, RequestMovesToReview, RequestKeepsConsistent and RepeatedRequestsAddReviews state its outcomes |
| RequestReview.RequestRejections | app/api/projects/request-review/route.ts:11-34 | 401, 500 for an unreadable body, 403 for a missing or foreign project, 500 for a failed status update; in exactly these cases nothing is written |
| RequestReview.RequestMovesToReview | app/api/projects/request-review/route.ts:28-51 | the owner's project moves to in review from any status, no other project changes, and a pending review for the first mentor is added exactly when a mentor is found and the insert succeeds |
| RequestReview.RequestKeepsConsistent | app/api/projects/request-review/route.ts:28-49 | every outcome keeps the store invariant |
| RequestReview.RepeatedRequestsAddReviews | app/api/projects/request-review/route.ts:43-49 | two successful requests for one project leave two pending reviews of it |
| CreatePortfolio.ScoreSnapshot | app/api/portfolios/create/route.ts:53 | the owner's reliability score, or 0 when the owner or the score is missing |
| CreatePortfolio.PublicUrl | app/api/portfolios/create/route.ts:44 | the app URL (printed "undefined" when unset), "/portfolio/" and the project's slug |
| CreatePortfolio.PortfolioRow | app/api/portfolios/create/route.ts:46-54 | the row names the project, carries the review's comment and a verified badge |
| CreatePortfolio.Post | app/api/portfolios/create/route.ts:4-74 | the answer and the new projects, portfolios and id counter equal the route's specification; the store invariant is kept and the other tables are unchanged |
| CreatePortfolio.Publish | app/api/portfolios/create/route.ts:4-74 | the route as a function of the old tables; PublishRejections, PublishCreatesPortfolio, PublishIgnoresCallerAndReview, PublishKeepsConsistent and PublishingTwiceDuplicates state its outcomes |
| CreatePortfolio.PublishRejections | app/api/portfolios/create/route.ts:11-72 | 200 exactly for a signed-in, readable request naming an existing project and review whose insert succeeds; otherwise 401, 500 with the body's message, 404, or 500 with the insert's message, and nothing written |
| CreatePortfolio.PublishCreatesPortfolio | app/api/portfolios/create/route.ts:46-66 | one new badge-carrying portfolio under the next id, with its URL, the review's comment and the owner's score, is stored and returned; the project becomes published unless that update fails; no other project changes |
| CreatePortfolio.PublishIgnoresCallerAndReview | app/api/portfolios/create/route.ts:15-35 | the whole outcome (answer and written tables) is the same for every signed-in caller, and does not depend on the review being verified or belonging to the project |
| CreatePortfolio.PublishKeepsConsistent | app/api/portfolios/create/route.ts:46-64 | every outcome keeps the store invariant |
| CreatePortfolio.PublishingTwiceDuplicates | app/api/portfolios/create/route.ts:46-56 | publishing the same project twice leaves two portfolio rows for it |
| HelpRoute.Answer | app/api/ai/help/route.ts:15-21 | 200 with the generator's data exactly when it succeeds; otherwise 500 with its error, and the fallback data is never sent |
| HelpRoute.Post | app/api/ai/help/route.ts:5-29 | the answer, whether the service was asked, and the cache table equal the route's specification over the help generator |
| HelpRoute.Handle | app/api/ai/help/route.ts:4-29 | the route as a function of the old cache; MissingTitleIsRefused, UnreadableBodyIsRefused and HelpAnswers state its outcomes |
| HelpRoute.MissingTitle | app/api/ai/help/route.ts:8 | `!milestoneTitle \|\| !projectTitle`: a title is absent or empty |
| HelpRoute.MissingTitleIsRefused | app/api/ai/help/route.ts:8-13 | 400 with the fixed message exactly when a title is absent or empty, and then neither cache nor service is touched |
| HelpRoute.UnreadableBodyIsRefused | app/api/ai/help/route.ts:22-28 | a body that cannot be read answers 500 with its message (or the fixed one), and neither the cache nor the service is touched |
| HelpRoute.HelpAnswers | app/api/ai/help/route.ts:15-21 | with both titles, 200 with the help data exactly when the generator succeeds, else 500 with a non-empty error |
| Workspace.RowIds | components/project-workspace.tsx:19-22 | the set of ids of the rows |
| Workspace.InitialStates | components/project-workspace.tsx:18-23 | one entry per row id, holding the flag of the last row with that id |
| Workspace.InitialStatesOfDistinct | components/project-workspace.tsx:18-23 | with distinct ids, every row's flag is its entry, and there are as many entries as rows |
| Workspace.RowIdsSize | components/project-workspace.tsx:55 | there are no more ids than rows, and exactly as many when ids are distinct |
| Workspace.DoneKeys | components/project-workspace.tsx:55 | the keys whose flag is true |
| Workspace.CountDone | components/project-workspace.tsx:55 | the count of true flags is at most the number of entries |
| Workspace.DoneKeysAfterSet | components/project-workspace.tsx:38-41 | overriding one entry removes its key from the completed set, and adds it back when the new flag is true |
| Workspace.CountAfterSet | components/project-workspace.tsx:38-41 | overriding one entry moves the count by the difference of its old and new flags |
| Workspace.CountExtremes | components/project-workspace.tsx:55 | no true flag gives 0, all flags true gives the number of entries |
| Workspace.Progress | components/project-workspace.tsx:42 | the percentage is 100·done/total rounded half up |
| Workspace.ProgressBounds | components/project-workspace.tsx:56 | the percentage lies in 0..100, is 0 with nothing done and 100 with everything done |
| Workspace.ProgressMonotone | components/project-workspace.tsx:42 | completing more never lowers the percentage |
| Workspace.Page.constructor | components/project-workspace.tsx:18-23 | the page starts with the record built from the rows and nothing sent |
| Workspace.Page.CompletedCount | components/project-workspace.tsx:55 | the count shown is at most the number of milestones |
| Workspace.Page.DisplayedProgress | components/project-workspace.tsx:55-56 | the progress bar shows 0..100, 0 when nothing is done, 100 when everything is done |
| Workspace.Page.ShowsReviewButton | components/project-workspace.tsx:197-199 | the request-review button is offered exactly while the project is in progress |
| Workspace.Page.ToggleMilestone | components/project-workspace.tsx:25-53 | the milestone PATCH is always sent; only on success is the entry updated and the percentage of the updated record sent for the project; a failure leaves the record as it was |
| Workspace.ToggleIsLocal | components/project-workspace.tsx:35-41 | a toggle changes one entry only, and the count moves by the difference of its flags |
| Workspace.ToggleOnThenOffRestores | components/project-workspace.tsx:35-42 | completing an open milestone and reopening it restores the record, the count and the percentage |
| ReviewForm.FlagOrFalse | components/review-form.tsx:14-17 | a nullable flag counts as true exactly when it is stored as true |
| ReviewForm.Defaults | components/review-form.tsx:13-20 | absent flags are false, an absent or zero rating is 3, absent comments are "" |
| ReviewForm.CountTrue | components/review-form.tsx:38 | at most the length; all true gives the length, none gives 0 |
| ReviewForm.CountTrueIsOccurrences | components/review-form.tsx:38 | the count is the number of occurrences of true, as `filter(Boolean).length` gives |
| ReviewForm.CountTrueOfFour | components/review-form.tsx:33-38 | the count of four answers is the sum of their indicators |
| ReviewForm.TrueCount | components/review-form.tsx:33-38 | the number of true checklist answers; lies in 0..4, 4 exactly when every check holds, 0 exactly when none does |
| ReviewForm.IsVerified | components/review-form.tsx:39 | at least three checks and a rating of at least 3; VerifiedIffAtMostOneUnchecked, VerifiedExamples and VerifiedMonotone state it |
| ReviewForm.VerifiedIffAtMostOneUnchecked | components/review-form.tsx:39 | verified exactly when no two checklist answers are both false and the rating is at least 3 |
| ReviewForm.VerifiedExamples | components/review-form.tsx:39 | (4 checks, rating 5) and (3, 3) verify; (2, 5), (3, 2) and (0, 1) do not |
| ReviewForm.VerifiedMonotone | components/review-form.tsx:39 | ticking more boxes or raising the rating never withdraws verification |
| ReviewForm.PendingReviewOpensUnverified | components/review-form.tsx:13-20 | a freshly requested review opens with nothing checked and rating 3, so it is not verified |
| ReviewForm.Form.constructor | components/review-form.tsx:13-21 | the form starts from the defaults of the stored review, not loading, nothing sent |
| ReviewForm.Form.Submit | components/review-form.tsx:27-84 | the PATCH carries the form and the computed flag; a portfolio request is among the new requests exactly when the PATCH succeeded and the form is verified, and it names the review's project and the review; navigation follows a successful PATCH unless the portfolio request throws; loading ends false |
| Signup.TrimEach | app/signup/page.tsx:48 | each piece trimmed, one result per piece |
| Signup.DropEmpty | app/signup/page.tsx:49 | keeps exactly the non-empty pieces |
| Signup.ParseSkills | app/signup/page.tsx:46-49 | every skill is non-empty, has no surrounding white space and no comma |
| Signup.SplitPiecesHaveNoSeparator | app/signup/page.tsx:47 | no piece of a split contains the separator |
| Signup.TrimIsSlice | app/signup/page.tsx:48 | every character of a trimmed piece comes from the piece |
| Signup.TrimEachConcat | app/signup/page.tsx:48 | trimming pieces distributes over concatenation |
| Signup.DropEmptyConcat | app/signup/page.tsx:49 | dropping empty pieces distributes over concatenation |
| Signup.ParseSkillsAroundComma | app/signup/page.tsx:46-49 | the skills of a field are the skills before a comma followed by those after it, in order |
| Signup.BlankFieldHasNoSkills | app/signup/page.tsx:46-49 | an empty or blank field gives no skills |
| Signup.TrimEachOfTrimmed | app/signup/page.tsx:48 | trimming already-trimmed pieces changes nothing |
| Signup.DropEmptyOfNonEmpty | app/signup/page.tsx:49 | dropping empty pieces from non-empty ones changes nothing |
| Signup.ParseSkillsOfJoin | app/signup/page.tsx:46-49 | well-formed skills joined by commas parse back to exactly those skills |
| Signup.ProfileRow | app/signup/page.tsx:51-60 | the row has the auth id, form email, name and goal, role student, null for an empty college or year, the parsed year otherwise, and the parsed skills |
| Signup.YearRoundTrip | app/signup/page.tsx:56 | a year typed as an integer is stored as that integer |
| Signup.Page.constructor | app/signup/page.tsx:23 | the page starts not loading and without navigation |
| Signup.Page.HandleSignup | app/signup/page.tsx:42-70 | a profile row is appended only when the account came back with a user and the insert succeeded; the page navigates to the dashboard unless a step failed; no other table changes; loading ends false |

## Left out

- Supabase calls, sessions, `fetch`, `NextResponse`, the router and the toasts. The store is maps and sequences of rows, and the session user is an input. The errors of the writes (inserts and updates), of the body read, of the milestone and mentor queries and of the cache select are inputs.
- The selects by id have no error input: the launch pack (app/api/projects/start/route.ts:23-31), the project in a review request (app/api/projects/request-review/route.ts:18-26), and the project, review and owner in portfolio creation (app/api/portfolios/create/route.ts:18-42). The model finds a row exactly when it exists, so a select that fails for an existing row, which the source turns into 404, 403 or a score of 0, is not modelled.
- Numbers are integers: JSON numbers (`Json.JNum`), the weeks of an idea request (printed with `${weeks}`, so fractions and exponent forms such as 1e21 are not modelled) and reliability scores.
- The completion service and `JSON.parse` are parameters. Model name and temperature play no part.
- `generateSlug` (lib/utils.ts) is not part of this model. It is a parameter, so its examples ("Hello World" to "hello-world" and the like) are not stated.
- `Date.now()`, `new Date()` and `toString(36)` are inputs. The slug's timestamp suffix is an opaque string. The `created_at` a cache write leaves is a parameter, since the source does not set it.
- AiContent.Generate: the delete that a read of an expired entry issues is taken to succeed. A failing cache write (an exception after the completion) is not modelled.
- Workspace.Progress: exact integer round-half-up instead of floating-point `Math.round`. The NaN that an empty milestone list gives is excluded, because `DisplayedProgress` requires rows. `ToggleMilestone` can only be called with a row's id, which implies rows.
- Workspace.Page.ToggleMilestone: runs as one sequential step against the current record. The stale closure of concurrent clicks is not modelled. The notes, the selected milestone and the rest of the page are rendering only.
- Workspace.Page.ShowsReviewButton states the status test and carries no further contract.
- Concurrency and atomicity: each route is one sequential step. The partial states of the multi-row sequences are visible only as the error outcomes modelled.
- The `/api/reviews/[id]` and `/api/projects/milestones/[id]` routes are not part of this model. No modelled code sets status `verified`.
- StartProject.SortByOrder: stable on equal `order_index`. The store's order for ties is unspecified.
- Request bodies are taken as well typed: a body either parses into the fields (ids, strings) or fails with a message. Non-string titles and `!title` on non-strings are not modelled.
- Text.ParseInt: decimal only. The hexadecimal prefix `parseInt` accepts, and very large digit strings losing precision, are not modelled.
- Signup.ProfileRow: `reliability_score` of a new profile is taken as null. The password, the redirect URL and the auth service's own checks are not modelled.
- ReviewForm: the field setters of the form are not modelled. The rating is `None` when its input does not parse (NaN).
- Logging (`console.error`) is left out.
