# Portfolio site: a Dafny model of its behavioural core

The portfolio site has an Express back end and a React front end. This
project models the parts of it that compute or keep state:

- **In-memory store** (`storage.dfy`, module `Storage`). The `MemoryStorage` class holds users, contacts, blog subscribers and a project-statistics map. One id counter is shared by all four. Subscriber emails are unique, and a duplicate is rejected with error code 11000. Statistics are upserted by project id. The getters return copies sorted newest first.
- **Statistics read-through cache** (`stats_cache.dfy`, module `StatsCache`). This is the `/api/github-stats` loop of the three servers. A stored entry is answered as it is. A missing one is filled with random counts from the server's ranges, stored, then answered.
- **Repository summaries** (`repos.dfy`, module `Repos`). This is the `/api/github-repos` mapping. Forks and private repositories are dropped. Titles are made by turning hyphens into spaces and capitalising each word. Missing fields get defaults. A blank homepage falls back to the project-pages address.
- **Project catalogue** (`projects.dfy`, module `Projects`). This covers:
  - classifying a repository into categories;
  - the colour and icon tables;
  - merging fetched repositories into the hand-written list;
  - the category and search filter;
  - the per-card statistics lookup.
- **Request handling** (`handlers.dfy`, module `Handlers`). This covers:
  - choosing the store at startup;
  - the contact and blog-subscription handlers of `server/index.ts`, `server/mernServer.js` and `server/routes.ts`;
  - the global error handler;
  - the request log lines.
- **Typewriter heading** (`typewriter.dfy`, module `Typewriter`). This is the hero section's step machine: it types a phrase, holds it, deletes it, then moves to the next phrase.
- **Supporting modules**. `wrappers.dfy` has Option and Result. `seqs.dfy` has filter, subsequence, first match and a stable newest-first insertion sort. `text.dfy` has ASCII case mapping, substring search, `trim`, and `substring` with JavaScript's clamping and swapping.

How the environment is modelled:

- **Clock.** `Date` is a `now: nat` parameter. Every state-changing store method requires `now >= lastStamp`, so the clock never goes back.
- **Randomness.** `Math.random()` becomes a nondeterministic choice (`:|`) of an integer in the documented range.
- **Asynchronous storage.** Each asynchronous storage call is a sequential method call on the store.

## Model

| member | source | states |
|---|---|---|
| Storage.MemoryStorage.constructor | server/memoryStorage.js:3-9 | The store starts empty, with the id counter at 1, and its invariant holds. |
| Storage.MemoryStorage.IdsPairwiseDistinct | server/memoryStorage.js:19-81 | No id is shared between two records of any collections, or between two entries of the statistics map. |
| Storage.MemoryStorage.GetUser | server/memoryStorage.js:11-13 | Returns a stored user with the id, or nothing exactly when no user has that id. |
| Storage.MemoryStorage.GetUserByUsername | server/memoryStorage.js:15-17 | Returns the first user with that name, no earlier one matching, or nothing exactly when none has it. |
| Storage.MemoryStorage.CreateUser | server/memoryStorage.js:19-28 | Appends one user with the next id and the current time, and advances the counter by one. There is no username check. Other collections are unchanged and the invariant is kept. |
| Storage.MemoryStorage.CreateContact | server/memoryStorage.js:30-39 | Appends exactly one contact at the end with the next id, consuming one id. Earlier contacts and every other collection are unchanged. |
| Storage.MemoryStorage.GetContacts | server/memoryStorage.js:41-43 | Returns a permutation of the contacts, ordered newest first. Contacts created at the same instant keep their stored order. The store is not changed. |
| Storage.MemoryStorage.CreateBlogSubscriber | server/memoryStorage.js:45-62 | An email already present gives error code 11000 "Email already subscribed" and leaves the subscribers and the counter unchanged. Otherwise one subscriber is appended under the next id. Emails stay pairwise distinct. |
| Storage.MemoryStorage.GetBlogSubscribers | server/memoryStorage.js:64-66 | Returns a permutation of the subscribers, ordered newest first and stable for equal times. |
| Storage.MemoryStorage.GetProjectStats | server/memoryStorage.js:68-70 | Finds an entry exactly for project ids that were upserted, and returns the entry stored under that id. |
| Storage.MemoryStorage.UpdateProjectStats | server/memoryStorage.js:72-81 | Replaces the whole entry for the project id with the given counts, a fresh id and the current time, so a second update overwrites rather than accumulates. Only a new key extends the key order. |
| Storage.MemoryStorage.GetAllProjectStats | server/memoryStorage.js:83-85 | Returns one entry per distinct project id ever upserted, in first-insertion order, and every stored entry appears in it. |
| Seqs.SortNewestFirstCorrect | server/memoryStorage.js:42 | The newest-first sort is a permutation of its input and is ordered by descending creation time. |
| Seqs.SortNewestFirstStable | server/memoryStorage.js:42 | Elements with equal creation times keep their relative order. |
| Seqs.SortNewestFirst | server/memoryStorage.js:42 | The sorted copy is as long as the input; SortNewestFirstCorrect and SortNewestFirstStable state order, permutation and stability. |
| StatsCache.ReadOne | server/index.ts:72-92 | A stored repository is answered with exactly its stored counts, and the statistics table, its key order and the id counter are unchanged. A missing one is answered with counts within the ranges, stored under its name first. Its key then joins the end of the key order and consumes one id. No other entry changes. |
| StatsCache.AnsweredStep | server/index.ts:71-93 | One more iteration keeps the loop's account: the store holds the old entries unchanged plus exactly the answered keys, and each answer is what the store holds. |
| StatsCache.ReadThrough | server/index.ts:66-100 | Answers every listed repository with exactly the counts now stored for it, adding only the listed keys. Entries stored before are neither changed nor re-randomised. A repository stored for the first time gets counts within the ranges. The key order becomes `AppendNew` of the old order and the list, and the counter advances by the number of keys added. Users, contacts and subscribers are unchanged. |
| StatsCache.ReadTwice | server/index.ts:73-90 | A second request over the same store answers exactly what the first answered. |
| StatsCache.AnsweredAgain | server/index.ts:71-93 | Running the loop again over the keys it answered, after their counts were stored, reproduces the first answers and leaves the statistics table as it was. |
| StatsCache.AppendNewExtends | server/index.ts:71-88 | Upserting a list in turn keeps the old key order as a prefix. The keys become the old ones plus the listed ones, and a repeat-free order stays repeat-free. |
| StatsCache.AppendNewFresh | server/index.ts:71-88 | When every listed repository is new and listed once, the key order is the old one followed by the list, in listed order. |
| StatsCache.RepoLists | server/index.ts:68 | The fixed lists name 3, 7 and 6 distinct repositories. The list of server/mernServer.js is that of server/index.ts without "servidor". |
| StatsCache.RoutesGithubStats | server/routes.ts:9-47 | The three fixed repositories are answered from the store; a miss yields stars in [1,10], forks in [0,4] and watchers in [1,15], persisted before the answer. The key order grows by `AppendNew`, and on a store holding none of them it is the old order followed by the list. The counter advances once per key added. Users, contacts and subscribers are unchanged. The store's last clock reading moves forward, to at most the request's time. |
| StatsCache.IndexGithubStats | server/index.ts:66-100 | The seven fixed repositories are answered from the store; a miss yields stars in [5,24], forks in [1,8] and watchers in [3,17], persisted before the answer. The key order grows by `AppendNew`, and on a store holding none of them it is the old order followed by the list. The counter advances once per key added. Users, contacts and subscribers are unchanged. The store's last clock reading moves forward, to at most the request's time. |
| StatsCache.IndexStatsTwice | server/index.ts:66-100 | Two stats requests in a row give identical answers over the seven repositories. After them, the statistics keys are the old keys plus the listed repositories. |
| StatsCache.MernGithubStats | server/mernServer.js:51-88 | The six fixed repositories, "servidor" not among them, are answered from the store, with the same ranges on a miss. The key order, the counter and the other collections change as for `IndexGithubStats`. The store's last clock reading moves forward, to at most the request's time. |
| Repos.CapitalizeScanAt | server/routes.ts:63 | The global `\b\w` replacement upper-cases exactly the word characters at a word boundary and keeps the length. |
| Repos.TitleAt | server/routes.ts:63 | A title is as long as the name. Every '-' becomes ' '. A character that starts a word is upper-cased, and every other character is kept. |
| Repos.Title | server/routes.ts:63 | A title is exactly as long as the name; TitleAt states each character. |
| Repos.HomepageFallback | server/routes.ts:70 | A homepage that is non-blank after trimming is kept; otherwise it is the project-pages address of the repository. |
| Repos.Homepage | server/routes.ts:70 | The homepage link is never blank; HomepageFallback states which link is chosen. |
| Text.TrimEmptyIffBlank | server/routes.ts:70 | `trim()` yields the empty string exactly when every character is JavaScript white space. |
| Repos.Summarize | server/routes.ts:61-74 | `id` and `name` are the repository name. A falsy description or language becomes "No description available" or "Unknown", and a present one is kept. A missing count is 0. Missing topics become the empty list. The title is `Title` of the name and the homepage is `Homepage` of the repository. The URL and the dates are copied. |
| Repos.SummarizeAll | server/routes.ts:60-74 | One summary per repository, in input order. |
| Repos.PublicRepoSummariesCorrect | server/routes.ts:58-74 | The answer summarises, in input order, exactly the repositories that are neither forks nor private. |
| Repos.PublicRepoSummaries | server/routes.ts:58-74 | The answer has no more summaries than there are repositories; PublicRepoSummariesCorrect states which ones. |
| Projects.LanguageIcon | client/src/components/projects-section.tsx:137-146 | The icon is the code icon exactly when the language mentions "javascript" or "js", or no other keyword of the table. |
| Projects.LanguageColor | client/src/components/projects-section.tsx:149-159 | The default grey exactly when no keyword of the colour table occurs in the lower-cased language. |
| Projects.LanguageStyleCaseInsensitive | client/src/components/projects-section.tsx:137-159 | Icon and colour ignore the language's case. A missing language counts as the empty one and gets the defaults. |
| Projects.JavaScriptStyle | client/src/components/projects-section.tsx:149-153 | A language containing "javascript" takes the JavaScript colour and icon: the first matching rule wins. |
| Projects.Categories | client/src/components/projects-section.tsx:162-184 | The category list is never empty; CategoriesShape states the rest. |
| Projects.ProjectCategory | client/src/components/projects-section.tsx:162-184 | The pushes build exactly the categories whose rule fires, in rule order, or ["other"] when none fires. |
| Projects.CategoriesShape | client/src/components/projects-section.tsx:162-184 | The list is never empty. It holds "other" exactly when no rule fires, and then it is exactly ["other"]. Otherwise it is an ordered subsequence of web, ml, java, mobile, backend without repeats. A category is listed exactly when its rule fires. |
| Projects.JavaScriptIsAlsoJava | client/src/components/projects-section.tsx:167-174 | A language containing "javascript" is classified as both "web" and "java". |
| Projects.RepoTags | client/src/components/projects-section.tsx:212 | At most three tags, none empty, drawn in order from the language and the first two topics only. Every non-empty candidate is kept as often as it occurs among them, so a repeated one stays repeated. |
| Projects.FromRepo | client/src/components/projects-section.tsx:207-224 | A fetched project is linked to its repository by name and classified by its language and topics. |
| Projects.Merge | client/src/components/projects-section.tsx:205-248 | The merged catalogue has at least the manual projects and at most one more per fetched repository; MergeAppendsUnseen, MergeUpdatesManual and MergeTakesFirstMatch state its contents. |
| Projects.MergeAppendsUnseen | client/src/components/projects-section.tsx:242-246 | The merge is at least as long as the manual list. After the manual projects come exactly the fetched projects whose repository the manual list does not name, in fetched order. |
| Projects.MergeUpdatesManual | client/src/components/projects-section.tsx:227-240 | Each manual project keeps every field except the counts and the demo link. A non-empty manual demo link is kept. A project that no fetched repository matches is unchanged. |
| Projects.MergeTakesFirstMatch | client/src/components/projects-section.tsx:228-237 | A matched manual project takes the counts of the first fetched repository with its name. When its own demo link is missing or empty, it takes that repository's homepage. |
| Projects.MergeKeepsManual | client/src/components/projects-section.tsx:227-240 | Whatever is fetched, the merge starts with the manual projects in their order, each keeping its id, title, description, tags, categories and repository name. |
| Projects.CatalogueStartsWithManual | client/src/components/projects-section.tsx:51-124 | Whatever is fetched, the merged catalogue starts with the six hand-written projects in their order, each keeping its id, title, description, tags, categories and repository name. |
| Projects.FilterProjects | client/src/components/projects-section.tsx:250-270 | The result is an order-preserving subsequence of the catalogue. "all" with an empty search is the identity. A project is kept exactly when it has the active category and it contains the search term case-insensitively in its title, description or a tag. Each kept project appears as many times as in the catalogue, and a dropped one not at all. |
| Projects.ProjectStats | client/src/components/projects-section.tsx:272-274 | The fetched counts for the id when present, and zeros while nothing is fetched or the id is absent. |
| Handlers.StorageFor | server/index.ts:13-28 | Requests are served by the document store exactly when the connection attempt resolved to true. Until it settles, the memory store serves them. |
| Handlers.StorageSelection.constructor | server/index.ts:13-14 | The memory store is selected from the start, and the connection flag is false. |
| Handlers.StorageSelection.Settle | server/index.ts:16-28 | A resolved flag is recorded, and only true switches to the document store. A throw changes nothing. From the initial state, the result is `StorageFor`. |
| Handlers.MernStorageFor | server/mernServer.js:4-16 | Always the document store. It differs from the index.ts choice exactly when the connection did not resolve to true. |
| Handlers.ValidateContact | server/index.ts:104-108 | Accepts exactly the bodies whose four fields are all present and non-empty, and carries them over unchanged. |
| Handlers.HandleContact | server/index.ts:102-127 | A falsy field gives 400 "All fields are required", and the contacts and the id counter are unchanged. Otherwise one contact carrying the body's fields is appended under the next id, and the counter advances by one. The reply is 200 with an echo of id, name, email, subject and creation time, without the message. Users, subscribers, the statistics table and its key order are never changed. The store's last clock reading moves forward, to at most the request's time. |
| Handlers.SubscribeFailure | server/index.ts:148-153 | Error code 11000 becomes 400 "Email already subscribed"; every other failure becomes 500. |
| Handlers.HandleSubscribe | server/index.ts:129-155 | A falsy email gives 400 "Email is required". An address already subscribed gives 400 "Email already subscribed". In both cases the subscribers and the id counter are unchanged. Otherwise one subscriber is appended under the next id and echoed with 200, and the counter advances by one. The other collections and the key order are never changed. The store's last clock reading moves forward, to at most the request's time. |
| Handlers.SubscribeTwice | server/index.ts:129-155 | Subscribing a new address twice in a row succeeds once with 200. The second request is answered with 400 "Email already subscribed", and the two requests add one subscriber in all. |
| Handlers.ParseContact | server/routes.ts:86 | The schema parse accepts exactly the bodies whose four fields are all strings, including empty ones. |
| Handlers.ParseAcceptsMore | server/routes.ts:84-93 | Every body the index.ts presence check accepts parses to the same record, and a body of empty strings parses but is refused by the presence check. |
| Handlers.RoutesContact | server/routes.ts:84-93 | The status is 200 exactly when the body parses. The contact is then appended under the next id with the current time, returned in full, and the counter advances by one. Any failure is 500 and leaves the contacts and the counter unchanged. The other collections and the key order are never changed. The store's last clock reading moves forward, to at most the request's time. |
| Handlers.RoutesSubscribe | server/routes.ts:96-105 | The status is 200 exactly when the email is present and not yet subscribed. The subscriber is then appended under the next id with the current time, and the counter advances by one. Every failure, a duplicate included, is 500 and leaves the subscribers and the counter unchanged. The other collections and the key order are never changed. The store's last clock reading moves forward, to at most the request's time. |
| Handlers.GlobalErrorResponse | server/mernServer.js:205-211 | The status is `err.status`, else `err.statusCode`, else 500, and is never 0. The message is `err.message`, else "Internal Server Error", and is never empty. |
| Handlers.FullLogLine | server/index.ts:49-53 | The line starts with the method and the path, and ends with the JSON text of the body when one was sent. |
| Handlers.Truncate | server/index.ts:54-56 | A line of at most 80 characters is kept. A longer one keeps its first 79 characters, followed by the suffix, and nothing else. |
| Handlers.TruncateFits | server/index.ts:54-56 | With a one-character ellipsis, a line fits in 80 characters. A short line is kept as it is, and a long one keeps its first 79 characters. |
| Handlers.MojibakeOverflows | server/index.ts:54-56 | With the suffix as written, every truncated line is 82 characters long, and a stats response with an 80-character body triggers it. |
| Handlers.ApiLogLineAsWritten | server/index.ts:46-60 | Only `/api` paths are logged. The line is the request summary plus the JSON body, cut to 79 characters and the three-character suffix when longer than 80. |
| Handlers.ApiLogLine | server/index.ts:46-60 | The same middleware with the intended single ellipsis character: every logged line has at most 80 characters. |
| Handlers.MernLogLine | server/mernServer.js:35-44 | Only `/api` paths are logged. At most the first 80 characters of the JSON body are appended, and the base line is never cut. |
| Typewriter.Next | client/src/components/hero-section.tsx:20-39 | A tick keeps the phrase index in range. It changes the index only when deleting has emptied the text, and then it switches to typing. A tick never starts deleting. |
| Typewriter.NextKeepsInv | client/src/components/hero-section.tsx:20-39 | A tick keeps the phrase index in range and the shown text a prefix of the current phrase. |
| Typewriter.TypingStep | client/src/components/hero-section.tsx:26-31 | While typing, a tick shows one more character of the phrase. Once the phrase is whole, the state is unchanged and the switch to deleting is requested. |
| Typewriter.DeletingStep | client/src/components/hero-section.tsx:24-35 | While deleting, a tick drops the last character. On the empty text it switches to typing and advances the index modulo 4. It never requests deleting. |
| Typewriter.TypingCompletes | client/src/components/hero-section.tsx:20-39 | Typing from any prefix reaches the whole phrase in as many ticks as characters are missing. |
| Typewriter.DeletingCompletes | client/src/components/hero-section.tsx:20-39 | Deleting from any prefix reaches the empty text, then starts the next phrase one tick later. |
| Typewriter.Typewriter.constructor | client/src/components/hero-section.tsx:16-18 | Starts typing the first phrase from the empty text. |
| Typewriter.Typewriter.Tick | client/src/components/hero-section.tsx:20-39 | The state advances by one step of `Next`. The hold timer is scheduled exactly when typing has reached the whole phrase. |
| Typewriter.Typewriter.StartDeleting | client/src/components/hero-section.tsx:31 | The hold timer switches to deleting and changes nothing else. |

## Left out

- Storage.MemoryStorage.CreateUser: `createdAt` and `updatedAt` come from two `new Date()` reads. The model uses one instant for both, here and in every other create. Likewise `StatsCache.ReadThrough` stamps every upsert of one request with the same instant, where `updateProjectStats` reads the clock on each call.
- Storage.MemoryStorage.CreateUser, Storage.MemoryStorage.CreateContact and Storage.MemoryStorage.CreateBlogSubscriber: the object spreads `...userData`, `...contactData` and `...subscriberData` of all three creates could override the fresh id if the input carried one. Inputs are typed records without an id, so the model always stores the fresh id.
- The usernames of users are not unique, although the table declarations intend them to be. `createUser` performs no check, and the model follows the code.
- Case mapping is ASCII only, and string lengths count Unicode scalar values rather than UTF-16 code units. Characters outside the Basic Multilingual Plane are therefore counted once, where JavaScript counts two.
- The document (MongoDB) and relational stores are not part of this model. The statistics loop and the handlers of all three servers run against the in-memory store. As a result, `server/routes.ts` reaches a duplicate email through the memory store's error, not through a database constraint.
- The outbound fetch of the repository list is left out. `Repos.PublicRepoSummaries` works on an abstract list of repository records, and a failed fetch, which gives a 500, is not modelled.
- The schema parse of `server/routes.ts` is modelled as "each field is a string". Length limits the schema library may add are not modelled.
- Request bodies whose fields hold non-string JSON values (numbers, objects) are not modelled: a field is absent or a string.
- The race at startup, where requests are served while the connection attempt is still pending, is modelled only as the `Pending` state of `StorageFor`. Interleavings are not modelled.
- The error handler of `server/index.ts` (lines 200-206) gives the same response as `Handlers.GlobalErrorResponse`, then rethrows. The rethrow is not modelled.
- The statistics answer is a map. The key order of the JSON object, which is the listed order, is not modelled.
- Timer delays (100 ms typing, 50 ms deleting, 2 s hold) are not modelled, nor is the cancelling of a pending timer on re-render. Only the step relation is.
- The resume download endpoints, the contact and subscriber listing endpoints, CORS, static and Vite serving, and the presentational components are not part of this model.

## Findings

| source | as written | input that shows it | evidently intended | confidence | as-written member | corrected member |
|---|---|---|---|---|---|---|
| server/index.ts:55 | An over-long log line is cut to 79 characters and "â€¦" is appended. That is the UTF-8 encoding of "…" read as Windows-1252: three characters. | `GET /api/github-stats 200 in 12ms :: ` followed by an 80-character JSON body. The line has 117 characters and is logged with 82. | A single "…" character, so that a logged line has at most 80 characters. | not executed | Handlers.ApiLogLineAsWritten | Handlers.ApiLogLine |
