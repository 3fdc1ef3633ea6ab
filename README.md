# PfeBackend core in Dafny

This project models the core of the PfeBackend knowledge-base server, a
NestJS application. It covers:

- **question answering (RAG)**: `RagService.ragSearch` takes a `RagQueryDto`, runs a
  semantic search, coerces the hits and hands them to
  `OllamaService.generateRAGResponse`, which builds the prompt, calls the
  Ollama `/generate` endpoint and trims or replaces its answer;
- **comments**: creation, with `@name` mentions pulled out of the content
  and REPLY/MENTION notifications saved and pushed; toggling a like; soft
  removal by the author;
- **accounts**: registration, login, e-mail verification and the
  password-reset flow (`AuthService`, `UsersService`);
- **the two guards**: `AuthGuard` accepts a valid `Bearer` token, and
  `AuthRolesGuard` also loads the user and checks the route's roles;
- **articles**: creation, lookup, update with a version history, publish,
  archive, restore of a version, and removal;
- **smaller pieces**: the media type derived from a MIME type, the
  category/tag seed, and the class-validator rules of the nine request DTOs.

Each source file has one Dafny module of the same name:

- **Pure code** (string handling, decisions, DTO rules) is written as
  functions with lemmas.
- **Services that change stored rows** are classes. Their fields are the
  tables, and their methods state the whole new state in terms of the old
  one.
- **Account flows** are specified by step functions: `RegisterStep`,
  `LoginStep`, `SendResetStep`, `CheckResetLink` and `ResetStep`. Each one
  maps the users table to a reply, a new table and the mails sent. The
  methods of `AuthService` and `UsersService` are proved against these
  functions. The lemmas prove the flows' properties from them: e-mails stay
  unique, login succeeds exactly for a matching password, a sent reset link
  is valid, and a reset consumes the token.

Shared modules:

- `JsValues`: JavaScript values, truthiness and numbers.
- `JsStrings`: `trim`, `split(' ')`, `join`, `startsWith`, `includes` and
  number-to-string.
- `ClassValidator`: the class-validator decorators the DTOs use, with
  `IsOptional` skipping the other rules of a property that is null or
  undefined, and the ValidationPipe's whitelist.
- `UserEntity`: the `User` row, and the users table as a sequence whose
  row `i` has id `i + 1`.

What the proofs turned up about the code as written:

- The seeded category "RH" is shorter than the 3 characters
  `CreateCategoryDto` demands (`CategoryTagSeed.SeededCategoryNamesVersusDto`).
- Every seeded tag starts with `#`, which `CreateTagDto`'s pattern refuses
  (`CategoryTagSeed.SeededTagsRefusedByDto`).
- `CreateUserDto` accepts a 6-character password, but `LoginDto` needs
  8 characters. Such an account can register but can never pass the login
  DTO (`CreateUserDto.ShortPasswordGap`).
- After a successful reset, the reset token is set to the empty string
  rather than cleared. A reset link carrying an empty token is then
  reported valid (`AuthService.EmptyTokenAcceptedAfterReset`). A non-empty
  token is consumed (`AuthService.ResetConsumesToken`).
- `ragSearch` applies its defaults only to an undefined `limit` or
  `minSimilarity`, so an explicit `null` reaches the search as `null`
  (`RagService.DefaultsApplied`). Through the ValidationPipe the DTO's own
  initialisers already supply 4 and 0.25 (`RagService.ValidatedBounds`).
- `AuthRolesGuard` attaches the token payload to the request before it
  checks the role, so a request it refuses with 403 still carries
  `request.user` (`AuthRolesGuard.AuthRolesGuard.CanActivate`).

## Model

| member | source | states |
|---|---|---|
| RagQueryDto.Instantiate | src/rag/dto/rag-query.dto.ts:3-17 | the DTO instance keeps every body property and gets limit 4 and minSimilarity 0.25 exactly where the body omits them |
| RagQueryDto.PropertyRules | src/rag/dto/rag-query.dto.ts:4-17 | `q` passes iff it is a string; `limit` iff it is missing or a number in [1, 10]; `minSimilarity` iff missing or a number in [0, 1] |
| RagQueryDto.Names | src/rag/dto/rag-query.dto.ts:3-17 | the whitelist is exactly q, limit and minSimilarity |
| RagQueryDto.InstanceFields | src/rag/dto/rag-query.dto.ts:7-17 | the initialisers change neither `q` nor whether a given bound is in range |
| RagQueryDto.Accepted | src/rag/dto/rag-query.dto.ts:3-17 | a body is valid iff it has only whitelisted keys, a string `q`, and each bound it gives is missing or in range |
| RagQueryDto.QueryOnly | src/rag/dto/rag-query.dto.ts:11-17 | a body holding only `q` is valid and becomes q, 4, 0.25 |
| RagQueryDto.LimitBounds | src/rag/dto/rag-query.dto.ts:7-11 | a numeric limit is accepted iff 1 <= limit <= 10 |
| RagQueryDto.MinSimilarityBounds | src/rag/dto/rag-query.dto.ts:13-17 | a numeric minSimilarity is accepted iff 0 <= it <= 1 |
| RagQueryDto.NonNumericRejected | src/rag/dto/rag-query.dto.ts:8-14 | a bound that is given, not null and not a number makes the body invalid |
| RagQueryDto.QueryRequired | src/rag/dto/rag-query.dto.ts:4-5 | a body without `q` is invalid |
| RagService.SearchArgsOf | src/rag/rag.service.ts:15 | the search gets `q` unchanged, and 4 / 0.25 only where the bound is undefined |
| RagService.ToNumber | src/rag/rag.service.ts:37 | `Number(null)` is 0 and `Number(undefined)` is NaN, both falsy; a number is kept and a text is parsed |
| RagService.Coerce | src/rag/rag.service.ts:37 | `Number(x) \|\| 0` is never NaN: a truthy number is kept, anything else becomes 0 |
| RagService.Chunks | src/rag/rag.service.ts:34-38 | one chunk per hit, in order, with title, preview and the coerced similarity |
| RagService.Retrieved | src/rag/rag.service.ts:46-50 | one retrieved article per hit, in order, with id, title and the coerced similarity |
| RagService.RagSearch | src/rag/rag.service.ts:14-61 | the search is called with SearchArgsOf(query); generation happens iff the search returned a non-empty list |
| RagService.DefaultsApplied | src/rag/rag.service.ts:15 | undefined bounds become 4 and 0.25; null bounds reach the search as null |
| RagService.EmptySearch | src/rag/rag.service.ts:24-31 | an empty search gives success, found 0 and the fixed "not found" answer, without generation |
| RagService.Answered | src/rag/rag.service.ts:33-52 | a non-empty search gives success, found = number of hits, one retrieved entry per hit with its id and title, one generator call with the chunks, and a non-empty answer that trimming leaves unchanged |
| RagService.SimilaritiesCoerced | src/rag/rag.service.ts:34-50 | the chunk and the retrieved entry carry the same coerced similarity, never NaN; a missing or unparsable similarity becomes 0 |
| RagService.SearchFailure | src/rag/rag.service.ts:53-60 | a throwing search gives the error body with success false, the fixed message and the thrown message, and no generation |
| RagService.ValidatedBounds | src/rag/rag.service.ts:15-22 | for a body the DTO accepts, each bound reaching the search is defined and either null or in range; a body giving only `q` searches with 4 and 0.25 |
| OllamaService.RenderChunk | src/rag/ollama.sevice.ts:18 | the block of chunk i starts with "[Article i+1] (" and the title, continues with " – pertinence ", the score and ")\n", and ends with the preview |
| OllamaService.Renderings | src/rag/ollama.sevice.ts:17-18 | one block per chunk, in order, numbered from 1 |
| OllamaService.ContextShape | src/rag/ollama.sevice.ts:17-19 | no chunk gives an empty context, one chunk its block alone, and each further chunk appends the separator and its block |
| OllamaService.ContextStartsWithFirstChunk | src/rag/ollama.sevice.ts:17-19 | a non-empty context starts with the first chunk's block |
| OllamaService.ContextText | src/rag/ollama.sevice.ts:17-19 | the context is empty iff there are no chunks |
| OllamaService.UserPrompt | src/rag/ollama.sevice.ts:26-33 | the user prompt opens with the question intro and the question and ends with the context and the closing line |
| OllamaService.FullPrompt | src/rag/ollama.sevice.ts:35 | the full prompt opens with the system prompt and a newline and ends with the context and the closing line |
| OllamaService.Request | src/rag/ollama.sevice.ts:38-48 | the POST goes to the Ollama URL with the configured model, no streaming, and the full prompt |
| OllamaService.PromptLayout | src/rag/ollama.sevice.ts:21-35 | the full prompt is the system prompt, a newline, the question intro, the question, the context intro, the context and the closing, at the stated offsets |
| OllamaService.AnswerFrom | src/rag/ollama.sevice.ts:51-56 | the answer is never empty: the apology, the "no answer" notice, or the trimmed `response` text |
| OllamaService.GenerateRAGResponse | src/rag/ollama.sevice.ts:13-57 | never empty; a failed POST gives the apology; a returned body gives AnswerFrom of that body |
| OllamaService.AnswerText | src/rag/ollama.sevice.ts:51-53 | a `response` string that trims to something is returned trimmed |
| OllamaService.AnswerBlank | src/rag/ollama.sevice.ts:51-53 | a missing, falsy or blank `response` gives the "no answer" notice |
| OllamaService.AnswerNotText | src/rag/ollama.sevice.ts:51-56 | a truthy non-string `response` has no `trim`, which throws and gives the apology |
| OllamaService.AnswerNotObject | src/rag/ollama.sevice.ts:51-53 | a body that is neither an object nor null/undefined gives the "no answer" notice |
| OllamaService.AnswerIsTrimmed | src/rag/ollama.sevice.ts:51-56 | every answer is already trimmed |
| OllamaService.AnswerFromTrimmed | src/rag/ollama.sevice.ts:51-53 | whatever the reply body, the answer drawn from it is already trimmed |
| MediaService.MediaTypeOf | src/media/media.service.ts:22-29 | IMAGE for an `image/` prefix; otherwise DOCUMENT if "pdf" or "document" occurs; OTHER iff neither holds |
| MediaService.DocumentAnywhere | src/media/media.service.ts:25-26 | "pdf" or "document" anywhere in a non-image type gives DOCUMENT |
| MediaService.ImagePrecedence | src/media/media.service.ts:23-24 | the image prefix takes precedence: "image/pdf" is IMAGE |
| MediaService.PdfIsDocument | src/media/media.service.ts:25-26 | "application/pdf" is DOCUMENT |
| MediaService.CsvIsOther | src/media/media.service.ts:28 | "text/csv" is OTHER |
| CategoryTagSeed.Database.SeedCategoriesAndTags | src/seeds/category-tag.seed.ts:5-71 | each table receives its seed list iff it was empty, and is otherwise untouched |
| CategoryTagSeed.Database.SeedTwice | src/seeds/category-tag.seed.ts:10-11 | seeding twice leaves the same state as seeding once |
| CategoryTagSeed.SeedListsNonEmpty | src/seeds/category-tag.seed.ts:12-67 | the seed holds 6 categories and 20 tags |
| CategoryTagSeed.SeededTagsRefusedByDto | src/seeds/category-tag.seed.ts:46-67 | every seeded tag violates CreateTagDto's character pattern |
| CategoryTagSeed.CategoryNameVersusDto | src/category/dto/create-category.dto.ts:4-7 | a plain name passes CreateCategoryDto iff its length is 3 to 50 |
| CategoryTagSeed.SeededCategoryNamesVersusDto | src/seeds/category-tag.seed.ts:12-37 | every seeded category name but "RH" passes CreateCategoryDto |
| CommentService.RunEnd | src/comment/comment.service.ts:107 | `\w+` is greedy: the run ends at the first non-word character or the end |
| CommentService.MentionMatch | src/comment/comment.service.ts:107 | a match is '@' followed by at least one word character |
| CommentService.MatchesFrom | src/comment/comment.service.ts:107-108 | every global match is a '@' followed by a word |
| CommentService.Dedup | src/comment/comment.service.ts:111 | the Set keeps every name once, with no duplicates, in first-appearance order |
| CommentService.StripAt | src/comment/comment.service.ts:111 | `substring(1)` drops the '@' of every match |
| CommentService.ExtractFirstNames | src/comment/comment.service.ts:106-112 | the extracted names are pairwise distinct |
| CommentService.MatchesFromSound | src/comment/comment.service.ts:107-108 | every match is a mention found in the content |
| CommentService.MatchesFromComplete | src/comment/comment.service.ts:107-108 | every mention in the content is matched |
| CommentService.ExtractFirstNamesSpec | src/comment/comment.service.ts:106-112 | a name is extracted iff some '@' in the content is followed by exactly that maximal run of word characters |
| CommentService.ExtractFirstNamesOrder | src/comment/comment.service.ts:111 | names keep the order of their first appearance |
| CommentService.MentionsFor | src/comment/comment.service.ts:69-82 | at most one notification per mentioned user; each is a MENTION from the author about the comment to a mentioned user; every mentioned user other than the author gets one |
| CommentService.MentionsForOrder | src/comment/comment.service.ts:69-82 | the MENTIONs correspond one to one, in list order, to the positions of the mentioned users other than the author: exact count and order |
| CommentService.MentionsForSnoc | src/comment/comment.service.ts:71-81 | adding a mentioned user appends its notification only if it is not the author |
| CommentService.NotificationsFor | src/comment/comment.service.ts:50-82 | at most one more notification than mentioned users; every one is sent by the author, to someone else, about the new comment |
| CommentService.SenderName | src/comment/comment.service.ts:93 | the sender name starts with the first name and a space, and is only that when there is no last name |
| CommentService.MessageFor | src/comment/comment.service.ts:95-97 | MENTION gets the "mentionné" text and only MENTION does; REPLY gets the "répondu" text and only REPLY does |
| CommentService.ReplyRule | src/comment/comment.service.ts:52-67 | there is a REPLY iff the parent has an author other than the commenter, and it comes first |
| CommentService.NothingToNotify | src/comment/comment.service.ts:85 | nothing is saved or pushed iff there is no reply to notify and only the author is mentioned |
| CommentService.NoMentions | src/comment/comment.service.ts:73 | self-mentions produce no notification |
| CommentService.PushFor | src/comment/comment.service.ts:90-99 | the push goes to the notification's recipient with its type and comment |
| CommentService.PushesFor | src/comment/comment.service.ts:88-100 | one push per saved notification, in order |
| CommentService.UsersNamed | src/comment/comment.service.ts:42-44 | the users found are exactly those whose first name was extracted |
| CommentService.RemoveAll | src/comment/comment.service.ts:151 | the filter removes the user and keeps every other like |
| CommentService.Toggled | src/comment/comment.service.ts:147-155 | the user is among the new likes iff they were not among the old ones |
| CommentService.ToggleFlips | src/comment/comment.service.ts:147-155 | after a toggle the user likes the comment iff they did not before; other likes are unchanged |
| CommentService.RemoveAllAbsent | src/comment/comment.service.ts:151 | filtering out a user who never liked changes nothing |
| CommentService.ToggleTwice | src/comment/comment.service.ts:147-155 | like then unlike restores the likes |
| CommentService.Find | src/comment/comment.service.ts:133-138 | a comment is found iff it exists and is not soft-removed |
| CommentService.RemoveDecision | src/comment/comment.service.ts:160-169 | removal succeeds, on that comment, iff it is found and its author is the caller; a missing comment is a bare Not Found; a comment without a loaded author fails with an internal error |
| CommentService.RemoveDecisionSpec | src/comment/comment.service.ts:160-169 | removal succeeds iff the live comment's author is the caller; Forbidden for another author, Not Found for a missing or removed comment |
| CommentService.ReplyTarget | src/comment/comment.service.ts:53-59 | a parent is looked up iff `parentId` is truthy and names a live comment, and then its author is the reply target |
| CommentService.CommentStore.SelectNotifications | src/comment/comment.service.ts:50-82 | the loop builds the REPLY then the MENTIONs as NotificationsFor specifies |
| CommentService.CommentStore.Create | src/comment/comment.service.ts:28-104 | saves the comment with its parent and mentioned users, appends its notifications and their pushes, and advances the id |
| CommentService.CommentStore.Broadcast | src/comment/comment.service.ts:85-101 | appends one push per notification and changes nothing else |
| CommentService.CommentStore.ToggleLike | src/comment/comment.service.ts:131-158 | Not Found with the id in the message for a missing comment; otherwise only that comment's likes are toggled |
| CommentService.CommentStore.Remove | src/comment/comment.service.ts:160-170 | result as RemoveDecisionSpec; on success only that comment is marked removed |
| UserEntity.FindById | src/users/users.service.ts:19-23 | a user is found iff the id names a row |
| UserEntity.IndexOfEmail | src/users/auth.service.ts:33-35 | finds a row with the e-mail, or none iff no row has it |
| UserEntity.IndexOfUniqueEmail | src/users/entities/user.entity.ts:23-24 | with unique e-mails, the lookup finds the row itself |
| UserEntity.SameEmailUpdateKeepsUnique | src/users/entities/user.entity.ts:23-24 | saving a row again under its own e-mail keeps the e-mail column unique |
| AuthService.IdTokenInjective | src/users/auth.service.ts:162-164 | the id/token tail of a link determines both id and token |
| AuthService.VerificationLink | src/users/auth.service.ts:162-164 | the link is exactly the domain, the verify-email path, the id and a '/', followed by the token: that prefix, that suffix, and no more characters |
| AuthService.ResetLink | src/users/auth.service.ts:99-100 | the link is exactly the client domain, the reset-password path, the id and a '/', followed by the token: that prefix, that suffix, and no more characters |
| AuthService.VerificationLinkInjective | src/users/auth.service.ts:162-164 | different (id, token) pairs give different verification links |
| AuthService.ResetLinkInjective | src/users/auth.service.ts:99-100 | different (id, token) pairs give different reset links |
| AuthService.RegisterStep | src/users/auth.service.ts:31-55 | "user already exist" for a known e-mail; otherwise appends an inactive EMPLOYEE with hashed password and token, and mails its verification link |
| AuthService.LoginStep | src/users/auth.service.ts:62-88 | a bad e-mail or password changes nothing; a token leaves the table alone; a verification message may store a token and mails the link |
| AuthService.SendResetStep | src/users/auth.service.ts:93-104 | fails iff the e-mail is unknown; otherwise stores the reset token and mails the reset link |
| AuthService.CheckResetLink | src/users/auth.service.ts:109-117 | "valid link" iff the user exists and holds exactly that reset token; otherwise "invalid link" |
| AuthService.ResetStep | src/users/auth.service.ts:122-137 | fails iff the link check fails; otherwise stores the new hash and sets the token to '' |
| AuthService.StepsKeepEmailsUnique | src/users/auth.service.ts:31-137 | no account step makes two rows share an e-mail |
| AuthService.LoginSucceedsIff | src/users/auth.service.ts:62-69 | login succeeds iff the e-mail is registered and the password matches its hash |
| AuthService.LoginInactive | src/users/auth.service.ts:71-84 | an inactive user gets the verification message, a token if they had none, and the link mailed |
| AuthService.LoginActive | src/users/auth.service.ts:86-87 | an active user with the right password gets the signed {sub, role} token |
| AuthService.RegisteredCannotLogIn | src/users/auth.service.ts:39-47 | a fresh registration cannot get an access token until verified |
| AuthService.SentResetLinkValid | src/users/auth.service.ts:93-117 | the link that is mailed passes the link check |
| AuthService.ResetConsumesToken | src/users/auth.service.ts:122-137 | after a reset the used non-empty token is refused by both check and reset |
| AuthService.EmptyTokenAcceptedAfterReset | src/users/auth.service.ts:109-137 | after a reset the empty token passes the link check |
| AuthService.AuthService.Register | src/users/auth.service.ts:31-55 | result, table and outbox as RegisterStep; the e-mail column stays unique |
| AuthService.AuthService.Login | src/users/auth.service.ts:62-88 | result, table and outbox as LoginStep; the e-mail column stays unique |
| AuthService.AuthService.SendResetPasswordLink | src/users/auth.service.ts:93-104 | result, table and outbox as SendResetStep; the e-mail column stays unique |
| AuthService.AuthService.GetResetPasswordLink | src/users/auth.service.ts:109-117 | result as CheckResetLink, nothing changed |
| AuthService.AuthService.ResetPassword | src/users/auth.service.ts:122-137 | result and table as ResetStep; the e-mail column stays unique |
| UsersService.VerifyDecision | src/users/users.service.ts:53-74 | succeeds iff the user exists with exactly that verification token; three distinct errors otherwise; success activates and clears the token |
| UsersService.UnknownUserMessage | src/users/users.service.ts:41 | the message starts "Utilisateur avec l'ID " and ends " non trouvé." |
| UsersService.UnknownUserMessageInjective | src/users/users.service.ts:41 | different ids give different messages |
| UsersService.VerifyChangesOnlyActivation | src/users/users.service.ts:68-71 | verification changes only isActive and the verification token |
| UsersService.VerifyTwice | src/users/users.service.ts:59-62 | a second verification fails with "There is no verification token" |
| UsersService.RegisterVerifyLogin | src/users/users.service.ts:53-74 | register, verify with the mailed token, then log in: an access token for the new row's id and EMPLOYEE |
| UsersService.UsersService.GetCurrentUser | src/users/users.service.ts:19-23 | the row with that id, or nothing |
| UsersService.UsersService.GetUserById | src/users/users.service.ts:37-45 | the row, or Not Found naming the id |
| UsersService.UsersService.VerifyEmail | src/users/users.service.ts:53-74 | as VerifyDecision; on success only that row changes; the e-mail column stays unique |
| UsersService.UsersService.Register | src/users/users.service.ts:25-27 | delegates: as RegisterStep; the e-mail column stays unique |
| UsersService.UsersService.Login | src/users/users.service.ts:29-31 | delegates: as LoginStep; the e-mail column stays unique |
| UsersService.UsersService.SendResetPassword | src/users/users.service.ts:81-83 | delegates: as SendResetStep; the e-mail column stays unique |
| UsersService.UsersService.GetResetPassword | src/users/users.service.ts:91-93 | delegates: as CheckResetLink |
| UsersService.UsersService.ResetPassword | src/users/users.service.ts:100-102 | delegates: as ResetStep; the e-mail column stays unique |
| AuthGuard.BearerTokenSound | src/users/guards/auth.guard.ts:17-20 | an extracted token is a non-empty first word after "Bearer " |
| AuthGuard.BearerTokenComplete | src/users/guards/auth.guard.ts:17-20 | a header of that shape yields its token |
| AuthGuard.BearerTokenSpec | src/users/guards/auth.guard.ts:17-20 | a token is extracted iff the header has the Bearer shape |
| AuthGuard.ExtraWordsIgnored | src/users/guards/auth.guard.ts:17 | words after the token are ignored |
| AuthGuard.Authenticate | src/users/guards/auth.guard.ts:17-28 | succeeds iff a token is extracted and verifies; "missing or malformed" versus "Invalid or expired token" |
| AuthGuard.AuthGuard.CanActivate | src/users/guards/auth.guard.ts:15-30 | attaches the payload and allows iff Authenticate succeeds; otherwise the request is untouched |
| AuthGuard.BearerToken | src/users/guards/auth.guard.ts:17-20 | no header gives no token; a token is non-empty and has no space |
| AuthRolesGuard.Identify | src/users/guards/auth-roles.guard.ts:35-60 | succeeds iff authentication succeeds and `sub` names a user; a malformed header gives "missing or malformed", and every later failure, a missing user included, "Invalid or expired token" |
| AuthRolesGuard.RoleNames | src/users/guards/auth-roles.guard.ts:77 | the role names in order, for the message |
| AuthRolesGuard.ForbiddenMessage | src/users/guards/auth-roles.guard.ts:76-78 | the message opens with the fixed text and the user's role, and ends with the required roles joined by ", " and a full stop |
| AuthRolesGuard.Authorize | src/users/guards/auth-roles.guard.ts:65-78 | allowed iff no roles are required or the role is among them; otherwise Forbidden with the message |
| AuthRolesGuard.Decide | src/users/guards/auth-roles.guard.ts:28-79 | allowed iff the user is identified and the role check passes; an allowed request returns true; an identification failure is passed on unchanged |
| AuthRolesGuard.StricterThanAuthGuard | src/users/guards/auth-roles.guard.ts:36-60 | what this guard allows, AuthGuard authenticates; a malformed header is refused the same way |
| AuthRolesGuard.NoRolesAuthenticationDecides | src/users/guards/auth-roles.guard.ts:65-68 | without roles, allowed iff the user is identified |
| AuthRolesGuard.EmployeeOnAdminRoute | src/users/guards/auth-roles.guard.ts:71-78 | an identified EMPLOYEE is Forbidden on an ADMIN route |
| AuthRolesGuard.StoredRoleDecides | src/users/guards/auth-roles.guard.ts:51-73 | the stored row's role decides, not the token's |
| AuthRolesGuard.AuthRolesGuard.CanActivate | src/users/guards/auth-roles.guard.ts:28-79 | result as Decide; the payload is attached whenever the user is identified, even when the role check fails |
| ArticleService.InitialStatus | src/article/article.service.ts:51 | the given status, or DRAFT |
| ArticleService.CategoryNotFound | src/article/article.service.ts:39 | the message starts "Catégorie " and ends " introuvable" |
| ArticleService.ArticleNotFound | src/article/article.service.ts:76 | the message starts "Article avec l'ID #" and ends " non trouvé" |
| ArticleService.NotFoundMessagesInjective | src/article/article.service.ts:39-76 | each message names its id: different ids give different messages |
| ArticleService.TagsFor | src/article/article.service.ts:41-44 | exactly the existing tags whose ids were given |
| ArticleService.Apply | src/article/article.service.ts:94 | every given field overwrites, every absent one is kept, author/category/tags unchanged |
| ArticleService.ApplyIdempotent | src/article/article.service.ts:94 | applying the same patch twice equals once |
| ArticleService.ApplyEmpty | src/article/article.service.ts:94 | an empty patch changes nothing |
| ArticleService.NextVersion | src/article/article.service.ts:87-91 | the saved version carries the old content and keeps the history numbered 1, 2, … |
| ArticleService.FindVersion | src/article/article.service.ts:120-124 | found versions have the id; none iff no version has it |
| ArticleService.UpdateRestoreRoundTrip | src/article/article.service.ts:84-129 | restoring the version an update saved brings back the overwritten content |
| ArticleService.FreshVersionFound | src/article/article.service.ts:87-91 | a version with a fresh id is found again by that id |
| ArticleService.ArticleStore.Create | src/article/article.service.ts:32-55 | Not Found naming an unknown category; otherwise stores the article under the next id with its status and tags |
| ArticleService.ArticleStore.FindOne | src/article/article.service.ts:69-79 | the article, or Not Found naming the id |
| ArticleService.ArticleStore.Update | src/article/article.service.ts:84-96 | saves a version of the old content, then applies the patch |
| ArticleService.ArticleStore.SetStatus | src/article/article.service.ts:101-114 | sets only the status of an existing article |
| ArticleService.ArticleStore.Publish | src/article/article.service.ts:101-105 | the article becomes PUBLISHED, nothing else changes |
| ArticleService.ArticleStore.Archive | src/article/article.service.ts:110-114 | the article becomes ARCHIVED, nothing else changes |
| ArticleService.ArticleStore.RestoreVersion | src/article/article.service.ts:119-129 | "Version introuvable" unless the version belongs to the article; otherwise only the content is replaced |
| ArticleService.ArticleStore.Remove | src/article/article.service.ts:134-137 | removes the article and its versions, or Not Found |
| CreateTagDto.Accepted | src/tag/dto/create-tag.dto.ts:3-9 | valid iff `name` is a 2-20 character string of letters, digits and hyphens |
| CreateTagDto.EmptyNameMessage | src/tag/dto/create-tag.dto.ts:5 | an empty name reports the custom "obligatoire" message |
| CreateTagDto.RejectedCharacters | src/tag/dto/create-tag.dto.ts:8 | a space, '#' or '_' reports the custom pattern message |
| CreateCategoryDto.NameRules | src/category/dto/create-category.dto.ts:4-7 | `name` passes iff it is a non-empty string of length 3 to 50 |
| CreateCategoryDto.Accepted | src/category/dto/create-category.dto.ts:3-11 | valid iff whitelisted keys, a good name and an optional string description |
| CreateCategoryDto.EmptyNameMessage | src/category/dto/create-category.dto.ts:5 | an empty name reports the custom message |
| LoginDto.EmailRules | src/users/dto/login.dto.ts:4-7 | `email` passes iff it is a non-empty e-mail of at most 250 characters |
| LoginDto.PasswordRules | src/users/dto/login.dto.ts:9-12 | `password` passes iff it is a string of at least 8 characters |
| LoginDto.Accepted | src/users/dto/login.dto.ts:3-12 | valid iff only these keys and both rules pass |
| CreateUserDto.PropertyRules | src/users/dto/create-user.dto.ts:11-25 | non-empty names, an e-mail, a password of at least 6 characters |
| CreateUserDto.Accepted | src/users/dto/create-user.dto.ts:11-25 | valid iff only these four keys and all rules pass |
| CreateUserDto.RoleRejected | src/users/dto/create-user.dto.ts:11-25 | a `role` in the body is refused by the whitelist |
| CreateUserDto.ShortPasswordGap | src/users/dto/create-user.dto.ts:23-25 | a valid registration password under 8 characters fails LoginDto |
| UpdateUserDto.PropertyRules | src/users/dto/update-user.dto.ts:4-67 | each optional property passes iff missing or of its type |
| UpdateUserDto.EmptyBodyAccepted | src/users/dto/update-user.dto.ts:4-67 | the empty body is valid |
| UpdateUserDto.Accepted | src/users/dto/update-user.dto.ts:4-67 | valid iff whitelisted keys and every rule passes |
| UpdateUserDto.UnknownRoleRejected | src/users/dto/update-user.dto.ts:65-67 | a role outside the enum is refused |
| UpdateCommentDto.Accepted | src/comment/dto/update-comment.dto.ts:3-7 | valid iff `content` is a string of 1 to 1000 characters |
| UpdateCommentDto.ContentRequired | src/comment/dto/update-comment.dto.ts:4-7 | a missing content fails IsString |
| CreateCommentDto.PropertyRules | src/comment/dto/create-comment.dto.ts:4-14 | non-empty content, integer articleId, null/undefined or integer parentId |
| CreateCommentDto.Accepted | src/comment/dto/create-comment.dto.ts:3-14 | valid iff whitelisted keys and all three rules pass |
| CreateArticleDto.PropertyRules | src/article/dto/create-article.dto.ts:5-22 | non-empty title and content, optional status enum, integer categoryId, optional array tagIds |
| CreateArticleDto.Names | src/article/dto/create-article.dto.ts:4-23 | the whitelist is the five declared properties |
| CreateArticleDto.Accepted | src/article/dto/create-article.dto.ts:4-23 | valid iff whitelisted keys and all rules pass |
| CreateArticleDto.CategoryRequired | src/article/dto/create-article.dto.ts:17-18 | a missing categoryId fails IsInt |
| CreateMediaDto.PropertyRules | src/media/dto/create-media.dto.ts:5-23 | URL, non-empty names, optional type enum, optional integer articleId |
| CreateMediaDto.Names | src/media/dto/create-media.dto.ts:4-23 | the whitelist is the five declared properties |
| CreateMediaDto.Accepted | src/media/dto/create-media.dto.ts:4-23 | valid iff whitelisted keys and all rules pass |
| CreateMediaDto.TypeValues | src/media/dto/create-media.dto.ts:17-19 | every MediaType name is accepted and "video" is not |

## Left out

- Database I/O, transactions and TypeORM relations are not modelled. Tables are Dafny maps and sequences.
- Foreign-key checks are not modelled: a comment's `articleId` is stored without a lookup.
- ArticleService.ArticleStore.Remove: the `article` relation of `comment.entity.ts` has no `onDelete`, so deleting an article that still has comments would fail on that foreign key. The model has no comments table beside the articles and always removes an existing article.
- The order of `findBy` results is not modelled. Mentioned users keep table order, and article tags are a set.
- The users table is a sequence whose row `i` has id `i + 1`, and users are never deleted.
- Mail sending and its templates are out: sent mails are appended to an outbox.
- The WebSocket transport is out: pushes are appended to a list. Notification ids and `createdAt` are left out.
- bcrypt, JWT signing and verification, and `randomBytes` are left out. They are parameters: `Crypto`, the `Verifier`, and token arguments.
- The JWT secret is folded into the verifier.
- The e-mail and URL validators of class-validator are parameters (`FormatCheckers`).
- Floating point is left out:
  - numbers are reals with a NaN case;
  - `toFixed(3)` and string-to-number parsing are parameters;
  - the Ollama generation options (temperature and so on) are not modelled.
- `semanticSearch` and the Ollama HTTP call are oracles that return a value or throw. Logging is left out.
- `user.entity.ts` declares no token columns. The model stores the verification and reset tokens that the services read and write.
- `reset-password.dto.ts` and `utils/constants` are not part of this model. The enum strings are taken to be the member names.
- `findAll`, `getAllUsers`, `findByArticle`, `hashPassword` and media `create` are not modelled. They only read or forward to the repository.
- `comment.entity.ts` declares only `id`, `content` and `article`. The author, parent, mentioned users, likes and soft-delete flag of the model's `Comment` follow how `comment.service.ts` reads and writes them.
- The comment controller passes the JWT payload where `create` expects a `User`. The model takes the author as a user row.
- CommentService.CommentStore.ToggleLike: the controller passes the JWT payload as the `User`; the signed payload holds `sub` and `role`, so its `id` is undefined, so `u.id === user.id` never matches a stored like. The model takes the caller's user id.
- CommentService.CommentStore.Remove: the same payload reaches `remove`, where `comment.author.id !== user.id` then always throws Forbidden. The model compares with the caller's user id.
- CommentService.CommentStore.Create: the controller's body is typed `any` and not validated; a `content` that is not a string throws at `content.match`. The model takes the content as a string.
- ArticleService.ArticleStore.Update: the body is typed `any` in the source, so `Object.assign` can overwrite any key. The patch is limited to title, content and status.
- ArticleService.ArticleStore.Update: the saved version stays attached to its article. The later save of the article, whose loaded `versions` relation lacks the new row, could detach or delete it under TypeORM's `orphanedRowAction`; that is not modelled.
- ArticleService.UpdateRestoreRoundTrip: relies on the same assumption that the version saved by an update stays stored with its article.
