# Portfolio site core, modelled in Dafny

This project models the core of a static personal portfolio website written in
TypeScript and React. It covers the following parts:

- **Repository source** (`src/lib/github.ts`). It fetches the owner's public
  repositories from the GitHub REST API. It filters, maps, ranks and cuts the
  reply to `maxRepos`. It retries with exponential backoff or waits for the
  rate-limit reset, and it falls back to three sample projects. Every request
  goes through a limiter that keeps one second between requests.
- **Article source** (`src/lib/medium.ts`). It reads the author's Medium feed
  through the rss2json envelope. It turns the HTML descriptions into plain text,
  finds an image address, estimates the read time, selects and sorts articles
  (featured first, then newest), retries, and caches results per user with a
  timeout.
- **Site metadata.**
  - The web app manifest and its validator (`src/lib/manifest.ts`).
  - The SEO configuration and meta-tag validators and the text report
    (`src/lib/seo-validator.ts`).
  - The sitemap XML and `robots.txt` (`src/lib/sitemap.ts`).
  - The schema.org JSON-LD documents (`src/lib/structured-data.ts`).
- **Interactive components.**
  - The contact form's validation and submit flow (`ContactForm.tsx`).
  - The project carousel (`ProjectCarousel.tsx`).
  - The timeline and its cards (`Timeline.tsx`, `TimelineItem.tsx`).
  - The header's active-section tracking (`Header.tsx`).
  - The intersection-observer hook (`useIntersectionObserver.ts`).

Pure code is modelled as datatypes, functions and lemmas. The retry loops, the
validators that push into arrays, the loops of the header and the report, and
every component or object with mutable state are modelled as methods, some on
classes. Each method's postcondition ties its result or its new state to a
specification function or predicate of its inputs, and the properties are
proved about that specification. For the two retry loops the specification is
a predicate over the course of the call: when each request went out, what the
handler did after each failure, and how the call ended. A lemma proves that
the predicate admits exactly one course for given replies, start time and
limiter state. The network, the clock and the
browser are not modelled directly. The replies, the current time, the layout
queries and the timer expiries are parameters.

Files:

- `wrappers.dfy`: `Option` and `Result`.
- `seqs.dfy`: `Filter`, `Map`, `Take`, `Flatten` and `FindIndex`.
- `text.dfy`: JavaScript string operations such as `trim`, `split` and
  `replaceAll`.
- `ranking.dfy`: a stable insertion sort by a lexicographic key, with
  permutation, sortedness and stability proved.
- `content.dfy`: the shared display records of `src/types/index.ts`.
- One file for each source module above.

## Model

| member | source | states |
|---|---|---|
| GitHub.LanguageColor | src/lib/github.ts:262-286 | every colour is a 7-character `#` hex code; an absent language gets the default grey |
| GitHub.RequestUrlPerPage | src/lib/github.ts:66 | the `per_page` value of the request reads back as twice `maxRepos` |
| GitHub.ToRepository | src/lib/github.ts:116-129 | the mapping always gives a non-empty language name, a 7-character colour and never an empty homepage |
| GitHub.CompareRepos | src/lib/github.ts:133-154 | the comparator as written; `GitHub.CompareReposIsRankOrder` states what order it is |
| GitHub.CompareReposIsRankOrder | src/lib/github.ts:133-154 | the comparator as written orders exactly as the key (featured position, stars descending, update time descending), and ties exactly when the keys are equal |
| GitHub.RankRepositories | src/lib/github.ts:106-157 | the pipeline never returns more than `maxRepos` repositories; `GitHub.RankedFromReply` and `GitHub.RankedBest` state that the cut keeps the best-ranked ones |
| GitHub.RankedLength | src/lib/github.ts:157 | the result holds `maxRepos` repositories, or all kept ones when there are fewer |
| GitHub.FilterKeeps | src/lib/github.ts:107-114 | a repository is kept exactly when forks are shown or it is not a fork, it is not excluded, and its description is non-null and non-empty |
| GitHub.RankedFromKept | src/lib/github.ts:106-130 | every ranked repository is the mapping of a kept repository of the reply |
| GitHub.RankedOrder | src/lib/github.ts:133-154 | featured repositories come first in featured-list order, and the rest by stars and then update time, descending |
| GitHub.RankedFromReply | src/lib/github.ts:106-157 | the result holds no repository more often than the kept, mapped reply does |
| GitHub.RankedBest | src/lib/github.ts:133-157 | a kept repository the cut leaves out ranks at or after every one in the result: not featured unless the kept one is, no earlier in the featured list, and with no more stars (nor, on equal stars, a later update) than a kept non-featured one |
| GitHub.Thrown | src/lib/github.ts:84-100 | an HTTP failure becomes an error with its status; a 403 carries the reset header in milliseconds; a network failure is a foreign error |
| GitHub.Handle | src/lib/github.ts:159-186 | a reset wait only for a 403 whose reset is 0-60 s away; a backoff of `2^retries` seconds only for an error that is not a client error and before the third failure; a rethrow otherwise |
| GitHub.FetchPromise | src/lib/github.ts:56-188 | the course of a call: the `RequestUrl` address, at most three requests, each sent when the limiter lets it, each failure but the last answered by `Handle` at its arrival time, and the outcome of the last; the call returns no earlier than its last request |
| GitHub.PacedSend | src/lib/github.ts:59 | sending the next request when the limiter lets it keeps the course consistent |
| GitHub.PacedStep | src/lib/github.ts:159-183 | recording the handler's wait or backoff for the last request keeps the course consistent |
| GitHub.ConcludeSuccess | src/lib/github.ts:103-157 | a successful reply ends the call with the ranked list, on its arrival |
| GitHub.ConcludeRethrow | src/lib/github.ts:173-179 | an error the handler rethrows ends the call with that error, on its arrival |
| GitHub.ConcludeExhausted | src/lib/github.ts:187 | a third request followed by a reset wait ends the call with "Max retries exceeded" after the wait |
| GitHub.FetchRepositories | src/lib/github.ts:56-188 | the call keeps `GitHub.FetchPromise` for the limiter's record on entry, and leaves the limiter recording the last request |
| GitHub.EndsAt | src/lib/github.ts:103-179 | a success or a rethrown error is the last request and fixes the outcome |
| GitHub.GoesOnAt | src/lib/github.ts:163-183 | an error the handler sleeps on is followed by another request, or after the third by "Max retries exceeded" |
| GitHub.AgreeFrom | src/lib/github.ts:56-188 | two courses that agree before request `k` agree everywhere |
| GitHub.PromiseUnique | src/lib/github.ts:56-188 | the replies, the start time and the limiter's record admit exactly one course of the call |
| GitHub.RequestsSpaced | src/lib/github.ts:40-50 | every request goes out at least a second after the previous one, or after the limiter's record, and not before the loop reaches it |
| GitHub.StepsBounded | src/lib/github.ts:159-183 | backoffs are 2000 ms after the first failure and 4000 ms after the second, for errors that are not client errors; reset waits are under a minute and follow a 403 |
| GitHub.MaxRetriesAfterReset | src/lib/github.ts:163-169 | "Max retries exceeded" comes only after a reset wait on the third request, which was a 403 |
| GitHub.NearResetWaits | src/lib/github.ts:163-169 | a 403 whose reset is under a minute away is waited out until the reset, not rethrown |
| GitHub.FarResetRethrows | src/lib/github.ts:163-176 | a 403 whose reset is missing, 0, past or a minute or more away ends the call at once with that error |
| GitHub.ServerFailureThenSuccess | src/lib/github.ts:179-183 | a server failure and then a reply give one 2000 ms backoff and the ranked second reply |
| GitHub.ServerFailuresExhaust | src/lib/github.ts:179-183 | three server failures give backoffs of 2000 and 4000 ms, then the third error |
| GitHub.ToProject | src/lib/github.ts:191-206 | technologies are the language and then the topics, without empty names; featured means listed as featured; both dates are the update time |
| GitHub.LanguageFirst | src/lib/github.ts:196 | the language of a mapped repository heads its technologies |
| GitHub.FallbackProjects | src/lib/github.ts:222-259 | three projects, only the first featured, none with stars, forks or image |
| GitHub.ProjectsFor | src/lib/github.ts:210-218 | a failure gives the fallback projects; a success gives one project per repository, in order |
| GitHub.GetProjects | src/lib/github.ts:209-219 | keeps `GitHub.FetchPromise` for the configured user and returns the projects of its outcome, the fallback on failure |
| RateLimit.DelayFor | src/lib/github.ts:40-47 | the caller resumes one second after the last request, or at once when a second has passed; `MediumRateLimiter` at src/lib/medium.ts:36-50 is the same |
| RateLimit.RateLimiter.constructor | src/lib/github.ts:38 | no request has been recorded yet; it also models `MediumRateLimiter` (src/lib/medium.ts:36-50) |
| RateLimit.RateLimiter.WaitIfNeeded | src/lib/github.ts:40-50 | records the resume time, which is at least one second after the previous request; `MediumRateLimiter.waitIfNeeded` (src/lib/medium.ts:40-49) is the same |
| Retry.Pow2 | src/lib/github.ts:183 | powers of two are positive |
| Retry.BackoffMs | src/lib/github.ts:183 | the first retry sleeps 2000 ms and the second 4000 ms |
| Medium.StripTags | src/lib/medium.ts:114 | tag removal never lengthens the text and leaves text without a `<…>` pair alone |
| Medium.StripTagsTagFree | src/lib/medium.ts:114 | no `<` followed later by `>` is left |
| Medium.DecodeWithoutAmpersand | src/lib/medium.ts:115-120 | text without `&` is not changed by entity decoding |
| Medium.CollapseSpace | src/lib/medium.ts:121 | the result has single plain spaces only |
| Medium.ExtractText | src/lib/medium.ts:111-123 | the chain as written: strip tags, decode the six entities in order, collapse white space, trim; `Medium.ExtractTextClean` states its shape |
| Medium.ExtractTextClean | src/lib/medium.ts:111-123 | the extracted text is single-spaced and has no white space at either end |
| Medium.EscapedTagSurvives | src/lib/medium.ts:113-118 | entities are decoded after tags are stripped, so `&lt;b&gt;` comes out as `<b>` |
| Medium.DecodeEscapedTag | src/lib/medium.ts:117-118 | the `&lt;` and `&gt;` passes turn an escaped tag into a tag |
| Medium.DoubleEscapeDecodedTwice | src/lib/medium.ts:115-117 | `&amp;` is decoded first, so `&amp;lt;` comes out as `<` |
| Medium.SplitSpaces | src/lib/medium.ts:128 | the split gives at least one piece, and no piece holds white space |
| Medium.SplitJoinCollapse | src/lib/medium.ts:121-128 | joining the pieces with single spaces is collapsing the white-space runs |
| Medium.WordCountOfWords | src/lib/medium.ts:128 | single-spaced words count as their number |
| Medium.ReadTime | src/lib/medium.ts:126-130 | the read time is the word count divided by 200, rounded up, and at least one minute |
| Medium.ReadTimeExamples | src/lib/medium.ts:126-130 | 400 words read in two minutes, 401 in three, and the empty text in one |
| Medium.AttrRun | src/lib/medium.ts:135 | the longest prefix without `"` or `>` |
| Medium.SrcAt | src/lib/medium.ts:135 | a match gives a non-empty quoted address without `"` or `>` |
| Medium.LastSrc | src/lib/medium.ts:135 | the greedy match takes the last `src="…"` before the tag ends |
| Medium.ImgAt | src/lib/medium.ts:135 | a match starts with `<img` and has a `src="…"` after it |
| Medium.ExtractImage | src/lib/medium.ts:133-140 | a found address is non-empty and has no `"` or `>` |
| Medium.ExtractImageSound | src/lib/medium.ts:135-136 | a found address appears as `src="<address>"` after an `<img` |
| Medium.ExtractImageNeedsImg | src/lib/medium.ts:135-136 | without `<img` there is no image |
| Medium.ExtractImageOfTag | src/lib/medium.ts:135-136 | the address of a bare image tag is found |
| Medium.ExtractTextOfTag | src/lib/medium.ts:114 | a bare image tag leaves no text |
| Medium.ToMediumArticle | src/lib/medium.ts:143-153 | the image, if any, is an address; categories default to empty |
| Medium.ImageFromRawDescription | src/lib/medium.ts:148-151 | the image is read from the raw description, before the tag is stripped from the text |
| Medium.Excerpt | src/lib/medium.ts:161-164 | short descriptions are kept; longer ones are cut to 200 characters plus `...` |
| Medium.IsFeaturedArticle | src/lib/medium.ts:170-174 | some featured entry occurs in the lower-cased title, lower-cased, or in the link; `Medium.FeaturedIgnoresTitleCase` states a consequence |
| Medium.FeaturedIgnoresTitleCase | src/lib/medium.ts:170-174 | the title's case never changes whether an article is featured |
| Medium.ToArticle | src/lib/medium.ts:156-176 | the id is the guid or the link; the excerpt is at most 203 characters; the read time is at least one minute; featured follows the featured test |
| Medium.CompareArticles | src/lib/medium.ts:201-217 | the comparator as written; `Medium.CompareArticlesIsRankOrder` states what order it is |
| Medium.CompareArticlesIsRankOrder | src/lib/medium.ts:201-217 | the comparator as written orders exactly as featured-first and then newest-first |
| Medium.SelectArticles | src/lib/medium.ts:192-220 | at most `maxArticles` articles are selected; `Medium.SelectedFromCandidates` and `Medium.SelectedBest` state that the cut keeps the best-ranked ones |
| Medium.SelectedLength | src/lib/medium.ts:192-220 | `maxArticles` complete articles, or all complete ones of the first `2*maxArticles` items |
| Medium.SelectedFromItems | src/lib/medium.ts:192-198 | every selected article is complete and converts one of the first `2*maxArticles` items |
| Medium.SelectedOrder | src/lib/medium.ts:201-217 | featured articles come first, and within each group newest first |
| Medium.SelectedFromCandidates | src/lib/medium.ts:192-220 | the selection holds no article more often than the complete conversions of the first `2*maxArticles` items do |
| Medium.SelectedBest | src/lib/medium.ts:201-220 | a complete candidate the cut leaves out is featured only if each selected one is, and is no newer than a selected one of the same kind |
| Medium.ParseFeed | src/lib/medium.ts:94-108 | an HTTP failure keeps its status; an envelope that is not "ok" is a 400 error |
| Medium.FeedPromise | src/lib/medium.ts:179-241 | the course of a call: the user's feed, at most three requests, each sent when the limiter lets it, every one but the last a retried failure followed by 2000 ms and then 4000 ms, the outcome of the last reply on its arrival; the call returns no earlier than its last request |
| Medium.FeedPacedSend | src/lib/medium.ts:182 | sending the next request when the limiter lets it keeps the course consistent |
| Medium.FeedPacedBackoff | src/lib/medium.ts:229-236 | a backoff after a retried failure keeps the course consistent |
| Medium.FetchMediumArticles | src/lib/medium.ts:179-241 | the call keeps `Medium.FeedPromise` for the limiter's record on entry, and leaves the limiter recording the last request |
| Medium.FeedAgreeFrom | src/lib/medium.ts:179-241 | two courses that agree before request `k` agree everywhere |
| Medium.FeedPromiseUnique | src/lib/medium.ts:179-241 | the replies, the start time and the limiter's record admit exactly one course of the call |
| Medium.FeedLastAt | src/lib/medium.ts:221-237 | a request is followed by another exactly when its reply is an error that is not a client error and it is not the third |
| Medium.FeedRequestsSpaced | src/lib/medium.ts:40-49 | every request goes out at least a second after the previous one, or after the limiter's record, and not before the loop reaches it |
| Medium.NeverMaxRetries | src/lib/medium.ts:240 | no run ends in "Max retries exceeded" |
| Medium.EnvelopeNotRetried | src/lib/medium.ts:224-228 | a bad envelope ends the loop at once with status 400 |
| Medium.ServerFailuresExhaust | src/lib/medium.ts:231-236 | three server failures give two backoffs of 2000 and 4000 ms, then the third error |
| Medium.ArticlesOf | src/lib/medium.ts:246 | one article per selected entry, in order |
| Medium.ArticlesFeaturedFirst | src/lib/medium.ts:201-217 | the articles keep the order of the selection: featured first, then newest |
| Medium.ArticleIdPresent | src/lib/medium.ts:159 | every selected article has an id |
| Medium.ArticlesResult | src/lib/medium.ts:244-247 | failures propagate unchanged and successes are converted |
| Medium.GetArticles | src/lib/medium.ts:244-247 | keeps `Medium.FeedPromise` for the configured user and converts its outcome |
| Medium.AfterLookup | src/lib/medium.ts:276-279 | a lookup removes the entry for the key exactly when it has expired |
| Medium.MediumCache.constructor | src/lib/medium.ts:270 | the cache starts empty, with five minutes in development and an hour otherwise |
| Medium.MediumCache.Get | src/lib/medium.ts:272-283 | returns the live entry and evicts an expired one |
| Medium.MediumCache.Set | src/lib/medium.ts:285-290 | stores the data under the key, stamped now |
| Medium.MediumCache.Clear | src/lib/medium.ts:292-294 | removes every entry |
| Medium.LookupAfterStore | src/lib/medium.ts:272-290 | a stored list is returned until its timeout has passed, and not after |
| Medium.LookupOtherKey | src/lib/medium.ts:270-290 | storing or evicting under one key leaves every other key's lookup alone |
| Medium.LookupRepeat | src/lib/medium.ts:272-283 | a second lookup at the same time answers as the first and removes nothing more |
| Medium.CacheKey | src/lib/medium.ts:301 | the key is a fixed prefix followed by the user name |
| Medium.CacheKeyInjective | src/lib/medium.ts:301 | distinct users get distinct keys |
| Medium.GetCachedArticles | src/lib/medium.ts:298-316 | a hit answers without fetching; a miss fetches and stores a success only |
| Manifest.GenerateWebAppManifest | src/lib/manifest.ts:45-120 | start URL `/`, default colours and five icons |
| Manifest.WithTheme | src/lib/manifest.ts:123-133 | only the two colours differ from the base manifest |
| Manifest.WithDefaultTheme | src/lib/manifest.ts:124-125 | the default colours give the base manifest |
| Manifest.ValidateManifest | src/lib/manifest.ts:136-169 | the messages are those of the findings, and the manifest is valid exactly when there are none |
| Manifest.CheckRequiredSizes | src/lib/manifest.ts:156-163 | one message per required size no icon declares, in order |
| Manifest.IssuesIff | src/lib/manifest.ts:139-163 | each finding appears exactly when its condition holds |
| Manifest.IssuesOrdered | src/lib/manifest.ts:139-163 | findings come in check order, each at most once |
| Manifest.EmptyIconsThreeErrors | src/lib/manifest.ts:151-163 | no icons gives the icon finding and both size findings, last |
| Manifest.ManifestIconSizes | src/lib/manifest.ts:56-68 | the generated icons declare 192x192 and 512x512 |
| Manifest.GeneratedManifestValid | src/lib/manifest.ts:45-120 | the generated manifest and every themed variant have no findings |
| SeoValidator.ResultOf | src/lib/seo-validator.ts:53-58 | valid exactly when there are no errors |
| SeoValidator.ManifestErrors | src/lib/seo-validator.ts:36-42 | the manifest's errors, each prefixed with `Manifest: ` |
| SeoValidator.ValidateSeoConfig | src/lib/seo-validator.ts:12-59 | returns the configuration result for the environment and the generated manifest |
| SeoValidator.ConfigValidIff | src/lib/seo-validator.ts:53-58 | validity depends on the manifest errors alone |
| SeoValidator.EnvOnlyWarns | src/lib/seo-validator.ts:18-33 | the environment never changes the errors or the verdict |
| SeoValidator.ConfigWarningsIff | src/lib/seo-validator.ts:18-24 | each unset username variable gives its warning, and only then |
| SeoValidator.ConfigSuggestionsEnd | src/lib/seo-validator.ts:27-51 | four standing suggestions close the list, after at most two verification ones |
| SeoValidator.GeneratedConfigValid | src/lib/seo-validator.ts:35-42 | with the generated manifest the configuration is valid and has no errors |
| SeoValidator.CheckTags | src/lib/seo-validator.ts:78-88 | one message per missing or empty tag, in tag order |
| SeoValidator.ValidateMetaTags | src/lib/seo-validator.ts:62-122 | returns the meta-tag result of the document |
| SeoValidator.TagIssueIff | src/lib/seo-validator.ts:78-88 | a tag is reported missing exactly when absent, and empty exactly when blank after trimming |
| SeoValidator.RequiredTagsOnce | src/lib/seo-validator.ts:68-76 | each tag is reported at most once |
| SeoValidator.MetaTagsValidIff | src/lib/seo-validator.ts:116-121 | valid exactly when every required tag is present with non-blank content |
| SeoValidator.StructuredDataWarns | src/lib/seo-validator.ts:91-94 | no JSON-LD script warns exactly when there is none, and never adds an error |
| SeoValidator.LengthRules | src/lib/seo-validator.ts:97-114 | a description under 120 suggests and over 160 warns; a title over 60 warns |
| SeoValidator.AppendSection | src/lib/seo-validator.ts:136-158 | appends the section of a list to the report |
| SeoValidator.Report | src/lib/seo-validator.ts:128-171 | the report of a result as written; `SeoValidator.SectionIff` and `SeoValidator.ItemsRoundTrip` state its sections |
| SeoValidator.GenerateSeoReport | src/lib/seo-validator.ts:125-173 | the string built section by section is the report of the configuration result, whose content `SeoValidator.GeneratedReport` states |
| SeoValidator.ItemsRoundTrip | src/lib/seo-validator.ts:138-140 | single-line items are read back from the bullet lines in order |
| SeoValidator.SectionIff | src/lib/seo-validator.ts:136-158 | a section is present exactly when its list is non-empty, and starts with its heading |
| SeoValidator.GeneratedReport | src/lib/seo-validator.ts:130-160 | for the generated manifest the report is valid, has no errors section and always has suggestions |
| Sitemap.GenerateSitemapEntries | src/lib/sitemap.ts:11-49 | five entries under the base URL, all stamped today, the home page at priority 1 |
| Sitemap.FieldsOf | src/lib/sitemap.ts:55-57 | a missing frequency prints as monthly, and a missing or zero priority as 0.5 |
| Sitemap.UrlBlockRoundTrip | src/lib/sitemap.ts:59-64 | one `<url>` block reads back as its entry's fields |
| Sitemap.SitemapXml | src/lib/sitemap.ts:52-72 | the document as written; `Sitemap.SitemapRoundTrip` states that it reads back |
| Sitemap.SitemapRoundTrip | src/lib/sitemap.ts:52-72 | the document reads back as every entry's fields, in order |
| Sitemap.PriorityRoundTrip | src/lib/sitemap.ts:57 | the printed priority reads back as the priority |
| Sitemap.GeneratedSitemap | src/lib/sitemap.ts:15-46 | the generated document reads back as the five pages with their frequencies and priorities |
| Sitemap.RobotsTxt | src/lib/sitemap.ts:75-86 | the file as written; `Sitemap.RobotsTxtLines` states its lines |
| Sitemap.RobotsTxtLines | src/lib/sitemap.ts:75-86 | the file's lines are exactly the allow-all group for every agent, the sitemap address under the base URL and a crawl delay of 1, in that order |
| StructuredData.ProjectData | src/lib/structured-data.ts:5-26 | the `SoftwareApplication` object as written; `StructuredData.ProjectDataFields` states its fields |
| StructuredData.ProjectDataFields | src/lib/structured-data.ts:5-26 | the URL is the live site or the repository; a screenshot appears exactly when there is an image |
| StructuredData.DurationRoundTrip | src/lib/structured-data.ts:51 | `PT<n>M` reads back as `n` minutes |
| StructuredData.ArticleData | src/lib/structured-data.ts:29-53 | the `Article` object as written; `StructuredData.ArticleDataFields` states its fields |
| StructuredData.ArticleDataFields | src/lib/structured-data.ts:29-53 | the word count is 200 per minute, the duration reads back as the read time, and an image appears exactly when there is one |
| StructuredData.WorkItemFields | src/lib/structured-data.ts:59-71 | an end date appears exactly when there is one; skills default to the empty list |
| StructuredData.OccupationsAppend | src/lib/structured-data.ts:57-58 | occupations keep timeline order |
| StructuredData.WorkExperienceData | src/lib/structured-data.ts:56-80 | the `Person` object with its occupations; `StructuredData.OccupationsOf` states them |
| StructuredData.OccupationsOf | src/lib/structured-data.ts:56-80 | one occupation per work item and no other |
| StructuredData.EducationData | src/lib/structured-data.ts:83-107 | the `Person` object with its credentials; `StructuredData.CredentialsOf` states them |
| StructuredData.CredentialsOf | src/lib/structured-data.ts:83-107 | one credential per education item, each at the bachelor level |
| StructuredData.AllSkillsMembers | src/lib/structured-data.ts:111 | every listed name is a skill of some category, and every skill is listed |
| StructuredData.AllSkillsAppend | src/lib/structured-data.ts:111 | category order is kept |
| StructuredData.SkillsData | src/lib/structured-data.ts:110-129 | the `Person` object with the skills; `StructuredData.SkillsListed` states them |
| StructuredData.SkillsListed | src/lib/structured-data.ts:110-129 | `knowsAbout` and the occupation's skills both list every skill |
| StructuredData.FaqData | src/lib/structured-data.ts:132-167 | the `FAQPage` object; `StructuredData.FaqShape` states its questions |
| StructuredData.FaqShape | src/lib/structured-data.ts:132-167 | four questions, and the second answer names the skills |
| StructuredData.FirstFiveSkills | src/lib/structured-data.ts:140-143 | the answer lists the first five skills, or all when there are fewer |
| StructuredData.HomepageData | src/lib/structured-data.ts:170-177 | four documents: work, education, skills and questions, in that order |
| ContactForm.WithValue | src/components/molecules/ContactForm.tsx:71 | only the named field changes |
| ContactForm.EmailTestIff | src/components/molecules/ContactForm.tsx:44-47 | the scan for the first `@` accepts exactly what the e-mail pattern accepts |
| ContactForm.PaddedEmailFails | src/components/molecules/ContactForm.tsx:47 | the pattern is matched against the untrimmed value, so surrounding white space fails |
| ContactForm.FieldError | src/components/molecules/ContactForm.tsx:37-63 | one field's rule as written: required, then the pattern or the minimum trimmed length; `ContactForm.RequiredFirst`, `ContactForm.LengthRule` and `ContactForm.EmailRule` state it |
| ContactForm.ValidateForm | src/components/molecules/ContactForm.tsx:33-67 | the messages of all four fields; `ContactForm.ValidateFormFields` states them |
| ContactForm.ValidateFormFields | src/components/molecules/ContactForm.tsx:33-67 | a field has a message exactly when its rule fails, and it is that rule's message |
| ContactForm.FormValidIff | src/components/molecules/ContactForm.tsx:65-66 | the form is valid exactly when every field passes |
| ContactForm.RequiredFirst | src/components/molecules/ContactForm.tsx:37-63 | a blank value gets the "required" message |
| ContactForm.LengthRule | src/components/molecules/ContactForm.tsx:39-62 | a non-blank name, subject or message fails exactly when its trimmed length is below 2, 5 or 10 |
| ContactForm.EmailRule | src/components/molecules/ContactForm.tsx:44-49 | a non-blank e-mail fails exactly when it does not match the pattern |
| ContactForm.ContactFormState.constructor | src/components/molecules/ContactForm.tsx:22-31 | empty fields, no messages, not submitting and not submitted |
| ContactForm.ContactFormState.HandleInputChange | src/components/molecules/ContactForm.tsx:69-77 | sets the field and clears only its message |
| ContactForm.ContactFormState.Validate | src/components/molecules/ContactForm.tsx:33-67 | stores the messages and says whether there are none |
| ContactForm.ContactFormState.HandleSubmit | src/components/molecules/ContactForm.tsx:79-116 | only a valid form is sent; success clears the form and shows the thanks; failure alerts and keeps the data |
| ContactForm.ContactFormState.SendAnother | src/components/molecules/ContactForm.tsx:132 | returns to the form |
| ProjectCarousel.VisibleFor | src/components/molecules/ProjectCarousel.tsx:21-28 | one card below 768 px, two below 1024 px, otherwise `itemsPerView` |
| ProjectCarousel.MaxIndexFor | src/components/molecules/ProjectCarousel.tsx:36 | the last start position is the hidden card count, and never negative |
| ProjectCarousel.MovesStayInRange | src/components/molecules/ProjectCarousel.tsx:38-50 | both moves keep the index in range |
| ProjectCarousel.MovesInverse | src/components/molecules/ProjectCarousel.tsx:38-50 | a move back undoes a move forward, and the other way round |
| ProjectCarousel.AdvanceAdd | src/components/molecules/ProjectCarousel.tsx:42 | steps of auto-advance compose |
| ProjectCarousel.AdvanceClimbs | src/components/molecules/ProjectCarousel.tsx:42 | auto-advance walks forward one position per step, up to the last |
| ProjectCarousel.FullCycle | src/components/molecules/ProjectCarousel.tsx:42 | `maxIndex + 1` steps visit every position and return to the start |
| ProjectCarousel.NextRecovers | src/components/molecules/ProjectCarousel.tsx:42 | an index past the end returns to the first position on the next move |
| ProjectCarousel.Carousel.DotCount | src/components/molecules/ProjectCarousel.tsx:167 | one dot per position |
| ProjectCarousel.Carousel.ShowsControls | src/components/molecules/ProjectCarousel.tsx:137 | the arrows and the dots show only when there are more cards than fit (the same test at :165); `ProjectCarousel.Carousel.ControlsIffMovable` ties it to the positions |
| ProjectCarousel.Carousel.AutoAdvances | src/components/molecules/ProjectCarousel.tsx:65-69 | the six-second interval runs only when there are more cards than fit and the carousel is not paused; `ProjectCarousel.Carousel.AutoAdvanceIff` ties it to the controls |
| ProjectCarousel.Carousel.ControlsIffMovable | src/components/molecules/ProjectCarousel.tsx:137-167 | the controls show exactly when there is a second position, that is when there is more than one dot |
| ProjectCarousel.Carousel.AutoAdvanceIff | src/components/molecules/ProjectCarousel.tsx:65-69 | the auto-advance runs exactly when the controls show and the carousel is not paused, and then there is a position to move to |
| ProjectCarousel.Carousel.CounterEnd | src/components/molecules/ProjectCarousel.tsx:198 | the counter is the smaller of the window's end and the card count |
| ProjectCarousel.Carousel.constructor | src/components/molecules/ProjectCarousel.tsx:14-31 | starts at index 0, unlocked, with the first resize applied |
| ProjectCarousel.Carousel.HandleResize | src/components/molecules/ProjectCarousel.tsx:21-28 | changes the visible count and leaves the index alone |
| ProjectCarousel.Carousel.NextSlide | src/components/molecules/ProjectCarousel.tsx:38-43 | does nothing while locked; otherwise moves forward with wrap-around and locks |
| ProjectCarousel.Carousel.PrevSlide | src/components/molecules/ProjectCarousel.tsx:45-50 | does nothing while locked; otherwise moves back with wrap-around and locks |
| ProjectCarousel.Carousel.GoToSlide | src/components/molecules/ProjectCarousel.tsx:52-60 | does nothing while locked or already there; otherwise jumps and locks |
| ProjectCarousel.Carousel.AnimationDone | src/components/molecules/ProjectCarousel.tsx:42 | the 500 ms timer releases the lock |
| ProjectCarousel.Carousel.SetPaused | src/components/molecules/ProjectCarousel.tsx:89-90 | the mouse entering or leaving sets the pause and nothing else; afterwards the auto-advance runs exactly when not paused and the controls show |
| ProjectCarousel.NextThenPrev | src/components/molecules/ProjectCarousel.tsx:38-50 | with the lock released in between, forward then back returns to the start |
| Timeline.SortedItems | src/components/organisms/Timeline.tsx:21 | the sorted copy has the input's length |
| Timeline.SortedItemsSpec | src/components/organisms/Timeline.tsx:21 | the sorted copy is a permutation, oldest first, stable for equal dates |
| Timeline.LastIsLatest | src/components/organisms/Timeline.tsx:117 | the item marked last is the latest |
| Timeline.IndexOfId | src/components/organisms/Timeline.tsx:25 | the first index with the id, or -1 when there is none |
| Timeline.IndexOfOwnId | src/components/organisms/Timeline.tsx:23-28 | with distinct ids, an item's id gives back its own index |
| Timeline.KeyTarget | src/components/organisms/Timeline.tsx:36-75 | the item each navigation key targets (the previous one, the next one, the first or the last), always in range |
| Timeline.KeysFromNoFocus | src/components/organisms/Timeline.tsx:37-56 | from no focus, ArrowDown targets the first item and ArrowUp targets none |
| Timeline.DownThenUp | src/components/organisms/Timeline.tsx:37-56 | ArrowDown then ArrowUp targets the starting item again |
| Timeline.TimelineFocus.constructor | src/components/organisms/Timeline.tsx:13-21 | the sorted copy and no focus |
| Timeline.TimelineFocus.HandleItemFocus | src/components/organisms/Timeline.tsx:23-28 | records the first index with the focused id |
| Timeline.RenderedAt | src/components/molecules/TimelineItem.tsx:133-167 | element 2k is item k's `role="article"` wrapper, labelled by its title id, and element 2k+1 is the `role="button"` card inside it, which has no label |
| Timeline.QuerySelector | src/components/organisms/Timeline.tsx:41-43 | the first element in document order that matches, or none exactly when no element matches |
| Timeline.KeyFocus | src/components/organisms/Timeline.tsx:36-75 | nothing when the key targets no item; otherwise one of the rendered elements |
| Timeline.AsWrittenSelectorNeverMatches | src/components/organisms/Timeline.tsx:41-72 | the selector as written, `[role="button"][aria-labelledby=…]`, matches no rendered element for any id |
| Timeline.AsWrittenFocusesNothing | src/components/organisms/Timeline.tsx:36-75 | as written, no key focuses any element |
| Timeline.ArrowDownFindsNothing | src/components/organisms/Timeline.tsx:47-56 | with two items and focus on the first, ArrowDown targets the second, yet the selector as written finds nothing to focus |
| Timeline.IntendedFocusesTarget | src/components/organisms/Timeline.tsx:36-75 | the intended selector focuses a card exactly when the key targets an item, and that card's item has the target's id |
| Timeline.TimelineFocus.HandleKeyDownWith | src/components/organisms/Timeline.tsx:33-77 | keys outside the container are ignored; the four keys prevent the default; when the lookup finds an element, the index of the first item with that element's item's id is recorded, and otherwise the focus index is unchanged |
| Timeline.TimelineFocus.HandleKeyDownAsWritten | src/components/organisms/Timeline.tsx:33-77 | as written, the four keys prevent the default and the focus index never changes |
| Timeline.TimelineFocus.HandleKeyDown | src/components/organisms/Timeline.tsx:33-77 | with the intended selector, the targeted item's card takes focus and the timeline records the first index with its id; keys outside are ignored and the four keys prevent the default |
| Timeline.NavigateTo | src/components/organisms/Timeline.tsx:33-77 | with the intended selector and distinct ids, focus lands on exactly the targeted item |
| TimelineItem.SidesAlternate | src/components/molecules/TimelineItem.tsx:24 | cards alternate sides |
| TimelineItem.Announcement | src/components/molecules/TimelineItem.tsx:30-35 | the announcement is longer than the title |
| TimelineItem.AnnouncementNamesNewState | src/components/molecules/TimelineItem.tsx:30-35 | the announcement names the new state and ends with the title |
| TimelineItem.UnfocusedIgnoresKeys | src/components/molecules/TimelineItem.tsx:43 | an unfocused card ignores every key |
| TimelineItem.ToggleTwice | src/components/molecules/TimelineItem.tsx:51-55 | Enter or Space toggles, so two presses restore the state |
| TimelineItem.EscapeCollapses | src/components/molecules/TimelineItem.tsx:56-61 | Escape collapses, and on a collapsed card lets the default through |
| TimelineItem.DateLabel | src/components/molecules/TimelineItem.tsx:84-95 | the label starts with the start date and a dash |
| TimelineItem.DateLabelParts | src/components/molecules/TimelineItem.tsx:84-95 | the label is the start, a dash, then the end or "Present" |
| TimelineItem.TypeLabel | src/components/molecules/TimelineItem.tsx:110-121 | the label of each kind as written; `TimelineItem.TypeLabelInjective` states that kinds get distinct labels |
| TimelineItem.TypeLabelInjective | src/components/molecules/TimelineItem.tsx:110-121 | each kind gets its own label |
| TimelineItem.ItemState.constructor | src/components/molecules/TimelineItem.tsx:16-17 | collapsed and unfocused |
| TimelineItem.ItemState.ToggleExpanded | src/components/molecules/TimelineItem.tsx:27-38 | flips the card and announces the new state |
| TimelineItem.ItemState.HandleKeyDown | src/components/molecules/TimelineItem.tsx:45-64 | the expansion, the prevented default and the announcement of each key |
| TimelineItem.ItemState.HandleFocus | src/components/molecules/TimelineItem.tsx:75-78 | marks focused and reports the item's id |
| TimelineItem.ItemState.HandleBlur | src/components/molecules/TimelineItem.tsx:80-82 | unfocuses and keeps the expansion |
| Header.LastReached | src/components/organisms/Header.tsx:25-38 | the last section whose top is at most 100 px down, or none |
| Header.RemoveFirst | src/components/organisms/Header.tsx:46 | without the character the string is unchanged; otherwise exactly its first occurrence is cut out and the rest keeps its order |
| Header.RemoveLeadingHash | src/components/organisms/Header.tsx:46 | a `#id` link gives `id` |
| Header.HeaderState.constructor | src/components/organisms/Header.tsx:10-14 | starts closed, on "hero", not scrolled, with the scan enabled |
| Header.HeaderState.HandleScroll | src/components/organisms/Header.tsx:17-39 | the scrolled look follows `scrollY`; while not blocked the active section is the last one reached, or is kept |
| Header.HeaderState.ScrollToSection | src/components/organisms/Header.tsx:45-56 | closes the menu, blocks the scan and marks the target active |
| Header.HeaderState.ScrollTimerFired | src/components/organisms/Header.tsx:58-62 | schedules the reset only when the target exists |
| Header.HeaderState.ResetTimerFired | src/components/organisms/Header.tsx:64-66 | re-enables the scan when the reset was scheduled |
| Header.HeaderState.ToggleMenu | src/components/organisms/Header.tsx:130 | flips the mobile menu |
| Header.MissingTargetBlocksScan | src/components/organisms/Header.tsx:45-68 | navigating to a missing section leaves the scan blocked |
| Header.ExistingTargetReleasesScan | src/components/organisms/Header.tsx:45-68 | navigating to an existing section re-enables the scan after the reset |
| IntersectionObserver.Observe | src/lib/hooks/useIntersectionObserver.ts:24-31 | takes the first entry's flag and sets the latch when it is intersecting |
| IntersectionObserver.LatchIff | src/lib/hooks/useIntersectionObserver.ts:29-31 | the latch is set exactly when some batch saw the element, and stays set |
| IntersectionObserver.TriggerOnceReports | src/lib/hooks/useIntersectionObserver.ts:48 | with `triggerOnce` the element is reported from its first sighting on |
| IntersectionObserver.LatestReported | src/lib/hooks/useIntersectionObserver.ts:48 | without `triggerOnce` the latest entry is reported |
| IntersectionObserver.EmptyBatchIgnored | src/lib/hooks/useIntersectionObserver.ts:25 | an empty batch changes nothing |
| IntersectionObserver.Observer.constructor | src/lib/hooks/useIntersectionObserver.ts:12-15 | nothing intersecting and nothing seen |
| IntersectionObserver.Observer.OnEntries | src/lib/hooks/useIntersectionObserver.ts:23-33 | the callback updates the flags as `Observe` says |
| IntersectionObserver.Observer.ShouldAnimate | src/lib/hooks/useIntersectionObserver.ts:48 | the latch with `triggerOnce`, the latest flag otherwise |

## Left out

- Network, timers, the clock and concurrency are not modelled directly. Replies are a sequence of attempts, times are parameters, and timer expiries are explicit events.
- Requests that run at the same time and share the limiter are not modelled; each call is sequential.
- String lengths count characters, not UTF-16 code units. `toLowerCase` folds ASCII letters only.
- JavaScript `Date` formatting is not modelled. An instant carries its own ISO and month-and-year renderings. Invalid dates (`NaN`) are not modelled.
- Object keys that collide with JavaScript prototype properties are not modelled.
- The messages of foreign errors, such as network exceptions and JSON parse failures, are not modelled. They are one `OtherError`.
- The URL encoding of the rss2json address is not modelled; the feed URL is plain concatenation.
- The loops need at least three attempts to be supplied, which is the retry bound.
- Medium.ParseFeed: a reply whose envelope is not "ok" is thrown with status 400 and is not retried. The code at `src/lib/medium.ts:104` and `:224-228` does this, and the model follows the code.
- SeoValidator.ValidateSeoConfig: the `catch` branch at `src/lib/seo-validator.ts:43-45` is not modelled, because nothing in the `try` block can throw.
- Medium.ReadTime: `readTime` is a whole number of minutes, so StructuredData's `Math.ceil(readTime * 200)` is modelled as `200 * readTime`.
- Sitemap priorities are whole tenths. Dates are the ISO day strings they print as.
- The SEO meta-tag document is a map from each required tag to its first matching element, plus a count of JSON-LD scripts. Selector matching is not modelled.
- JSON-LD objects are maps, so the order of their members is not modelled.
- ContactForm.ContactFormState.HandleInputChange: setting a message to `undefined` is modelled as removing its key.
- ContactForm.ContactFormState.HandleSubmit: the web3forms POST is not modelled. Its outcome is a parameter, and the access key and form encoding are not modelled.
- Carousel card widths, gaps, percentages and the progress bar are display arithmetic and are not modelled.
- ProjectCarousel.Carousel.HandleResize: a resize does not clamp `currentIndex`, as in the code; NextRecovers covers the recovery.
- Timeline.TimelineFocus.HandleKeyDown: an element is reduced to its `role`, its `aria-labelledby` and that of the wrapper around it, for the two elements with a role that each card renders. Focusing a card is modelled as its item reporting its id, as its `onFocus` handler does (`src/components/molecules/TimelineItem.tsx:75-77`, `:161`).
- Icons, animations, and ARIA attributes other than the announcement and those the timeline's selector reads are not modelled. The live region's one-second removal is not modelled either.
- Header: the `scrollIntoView` animation is not modelled. Only one 100 ms timer is tracked, because overlapping navigations are not modelled.
- The observer's `threshold` and `rootMargin` are not modelled; the browser decides intersection. Only the first entry of a batch is read, as in the code.
- The `checkGitHubAPIHealth` and `checkMediumRSSHealth` probes are not modelled. They are diagnostics outside the data path.
- The React rendering and the hooks that wrap these sources (`useGitHubProjects`, `useMediumArticles`) are not modelled.

## Findings

| source | as written | input that shows it | evidently intended | confidence | as-written member | corrected member |
|---|---|---|---|---|---|---|
| src/components/organisms/Timeline.tsx:41-72 | The key handler looks the targeted card up with `[role="button"][aria-labelledby="timeline-item-<id>-title"]`, which needs both attributes on one element. `TimelineItem` puts `aria-labelledby` on the `role="article"` wrapper (`src/components/molecules/TimelineItem.tsx:135-136`) and `role="button"` on the card inside it (`:164`). No element matches (`Timeline.AsWrittenSelectorNeverMatches`), `?.focus()` does nothing, and no key moves focus. | Two items, focus on the first, ArrowDown pressed inside the timeline: the default is prevented and the focus stays on the first item (`Timeline.ArrowDownFindsNothing`). | The targeted item's card takes focus, as with the descendant selector `[aria-labelledby="timeline-item-<id>-title"] [role="button"]`. Its `onFocus` then records the item's index (`Timeline.IntendedFocusesTarget`, `Timeline.NavigateTo`). | not executed | Timeline.TimelineFocus.HandleKeyDownAsWritten | Timeline.TimelineFocus.HandleKeyDown |
