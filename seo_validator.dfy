/** The SEO self-checks: the configuration check (environment flags plus
    the manifest validator), the meta-tag check over a rendered document,
    and the Markdown report built from the configuration check. Each check
    accumulates `errors`, `warnings` and `suggestions`; only errors decide
    validity. */
module SeoValidator {
  import opened Wrappers
  import opened Text
  import opened Seqs
  import opened Content
  import Manifest

  datatype SeoValidationResult = SeoValidationResult(
    isValid: bool,
    errors: seq<string>,
    warnings: seq<string>,
    suggestions: seq<string>)

  /** The returned record: valid exactly when there are no errors. */
  function ResultOf(errors: seq<string>, warnings: seq<string>, suggestions: seq<string>): (r: SeoValidationResult)
    ensures r.isValid <==> errors == []
    ensures r.errors == errors && r.warnings == warnings && r.suggestions == suggestions
  {
    SeoValidationResult(|errors| == 0, errors, warnings, suggestions)
  }

  /** The fixed warning and suggestion texts both checks can push. */
  datatype Notice =
    | GithubUsernameUnset
    | MediumUsernameUnset
    | GoogleVerificationMissing
    | BingVerificationMissing
    | ReplaceFavicon
    | ReplaceOgImage
    | UpdateSiteConfig
    | AddSocialUrls
    | NoStructuredData
    | DescriptionShort
    | DescriptionTooLong
    | TitleTooLong

  function NoticeText(n: Notice): string {
    match n
    case GithubUsernameUnset => "NEXT_PUBLIC_GITHUB_USERNAME environment variable is not set"
    case MediumUsernameUnset => "NEXT_PUBLIC_MEDIUM_USERNAME environment variable is not set"
    case GoogleVerificationMissing => "Consider adding Google Search Console verification code"
    case BingVerificationMissing => "Consider adding Bing Webmaster Tools verification code"
    case ReplaceFavicon => "Replace placeholder favicon files with actual branded icons"
    case ReplaceOgImage => "Replace placeholder og-image.jpg with a custom 1200x630 image"
    case UpdateSiteConfig => "Update siteConfig with your actual personal information"
    case AddSocialUrls => "Add your actual social media URLs in siteConfig.links"
    case NoStructuredData => "No structured data (JSON-LD) found"
    case DescriptionShort => "Meta description could be longer (120-160 characters recommended)"
    case DescriptionTooLong => "Meta description is too long (over 160 characters)"
    case TitleTooLong => "Title tag is too long (over 60 characters)"
  }

  function NoticeTexts(ns: seq<Notice>): (r: seq<string>)
    ensures |r| == |ns| && forall i :: 0 <= i < |ns| ==> r[i] == NoticeText(ns[i])
  {
    Map(ns, NoticeText)
  }

  /** `[n]` when `cond` holds: one conditional `push`. */
  function When(cond: bool, n: Notice): seq<Notice> {
    if cond then [n] else []
  }

  lemma InWhen(x: Notice, cond: bool, n: Notice)
    ensures x in When(cond, n) <==> cond && x == n
  {
  }

  // ---------------------------------------------------------------------
  // validateSEOConfig

  /** The four environment variables read, each `undefined` or a string. */
  datatype Env = Env(
    githubUsername: Option<string>,
    mediumUsername: Option<string>,
    googleVerification: Option<string>,
    bingVerification: Option<string>)

  /** A variable passes the `!process.env.X` test when it is defined and
      not the empty string. */
  predicate IsSet(v: Option<string>) {
    v.Some? && v.value != []
  }

  function ConfigWarnings(env: Env): seq<Notice> {
    When(!IsSet(env.githubUsername), GithubUsernameUnset)
    + When(!IsSet(env.mediumUsername), MediumUsernameUnset)
  }

  /** The suggestions appended on every run. */
  const StandingSuggestions: seq<Notice> := [ReplaceFavicon, ReplaceOgImage, UpdateSiteConfig, AddSocialUrls]

  function ConfigSuggestions(env: Env): seq<Notice> {
    When(!IsSet(env.googleVerification), GoogleVerificationMissing)
    + When(!IsSet(env.bingVerification), BingVerificationMissing)
    + StandingSuggestions
  }

  /** Each manifest error, prefixed with `"Manifest: "`. */
  function Prefixed(errors: seq<string>): (r: seq<string>)
    ensures |r| == |errors|
    ensures forall i :: 0 <= i < |errors| ==> r[i] == "Manifest: " + errors[i]
  {
    Map(errors, (e: string) => "Manifest: " + e)
  }

  /** What `validateSEOConfig` returns when the manifest check reported
      `manifestErrors`. */
  function ConfigResult(env: Env, manifestErrors: seq<string>): SeoValidationResult {
    ResultOf(Prefixed(manifestErrors), NoticeTexts(ConfigWarnings(env)), NoticeTexts(ConfigSuggestions(env)))
  }

  /** The errors the validator reports for the generated manifest. */
  ghost function GeneratedManifestErrors(cfg: SiteConfig): seq<string> {
    Manifest.Messages(Manifest.ManifestIssues(Manifest.GenerateWebAppManifest(cfg)))
  }

  /** The `try` block: validate the generated manifest and prefix its
      errors when it is invalid. */
  method ManifestErrors(cfg: SiteConfig) returns (errors: seq<string>)
    ensures errors == Prefixed(GeneratedManifestErrors(cfg))
  {
    errors := [];
    var manifest := Manifest.GenerateWebAppManifest(cfg);
    var manifestValid, manifestErrors := Manifest.ValidateManifest(manifest);
    if !manifestValid {
      errors := errors + Prefixed(manifestErrors);
    } else {
      assert Prefixed(manifestErrors) == [];
    }
  }

  method ValidateSeoConfig(env: Env, cfg: SiteConfig) returns (r: SeoValidationResult)
    ensures r == ConfigResult(env, GeneratedManifestErrors(cfg))
  {
    var warnings: seq<Notice> := [];
    var suggestions: seq<Notice> := [];
    if !IsSet(env.githubUsername) {
      warnings := warnings + [GithubUsernameUnset];
    }
    assert warnings == When(!IsSet(env.githubUsername), GithubUsernameUnset);
    if !IsSet(env.mediumUsername) {
      warnings := warnings + [MediumUsernameUnset];
    }
    assert warnings == ConfigWarnings(env);
    if !IsSet(env.googleVerification) {
      suggestions := suggestions + [GoogleVerificationMissing];
    }
    assert suggestions == When(!IsSet(env.googleVerification), GoogleVerificationMissing);
    if !IsSet(env.bingVerification) {
      suggestions := suggestions + [BingVerificationMissing];
    }
    assert suggestions + StandingSuggestions == ConfigSuggestions(env);
    var errors := ManifestErrors(cfg);
    suggestions := suggestions + StandingSuggestions;
    r := ResultOf(errors, NoticeTexts(warnings), NoticeTexts(suggestions));
  }

  /** Validity is decided by the manifest alone. */
  lemma ConfigValidIff(env: Env, manifestErrors: seq<string>)
    ensures ConfigResult(env, manifestErrors).isValid <==> manifestErrors == []
  {
  }

  /** Missing environment variables never add errors: two environments
      give the same errors and the same verdict. */
  lemma EnvOnlyWarns(env: Env, other: Env, manifestErrors: seq<string>)
    ensures ConfigResult(env, manifestErrors).errors == ConfigResult(other, manifestErrors).errors
    ensures ConfigResult(env, manifestErrors).isValid == ConfigResult(other, manifestErrors).isValid
  {
  }

  /** Each username variable that is not set gives its warning, and only then. */
  lemma ConfigWarningsIff(env: Env)
    ensures GithubUsernameUnset in ConfigWarnings(env) <==> !IsSet(env.githubUsername)
    ensures MediumUsernameUnset in ConfigWarnings(env) <==> !IsSet(env.mediumUsername)
    ensures |ConfigWarnings(env)| <= 2
  {
    InWhen(GithubUsernameUnset, !IsSet(env.githubUsername), GithubUsernameUnset);
    InWhen(GithubUsernameUnset, !IsSet(env.mediumUsername), MediumUsernameUnset);
    InWhen(MediumUsernameUnset, !IsSet(env.githubUsername), GithubUsernameUnset);
    InWhen(MediumUsernameUnset, !IsSet(env.mediumUsername), MediumUsernameUnset);
  }

  /** The four standing suggestions close the list, after at most two
      verification suggestions. */
  lemma ConfigSuggestionsEnd(env: Env)
    ensures var s := ConfigSuggestions(env);
            4 <= |s| <= 6 && s[|s| - 4..] == StandingSuggestions
  {
    var s := ConfigSuggestions(env);
    var head := When(!IsSet(env.googleVerification), GoogleVerificationMissing)
                + When(!IsSet(env.bingVerification), BingVerificationMissing);
    assert s == head + StandingSuggestions;
    assert s[|head|..] == StandingSuggestions;
  }

  /** With the generated manifest the configuration is always valid. */
  lemma GeneratedConfigValid(env: Env, cfg: SiteConfig)
    ensures ConfigResult(env, GeneratedManifestErrors(cfg)).isValid
    ensures ConfigResult(env, GeneratedManifestErrors(cfg)).errors == []
  {
    Manifest.GeneratedManifestValid(cfg, Manifest.DefaultColor, Manifest.DefaultColor);
  }

  // ---------------------------------------------------------------------
  // validateMetaTags

  /** The seven required tags, each standing for its CSS selector. */
  datatype Tag = TitleTag | MetaDescription | OgTitle | OgDescription | OgImage | TwitterCard | CanonicalUrl

  function Selector(t: Tag): string {
    match t
    case TitleTag => "title"
    case MetaDescription => "meta[name=\"description\"]"
    case OgTitle => "meta[property=\"og:title\"]"
    case OgDescription => "meta[property=\"og:description\"]"
    case OgImage => "meta[property=\"og:image\"]"
    case TwitterCard => "meta[name=\"twitter:card\"]"
    case CanonicalUrl => "link[rel=\"canonical\"]"
  }

  function TagName(t: Tag): string {
    match t
    case TitleTag => "Title tag"
    case MetaDescription => "Meta description"
    case OgTitle => "Open Graph title"
    case OgDescription => "Open Graph description"
    case OgImage => "Open Graph image"
    case TwitterCard => "Twitter Card"
    case CanonicalUrl => "Canonical URL"
  }

  const RequiredTags: seq<Tag> := [TitleTag, MetaDescription, OgTitle, OgDescription, OgImage, TwitterCard, CanonicalUrl]

  /** The part of a matched element the check reads: its `content`
      attribute (absent or a string) and its text. */
  datatype Element = Element(content: Option<string>, text: string)

  /** A document as the check sees it: the first element matching each
      required selector, if any, and the number of JSON-LD scripts. */
  datatype Document = Document(elements: map<Tag, Element>, jsonLdScripts: nat)

  /** `getAttribute('content') || textContent`. */
  function ContentOf(e: Element): string {
    if e.content.Some? && e.content.value != [] then e.content.value else e.text
  }

  datatype TagIssue = Missing(tag: Tag) | Empty(tag: Tag)

  function IssueText(i: TagIssue): string {
    match i
    case Missing(t) => "Missing " + TagName(t)
    case Empty(t) => "Empty " + TagName(t)
  }

  function IssueTexts(issues: seq<TagIssue>): (r: seq<string>)
    ensures |r| == |issues|
  {
    if issues == [] then [] else [IssueText(issues[0])] + IssueTexts(issues[1..])
  }

  lemma {:induction false} IssueTextsAppend(issues: seq<TagIssue>, issue: TagIssue)
    ensures IssueTexts(issues + [issue]) == IssueTexts(issues) + [IssueText(issue)]
  {
    if issues == [] {
      assert [issue][1..] == [];
    } else {
      assert (issues + [issue])[0] == issues[0];
      assert (issues + [issue])[1..] == issues[1..] + [issue];
      IssueTextsAppend(issues[1..], issue);
    }
  }

  /** The check of one tag: missing, empty after trimming, or fine. */
  function TagCheck(doc: Document, t: Tag): seq<TagIssue> {
    if t !in doc.elements then [Missing(t)]
    else if IsBlank(ContentOf(doc.elements[t])) then [Empty(t)]
    else []
  }

  function TagIssues(doc: Document, tags: seq<Tag>): (r: seq<TagIssue>)
    ensures |r| <= |tags|
  {
    if tags == [] then [] else TagCheck(doc, tags[0]) + TagIssues(doc, tags[1..])
  }

  lemma {:induction false} TagIssuesAppend(doc: Document, tags: seq<Tag>, t: Tag)
    ensures TagIssues(doc, tags + [t]) == TagIssues(doc, tags) + TagCheck(doc, t)
  {
    if tags == [] {
      assert [t][1..] == [];
    } else {
      assert (tags + [t])[0] == tags[0];
      assert (tags + [t])[1..] == tags[1..] + [t];
      TagIssuesAppend(doc, tags[1..], t);
    }
  }

  /** `content.length` of the description tag, with `|| ''`. */
  function DescriptionLength(e: Element): nat {
    if e.content.Some? then |e.content.value| else 0
  }

  function MetaWarnings(doc: Document): seq<Notice> {
    When(doc.jsonLdScripts == 0, NoStructuredData)
    + When(MetaDescription in doc.elements && !(DescriptionLength(doc.elements[MetaDescription]) < 120)
           && DescriptionLength(doc.elements[MetaDescription]) > 160, DescriptionTooLong)
    + When(TitleTag in doc.elements && |doc.elements[TitleTag].text| > 60, TitleTooLong)
  }

  function MetaSuggestions(doc: Document): seq<Notice> {
    When(MetaDescription in doc.elements && DescriptionLength(doc.elements[MetaDescription]) < 120, DescriptionShort)
  }

  /** What `validateMetaTags` returns for `doc`. */
  function MetaTagsResult(doc: Document): SeoValidationResult {
    ResultOf(IssueTexts(TagIssues(doc, RequiredTags)), NoticeTexts(MetaWarnings(doc)), NoticeTexts(MetaSuggestions(doc)))
  }

  /** The `requiredTags.forEach` step: one message per tag that is
      missing or empty, in tag order. */
  method CheckTags(doc: Document, tags: seq<Tag>) returns (errors: seq<string>)
    ensures errors == IssueTexts(TagIssues(doc, tags))
  {
    errors := [];
    for k := 0 to |tags|
      invariant errors == IssueTexts(TagIssues(doc, tags[..k]))
    {
      var tag := tags[k];
      TagIssuesAppend(doc, tags[..k], tag);
      assert tags[..k + 1] == tags[..k] + [tag];
      if tag !in doc.elements {
        IssueTextsAppend(TagIssues(doc, tags[..k]), Missing(tag));
        errors := errors + ["Missing " + TagName(tag)];
      } else {
        var content := ContentOf(doc.elements[tag]);
        if IsBlank(content) {
          IssueTextsAppend(TagIssues(doc, tags[..k]), Empty(tag));
          errors := errors + ["Empty " + TagName(tag)];
        } else {
          assert TagCheck(doc, tag) == [];
          assert TagIssues(doc, tags[..k]) + [] == TagIssues(doc, tags[..k]);
        }
      }
    }
    assert tags[..|tags|] == tags;
  }

  method ValidateMetaTags(doc: Document) returns (r: SeoValidationResult)
    ensures r == MetaTagsResult(doc)
  {
    var warnings: seq<Notice> := [];
    var suggestions: seq<Notice> := [];
    var errors := CheckTags(doc, RequiredTags);
    if doc.jsonLdScripts == 0 {
      warnings := warnings + [NoStructuredData];
    }
    assert warnings == When(doc.jsonLdScripts == 0, NoStructuredData);
    if MetaDescription in doc.elements {
      var length := DescriptionLength(doc.elements[MetaDescription]);
      if length < 120 {
        suggestions := suggestions + [DescriptionShort];
      } else if length > 160 {
        warnings := warnings + [DescriptionTooLong];
      }
    }
    assert suggestions == MetaSuggestions(doc);
    assert warnings == When(doc.jsonLdScripts == 0, NoStructuredData)
      + When(MetaDescription in doc.elements && !(DescriptionLength(doc.elements[MetaDescription]) < 120)
             && DescriptionLength(doc.elements[MetaDescription]) > 160, DescriptionTooLong);
    if TitleTag in doc.elements {
      if |doc.elements[TitleTag].text| > 60 {
        warnings := warnings + [TitleTooLong];
      }
    }
    assert warnings == MetaWarnings(doc);
    r := ResultOf(errors, NoticeTexts(warnings), NoticeTexts(suggestions));
  }

  lemma {:induction false} TagIssuesMembers(doc: Document, tags: seq<Tag>, x: TagIssue)
    ensures x in TagIssues(doc, tags) <==> x.tag in tags && x in TagCheck(doc, x.tag)
  {
    if tags != [] {
      TagIssuesMembers(doc, tags[1..], x);
      assert tags == [tags[0]] + tags[1..];
    }
  }

  lemma AllTagsRequired(t: Tag)
    ensures t in RequiredTags
  {
    match t
    case TitleTag => assert RequiredTags[0] == t;
    case MetaDescription => assert RequiredTags[1] == t;
    case OgTitle => assert RequiredTags[2] == t;
    case OgDescription => assert RequiredTags[3] == t;
    case OgImage => assert RequiredTags[4] == t;
    case TwitterCard => assert RequiredTags[5] == t;
    case CanonicalUrl => assert RequiredTags[6] == t;
  }

  /** A tag is reported missing exactly when no element matches it, and
      empty exactly when its content is blank after trimming. */
  lemma TagIssueIff(doc: Document, t: Tag)
    ensures Missing(t) in TagIssues(doc, RequiredTags) <==> t !in doc.elements
    ensures Empty(t) in TagIssues(doc, RequiredTags)
        <==> t in doc.elements && IsBlank(ContentOf(doc.elements[t]))
  {
    AllTagsRequired(t);
    TagIssuesMembers(doc, RequiredTags, Missing(t));
    TagIssuesMembers(doc, RequiredTags, Empty(t));
  }

  predicate Distinct(tags: seq<Tag>) {
    forall i, j :: 0 <= i < j < |tags| ==> tags[i] != tags[j]
  }

  lemma DistinctTail(tags: seq<Tag>)
    requires tags != [] && Distinct(tags)
    ensures Distinct(tags[1..]) && tags[0] !in tags[1..]
  {
    forall i, j | 0 <= i < j < |tags| - 1 ensures tags[1..][i] != tags[1..][j] {
      assert tags[1..][i] == tags[i + 1] && tags[1..][j] == tags[j + 1];
    }
    forall m | 0 <= m < |tags| - 1 ensures tags[1..][m] != tags[0] {
      assert tags[1..][m] == tags[m + 1];
    }
  }

  /** Every reported issue is about one of the checked tags. */
  lemma IssueTagChecked(doc: Document, tags: seq<Tag>, j: nat)
    requires j < |TagIssues(doc, tags)|
    ensures TagIssues(doc, tags)[j].tag in tags
  {
    TagIssuesMembers(doc, tags, TagIssues(doc, tags)[j]);
  }

  /** No two issues are about the same tag. */
  predicate OnePerTag(r: seq<TagIssue>) {
    forall i, j :: 0 <= i < j < |r| ==> r[i].tag != r[j].tag
  }

  /** Every tag is reported at most once. */
  lemma {:induction false} TagIssuesOnePerTag(doc: Document, tags: seq<Tag>)
    requires Distinct(tags)
    ensures OnePerTag(TagIssues(doc, tags))
  {
    if tags != [] {
      var rest := TagIssues(doc, tags[1..]);
      var head := TagCheck(doc, tags[0]);
      DistinctTail(tags);
      TagIssuesOnePerTag(doc, tags[1..]);
      forall j | 0 <= j < |rest| ensures rest[j].tag != tags[0] {
        IssueTagChecked(doc, tags[1..], j);
      }
      assert TagIssues(doc, tags) == head + rest;
      OnePerTagCons(head, rest, tags[0]);
    }
  }

  lemma OnePerTagCons(head: seq<TagIssue>, rest: seq<TagIssue>, t: Tag)
    requires |head| <= 1 && (|head| == 1 ==> head[0].tag == t)
    requires OnePerTag(rest) && forall j :: 0 <= j < |rest| ==> rest[j].tag != t
    ensures OnePerTag(head + rest)
  {
    var r := head + rest;
    forall i, j | 0 <= i < j < |r| ensures r[i].tag != r[j].tag {
      if i < |head| {
        assert r[i] == head[0] && r[j] == rest[j - |head|];
      } else {
        assert r[i] == rest[i - |head|] && r[j] == rest[j - |head|];
      }
    }
  }

  /** The required tags are distinct, so the check reports each at most once. */
  lemma RequiredTagsOnce(doc: Document)
    ensures OnePerTag(TagIssues(doc, RequiredTags))
  {
    TagIssuesOnePerTag(doc, RequiredTags);
  }

  /** The meta-tag check passes exactly when every required tag is present
      with non-blank content; warnings and suggestions play no part. */
  lemma MetaTagsValidIff(doc: Document)
    ensures MetaTagsResult(doc).isValid
        <==> forall t: Tag :: t in doc.elements && !IsBlank(ContentOf(doc.elements[t]))
  {
    var r := TagIssues(doc, RequiredTags);
    if r != [] {
      TagIssuesMembers(doc, RequiredTags, r[0]);
      var t := r[0].tag;
      assert !(t in doc.elements && !IsBlank(ContentOf(doc.elements[t])));
    } else {
      forall t: Tag ensures t in doc.elements && !IsBlank(ContentOf(doc.elements[t])) {
        TagIssueIff(doc, t);
      }
    }
  }

  /** No JSON-LD script gives a warning, never an error. */
  lemma StructuredDataWarns(doc: Document)
    ensures NoStructuredData in MetaWarnings(doc) <==> doc.jsonLdScripts == 0
    ensures MetaTagsResult(doc).errors == MetaTagsResult(doc.(jsonLdScripts := 0)).errors
  {
    var d := doc.elements;
    InWhen(NoStructuredData, doc.jsonLdScripts == 0, NoStructuredData);
    InWhen(NoStructuredData, MetaDescription in d && !(DescriptionLength(d[MetaDescription]) < 120)
                             && DescriptionLength(d[MetaDescription]) > 160, DescriptionTooLong);
    InWhen(NoStructuredData, TitleTag in d && |d[TitleTag].text| > 60, TitleTooLong);
    assert TagIssues(doc, RequiredTags) == TagIssues(doc.(jsonLdScripts := 0), RequiredTags) by {
      TagIssuesOtherScripts(doc, RequiredTags);
    }
  }

  lemma {:induction false} TagIssuesOtherScripts(doc: Document, tags: seq<Tag>)
    ensures TagIssues(doc, tags) == TagIssues(doc.(jsonLdScripts := 0), tags)
  {
    if tags != [] {
      TagIssuesOtherScripts(doc, tags[1..]);
    }
  }

  /** The description length rules: under 120 suggests, over 160 warns,
      120 to 160 gives nothing; a title over 60 warns. */
  lemma LengthRules(doc: Document)
    ensures DescriptionShort in MetaSuggestions(doc)
        <==> MetaDescription in doc.elements && DescriptionLength(doc.elements[MetaDescription]) < 120
    ensures DescriptionTooLong in MetaWarnings(doc)
        <==> MetaDescription in doc.elements && DescriptionLength(doc.elements[MetaDescription]) > 160
    ensures TitleTooLong in MetaWarnings(doc)
        <==> TitleTag in doc.elements && |doc.elements[TitleTag].text| > 60
    ensures (MetaDescription in doc.elements && 120 <= DescriptionLength(doc.elements[MetaDescription]) <= 160)
        ==> DescriptionShort !in MetaSuggestions(doc) && DescriptionTooLong !in MetaWarnings(doc)
  {
    var d := doc.elements;
    var long := MetaDescription in d && !(DescriptionLength(d[MetaDescription]) < 120)
                && DescriptionLength(d[MetaDescription]) > 160;
    var title := TitleTag in d && |d[TitleTag].text| > 60;
    InWhen(DescriptionShort, MetaDescription in d && DescriptionLength(d[MetaDescription]) < 120, DescriptionShort);
    InWhen(DescriptionTooLong, doc.jsonLdScripts == 0, NoStructuredData);
    InWhen(DescriptionTooLong, long, DescriptionTooLong);
    InWhen(DescriptionTooLong, title, TitleTooLong);
    InWhen(TitleTooLong, doc.jsonLdScripts == 0, NoStructuredData);
    InWhen(TitleTooLong, long, DescriptionTooLong);
    InWhen(TitleTooLong, title, TitleTooLong);
  }

  // ---------------------------------------------------------------------
  // generateSEOReport

  const ReportTitle := "# SEO Configuration Report\n\n"
  const ValidStatus := "✅ **SEO Configuration Status**: Valid\n\n"
  const InvalidStatus := "❌ **SEO Configuration Status**: Issues Found\n\n"
  const ErrorsHeading := "## ❌ Errors\n"
  const WarningsHeading := "## ⚠️ Warnings\n"
  const SuggestionsHeading := "## 💡 Suggestions\n"
  const Checklist :=
    "## 📋 SEO Checklist\n\n"
    + "- [ ] Update siteConfig with your personal information\n"
    + "- [ ] Replace placeholder images (favicon, og-image, etc.)\n"
    + "- [ ] Set up Google Search Console\n"
    + "- [ ] Set up Bing Webmaster Tools\n"
    + "- [ ] Add environment variables for API integrations\n"
    + "- [ ] Test social media sharing previews\n"
    + "- [ ] Validate structured data with Google Rich Results Test\n"
    + "- [ ] Check mobile-friendliness with Google Mobile-Friendly Test\n"
    + "- [ ] Run Lighthouse SEO audit\n"
    + "- [ ] Submit sitemap to search engines\n"

  /** One bullet line per item, in order. */
  function Items(items: seq<string>): string {
    if items == [] then [] else "- " + items[0] + "\n" + Items(items[1..])
  }

  lemma {:induction false} ItemsAppend(items: seq<string>, item: string)
    ensures Items(items + [item]) == Items(items) + "- " + item + "\n"
  {
    if items == [] {
      assert [item][1..] == [];
    } else {
      assert (items + [item])[0] == items[0];
      assert (items + [item])[1..] == items[1..] + [item];
      ItemsAppend(items[1..], item);
    }
  }

  /** A heading, its bullets and a blank line, or nothing for no items. */
  function Section(heading: string, items: seq<string>): string {
    if |items| > 0 then heading + Items(items) + "\n" else []
  }

  function Report(v: SeoValidationResult): string {
    ReportTitle
    + (if v.isValid then ValidStatus else InvalidStatus)
    + Section(ErrorsHeading, v.errors)
    + Section(WarningsHeading, v.warnings)
    + Section(SuggestionsHeading, v.suggestions)
    + Checklist
  }

  /** `if (items.length > 0) { report += heading; items.forEach(...); report += '\n' }`. */
  method AppendSection(report: string, heading: string, items: seq<string>) returns (r: string)
    ensures r == report + Section(heading, items)
  {
    r := report;
    if |items| > 0 {
      r := r + heading;
      for k := 0 to |items|
        invariant r == report + heading + Items(items[..k])
      {
        ItemsAppend(items[..k], items[k]);
        assert items[..k + 1] == items[..k] + [items[k]];
        r := r + "- " + items[k] + "\n";
      }
      assert items[..|items|] == items;
      r := r + "\n";
    }
  }

  method GenerateSeoReport(env: Env, cfg: SiteConfig) returns (report: string)
    ensures report == Report(ConfigResult(env, GeneratedManifestErrors(cfg)))
  {
    var v := ValidateSeoConfig(env, cfg);
    report := ReportTitle;
    if v.isValid {
      report := report + ValidStatus;
    } else {
      report := report + InvalidStatus;
    }
    report := AppendSection(report, ErrorsHeading, v.errors);
    report := AppendSection(report, WarningsHeading, v.warnings);
    report := AppendSection(report, SuggestionsHeading, v.suggestions);
    report := report + Checklist;
  }

  /** Reads the bullet lines back: the inverse of `Items`. */
  function ReadItems(s: string): seq<string>
    decreases |s|
  {
    if |s| < 2 || s[0] != '-' || s[1] != ' ' then []
    else
      var rest := s[2..];
      var k := Text.IndexOf(rest, '\n');
      if k == |rest| then [] else [rest[..k]] + ReadItems(rest[k + 1..])
  }

  /** The first line of a report holds the first item. */
  lemma ReadItemsHead(x: string, tail: string)
    requires '\n' !in x
    ensures ReadItems("- " + x + "\n" + tail) == [x] + ReadItems(tail)
  {
    var rest := x + "\n" + tail;
    var s := "- " + x + "\n" + tail;
    assert s == "- " + rest;
    assert s[0] == '-' && s[1] == ' ' && s[2..] == rest;
    IndexOfAfter(x, '\n', tail);
    assert rest[..|x|] == x && rest[|x| + 1..] == tail;
  }

  /** Items without line breaks come back from the report in order. */
  lemma {:induction false} ItemsRoundTrip(items: seq<string>)
    requires forall i :: 0 <= i < |items| ==> '\n' !in items[i]
    ensures ReadItems(Items(items)) == items
  {
    if items != [] {
      ItemsRoundTrip(items[1..]);
      ReadItemsHead(items[0], Items(items[1..]));
      assert items == [items[0]] + items[1..];
    }
  }

  /** A section is present exactly when its list is non-empty, and then
      starts with its heading. */
  lemma SectionIff(heading: string, items: seq<string>)
    requires heading != []
    ensures Section(heading, items) == [] <==> items == []
    ensures items != [] ==> StartsWith(Section(heading, items), heading)
  {
  }

  /** For the generated manifest, the report says Valid, has no Errors
      section and always has a Suggestions section. */
  lemma GeneratedReport(env: Env, cfg: SiteConfig)
    ensures var v := ConfigResult(env, GeneratedManifestErrors(cfg));
            v.isValid
            && Section(ErrorsHeading, v.errors) == []
            && StartsWith(Section(SuggestionsHeading, v.suggestions), SuggestionsHeading)
  {
    GeneratedConfigValid(env, cfg);
    ConfigSuggestionsEnd(env);
  }
}
