/** The schema.org JSON-LD builders of `structured-data.ts`: each returns a
    JSON object literal, modelled as a map from member names to values; an
    optional member written with `...(x && {k: x})` is present only when
    `x` is truthy. The site configuration, timeline
    and skills data are parameters. */
module StructuredData {
  import opened Wrappers
  import opened Text
  import opened Seqs
  import opened Content

  // ---------------------------------------------------------------------
  // JSON values

  datatype Json = Str(s: string) | Num(n: int) | Arr(items: seq<Json>) | Obj(members: map<Key, Json>)

  /** The member names the builders use; `KeyName` gives each one's spelling. */
  datatype Key =
      ContextKey | TypeKey | NameKey | Description | Url | ApplicationCategory
    | OperatingSystem | ProgrammingLanguage | CodeRepository | AuthorKey | DateCreated | DateModified
    | Screenshot | Headline | DatePublished | Publisher | Image | Keywords
    | WordCountKey | TimeRequired | JobTitle | HasOccupation | StartDate | EndDate
    | Employer | Address | Skills | EducationalLevel | CredentialCategory | RecognizedBy
    | Expires | HasCredential | KnowsAbout | OccupationLocation | MainEntity | AcceptedAnswer
    | AnswerText

  function KeyName(k: Key): string {
    match k
    case ContextKey => "@context"
    case TypeKey => "@type"
    case NameKey => "name"
    case Description => "description"
    case Url => "url"
    case ApplicationCategory => "applicationCategory"
    case OperatingSystem => "operatingSystem"
    case ProgrammingLanguage => "programmingLanguage"
    case CodeRepository => "codeRepository"
    case AuthorKey => "author"
    case DateCreated => "dateCreated"
    case DateModified => "dateModified"
    case Screenshot => "screenshot"
    case Headline => "headline"
    case DatePublished => "datePublished"
    case Publisher => "publisher"
    case Image => "image"
    case Keywords => "keywords"
    case WordCountKey => "wordCount"
    case TimeRequired => "timeRequired"
    case JobTitle => "jobTitle"
    case HasOccupation => "hasOccupation"
    case StartDate => "startDate"
    case EndDate => "endDate"
    case Employer => "employer"
    case Address => "address"
    case Skills => "skills"
    case EducationalLevel => "educationalLevel"
    case CredentialCategory => "credentialCategory"
    case RecognizedBy => "recognizedBy"
    case Expires => "expires"
    case HasCredential => "hasCredential"
    case KnowsAbout => "knowsAbout"
    case OccupationLocation => "occupationLocation"
    case MainEntity => "mainEntity"
    case AcceptedAnswer => "acceptedAnswer"
    case AnswerText => "text"
  }

  /** Property access `j[key]` on an object; `None` stands for `undefined`. */
  function Get(j: Json, key: Key): (r: Option<Json>)
    ensures r.Some? <==> j.Obj? && key in j.members
    ensures r.Some? ==> r.value == j.members[key]
  {
    if j.Obj? && key in j.members then Some(j.members[key]) else None
  }

  /** `...(v && {key: v})` for an optional string: a truthy string is a
      non-empty one. */
  predicate Truthy(v: Option<string>) {
    v.Some? && v.value != ""
  }

  function OptionalString(key: Key, v: Option<string>): (r: map<Key, Json>)
    ensures Truthy(v) ==> r == map[key := Str(v.value)]
    ensures !Truthy(v) ==> r == map[]
  {
    if Truthy(v) then map[key := Str(v.value)] else map[]
  }

  /** `...(date && {key: day})`: a date object is always truthy. */
  function OptionalDay(key: Key, d: Option<Instant>): (r: map<Key, Json>)
    ensures d.Some? ==> r == map[key := Str(d.value.isoDay)]
    ensures d.None? ==> r == map[]
  {
    if d.Some? then map[key := Str(d.value.isoDay)] else map[]
  }

  function Strs(xs: seq<string>): (r: Json)
    ensures r.Arr? && |r.items| == |xs| && forall i :: 0 <= i < |xs| ==> r.items[i] == Str(xs[i])
  {
    Arr(Map(xs, (x: string) => Str(x)))
  }

  const SchemaContext := "https://schema.org"

  function Author(site: SiteConfig): Json {
    Obj(map[TypeKey := Str("Person"), NameKey := Str(site.name), JobTitle := Str(site.title), Url := Str(site.url)])
  }

  // ---------------------------------------------------------------------
  // Project

  /** `generateProjectStructuredData`. */
  function ProjectData(site: SiteConfig, p: Project): Json {
    Obj(map[
      ContextKey := Str(SchemaContext), TypeKey := Str("SoftwareApplication"),
      NameKey := Str(p.name), Description := Str(p.description),
      Url := Str(if Truthy(p.liveUrl) then p.liveUrl.value else p.githubUrl),
      ApplicationCategory := Str("WebApplication"), OperatingSystem := Str("Web Browser"),
      ProgrammingLanguage := Strs(p.technologies), CodeRepository := Str(p.githubUrl),
      AuthorKey := Author(site),
      DateCreated := Str(p.createdAt.iso), DateModified := Str(p.updatedAt.iso)]
      + OptionalString(Screenshot, p.imageUrl))
  }

  /** The `url` is the live site when there is one, otherwise the
      repository; `screenshot` is present exactly when there is an image. */
  lemma ProjectDataFields(site: SiteConfig, p: Project)
    ensures Truthy(p.liveUrl) ==> Get(ProjectData(site, p), Url) == Some(Str(p.liveUrl.value))
    ensures !Truthy(p.liveUrl) ==> Get(ProjectData(site, p), Url) == Some(Str(p.githubUrl))
    ensures Get(ProjectData(site, p), Screenshot).Some? <==> Truthy(p.imageUrl)
    ensures Truthy(p.imageUrl) ==> Get(ProjectData(site, p), Screenshot) == Some(Str(p.imageUrl.value))
    ensures Get(ProjectData(site, p), CodeRepository) == Some(Str(p.githubUrl))
  {
  }

  // ---------------------------------------------------------------------
  // Article

  /** The ISO 8601 duration `PT<n>M` (section 4.4.3.2 of ISO 8601:2004,
      designators `P`, `T` and `M`). */
  function Duration(minutes: nat): string {
    "PT" + NatToString(minutes) + "M"
  }

  /** Reads a `PT<n>M` duration back into minutes. */
  function ParseDuration(s: string): Option<nat> {
    if |s| >= 4 && s[0] == 'P' && s[1] == 'T' && s[|s| - 1] == 'M'
       && forall i :: 2 <= i < |s| - 1 ==> IsDigit(s[i])
    then Some(ParseNat(s[2..|s| - 1]))
    else None
  }

  lemma DurationRoundTrip(minutes: nat)
    ensures ParseDuration(Duration(minutes)) == Some(minutes)
  {
    var digits := NatToString(minutes);
    var s := Duration(minutes);
    assert s == ['P', 'T'] + digits + ['M'];
    assert s[2..|s| - 1] == digits;
    ParseNatToString(minutes);
  }

  /** `Math.ceil(readTime * 200)`: the read time is a whole number of minutes. */
  function WordCount(readTime: nat): nat {
    readTime * 200
  }

  /** `generateArticleStructuredData`. */
  function ArticleData(site: SiteConfig, a: Article): Json {
    Obj(map[
      ContextKey := Str(SchemaContext), TypeKey := Str("Article"),
      Headline := Str(a.title), Description := Str(a.excerpt), Url := Str(a.url),
      DatePublished := Str(a.publishedAt.iso), AuthorKey := Author(site),
      Publisher := Obj(map[TypeKey := Str("Organization"), NameKey := Str("Medium"), Url := Str("https://medium.com")]),
      Keywords := Strs(a.tags), WordCountKey := Num(WordCount(a.readTime)),
      TimeRequired := Str(Duration(a.readTime))]
      + OptionalString(Image, a.imageUrl))
  }

  /** The word count is 200 per minute of reading; the duration reads back
      as the read time; `image` is present exactly when there is one. */
  lemma ArticleDataFields(site: SiteConfig, a: Article)
    ensures Get(ArticleData(site, a), WordCountKey) == Some(Num(200 * a.readTime))
    ensures exists s :: Get(ArticleData(site, a), TimeRequired) == Some(Str(s)) && ParseDuration(s) == Some(a.readTime)
    ensures Get(ArticleData(site, a), Image).Some? <==> Truthy(a.imageUrl)
    ensures Truthy(a.imageUrl) ==> Get(ArticleData(site, a), Image) == Some(Str(a.imageUrl.value))
  {
    var m := ArticleData(site, a).members;
    assert m[TimeRequired] == Str(Duration(a.readTime));
    DurationRoundTrip(a.readTime);
  }

  // ---------------------------------------------------------------------
  // Work experience and education

  predicate IsWork(e: TimelineEntry) {
    e.kind == Work
  }

  predicate IsEducation(e: TimelineEntry) {
    e.kind == Education
  }

  function Organization(kind: string, e: TimelineEntry): Json {
    Obj(map[TypeKey := Str(kind), NameKey := Str(e.subtitle)] + OptionalString(Address, e.location))
  }

  /** One `WorkExperience` entry. */
  function WorkItem(e: TimelineEntry): Json {
    Obj(map[TypeKey := Str("WorkExperience"), NameKey := Str(e.title),
            Description := Str(e.description), StartDate := Str(e.date.isoDay)]
        + OptionalDay(EndDate, e.endDate)
        + map[Employer := Organization("Organization", e), Skills := Strs(e.technologies.GetOr([]))])
  }

  /** `endDate` is present exactly when the entry has one; `skills` falls
      back to the empty list. */
  lemma WorkItemFields(e: TimelineEntry)
    ensures Get(WorkItem(e), EndDate).Some? <==> e.endDate.Some?
    ensures e.endDate.Some? ==> Get(WorkItem(e), EndDate) == Some(Str(e.endDate.value.isoDay))
    ensures e.technologies.None? ==> Get(WorkItem(e), Skills) == Some(Arr([]))
    ensures e.technologies.Some? ==> Get(WorkItem(e), Skills) == Some(Strs(e.technologies.value))
  {
  }

  function Occupations(timeline: seq<TimelineEntry>): seq<Json> {
    Map(Filter(timeline, IsWork), WorkItem)
  }

  /** `generateWorkExperienceStructuredData`. */
  function WorkExperienceData(site: SiteConfig, timeline: seq<TimelineEntry>): Json {
    Obj(map[ContextKey := Str(SchemaContext), TypeKey := Str("Person"), NameKey := Str(site.name),
            JobTitle := Str(site.title), HasOccupation := Arr(Occupations(timeline))])
  }

  /** The occupations keep timeline order: filtering distributes over
      concatenation. */
  lemma OccupationsAppend(a: seq<TimelineEntry>, b: seq<TimelineEntry>)
    ensures Occupations(a + b) == Occupations(a) + Occupations(b)
  {
    FilterAppend(a, b, IsWork);
  }

  /** `hasOccupation` holds one entry per work item of the timeline and no
      other. */
  lemma OccupationsOf(site: SiteConfig, timeline: seq<TimelineEntry>)
    ensures Get(WorkExperienceData(site, timeline), HasOccupation) == Some(Arr(Occupations(timeline)))
    ensures |Occupations(timeline)| == |Filter(timeline, IsWork)|
    ensures forall e :: e in Filter(timeline, IsWork) <==> e in timeline && e.kind == Work
    ensures forall i :: 0 <= i < |Occupations(timeline)| ==> Occupations(timeline)[i] == WorkItem(Filter(timeline, IsWork)[i])
  {
    forall e ensures e in Filter(timeline, IsWork) <==> e in timeline && e.kind == Work {
      FilterMembers(timeline, IsWork, e);
    }
  }

  /** One `EducationalOccupationalCredential` entry. */
  function EducationItem(e: TimelineEntry): Json {
    Obj(map[TypeKey := Str("EducationalOccupationalCredential"), NameKey := Str(e.title),
            Description := Str(e.description), EducationalLevel := Str("Bachelor"),
            CredentialCategory := Str("degree"),
            RecognizedBy := Organization("EducationalOrganization", e),
            DateCreated := Str(e.date.isoDay)]
        + OptionalDay(Expires, e.endDate))
  }

  lemma EducationItemFields(e: TimelineEntry)
    ensures Get(EducationItem(e), EducationalLevel) == Some(Str("Bachelor"))
    ensures Get(EducationItem(e), Expires).Some? <==> e.endDate.Some?
    ensures e.endDate.Some? ==> Get(EducationItem(e), Expires) == Some(Str(e.endDate.value.isoDay))
  {
  }

  function Credentials(timeline: seq<TimelineEntry>): seq<Json> {
    Map(Filter(timeline, IsEducation), EducationItem)
  }

  /** `generateEducationStructuredData`. */
  function EducationData(site: SiteConfig, timeline: seq<TimelineEntry>): Json {
    Obj(map[ContextKey := Str(SchemaContext), TypeKey := Str("Person"), NameKey := Str(site.name),
            HasCredential := Arr(Credentials(timeline))])
  }

  /** `hasCredential` holds one entry per education item, each at the
      bachelor level. */
  lemma CredentialsOf(site: SiteConfig, timeline: seq<TimelineEntry>)
    ensures Get(EducationData(site, timeline), HasCredential) == Some(Arr(Credentials(timeline)))
    ensures forall e :: e in Filter(timeline, IsEducation) <==> e in timeline && e.kind == Education
    ensures forall i :: 0 <= i < |Credentials(timeline)| ==>
              Get(Credentials(timeline)[i], EducationalLevel) == Some(Str("Bachelor"))
  {
    forall e ensures e in Filter(timeline, IsEducation) <==> e in timeline && e.kind == Education {
      FilterMembers(timeline, IsEducation, e);
    }
    forall i | 0 <= i < |Credentials(timeline)|
      ensures Get(Credentials(timeline)[i], EducationalLevel) == Some(Str("Bachelor"))
    {
      EducationItemFields(Filter(timeline, IsEducation)[i]);
    }
  }

  // ---------------------------------------------------------------------
  // Skills

  function SkillName(s: Skill): string {
    s.name
  }

  function CategoryNames(c: SkillCategory): seq<string> {
    Map(c.skills, SkillName)
  }

  /** `skillsData.flatMap(c => c.skills.map(s => s.name))`. */
  function AllSkills(categories: seq<SkillCategory>): seq<string> {
    Flatten(Map(categories, CategoryNames))
  }

  /** Every listed name is some category's skill, and every skill is listed. */
  lemma {:induction false} AllSkillsMembers(categories: seq<SkillCategory>, name: string)
    ensures name in AllSkills(categories)
        <==> exists i, j :: 0 <= i < |categories| && 0 <= j < |categories[i].skills| && categories[i].skills[j].name == name
  {
    if categories != [] {
      var c := categories[0];
      var rest := categories[1..];
      MapTail(categories, CategoryNames);
      AllSkillsMembers(rest, name);
      assert AllSkills(categories) == CategoryNames(c) + AllSkills(rest);
      if name in CategoryNames(c) {
        var j :| 0 <= j < |c.skills| && CategoryNames(c)[j] == name;
        assert categories[0].skills[j].name == name;
      }
      if exists i, j :: 0 <= i < |categories| && 0 <= j < |categories[i].skills| && categories[i].skills[j].name == name {
        var i, j :| 0 <= i < |categories| && 0 <= j < |categories[i].skills| && categories[i].skills[j].name == name;
        if i == 0 {
          assert CategoryNames(c)[j] == name;
        } else {
          assert rest[i - 1].skills[j].name == name;
        }
      }
    }
  }

  /** Category order is kept: the names of a concatenation of categories
      are the names of each part, in turn. */
  lemma AllSkillsAppend(a: seq<SkillCategory>, b: seq<SkillCategory>)
    ensures AllSkills(a + b) == AllSkills(a) + AllSkills(b)
  {
    assert Map(a + b, CategoryNames) == Map(a, CategoryNames) + Map(b, CategoryNames);
    FlattenAppend(Map(a, CategoryNames), Map(b, CategoryNames));
  }

  /** `generateSkillsStructuredData`. */
  function SkillsData(site: SiteConfig, categories: seq<SkillCategory>): Json {
    Obj(map[ContextKey := Str(SchemaContext), TypeKey := Str("Person"), NameKey := Str(site.name),
            JobTitle := Str(site.title), KnowsAbout := Strs(AllSkills(categories)),
            HasOccupation := Obj(map[TypeKey := Str("Occupation"), NameKey := Str(site.title),
                                     Skills := Strs(AllSkills(categories)),
                                     OccupationLocation := Obj(map[TypeKey := Str("Place"), NameKey := Str("Remote/Global")])])])
  }

  /** `knowsAbout` and the occupation's `skills` both list every skill name. */
  lemma SkillsListed(site: SiteConfig, categories: seq<SkillCategory>)
    ensures Get(SkillsData(site, categories), KnowsAbout) == Some(Strs(AllSkills(categories)))
    ensures exists o :: Get(SkillsData(site, categories), HasOccupation) == Some(o)
                     && Get(o, Skills) == Some(Strs(AllSkills(categories)))
  {
    var o := SkillsData(site, categories).members[HasOccupation];
    assert Get(o, Skills) == Some(Strs(AllSkills(categories)));
  }

  // ---------------------------------------------------------------------
  // FAQ and homepage

  function Question(q: string, a: string): Json {
    Obj(map[TypeKey := Str("Question"), NameKey := Str(q),
            AcceptedAnswer := Obj(map[TypeKey := Str("Answer"), AnswerText := Str(a)])])
  }

  const WhoPrefix := "Who is "
  const WhoAnswerTail := " with expertise in modern web development technologies including React, Next.js, TypeScript, and more."
  const TechQuestion := "What technologies do you work with?"
  const TechPrefix := "I work with "
  const TechTail := " and many other modern web technologies."
  const ContactQuestion := "How can I contact you?"
  const ContactPrefix := "You can reach me via email at "
  const ContactTail := " or connect with me on LinkedIn and GitHub."
  const AvailabilityQuestion := "Are you available for new opportunities?"
  const AvailabilityAnswer := "Please check my current availability status on the contact section of my portfolio."

  /** The second answer: the first five skill names, comma-separated. */
  function TechnologiesAnswer(categories: seq<SkillCategory>): string {
    TechPrefix + Join(Take(AllSkills(categories), 5), ", ") + TechTail
  }

  function WhoAnswer(site: SiteConfig): string {
    site.name + " is a " + ToLower(site.title) + WhoAnswerTail
  }

  function ContactAnswer(site: SiteConfig): string {
    ContactPrefix + site.email + ContactTail
  }

  function Faqs(site: SiteConfig, categories: seq<SkillCategory>): seq<(string, string)> {
    [(WhoPrefix + site.name + "?", WhoAnswer(site)),
     (TechQuestion, TechnologiesAnswer(categories)),
     (ContactQuestion, ContactAnswer(site)),
     (AvailabilityQuestion, AvailabilityAnswer)]
  }

  function QuestionOf(f: (string, string)): Json {
    Question(f.0, f.1)
  }

  /** `generateFAQStructuredData`. */
  function FaqData(site: SiteConfig, categories: seq<SkillCategory>): Json {
    Obj(map[ContextKey := Str(SchemaContext), TypeKey := Str("FAQPage"),
            MainEntity := Arr(Map(Faqs(site, categories), QuestionOf))])
  }

  /** Four questions; the second one's answer names the skills. */
  lemma FaqShape(site: SiteConfig, categories: seq<SkillCategory>)
    ensures exists qs :: Get(FaqData(site, categories), MainEntity) == Some(Arr(qs)) && |qs| == 4
                      && qs[1] == Question(TechQuestion, TechnologiesAnswer(categories))
  {
    var faqs := Faqs(site, categories);
    var qs := Map(faqs, QuestionOf);
    assert Get(FaqData(site, categories), MainEntity) == Some(Arr(qs));
    assert faqs[1] == (TechQuestion, TechnologiesAnswer(categories));
    assert qs[1] == QuestionOf(faqs[1]);
  }

  /** The answer lists the first five skill names, or all of them when
      there are fewer. */
  lemma FirstFiveSkills(categories: seq<SkillCategory>)
    ensures TechnologiesAnswer(categories)
         == TechPrefix + Join(if |AllSkills(categories)| <= 5 then AllSkills(categories) else AllSkills(categories)[..5], ", ") + TechTail
  {
  }

  /** `generateHomepageStructuredData`. */
  function HomepageData(site: SiteConfig, timeline: seq<TimelineEntry>, categories: seq<SkillCategory>): (r: seq<Json>)
    ensures |r| == 4
    ensures r[0] == WorkExperienceData(site, timeline) && r[1] == EducationData(site, timeline)
    ensures r[2] == SkillsData(site, categories) && r[3] == FaqData(site, categories)
  {
    [WorkExperienceData(site, timeline), EducationData(site, timeline),
     SkillsData(site, categories), FaqData(site, categories)]
  }
}
