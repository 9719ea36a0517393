/** The web app manifest the site serves: its generator from the site
    configuration, the theme-colour variant, and the validator. */
module Manifest {
  import opened Wrappers
  import opened Text
  import opened Content

  datatype Display = Fullscreen | Standalone | MinimalUi | Browser

  datatype Direction = Ltr | Rtl | Auto

  datatype Icon = Icon(src: string, sizes: string, mimeType: Option<string>, purpose: Option<string>)

  datatype Shortcut = Shortcut(
    name: string,
    shortName: Option<string>,
    description: Option<string>,
    url: string,
    icons: seq<Icon>)

  /** `WebAppManifest`; the orientation is kept as its keyword. */
  datatype WebAppManifest = WebAppManifest(
    name: string,
    shortName: string,
    description: string,
    startUrl: string,
    display: Display,
    backgroundColor: string,
    themeColor: string,
    orientation: Option<string>,
    scope: Option<string>,
    icons: seq<Icon>,
    categories: Option<seq<string>>,
    lang: Option<string>,
    dir: Option<Direction>,
    preferRelatedApplications: Option<bool>,
    shortcuts: Option<seq<Shortcut>>)

  const DefaultColor := "#0a0a0a"

  const SmallIcon := Icon("/favicon-32x32.png", "32x32", None, None)

  const Icon192 := Icon("/android-chrome-192x192.png", SizeLabel(Px192), Some("image/png"), Some("maskable any"))
  const Icon512 := Icon("/android-chrome-512x512.png", SizeLabel(Px512), Some("image/png"), Some("maskable any"))
  const IconApple := Icon("/apple-touch-icon.png", "180x180", Some("image/png"), None)
  const Icon32 := Icon("/favicon-32x32.png", "32x32", Some("image/png"), None)
  const Icon16 := Icon("/favicon-16x16.png", "16x16", Some("image/png"), None)

  const ManifestIcons := [Icon192, Icon512, IconApple, Icon32, Icon16]

  const ProjectsShortcut := Shortcut("Projects", Some("Projects"), Some("View my projects and work"), "/#projects", [SmallIcon])
  const ArticlesShortcut := Shortcut("Articles", Some("Articles"), Some("Read my latest articles"), "/#articles", [SmallIcon])
  const ContactShortcut := Shortcut("Contact", Some("Contact"), Some("Get in touch with me"), "/#contact", [SmallIcon])

  function AboutShortcut(cfg: SiteConfig): Shortcut {
    Shortcut("About", Some("About"), Some("Learn more about " + cfg.name), "/#about", [SmallIcon])
  }

  const Categories := ["portfolio", "professional", "developer", "software"]

  /** `generateWebAppManifest`. */
  function GenerateWebAppManifest(cfg: SiteConfig): (m: WebAppManifest)
    ensures m.startUrl == "/" && m.backgroundColor == DefaultColor && m.themeColor == DefaultColor
    ensures |m.icons| == 5
  {
    WebAppManifest(
      cfg.name + " - " + cfg.title + " Portfolio",
      cfg.name + " Portfolio",
      cfg.description,
      "/",
      Standalone,
      DefaultColor,
      DefaultColor,
      Some("portrait-primary"),
      Some("/"),
      ManifestIcons,
      Some(Categories),
      Some("en"),
      Some(Ltr),
      Some(false),
      Some([AboutShortcut(cfg), ProjectsShortcut, ArticlesShortcut, ContactShortcut]))
  }

  /** `generateWebAppManifestWithTheme`: the base manifest with the two
      colours replaced and nothing else changed. */
  function WithTheme(cfg: SiteConfig, backgroundColor: string, themeColor: string): (m: WebAppManifest)
    ensures m.backgroundColor == backgroundColor && m.themeColor == themeColor
    ensures m.(backgroundColor := DefaultColor, themeColor := DefaultColor) == GenerateWebAppManifest(cfg)
  {
    GenerateWebAppManifest(cfg).(backgroundColor := backgroundColor, themeColor := themeColor)
  }

  /** With the default arguments the themed manifest is the base manifest. */
  lemma WithDefaultTheme(cfg: SiteConfig)
    ensures WithTheme(cfg, DefaultColor, DefaultColor) == GenerateWebAppManifest(cfg)
  {
  }

  // ---------------------------------------------------------------- validation

  /** The two icon sizes the validator requires. */
  datatype IconSize = Px192 | Px512

  function SizeLabel(size: IconSize): string {
    match size
    case Px192 => "192x192"
    case Px512 => "512x512"
  }

  const RequiredSizes: seq<IconSize> := [Px192, Px512]

  /** One finding of `validateManifest`. */
  datatype ManifestIssue = NameRequired | ShortNameRequired | StartUrlRequired | NoIcons | MissingSize(size: IconSize)

  function Message(issue: ManifestIssue): string {
    match issue
    case NameRequired => "Manifest name is required"
    case ShortNameRequired => "Manifest short_name is required"
    case StartUrlRequired => "Manifest start_url is required"
    case NoIcons => "Manifest must have at least one icon"
    case MissingSize(size) => "Missing required icon size: " + SizeLabel(size)
  }

  function Messages(issues: seq<ManifestIssue>): (r: seq<string>)
    ensures |r| == |issues|
  {
    if issues == [] then [] else [Message(issues[0])] + Messages(issues[1..])
  }

  lemma {:induction false} MessagesAppend(issues: seq<ManifestIssue>, issue: ManifestIssue)
    ensures Messages(issues + [issue]) == Messages(issues) + [Message(issue)]
  {
    if issues == [] {
      assert [issue][1..] == [];
    } else {
      assert (issues + [issue])[0] == issues[0];
      assert (issues + [issue])[1..] == issues[1..] + [issue];
      MessagesAppend(issues[1..], issue);
    }
  }

  lemma {:induction false} MessagesConcat(a: seq<ManifestIssue>, b: seq<ManifestIssue>)
    ensures Messages(a + b) == Messages(a) + Messages(b)
  {
    if a == [] {
      assert a + b == b;
    } else {
      assert (a + b)[0] == a[0];
      assert (a + b)[1..] == a[1..] + b;
      MessagesConcat(a[1..], b);
    }
  }

  /** `manifest.icons.map(icon => icon.sizes)`. */
  function SizesOf(icons: seq<Icon>): (r: seq<string>)
    ensures |r| == |icons|
  {
    if icons == [] then [] else [icons[0].sizes] + SizesOf(icons[1..])
  }

  function Check(failed: bool, issue: ManifestIssue): seq<ManifestIssue> {
    if failed then [issue] else []
  }

  /** The sizes of `required`, in order, whose label is not among
      `available`: what the size loop pushes. */
  function MissingSizes(required: seq<IconSize>, available: seq<string>): seq<ManifestIssue> {
    if required == [] then []
    else Check(SizeLabel(required[0]) !in available, MissingSize(required[0])) + MissingSizes(required[1..], available)
  }

  lemma {:induction false} MissingSizesAppend(required: seq<IconSize>, size: IconSize, available: seq<string>)
    ensures MissingSizes(required + [size], available)
         == MissingSizes(required, available) + Check(SizeLabel(size) !in available, MissingSize(size))
  {
    if required != [] {
      assert (required + [size])[1..] == required[1..] + [size];
      MissingSizesAppend(required[1..], size, available);
    } else {
      assert [size][1..] == [];
    }
  }

  /** The outcome of each check `validateManifest` makes, in the order it
      makes them. */
  datatype ManifestChecks = ManifestChecks(
    nameBlank: bool,
    shortNameBlank: bool,
    startUrlMissing: bool,
    iconsEmpty: bool,
    missing192: bool,
    missing512: bool)

  function ChecksOf(m: WebAppManifest): ManifestChecks {
    ManifestChecks(IsBlank(m.name), IsBlank(m.shortName), m.startUrl == "", |m.icons| == 0,
                   SizeLabel(Px192) !in SizesOf(m.icons), SizeLabel(Px512) !in SizesOf(m.icons))
  }

  /** The findings of the four field checks, in order. */
  function FieldIssues(c: ManifestChecks): seq<ManifestIssue> {
    Check(c.nameBlank, NameRequired)
    + Check(c.shortNameBlank, ShortNameRequired)
    + Check(c.startUrlMissing, StartUrlRequired)
    + Check(c.iconsEmpty, NoIcons)
  }

  /** The findings of the two size checks, in order. */
  function SizeIssues(c: ManifestChecks): seq<ManifestIssue> {
    Check(c.missing192, MissingSize(Px192)) + Check(c.missing512, MissingSize(Px512))
  }

  /** One finding per failed check, in check order. */
  function IssuesFor(c: ManifestChecks): seq<ManifestIssue> {
    FieldIssues(c) + SizeIssues(c)
  }

  /** The findings for `m`. */
  function ManifestIssues(m: WebAppManifest): seq<ManifestIssue> {
    IssuesFor(ChecksOf(m))
  }

  lemma {:induction false} MissingRequiredSizes(available: seq<string>)
    ensures MissingSizes(RequiredSizes, available)
         == Check(SizeLabel(Px192) !in available, MissingSize(Px192)) + Check(SizeLabel(Px512) !in available, MissingSize(Px512))
  {
    var rest := RequiredSizes[1..];
    assert rest == [Px512] && rest[1..] == [];
    assert MissingSizes(rest, available) == Check(SizeLabel(Px512) !in available, MissingSize(Px512)) + [];
  }

  /** Whether the check that reports `issue` failed. */
  predicate Failed(c: ManifestChecks, issue: ManifestIssue) {
    match issue
    case NameRequired => c.nameBlank
    case ShortNameRequired => c.shortNameBlank
    case StartUrlRequired => c.startUrlMissing
    case NoIcons => c.iconsEmpty
    case MissingSize(Px192) => c.missing192
    case MissingSize(Px512) => c.missing512
  }

  lemma InCheck(x: ManifestIssue, failed: bool, issue: ManifestIssue)
    ensures x in Check(failed, issue) <==> failed && x == issue
  {
  }

  lemma InIssuesFor(c: ManifestChecks, x: ManifestIssue)
    ensures x in IssuesFor(c) <==>
      x in Check(c.nameBlank, NameRequired) || x in Check(c.shortNameBlank, ShortNameRequired)
      || x in Check(c.startUrlMissing, StartUrlRequired) || x in Check(c.iconsEmpty, NoIcons)
      || x in Check(c.missing192, MissingSize(Px192)) || x in Check(c.missing512, MissingSize(Px512))
  {
  }

  /** Each finding is reported exactly when its check fails. */
  lemma IssuesForIff(c: ManifestChecks, x: ManifestIssue)
    ensures x in IssuesFor(c) <==> Failed(c, x)
  {
    InIssuesFor(c, x);
    InCheck(x, c.nameBlank, NameRequired);
    InCheck(x, c.shortNameBlank, ShortNameRequired);
    InCheck(x, c.startUrlMissing, StartUrlRequired);
    InCheck(x, c.iconsEmpty, NoIcons);
    InCheck(x, c.missing192, MissingSize(Px192));
    InCheck(x, c.missing512, MissingSize(Px512));
  }

  /** The findings of `m`: a blank name or short name, an empty start URL,
      an empty icon list, and each required size no icon declares. */
  lemma IssuesIff(m: WebAppManifest)
    ensures var r := ManifestIssues(m);
            (NameRequired in r <==> IsBlank(m.name))
            && (ShortNameRequired in r <==> IsBlank(m.shortName))
            && (StartUrlRequired in r <==> m.startUrl == "")
            && (NoIcons in r <==> |m.icons| == 0)
            && (forall size :: MissingSize(size) in r <==> SizeLabel(size) !in SizesOf(m.icons))
  {
    var c := ChecksOf(m);
    IssuesForIff(c, NameRequired);
    IssuesForIff(c, ShortNameRequired);
    IssuesForIff(c, StartUrlRequired);
    IssuesForIff(c, NoIcons);
    IssuesForIff(c, MissingSize(Px192));
    IssuesForIff(c, MissingSize(Px512));
    forall size ensures MissingSize(size) in ManifestIssues(m) <==> SizeLabel(size) !in SizesOf(m.icons) {
      match size
      case Px192 =>
      case Px512 =>
    }
  }

  /** Where an issue falls in the fixed order in which the checks run. */
  function Ordinal(issue: ManifestIssue): nat {
    match issue
    case NameRequired => 0
    case ShortNameRequired => 1
    case StartUrlRequired => 2
    case NoIcons => 3
    case MissingSize(Px192) => 4
    case MissingSize(Px512) => 5
  }

  /** Every finding of `r` falls in `[lo, hi)` of the check order, strictly
      increasing. */
  predicate OrderedWithin(r: seq<ManifestIssue>, lo: nat, hi: nat) {
    (forall i :: 0 <= i < |r| ==> lo <= Ordinal(r[i]) < hi)
    && (forall i, j :: 0 <= i < j < |r| ==> Ordinal(r[i]) < Ordinal(r[j]))
  }

  lemma OrderedConcat(a: seq<ManifestIssue>, b: seq<ManifestIssue>, lo: nat, mid: nat, hi: nat)
    requires lo <= mid <= hi
    requires OrderedWithin(a, lo, mid) && OrderedWithin(b, mid, hi)
    ensures OrderedWithin(a + b, lo, hi)
  {
    var r := a + b;
    forall i, j | 0 <= i < j < |r| ensures Ordinal(r[i]) < Ordinal(r[j]) {
      if j < |a| {
        assert r[i] == a[i] && r[j] == a[j];
      } else if i < |a| {
        assert r[i] == a[i] && r[j] == b[j - |a|];
      } else {
        assert r[i] == b[i - |a|] && r[j] == b[j - |a|];
      }
    }
    forall i | 0 <= i < |r| ensures lo <= Ordinal(r[i]) < hi {
      if i < |a| {
        assert r[i] == a[i];
      } else {
        assert r[i] == b[i - |a|];
      }
    }
  }

  lemma CheckOrdered(failed: bool, issue: ManifestIssue)
    ensures OrderedWithin(Check(failed, issue), Ordinal(issue), Ordinal(issue) + 1)
  {
  }

  lemma FieldIssuesOrdered(c: ManifestChecks)
    ensures OrderedWithin(FieldIssues(c), 0, 4)
  {
    var c0 := Check(c.nameBlank, NameRequired);
    var c1 := Check(c.shortNameBlank, ShortNameRequired);
    var c2 := Check(c.startUrlMissing, StartUrlRequired);
    CheckOrdered(c.nameBlank, NameRequired);
    CheckOrdered(c.shortNameBlank, ShortNameRequired);
    OrderedConcat(c0, c1, 0, 1, 2);
    CheckOrdered(c.startUrlMissing, StartUrlRequired);
    OrderedConcat(c0 + c1, c2, 0, 2, 3);
    CheckOrdered(c.iconsEmpty, NoIcons);
    OrderedConcat(c0 + c1 + c2, Check(c.iconsEmpty, NoIcons), 0, 3, 4);
  }

  lemma SizeIssuesOrdered(c: ManifestChecks)
    ensures OrderedWithin(SizeIssues(c), 4, 6)
  {
    CheckOrdered(c.missing192, MissingSize(Px192));
    CheckOrdered(c.missing512, MissingSize(Px512));
    OrderedConcat(Check(c.missing192, MissingSize(Px192)), Check(c.missing512, MissingSize(Px512)), 4, 5, 6);
  }

  /** The findings come in the order the checks run, each at most once. */
  lemma IssuesOrdered(c: ManifestChecks)
    ensures var r := IssuesFor(c);
            forall i, j :: 0 <= i < j < |r| ==> Ordinal(r[i]) < Ordinal(r[j])
  {
    FieldIssuesOrdered(c);
    SizeIssuesOrdered(c);
    OrderedConcat(FieldIssues(c), SizeIssues(c), 0, 4, 6);
  }

  /** The `requiredSizes.forEach` step of `validateManifest`: one message
      per required size missing from `available`, in order. */
  method CheckRequiredSizes(available: seq<string>) returns (errors: seq<string>)
    ensures errors == Messages(MissingSizes(RequiredSizes, available))
  {
    errors := [];
    for k := 0 to |RequiredSizes|
      invariant errors == Messages(MissingSizes(RequiredSizes[..k], available))
    {
      var size := RequiredSizes[k];
      MissingSizesAppend(RequiredSizes[..k], size, available);
      assert RequiredSizes[..k + 1] == RequiredSizes[..k] + [size];
      if SizeLabel(size) !in available {
        MessagesAppend(MissingSizes(RequiredSizes[..k], available), MissingSize(size));
        errors := errors + [Message(MissingSize(size))];
      } else {
        assert MissingSizes(RequiredSizes[..k + 1], available) == MissingSizes(RequiredSizes[..k], available) + [];
      }
    }
    assert RequiredSizes[..|RequiredSizes|] == RequiredSizes;
  }

  /** `validateManifest`: the field checks run one after the other, each
      pushing its message, then the required sizes are checked. */
  method ValidateManifest(m: WebAppManifest) returns (isValid: bool, errors: seq<string>)
    ensures errors == Messages(ManifestIssues(m))
    ensures isValid <==> errors == []
  {
    errors := [];
    ghost var found: seq<ManifestIssue> := [];
    PushCheck(errors, found, IsBlank(m.name), NameRequired);
    if IsBlank(m.name) {
      errors := errors + [Message(NameRequired)];
    }
    found := found + Check(IsBlank(m.name), NameRequired);
    PushCheck(errors, found, IsBlank(m.shortName), ShortNameRequired);
    if IsBlank(m.shortName) {
      errors := errors + [Message(ShortNameRequired)];
    }
    found := found + Check(IsBlank(m.shortName), ShortNameRequired);
    PushCheck(errors, found, m.startUrl == "", StartUrlRequired);
    if m.startUrl == "" {
      errors := errors + [Message(StartUrlRequired)];
    }
    found := found + Check(m.startUrl == "", StartUrlRequired);
    PushCheck(errors, found, |m.icons| == 0, NoIcons);
    if |m.icons| == 0 {
      errors := errors + [Message(NoIcons)];
    }
    found := found + Check(|m.icons| == 0, NoIcons);
    var available := SizesOf(m.icons);
    var sizeErrors := CheckRequiredSizes(available);
    ValidateTail(m, found, errors, sizeErrors);
    errors := errors + sizeErrors;
    isValid := |errors| == 0;
  }

  /** One check of `validateManifest`: pushing its message when it fails
      extends the messages of the findings so far by its finding. */
  lemma PushCheck(errors: seq<string>, found: seq<ManifestIssue>, failed: bool, issue: ManifestIssue)
    requires errors == Messages(found)
    ensures (if failed then errors + [Message(issue)] else errors) == Messages(found + Check(failed, issue))
  {
    MessagesAppend(found, issue);
    assert found + [] == found;
  }

  /** The size findings follow the field findings. */
  lemma ValidateTail(m: WebAppManifest, found: seq<ManifestIssue>, errors: seq<string>, sizeErrors: seq<string>)
    requires found == [] + Check(IsBlank(m.name), NameRequired) + Check(IsBlank(m.shortName), ShortNameRequired)
                      + Check(m.startUrl == "", StartUrlRequired) + Check(|m.icons| == 0, NoIcons)
    requires errors == Messages(found)
    requires sizeErrors == Messages(MissingSizes(RequiredSizes, SizesOf(m.icons)))
    ensures errors + sizeErrors == Messages(ManifestIssues(m))
  {
    MissingRequiredSizes(SizesOf(m.icons));
    assert [] + Check(IsBlank(m.name), NameRequired) == Check(IsBlank(m.name), NameRequired);
    assert ManifestIssues(m) == found + SizeIssues(ChecksOf(m));
    MessagesConcat(found, SizeIssues(ChecksOf(m)));
  }

  /** An empty icon list gives exactly three icon findings, last in the list. */
  lemma EmptyIconsThreeErrors(m: WebAppManifest)
    requires |m.icons| == 0
    ensures var r := ManifestIssues(m);
            |r| >= 3 && r[|r| - 3..] == [NoIcons, MissingSize(Px192), MissingSize(Px512)]
  {
  }

  /** The generated icons declare both required sizes. */
  lemma ManifestIconSizes()
    ensures SizeLabel(Px192) in SizesOf(ManifestIcons) && SizeLabel(Px512) in SizesOf(ManifestIcons)
  {
    var sizes := SizesOf(ManifestIcons);
    assert sizes == [Icon192.sizes] + SizesOf(ManifestIcons[1..]);
    assert SizesOf(ManifestIcons[1..]) == [Icon512.sizes] + SizesOf(ManifestIcons[2..]);
    assert sizes[0] == SizeLabel(Px192) && sizes[1] == SizeLabel(Px512);
  }

  /** The generated manifest passes every check. */
  lemma GeneratedChecksPass(cfg: SiteConfig)
    ensures ChecksOf(GenerateWebAppManifest(cfg)) == ManifestChecks(false, false, false, false, false, false)
  {
    NotBlankWithVisible(cfg.name + " - " + cfg.title, " Portfolio", 1);
    NotBlankWithVisible(cfg.name, " Portfolio", 1);
    ManifestIconSizes();
  }

  /** The generated manifest, and any themed variant of it, passes validation. */
  lemma GeneratedManifestValid(cfg: SiteConfig, backgroundColor: string, themeColor: string)
    ensures ManifestIssues(GenerateWebAppManifest(cfg)) == []
    ensures ManifestIssues(WithTheme(cfg, backgroundColor, themeColor)) == []
  {
    GeneratedChecksPass(cfg);
    var m := GenerateWebAppManifest(cfg);
    var pass := ManifestChecks(false, false, false, false, false, false);
    assert FieldIssues(pass) == [] && SizeIssues(pass) == [];
    assert ChecksOf(WithTheme(cfg, backgroundColor, themeColor)) == ChecksOf(m);
  }
}
