/** The Sitemaps protocol 0.9 document and the robots.txt of the site:
    five fixed entries, one `<url>` block per entry in input order, and
    the robots.txt group and records pointing at the sitemap. */
module Sitemap {
  import opened Wrappers
  import opened Text
  import opened Seqs

  datatype ChangeFrequency = Always | Hourly | Daily | Weekly | Monthly | Yearly | Never

  function FrequencyText(f: ChangeFrequency): string {
    match f
    case Always => "always"
    case Hourly => "hourly"
    case Daily => "daily"
    case Weekly => "weekly"
    case Monthly => "monthly"
    case Yearly => "yearly"
    case Never => "never"
  }

  /** A sitemap entry. `lastModified` is the calendar-date part of the
      timestamp's ISO rendering (`YYYY-MM-DD`); `priority` is in tenths. */
  datatype SitemapEntry = SitemapEntry(
    url: string,
    lastModified: Option<string>,
    changeFrequency: Option<ChangeFrequency>,
    priority: Option<nat>)

  /** `generateSitemapEntries`: the home page and its four sections, all
      stamped with `today`. */
  function GenerateSitemapEntries(baseUrl: string, today: string): (r: seq<SitemapEntry>)
    ensures |r| == 5
    ensures r[0].url == baseUrl && r[0].priority == Some(10)
    ensures forall i :: 0 <= i < |r| ==>
              StartsWith(r[i].url, baseUrl) && r[i].lastModified == Some(today)
              && r[i].changeFrequency.Some? && r[i].priority.Some? && 0 < r[i].priority.value <= 10
  {
    [ SitemapEntry(baseUrl, Some(today), Some(Weekly), Some(10)),
      SitemapEntry(baseUrl + "#about", Some(today), Some(Monthly), Some(8)),
      SitemapEntry(baseUrl + "#projects", Some(today), Some(Weekly), Some(9)),
      SitemapEntry(baseUrl + "#articles", Some(today), Some(Weekly), Some(7)),
      SitemapEntry(baseUrl + "#contact", Some(today), Some(Monthly), Some(6)) ]
  }

  // ---------------------------------------------------------------------
  // Field values after the defaults

  /** `entry.lastModified ? ... : ''`. */
  function LastMod(e: SitemapEntry): string {
    if e.lastModified.Some? then e.lastModified.value else []
  }

  /** `entry.changeFrequency || 'monthly'`. */
  function EffectiveFrequency(e: SitemapEntry): ChangeFrequency {
    e.changeFrequency.GetOr(Monthly)
  }

  /** `entry.priority || 0.5`: an absent priority and a zero priority
      both become 0.5. */
  function EffectivePriority(e: SitemapEntry): nat {
    if e.priority.None? || e.priority.value == 0 then 5 else e.priority.value
  }

  /** A priority in tenths as JavaScript prints the number: `1` for 1.0,
      `0.8` for 0.8. */
  function PriorityText(tenths: nat): string {
    var whole := NatToString(tenths / 10);
    if tenths % 10 == 0 then whole else whole + "." + [DigitChar(tenths % 10)]
  }

  /** What one `<url>` block says. */
  datatype UrlFields = UrlFields(loc: string, lastmod: Option<string>, changefreq: string, priority: string)

  function FieldsOf(e: SitemapEntry): (r: UrlFields)
    ensures r.loc == e.url
    ensures r.lastmod.Some? <==> e.lastModified.Some? && e.lastModified.value != []
    ensures e.changeFrequency.None? ==> r.changefreq == "monthly"
    ensures (e.priority.None? || e.priority == Some(0)) ==> r.priority == "0.5"
  {
    UrlFields(e.url,
              if LastMod(e) != [] then Some(LastMod(e)) else None,
              FrequencyText(EffectiveFrequency(e)),
              PriorityText(EffectivePriority(e)))
  }

  // ---------------------------------------------------------------------
  // Rendering

  function Element(name: string, value: string): string {
    "<" + name + ">" + (value + ("</" + name + ">"))
  }

  function LastmodElement(e: SitemapEntry): string {
    if LastMod(e) != [] then Element("lastmod", LastMod(e)) else []
  }

  const Indent := "\n    "
  const UrlOpen := "  <url>" + Indent
  const UrlClose := "\n  </url>"

  /** One entry's `<url>` block: `<loc>` verbatim, `<lastmod>` only when
      there is a date, then `<changefreq>` and `<priority>`. */
  function UrlBlock(e: SitemapEntry): string {
    UrlOpen + (Element("loc", e.url) + (Indent + (LastmodElement(e) + (Indent
    + (Element("changefreq", FrequencyText(EffectiveFrequency(e))) + (Indent
    + (Element("priority", PriorityText(EffectivePriority(e))) + UrlClose)))))))
  }

  const XmlHeader := "<?xml version=\"1.0\" encoding=\"UTF-8\"?>\n<urlset xmlns=\"http://www.sitemaps.org/schemas/sitemap/0.9\">\n"
  const XmlFooter := "\n</urlset>"

  /** `generateSitemapXML`: the blocks joined by newlines inside `<urlset>`. */
  function SitemapXml(entries: seq<SitemapEntry>): string {
    XmlHeader + (Join(Map(entries, UrlBlock), "\n") + XmlFooter)
  }

  // ---------------------------------------------------------------------
  // Reading the document back

  /** `s` without the prefix `p`, if it starts with it. */
  function StripPrefix(s: string, p: string): (r: Option<string>)
    ensures r.Some? ==> |p| <= |s| && |r.value| == |s| - |p|
    decreases p
  {
    if p == [] then Some(s)
    else if s == [] || s[0] != p[0] then None
    else StripPrefix(s[1..], p[1..])
  }

  lemma {:induction false} StripPrefixOf(p: string, rest: string)
    ensures StripPrefix(p + rest, p) == Some(rest)
  {
    if p != [] {
      var s := p + rest;
      assert s[0] == p[0];
      assert s[1..] == p[1..] + rest;
      StripPrefixOf(p[1..], rest);
      assert StripPrefix(s, p) == StripPrefix(s[1..], p[1..]);
    } else {
      assert p + rest == rest;
    }
  }

  lemma Assoc(a: string, b: string, c: string)
    ensures (a + b) + c == a + (b + c)
  {
  }

  /** Reads `<name>value</name>` where the value has no `<`; gives the
      value and what follows. */
  function ReadElement(s: string, name: string): (r: Option<(string, string)>)
    ensures r.Some? ==> |r.value.1| < |s|
  {
    var t :- StripPrefix(s, "<" + name + ">");
    var k := Text.IndexOf(t, '<');
    var rest :- StripPrefix(t[k..], "</" + name + ">");
    Some((t[..k], rest))
  }

  lemma ReadElementOf(name: string, value: string, rest: string)
    requires '<' !in value
    ensures ReadElement(Element(name, value) + rest, name) == Some((value, rest))
  {
    var open := "<" + name + ">";
    var close := "</" + name + ">";
    var t := value + (close + rest);
    Assoc(open, value + close, rest);
    Assoc(value, close, rest);
    StripPrefixOf(open, t);
    assert close + rest == ['<'] + ("/" + name + ">" + rest);
    assert t == value + ['<'] + ("/" + name + ">" + rest);
    IndexOfAfter(value, '<', "/" + name + ">" + rest);
    assert t[|value|..] == close + rest && t[..|value|] == value;
    StripPrefixOf(close, rest);
  }

  /** Reads the block opening and the `<loc>` line. */
  function ReadHead(s: string): (r: Option<(string, string)>)
    ensures r.Some? ==> |r.value.1| < |s|
  {
    var t :- StripPrefix(s, UrlOpen);
    var loc :- ReadElement(t, "loc");
    var rest :- StripPrefix(loc.1, Indent);
    Some((loc.0, rest))
  }

  /** Reads the `<lastmod>` element when the next character opens one. */
  function ReadLastmod(s: string): (r: (Option<string>, string))
    ensures |r.1| <= |s|
  {
    if s != [] && s[0] == '<' then
      match ReadElement(s, "lastmod")
      case Some(m) => (Some(m.0), m.1)
      case None => (None, s)
    else (None, s)
  }

  /** Reads the `<changefreq>` and `<priority>` lines and the block end. */
  function ReadTail(s: string): (r: Option<(string, string, string)>)
    ensures r.Some? ==> |r.value.2| < |s|
  {
    var t :- StripPrefix(s, Indent);
    var freq :- ReadElement(t, "changefreq");
    var u :- StripPrefix(freq.1, Indent);
    var priority :- ReadElement(u, "priority");
    var rest :- StripPrefix(priority.1, UrlClose);
    Some((freq.0, priority.0, rest))
  }

  /** Reads one `<url>` block; gives its fields and what follows. */
  function ReadUrlBlock(s: string): (r: Option<(UrlFields, string)>)
    ensures r.Some? ==> |r.value.1| < |s|
  {
    var head :- ReadHead(s);
    var lastmod := ReadLastmod(head.1);
    var tail :- ReadTail(lastmod.1);
    Some((UrlFields(head.0, lastmod.0, tail.0, tail.1), tail.2))
  }

  /** Reads the blocks up to the closing `</urlset>`. */
  function ReadBlocks(s: string): Option<seq<UrlFields>>
    decreases |s|
  {
    var block :- ReadUrlBlock(s);
    if block.1 == XmlFooter then Some([block.0])
    else
      var t :- StripPrefix(block.1, "\n");
      var more :- ReadBlocks(t);
      Some([block.0] + more)
  }

  function ReadSitemap(s: string): Option<seq<UrlFields>> {
    var body :- StripPrefix(s, XmlHeader);
    if body == XmlFooter then Some([]) else ReadBlocks(body)
  }

  /** The values a block can hold without being misread: no `<` in them. */
  predicate Readable(e: SitemapEntry) {
    '<' !in e.url && '<' !in LastMod(e)
  }

  lemma NoAngleInDigits(s: string)
    requires forall i :: 0 <= i < |s| ==> IsDigit(s[i])
    ensures '<' !in s
  {
  }

  lemma PriorityTextReadable(tenths: nat)
    ensures '<' !in PriorityText(tenths)
  {
    NoAngleInDigits(NatToString(tenths / 10));
    var t := PriorityText(tenths);
    if tenths % 10 != 0 {
      assert t == NatToString(tenths / 10) + ['.', DigitChar(tenths % 10)];
    }
  }

  lemma FrequencyTextReadable(f: ChangeFrequency)
    ensures '<' !in FrequencyText(f) && FrequencyText(f) != []
  {
  }

  lemma HeadRoundTrip(url: string, rest: string)
    requires '<' !in url
    ensures ReadHead(UrlOpen + (Element("loc", url) + (Indent + rest))) == Some((url, rest))
  {
    StripPrefixOf(UrlOpen, Element("loc", url) + (Indent + rest));
    ReadElementOf("loc", url, Indent + rest);
    StripPrefixOf(Indent, rest);
  }

  lemma LastmodRoundTrip(e: SitemapEntry, rest: string)
    requires '<' !in LastMod(e) && rest != [] && rest[0] == '\n'
    ensures ReadLastmod(LastmodElement(e) + rest)
         == (if LastMod(e) != [] then Some(LastMod(e)) else None, rest)
  {
    if LastMod(e) != [] {
      var m := LastMod(e);
      assert (Element("lastmod", m) + rest)[0] == '<';
      ReadElementOf("lastmod", m, rest);
    } else {
      assert LastmodElement(e) + rest == rest;
    }
  }

  lemma TailRoundTrip(freq: string, priority: string, rest: string)
    requires '<' !in freq && '<' !in priority
    ensures ReadTail(Indent + (Element("changefreq", freq) + (Indent + (Element("priority", priority) + (UrlClose + rest)))))
         == Some((freq, priority, rest))
  {
    var u := Element("priority", priority) + (UrlClose + rest);
    StripPrefixOf(Indent, Element("changefreq", freq) + (Indent + u));
    ReadElementOf("changefreq", freq, Indent + u);
    StripPrefixOf(Indent, u);
    ReadElementOf("priority", priority, UrlClose + rest);
    StripPrefixOf(UrlClose, rest);
  }

  lemma UrlBlockRoundTrip(e: SitemapEntry, rest: string)
    requires Readable(e)
    ensures ReadUrlBlock(UrlBlock(e) + rest) == Some((FieldsOf(e), rest))
  {
    var loc := Element("loc", e.url);
    var lm := LastmodElement(e);
    var freq := FrequencyText(EffectiveFrequency(e));
    var prio := PriorityText(EffectivePriority(e));
    var cf := Element("changefreq", freq);
    var pr := Element("priority", prio);
    FrequencyTextReadable(EffectiveFrequency(e));
    PriorityTextReadable(EffectivePriority(e));
    var x7 := pr + UrlClose;
    var x6 := Indent + x7;
    var x5 := cf + x6;
    var x4 := Indent + x5;
    var x3 := lm + x4;
    var x2 := Indent + x3;
    var x1 := loc + x2;
    assert UrlBlock(e) == UrlOpen + x1;
    var r7 := pr + (UrlClose + rest);
    var r6 := Indent + r7;
    var r5 := cf + r6;
    var r4 := Indent + r5;
    var r3 := lm + r4;
    var r2 := Indent + r3;
    var r1 := loc + r2;
    Assoc(pr, UrlClose, rest);
    Assoc(Indent, x7, rest);
    Assoc(cf, x6, rest);
    Assoc(Indent, x5, rest);
    Assoc(lm, x4, rest);
    Assoc(Indent, x3, rest);
    Assoc(loc, x2, rest);
    Assoc(UrlOpen, x1, rest);
    assert UrlBlock(e) + rest == UrlOpen + r1;
    HeadRoundTrip(e.url, r3);
    assert r4[0] == '\n';
    LastmodRoundTrip(e, r4);
    TailRoundTrip(freq, prio, rest);
  }

  lemma UrlBlockStart(e: SitemapEntry)
    ensures UrlBlock(e) != [] && UrlBlock(e)[0] == ' '
  {
    assert UrlOpen[0] == ' ';
  }

  /** The last block, followed by the closing tag. */
  lemma ReadLastBlock(e: SitemapEntry)
    requires Readable(e)
    ensures ReadBlocks(UrlBlock(e) + XmlFooter) == Some([FieldsOf(e)])
  {
    UrlBlockRoundTrip(e, XmlFooter);
  }

  lemma FooterShape()
    ensures |XmlFooter| > 1 && XmlFooter[0] == '\n' && XmlFooter[1] == '<'
  {
  }

  /** A block followed by a newline and a further block. */
  lemma ReadBlockThen(e: SitemapEntry, tail: string)
    requires Readable(e) && tail != [] && tail[0] == ' '
    ensures ReadBlocks(UrlBlock(e) + ("\n" + tail))
         == (if ReadBlocks(tail).Some? then Some([FieldsOf(e)] + ReadBlocks(tail).value) else None)
  {
    var u := "\n" + tail;
    UrlBlockRoundTrip(e, u);
    FooterShape();
    assert u[1] == ' ';
    StripPrefixOf("\n", tail);
    assert StripPrefix(u, "\n") == Some(tail);
  }

  lemma JoinStep(parts: seq<string>, footer: string)
    requires |parts| >= 2
    ensures Join(parts, "\n") + footer == parts[0] + ("\n" + (Join(parts[1..], "\n") + footer))
  {
    Assoc(parts[0] + "\n", Join(parts[1..], "\n"), footer);
    Assoc(parts[0], "\n", Join(parts[1..], "\n") + footer);
  }

  lemma JoinStart(parts: seq<string>, footer: string)
    requires parts != [] && parts[0] != []
    ensures (Join(parts, "\n") + footer)[0] == parts[0][0]
  {
    if |parts| >= 2 {
      JoinStep(parts, footer);
    }
  }

  /** One entry: its block, then the closing tag. */
  lemma ReadBlocksSingle(entries: seq<SitemapEntry>)
    requires |entries| == 1 && Readable(entries[0])
    ensures ReadBlocks(Join(Map(entries, UrlBlock), "\n") + XmlFooter) == Some(Map(entries, FieldsOf))
  {
    var e := entries[0];
    MapTail(entries, UrlBlock);
    MapTail(entries, FieldsOf);
    ReadLastBlock(e);
    assert Map(entries, UrlBlock) == [UrlBlock(e)] && Map(entries, FieldsOf) == [FieldsOf(e)];
    assert Join(Map(entries, UrlBlock), "\n") == UrlBlock(e);
  }

  /** The body of a sitemap with entries: its blocks joined by newlines,
      then the closing tag. */
  function Body(entries: seq<SitemapEntry>): string {
    Join(Map(entries, UrlBlock), "\n") + XmlFooter
  }

  /** Two or more entries: the first block, a newline, then the body of the
      rest. */
  lemma BodyStep(entries: seq<SitemapEntry>)
    requires |entries| >= 2
    ensures Body(entries) == UrlBlock(entries[0]) + ("\n" + Body(entries[1..]))
  {
    MapTail(entries, UrlBlock);
    JoinStep(Map(entries, UrlBlock), XmlFooter);
  }

  /** The body of one or more entries starts with the indented `<url>`. */
  lemma BodyStart(entries: seq<SitemapEntry>)
    requires |entries| >= 1
    ensures Body(entries) != [] && Body(entries)[0] == ' '
  {
    MapTail(entries, UrlBlock);
    UrlBlockStart(entries[0]);
    JoinStart(Map(entries, UrlBlock), XmlFooter);
  }

  /** A readable block, a newline and a readable rest. */
  lemma ReadBlocksCons(e: SitemapEntry, whole: string, tail: string, rest: seq<UrlFields>, all: seq<UrlFields>)
    requires Readable(e) && tail != [] && tail[0] == ' ' && ReadBlocks(tail) == Some(rest)
    requires whole == UrlBlock(e) + ("\n" + tail) && all == [FieldsOf(e)] + rest
    ensures ReadBlocks(whole) == Some(all)
  {
    ReadBlockThen(e, tail);
  }

  lemma {:induction false} ReadBlocksRoundTrip(entries: seq<SitemapEntry>)
    requires entries != []
    requires forall i :: 0 <= i < |entries| ==> Readable(entries[i])
    ensures ReadBlocks(Join(Map(entries, UrlBlock), "\n") + XmlFooter) == Some(Map(entries, FieldsOf))
  {
    if |entries| == 1 {
      ReadBlocksSingle(entries);
    } else {
      ReadBlocksRoundTrip(entries[1..]);
      BodyStep(entries);
      BodyStart(entries[1..]);
      MapCons(entries, FieldsOf);
      ReadBlocksCons(entries[0], Body(entries), Body(entries[1..]),
                     Map(entries[1..], FieldsOf), Map(entries, FieldsOf));
    }
  }

  /** Reading the document gives back every entry's fields, in input
      order, when no URL or date holds a `<`. */
  lemma SitemapRoundTrip(entries: seq<SitemapEntry>)
    requires forall i :: 0 <= i < |entries| ==> Readable(entries[i])
    ensures ReadSitemap(SitemapXml(entries)) == Some(Map(entries, FieldsOf))
  {
    var body := Join(Map(entries, UrlBlock), "\n") + XmlFooter;
    StripPrefixOf(XmlHeader, body);
    assert StripPrefix(SitemapXml(entries), XmlHeader) == Some(body);
    if entries == [] {
      assert Map(entries, UrlBlock) == [];
      assert body == XmlFooter;
      assert Map(entries, FieldsOf) == [];
    } else {
      ReadBlocksRoundTrip(entries);
      MapTail(entries, UrlBlock);
      UrlBlockStart(entries[0]);
      JoinStart(Map(entries, UrlBlock), XmlFooter);
      FooterShape();
      assert body[0] != XmlFooter[0];
      assert ReadSitemap(SitemapXml(entries)) == ReadBlocks(body);
    }
  }

  /** The five generated priorities as JavaScript prints them. */
  lemma GeneratedPriorities()
    ensures PriorityText(10) == "1" && PriorityText(8) == "0.8" && PriorityText(9) == "0.9"
    ensures PriorityText(7) == "0.7" && PriorityText(6) == "0.6"
  {
    assert NatToString(0) == "0" && NatToString(1) == "1";
  }

  /** No generated URL or date holds a `<` when the base URL and the date
      do not. */
  lemma GeneratedReadable(baseUrl: string, today: string)
    requires '<' !in baseUrl && '<' !in today
    ensures forall i :: 0 <= i < 5 ==> Readable(GenerateSitemapEntries(baseUrl, today)[i])
  {
    var entries := GenerateSitemapEntries(baseUrl, today);
    var suffixes := ["", "#about", "#projects", "#articles", "#contact"];
    forall i | 0 <= i < 5 ensures Readable(entries[i]) {
      assert entries[i].url == baseUrl + suffixes[i];
      assert '<' !in suffixes[i];
    }
  }

  /** What each generated `<url>` block says. */
  lemma GeneratedFields(baseUrl: string, today: string)
    requires today != []
    ensures Map(GenerateSitemapEntries(baseUrl, today), FieldsOf)
         == [ UrlFields(baseUrl, Some(today), "weekly", "1"),
              UrlFields(baseUrl + "#about", Some(today), "monthly", "0.8"),
              UrlFields(baseUrl + "#projects", Some(today), "weekly", "0.9"),
              UrlFields(baseUrl + "#articles", Some(today), "weekly", "0.7"),
              UrlFields(baseUrl + "#contact", Some(today), "monthly", "0.6") ]
  {
    GeneratedPriorities();
  }

  /** The generated sitemap reads back as the five pages in order, each
      stamped with `today`, with the frequencies and the priorities as
      JavaScript prints them. */
  lemma GeneratedSitemap(baseUrl: string, today: string)
    requires '<' !in baseUrl && '<' !in today && today != []
    ensures ReadSitemap(SitemapXml(GenerateSitemapEntries(baseUrl, today)))
         == Some([ UrlFields(baseUrl, Some(today), "weekly", "1"),
                   UrlFields(baseUrl + "#about", Some(today), "monthly", "0.8"),
                   UrlFields(baseUrl + "#projects", Some(today), "weekly", "0.9"),
                   UrlFields(baseUrl + "#articles", Some(today), "weekly", "0.7"),
                   UrlFields(baseUrl + "#contact", Some(today), "monthly", "0.6") ])
  {
    GeneratedReadable(baseUrl, today);
    SitemapRoundTrip(GenerateSitemapEntries(baseUrl, today));
    GeneratedFields(baseUrl, today);
  }

  predicate AllDigits(s: string) {
    forall i :: 0 <= i < |s| ==> IsDigit(s[i])
  }

  /** Reads a priority back into tenths. */
  function ParsePriority(s: string): Option<nat> {
    var k := Text.IndexOf(s, '.');
    if k == |s| then
      if s != [] && AllDigits(s) then Some(ParseNat(s) * 10) else None
    else if 0 < k && |s| == k + 2 && IsDigit(s[k + 1]) && s[k + 1] != '0' && AllDigits(s[..k]) then
      Some(ParseNat(s[..k]) * 10 + DigitValue(s[k + 1]))
    else None
  }

  lemma WholeDigits(n: nat)
    ensures AllDigits(NatToString(n)) && NatToString(n) != [] && '.' !in NatToString(n)
  {
  }

  lemma PriorityWhole(q: nat)
    ensures ParsePriority(NatToString(q)) == Some(q * 10)
  {
    WholeDigits(q);
    ParseNatToString(q);
  }

  lemma PriorityFraction(q: nat, d: nat)
    requires 0 < d < 10
    ensures ParsePriority(NatToString(q) + "." + [DigitChar(d)]) == Some(q * 10 + d)
  {
    var whole := NatToString(q);
    var c := DigitChar(d);
    var s := whole + "." + [c];
    WholeDigits(q);
    ParseNatToString(q);
    assert s == whole + ['.'] + [c];
    IndexOfAfter(whole, '.', [c]);
    assert s[..|whole|] == whole && s[|whole| + 1] == c;
  }

  /** The printed priority reads back as the priority. */
  lemma PriorityRoundTrip(tenths: nat)
    ensures ParsePriority(PriorityText(tenths)) == Some(tenths)
  {
    var q, d := tenths / 10, tenths % 10;
    assert tenths == q * 10 + d;
    if d == 0 {
      PriorityWhole(q);
    } else {
      PriorityFraction(q, d);
    }
  }

  // ---------------------------------------------------------------------
  // robots.txt

  /** The lines of `generateRobotsTxt`: the `User-agent: *` / `Allow: /`
      group (section 2.2.2 of RFC 9309), then the `Sitemap` and
      `Crawl-delay` records (section 2.2.4 of RFC 9309, other records). */
  function RobotsLines(baseUrl: string): seq<string> {
    [ "User-agent: *",
      "Allow: /",
      "",
      "# Sitemap",
      "Sitemap: " + baseUrl + "/sitemap.xml",
      "",
      "# Crawl-delay for respectful crawling",
      "Crawl-delay: 1" ]
  }

  function RobotsTxt(baseUrl: string): string {
    Join(RobotsLines(baseUrl), "\n")
  }

  /** The file's lines are exactly the group and the records, in order,
      for a base URL without a line break. */
  lemma RobotsTxtLines(baseUrl: string)
    requires '\n' !in baseUrl
    ensures Split(RobotsTxt(baseUrl), '\n') == RobotsLines(baseUrl)
    ensures Split(RobotsTxt(baseUrl), '\n')[..2] == ["User-agent: *", "Allow: /"]
    ensures Split(RobotsTxt(baseUrl), '\n')[4] == "Sitemap: " + baseUrl + "/sitemap.xml"
  {
    var lines := RobotsLines(baseUrl);
    forall i | 0 <= i < |lines| ensures '\n' !in lines[i] {
      if i == 4 {
        assert lines[4] == "Sitemap: " + baseUrl + "/sitemap.xml";
      }
    }
    SplitJoin(lines, '\n');
  }
}
