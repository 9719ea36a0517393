/** The article source (`src/lib/medium.ts`): text extraction from the feed's
    HTML descriptions, the read-time estimate, the two record conversions,
    the select / sort / slice pipeline, a retry loop of the same shape as the
    repository source's (without the rate-limit wait), and the time-boxed
    article cache with `getCachedArticles` on top of it.

    As in the repository source, attempt number `k` of a run is answered by
    `attempts[k]` and the clock is the explicit `now`. */
module Medium {
  import opened Wrappers
  import opened Text
  import opened Seqs
  import opened Ranking
  import opened Content
  import opened RateLimit
  import opened Retry

  /** The configured values the module reads. `development` stands for
      `NODE_ENV === 'development'`. */
  datatype MediumConfig = MediumConfig(
    username: string,
    maxArticles: nat,
    featuredArticles: seq<string>,
    development: bool)

  /** Five minutes in development, an hour otherwise. */
  function CacheTimeoutSec(development: bool): nat {
    if development then 300 else 3600
  }

  /** The feed address for a user. */
  function FeedUrl(username: string): string {
    "https://medium.com/feed/@" + username
  }

  // ---------------------------------------------------------------- HTML text

  /** `s.replace(/<[^>]*>/g, '')`: from each `<`, the shortest run ending in
      `>` is removed; a `<` with no `>` after it stays. */
  function StripTags(s: string): (r: string)
    ensures |r| <= |s|
    ensures '<' !in s || '>' !in s ==> r == s
    decreases |s|
  {
    if s == [] then []
    else if s[0] == '<' && '>' in s[1..] then StripTags(s[Text.IndexOf(s[1..], '>') + 2..])
    else [s[0]] + StripTags(s[1..])
  }

  /** No `<` is followed, anywhere later, by a `>`: nothing tag-shaped is left. */
  ghost predicate TagFree(s: string) {
    forall i, j :: 0 <= i < j < |s| && s[i] == '<' ==> s[j] != '>'
  }

  /** Text with no `>` is tag-free. */
  lemma NoCloseTagFree(s: string)
    requires '>' !in s
    ensures TagFree(s)
  {
    forall i, j | 0 <= i < j < |s| && s[i] == '<' ensures s[j] != '>' {
      assert s[j] in s;
    }
  }

  /** A character other than `<` in front keeps text tag-free. */
  lemma ConsTagFree(c: char, rest: string)
    requires c != '<' && TagFree(rest)
    ensures TagFree([c] + rest)
  {
    var r := [c] + rest;
    forall i, j | 0 <= i < j < |r| && r[i] == '<' ensures r[j] != '>' {
      assert r[i] == rest[i - 1] && r[j] == rest[j - 1];
    }
  }

  lemma {:induction false} StripTagsTagFree(s: string)
    ensures TagFree(StripTags(s))
    decreases |s|
  {
    if s == [] {
    } else if s[0] == '<' && '>' in s[1..] {
      StripTagsTagFree(s[Text.IndexOf(s[1..], '>') + 2..]);
    } else if s[0] == '<' {
      assert s == [s[0]] + s[1..];
      assert '>' !in s;
      NoCloseTagFree(s);
    } else {
      StripTagsTagFree(s[1..]);
      assert StripTags(s) == [s[0]] + StripTags(s[1..]);
      ConsTagFree(s[0], StripTags(s[1..]));
    }
  }

  /** The six entity replacements, applied one after another in this order. */
  function DecodeEntities(s: string): string {
    var s1 := ReplaceAll(s, "&nbsp;", " ");
    var s2 := ReplaceAll(s1, "&amp;", "&");
    var s3 := ReplaceAll(s2, "&lt;", "<");
    var s4 := ReplaceAll(s3, "&gt;", ">");
    var s5 := ReplaceAll(s4, "&quot;", "\"");
    ReplaceAll(s5, "&#39;", "'")
  }

  /** Text without an ampersand has no entity to decode. */
  lemma DecodeWithoutAmpersand(s: string)
    requires '&' !in s
    ensures DecodeEntities(s) == s
  {
    ReplaceAllAbsent(s, "&nbsp;", " ");
    ReplaceAllAbsent(s, "&amp;", "&");
    ReplaceAllAbsent(s, "&lt;", "<");
    ReplaceAllAbsent(s, "&gt;", ">");
    ReplaceAllAbsent(s, "&quot;", "\"");
    ReplaceAllAbsent(s, "&#39;", "'");
  }

  /** Each white-space character is a plain space and starts no run of two. */
  predicate SingleSpaced(s: string) {
    forall i :: 0 <= i < |s| && IsSpace(s[i]) ==> s[i] == ' ' && (i + 1 < |s| ==> !IsSpace(s[i + 1]))
  }

  /** `s.replace(/\s+/g, ' ')`. */
  function CollapseSpace(s: string): (r: string)
    ensures |r| <= |s|
    ensures SingleSpaced(r)
    ensures s != [] ==> r != [] && (IsSpace(r[0]) <==> IsSpace(s[0]))
    decreases |s|
  {
    if s == [] then []
    else if IsSpace(s[0]) then
      TrimStartShape(s[1..]);
      [' '] + CollapseSpace(TrimStart(s[1..]))
    else [s[0]] + CollapseSpace(s[1..])
  }

  /** A slice of a single-spaced string is single-spaced. */
  lemma SliceSingleSpaced(s: string, a: nat, b: nat)
    requires SingleSpaced(s) && a <= b <= |s|
    ensures SingleSpaced(s[a..b])
  {
    var r := s[a..b];
    forall i | 0 <= i < |r| && IsSpace(r[i]) ensures r[i] == ' ' && (i + 1 < |r| ==> !IsSpace(r[i + 1])) {
      assert r[i] == s[a + i];
      if i + 1 < |r| {
        assert r[i + 1] == s[a + i + 1];
      }
    }
  }

  /** Trimming a single-spaced string keeps it single-spaced. */
  lemma TrimSingleSpaced(s: string)
    requires SingleSpaced(s)
    ensures SingleSpaced(Trim(s))
  {
    var t := TrimStart(s);
    TrimStartShape(s);
    TrimEndShape(t);
    SliceSingleSpaced(s, |s| - |t|, |s|);
    SliceSingleSpaced(t, 0, |TrimEnd(t)|);
  }

  /** Text without white space is not changed by collapsing. */
  lemma CollapseNoSpace(s: string)
    requires NoSpace(s)
    ensures CollapseSpace(s) == s
  {
    if s != [] {
      CollapseNoSpace(s[1..]);
      assert s == [s[0]] + s[1..];
    }
  }

  /** Text without white space at its ends is not changed by trimming. */
  lemma TrimVisibleEnds(s: string)
    requires s != [] && !IsSpace(s[0]) && !IsSpace(s[|s| - 1])
    ensures Trim(s) == s
  {
    assert TrimStart(s) == s;
  }

  /** `extractTextFromHTML`. */
  function ExtractText(html: string): string {
    Trim(CollapseSpace(DecodeEntities(StripTags(html))))
  }

  /** The extracted text has no white space at either end and no two white-space
      characters in a row; each one left is a plain space. */
  lemma ExtractTextClean(html: string)
    ensures var r := ExtractText(html);
            (r == [] || (!IsSpace(r[0]) && !IsSpace(r[|r| - 1]))) && SingleSpaced(r)
  {
    TrimSingleSpaced(CollapseSpace(DecodeEntities(StripTags(html))));
    TrimShape(CollapseSpace(DecodeEntities(StripTags(html))));
  }

  lemma NoMatchAtSecond(x: string, pat: string)
    requires |pat| >= 2 && |x| >= 2 && x[1] != pat[1]
    ensures !StartsWith(x, pat)
  {
  }

  /** An ampersand that does not begin the entity is kept. */
  lemma LoneAmpersand(r: string, pat: string, rep: string)
    requires |pat| >= 2 && pat[0] == '&' && '&' !in r && (r == [] || r[0] != pat[1])
    ensures ReplaceAll("&" + r, pat, rep) == "&" + r
  {
    if r != [] {
      NoMatchAtSecond("&" + r, pat);
    } else {
      assert !StartsWith("&", pat);
    }
    ReplaceAllSkip('&', r, pat, rep);
    ReplaceAllAbsent(r, pat, rep);
  }

  lemma TwoAmpersands(r1: string, r2: string, pat: string, rep: string)
    requires |pat| >= 2 && pat[0] == '&' && '&' !in r1 && '&' !in r2
    requires r1 != [] && r1[0] != pat[1] && (r2 == [] || r2[0] != pat[1])
    ensures ReplaceAll("&" + r1 + "&" + r2, pat, rep) == "&" + r1 + "&" + r2
  {
    var x := "&" + r1 + "&" + r2;
    assert x == ['&'] + (r1 + ("&" + r2));
    NoMatchAtSecond(x, pat);
    ReplaceAllSkip('&', r1 + ("&" + r2), pat, rep);
    ReplaceAllAppend(r1, "&" + r2, pat, rep);
    LoneAmpersand(r2, pat, rep);
  }

  lemma EscapedTagOtherPass(t: string, pat: string, rep: string)
    requires '&' !in t && |pat| >= 2 && pat[0] == '&' && pat[1] != 'l' && pat[1] != 'g'
    ensures ReplaceAll("&lt;" + t + "&gt;", pat, rep) == "&lt;" + t + "&gt;"
  {
    EscapeLiterals();
    assert "&lt;" + t + "&gt;" == "&" + ("lt;" + t) + "&" + "gt;";
    TwoAmpersands("lt;" + t, "gt;", pat, rep);
  }

  /** The characters of the escaped-bracket literals the passes look at. */
  lemma EscapeLiterals()
    ensures |"&lt;"| == 4 && "&lt;"[0] == '&' && "&lt;"[1] == 'l'
    ensures |"&gt;"| == 4 && "&gt;"[0] == '&' && "&gt;"[1] == 'g'
    ensures "gt;"[0] == 'g' && '&' !in "gt;" && "lt;"[0] == 'l' && '&' !in "lt;"
  {
  }

  lemma EscapedTagLtPass(t: string)
    requires '&' !in t
    ensures ReplaceAll("&lt;" + t + "&gt;", "&lt;", "<") == "<" + t + "&gt;"
  {
    EscapeLiterals();
    assert "&lt;" + t + "&gt;" == "&lt;" + (t + "&gt;");
    ReplaceAllMatch(t + "&gt;", "&lt;", "<");
    ReplaceAllAppend(t, "&gt;", "&lt;", "<");
    LoneAmpersand("gt;", "&lt;", "<");
  }

  lemma EscapedTagGtPass(t: string)
    requires '&' !in t
    ensures ReplaceAll("<" + t + "&gt;", "&gt;", ">") == "<" + t + ">"
  {
    EscapeLiterals();
    assert "<" + t + "&gt;" == ("<" + t) + ("&gt;" + []);
    ReplaceAllAppend("<" + t, "&gt;" + [], "&gt;", ">");
    ReplaceAllMatch([], "&gt;", ">");
  }

  lemma DecodeEscapedTag(t: string)
    requires '&' !in t
    ensures DecodeEntities("&lt;" + t + "&gt;") == "<" + t + ">"
  {
    EscapedTagOtherPass(t, "&nbsp;", " ");
    EscapedTagOtherPass(t, "&amp;", "&");
    EscapedTagLtPass(t);
    EscapedTagGtPass(t);
    ReplaceAllAbsent("<" + t + ">", "&quot;", "\"");
    ReplaceAllAbsent("<" + t + ">", "&#39;", "'");
  }

  /** Decoding comes after tag removal, so an escaped tag survives as a tag:
      `&lt;b&gt;` gives `<b>`. */
  lemma EscapedTagSurvives(t: string)
    requires '&' !in t && '<' !in t && '>' !in t && NoSpace(t)
    ensures ExtractText("&lt;" + t + "&gt;") == "<" + t + ">"
  {
    assert '<' !in "&lt;" + t + "&gt;";
    DecodeEscapedTag(t);
    CollapseNoSpace("<" + t + ">");
    TrimVisibleEnds("<" + t + ">");
  }

  lemma DoubleEscapeNbspPass(t: string)
    requires '&' !in t
    ensures ReplaceAll("&amp;lt;" + t, "&nbsp;", " ") == "&amp;lt;" + t
  {
    var rest := "amp;lt;" + t;
    assert "&amp;lt;" + t == "&" + rest;
    assert '&' !in rest && rest[0] == 'a';
    assert "&nbsp;"[0] == '&' && "&nbsp;"[1] == 'n';
    LoneAmpersand(rest, "&nbsp;", " ");
  }

  lemma DoubleEscapeAmpPass(t: string)
    requires '&' !in t
    ensures ReplaceAll("&amp;lt;" + t, "&amp;", "&") == "&lt;" + t
  {
    var rest := "lt;" + t;
    assert "&amp;lt;" + t == "&amp;" + rest;
    assert ReplaceAll("&amp;" + rest, "&amp;", "&") == "&" + ReplaceAll(rest, "&amp;", "&") by {
      ReplaceAllMatch(rest, "&amp;", "&");
    }
    assert ReplaceAll(rest, "&amp;", "&") == rest by {
      assert '&' !in rest;
      ReplaceAllAbsent(rest, "&amp;", "&");
    }
    assert "&" + rest == "&lt;" + t;
  }

  /** The ampersand entity is decoded before the others, so a doubly escaped
      entity is decoded twice: `&amp;lt;` gives `<`. */
  lemma DoubleEscapeDecodedTwice(t: string)
    requires '&' !in t
    ensures DecodeEntities("&amp;lt;" + t) == "<" + t
  {
    DoubleEscapeNbspPass(t);
    DoubleEscapeAmpPass(t);
    ReplaceAllMatch(t, "&lt;", "<");
    ReplaceAllAbsent(t, "&lt;", "<");
    ReplaceAllAbsent("<" + t, "&gt;", ">");
    ReplaceAllAbsent("<" + t, "&quot;", "\"");
    ReplaceAllAbsent("<" + t, "&#39;", "'");
  }

  // ---------------------------------------------------------------- read time

  /** `s.split(/\s+/)`: the pieces between white-space runs; a leading or
      trailing run gives an empty piece, and the empty string one empty piece. */
  function SplitSpaces(s: string): (r: seq<string>)
    ensures |r| >= 1
    ensures forall k :: 0 <= k < |r| ==> NoSpace(r[k])
    decreases |s|
  {
    if s == [] then [[]]
    else if IsSpace(s[0]) then [[]] + SplitSpaces(TrimStart(s[1..]))
    else
      var rest := SplitSpaces(s[1..]);
      [[s[0]] + rest[0]] + rest[1..]
  }

  lemma JoinConsHead(c: char, parts: seq<string>, sep: string)
    requires parts != []
    ensures Join([[c] + parts[0]] + parts[1..], sep) == [c] + Join(parts, sep)
  {
    var q := [[c] + parts[0]] + parts[1..];
    assert q[1..] == parts[1..];
  }

  /** Splitting at white-space runs and joining with single spaces is the
      same as collapsing the runs. */
  lemma {:induction false} SplitJoinCollapse(s: string)
    ensures Join(SplitSpaces(s), " ") == CollapseSpace(s)
    decreases |s|
  {
    if s == [] {
    } else if IsSpace(s[0]) {
      var t := TrimStart(s[1..]);
      SplitJoinCollapse(t);
      var p := SplitSpaces(t);
      assert ([[]] + p)[1..] == p;
    } else {
      SplitJoinCollapse(s[1..]);
      JoinConsHead(s[0], SplitSpaces(s[1..]), " ");
    }
  }

  function Max(a: int, b: int): int {
    if a >= b then a else b
  }

  /** `s.split(/\s+/).length`. */
  function WordCount(s: string): (n: nat)
    ensures n >= 1
  {
    |SplitSpaces(s)|
  }

  /** `calculateReadTime`: minutes at 200 words a minute, rounded up, and at
      least one. */
  function ReadTime(content: string): (m: nat)
    ensures m >= 1
    ensures (m - 1) * 200 < WordCount(content) <= m * 200
  {
    Max(1, (WordCount(content) + 199) / 200)
  }

  lemma SplitSpacesNoSpace(w: string)
    requires NoSpace(w)
    ensures SplitSpaces(w) == [w]
    decreases |w|
  {
    if w != [] {
      SplitSpacesNoSpace(w[1..]);
      assert [w[0]] + w[1..] == w;
    }
  }

  lemma {:induction false} SplitSpacesCount(w: string, t: string)
    requires NoSpace(w) && t != [] && !IsSpace(t[0])
    ensures |SplitSpaces(w + " " + t)| == 1 + |SplitSpaces(t)|
    decreases |w|
  {
    var s := w + " " + t;
    if w == [] {
      assert s == [' '] + t && s[1..] == t;
    } else {
      assert s[0] == w[0] && s[1..] == w[1..] + " " + t;
      SplitSpacesCount(w[1..], t);
    }
  }

  /** Words are non-empty and contain no white space. */
  predicate AreWords(words: seq<string>) {
    forall k :: 0 <= k < |words| ==> words[k] != [] && NoSpace(words[k])
  }

  /** Single-spaced words count as themselves. */
  lemma {:induction false} WordCountOfWords(words: seq<string>)
    requires words != [] && AreWords(words)
    ensures WordCount(Join(words, " ")) == |words|
  {
    if |words| == 1 {
      SplitSpacesNoSpace(words[0]);
    } else {
      var rest := words[1..];
      WordCountOfWords(rest);
      var j := Join(rest, " ");
      assert j[0] == rest[0][0] by {
        if |rest| > 1 {
          assert j == rest[0] + " " + Join(rest[1..], " ");
        }
      }
      SplitSpacesCount(words[0], j);
    }
  }

  /** 400 words read in two minutes, 401 in three, and the empty text in one. */
  lemma ReadTimeExamples(words: seq<string>)
    requires AreWords(words)
    ensures |words| == 400 ==> ReadTime(Join(words, " ")) == 2
    ensures |words| == 401 ==> ReadTime(Join(words, " ")) == 3
    ensures ReadTime("") == 1
  {
    assert WordCount("") == 1;
    if |words| >= 1 {
      WordCountOfWords(words);
    }
  }

  // ---------------------------------------------------------------- image

  /** The longest prefix of `s` free of `"` and `>`: what `[^">]+` takes. */
  function AttrRun(s: string): (r: string)
    ensures |r| <= |s| && r == s[..|r|]
    ensures forall i :: 0 <= i < |r| ==> r[i] != '"' && r[i] != '>'
    ensures |r| < |s| ==> s[|r|] == '"' || s[|r|] == '>'
  {
    if s != [] && s[0] != '"' && s[0] != '>' then [s[0]] + AttrRun(s[1..]) else []
  }

  /** `src="([^">]+)"` matched at the start of `s`, giving the capture. */
  function SrcAt(s: string): (r: Option<string>)
    ensures r.Some? ==> r.value != [] && StartsWith(s, "src=\"" + r.value + "\"")
    ensures r.Some? ==> forall i :: 0 <= i < |r.value| ==> r.value[i] != '"' && r.value[i] != '>'
  {
    if StartsWith(s, "src=\"") then
      var run := AttrRun(s[5..]);
      if run != [] && 5 + |run| < |s| && s[5 + |run|] == '"' then
        assert s[..5 + |run| + 1] == "src=\"" + run + "\"" by {
          assert s[..5] == "src=\"" && s[5..5 + |run|] == run;
          assert s[..5 + |run| + 1] == s[..5] + s[5..5 + |run|] + [s[5 + |run|]];
        }
        Some(run)
      else None
    else None
  }

  /** The capture at the largest start position in `[lo, hi)`: the greedy
      `[^>]+` before `src=` gives the last `src="…"` that matches. */
  function LastSrc(s: string, lo: nat, hi: nat): (r: Option<string>)
    requires hi <= |s|
    ensures r.Some? ==> exists j :: lo <= j < hi && SrcAt(s[j..]) == r
    decreases hi
  {
    if hi <= lo then None
    else if SrcAt(s[hi - 1..]).Some? then SrcAt(s[hi - 1..])
    else LastSrc(s, lo, hi - 1)
  }

  /** The pattern matched at the start of `s`: `<img`, at least one character
      that is not `>`, then `src="…"` before the first `>`. */
  function ImgAt(s: string): (r: Option<string>)
    ensures r.Some? ==> StartsWith(s, "<img") && exists j :: 5 <= j < |s| && SrcAt(s[j..]) == r
  {
    if StartsWith(s, "<img") then LastSrc(s, 5, 4 + Text.IndexOf(s[4..], '>')) else None
  }

  /** `extractImageFromDescription`: the capture of the leftmost match. */
  function ExtractImage(description: string): (r: Option<string>)
    ensures r.Some? ==> r.value != [] && forall i :: 0 <= i < |r.value| ==> r.value[i] != '"' && r.value[i] != '>'
    decreases |description|
  {
    if description == [] then None
    else if ImgAt(description).Some? then ImgAt(description)
    else ExtractImage(description[1..])
  }

  lemma OccursShift(s: string, p: string, k: int)
    requires s != [] && OccursAt(s[1..], p, k)
    ensures OccursAt(s, p, k + 1)
  {
    assert s[k + 1..k + 1 + |p|] == s[1..][k..k + |p|];
  }

  lemma SrcOccurs(s: string, j: nat)
    requires j < |s| && SrcAt(s[j..]).Some?
    ensures OccursAt(s, "src=\"" + SrcAt(s[j..]).value + "\"", j)
  {
    var pat := "src=\"" + SrcAt(s[j..]).value + "\"";
    assert StartsWith(s[j..], pat);
    assert s[j..][..|pat|] == s[j..j + |pat|];
  }

  lemma ImgAtOccurs(s: string)
    requires ImgAt(s).Some?
    ensures OccursAt(s, "<img", 0)
    ensures exists j :: 0 < j && OccursAt(s, "src=\"" + ImgAt(s).value + "\"", j)
  {
    assert StartsWith(s, "<img");
    assert s[0..4] == s[..4];
    var j :| 5 <= j < |s| && SrcAt(s[j..]) == ImgAt(s);
    SrcOccurs(s, j);
  }

  /** A found image address appears in the description as `src="<address>"`,
      after an `<img`. */
  lemma {:induction false} ExtractImageSound(description: string)
    ensures var r := ExtractImage(description);
            r.Some? ==> exists i, j :: 0 <= i < j && OccursAt(description, "<img", i)
                                     && OccursAt(description, "src=\"" + r.value + "\"", j)
    decreases |description|
  {
    var d := description;
    var r := ExtractImage(d);
    if d != [] && r.Some? {
      var pat := "src=\"" + r.value + "\"";
      if ImgAt(d).Some? {
        ImgAtOccurs(d);
        var j :| 0 < j && OccursAt(d, pat, j);
        assert OccursAt(d, "<img", 0);
      } else {
        ExtractImageSound(d[1..]);
        var i, j :| 0 <= i < j && OccursAt(d[1..], "<img", i) && OccursAt(d[1..], pat, j);
        OccursShift(d, "<img", i);
        OccursShift(d, pat, j);
      }
    }
  }

  /** Without an `<img` there is no image. */
  lemma {:induction false} ExtractImageNeedsImg(description: string)
    requires forall i :: !OccursAt(description, "<img", i)
    ensures ExtractImage(description) == None
    decreases |description|
  {
    var d := description;
    if d != [] {
      if ImgAt(d).Some? {
        ImgAtOccurs(d);
      }
      forall i | OccursAt(d[1..], "<img", i) ensures false {
        OccursShift(d, "<img", i);
      }
      ExtractImageNeedsImg(d[1..]);
    }
  }

  /** An address as the pattern's capture can be: non-empty, without `"` or `>`. */
  predicate IsAddress(url: string) {
    url != [] && forall i :: 0 <= i < |url| ==> url[i] != '"' && url[i] != '>'
  }

  /** An image tag whose only attribute is the address. */
  function ImgTag(url: string): string {
    "<img src=\"" + url + "\">"
  }

  lemma ImgTagChars(url: string)
    ensures var s := ImgTag(url);
            |s| == |url| + 12 && s[..4] == "<img" && s[4..10] == " src=\""
            && (forall i :: 10 <= i < |s| - 2 ==> s[i] == url[i - 10])
            && s[|s| - 2] == '"' && s[|s| - 1] == '>'
            && s[10..] == url + "\">"
  {
  }

  lemma ImgTagEnd(url: string)
    requires IsAddress(url)
    ensures var s := ImgTag(url); 4 + Text.IndexOf(s[4..], '>') == |s| - 1
  {
    var s := ImgTag(url);
    ImgTagChars(url);
    var t := s[4..];
    var k := Text.IndexOf(t, '>');
    assert t[|t| - 1] == '>';
  }

  /** Past the first `src="`, a further `src="` can only be spelt by the end
      of the address, and then its capture is empty. */
  lemma ImgTagNoLaterSrc(url: string, j: nat)
    requires IsAddress(url)
    requires 5 < j < |ImgTag(url)| - 1
    ensures SrcAt(ImgTag(url)[j..]).None?
  {
    var s := ImgTag(url);
    ImgTagChars(url);
    if StartsWith(s[j..], "src=\"") {
      assert s[j..][..5] == "src=\"";
      assert s[j] == 's' && s[j + 4] == '"';
      assert j >= 10;
      assert j + 4 == |s| - 2;
      assert s[j..][5..] == ">";
    }
  }

  lemma {:induction false} AttrRunStops(u: string, rest: string)
    requires forall i :: 0 <= i < |u| ==> u[i] != '"' && u[i] != '>'
    requires rest != [] && rest[0] == '"'
    ensures AttrRun(u + rest) == u
    decreases |u|
  {
    if u == [] {
      assert u + rest == rest;
    } else {
      var s := u + rest;
      assert s[0] == u[0] && s[1..] == u[1..] + rest;
      AttrRunStops(u[1..], rest);
      assert AttrRun(s) == [u[0]] + AttrRun(u[1..] + rest);
      assert u == [u[0]] + u[1..];
    }
  }

  lemma LastSrcFirst(s: string, lo: nat, hi: nat)
    requires lo < hi <= |s|
    requires forall j :: lo < j < hi ==> SrcAt(s[j..]).None?
    ensures LastSrc(s, lo, hi) == SrcAt(s[lo..])
    decreases hi
  {
    if hi - 1 > lo {
      LastSrcFirst(s, lo, hi - 1);
    }
  }

  lemma ImgTagSrc(url: string)
    requires IsAddress(url)
    ensures SrcAt(ImgTag(url)[5..]) == Some(url)
  {
    var s := ImgTag(url);
    ImgTagChars(url);
    assert s[5..][..5] == "src=\"";
    assert s[5..][5..] == url + "\">";
    AttrRunStops(url, "\">");
  }

  /** The address of a bare image tag is found. */
  lemma ExtractImageOfTag(url: string)
    requires IsAddress(url)
    ensures ExtractImage(ImgTag(url)) == Some(url)
  {
    var s := ImgTag(url);
    ImgTagChars(url);
    ImgTagEnd(url);
    ImgTagSrc(url);
    forall j | 5 < j < |s| - 1 ensures SrcAt(s[j..]).None? {
      ImgTagNoLaterSrc(url, j);
    }
    LastSrcFirst(s, 5, |s| - 1);
    assert ImgAt(s) == Some(url);
  }

  /** The tag itself is stripped from the text. */
  lemma ExtractTextOfTag(url: string)
    requires IsAddress(url)
    ensures ExtractText(ImgTag(url)) == ""
  {
    var s := ImgTag(url);
    ImgTagChars(url);
    var k := Text.IndexOf(s[1..], '>');
    assert s[1..][|s| - 2] == '>';
    assert k == |s| - 2;
    assert StripTags(s) == StripTags([]);
  }

  // ---------------------------------------------------------------- records

  /** One feed item as the feed-to-JSON service returns it; `categories` may
      be missing. */
  datatype RssItem = RssItem(
    title: string,
    pubDate: Instant,
    link: string,
    guid: string,
    description: string,
    categories: Option<seq<string>>)

  datatype MediumArticle = MediumArticle(
    title: string,
    link: string,
    pubDate: Instant,
    description: string,
    guid: string,
    categories: seq<string>,
    imageUrl: Option<string>)

  /** `transformRSSItemToMediumArticle`: the text of the description, and the
      image looked up in the raw description. */
  function ToMediumArticle(item: RssItem): (m: MediumArticle)
    ensures m.imageUrl.Some? ==> IsAddress(m.imageUrl.value)
    ensures m.categories == item.categories.GetOr([])
  {
    MediumArticle(item.title, item.link, item.pubDate, ExtractText(item.description), item.guid,
                  item.categories.GetOr([]), ExtractImage(item.description))
  }

  /** The image is taken from the raw description, not from its text: an item
      whose description is only an image tag keeps the image and has an empty
      description. */
  lemma ImageFromRawDescription(item: RssItem, url: string)
    requires IsAddress(url) && item.description == ImgTag(url)
    ensures ToMediumArticle(item).imageUrl == Some(url)
    ensures ToMediumArticle(item).description == ""
  {
    ExtractImageOfTag(url);
    ExtractTextOfTag(url);
  }

  /** The excerpt: the description itself up to 200 characters, else its
      first 200 characters and an ellipsis. */
  function Excerpt(d: string): (e: string)
    ensures |e| <= 203
    ensures |d| <= 200 ==> e == d
    ensures |d| > 200 ==> |e| == 203 && e[..200] == d[..200] && e[200..] == "..."
  {
    if |d| > 200 then d[..200] + "..." else d
  }

  /** One featured entry matches: case-insensitively in the title, or exactly
      in the link. */
  predicate MatchesFeatured(f: string, title: string, link: string) {
    Contains(ToLower(title), ToLower(f)) || Contains(link, f)
  }

  /** The featured test used both for `Article.featured` and by the sort. */
  predicate IsFeaturedArticle(featured: seq<string>, title: string, link: string) {
    exists k :: 0 <= k < |featured| && MatchesFeatured(featured[k], title, link)
  }

  lemma LowerIdempotent(s: string)
    ensures ToLower(ToLower(s)) == ToLower(s)
  {
  }

  /** Only the link is compared case-sensitively: changing the title's case
      never changes whether an article is featured. */
  lemma FeaturedIgnoresTitleCase(featured: seq<string>, title: string, link: string)
    ensures IsFeaturedArticle(featured, ToLower(title), link) == IsFeaturedArticle(featured, title, link)
  {
    LowerIdempotent(title);
  }

  /** `transformMediumArticleToArticle`; `content`, when present and not empty,
      replaces the description as the text whose read time is estimated. */
  function ToArticle(featured: seq<string>, m: MediumArticle, content: Option<string>): (a: Article)
    ensures a.id == (if m.guid != "" then m.guid else m.link)
    ensures a.excerpt == Excerpt(m.description) && |a.excerpt| <= 203
    ensures a.readTime >= 1
    ensures a.featured == IsFeaturedArticle(featured, m.title, m.link)
  {
    var plain := if content.Some? && content.value != "" then content.value else m.description;
    Article(if m.guid != "" then m.guid else m.link, m.title, Excerpt(m.description), m.pubDate,
            ReadTime(plain), m.link, m.imageUrl, m.categories, IsFeaturedArticle(featured, m.title, m.link))
  }

  // ---------------------------------------------------------------- pipeline

  /** The content filter: title, text and link all non-empty. */
  predicate Complete(m: MediumArticle) {
    m.title != "" && m.description != "" && m.link != ""
  }

  function CompleteFn(): MediumArticle -> bool {
    (m: MediumArticle) => Complete(m)
  }

  /** Featured first, then newest first. */
  function ArticleRank(featured: seq<string>): MediumArticle -> Rank {
    (m: MediumArticle) => Rank(if IsFeaturedArticle(featured, m.title, m.link) then 0 else 1, -m.pubDate.millis, 0)
  }

  /** The comparator passed to `sort`, as written. */
  function CompareArticles(featured: seq<string>, a: MediumArticle, b: MediumArticle): int {
    var aFeatured := IsFeaturedArticle(featured, a.title, a.link);
    var bFeatured := IsFeaturedArticle(featured, b.title, b.link);
    if aFeatured && !bFeatured then -1
    else if !aFeatured && bFeatured then 1
    else b.pubDate.millis - a.pubDate.millis
  }

  /** The comparator orders exactly as the rank key does. */
  lemma CompareArticlesIsRankOrder(featured: seq<string>, a: MediumArticle, b: MediumArticle)
    ensures CompareArticles(featured, a, b) <= 0 <==> RankLe(ArticleRank(featured)(a), ArticleRank(featured)(b))
    ensures CompareArticles(featured, a, b) == 0 <==> ArticleRank(featured)(a) == ArticleRank(featured)(b)
  {
  }

  /** The items of one successful reply, selected: the first `2*maxArticles`
      converted, the incomplete ones dropped, sorted, and cut to `maxArticles`. */
  function SelectArticles(cfg: MediumConfig, items: seq<RssItem>): (r: seq<MediumArticle>)
    ensures |r| <= cfg.maxArticles
  {
    var converted := Map(Take(items, 2 * cfg.maxArticles), ToMediumArticle);
    Take(SortBy(Filter(converted, CompleteFn()), ArticleRank(cfg.featuredArticles)), cfg.maxArticles)
  }

  /** Nothing complete is lost below the limit. */
  lemma SelectedLength(cfg: MediumConfig, items: seq<RssItem>)
    ensures var n := |Filter(Map(Take(items, 2 * cfg.maxArticles), ToMediumArticle), CompleteFn())|;
            |SelectArticles(cfg, items)| == if n <= cfg.maxArticles then n else cfg.maxArticles
  {
  }

  /** The shape of the selection pipeline, for any conversion, filter and
      rank: what comes out passed the filter and converts one of the first
      `n` inputs. */
  lemma PipelineFrom<T, U>(items: seq<T>, n: nat, m: nat, f: T -> U, p: U -> bool, rank: U -> Rank, x: U)
    requires x in Take(SortBy(Filter(Map(Take(items, n), f), p), rank), m)
    ensures p(x)
    ensures exists k :: 0 <= k < |items| && k < n && f(items[k]) == x
  {
    var head := Take(items, n);
    var converted := Map(head, f);
    var kept := Filter(converted, p);
    var sorted := SortBy(kept, rank);
    assert x in sorted by {
      var r := Take(sorted, m);
      var i :| 0 <= i < |r| && r[i] == x;
      assert x == sorted[i];
    }
    SortByPermutes(kept, rank);
    assert x in multiset(sorted);
    FilterMembers(converted, p, x);
    var k :| 0 <= k < |converted| && converted[k] == x;
    assert head[k] == items[k];
  }

  /** Every selected article is complete and is the conversion of one of the
      first `2*maxArticles` items. */
  lemma SelectedFromItems(cfg: MediumConfig, items: seq<RssItem>, x: MediumArticle)
    requires x in SelectArticles(cfg, items)
    ensures Complete(x)
    ensures exists k :: 0 <= k < |items| && k < 2 * cfg.maxArticles && ToMediumArticle(items[k]) == x
  {
    PipelineFrom(items, 2 * cfg.maxArticles, cfg.maxArticles, ToMediumArticle, CompleteFn(),
                 ArticleRank(cfg.featuredArticles), x);
  }

  /** The order of the selection: featured before the rest, and newest first
      within each group. */
  lemma SelectedOrder(cfg: MediumConfig, items: seq<RssItem>, i: int, j: int)
    requires 0 <= i < j < |SelectArticles(cfg, items)|
    ensures var r := SelectArticles(cfg, items);
            (IsFeaturedArticle(cfg.featuredArticles, r[j].title, r[j].link)
             ==> IsFeaturedArticle(cfg.featuredArticles, r[i].title, r[i].link))
    ensures var r := SelectArticles(cfg, items);
            (IsFeaturedArticle(cfg.featuredArticles, r[i].title, r[i].link)
               == IsFeaturedArticle(cfg.featuredArticles, r[j].title, r[j].link)
             ==> r[i].pubDate.millis >= r[j].pubDate.millis)
  {
    var rank := ArticleRank(cfg.featuredArticles);
    var kept := Filter(Map(Take(items, 2 * cfg.maxArticles), ToMediumArticle), CompleteFn());
    var sorted := SortBy(kept, rank);
    SortBySorted(kept, rank);
    var r := SelectArticles(cfg, items);
    assert r == sorted[..|r|];
    assert r[i] == sorted[i] && r[j] == sorted[j];
    assert RankLe(rank(sorted[i]), rank(sorted[j]));
  }

  /** The selection is drawn from the complete conversions of the first
      `2*maxArticles` items, with no article more often than it occurs there. */
  lemma SelectedFromCandidates(cfg: MediumConfig, items: seq<RssItem>)
    ensures multiset(SelectArticles(cfg, items))
            <= multiset(Filter(Map(Take(items, 2 * cfg.maxArticles), ToMediumArticle), CompleteFn()))
  {
    var kept := Filter(Map(Take(items, 2 * cfg.maxArticles), ToMediumArticle), CompleteFn());
    var n := if |kept| <= cfg.maxArticles then |kept| else cfg.maxArticles;
    SortedHeadBest(kept, ArticleRank(cfg.featuredArticles), n);
    assert SelectArticles(cfg, items) == SortBy(kept, ArticleRank(cfg.featuredArticles))[..n];
  }

  /** The limit keeps the best: a complete candidate left out of the
      selection is featured only if the selected one is, and is no newer
      than a selected one of the same kind. */
  lemma SelectedBest(cfg: MediumConfig, items: seq<RssItem>, x: MediumArticle, i: int)
    requires x in Filter(Map(Take(items, 2 * cfg.maxArticles), ToMediumArticle), CompleteFn())
    requires x !in SelectArticles(cfg, items)
    requires 0 <= i < |SelectArticles(cfg, items)|
    ensures var r := SelectArticles(cfg, items);
            IsFeaturedArticle(cfg.featuredArticles, x.title, x.link)
            ==> IsFeaturedArticle(cfg.featuredArticles, r[i].title, r[i].link)
    ensures var r := SelectArticles(cfg, items);
            IsFeaturedArticle(cfg.featuredArticles, r[i].title, r[i].link)
              == IsFeaturedArticle(cfg.featuredArticles, x.title, x.link)
            ==> r[i].pubDate.millis >= x.pubDate.millis
  {
    var rank := ArticleRank(cfg.featuredArticles);
    var kept := Filter(Map(Take(items, 2 * cfg.maxArticles), ToMediumArticle), CompleteFn());
    var n := if |kept| <= cfg.maxArticles then |kept| else cfg.maxArticles;
    var r := SelectArticles(cfg, items);
    SortedHeadBest(kept, rank, n);
    assert r == SortBy(kept, rank)[..n];
    assert RankLe(rank(SortBy(kept, rank)[i]), rank(x));
    assert r[i] == SortBy(kept, rank)[i];
  }

  // ---------------------------------------------------------------- retry loop

  /** What one request to the feed service comes back with: a reply carrying
      its envelope status, an HTTP failure, or a failure to connect. */
  datatype FeedResponse =
    | Feed(status: string, items: seq<RssItem>)
    | FeedHttpError(code: nat, statusText: string)
    | FeedNetworkError

  datatype FeedAttempt = FeedAttempt(latency: nat, response: FeedResponse)

  /** `MediumAPIError` with its optional status, or any other error. */
  datatype MediumError = ApiError(message: string, status: Option<nat>) | OtherError

  /** The error thrown after the loop; no run reaches it. */
  const MaxRetriesError := ApiError("Max retries exceeded", None)

  predicate IsClient(e: MediumError) {
    e.ApiError? && e.status.Some? && IsClientCode(e.status.value)
  }

  /** `parseRSSFeed` on one response: the HTTP status check, then the
      envelope check, which reports status 400. */
  function ParseFeed(r: FeedResponse): (p: Result<seq<RssItem>, MediumError>)
    ensures p.Success? <==> r.Feed? && r.status == "ok"
    ensures p.Success? ==> p.value == r.items
    ensures r.Feed? && r.status != "ok" ==> p.Failure? && p.error.ApiError? && p.error.status == Some(400)
    ensures r.FeedHttpError? ==> p.Failure? && p.error.ApiError? && p.error.status == Some(r.code)
    ensures r.FeedNetworkError? ==> p == Failure(OtherError)
  {
    match r
    case FeedNetworkError => Failure(OtherError)
    case FeedHttpError(code, text) =>
      Failure(ApiError("RSS2JSON API request failed: " + NatToString(code) + " " + text, Some(code)))
    case Feed(status, items) =>
      if status != "ok" then Failure(ApiError("RSS2JSON API returned error status: " + status, Some(400)))
      else Success(items)
  }

  /** The observable course of one call: the feed asked for, the outcome,
      the time each request went out, the backoffs slept, and the time it
      returns. */
  datatype MediumTrace = MediumTrace(
    feedUrl: string,
    result: Result<seq<MediumArticle>, MediumError>,
    sentAt: seq<int>,
    backoffs: seq<nat>,
    finish: int)

  /** An attempt the loop goes round again after. */
  predicate RetriedAfter(r: FeedResponse) {
    ParseFeed(r).Failure? && !IsClient(ParseFeed(r).error)
  }

  /** The time the reply to request `k` comes back. */
  function FeedHandledAt(attempts: seq<FeedAttempt>, sentAt: seq<int>, k: nat): int
    requires k < |sentAt| && k < |attempts|
  {
    sentAt[k] + attempts[k].latency
  }

  /** The time round `k` of the loop starts: the call's start, or the end of
      the backoff after request `k - 1`. */
  function FeedRoundStart(attempts: seq<FeedAttempt>, sentAt: seq<int>, backoffs: seq<nat>, now0: int, k: nat): int
    requires k <= |sentAt| && k <= |backoffs| && k <= |attempts|
  {
    if k == 0 then now0 else FeedHandledAt(attempts, sentAt, k - 1) + backoffs[k - 1]
  }

  /** Request `k` went out when the limiter let it, its round having
      started where the previous round's backoff ended. */
  predicate FeedSentOnTime(attempts: seq<FeedAttempt>, last0: int, now0: int, sentAt: seq<int>, backoffs: seq<nat>, k: nat)
    requires k < |sentAt| && k <= |backoffs| && k <= |attempts|
  {
    LetThrough(sentAt, last0, k, FeedRoundStart(attempts, sentAt, backoffs, now0, k))
  }

  /** Requests `0 .. |sentAt| - 1` went out on time, the first `|backoffs|`
      of them failed with an error the loop retries, and the loop slept
      2000 ms and then 4000 ms after them. */
  ghost predicate FeedPaced(attempts: seq<FeedAttempt>, last0: int, now0: int, sentAt: seq<int>, backoffs: seq<nat>)
    requires |attempts| >= MaxRetries
  {
    |sentAt| <= MaxRetries
    && |sentAt| - 1 <= |backoffs| <= |sentAt|
    && |backoffs| < MaxRetries
    && backoffs == [2000, 4000][..|backoffs|]
    && (forall k :: 0 <= k < |backoffs| ==> RetriedAfter(attempts[k].response))
    && (forall k :: 0 <= k < |sentAt| ==> FeedSentOnTime(attempts, last0, now0, sentAt, backoffs, k))
  }

  /** What the loop promises about the call that produced `t`, started at
      `now0` with the limiter's record at `last0`:
      - the feed of `username`;
      - at most three requests, each sent when the limiter lets it, and
        every one but the last failed with an error that is not a client
        error and was followed by a backoff of 2000 ms and then 4000 ms;
      - the call returns when the last reply arrives;
      - success is the selection from the last reply;
      - failure is the last reply's error, and it ends the loop early only if
        it is a client error. */
  ghost predicate FeedPromise(cfg: MediumConfig, username: string, attempts: seq<FeedAttempt>,
                              last0: int, now0: int, t: MediumTrace)
    requires |attempts| >= MaxRetries
    ensures FeedPromise(cfg, username, attempts, last0, now0, t) ==>
              1 <= |t.sentAt| <= MaxRetries && t.finish >= t.sentAt[|t.sentAt| - 1]
  {
    t.feedUrl == FeedUrl(username)
    && FeedPaced(attempts, last0, now0, t.sentAt, t.backoffs)
    && 1 <= |t.sentAt|
    && |t.backoffs| == |t.sentAt| - 1
    && var n := |t.sentAt|;
       var last := ParseFeed(attempts[n - 1].response);
       t.finish == FeedHandledAt(attempts, t.sentAt, n - 1)
       && (t.result.Success? ==>
             last.Success? && t.result.value == SelectArticles(cfg, last.value))
       && (t.result.Failure? ==>
             last.Failure? && t.result.error == last.error
             && (n < MaxRetries ==> IsClient(t.result.error)))
  }

  /** Sending the next request when the limiter lets it keeps the record paced. */
  lemma FeedPacedSend(attempts: seq<FeedAttempt>, last0: int, now0: int, sentAt: seq<int>, backoffs: seq<nat>)
    requires |attempts| >= MaxRetries && FeedPaced(attempts, last0, now0, sentAt, backoffs)
    requires |sentAt| == |backoffs| < MaxRetries
    ensures var start := FeedRoundStart(attempts, sentAt, backoffs, now0, |sentAt|);
            FeedPaced(attempts, last0, now0,
                      sentAt + [start + DelayFor(start, LastBefore(sentAt, last0, |sentAt|))], backoffs)
  {
    var start := FeedRoundStart(attempts, sentAt, backoffs, now0, |sentAt|);
    var s := sentAt + [start + DelayFor(start, LastBefore(sentAt, last0, |sentAt|))];
    forall k | 0 <= k < |s| ensures FeedSentOnTime(attempts, last0, now0, s, backoffs, k) {
      if k > 0 {
        assert s[k - 1] == sentAt[k - 1];
      }
      assert k < |sentAt| ==> FeedSentOnTime(attempts, last0, now0, sentAt, backoffs, k) && s[k] == sentAt[k];
    }
  }

  /** Backing off after a retried failure of the last request keeps the
      record paced. */
  lemma FeedPacedBackoff(attempts: seq<FeedAttempt>, last0: int, now0: int, sentAt: seq<int>, backoffs: seq<nat>)
    requires |attempts| >= MaxRetries && FeedPaced(attempts, last0, now0, sentAt, backoffs)
    requires |sentAt| == |backoffs| + 1 < MaxRetries
    requires RetriedAfter(attempts[|backoffs|].response)
    ensures FeedPaced(attempts, last0, now0, sentAt, backoffs + [BackoffMs(|sentAt|)])
  {
    var b := backoffs + [BackoffMs(|sentAt|)];
    assert b == [2000, 4000][..|b|];
    forall k | 0 <= k < |sentAt| ensures FeedSentOnTime(attempts, last0, now0, sentAt, b, k) {
      assert FeedSentOnTime(attempts, last0, now0, sentAt, backoffs, k);
      if k > 0 {
        assert b[k - 1] == backoffs[k - 1];
      }
    }
  }

  /** `fetchMediumArticles`. The loop always returns or throws from inside, so
      the statement after it is unreachable. */
  method FetchMediumArticles(cfg: MediumConfig, username: string, limiter: RateLimiter,
                             attempts: seq<FeedAttempt>, now0: int)
    returns (t: MediumTrace)
    requires |attempts| >= MaxRetries
    modifies limiter
    ensures FeedPromise(cfg, username, attempts, old(limiter.lastRequest), now0, t)
    ensures limiter.lastRequest == t.sentAt[|t.sentAt| - 1]
  {
    ghost var last0 := limiter.lastRequest;
    var url := FeedUrl(username);
    var retries: nat := 0;
    var now := now0;
    var sentAt: seq<int> := [];
    var backoffs: seq<nat> := [];
    while retries < MaxRetries
      invariant retries == |sentAt| == |backoffs| < MaxRetries
      invariant FeedPaced(attempts, last0, now0, sentAt, backoffs)
      invariant now == FeedRoundStart(attempts, sentAt, backoffs, now0, retries)
      invariant limiter.lastRequest == LastBefore(sentAt, last0, retries)
      decreases MaxRetries - retries
    {
      var waited := limiter.WaitIfNeeded(now);
      FeedPacedSend(attempts, last0, now0, sentAt, backoffs);
      now := now + waited;
      sentAt := sentAt + [now];
      var a := attempts[retries];
      now := now + a.latency;
      assert now == FeedHandledAt(attempts, sentAt, retries);
      var parsed := ParseFeed(a.response);
      if parsed.Success? {
        return MediumTrace(url, Success(SelectArticles(cfg, parsed.value)), sentAt, backoffs, now);
      }
      if IsClient(parsed.error) {
        return MediumTrace(url, Failure(parsed.error), sentAt, backoffs, now);
      }
      if retries + 1 >= MaxRetries {
        return MediumTrace(url, Failure(parsed.error), sentAt, backoffs, now);
      }
      FeedPacedBackoff(attempts, last0, now0, sentAt, backoffs);
      var ms := BackoffMs(retries + 1);
      backoffs := backoffs + [ms];
      retries := retries + 1;
      now := now + ms;
    }
    assert false;
    return MediumTrace(url, Failure(MaxRetriesError), sentAt, backoffs, now);
  }

  /** The promise pins the call down: the replies, the limiter's record and
      the start time leave exactly one possible course of the call. */
  lemma FeedPromiseUnique(cfg: MediumConfig, username: string, attempts: seq<FeedAttempt>,
                          last0: int, now0: int, t1: MediumTrace, t2: MediumTrace)
    requires |attempts| >= MaxRetries
    requires FeedPromise(cfg, username, attempts, last0, now0, t1)
    requires FeedPromise(cfg, username, attempts, last0, now0, t2)
    ensures t1 == t2
  {
    FeedAgreeFrom(cfg, username, attempts, last0, now0, t1, t2, 0);
  }

  /** Two courses of the call agreeing on the requests before request `k`
      agree everywhere. */
  lemma {:induction false} FeedAgreeFrom(cfg: MediumConfig, username: string, attempts: seq<FeedAttempt>,
                                         last0: int, now0: int, t1: MediumTrace, t2: MediumTrace, k: nat)
    requires |attempts| >= MaxRetries
    requires FeedPromise(cfg, username, attempts, last0, now0, t1)
    requires FeedPromise(cfg, username, attempts, last0, now0, t2)
    requires k < |t1.sentAt| && k < |t2.sentAt|
    requires t1.sentAt[..k] == t2.sentAt[..k]
    ensures t1 == t2
    decreases MaxRetries - k
  {
    FeedNextAgrees(cfg, username, attempts, last0, now0, t1, t2, k);
    FeedLastAt(cfg, username, attempts, last0, now0, t1, k);
    FeedLastAt(cfg, username, attempts, last0, now0, t2, k);
    if k + 1 < |t1.sentAt| {
      // the loop goes on in both
      FeedAgreeFrom(cfg, username, attempts, last0, now0, t1, t2, k + 1);
    } else {
      // request k is the last one of both
      assert t1.sentAt == t1.sentAt[..k + 1] && t2.sentAt == t2.sentAt[..k + 1];
      FeedSameEnd(cfg, username, attempts, last0, now0, t1, t2);
    }
  }

  /** Two courses agreeing before request `k` send it at the same time. */
  lemma FeedNextAgrees(cfg: MediumConfig, username: string, attempts: seq<FeedAttempt>,
                       last0: int, now0: int, t1: MediumTrace, t2: MediumTrace, k: nat)
    requires |attempts| >= MaxRetries
    requires FeedPromise(cfg, username, attempts, last0, now0, t1)
    requires FeedPromise(cfg, username, attempts, last0, now0, t2)
    requires k < |t1.sentAt| && k < |t2.sentAt|
    requires t1.sentAt[..k] == t2.sentAt[..k]
    ensures t1.sentAt[..k + 1] == t2.sentAt[..k + 1]
  {
    assert t1.backoffs == [2000, 4000][..|t1.backoffs|] && t2.backoffs == [2000, 4000][..|t2.backoffs|];
    if k > 0 {
      assert t1.sentAt[k - 1] == t1.sentAt[..k][k - 1] == t2.sentAt[k - 1];
      assert t1.backoffs[k - 1] == t2.backoffs[k - 1];
    }
    assert FeedSentOnTime(attempts, last0, now0, t1.sentAt, t1.backoffs, k);
    assert FeedSentOnTime(attempts, last0, now0, t2.sentAt, t2.backoffs, k);
    assert t1.sentAt[..k + 1] == t1.sentAt[..k] + [t1.sentAt[k]];
    assert t2.sentAt[..k + 1] == t2.sentAt[..k] + [t2.sentAt[k]];
  }

  /** Two courses with the same send times are the same course. */
  lemma FeedSameEnd(cfg: MediumConfig, username: string, attempts: seq<FeedAttempt>,
                    last0: int, now0: int, t1: MediumTrace, t2: MediumTrace)
    requires |attempts| >= MaxRetries
    requires FeedPromise(cfg, username, attempts, last0, now0, t1)
    requires FeedPromise(cfg, username, attempts, last0, now0, t2)
    requires t1.sentAt == t2.sentAt
    ensures t1 == t2
  {
    assert t1.backoffs == [2000, 4000][..|t1.backoffs|] && t2.backoffs == [2000, 4000][..|t2.backoffs|];
  }

  /** Request `k` is followed by another exactly when its reply is a failure
      the loop retries and it is not the third. */
  lemma FeedLastAt(cfg: MediumConfig, username: string, attempts: seq<FeedAttempt>,
                   last0: int, now0: int, t: MediumTrace, k: nat)
    requires |attempts| >= MaxRetries && FeedPromise(cfg, username, attempts, last0, now0, t)
    requires k < |t.sentAt|
    ensures k + 1 < |t.sentAt| <==> RetriedAfter(attempts[k].response) && k + 1 < MaxRetries
  {
    assert k < |t.backoffs| ==> RetriedAfter(attempts[k].response);
  }

  /** Every request goes out at least a second after the one before it (or,
      for the first, after the limiter's record), and never before the
      loop gets to it. */
  lemma FeedRequestsSpaced(cfg: MediumConfig, username: string, attempts: seq<FeedAttempt>,
                           last0: int, now0: int, t: MediumTrace, k: nat)
    requires |attempts| >= MaxRetries && FeedPromise(cfg, username, attempts, last0, now0, t)
    requires k < |t.sentAt|
    ensures k == 0 ==> t.sentAt[0] >= last0 + MinDelayMs && t.sentAt[0] >= now0
    ensures k > 0 ==> t.sentAt[k] >= t.sentAt[k - 1] + MinDelayMs
                      && t.sentAt[k] >= FeedHandledAt(attempts, t.sentAt, k - 1) + t.backoffs[k - 1]
  {
    assert FeedSentOnTime(attempts, last0, now0, t.sentAt, t.backoffs, k);
  }

  /** No run ends in "Max retries exceeded": every failure is the error of a reply. */
  lemma NeverMaxRetries(cfg: MediumConfig, username: string, attempts: seq<FeedAttempt>,
                        last0: int, now0: int, t: MediumTrace)
    requires |attempts| >= MaxRetries && FeedPromise(cfg, username, attempts, last0, now0, t)
    ensures t.result != Failure(MaxRetriesError)
  {
  }

  /** A reply whose envelope is not `"ok"` is never retried. */
  lemma EnvelopeNotRetried(cfg: MediumConfig, username: string, attempts: seq<FeedAttempt>,
                           last0: int, now0: int, t: MediumTrace, k: nat)
    requires |attempts| >= MaxRetries && FeedPromise(cfg, username, attempts, last0, now0, t)
    requires k < |t.sentAt| && attempts[k].response.Feed? && attempts[k].response.status != "ok"
    ensures k == |t.sentAt| - 1
    ensures t.result.Failure? && t.result.error.ApiError? && t.result.error.status == Some(400)
  {
    assert !RetriedAfter(attempts[k].response);
  }

  /** Three failures that are not client errors: two backoffs, then the third error. */
  lemma ServerFailuresExhaust(cfg: MediumConfig, username: string, attempts: seq<FeedAttempt>,
                              last0: int, now0: int, t: MediumTrace)
    requires |attempts| >= MaxRetries && FeedPromise(cfg, username, attempts, last0, now0, t)
    requires RetriedAfter(attempts[0].response) && RetriedAfter(attempts[1].response)
    requires RetriedAfter(attempts[2].response)
    ensures |t.sentAt| == MaxRetries && t.backoffs == [2000, 4000]
    ensures t.result == Failure(ParseFeed(attempts[2].response).error)
  {
    var n := |t.sentAt|;
    assert RetriedAfter(attempts[n - 1].response);
    assert t.result.Failure?;
    assert n == MaxRetries;
    assert [2000, 4000][..2] == [2000, 4000];
  }

  /** The articles `getArticles` makes of a selection. */
  function ArticlesOf(cfg: MediumConfig, ms: seq<MediumArticle>): (r: seq<Article>)
    ensures |r| == |ms|
    ensures forall i :: 0 <= i < |ms| ==> r[i] == ToArticle(cfg.featuredArticles, ms[i], None)
  {
    Map(ms, (m: MediumArticle) => ToArticle(cfg.featuredArticles, m, None))
  }

  /** The articles of a selection keep its order: featured ones first, and
      `featured` is the flag the sort used. */
  lemma ArticlesFeaturedFirst(cfg: MediumConfig, items: seq<RssItem>, i: int, j: int)
    requires 0 <= i < j < |SelectArticles(cfg, items)|
    ensures var a := ArticlesOf(cfg, SelectArticles(cfg, items));
            (a[j].featured ==> a[i].featured)
            && (a[i].featured == a[j].featured ==> a[i].publishedAt.millis >= a[j].publishedAt.millis)
  {
    SelectedOrder(cfg, items, i, j);
  }

  /** A selected article always has an id, since its link is not empty. */
  lemma ArticleIdPresent(cfg: MediumConfig, items: seq<RssItem>, i: int)
    requires 0 <= i < |SelectArticles(cfg, items)|
    ensures ArticlesOf(cfg, SelectArticles(cfg, items))[i].id != ""
  {
    SelectedFromItems(cfg, items, SelectArticles(cfg, items)[i]);
  }

  function ArticlesResult(cfg: MediumConfig, result: Result<seq<MediumArticle>, MediumError>): (r: Result<seq<Article>, MediumError>)
    ensures r.Failure? <==> result.Failure?
    ensures result.Failure? ==> r.error == result.error
    ensures result.Success? ==> r.value == ArticlesOf(cfg, result.value)
  {
    match result
    case Success(ms) => Success(ArticlesOf(cfg, ms))
    case Failure(e) => Failure(e)
  }

  /** `getArticles`: the loop for the configured user, converted to articles;
      failures propagate. */
  method GetArticles(cfg: MediumConfig, limiter: RateLimiter, attempts: seq<FeedAttempt>, now: int)
    returns (r: Result<seq<Article>, MediumError>, t: MediumTrace)
    requires |attempts| >= MaxRetries
    modifies limiter
    ensures FeedPromise(cfg, cfg.username, attempts, old(limiter.lastRequest), now, t)
    ensures r == ArticlesResult(cfg, t.result)
  {
    t := FetchMediumArticles(cfg, cfg.username, limiter, attempts, now);
    r := ArticlesResult(cfg, t.result);
  }

  // ---------------------------------------------------------------- cache

  datatype CacheEntry = CacheEntry(data: seq<Article>, timestamp: int)

  /** An entry stored at `timestamp` has expired at `now` once strictly more
      than the timeout has passed. */
  predicate Expired(timestamp: int, now: int, timeoutSec: nat) {
    now - timestamp > timeoutSec * 1000
  }

  /** What `get` returns. */
  function Lookup(entries: map<string, CacheEntry>, key: string, now: int, timeoutSec: nat): (r: Option<seq<Article>>)
    ensures r.Some? <==> key in entries && !Expired(entries[key].timestamp, now, timeoutSec)
    ensures r.Some? ==> r.value == entries[key].data
  {
    if key in entries && !Expired(entries[key].timestamp, now, timeoutSec) then Some(entries[key].data) else None
  }

  /** The entries after `get`: an expired entry for the key is removed. */
  function AfterLookup(entries: map<string, CacheEntry>, key: string, now: int, timeoutSec: nat): (m: map<string, CacheEntry>)
    ensures key in entries && Expired(entries[key].timestamp, now, timeoutSec) ==> m == entries - {key}
    ensures !(key in entries && Expired(entries[key].timestamp, now, timeoutSec)) ==> m == entries
  {
    if key in entries && Expired(entries[key].timestamp, now, timeoutSec) then entries - {key} else entries
  }

  /** `MediumCache`: one map from keys to article lists with the time they
      were stored. */
  class MediumCache {
    var entries: map<string, CacheEntry>
    const timeoutSec: nat

    constructor (development: bool)
      ensures entries == map[] && timeoutSec == CacheTimeoutSec(development)
    {
      entries := map[];
      timeoutSec := CacheTimeoutSec(development);
    }

    method Get(key: string, now: int) returns (r: Option<seq<Article>>)
      modifies this
      ensures r == Lookup(old(entries), key, now, timeoutSec)
      ensures entries == AfterLookup(old(entries), key, now, timeoutSec)
    {
      if key !in entries {
        return None;
      }
      var cached := entries[key];
      if now - cached.timestamp > timeoutSec * 1000 {
        entries := entries - {key};
        return None;
      }
      return Some(cached.data);
    }

    method Set(key: string, data: seq<Article>, now: int)
      modifies this
      ensures entries == old(entries)[key := CacheEntry(data, now)]
    {
      entries := entries[key := CacheEntry(data, now)];
    }

    method Clear()
      modifies this
      ensures entries == map[]
    {
      entries := map[];
    }
  }

  /** A stored list is returned until its timeout has passed, and not after. */
  lemma LookupAfterStore(entries: map<string, CacheEntry>, key: string, data: seq<Article>, stored: int, now: int, timeoutSec: nat)
    ensures Lookup(entries[key := CacheEntry(data, stored)], key, now, timeoutSec)
         == if now - stored <= timeoutSec * 1000 then Some(data) else None
  {
  }

  /** Storing or evicting under one key leaves every other key's lookup alone. */
  lemma LookupOtherKey(entries: map<string, CacheEntry>, key: string, other: string, e: CacheEntry, now: int, later: int, timeoutSec: nat)
    requires key != other
    ensures Lookup(entries[other := e], key, now, timeoutSec) == Lookup(entries, key, now, timeoutSec)
    ensures Lookup(AfterLookup(entries, other, later, timeoutSec), key, now, timeoutSec) == Lookup(entries, key, now, timeoutSec)
  {
  }

  /** A second `get` at the same time answers as the first and removes nothing more. */
  lemma LookupRepeat(entries: map<string, CacheEntry>, key: string, now: int, timeoutSec: nat)
    ensures var after := AfterLookup(entries, key, now, timeoutSec);
            Lookup(after, key, now, timeoutSec) == Lookup(entries, key, now, timeoutSec)
            && AfterLookup(after, key, now, timeoutSec) == after
  {
  }

  /** The cache key of a user. */
  function CacheKey(username: string): (key: string)
    ensures |key| == 16 + |username| && key[16..] == username
  {
    "medium-articles-" + username
  }

  lemma CacheKeyInjective(a: string, b: string)
    requires CacheKey(a) == CacheKey(b)
    ensures a == b
  {
    assert a == CacheKey(a)[16..];
  }

  /** `getCachedArticles(username)`: a live entry under the user's key is
      returned as it is, even an empty list, without a request; otherwise the
      articles of the configured user are fetched and stored under the key
      asked for, at the time the fetch returns. A failed fetch stores nothing
      and leaves only the eviction `get` made. */
  method GetCachedArticles(cache: MediumCache, cfg: MediumConfig, username: string, limiter: RateLimiter,
                           attempts: seq<FeedAttempt>, now: int)
    returns (r: Result<seq<Article>, MediumError>, fetch: Option<MediumTrace>)
    requires |attempts| >= MaxRetries
    modifies cache, limiter
    ensures var hit := Lookup(old(cache.entries), CacheKey(username), now, cache.timeoutSec);
            hit.Some? ==> r == Success(hit.value) && fetch.None?
                          && cache.entries == old(cache.entries) && limiter.lastRequest == old(limiter.lastRequest)
    ensures var hit := Lookup(old(cache.entries), CacheKey(username), now, cache.timeoutSec);
            hit.None? ==> fetch.Some? && FeedPromise(cfg, cfg.username, attempts, old(limiter.lastRequest), now, fetch.value)
                          && r == ArticlesResult(cfg, fetch.value.result)
    ensures var key := CacheKey(username);
            var evicted := AfterLookup(old(cache.entries), key, now, cache.timeoutSec);
            fetch.Some? ==> cache.entries == (if r.Success? then evicted[key := CacheEntry(r.value, fetch.value.finish)] else evicted)
  {
    var key := CacheKey(username);
    var cached := cache.Get(key, now);
    if cached.Some? {
      return Success(cached.value), None;
    }
    var t;
    r, t := GetArticles(cfg, limiter, attempts, now);
    fetch := Some(t);
    if r.Success? {
      cache.Set(key, r.value, t.finish);
    }
  }
}
