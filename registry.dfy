/**
 * The default registry of bangs/bangs.go (`New`), the structural invariants it satisfies, and
 * what Detect does with it on a few queries.
 *
 * Every template is written as its literal text with the placeholder constants spliced in, so
 * `"...field-keywords=" + TermHole` is the string "...field-keywords={{{term}}}".
 */
module Registry {
  import opened Wrappers
  import opened Text
  import opened Bangs

  /** The default bangs, in registry order. */
  function New(): (bangs: seq<Bang>)
    ensures |bangs| == 10
  {
    [AmazonBang(), BingBang(), GitHubBang(), GoogleBang(), GoogleFranceBang(), GoogleImagesBang(),
     GoogleRussiaBang(), RedditBang(), StackOverflowBang(), WikipediaBang()]
  }

  function AmazonBang(): Bang {
    Bang("Amazon", ["a", "amazon"],
      map[
        Default := "https://www.amazon.com" + "/s/ref=nb_sb_noss?url=search-alias" + "%3Daps&field-keywords=" + TermHole,
        "ca" := "https://www.amazon.ca" + "/s/ref=nb_sb_noss?url=search-alias" + "%3Daps&field-keywords=" + TermHole,
        "fr" := "https://www.amazon.fr" + "/s/ref=nb_sb_noss?url=search-alias" + "%3Daps&field-keywords=" + TermHole,
        "uk" := "https://www.amazon.co.uk" + "/s/ref=nb_sb_noss?url=search-alias" + "%3Daps&field-keywords=" + TermHole],
      [])
  }

  function BingBang(): Bang {
    Bang("Bing", ["b", "bing"],
      map[Default := "https://www.bing.com/search?q=" + TermHole],
      [])
  }

  function GitHubBang(): Bang {
    Bang("GitHub", ["gh", "git", "github"],
      map[Default := "https://github.com/search?q=" + TermHole + "&type=Everything&repo=" + "&langOverride=&start_value=1"],
      [])
  }

  function GoogleBang(): Bang {
    Bang("Google", ["g", "google"],
      map[
        Default := "https://encrypted.google.com/search?hl=" + LangHole + "&q=" + TermHole,
        "ca" := "https://www.google.ca/search?q=" + TermHole,
        "fr" := "https://www.google.fr/search?hl=" + LangHole + "&q=" + TermHole,
        "ru" := "https://www.google.ru/search?hl=" + LangHole + "&q=" + TermHole],
      [])
  }

  function GoogleFranceBang(): Bang {
    Bang("Google France", ["gfr", "googlefr"],
      map[Default := "https://www.google.fr/search?hl=" + LangHole + "&q=" + TermHole],
      [])
  }

  function GoogleImagesBang(): Bang {
    Bang("Google Images", ["gi"],
      map[Default := "https://www.google.com/search?q=" + TermHole + "&source=lnms&tbm=isch"],
      [])
  }

  function GoogleRussiaBang(): Bang {
    Bang("Google Russia", ["gru", "googleru"],
      map[Default := "https://www.google.ru/search?hl=" + LangHole + "&q=" + TermHole],
      [])
  }

  function RedditBang(): Bang {
    Bang("Reddit", ["reddit"],
      map[Default := "https://www.reddit.com/search?q=" + TermHole + "&restrict_sr=&sort=relevance&t=all"],
      [])
  }

  function StackOverflowBang(): Bang {
    Bang("Stack Overflow", ["so", "stackoverflow"],
      map[Default := "https://stackoverflow.com/search?q=" + TermHole],
      [])
  }

  function WikipediaBang(): Bang {
    Bang("Wikipedia", ["w", "wikipedia"],
      map[
        Default := "https://en.wikipedia.org/wiki/" + TermHole,
        "es" := "https://es.wikipedia.org/wiki/" + TermHole,
        "de" := "https://de.wikipedia.org/wiki/" + TermHole,
        "fr" := "https://fr.wikipedia.org/wiki/" + TermHole],
      [WikipediaTitle])
  }

  // ---------------------------------------------------------------------------------------
  // Structural invariants

  /** A template with a `{{{term}}}` and no `{` other than its placeholders'. */
  predicate WellFormedTemplate(u: string) {
    Contains(u, TermHole) && PlaceholdersOnly(u, true)
  }

  /**
   * A well-formed bang: at least one trigger, every trigger non-empty and lower case, a `default`
   * template, and every template well formed.
   */
  predicate WellFormedBang(b: Bang) {
    |b.triggers| >= 1 &&
    (forall t :: 0 <= t < |b.triggers| ==> b.triggers[t] != [] && IsLowerCase(b.triggers[t])) &&
    Default in b.regions &&
    (forall r :: r in b.regions ==> WellFormedTemplate(b.regions[r]))
  }

  lemma TermHoleOnly()
    ensures PlaceholdersOnly(TermHole, true)
  {
    HoleThenPlaceholders(TermHole, [], true);
    assert TermHole + [] == TermHole;
  }

  /** `a{{{term}}}` is well formed. */
  lemma TemplateTerm(a: string, u: string)
    requires '{' !in a && u == a + TermHole
    ensures WellFormedTemplate(u)
  {
    ContainsAt(a, TermHole, []);
    assert a + TermHole + [] == u;
    TermHoleOnly();
    PlainThenPlaceholders(a, TermHole, true);
  }

  /** `a{{{term}}}b` is well formed. */
  lemma TemplateTermThen(a: string, b: string, u: string)
    requires '{' !in a && '{' !in b && u == a + TermHole + b
    ensures WellFormedTemplate(u)
  {
    ContainsAt(a, TermHole, b);
    TermThenPlaceholders(a, b, u);
  }

  lemma TermThenPlaceholders(a: string, b: string, u: string)
    requires '{' !in a && '{' !in b && u == a + TermHole + b
    ensures PlaceholdersOnly(u, true)
  {
    PlainOnly(b);
    HoleThenPlaceholders(TermHole, b, true);
    PlainThenPlaceholders(a, TermHole + b, true);
    assert a + (TermHole + b) == u;
  }

  lemma PlainOnly(b: string)
    requires '{' !in b
    ensures PlaceholdersOnly(b, true)
  {
    PlainThenPlaceholders(b, [], true);
    assert b + [] == b;
  }

  lemma Assoc4(a: string, l: string, b: string, t: string)
    ensures a + (l + (b + t)) == a + l + b + t
  {
  }

  /** `a{{{lang}}}b{{{term}}}` is well formed. */
  lemma TemplateLangTerm(a: string, b: string, u: string)
    requires '{' !in a && '{' !in b && u == a + LangHole + b + TermHole
    ensures WellFormedTemplate(u)
  {
    var v := b + TermHole;
    TemplateTerm(b, v);
    HoleThenPlaceholders(LangHole, v, true);
    PlainThenPlaceholders(a, LangHole + v, true);
    Assoc4(a, LangHole, b, TermHole);
    ContainsAt(a + LangHole + b, TermHole, []);
    assert u + [] == u;
  }

  lemma AmazonTemplate(host: string, u: string)
    requires '{' !in host
    requires u == host + "/s/ref=nb_sb_noss?url=search-alias" + "%3Daps&field-keywords=" + TermHole
    ensures WellFormedTemplate(u)
  {
    TemplateTerm(host + "/s/ref=nb_sb_noss?url=search-alias" + "%3Daps&field-keywords=", u);
  }

  lemma AmazonWellFormed()
    ensures WellFormedBang(AmazonBang())
  {
    var rs := AmazonBang().regions;
    AmazonTemplate("https://www.amazon.com", rs[Default]);
    AmazonTemplate("https://www.amazon.ca", rs["ca"]);
    AmazonTemplate("https://www.amazon.fr", rs["fr"]);
    AmazonTemplate("https://www.amazon.co.uk", rs["uk"]);
  }

  lemma GoogleWellFormed()
    ensures WellFormedBang(GoogleBang())
  {
    var rs := GoogleBang().regions;
    forall r | r in rs ensures WellFormedTemplate(rs[r]) {
      GoogleTemplate(rs, r);
    }
  }

  lemma GoogleTemplate(rs: map<string, string>, r: string)
    requires rs == GoogleBang().regions && r in rs
    ensures WellFormedTemplate(rs[r])
  {
    if r == Default { TemplateLangTerm("https://encrypted.google.com/search?hl=", "&q=", rs[r]); }
    else if r == "ca" { TemplateTerm("https://www.google.ca/search?q=", rs[r]); }
    else if r == "fr" { TemplateLangTerm("https://www.google.fr/search?hl=", "&q=", rs[r]); }
    else { TemplateLangTerm("https://www.google.ru/search?hl=", "&q=", rs[r]); }
  }

  lemma WikipediaWellFormed()
    ensures WellFormedBang(WikipediaBang())
  {
    WikipediaTemplates(WikipediaBang().regions);
  }

  lemma WikipediaTemplates(rs: map<string, string>)
    requires rs == WikipediaBang().regions
    ensures forall r :: r in rs ==> WellFormedTemplate(rs[r])
  {
    forall r | r in rs ensures WellFormedTemplate(rs[r]) {
      WikipediaTemplate(rs, r);
    }
  }

  lemma WikipediaTemplate(rs: map<string, string>, r: string)
    requires rs == WikipediaBang().regions && r in rs
    ensures WellFormedTemplate(rs[r])
  {
    if r == Default { TemplateTerm("https://en.wikipedia.org/wiki/", rs[r]); }
    else if r == "es" { TemplateTerm("https://es.wikipedia.org/wiki/", rs[r]); }
    else if r == "de" { TemplateTerm("https://de.wikipedia.org/wiki/", rs[r]); }
    else { TemplateTerm("https://fr.wikipedia.org/wiki/", rs[r]); }
  }

  lemma BingWellFormed() ensures WellFormedBang(BingBang()) {
    TemplateTerm("https://www.bing.com/search?q=", BingBang().regions[Default]);
  }

  lemma GitHubWellFormed() ensures WellFormedBang(GitHubBang()) {
    GitHubTemplate(GitHubBang().regions[Default]);
  }

  lemma GitHubTemplate(u: string)
    requires u == GitHubBang().regions[Default]
    ensures WellFormedTemplate(u)
  {
    TemplateTermThen("https://github.com/search?q=", "&type=Everything&repo=" + "&langOverride=&start_value=1", u);
  }

  lemma GoogleFranceWellFormed() ensures WellFormedBang(GoogleFranceBang()) {
    TemplateLangTerm("https://www.google.fr/search?hl=", "&q=", GoogleFranceBang().regions[Default]);
  }

  lemma GoogleImagesWellFormed() ensures WellFormedBang(GoogleImagesBang()) {
    TemplateTermThen("https://www.google.com/search?q=", "&source=lnms&tbm=isch", GoogleImagesBang().regions[Default]);
  }

  lemma GoogleRussiaWellFormed() ensures WellFormedBang(GoogleRussiaBang()) {
    TemplateLangTerm("https://www.google.ru/search?hl=", "&q=", GoogleRussiaBang().regions[Default]);
  }

  lemma RedditWellFormed() ensures WellFormedBang(RedditBang()) {
    TemplateTermThen("https://www.reddit.com/search?q=", "&restrict_sr=&sort=relevance&t=all",
      RedditBang().regions[Default]);
  }

  lemma StackOverflowWellFormed() ensures WellFormedBang(StackOverflowBang()) {
    TemplateTerm("https://stackoverflow.com/search?q=", StackOverflowBang().regions[Default]);
  }

  /**
   * The invariants of the default registry: every bang is well formed (so every bang has a
   * `default` template and every template a `{{{term}}}`), and no trigger is used twice.
   */
  lemma NewWellFormed()
    ensures forall j :: 0 <= j < |New()| ==> WellFormedBang(New()[j])
    ensures EveryBangHasDefault(New())
  {
    forall j | 0 <= j < |New()| ensures WellFormedBang(New()[j]) {
      NewBangWellFormed(j);
    }
  }

  lemma NewBangWellFormed(j: nat)
    requires j < |New()|
    ensures WellFormedBang(New()[j])
  {
    var bs := New();
    if j == 0 { assert bs[j] == AmazonBang(); AmazonWellFormed(); }
    else if j == 1 { assert bs[j] == BingBang(); BingWellFormed(); }
    else if j == 2 { assert bs[j] == GitHubBang(); GitHubWellFormed(); }
    else if j == 3 { assert bs[j] == GoogleBang(); GoogleWellFormed(); }
    else if j == 4 { assert bs[j] == GoogleFranceBang(); GoogleFranceWellFormed(); }
    else if j == 5 { assert bs[j] == GoogleImagesBang(); GoogleImagesWellFormed(); }
    else if j == 6 { assert bs[j] == GoogleRussiaBang(); GoogleRussiaWellFormed(); }
    else if j == 7 { assert bs[j] == RedditBang(); RedditWellFormed(); }
    else if j == 8 { assert bs[j] == StackOverflowBang(); StackOverflowWellFormed(); }
    else { assert bs[j] == WikipediaBang(); WikipediaWellFormed(); }
  }

  /** Every bang of the default registry has a `default` template. */
  lemma NewHasDefaults()
    ensures EveryBangHasDefault(New())
  {
    NewWellFormed();
  }

  /** No trigger of the default registry is used twice. */
  lemma NewTriggersDistinct()
    ensures TriggersDistinct(New())
  {
    var bs := New();
    forall j | 0 <= j < |bs|
      ensures forall t1, t2 :: 0 <= t1 < t2 < |bs[j].triggers| ==> bs[j].triggers[t1] != bs[j].triggers[t2]
    {
      if j == 0 {} else if j == 1 {} else if j == 2 {} else if j == 3 {} else if j == 4 {}
      else if j == 5 {} else if j == 6 {} else if j == 7 {} else if j == 8 {} else {}
    }
    forall j1, j2 | 0 <= j1 < j2 < |bs| ensures forall x :: x in bs[j1].triggers ==> x !in bs[j2].triggers {
      Apart(bs, j1, j2);
    }
  }

  lemma Apart(bs: seq<Bang>, j1: nat, j2: nat)
    requires bs == New() && j1 < j2 < |bs|
    ensures forall x :: x in bs[j1].triggers ==> x !in bs[j2].triggers
  {
    if j1 < 2 { ApartFirst(bs, j1, j2); }
    else if j1 < 5 { ApartMiddle(bs, j1, j2); }
    else { ApartLast(bs, j1, j2); }
  }

  lemma ApartFirst(bs: seq<Bang>, j1: nat, j2: nat)
    requires bs == New() && j1 < 2 && j1 < j2 < |bs|
    ensures forall x :: x in bs[j1].triggers ==> x !in bs[j2].triggers
  {
    if j1 == 0 {} else {}
  }

  lemma ApartMiddle(bs: seq<Bang>, j1: nat, j2: nat)
    requires bs == New() && 2 <= j1 < 5 && j1 < j2 < |bs|
    ensures forall x :: x in bs[j1].triggers ==> x !in bs[j2].triggers
  {
    if j1 == 2 {} else if j1 == 3 {} else {}
  }

  lemma ApartLast(bs: seq<Bang>, j1: nat, j2: nat)
    requires bs == New() && 5 <= j1 && j1 < j2 < |bs|
    ensures forall x :: x in bs[j1].triggers ==> x !in bs[j2].triggers
  {
    if j1 == 5 {} else if j1 == 6 {} else if j1 == 7 {} else {}
  }

  // ---------------------------------------------------------------------------------------
  // Detect on the default registry

  /** The fields of a query written as words separated by single spaces. */
  lemma SpacedQuery(q: string, ws: seq<string>)
    requires forall k :: 0 <= k < |ws| ==> IsField(ws[k])
    requires q == Join(ws, " ")
    ensures Fields(q) == ws
  {
    FieldsOfJoin(ws);
  }

  /** The key of `"!" + w` for a lower-case trigger `w` owned by some bang. */
  lemma MarkedTrigger(f: string, w: string, bangs: seq<Bang>, j: nat)
    requires w != [] && '!' !in w && IsLowerCase(w) && f == "!" + w
    requires FirstOwner(w, bangs, 0) == Some(j)
    ensures IsBangField(f, bangs) && Key(f) == w
  {
    KeyOfMarked(w);
    LowerCaseUnchanged(w);
  }

  lemma LowerCaseUnchanged(w: string)
    requires IsLowerCase(w)
    ensures ToLower(w) == w
  {
  }

  /**
   * Detection on a registry with defaults, once the first bang field, its first owner, that
   * owner's template and transformations, and the remaining fields are known.
   */
  lemma FieldSearch(bangs: seq<Bang>, q: string, fields: seq<string>, i: nat, j: nat, b: Bang, u: string,
                    ts: seq<Transformation>, rest: seq<string>, region: string, lang: string)
    requires fields == Fields(q)
    requires i < |fields| && IsBangField(fields[i], bangs)
    requires forall m :: 0 <= m < i ==> !IsBangField(fields[m], bangs)
    requires FirstOwner(Key(fields[i]), bangs, 0) == Some(j)
    requires j < |bangs| && bangs[j] == b && RegionTemplate(b.regions, region) == Some(u)
    requires b.transformations == ts && Remove(fields, i) == rest
    ensures DetectAsWritten(bangs, q, region, lang) == (Substitute(u, ApplyAll(ts, Join(rest, " ")), lang), true)
  {
    DetectField(bangs, q, region, lang, i, j, u);
  }

  lemma GoogleOwnsG()
    ensures FirstOwner("g", New(), 0) == Some(3)
  {
    var bs := New();
    assert "g" !in bs[0].triggers && "g" !in bs[1].triggers && "g" !in bs[2].triggers;
    assert "g" in bs[3].triggers;
  }

  lemma GoogleDefault(region: string)
    requires ToLower(region) !in {"ca", "fr", "ru"}
    ensures RegionTemplate(GoogleBang().regions, region)
         == Some("https://encrypted.google.com/search?hl=" + LangHole + "&q=" + TermHole)
    ensures GoogleBang().transformations == []
  {
    var rs := GoogleBang().regions;
    assert rs.Keys == {Default, "ca", "fr", "ru"};
    OtherRegionsDefault(rs, "ca", "fr", "ru", region);
  }

  /** A region other than the three a bang names gets the bang's `default` template. */
  lemma OtherRegionsDefault(rs: map<string, string>, k1: string, k2: string, k3: string, region: string)
    requires rs.Keys == {Default, k1, k2, k3} && ToLower(region) !in {k1, k2, k3}
    ensures RegionTemplate(rs, region) == Some(rs[Default])
  {
  }

  /**
   * A query whose first field is "!g" searches Google: outside Canada, France and Russia with the
   * default template, filled with the language tag and the other fields joined by spaces.
   */
  lemma GoogleDefaultSearch(q: string, rest: seq<string>, region: string, lang: string)
    requires Fields(q) == ["!g"] + rest
    requires ToLower(region) !in {"ca", "fr", "ru"}
    requires !Contains(Join(rest, " "), LangHole)
    ensures DetectAsWritten(New(), q, region, lang)
         == ("https://encrypted.google.com/search?hl=" + lang + "&q=" + Join(rest, " "), true)
  {
    var u := "https://encrypted.google.com/search?hl=" + LangHole + "&q=" + TermHole;
    GoogleField(Fields(q), rest);
    GoogleDefault(region);
    FieldSearch(New(), q, Fields(q), 0, 3, GoogleBang(), u, [], rest, region, lang);
    GoogleFill(Join(rest, " "), lang);
  }

  /** "!g" leading the fields is the first bang field, owned by Google, the fourth bang. */
  lemma GoogleField(fields: seq<string>, rest: seq<string>)
    requires fields == ["!g"] + rest
    ensures 0 < |fields| && IsBangField(fields[0], New())
    ensures FirstOwner(Key(fields[0]), New(), 0) == Some(3) && Remove(fields, 0) == rest
    ensures New()[3] == GoogleBang()
  {
    GoogleKey(fields[0]);
    GoogleOwnsG();
    GoogleEntry();
    RemoveHead("!g", rest);
  }

  /** Kept apart from its caller: unrolling the registry literal there costs too much. */
  lemma GoogleEntry()
    ensures New()[3] == GoogleBang()
  {
  }

  /** Dropping the first field leaves the others. */
  lemma RemoveHead(w: string, rest: seq<string>)
    ensures Remove([w] + rest, 0) == rest
  {
    assert ([w] + rest)[1..] == rest;
  }

  lemma GoogleKey(f: string)
    requires f == "!g"
    ensures IsBangField(f, New()) && Key(f) == "g"
  {
    assert f == "!" + "g";
    GoogleOwnsG();
    MarkedTrigger(f, "g", New(), 3);
  }

  /** Google's default template filled with a language tag and a term. */
  lemma GoogleFill(term: string, lang: string)
    requires !Contains(term, LangHole)
    ensures Substitute("https://encrypted.google.com/search?hl=" + LangHole + "&q=" + TermHole,
                       ApplyAll([], term), lang)
         == "https://encrypted.google.com/search?hl=" + lang + "&q=" + term
  {
    GoogleHostPlain();
    SubstituteLangTerm("https://encrypted.google.com/search?hl=", "&q=", term, lang);
  }

  lemma GoogleHostPlain()
    ensures '{' !in "https://encrypted.google.com/search?hl=" && '{' !in "&q="
  {
  }

  /** "!g hello world" searches Google's default template with the language tag and the rest. */
  lemma GoogleSearch(q: string)
    requires q == "!g hello world"
    ensures DetectAsWritten(New(), q, "US", "en")
         == ("https://encrypted.google.com/search?hl=en&q=hello world", true)
  {
    GoogleSearchParts(q);
    GoogleUrl();
  }

  lemma GoogleSearchParts(q: string)
    requires q == "!g hello world"
    ensures DetectAsWritten(New(), q, "US", "en")
         == ("https://encrypted.google.com/search?hl=" + "en" + "&q=" + "hello world", true)
  {
    GoogleSearchQuery(q);
    HelloWorldPlain("hello world");
    GoogleDefaultSearch(q, ["hello", "world"], "US", "en");
  }

  lemma GoogleSearchQuery(q: string)
    requires q == "!g hello world"
    ensures Fields(q) == ["!g"] + ["hello", "world"]
    ensures Join(["hello", "world"], " ") == "hello world" && '{' !in "hello world" && '{' !in "en"
    ensures ToLower("US") !in {"ca", "fr", "ru"}
  {
    GoogleSearchFields(q);
    HelloWorld();
    LowerUS();
  }

  lemma GoogleSearchFields(q: string)
    requires q == "!g hello world"
    ensures Fields(q) == ["!g"] + ["hello", "world"]
  {
    SpacedQuery(q, ["!g", "hello", "world"]);
    assert ["!g", "hello", "world"] == ["!g"] + ["hello", "world"];
  }

  lemma HelloWorldPlain(s: string)
    requires s == "hello world"
    ensures !Contains(s, LangHole)
  {
    HoleChars();
    NotContainsWithout(s, LangHole);
  }

  lemma HelloWorld()
    ensures Join(["hello", "world"], " ") == "hello world" && '{' !in "hello world" && '{' !in "en"
  {
  }

  lemma LowerUS()
    ensures ToLower("US") == "us"
  {
  }

  lemma GoogleUrl()
    ensures "https://encrypted.google.com/search?hl=" + "en" + "&q=" + "hello world"
         == "https://encrypted.google.com/search?hl=en&q=hello world"
  {
  }

  /** The Amazon storefront of a region: Canada, France and the United Kingdom have their own. */
  predicate AmazonHost(region: string, host: string) {
    (ToLower(region) == "ca" && host == "https://www.amazon.ca") ||
    (ToLower(region) == "fr" && host == "https://www.amazon.fr") ||
    (ToLower(region) == "uk" && host == "https://www.amazon.co.uk") ||
    (ToLower(region) !in {"ca", "fr", "uk"} && host == "https://www.amazon.com")
  }

  lemma AmazonTemplateFor(region: string, host: string)
    requires AmazonHost(region, host)
    ensures RegionTemplate(AmazonBang().regions, region)
         == Some(host + "/s/ref=nb_sb_noss?url=search-alias" + "%3Daps&field-keywords=" + TermHole)
    ensures '{' !in host + "/s/ref=nb_sb_noss?url=search-alias" + "%3Daps&field-keywords="
    ensures AmazonBang().transformations == []
  {
    AmazonPlain(host);
    var rs := AmazonBang().regions;
    var r := ToLower(region);
    if r == "ca" {
      assert rs[r] == host + "/s/ref=nb_sb_noss?url=search-alias" + "%3Daps&field-keywords=" + TermHole;
    } else if r == "fr" {
      assert rs[r] == host + "/s/ref=nb_sb_noss?url=search-alias" + "%3Daps&field-keywords=" + TermHole;
    } else if r == "uk" {
      assert rs[r] == host + "/s/ref=nb_sb_noss?url=search-alias" + "%3Daps&field-keywords=" + TermHole;
    } else if r == Default {
      assert rs[r] == host + "/s/ref=nb_sb_noss?url=search-alias" + "%3Daps&field-keywords=" + TermHole;
    } else {
      assert r !in rs;
    }
  }

  lemma AmazonPlain(host: string)
    requires host in {"https://www.amazon.ca", "https://www.amazon.fr", "https://www.amazon.co.uk", "https://www.amazon.com"}
    ensures '{' !in host + "/s/ref=nb_sb_noss?url=search-alias" + "%3Daps&field-keywords="
  {
    assert '{' !in "/s/ref=nb_sb_noss?url=search-alias" && '{' !in "%3Daps&field-keywords=";
  }

  lemma AmazonOwnsA()
    ensures FirstOwner("a", New(), 0) == Some(0)
  {
  }

  /**
   * A query whose first field is "!a" searches the Amazon storefront of the region (amazon.com
   * for any other region) for the other fields joined by spaces.
   */
  lemma AmazonSearch(q: string, rest: seq<string>, region: string, lang: string, host: string)
    requires Fields(q) == ["!a"] + rest
    requires AmazonHost(region, host)
    requires '{' !in Join(rest, " ")
    ensures DetectAsWritten(New(), q, region, lang)
         == (host + "/s/ref=nb_sb_noss?url=search-alias" + "%3Daps&field-keywords=" + Join(rest, " "), true)
  {
    var a := host + "/s/ref=nb_sb_noss?url=search-alias" + "%3Daps&field-keywords=";
    AmazonField(Fields(q), rest);
    AmazonTemplateFor(region, host);
    FieldSearch(New(), q, Fields(q), 0, 0, AmazonBang(), a + TermHole, [], rest, region, lang);
    SubstituteTerm(a, Join(rest, " "), lang);
  }

  /** "!a" leading the fields is the first bang field, owned by Amazon, the first bang. */
  lemma AmazonField(fields: seq<string>, rest: seq<string>)
    requires fields == ["!a"] + rest
    ensures 0 < |fields| && IsBangField(fields[0], New())
    ensures FirstOwner(Key(fields[0]), New(), 0) == Some(0) && Remove(fields, 0) == rest
    ensures New()[0] == AmazonBang()
  {
    AmazonKey(fields[0]);
    AmazonOwnsA();
    assert New()[0] == AmazonBang();
    RemoveHead("!a", rest);
  }

  lemma AmazonKey(f: string)
    requires f == "!a"
    ensures IsBangField(f, New()) && Key(f) == "a"
  {
    assert f == "!" + "a";
    AmazonOwnsA();
    MarkedTrigger(f, "a", New(), 0);
  }

  lemma WikipediaOwnsW()
    ensures FirstOwner("w", New(), 0) == Some(9)
  {
    var bs := New();
    assert forall j :: 0 <= j < 9 ==> "w" !in bs[j].triggers;
    FirstOwnerFrom("w", bs, 9);
  }

  lemma WikipediaDefault(region: string)
    requires ToLower(region) !in {"es", "de", "fr"}
    ensures RegionTemplate(WikipediaBang().regions, region) == Some("https://en.wikipedia.org/wiki/" + TermHole)
  {
    var rs := WikipediaBang().regions;
    assert rs.Keys == {Default, "es", "de", "fr"};
    OtherRegionsDefault(rs, "es", "de", "fr", region);
  }

  /** The Wikipedia bang is the tenth of the registry and turns its query into a title. */
  lemma WikipediaEntry()
    ensures '{' !in "https://en.wikipedia.org/wiki/"
    ensures WikipediaBang().transformations == [WikipediaTitle]
    ensures New()[9] == WikipediaBang()
  {
    WikipediaHostPlain();
    WikipediaTransforms();
  }

  /** The two facts above are proved apart: together, with the registry literal, they cost too much. */
  lemma WikipediaHostPlain()
    ensures '{' !in "https://en.wikipedia.org/wiki/"
  {
  }

  lemma WikipediaTransforms()
    ensures WikipediaBang().transformations == [WikipediaTitle]
  {
  }

  /**
   * A "!w" field after fields without a `!` looks the other fields up on the English
   * Wikipedia (outside Spain, Germany and France), as one canonical title.
   */
  lemma WikipediaSearch(q: string, pre: seq<string>, post: seq<string>, region: string, lang: string)
    requires Fields(q) == pre + ["!w"] + post
    requires forall m :: 0 <= m < |pre| ==> '!' !in pre[m]
    requires ToLower(region) !in {"es", "de", "fr"}
    ensures DetectAsWritten(New(), q, region, lang)
         == ("https://en.wikipedia.org/wiki/" + WikipediaCanonical(Join(pre + post, " ")), true)
  {
    var i := |pre|;
    WikipediaField(Fields(q), pre, post);
    WikipediaOwnsW();
    WikipediaDefault(region);
    WikipediaEntry();
    RemoveBetween(pre, "!w", post);
    FieldSearch(New(), q, Fields(q), i, 9, WikipediaBang(), "https://en.wikipedia.org/wiki/" + TermHole,
      [WikipediaTitle], pre + post, region, lang);
    WikipediaFill("https://en.wikipedia.org/wiki/", Join(pre + post, " "), lang);
  }

  /** "!w" after fields without a `!` is the first bang field, keyed "w". */
  lemma WikipediaField(fields: seq<string>, pre: seq<string>, post: seq<string>)
    requires fields == pre + ["!w"] + post
    requires forall m :: 0 <= m < |pre| ==> '!' !in pre[m]
    ensures |pre| < |fields| && IsBangField(fields[|pre|], New()) && Key(fields[|pre|]) == "w"
    ensures forall m :: 0 <= m < |pre| ==> !IsBangField(fields[m], New())
  {
    WikipediaKey(fields[|pre|]);
    forall m | 0 <= m < |pre| ensures !IsBangField(fields[m], New()) {
      assert fields[m] == pre[m];
      UnmarkedNotCandidate(pre[m]);
    }
  }

  lemma WikipediaKey(f: string)
    requires f == "!w"
    ensures IsBangField(f, New()) && Key(f) == "w"
  {
    assert f == "!" + "w";
    WikipediaOwnsW();
    MarkedTrigger(f, "w", New(), 9);
  }

  /**
   * Wikipedia's template filled with the canonical title of any remainder: the title never holds
   * `{{{lang}}}`, so the language tag is never put in and the title stays as it is.
   */
  lemma WikipediaFill(host: string, rest: string, lang: string)
    requires '{' !in host
    ensures Substitute(host + TermHole, ApplyAll([WikipediaTitle], rest), lang) == host + WikipediaCanonical(rest)
  {
    var c := WikipediaCanonical(rest);
    assert ApplyAll([WikipediaTitle], rest) == c;
    HoleChars();
    ReplaceAllSkips(host, TermHole, TermHole, c);
    ReplaceAllHit([], TermHole, c);
    assert TermHole + [] == TermHole && c + [] == c;
    ReplaceAllSkips(host, c, LangHole, lang);
    WikipediaCanonicalNoLangHole(rest);
    ReplaceAllAbsent(c, LangHole, lang);
  }

  /**
   * A placeholder in a Wikipedia query is not filled in: "hello !w {{{lang}}}" gives the title
   * "Hello_{{{Lang}}}", and that is what the URL ends in.
   */
  lemma WikipediaLangHoleKept(q: string)
    requires q == "hello !w {{{lang}}}"
    ensures DetectAsWritten(New(), q, "US", "en") == ("https://en.wikipedia.org/wiki/Hello_{{{Lang}}}", true)
  {
    LangHoleQuerySearch(q);
    CanonicalKeepsLangHole();
    LangHoleUrl("Hello_{{{Lang}}}", "https://en.wikipedia.org/wiki/Hello_{{{Lang}}}");
  }

  lemma LangHoleUrl(t: string, u: string)
    requires t == "Hello_{{{Lang}}}" && u == "https://en.wikipedia.org/wiki/Hello_{{{Lang}}}"
    ensures "https://en.wikipedia.org/wiki/" + t == u
  {
  }

  lemma LangHoleQuerySearch(q: string)
    requires q == "hello !w {{{lang}}}"
    ensures DetectAsWritten(New(), q, "US", "en")
         == ("https://en.wikipedia.org/wiki/" + WikipediaCanonical("hello {{{lang}}}"), true)
  {
    LangHoleSearchApplies(q, ["hello"], [LangHole], "US");
    WikipediaSearch(q, ["hello"], [LangHole], "US", "en");
  }

  lemma LangHoleSearchApplies(q: string, pre: seq<string>, post: seq<string>, region: string)
    requires q == "hello !w {{{lang}}}" && pre == ["hello"] && post == [LangHole] && region == "US"
    ensures Fields(q) == pre + ["!w"] + post && Join(pre + post, " ") == "hello {{{lang}}}"
    ensures forall m :: 0 <= m < |pre| ==> '!' !in pre[m]
    ensures ToLower(region) !in {"es", "de", "fr"}
  {
    LangHoleQueryFields(q);
    LowerUS();
  }

  lemma LangHoleQueryFields(q: string)
    requires q == "hello !w {{{lang}}}"
    ensures Fields(q) == ["hello"] + ["!w"] + [LangHole]
    ensures Join(["hello"] + [LangHole], " ") == "hello {{{lang}}}" && '!' !in "hello"
  {
    LangHoleQuerySpelled(q, "hello", "!w", LangHole);
    SpacedQuery(q, ["hello", "!w", LangHole]);
    assert ["hello", "!w", LangHole] == ["hello"] + ["!w"] + [LangHole];
    assert ["hello"] + [LangHole] == ["hello", LangHole] && ["hello", LangHole][1..] == [LangHole];
  }

  lemma LangHoleQuerySpelled(q: string, a: string, b: string, c: string)
    requires q == "hello !w {{{lang}}}" && a == "hello" && b == "!w" && c == LangHole
    ensures IsField(a) && IsField(b) && IsField(c) && q == Join([a, b, c], " ")
  {
    var ws := [a, b, c];
    assert ws[1..] == [b, c] && ws[1..][1..] == [c];
    assert Join([b, c], " ") == b + " " + c;
    assert Join(ws, " ") == a + " " + (b + " " + c);
  }

  /** "hello !w bob marley" opens the English Wikipedia article "Hello_Bob_Marley". */
  lemma WikipediaArticle(q: string)
    requires q == "hello !w bob marley"
    ensures DetectAsWritten(New(), q, "US", "en") == ("https://en.wikipedia.org/wiki/Hello_Bob_Marley", true)
  {
    WikipediaArticleSearch(q);
    HelloBobMarleyArticle();
  }

  lemma WikipediaArticleSearch(q: string)
    requires q == "hello !w bob marley"
    ensures DetectAsWritten(New(), q, "US", "en")
         == ("https://en.wikipedia.org/wiki/" + WikipediaCanonical(Join(["hello"] + ["bob", "marley"], " ")), true)
  {
    ArticleSearchApplies(q, ["hello"], ["bob", "marley"], "US");
    WikipediaSearch(q, ["hello"], ["bob", "marley"], "US", "en");
  }

  lemma ArticleSearchApplies(q: string, pre: seq<string>, post: seq<string>, region: string)
    requires q == "hello !w bob marley" && pre == ["hello"] && post == ["bob", "marley"] && region == "US"
    ensures Fields(q) == pre + ["!w"] + post
    ensures forall m :: 0 <= m < |pre| ==> '!' !in pre[m]
    ensures ToLower(region) !in {"es", "de", "fr"}
  {
    WikipediaArticleQuery(q);
    LowerUS();
  }

  lemma HelloBobMarleyArticle()
    ensures "https://en.wikipedia.org/wiki/" + WikipediaCanonical(Join(["hello"] + ["bob", "marley"], " "))
         == "https://en.wikipedia.org/wiki/Hello_Bob_Marley"
  {
    HelloBobMarleyJoined();
    var j := Join(["hello"] + ["bob", "marley"], " ");
    CanonicalSpelled(j, "Hello_Bob_Marley");
    HelloBobMarleyUrl(WikipediaCanonical(j), "https://en.wikipedia.org/wiki/Hello_Bob_Marley");
  }

  lemma WikipediaArticleQuery(q: string)
    requires q == "hello !w bob marley"
    ensures Fields(q) == ["hello"] + ["!w"] + ["bob", "marley"]
    ensures '!' !in "hello"
    ensures Join(["hello"] + ["bob", "marley"], " ") == "hello bob marley" && '{' !in "hello bob marley"
  {
    WikipediaArticleFields(q);
    HelloBobMarleyJoined();
  }

  lemma WikipediaArticleFields(q: string)
    requires q == "hello !w bob marley"
    ensures Fields(q) == ["hello"] + ["!w"] + ["bob", "marley"]
  {
    ArticleSpelled(q, "hello", "!w", "bob", "marley");
    FourFields(q, "hello", "!w", "bob", "marley");
    ArticleSplit(["hello", "!w", "bob", "marley"]);
  }

  lemma ArticleSpelled(q: string, a: string, b: string, c: string, d: string)
    requires q == "hello !w bob marley" && a == "hello" && b == "!w" && c == "bob" && d == "marley"
    ensures IsField(a) && IsField(b) && IsField(c) && IsField(d)
    ensures q == a + " " + (b + " " + (c + " " + d))
  {
  }

  lemma ArticleSplit(ws: seq<string>)
    requires ws == ["hello", "!w", "bob", "marley"]
    ensures ws == ["hello"] + ["!w"] + ["bob", "marley"]
  {
  }

  lemma FourFields(q: string, a: string, b: string, c: string, d: string)
    requires IsField(a) && IsField(b) && IsField(c) && IsField(d)
    requires q == a + " " + (b + " " + (c + " " + d))
    ensures Fields(q) == [a, b, c, d]
  {
    var ws := [a, b, c, d];
    assert ws[1..] == [b, c, d] && ws[1..][1..] == [c, d] && ws[1..][1..][1..] == [d];
    assert Join([c, d], " ") == c + " " + d;
    assert Join(ws, " ") == q;
    SpacedQuery(q, ws);
  }

  lemma HelloBobMarleyJoined()
    ensures Join(["hello"] + ["bob", "marley"], " ") == "hello bob marley" && '{' !in "hello bob marley"
  {
    var ws := ["hello", "bob", "marley"];
    assert ["hello"] + ["bob", "marley"] == ws;
    assert ws[1..] == ["bob", "marley"] && ws[1..][1..] == ["marley"];
    assert Join(["bob", "marley"], " ") == "bob marley";
  }

  lemma HelloBobMarleyUrl(t: string, u: string)
    requires t == "Hello_Bob_Marley" && u == "https://en.wikipedia.org/wiki/Hello_Bob_Marley"
    ensures "https://en.wikipedia.org/wiki/" + t == u
  {
  }

  /** "just a ! standalone" holds no bang: a bare "!" is not a bang token. */
  lemma NoBangInQuery(q: string)
    requires q == "just a ! standalone"
    ensures DetectAsWritten(New(), q, "US", "en") == ("", false)
  {
    NoBangQueryFields(q);
    UnmarkedQuery(New(), q, "US", "en");
  }

  lemma NoBangQueryFields(q: string)
    requires q == "just a ! standalone"
    ensures forall m :: 0 <= m < |Fields(q)| ==> Fields(q)[m] == "!" || '!' !in Fields(q)[m]
  {
    NoBangQuerySplit(q);
    var ws := ["just", "a", "!", "standalone"];
    assert '!' !in ws[0] && '!' !in ws[1] && '!' !in ws[3];
  }

  lemma NoBangQuerySplit(q: string)
    requires q == "just a ! standalone"
    ensures Fields(q) == ["just", "a", "!", "standalone"]
  {
    NoBangSpelled(q, "just", "a", "!", "standalone");
    FourFields(q, "just", "a", "!", "standalone");
  }

  lemma NoBangSpelled(q: string, a: string, b: string, c: string, d: string)
    requires q == "just a ! standalone" && a == "just" && b == "a" && c == "!" && d == "standalone"
    ensures IsField(a) && IsField(b) && IsField(c) && IsField(d)
    ensures q == a + " " + (b + " " + (c + " " + d))
  {
  }

  /** A field made only of `!` (such as "!!") has the empty key, which no bang of the registry has. */
  lemma MarksOnlyNeverBang(f: string)
    requires forall i :: 0 <= i < |f| ==> f[i] == '!'
    ensures !IsBangField(f, New())
  {
    NewWellFormed();
    assert Key(f) == [];
  }

  /**
   * With the default registry, a query and a language tag without `{` always give a URL with
   * neither placeholder left in it.
   */
  lemma NewSubstitutionComplete(q: string, region: string, lang: string)
    requires '{' !in q && '{' !in lang
    ensures '{' !in DetectAsWritten(New(), q, region, lang).0
    ensures !Contains(DetectAsWritten(New(), q, region, lang).0, TermHole)
    ensures !Contains(DetectAsWritten(New(), q, region, lang).0, LangHole)
  {
    NewTemplatesPlaceholdersOnly();
    DetectPlaceholderFree(New(), q, region, lang);
  }

  lemma NewTemplatesPlaceholdersOnly()
    ensures TemplatesPlaceholdersOnly(New())
  {
    var bs := New();
    NewWellFormed();
    forall j, r | 0 <= j < |bs| && r in bs[j].regions ensures PlaceholdersOnly(bs[j].regions[r], true) {
      assert WellFormedBang(bs[j]);
      assert WellFormedTemplate(bs[j].regions[r]);
    }
  }

  /**
   * Substitution is not complete for every query: a remainder that is itself "{{{term}}}" is
   * put into the URL as it is, so the URL still holds a placeholder.
   */
  lemma PlaceholderInQuery(q: string)
    requires q == "!g {{{term}}}"
    ensures DetectAsWritten(New(), q, "US", "en").1
    ensures Contains(DetectAsWritten(New(), q, "US", "en").0, TermHole)
  {
    PlaceholderQueryFields(q);
    LowerUS();
    TermHoleLacksLangHole();
    GoogleDefaultSearch(q, [TermHole], "US", "en");
    EndsWithHole("https://encrypted.google.com/search?hl=" + "en" + "&q=");
  }

  lemma EndsWithHole(a: string)
    ensures Contains(a + TermHole, TermHole)
  {
    ContainsAt(a, TermHole, []);
    assert a + TermHole + [] == a + TermHole;
  }

  lemma PlaceholderQueryFields(q: string)
    requires q == "!g {{{term}}}"
    ensures Fields(q) == ["!g"] + [TermHole] && Join([TermHole], " ") == TermHole && '{' !in "en"
  {
    PlaceholderQuerySpelled(q, "!g", TermHole);
    SpacedQuery(q, ["!g", TermHole]);
    assert ["!g", TermHole] == ["!g"] + [TermHole];
  }

  lemma PlaceholderQuerySpelled(q: string, a: string, b: string)
    requires q == "!g {{{term}}}" && a == "!g" && b == TermHole
    ensures IsField(a) && IsField(b) && q == Join([a, b], " ")
  {
    assert [a, b][1..] == [b];
  }
}
