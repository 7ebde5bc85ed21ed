/**
 * The !bang dispatcher of bangs/bangs.go: a query such as "!g hello world" is recognised by
 * its bang token and turned into the URL of the site the bang names, and the autocomplete
 * results of an abstract suggester are completed with the names of the bangs they belong to.
 *
 * A region and a language tag are taken as the strings that `region.String()` and
 * `l.String()` render.
 */
module Bangs {
  import opened Wrappers
  import opened Text

  /** The region key every bang is expected to have. */
  const Default := "default"
  /** The placeholder replaced by the search term. */
  const TermHole := "{{{term}}}"
  /** The placeholder replaced by the language tag. */
  const LangHole := "{{{lang}}}"

  /** A transformation of the remainder. The registry only ever uses the Wikipedia one. */
  datatype Transformation = WikipediaTitle

  /** A single !bang: its display name, its triggers, its URL template per region. */
  datatype Bang = Bang(
    name: string,
    triggers: seq<string>,
    regions: map<string, string>,
    transformations: seq<Transformation>)

  /** One autocomplete suggestion. */
  datatype Suggestion = Suggestion(trigger: string, name: string)

  /** The results of an autocomplete query (an object, never a bare list, on the wire). */
  datatype Results = Results(suggestions: seq<Suggestion>)

  /** What the abstract suggester returns: results and, possibly, an error. */
  datatype Suggested = Suggested(results: Results, err: Option<string>)

  // ---------------------------------------------------------------------------------------
  // Transformations

  /**
   * The canonical form of a Wikipedia title: lower-cased, title-cased, spaces made underscores,
   * so "bob maRLey" becomes "Bob_Marley".
   */
  function WikipediaCanonical(q: string): (r: string)
    ensures |r| == |q|
    ensures ' ' !in r
  {
    var t := Title(ToLower(q));
    ReplaceAllChar(t, ' ', '_');
    ReplaceAll(t, " ", "_")
  }

  /**
   * Character by character, the canonical title keeps every character up to case, except that a
   * space becomes `_`; a letter is upper case exactly when it starts the title or follows a
   * word separator, and lower case otherwise.
   */
  lemma WikipediaCanonicalAt(q: string, i: int)
    requires 0 <= i < |q|
    ensures var r := WikipediaCanonical(q);
      (q[i] == ' ' ==> r[i] == '_') &&
      (q[i] != ' ' ==> LowerChar(r[i]) == LowerChar(q[i])) &&
      (IsAsciiLetter(q[i]) ==>
        (IsAsciiUpper(r[i]) <==> (i == 0 || IsSeparator(LowerChar(q[i - 1])))))
  {
    CanonicalAtChar(q, i);
    CaseOfChar(q[i]);
  }

  /** The canonical title has at `i` the character `CanonicalChar` reads off the query. */
  lemma CanonicalAtChar(q: string, i: int)
    requires 0 <= i < |q|
    ensures WikipediaCanonical(q)[i] == CanonicalChar(q, i)
  {
    var t := Title(ToLower(q));
    ReplaceAllChar(t, ' ', '_');
    TitleLowerAt(q, i);
    CaseOfChar(q[i]);
  }

  /** Title-casing the lower-cased query, character by character. */
  lemma TitleLowerAt(q: string, i: int)
    requires 0 <= i < |q|
    ensures Title(ToLower(q))[i] ==
      if i == 0 || IsSeparator(LowerChar(q[i - 1])) then UpperChar(LowerChar(q[i])) else LowerChar(q[i])
  {
    var l := ToLower(q);
    assert l[i] == LowerChar(q[i]);
    assert i > 0 ==> l[i - 1] == LowerChar(q[i - 1]);
  }

  lemma CaseOfChar(c: char)
    ensures LowerChar(c) == ' ' <==> c == ' '
    ensures UpperChar(LowerChar(c)) == ' ' <==> c == ' '
    ensures LowerChar(UpperChar(LowerChar(c))) == LowerChar(c)
    ensures IsAsciiLetter(c) ==> IsAsciiUpper(UpperChar(LowerChar(c))) && !IsAsciiUpper(LowerChar(c))
  {
  }

  /** The text the canonical title leaves as it is, and what it does to underscores. */
  lemma WikipediaCanonicalNotIdempotent()
    ensures WikipediaCanonical("bob maRLey") == "Bob_Marley"
    ensures WikipediaCanonical("Bob_Marley") == "Bob_marley"
  {
    BobMarleyTitle();
    CanonicalSpelled("Bob_Marley", "Bob_marley");
  }

  /** Mixed case and a space: every word is capitalised and the space becomes `_`. */
  lemma BobMarleyTitle()
    ensures WikipediaCanonical("bob maRLey") == "Bob_Marley"
  {
    CanonicalSpelled("bob maRLey", "Bob_Marley");
  }

  /** The character the canonical title has at `i`, read off the query alone. */
  function CanonicalChar(q: string, i: nat): char
    requires i < |q|
  {
    if q[i] == ' ' then '_'
    else if i == 0 || IsSeparator(LowerChar(q[i - 1])) then UpperChar(LowerChar(q[i]))
    else LowerChar(q[i])
  }

  /** A title spelled character by character as `CanonicalChar` says is the canonical title. */
  lemma CanonicalSpelled(q: string, t: string)
    requires |t| == |q| && forall i :: 0 <= i < |q| ==> t[i] == CanonicalChar(q, i)
    ensures WikipediaCanonical(q) == t
  {
    var r := WikipediaCanonical(q);
    forall i | 0 <= i < |q| ensures r[i] == t[i] {
      CanonicalAtChar(q, i);
    }
  }

  /** Title-casing upper-cases what follows a `{`, so a `{` is never followed by `l`. */
  lemma BraceThenLetter(x: string, i: int)
    requires 0 < i < |x|
    ensures CanonicalChar(x, i - 1) == '{' ==> CanonicalChar(x, i) != 'l'
  {
  }

  /** The canonical title never holds `{{{lang}}}`: its `l` would be upper case after the `{`. */
  lemma WikipediaCanonicalNoLangHole(x: string)
    ensures !Contains(WikipediaCanonical(x), LangHole)
  {
    var c := WikipediaCanonical(x);
    HoleChars();
    forall p | 0 <= p <= |c| ensures !OccursAt(c, LangHole, p) {
      if p + |LangHole| <= |c| {
        CanonicalAtChar(x, p + 2);
        CanonicalAtChar(x, p + 3);
        BraceThenLetter(x, p + 3);
        assert c[p..p + |LangHole|][2] == c[p + 2] && c[p..p + |LangHole|][3] == c[p + 3];
      }
    }
  }

  /**
   * A placeholder in the title is kept, with its first letter upper-cased, so it no longer
   * reads as the language placeholder.
   */
  lemma CanonicalKeepsLangHole()
    ensures WikipediaCanonical("hello {{{lang}}}") == "Hello_{{{Lang}}}"
    ensures !Contains(WikipediaCanonical("hello {{{lang}}}"), LangHole)
  {
    CanonicalSpelled("hello {{{lang}}}", "Hello_{{{Lang}}}");
    WikipediaCanonicalNoLangHole("hello {{{lang}}}");
  }

  /** The canonical title brings in no `{` of its own. */
  lemma WikipediaCanonicalBraceFree(q: string)
    requires '{' !in q
    ensures '{' !in WikipediaCanonical(q)
  {
    var r := WikipediaCanonical(q);
    forall i | 0 <= i < |r| ensures r[i] != '{' {
      WikipediaCanonicalAt(q, i);
      assert q[i] in q;
    }
  }

  function Apply(t: Transformation, s: string): string {
    match t
    case WikipediaTitle => WikipediaCanonical(s)
  }

  /** The transformations applied left to right. */
  function ApplyAll(ts: seq<Transformation>, s: string): string
    decreases |ts|
  {
    if ts == [] then s else ApplyAll(ts[1..], Apply(ts[0], s))
  }

  // ---------------------------------------------------------------------------------------
  // Recognising a bang token

  /** A field is a bang candidate when it starts or ends with `!` and is not `!` itself. */
  predicate IsCandidate(f: string) {
    f != "!" && ("!" <= f || HasSuffix(f, "!"))
  }

  /** The trigger key of a field: every leading and trailing `!` removed, then lower-cased. */
  function Key(f: string): (k: string)
    ensures k == [] || (k[0] != '!' && k[|k| - 1] != '!')
    ensures IsLowerCase(k)
    ensures k == [] <==> forall i :: 0 <= i < |f| ==> f[i] == '!'
  {
    var t := Trim(f, '!');
    ToLowerIsLowerCase(t);
    ToLower(t)
  }

  /** "!!w", "w!" and "!W!" all have the key "w". */
  lemma KeyStripsBangs()
    ensures Key("!!w") == "w" && Key("w!") == "w" && Key("!W!") == "w"
  {
    KeyLeading("!!w", "w");
    KeyTrailing("w!", "w");
    KeyBoth("!W!", "W", "w");
  }

  lemma KeyLeading(f: string, w: string)
    requires f == "!!w" && w == "w"
    ensures Key(f) == w
  {
    TrimLeftLeading(f, w);
    assert TrimRight(w, '!') == w;
    assert ToLower(w) == w;
  }

  lemma TrimLeftLeading(f: string, w: string)
    requires f == "!!w" && w == "w"
    ensures TrimLeft(f, '!') == w
  {
    assert f[1..] == "!w" && f[1..][1..] == w;
    assert TrimLeft(f[1..][1..], '!') == w;
  }

  lemma KeyTrailing(f: string, w: string)
    requires f == "w!" && w == "w"
    ensures Key(f) == w
  {
    assert f[..1] == w;
    assert TrimLeft(f, '!') == f;
    assert Trim(f, '!') == w;
  }

  lemma KeyBoth(f: string, u: string, w: string)
    requires f == "!W!" && u == "W" && w == "w"
    ensures Key(f) == w
  {
    assert f[1..][..1] == u;
    assert TrimLeft(f, '!') == f[1..];
    assert Trim(f, '!') == u;
    assert ToLower(u) == w;
  }

  /** A word marked with one `!`, before or after it, is a candidate keyed by the word in lower case. */
  lemma KeyOfMarked(w: string)
    requires w != [] && '!' !in w
    ensures IsCandidate("!" + w) && Key("!" + w) == ToLower(w)
    ensures IsCandidate(w + "!") && Key(w + "!") == ToLower(w)
  {
    var s := "!" + w;
    assert s[1..] == w;
    assert TrimLeft(s, '!') == w;
    assert TrimRight(w, '!') == w;
    var t := w + "!";
    assert t[..|t| - 1] == w;
    assert TrimLeft(t, '!') == t;
    assert TrimRight(t, '!') == w;
    assert HasSuffix(t, "!");
  }

  /**
   * A word that neither starts nor ends with `!`, between runs of `!`, is keyed by the word in
   * lower case, and it is a candidate exactly when at least one of the runs is there.
   */
  lemma KeyOfRuns(a: string, w: string, b: string)
    requires forall i :: 0 <= i < |a| ==> a[i] == '!'
    requires forall i :: 0 <= i < |b| ==> b[i] == '!'
    requires w != [] && w[0] != '!' && w[|w| - 1] != '!'
    ensures Key(a + w + b) == ToLower(w)
    ensures IsCandidate(a + w + b) <==> a != [] || b != []
  {
    TrimRuns(a, w, b, '!');
    CandidateOfRuns(a, w, b);
  }

  lemma CandidateOfRuns(a: string, w: string, b: string)
    requires forall i :: 0 <= i < |a| ==> a[i] == '!'
    requires forall i :: 0 <= i < |b| ==> b[i] == '!'
    requires w != [] && w[0] != '!' && w[|w| - 1] != '!'
    ensures IsCandidate(a + w + b) <==> a != [] || b != []
  {
    var f := a + w + b;
    assert |f| > |a| + |b| && f[0] == (if a == [] then w[0] else a[0]);
    assert f[|f| - 1] == if b == [] then w[|w| - 1] else b[|b| - 1];
    assert "!" <= f <==> f[0] == '!';
    assert HasSuffix(f, "!") <==> f[|f| - 1] == '!';
  }

  lemma CandidateExamples()
    ensures Key("!!") == ""
    ensures IsCandidate("!!w") && IsCandidate("w!") && IsCandidate("!W!") && IsCandidate("!!")
    ensures !IsCandidate("!") && !IsCandidate("w")
  {
  }

  /** Linear search of a key among a bang's triggers. */
  function Trigger(k: string, triggers: seq<string>): (hit: bool)
    ensures hit <==> k in triggers
  {
    if triggers == [] then false
    else if k == triggers[0] then true
    else Trigger(k, triggers[1..])
  }

  /** Some bang of the registry has `k` among its triggers. */
  predicate Hits(k: string, bangs: seq<Bang>) {
    exists j :: 0 <= j < |bangs| && k in bangs[j].triggers
  }

  /** A field that dispatches: a candidate whose key is some bang's trigger. */
  predicate IsBangField(f: string, bangs: seq<Bang>) {
    IsCandidate(f) && Hits(Key(f), bangs)
  }

  // ---------------------------------------------------------------------------------------
  // Choosing and filling a URL template

  /** The first of the candidate region keys present in `regions`, and its template. */
  function PickTemplate(regions: map<string, string>, keys: seq<string>): Option<string>
    decreases |keys|
  {
    if keys == [] then None
    else if keys[0] in regions then Some(regions[keys[0]])
    else PickTemplate(regions, keys[1..])
  }

  /** The region keys tried, in order: the lower-cased region, then `default`. */
  function RegionKeys(region: string): seq<string> {
    [ToLower(region), Default]
  }

  /** The template for a region: its own if the bang has one, else the default one, else none. */
  function RegionTemplate(regions: map<string, string>, region: string): (u: Option<string>)
    ensures ToLower(region) in regions ==> u == Some(regions[ToLower(region)])
    ensures ToLower(region) !in regions && Default in regions ==> u == Some(regions[Default])
    ensures ToLower(region) !in regions && Default !in regions ==> u == None
  {
    var keys := RegionKeys(region);
    assert keys[1..] == [Default] && keys[1..][1..] == [];
    assert ToLower(region) !in regions ==> PickTemplate(regions, keys) == PickTemplate(regions, [Default]);
    assert Default !in regions ==> PickTemplate(regions, [Default]) == PickTemplate(regions, []);
    PickTemplate(regions, keys)
  }

  /** Every `{{{term}}}`, then every `{{{lang}}}`, replaced literally. */
  function Substitute(u: string, term: string, lang: string): string {
    ReplaceAll(ReplaceAll(u, TermHole, term), LangHole, lang)
  }

  /**
   * A template whose only `{` characters are those of its placeholders: `{{{lang}}}` always,
   * and `{{{term}}}` when `term` holds.
   */
  predicate PlaceholdersOnly(s: string, term: bool)
    decreases |s|
  {
    if s == [] then true
    else if term && TermHole <= s then PlaceholdersOnly(s[|TermHole|..], term)
    else if LangHole <= s then PlaceholdersOnly(s[|LangHole|..], term)
    else s[0] != '{' && PlaceholdersOnly(s[1..], term)
  }

  lemma {:induction false} PlainThenPlaceholders(a: string, rest: string, term: bool)
    requires '{' !in a && PlaceholdersOnly(rest, term)
    ensures PlaceholdersOnly(a + rest, term)
  {
    if a == [] {
      assert a + rest == rest;
    } else {
      var s := a + rest;
      assert s[0] == a[0] != '{' && TermHole[0] == '{' && LangHole[0] == '{';
      assert s[1..] == a[1..] + rest;
      PlainThenPlaceholders(a[1..], rest, term);
    }
  }

  lemma HoleThenPlaceholders(h: string, rest: string, term: bool)
    requires h == LangHole || (term && h == TermHole)
    requires PlaceholdersOnly(rest, term)
    ensures PlaceholdersOnly(h + rest, term)
  {
    var s := h + rest;
    assert s[..|h|] == h && s[|h|..] == rest;
    if h == LangHole {
      assert s[3] == 'l' != TermHole[3];
    }
  }

  lemma HoleChars()
    ensures |TermHole| == |LangHole| == 10
    ensures TermHole[0] == TermHole[1] == TermHole[2] == '{'
    ensures LangHole[0] == LangHole[1] == LangHole[2] == '{'
    ensures TermHole[3] == 't' && LangHole[3] == 'l'
    ensures '{' !in TermHole[3..] && '{' !in LangHole[3..]
  {
    assert TermHole[3..] == "term}}}";
    assert LangHole[3..] == "lang}}}";
  }

  /** A string that differs from `p` at some position `k` does not start with `p`. */
  lemma NotPrefixAt(p: string, s: string, k: nat)
    requires k < |p| && k < |s| && p[k] != s[k]
    ensures !(p <= s)
  {
  }

  /** One placeholder is copied unchanged when the other one is being replaced. */
  lemma OtherHoleSkipped(q: string, rest: string, p: string, rep: string)
    requires (p == TermHole && q == LangHole) || (p == LangHole && q == TermHole)
    ensures ReplaceAll(q + rest, p, rep) == q + ReplaceAll(rest, p, rep)
  {
    HoleChars();
    BracesThenOther(q, rest, p, rep);
  }

  lemma BracesThenOther(q: string, rest: string, p: string, rep: string)
    requires |q| > 3 && |p| > 3
    requires q[0] == q[1] == q[2] == p[0] == p[1] == p[2] == '{'
    requires q[3] != p[3] && '{' !in q[3..]
    ensures ReplaceAll(q + rest, p, rep) == q + ReplaceAll(rest, p, rep)
  {
    var s := q + rest;
    var s1 := q[1..] + rest;
    BracesTail(q, rest, p, rep);
    assert s[1..] == s1 && s1[1..] == q[2..] + rest;
    NotPrefixAt(p, s, 3);
    NotPrefixAt(p, s1, 2);
    ReplaceAllMiss(s1, p, rep);
    ReplaceAllMiss(s, p, rep);
    assert q == [q[0], q[1]] + q[2..];
  }

  /** The third brace of `q` and what follows it are copied as in `BracesThenOther`. */
  lemma BracesTail(q: string, rest: string, p: string, rep: string)
    requires |q| > 3 && |p| > 3
    requires q[2] == p[0] == p[1] == p[2] == '{'
    requires q[3] != p[3] && '{' !in q[3..]
    ensures ReplaceAll(q[2..] + rest, p, rep) == q[2..] + ReplaceAll(rest, p, rep)
  {
    var s2 := q[2..] + rest;
    assert s2[1..] == q[3..] + rest;
    NotPrefixAt(p, s2, 1);
    ReplaceAllSkips(q[3..], rest, p, rep);
    ReplaceAllMiss(s2, p, rep);
    assert q[2..] == [q[2]] + q[3..];
  }

  lemma {:induction false} TermStep(u: string, term: string)
    requires PlaceholdersOnly(u, true) && '{' !in term
    ensures PlaceholdersOnly(ReplaceAll(u, TermHole, term), false)
    decreases |u|
  {
    if u == [] {
    } else if TermHole <= u {
      var rest := u[|TermHole|..];
      TermStep(rest, term);
      PlainThenPlaceholders(term, ReplaceAll(rest, TermHole, term), false);
    } else if LangHole <= u {
      var rest := u[|LangHole|..];
      assert u == LangHole + rest;
      OtherHoleSkipped(LangHole, rest, TermHole, term);
      TermStep(rest, term);
      HoleThenPlaceholders(LangHole, ReplaceAll(rest, TermHole, term), false);
    } else {
      assert u[0] != '{';
      assert ReplaceAll(u, TermHole, term) == [u[0]] + ReplaceAll(u[1..], TermHole, term);
      TermStep(u[1..], term);
      PlainThenPlaceholders([u[0]], ReplaceAll(u[1..], TermHole, term), false);
    }
  }

  lemma {:induction false} LangStep(v: string, lang: string)
    requires PlaceholdersOnly(v, false) && '{' !in lang
    ensures '{' !in ReplaceAll(v, LangHole, lang)
    decreases |v|
  {
    if v == [] {
    } else if LangHole <= v {
      LangStep(v[|LangHole|..], lang);
    } else {
      assert ReplaceAll(v, LangHole, lang) == [v[0]] + ReplaceAll(v[1..], LangHole, lang);
      LangStep(v[1..], lang);
    }
  }

  /**
   * Substitution is complete when the term and the language tag hold no `{`: the URL then holds
   * neither placeholder (nor any `{` at all).
   */
  lemma FullSubstitution(u: string, term: string, lang: string)
    requires PlaceholdersOnly(u, true) && '{' !in term && '{' !in lang
    ensures '{' !in Substitute(u, term, lang)
    ensures !Contains(Substitute(u, term, lang), TermHole) && !Contains(Substitute(u, term, lang), LangHole)
  {
    TermStep(u, term);
    LangStep(ReplaceAll(u, TermHole, term), lang);
    NotContainsWithout(Substitute(u, term, lang), TermHole);
    NotContainsWithout(Substitute(u, term, lang), LangHole);
  }

  /** Substituting into `a{{{term}}}`. */
  lemma SubstituteTerm(a: string, term: string, lang: string)
    requires '{' !in a && '{' !in term
    ensures Substitute(a + TermHole, term, lang) == a + term
  {
    ReplaceAllSkips(a, TermHole, TermHole, term);
    ReplaceAllHit([], TermHole, term);
    assert TermHole + [] == TermHole && term + [] == term;
    ReplaceAllSkips(a + term, [], LangHole, lang);
    assert a + term + [] == a + term;
  }

  /**
   * Substituting into `a{{{lang}}}b{{{term}}}`: a term without `{{{lang}}}` is put in as it is,
   * so a term that is itself `{{{term}}}` survives, and the language tag is not scanned again.
   */
  lemma SubstituteLangTerm(a: string, b: string, term: string, lang: string)
    requires '{' !in a && '{' !in b
    requires !Contains(term, LangHole)
    ensures Substitute(a + LangHole + b + TermHole, term, lang) == a + lang + b + term
  {
    HoleChars();
    FillTerm(a, b, term, LangHole, TermHole);
    FillLang(a, b, term, lang, LangHole);
    assert a + (lang + (b + (term + []))) == a + lang + b + term;
  }

  /**
   * The term goes in before the language tag, so a `{{{lang}}}` that the term brings into the
   * URL is replaced in turn.
   */
  lemma SubstituteLangInTerm(a: string, lang: string)
    requires '{' !in a && '{' !in lang
    ensures Substitute(a + TermHole, LangHole, lang) == a + lang
  {
    HoleChars();
    ReplaceAllSkips(a, TermHole, TermHole, LangHole);
    ReplaceAllHit([], TermHole, LangHole);
    assert TermHole + [] == TermHole && LangHole + [] == LangHole;
    ReplaceAllSkips(a, LangHole, LangHole, lang);
    ReplaceAllHit([], LangHole, lang);
    assert lang + [] == lang;
  }

  lemma FillTerm(a: string, b: string, term: string, q: string, p: string)
    requires q == LangHole && p == TermHole
    requires '{' !in a && '{' !in b && p[0] == '{'
    ensures ReplaceAll(a + q + b + p, p, term) == a + (q + (b + (term + [])))
  {
    var tail := b + (p + []);
    assert a + q + b + p == a + (q + tail);
    ReplaceAllHit([], p, term);
    ReplaceAllSkips(b, p + [], p, term);
    assert ReplaceAll(tail, p, term) == b + (term + []);
    OtherHoleSkipped(q, tail, p, term);
    ReplaceAllSkips(a, q + tail, p, term);
  }

  lemma FillLang(a: string, b: string, term: string, lang: string, q: string)
    requires q == LangHole && q[0] == '{'
    requires '{' !in a && '{' !in b
    requires !Contains(term, q)
    ensures ReplaceAll(a + (q + (b + (term + []))), q, lang) == a + (lang + (b + (term + [])))
  {
    ReplaceAllSkips(a, q + (b + (term + [])), q, lang);
    ReplaceAllHit(b + (term + []), q, lang);
    ReplaceAllSkips(b, term + [], q, lang);
    assert term + [] == term;
    ReplaceAllAbsent(term, q, lang);
  }

  /** `{{{lang}}}` does not occur in `{{{term}}}`. */
  lemma TermHoleLacksLangHole()
    ensures !Contains(TermHole, LangHole)
  {
    HoleChars();
    forall p | 0 <= p <= |TermHole| ensures !OccursAt(TermHole, LangHole, p) {
      if p == 0 {
        assert TermHole[0..|LangHole|][3] != LangHole[3];
      }
    }
  }

  /** The URL a bang gives for the remaining fields, if it has a template for the region. */
  function Expand(b: Bang, rest: seq<string>, region: string, lang: string): Option<string> {
    match RegionTemplate(b.regions, region)
    case None => None
    case Some(u) => Some(Substitute(u, ApplyAll(b.transformations, Join(rest, " ")), lang))
  }

  // ---------------------------------------------------------------------------------------
  // Detect, as written and as intended

  /** The fields without the one at index `i`, in their original order. */
  function Remove(fields: seq<string>, i: nat): (r: seq<string>)
    requires i < |fields|
    ensures |r| == |fields| - 1
  {
    fields[..i] + fields[i + 1..]
  }

  /** Removing the field between `pre` and `post` leaves `pre + post`. */
  lemma RemoveBetween(pre: seq<string>, f: string, post: seq<string>)
    ensures Remove(pre + [f] + post, |pre|) == pre + post
  {
    var s := pre + [f] + post;
    assert s[..|pre|] == pre && s[|pre| + 1..] == post;
  }

  /**
   * The field list after `append(fields[:i], fields[i+1:]...)`: that call writes into the
   * backing array of `fields`, so the later fields move down one place and the last one stays.
   */
  function Shifted(fields: seq<string>, i: nat): (r: seq<string>)
    requires i < |fields|
    ensures |r| == |fields|
  {
    Remove(fields, i) + [fields[|fields| - 1]]
  }

  /**
   * Detect as written, from field `i` on: the fields are scanned left to right, and the first
   * candidate whose key a bang triggers on, with a template for the region, gives the URL.
   */
  function ScanFields(fields: seq<string>, i: nat, bangs: seq<Bang>, region: string, lang: string)
    : (string, bool)
    requires i <= |fields|
    decreases |fields| - i, |bangs| + 1
  {
    if i == |fields| then ("", false)
    else if !IsCandidate(fields[i]) then ScanFields(fields, i + 1, bangs, region, lang)
    else ScanBangs(fields, i, Key(fields[i]), bangs, 0, region, lang)
  }

  /**
   * The bangs tried, in registry order, for the key `k` of field `i`. A bang that triggers but
   * has no template leaves the fields shifted (see Shifted) for the bangs after it.
   */
  function ScanBangs(fields: seq<string>, i: nat, k: string, bangs: seq<Bang>, j: nat,
                     region: string, lang: string): (string, bool)
    requires i < |fields| && j <= |bangs|
    decreases |fields| - i, |bangs| - j
  {
    if j == |bangs| then ScanFields(fields, i + 1, bangs, region, lang)
    else if k !in bangs[j].triggers then ScanBangs(fields, i, k, bangs, j + 1, region, lang)
    else match Expand(bangs[j], Remove(fields, i), region, lang)
      case Some(u) => (u, true)
      case None => ScanBangs(Shifted(fields, i), i, k, bangs, j + 1, region, lang)
  }

  /** Detect as written. */
  function DetectAsWritten(bangs: seq<Bang>, q: string, region: string, lang: string): (string, bool) {
    ScanFields(Fields(q), 0, bangs, region, lang)
  }

  /** Detect as intended, from field `i` on: every bang sees the same, unshifted, fields. */
  function ScanFieldsIntended(fields: seq<string>, i: nat, bangs: seq<Bang>, region: string, lang: string)
    : (string, bool)
    requires i <= |fields|
    decreases |fields| - i, |bangs| + 1
  {
    if i == |fields| then ("", false)
    else if !IsCandidate(fields[i]) then ScanFieldsIntended(fields, i + 1, bangs, region, lang)
    else ScanBangsIntended(fields, i, Key(fields[i]), bangs, 0, region, lang)
  }

  function ScanBangsIntended(fields: seq<string>, i: nat, k: string, bangs: seq<Bang>, j: nat,
                             region: string, lang: string): (string, bool)
    requires i < |fields| && j <= |bangs|
    decreases |fields| - i, |bangs| - j
  {
    if j == |bangs| then ScanFieldsIntended(fields, i + 1, bangs, region, lang)
    else if k !in bangs[j].triggers then ScanBangsIntended(fields, i, k, bangs, j + 1, region, lang)
    else match Expand(bangs[j], Remove(fields, i), region, lang)
      case Some(u) => (u, true)
      case None => ScanBangsIntended(fields, i, k, bangs, j + 1, region, lang)
  }

  /** Detect as intended. */
  function DetectIntended(bangs: seq<Bang>, q: string, region: string, lang: string): (string, bool) {
    ScanFieldsIntended(Fields(q), 0, bangs, region, lang)
  }

  /** Every bang has a `default` template, so a bang that triggers always yields a URL. */
  predicate EveryBangHasDefault(bangs: seq<Bang>) {
    forall j :: 0 <= j < |bangs| ==> Default in bangs[j].regions
  }

  lemma {:induction false} ScanFieldsAsIntended(fields: seq<string>, i: nat, bangs: seq<Bang>,
                                                region: string, lang: string)
    requires i <= |fields| && EveryBangHasDefault(bangs)
    ensures ScanFields(fields, i, bangs, region, lang) == ScanFieldsIntended(fields, i, bangs, region, lang)
    decreases |fields| - i, |bangs| + 1
  {
    if i < |fields| {
      if IsCandidate(fields[i]) {
        ScanBangsAsIntended(fields, i, Key(fields[i]), bangs, 0, region, lang);
      } else {
        ScanFieldsAsIntended(fields, i + 1, bangs, region, lang);
      }
    }
  }

  lemma {:induction false} ScanBangsAsIntended(fields: seq<string>, i: nat, k: string, bangs: seq<Bang>,
                                               j: nat, region: string, lang: string)
    requires i < |fields| && j <= |bangs| && EveryBangHasDefault(bangs)
    ensures ScanBangs(fields, i, k, bangs, j, region, lang)
         == ScanBangsIntended(fields, i, k, bangs, j, region, lang)
    decreases |fields| - i, |bangs| - j
  {
    if j == |bangs| {
      ScanFieldsAsIntended(fields, i + 1, bangs, region, lang);
    } else if k !in bangs[j].triggers {
      ScanBangsAsIntended(fields, i, k, bangs, j + 1, region, lang);
    } else {
      assert Default in bangs[j].regions;
      assert RegionTemplate(bangs[j].regions, region).Some?;
    }
  }

  /**
   * When every bang has a `default` template, the as-written scan (which shifts the fields when a
   * triggering bang lacks a template) and the intended one agree.
   */
  lemma DetectAsWrittenIsIntended(bangs: seq<Bang>, q: string, region: string, lang: string)
    requires EveryBangHasDefault(bangs)
    ensures DetectAsWritten(bangs, q, region, lang) == DetectIntended(bangs, q, region, lang)
  {
    ScanFieldsAsIntended(Fields(q), 0, bangs, region, lang);
  }

  /** What the intended scan promises for any registry: a URL comes from one bang field and its bang. */
  predicate ExpandsSomeField(fields: seq<string>, from: nat, bangs: seq<Bang>, region: string, lang: string,
                             url: string)
  {
    exists i, j :: from <= i < |fields| && 0 <= j < |bangs| && IsCandidate(fields[i]) &&
      Key(fields[i]) in bangs[j].triggers && Expand(bangs[j], Remove(fields, i), region, lang) == Some(url)
  }

  /**
   * As intended, whatever the registry: when the scan gives a URL, it is some triggering bang's
   * expansion of every field but the bang field, in their original order; otherwise the URL is empty.
   */
  lemma {:induction false} IntendedRemainder(fields: seq<string>, from: nat, bangs: seq<Bang>,
                                             region: string, lang: string)
    requires from <= |fields|
    ensures var r := ScanFieldsIntended(fields, from, bangs, region, lang);
      (r.1 ==> ExpandsSomeField(fields, from, bangs, region, lang, r.0)) && (!r.1 ==> r.0 == "")
    decreases |fields| - from, |bangs| + 1
  {
    if from < |fields| {
      if IsCandidate(fields[from]) {
        IntendedBangRemainder(fields, from, bangs, 0, region, lang);
      } else {
        IntendedRemainder(fields, from + 1, bangs, region, lang);
        var r := ScanFieldsIntended(fields, from + 1, bangs, region, lang);
        if r.1 {
          ExpandsSomeFieldFrom(fields, from, bangs, region, lang, r.0);
        }
      }
    }
  }

  /** A field from `from + 1` on is also a field from `from` on. */
  lemma ExpandsSomeFieldFrom(fields: seq<string>, from: nat, bangs: seq<Bang>, region: string, lang: string,
                             url: string)
    requires ExpandsSomeField(fields, from + 1, bangs, region, lang, url)
    ensures ExpandsSomeField(fields, from, bangs, region, lang, url)
  {
    var i, j :| from + 1 <= i < |fields| && 0 <= j < |bangs| && IsCandidate(fields[i]) &&
      Key(fields[i]) in bangs[j].triggers && Expand(bangs[j], Remove(fields, i), region, lang) == Some(url);
  }

  lemma {:induction false} IntendedBangRemainder(fields: seq<string>, from: nat, bangs: seq<Bang>, j: nat,
                                                 region: string, lang: string)
    requires from < |fields| && j <= |bangs| && IsCandidate(fields[from])
    ensures var r := ScanBangsIntended(fields, from, Key(fields[from]), bangs, j, region, lang);
      (r.1 ==> ExpandsSomeField(fields, from, bangs, region, lang, r.0)) && (!r.1 ==> r.0 == "")
    decreases |fields| - from, |bangs| - j
  {
    var k := Key(fields[from]);
    if j == |bangs| {
      IntendedRemainder(fields, from + 1, bangs, region, lang);
      var r := ScanFieldsIntended(fields, from + 1, bangs, region, lang);
      if r.1 {
        ExpandsSomeFieldFrom(fields, from, bangs, region, lang, r.0);
      }
    } else if k !in bangs[j].triggers {
      IntendedBangRemainder(fields, from, bangs, j + 1, region, lang);
    } else if Expand(bangs[j], Remove(fields, from), region, lang).None? {
      IntendedBangRemainder(fields, from, bangs, j + 1, region, lang);
    }
  }

  /**
   * The shift shows when a triggering bang has no template: with bangs X (no template) and Y
   * (template "{{{term}}}") both triggered by "x", the fields "!x a b c" reach Y as "b c c"
   * instead of "a b c".
   */
  lemma ShiftedRemainder()
    ensures var bangs := [Bang("X", ["x"], map[], []), Bang("Y", ["x"], map[Default := TermHole], [])];
      var fields := ["!x", "a", "b", "c"];
      ScanFields(fields, 0, bangs, "US", "en") == ("b c c", true) &&
      ScanFieldsIntended(fields, 0, bangs, "US", "en") == ("a b c", true)
  {
    var bangs := [Bang("X", ["x"], map[], []), Bang("Y", ["x"], map[Default := TermHole], [])];
    var fields := ["!x", "a", "b", "c"];
    ShiftedScan(fields, bangs, "b c c");
    UnshiftedScan(fields, bangs, "a b c");
  }

  /** The registry of the shift example: X triggers on `x` without a template, then Y. */
  lemma ShiftRegistry(bangs: seq<Bang>)
    requires bangs == [Bang("X", ["x"], map[], []), Bang("Y", ["x"], map[Default := TermHole], [])]
    ensures |bangs| == 2 && "x" in bangs[0].triggers && "x" in bangs[1].triggers
    ensures forall rest :: Expand(bangs[0], rest, "US", "en") == None
  {
    assert RegionTemplate(bangs[0].regions, "US") == None;
  }

  /** Y expands three words to the words joined by spaces. */
  lemma ShiftRegistryY(y: Bang, a: string, b: string, c: string, u: string)
    requires y == Bang("Y", ["x"], map[Default := TermHole], [])
    requires '{' !in a && '{' !in b && '{' !in c && u == a + " " + (b + " " + c)
    ensures Expand(y, [a, b, c], "US", "en") == Some(u)
  {
    assert RegionTemplate(y.regions, "US") == Some(TermHole);
    FillThree(a, b, c, "en");
  }

  /** Three one-letter words joined by spaces. */
  lemma SpacedLetters(a: string, b: string, c: string, u: string)
    requires |a| == |b| == |c| == 1 && u == [a[0], ' ', b[0], ' ', c[0]]
    ensures u == a + " " + (b + " " + c)
  {
  }

  lemma ShiftedScan(fields: seq<string>, bangs: seq<Bang>, u: string)
    requires fields == ["!x", "a", "b", "c"] && u == "b c c"
    requires bangs == [Bang("X", ["x"], map[], []), Bang("Y", ["x"], map[Default := TermHole], [])]
    ensures ScanFields(fields, 0, bangs, "US", "en") == (u, true)
  {
    MarkedX(fields[0]);
    ShiftRegistry(bangs);
    var shifted := Shifted(fields, 0);
    ShiftedOnce(fields, shifted);
    ShiftedReachesY(shifted, bangs, u);
  }

  /** Shifting "!x a b c" at the first field gives "a b c c". */
  lemma ShiftedOnce(fields: seq<string>, shifted: seq<string>)
    requires fields == ["!x", "a", "b", "c"] && shifted == Shifted(fields, 0)
    ensures shifted == ["a", "b", "c", "c"]
  {
    assert Remove(fields, 0) == ["a", "b", "c"];
  }

  /** Y, the second bang, sees the shifted fields without their first: "b c c". */
  lemma ShiftedReachesY(shifted: seq<string>, bangs: seq<Bang>, u: string)
    requires shifted == ["a", "b", "c", "c"] && u == "b c c"
    requires bangs == [Bang("X", ["x"], map[], []), Bang("Y", ["x"], map[Default := TermHole], [])]
    ensures ScanBangs(shifted, 0, "x", bangs, 1, "US", "en") == (u, true)
  {
    assert Remove(shifted, 0) == ["b", "c", "c"];
    SpacedLetters("b", "c", "c", u);
    ShiftRegistryY(bangs[1], "b", "c", "c", u);
  }

  lemma UnshiftedScan(fields: seq<string>, bangs: seq<Bang>, u: string)
    requires fields == ["!x", "a", "b", "c"] && u == "a b c"
    requires bangs == [Bang("X", ["x"], map[], []), Bang("Y", ["x"], map[Default := TermHole], [])]
    ensures ScanFieldsIntended(fields, 0, bangs, "US", "en") == (u, true)
  {
    MarkedX(fields[0]);
    ShiftRegistry(bangs);
    assert Remove(fields, 0) == ["a", "b", "c"];
    SpacedLetters("a", "b", "c", u);
    ShiftRegistryY(bangs[1], "a", "b", "c", u);
    assert ScanBangsIntended(fields, 0, "x", bangs, 1, "US", "en") == (u, true);
  }

  /** The shifted remainder "b c c" is not what any bang field of "!x a b c" expands to. */
  lemma ShiftedRemainderUnintended()
    ensures var bangs := [Bang("X", ["x"], map[], []), Bang("Y", ["x"], map[Default := TermHole], [])];
      !ExpandsSomeField(["!x", "a", "b", "c"], 0, bangs, "US", "en", "b c c")
  {
    var bangs := [Bang("X", ["x"], map[], []), Bang("Y", ["x"], map[Default := TermHole], [])];
    NoFieldExpandsTo(["!x", "a", "b", "c"], bangs, "a b c", "b c c");
  }

  lemma NoFieldExpandsTo(fields: seq<string>, bangs: seq<Bang>, u: string, v: string)
    requires fields == ["!x", "a", "b", "c"] && u == "a b c" && v == "b c c"
    requires bangs == [Bang("X", ["x"], map[], []), Bang("Y", ["x"], map[Default := TermHole], [])]
    ensures !ExpandsSomeField(fields, 0, bangs, "US", "en", v)
  {
    ShiftRegistry(bangs);
    OnlyFirstCandidate(fields);
    assert Remove(fields, 0) == ["a", "b", "c"];
    SpacedLetters("a", "b", "c", u);
    ShiftRegistryY(bangs[1], "a", "b", "c", u);
    assert u[0] != v[0];
    OnlyExpansion(fields, bangs, u, v, "US", "en");
  }

  /**
   * With only the first field a candidate, and of two bangs only the second expanding the other
   * fields, to `u`, no bang field expands to anything but `u`.
   */
  lemma OnlyExpansion(fields: seq<string>, bangs: seq<Bang>, u: string, v: string, region: string, lang: string)
    requires |bangs| == 2 && |fields| > 0 && u != v
    requires forall i :: 0 < i < |fields| ==> !IsCandidate(fields[i])
    requires Expand(bangs[0], Remove(fields, 0), region, lang) == None
    requires Expand(bangs[1], Remove(fields, 0), region, lang) == Some(u)
    ensures !ExpandsSomeField(fields, 0, bangs, region, lang, v)
  {
    forall i, j | 0 <= i < |fields| && 0 <= j < |bangs| && IsCandidate(fields[i])
      ensures Expand(bangs[j], Remove(fields, i), region, lang) != Some(v)
    {
      assert i == 0 && (j == 0 || j == 1);
    }
  }

  /** Of "!x a b c", only the first field is a candidate. */
  lemma OnlyFirstCandidate(fields: seq<string>)
    requires fields == ["!x", "a", "b", "c"]
    ensures forall i :: 0 < i < |fields| ==> !IsCandidate(fields[i])
  {
    forall i | 0 < i < |fields| ensures !IsCandidate(fields[i]) {
      assert |fields[i]| == 1 && fields[i][0] != '!';
      UnmarkedNotCandidate(fields[i]);
    }
  }

  lemma MarkedX(f: string)
    requires f == "!x"
    ensures IsCandidate(f) && Key(f) == "x"
  {
    var w := "x";
    assert f == "!" + w;
    KeyOfMarked(w);
    ToLowerIsLowerCase(w);
  }

  /** The bare template "{{{term}}}" filled with three words. */
  lemma FillThree(a: string, b: string, c: string, lang: string)
    requires '{' !in a && '{' !in b && '{' !in c
    ensures Substitute(TermHole, Join([a, b, c], " "), lang) == a + " " + (b + " " + c)
  {
    var ws := [a, b, c];
    assert ws[1..] == [b, c] && [b, c][1..] == [c];
    assert Join([c], " ") == c;
    assert Join([b, c], " ") == b + " " + c;
    var t := Join(ws, " ");
    assert t == a + " " + (b + " " + c);
    SubstituteTerm([], t, lang);
    assert [] + TermHole == TermHole && [] + t == t;
  }

  /** With no field that is a candidate and a hit, there is no bang, whatever the registry. */
  lemma {:induction false} NoBangFieldNoMatch(fields: seq<string>, i: nat, bangs: seq<Bang>,
                                              region: string, lang: string)
    requires i <= |fields|
    requires forall m :: i <= m < |fields| ==> !IsBangField(fields[m], bangs)
    ensures ScanFields(fields, i, bangs, region, lang) == ("", false)
    decreases |fields| - i
  {
    if i < |fields| {
      if IsCandidate(fields[i]) {
        NoHitScansOn(fields, i, bangs, 0, region, lang);
      }
      NoBangFieldNoMatch(fields, i + 1, bangs, region, lang);
    }
  }

  lemma {:induction false} NoHitScansOn(fields: seq<string>, i: nat, bangs: seq<Bang>, j: nat,
                                        region: string, lang: string)
    requires i < |fields| && j <= |bangs| && !Hits(Key(fields[i]), bangs)
    ensures ScanBangs(fields, i, Key(fields[i]), bangs, j, region, lang)
         == ScanFields(fields, i + 1, bangs, region, lang)
    decreases |bangs| - j
  {
    if j < |bangs| {
      NoHitScansOn(fields, i, bangs, j + 1, region, lang);
    }
  }

  /** The first bang, in registry order, that has `k` among its triggers. */
  function FirstOwner(k: string, bangs: seq<Bang>, from: nat): (r: Option<nat>)
    requires from <= |bangs|
    ensures r.Some? ==> from <= r.value < |bangs| && k in bangs[r.value].triggers
    ensures r.Some? ==> forall j :: from <= j < r.value ==> k !in bangs[j].triggers
    ensures r.None? ==> forall j :: from <= j < |bangs| ==> k !in bangs[j].triggers
    decreases |bangs| - from
  {
    if from == |bangs| then None
    else if k in bangs[from].triggers then Some(from)
    else FirstOwner(k, bangs, from + 1)
  }

  /** The first field, left to right, that is a candidate whose key some bang triggers on. */
  function FirstBangField(fields: seq<string>, bangs: seq<Bang>, from: nat): (r: Option<nat>)
    requires from <= |fields|
    ensures r.Some? ==> from <= r.value < |fields| && IsBangField(fields[r.value], bangs)
    ensures forall m :: from <= m < (if r.Some? then r.value else |fields|) ==> !IsBangField(fields[m], bangs)
    decreases |fields| - from
  {
    if from == |fields| then None
    else if IsBangField(fields[from], bangs) then Some(from)
    else FirstBangField(fields, bangs, from + 1)
  }

  /**
   * The meaning of Detect when every bang has a `default` template: no URL when no field is a
   * bang; otherwise the first bang field dispatches, to the first bang that owns its key, with
   * every other field, in order, joined by single spaces as the remainder.
   */
  function Dispatch(fields: seq<string>, bangs: seq<Bang>, region: string, lang: string): (string, bool)
  {
    match FirstBangField(fields, bangs, 0)
    case None => ("", false)
    case Some(i) =>
      var j := FirstOwner(Key(fields[i]), bangs, 0);
      if j.None? then ("", false)
      else match Expand(bangs[j.value], Remove(fields, i), region, lang)
        case None => ("", false)
        case Some(u) => (u, true)
  }

  lemma {:induction false} ScanFieldsIsDispatch(fields: seq<string>, from: nat, bangs: seq<Bang>,
                                                region: string, lang: string)
    requires from <= |fields| && EveryBangHasDefault(bangs)
    ensures ScanFieldsIntended(fields, from, bangs, region, lang)
         == match FirstBangField(fields, bangs, from)
            case None => ("", false)
            case Some(i) => (Expand(bangs[FirstOwner(Key(fields[i]), bangs, 0).value],
                                    Remove(fields, i), region, lang).value, true)
    decreases |fields| - from
  {
    if from < |fields| {
      var f := fields[from];
      if !IsCandidate(f) {
        ScanFieldsIsDispatch(fields, from + 1, bangs, region, lang);
      } else if !Hits(Key(f), bangs) {
        IntendedNoHitScansOn(fields, from, bangs, 0, region, lang);
        ScanFieldsIsDispatch(fields, from + 1, bangs, region, lang);
      } else {
        var j := FirstOwner(Key(f), bangs, 0);
        IntendedScansToOwner(fields, from, bangs, 0, region, lang);
        assert Default in bangs[j.value].regions;
      }
    }
  }

  lemma {:induction false} IntendedNoHitScansOn(fields: seq<string>, i: nat, bangs: seq<Bang>, j: nat,
                                                region: string, lang: string)
    requires i < |fields| && j <= |bangs| && !Hits(Key(fields[i]), bangs)
    ensures ScanBangsIntended(fields, i, Key(fields[i]), bangs, j, region, lang)
         == ScanFieldsIntended(fields, i + 1, bangs, region, lang)
    decreases |bangs| - j
  {
    if j < |bangs| {
      IntendedNoHitScansOn(fields, i, bangs, j + 1, region, lang);
    }
  }

  lemma {:induction false} IntendedScansToOwner(fields: seq<string>, i: nat, bangs: seq<Bang>, j: nat,
                                                region: string, lang: string)
    requires i < |fields| && j <= |bangs|
    requires FirstOwner(Key(fields[i]), bangs, j).Some?
    requires EveryBangHasDefault(bangs)
    ensures var o := FirstOwner(Key(fields[i]), bangs, j).value;
      ScanBangsIntended(fields, i, Key(fields[i]), bangs, j, region, lang)
      == (Expand(bangs[o], Remove(fields, i), region, lang).value, true)
    decreases |bangs| - j
  {
    var k := Key(fields[i]);
    if k !in bangs[j].triggers {
      IntendedScansToOwner(fields, i, bangs, j + 1, region, lang);
    } else {
      assert Default in bangs[j].regions;
    }
  }

  /** FirstOwner from 0 agrees with FirstOwner from a later bang, when none before it owns `k`. */
  lemma {:induction false} FirstOwnerFrom(k: string, bangs: seq<Bang>, j: nat)
    requires j <= |bangs|
    requires forall m :: 0 <= m < j ==> k !in bangs[m].triggers
    ensures FirstOwner(k, bangs, 0) == FirstOwner(k, bangs, j)
    decreases j
  {
    if j > 0 {
      FirstOwnerFrom(k, bangs, j - 1);
    }
  }

  /**
   * Detect when field `i` is the first bang field of the query: the first bang owning its key
   * expands every other field with its template for the region.
   */
  lemma DetectField(bangs: seq<Bang>, q: string, region: string, lang: string, i: nat, j: nat, u: string)
    requires i < |Fields(q)| && IsBangField(Fields(q)[i], bangs)
    requires forall m :: 0 <= m < i ==> !IsBangField(Fields(q)[m], bangs)
    requires FirstOwner(Key(Fields(q)[i]), bangs, 0) == Some(j)
    requires j < |bangs| && RegionTemplate(bangs[j].regions, region) == Some(u)
    ensures DetectAsWritten(bangs, q, region, lang)
         == (Substitute(u, ApplyAll(bangs[j].transformations, Join(Remove(Fields(q), i), " ")), lang), true)
  {
    var fields := Fields(q);
    var url := Substitute(u, ApplyAll(bangs[j].transformations, Join(Remove(fields, i), " ")), lang);
    ScanToField(fields, 0, i, bangs, region, lang);
    ScanBangsToOwner(fields, i, bangs, 0, j, url, region, lang);
  }

  /** The scan passes over fields that are not bang fields without shifting anything. */
  lemma {:induction false} ScanToField(fields: seq<string>, from: nat, i: nat, bangs: seq<Bang>,
                                       region: string, lang: string)
    requires from <= i < |fields|
    requires forall m :: from <= m < i ==> !IsBangField(fields[m], bangs)
    ensures ScanFields(fields, from, bangs, region, lang) == ScanFields(fields, i, bangs, region, lang)
    decreases i - from
  {
    if from < i {
      ScanSkipsField(fields, from, bangs, region, lang);
      ScanToField(fields, from + 1, i, bangs, region, lang);
    }
  }

  /** One field that is not a bang field is passed over. */
  lemma ScanSkipsField(fields: seq<string>, m: nat, bangs: seq<Bang>, region: string, lang: string)
    requires m < |fields| && !IsBangField(fields[m], bangs)
    ensures ScanFields(fields, m, bangs, region, lang) == ScanFields(fields, m + 1, bangs, region, lang)
  {
    if IsCandidate(fields[m]) {
      NoHitScansOn(fields, m, bangs, 0, region, lang);
    }
  }

  /** The bangs before the owner `o` do not trigger, so the owner's expansion is the URL. */
  lemma {:induction false} ScanBangsToOwner(fields: seq<string>, i: nat, bangs: seq<Bang>, j: nat, o: nat,
                                            url: string, region: string, lang: string)
    requires i < |fields| && j <= o < |bangs|
    requires forall m :: j <= m < o ==> Key(fields[i]) !in bangs[m].triggers
    requires Key(fields[i]) in bangs[o].triggers
    requires Expand(bangs[o], Remove(fields, i), region, lang) == Some(url)
    ensures ScanBangs(fields, i, Key(fields[i]), bangs, j, region, lang) == (url, true)
    decreases o - j
  {
    if j < o {
      ScanBangsToOwner(fields, i, bangs, j + 1, o, url, region, lang);
    }
  }

  /** A field without a `!` is never a candidate. */
  lemma UnmarkedNotCandidate(f: string)
    requires '!' !in f
    ensures !IsCandidate(f)
  {
    if f != [] {
      assert f[0] in f && f[|f| - 1] in f;
    }
  }

  /** A query whose only `!` are bare `!` fields has no bang, whatever the registry. */
  lemma UnmarkedQuery(bangs: seq<Bang>, q: string, region: string, lang: string)
    requires forall m :: 0 <= m < |Fields(q)| ==> Fields(q)[m] == "!" || '!' !in Fields(q)[m]
    ensures DetectAsWritten(bangs, q, region, lang) == ("", false)
  {
    var fields := Fields(q);
    forall m | 0 <= m < |fields| ensures !IsBangField(fields[m], bangs) {
      if fields[m] != "!" {
        UnmarkedNotCandidate(fields[m]);
      }
    }
    NoBangFieldNoMatch(fields, 0, bangs, region, lang);
  }

  /**
   * Detect, when every bang has a `default` template, is Dispatch: first bang field, first owner,
   * every other field as the remainder, region template else default.
   */
  lemma DetectIsDispatch(bangs: seq<Bang>, q: string, region: string, lang: string)
    requires EveryBangHasDefault(bangs)
    ensures DetectAsWritten(bangs, q, region, lang) == Dispatch(Fields(q), bangs, region, lang)
    ensures DetectAsWritten(bangs, q, region, lang).1
        <==> exists m :: 0 <= m < |Fields(q)| && IsBangField(Fields(q)[m], bangs)
    ensures !DetectAsWritten(bangs, q, region, lang).1 ==> DetectAsWritten(bangs, q, region, lang).0 == ""
  {
    var fields := Fields(q);
    DetectAsWrittenIsIntended(bangs, q, region, lang);
    ScanFieldsIsDispatch(fields, 0, bangs, region, lang);
    var first := FirstBangField(fields, bangs, 0);
    if first.Some? {
      var i := first.value;
      var o := FirstOwner(Key(fields[i]), bangs, 0);
      assert o.Some?;
      assert Default in bangs[o.value].regions;
    }
  }

  /** Transformations keep a remainder free of `{`. */
  lemma {:induction false} ApplyAllBraceFree(ts: seq<Transformation>, s: string)
    requires '{' !in s
    ensures '{' !in ApplyAll(ts, s)
    decreases |ts|
  {
    if ts != [] {
      WikipediaCanonicalBraceFree(s);
      ApplyAllBraceFree(ts[1..], Apply(ts[0], s));
    }
  }

  /** Every bang has a `default` template, and no template has a `{` outside its placeholders. */
  predicate TemplatesPlaceholdersOnly(bangs: seq<Bang>) {
    EveryBangHasDefault(bangs) &&
    forall j, r :: 0 <= j < |bangs| && r in bangs[j].regions ==> PlaceholdersOnly(bangs[j].regions[r], true)
  }

  /**
   * When the templates are well formed and neither the query nor the language tag holds a `{`,
   * Detect's URL holds no `{` and so neither placeholder.
   */
  lemma DetectPlaceholderFree(bangs: seq<Bang>, q: string, region: string, lang: string)
    requires TemplatesPlaceholdersOnly(bangs)
    requires '{' !in q && '{' !in lang
    ensures '{' !in DetectAsWritten(bangs, q, region, lang).0
    ensures !Contains(DetectAsWritten(bangs, q, region, lang).0, TermHole)
    ensures !Contains(DetectAsWritten(bangs, q, region, lang).0, LangHole)
  {
    var fields := Fields(q);
    DetectIsDispatch(bangs, q, region, lang);
    var url := DetectAsWritten(bangs, q, region, lang).0;
    var first := FirstBangField(fields, bangs, 0);
    if first.Some? {
      var i := first.value;
      var o := FirstOwner(Key(fields[i]), bangs, 0);
      if o.Some? {
        ExpandBraceFree(fields, i, bangs[o.value], q, region, lang);
      }
    }
    HoleChars();
    NotContainsWithout(url, TermHole);
    NotContainsWithout(url, LangHole);
  }

  /** A bang with well-formed templates expands brace-free fields into a brace-free URL. */
  lemma ExpandBraceFree(fields: seq<string>, i: nat, b: Bang, q: string, region: string, lang: string)
    requires i < |fields| && fields == Fields(q) && '{' !in q && '{' !in lang
    requires forall r :: r in b.regions ==> PlaceholdersOnly(b.regions[r], true)
    ensures Expand(b, Remove(fields, i), region, lang).Some? ==>
      '{' !in Expand(b, Remove(fields, i), region, lang).value
  {
    var rest := Remove(fields, i);
    forall k | 0 <= k < |rest| ensures '{' !in rest[k] {
      var m := if k < i then k else k + 1;
      assert rest[k] == fields[m];
    }
    JoinChars(rest, " ", '{');
    var term := ApplyAll(b.transformations, Join(rest, " "));
    ApplyAllBraceFree(b.transformations, Join(rest, " "));
    match RegionTemplate(b.regions, region)
    case Some(u) =>
      assert u in b.regions.Values;
      FullSubstitution(u, term, lang);
    case None =>
  }

  // ---------------------------------------------------------------------------------------
  // The Detect method

  /**
   * `append(fields[:i], fields[i+1:]...)` as it acts on the backing array: the fields after `i`
   * are copied one place down, and the last one keeps its old value.
   */
  method RemoveInPlace(fields: array<string>, i: nat)
    requires i < fields.Length
    modifies fields
    ensures fields[..] == Shifted(old(fields[..]), i)
    ensures fields[..fields.Length - 1] == Remove(old(fields[..]), i)
  {
    ghost var before := fields[..];
    var m := i;
    while m + 1 < fields.Length
      invariant i <= m < fields.Length
      invariant fields[..m] == before[..i] + before[i + 1..m + 1]
      invariant fields[m..] == before[m..]
    {
      fields[m] := fields[m + 1];
      m := m + 1;
      assert fields[..m] == fields[..m - 1] + [before[m]];
    }
    assert fields[..] == fields[..m] + fields[m..];
    assert fields[..fields.Length - 1] == before[..i] + before[i + 1..];
  }

  /**
   * The bangs tried in turn for the key `k` of the candidate field `i`: the first that triggers
   * and has a template gives the URL; otherwise the scan goes on after field `i`.
   */
  method TryBangs(fields: array<string>, i: nat, k: string, bangs: seq<Bang>, region: string, lang: string)
    returns (url: string, ok: bool)
    requires i < fields.Length
    modifies fields
    ensures ok ==> (url, ok) == ScanBangs(old(fields[..]), i, k, bangs, 0, region, lang)
    ensures !ok ==>
      ScanBangs(old(fields[..]), i, k, bangs, 0, region, lang) == ScanFields(fields[..], i + 1, bangs, region, lang)
  {
    var j := 0;
    while j < |bangs|
      invariant 0 <= j <= |bangs|
      invariant ScanBangs(fields[..], i, k, bangs, j, region, lang)
             == ScanBangs(old(fields[..]), i, k, bangs, 0, region, lang)
    {
      var bng := bangs[j];
      if !Trigger(k, bng.triggers) {
        j := j + 1;
        continue;
      }
      ghost var before := fields[..];
      var expanded := ExpandInPlace(fields, i, bng, region, lang);
      if expanded.Some? {
        return expanded.value, true;
      }
      assert ScanBangs(before, i, k, bangs, j, region, lang)
          == ScanBangs(fields[..], i, k, bangs, j + 1, region, lang);
      j := j + 1;
    }
    return "", false;
  }

  /**
   * One triggered bang: the field at `i` is removed in place, the other fields are joined and
   * transformed, and the region's template, if any, is filled in.
   */
  method ExpandInPlace(fields: array<string>, i: nat, bng: Bang, region: string, lang: string)
    returns (u: Option<string>)
    requires i < fields.Length
    modifies fields
    ensures fields[..] == Shifted(old(fields[..]), i)
    ensures u == Expand(bng, Remove(old(fields[..]), i), region, lang)
  {
    RemoveInPlace(fields, i);
    var remainder := Join(fields[..fields.Length - 1], " ");
    remainder := Transform(bng.transformations, remainder);
    var template := ChooseTemplate(bng.regions, region);
    if template.Some? {
      var t := ReplaceAll(template.value, TermHole, remainder);
      return Some(ReplaceAll(t, LangHole, lang));
    }
    return None;
  }

  /** The loop over a bang's transformations, applying each to the remainder in turn. */
  method Transform(ts: seq<Transformation>, s: string) returns (r: string)
    ensures r == ApplyAll(ts, s)
  {
    r := s;
    var t := 0;
    while t < |ts|
      invariant 0 <= t <= |ts|
      invariant ApplyAll(ts[t..], r) == ApplyAll(ts, s)
    {
      assert ts[t..][1..] == ts[t + 1..];
      r := Apply(ts[t], r);
      t := t + 1;
    }
  }

  /** The loop over the region keys: the template of the first key the bang has. */
  method ChooseTemplate(regions: map<string, string>, region: string) returns (u: Option<string>)
    ensures u == RegionTemplate(regions, region)
  {
    var keys := RegionKeys(region);
    var r := 0;
    while r < |keys|
      invariant 0 <= r <= |keys|
      invariant PickTemplate(regions, keys[r..]) == RegionTemplate(regions, region)
    {
      if keys[r] in regions {
        return Some(regions[keys[r]]);
      }
      assert keys[r..][1..] == keys[r + 1..];
      r := r + 1;
    }
    return None;
  }

  /**
   * Bangs.Detect: the URL of the first bang found in the query, or ("", false). The fields are
   * kept in an array and shifted in place exactly as the source's `append` does.
   */
  method Detect(bangs: seq<Bang>, q: string, region: string, lang: string) returns (url: string, ok: bool)
    ensures (url, ok) == DetectAsWritten(bangs, q, region, lang)
    ensures EveryBangHasDefault(bangs) ==> (url, ok) == Dispatch(Fields(q), bangs, region, lang)
  {
    if EveryBangHasDefault(bangs) {
      DetectIsDispatch(bangs, q, region, lang);
    }
    var fs := Fields(q);
    var fields := new string[|fs|](m requires 0 <= m < |fs| => fs[m]);
    assert fields[..] == fs;
    var i := 0;
    while i < fields.Length
      invariant 0 <= i <= fields.Length == |fs|
      invariant ScanFields(fields[..], i, bangs, region, lang) == ScanFields(fs, 0, bangs, region, lang)
      decreases fields.Length - i
    {
      var field := fields[i];
      if field == "!" || (!("!" <= field) && !HasSuffix(field, "!")) {
        assert !IsCandidate(fields[..][i]);
        i := i + 1;
        continue;
      }
      var k := ToLower(Trim(field, '!'));
      assert k == Key(fields[..][i]) && IsCandidate(fields[..][i]);
      ghost var before := fields[..];
      url, ok := TryBangs(fields, i, k, bangs, region, lang);
      if ok {
        return;
      }
      assert ScanFields(before, i, bangs, region, lang) == ScanFields(fields[..], i + 1, bangs, region, lang);
      i := i + 1;
    }
    return "", false;
  }

  // ---------------------------------------------------------------------------------------
  // Suggest

  /**
   * The name the enrichment loop leaves on a suggestion: every bang owning its trigger overwrites
   * it in turn, so the last owner in registry order wins, and with no owner it is unchanged.
   */
  function EnrichedName(bangs: seq<Bang>, s: Suggestion): (r: string)
    ensures (forall j :: 0 <= j < |bangs| ==> s.trigger !in bangs[j].triggers) ==> r == s.name
    ensures forall j :: (0 <= j < |bangs| && s.trigger in bangs[j].triggers &&
      (forall j' :: j < j' < |bangs| ==> s.trigger !in bangs[j'].triggers)) ==> r == bangs[j].name
    decreases |bangs|
  {
    if bangs == [] then s.name
    else
      var last := bangs[|bangs| - 1];
      if s.trigger in last.triggers then last.name
      else EnrichedName(bangs[..|bangs| - 1], s)
  }

  /** Every suggestion, in order, with its trigger kept and its name enriched. */
  function Enrich(bangs: seq<Bang>, ss: seq<Suggestion>): (r: seq<Suggestion>)
    ensures |r| == |ss|
    ensures forall i :: 0 <= i < |ss| ==> r[i].trigger == ss[i].trigger
  {
    seq(|ss|, i requires 0 <= i < |ss| => Suggestion(ss[i].trigger, EnrichedName(bangs, ss[i])))
  }

  /** No trigger appears twice, within a bang or across two bangs. */
  predicate TriggersDistinct(bangs: seq<Bang>) {
    (forall j :: 0 <= j < |bangs| ==>
      forall t1, t2 :: 0 <= t1 < t2 < |bangs[j].triggers| ==> bangs[j].triggers[t1] != bangs[j].triggers[t2]) &&
    (forall j1, j2 :: 0 <= j1 < j2 < |bangs| ==>
      forall x :: x in bangs[j1].triggers ==> x !in bangs[j2].triggers)
  }

  /**
   * With distinct triggers the last owner is the only one, so the name a suggestion receives is
   * that of the bang Detect dispatches its trigger to.
   */
  lemma EnrichedNameIsFirstOwner(bangs: seq<Bang>, s: Suggestion)
    requires TriggersDistinct(bangs)
    ensures FirstOwner(s.trigger, bangs, 0).None? ==> EnrichedName(bangs, s) == s.name
    ensures FirstOwner(s.trigger, bangs, 0).Some? ==>
      EnrichedName(bangs, s) == bangs[FirstOwner(s.trigger, bangs, 0).value].name
  {
    var o := FirstOwner(s.trigger, bangs, 0);
    if o.Some? {
      var j := o.value;
      assert forall j' :: j < j' < |bangs| ==> s.trigger !in bangs[j'].triggers;
    }
  }

  /** Without distinct triggers the two disagree: Detect takes the first owner, Suggest names the last. */
  lemma SharedTriggerNames()
    ensures var bangs := [Bang("X", ["x"], map[Default := TermHole], []), Bang("Y", ["x"], map[Default := TermHole], [])];
      FirstOwner("x", bangs, 0) == Some(0) && EnrichedName(bangs, Suggestion("x", "")) == "Y"
  {
  }

  /**
   * Bangs.Suggest: the suggester's answer for `term` and `size`; on an error it is returned as it
   * is, otherwise each suggestion's name is filled in, in place, from the bangs owning its trigger.
   */
  method Suggest(bangs: seq<Bang>, suggester: (string, int) -> Suggested, term: string, size: int)
    returns (res: Results, err: Option<string>)
    ensures err == suggester(term, size).err
    ensures err.Some? ==> res == suggester(term, size).results
    ensures err.None? ==> res.suggestions == Enrich(bangs, suggester(term, size).results.suggestions)
  {
    var answer := suggester(term, size);
    res, err := answer.results, answer.err;
    if err.Some? {
      return;
    }
    var found := res.suggestions;
    ghost var enriched := Enrich(bangs, found);
    var a := new Suggestion[|found|](m requires 0 <= m < |found| => found[m]);
    var i := 0;
    while i < a.Length
      invariant 0 <= i <= a.Length == |found|
      invariant a[..i] == enriched[..i]
      invariant a[i..] == found[i..]
    {
      var named := NameSuggestion(bangs, a[i]);
      assert named == enriched[i];
      a[i] := named;
      assert a[..i + 1] == enriched[..i + 1];
      i := i + 1;
    }
    assert a[..] == a[..i];
    res := Results(a[..]);
  }

  /** One suggestion named after the bangs that own its trigger, the last owner winning. */
  method NameSuggestion(bangs: seq<Bang>, s: Suggestion) returns (r: Suggestion)
    ensures r == Suggestion(s.trigger, EnrichedName(bangs, s))
  {
    r := s;
    var j := 0;
    while j < |bangs|
      invariant 0 <= j <= |bangs|
      invariant r == Suggestion(s.trigger, EnrichedName(bangs[..j], s))
    {
      r := NameFromBang(bangs[j], r);
      assert bangs[..j + 1][..j] == bangs[..j];
      j := j + 1;
    }
    assert bangs[..j] == bangs;
  }

  /** The suggestion renamed after `bng` when `bng` has its trigger, and unchanged otherwise. */
  method NameFromBang(bng: Bang, s: Suggestion) returns (r: Suggestion)
    ensures r == if s.trigger in bng.triggers then s.(name := bng.name) else s
  {
    r := s;
    var t := 0;
    while t < |bng.triggers|
      invariant 0 <= t <= |bng.triggers|
      invariant r == if s.trigger in bng.triggers[..t] then s.(name := bng.name) else s
    {
      if bng.triggers[t] == r.trigger {
        r := r.(name := bng.name);
      }
      assert bng.triggers[..t + 1] == bng.triggers[..t] + [bng.triggers[t]];
      t := t + 1;
    }
    assert bng.triggers[..t] == bng.triggers;
  }
}
