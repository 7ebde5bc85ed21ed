/**
 * The stock-quote instant answer: its trigger grammar, the two patterns it installs, the
 * ticker normalisation and the `StockQuote` answerer whose setters and `solve` update its
 * fields in place.
 *
 * A pattern is modelled by the remainder it captures, following the leftmost-first rule of
 * Go's regexp package: among the matches of the whole query, the one a backtracking matcher
 * would find first, so an optional group is tried before it is skipped and alternatives are
 * tried in the order written.
 */
module Stock {
  import opened Wrappers
  import opened Text

  /** The `\s` class of Go's regexp: tab, newline, form feed, carriage return and space. */
  predicate IsRe2Space(c: char) {
    c == '\t' || c == '\n' || c == '\U{000C}' || c == '\r' || c == ' '
  }

  predicate AllLetters(s: string) {
    forall i :: 0 <= i < |s| ==> IsAsciiLetter(s[i])
  }

  // ---------------------------------------------------------------------------------------
  // The ticker `[\$]?[a-zA-Z]{1,5}[\.]?[a-zA-Z]?`
  // ---------------------------------------------------------------------------------------

  /** `[a-zA-Z]{1,5}[\.]?[a-zA-Z]?`, decided from the right-hand end. */
  predicate IsTickerBody(b: string) {
    (1 <= |b| <= 6 && AllLetters(b)) ||
    (2 <= |b| <= 6 && b[|b| - 1] == '.' && AllLetters(b[..|b| - 1])) ||
    (3 <= |b| <= 7 && b[|b| - 2] == '.' && IsAsciiLetter(b[|b| - 1]) && AllLetters(b[..|b| - 2]))
  }

  /** The ticker a query may name: an optional `$`, then the body. */
  predicate IsTicker(s: string) {
    if s != [] && s[0] == '$' then IsTickerBody(s[1..]) else IsTickerBody(s)
  }

  /** The four atoms of the ticker fragment matched one after another. */
  ghost predicate TickerSplit(s: string, d: string, l: string, p: string, e: string) {
    s == d + l + p + e &&
    (d == "" || d == "$") &&
    1 <= |l| <= 5 && AllLetters(l) &&
    (p == "" || p == ".") &&
    |e| <= 1 && AllLetters(e)
  }

  ghost predicate MatchesTicker(s: string) {
    exists d, l, p, e :: TickerSplit(s, d, l, p, e)
  }

  lemma AllLettersConcat(a: string, b: string)
    requires AllLetters(a) && AllLetters(b)
    ensures AllLetters(a + b)
  {
    assert forall i :: 0 <= i < |b| ==> (a + b)[|a| + i] == b[i];
  }

  /** Every ticker the recogniser accepts is one the fragment denotes, 1 to 8 characters long. */
  lemma TickerSound(s: string)
    requires IsTicker(s)
    ensures MatchesTicker(s)
    ensures 1 <= |s| <= 8
  {
    var d := if s[0] == '$' then "$" else "";
    var b := s[|d|..];
    assert s == d + b;
    if 1 <= |b| <= 6 && AllLetters(b) {
      LettersOnlySound(s, d, b);
    } else if 2 <= |b| <= 6 && b[|b| - 1] == '.' && AllLetters(b[..|b| - 1]) {
      DotLastSound(s, d, b);
    } else {
      DotLetterSound(s, d, b);
    }
  }

  lemma LettersOnlySound(s: string, d: string, b: string)
    requires s == d + b && (d == "" || d == "$")
    requires 1 <= |b| <= 6 && AllLetters(b)
    ensures MatchesTicker(s)
  {
    if |b| <= 5 {
      assert b == b + "" + "";
      assert TickerSplit(s, d, b, "", "");
    } else {
      LettersSplit(b, 5);
      assert TickerSplit(s, d, b[..5], "", b[5..]);
    }
  }

  lemma DotLastSound(s: string, d: string, b: string)
    requires s == d + b && (d == "" || d == "$")
    requires 2 <= |b| <= 6 && b[|b| - 1] == '.' && AllLetters(b[..|b| - 1])
    ensures MatchesTicker(s)
  {
    assert b == b[..|b| - 1] + "." + "";
    assert TickerSplit(s, d, b[..|b| - 1], ".", "");
  }

  lemma DotLetterSound(s: string, d: string, b: string)
    requires s == d + b && (d == "" || d == "$")
    requires 3 <= |b| <= 7 && b[|b| - 2] == '.' && IsAsciiLetter(b[|b| - 1]) && AllLetters(b[..|b| - 2])
    ensures MatchesTicker(s)
  {
    assert b == b[..|b| - 2] + "." + b[|b| - 1..];
    assert TickerSplit(s, d, b[..|b| - 2], ".", b[|b| - 1..]);
  }

  lemma LettersSplit(b: string, k: int)
    requires AllLetters(b) && 0 <= k <= |b|
    ensures b == b[..k] + "" + b[k..] && AllLetters(b[..k]) && AllLetters(b[k..])
  {
    assert forall i :: 0 <= i < k ==> b[..k][i] == b[i];
    assert forall i :: 0 <= i < |b| - k ==> b[k..][i] == b[k + i];
  }

  /** Every string the fragment denotes is accepted by the recogniser. */
  lemma TickerComplete(s: string, d: string, l: string, p: string, e: string)
    requires TickerSplit(s, d, l, p, e)
    ensures IsTicker(s)
  {
    var b := l + p + e;
    assert s == d + b;
    BodyComplete(l, p, e);
    if d == "" {
      DollarFree(s, b, l[0]);
    } else {
      assert s[1..] == b;
    }
  }

  lemma DollarFree(s: string, b: string, c: char)
    requires s == b && IsTickerBody(b) && b != [] && b[0] == c && IsAsciiLetter(c)
    ensures IsTicker(s)
  {
  }

  lemma BodyComplete(l: string, p: string, e: string)
    requires 1 <= |l| <= 5 && AllLetters(l)
    requires (p == "" || p == ".") && |e| <= 1 && AllLetters(e)
    ensures IsTickerBody(l + p + e) && (l + p + e)[0] == l[0]
  {
    if p == "" {
      assert l + p + e == l + e;
      AllLettersConcat(l, e);
    } else if e == "" {
      DotLastComplete(l, l + p + e);
    } else {
      DotLetterComplete(l, e, l + p + e);
    }
  }

  lemma DotLastComplete(l: string, b: string)
    requires 1 <= |l| <= 5 && AllLetters(l) && b == l + "." + ""
    ensures IsTickerBody(b)
  {
    assert b[..|b| - 1] == l;
  }

  lemma DotLetterComplete(l: string, e: string, b: string)
    requires 1 <= |l| <= 5 && AllLetters(l) && |e| == 1 && AllLetters(e) && b == l + "." + e
    ensures IsTickerBody(b)
  {
    assert b[..|b| - 2] == l;
    assert b[|b| - 1] == e[0];
  }

  /** The recogniser accepts exactly the strings the ticker fragment denotes. */
  lemma TickerIff(s: string)
    ensures IsTicker(s) <==> MatchesTicker(s)
  {
    if IsTicker(s) {
      TickerSound(s);
    }
    if MatchesTicker(s) {
      var d, l, p, e :| TickerSplit(s, d, l, p, e);
      TickerComplete(s, d, l, p, e);
    }
  }

  /** The body of a ticker is made of letters and `.`. */
  lemma BodyChars(b: string)
    requires IsTickerBody(b)
    ensures forall i :: 0 <= i < |b| ==> b[i] == '.' || IsAsciiLetter(b[i])
  {
    if 2 <= |b| <= 6 && b[|b| - 1] == '.' && AllLetters(b[..|b| - 1]) {
      assert forall i :: 0 <= i < |b| - 1 ==> b[..|b| - 1][i] == b[i];
    } else if 3 <= |b| <= 7 && b[|b| - 2] == '.' && AllLetters(b[..|b| - 2]) {
      assert forall i :: 0 <= i < |b| - 2 ==> b[..|b| - 2][i] == b[i];
    }
  }

  /** A ticker is made of letters, `$` and `.`; in particular it holds no white space. */
  lemma TickerChars(s: string)
    requires IsTicker(s)
    ensures forall i :: 0 <= i < |s| ==> s[i] == '$' || s[i] == '.' || IsAsciiLetter(s[i])
  {
    var b := if s != [] && s[0] == '$' then s[1..] else s;
    BodyChars(b);
    if s != [] && s[0] == '$' {
      assert forall i :: 1 <= i < |s| ==> s[i] == b[i - 1];
    }
  }

  /** A string holding a `\s` character is not a ticker. */
  lemma SpaceNotTicker(s: string, i: int)
    requires 0 <= i < |s| && IsRe2Space(s[i])
    ensures !IsTicker(s)
  {
    if IsTicker(s) {
      TickerChars(s);
    }
  }

  // ---------------------------------------------------------------------------------------
  // The trigger alternation
  // ---------------------------------------------------------------------------------------

  /** The trigger words, each of which may be followed by a plural `s`. */
  const TriggerWords: seq<string> := ["quote", "stock", "stock quote"]

  /**
   * The alternatives of `w0[s]?|w1[s]?|...` in the order a backtracking matcher tries them:
   * word by word, each with its `s` before without it.
   */
  function Alternatives(ws: seq<string>): (r: seq<string>)
    ensures |r| == 2 * |ws|
  {
    if ws == [] then [] else [ws[0] + "s", ws[0]] + Alternatives(ws[1..])
  }

  /** The alternation holds each word and each word followed by `s`, and nothing else. */
  lemma {:induction false} AlternativesAre(ws: seq<string>, t: string)
    ensures t in Alternatives(ws) <==> exists i :: 0 <= i < |ws| && (t == ws[i] || t == ws[i] + "s")
  {
    if ws != [] {
      AlternativesAre(ws[1..], t);
      if t in Alternatives(ws[1..]) {
        var i :| 0 <= i < |ws[1..]| && (t == ws[1..][i] || t == ws[1..][i] + "s");
        assert ws[i + 1] == ws[1..][i];
      }
      if exists i :: 0 <= i < |ws| && (t == ws[i] || t == ws[i] + "s") {
        var i :| 0 <= i < |ws| && (t == ws[i] || t == ws[i] + "s");
        if i > 0 {
          assert ws[1..][i - 1] == ws[i];
        }
      }
    }
  }

  predicate IsTrigger(t: string) {
    t in Alternatives(TriggerWords)
  }

  /** The trigger alternatives, in the order they are tried. */
  lemma TriggerOrder()
    ensures Alternatives(TriggerWords) == ["quotes", "quote", "stocks", "stock", "stock quotes", "stock quote"]
  {
    assert "quote" + "s" == "quotes";
    assert "stock" + "s" == "stocks";
    assert "stock quote" + "s" == "stock quotes";
    assert TriggerWords[1..] == ["stock", "stock quote"];
    assert TriggerWords[1..][1..] == ["stock quote"];
    assert ["stock quote"][1..] == [];
    assert Alternatives(["stock quote"]) == ["stock quotes", "stock quote"];
    assert Alternatives(["stock", "stock quote"]) == ["stocks", "stock", "stock quotes", "stock quote"];
  }

  /** The six triggers. */
  lemma TriggerSet(t: string)
    ensures IsTrigger(t) <==> t in {"quote", "quotes", "stock", "stocks", "stock quote", "stock quotes"}
  {
    TriggerOrder();
  }

  // ---------------------------------------------------------------------------------------
  // The trigger-first pattern `^(?P<trigger>T)?\s?(?P<remainder>S)$`
  // ---------------------------------------------------------------------------------------

  /**
   * One way the trigger-first pattern can match all of `q`: an optional trigger, an optional
   * `\s`, then a ticker. When `anchored` (the ticker fragment carries its own `^`), nothing may
   * come before the ticker.
   */
  ghost predicate TriggerFirstSplit(q: string, tr: string, ws: string, r: string, anchored: bool) {
    q == tr + ws + r &&
    (tr == "" || IsTrigger(tr)) &&
    (ws == "" || (|ws| == 1 && IsRe2Space(ws[0]))) &&
    IsTicker(r) &&
    (anchored ==> tr + ws == "")
  }

  /**
   * `\s?(?P<remainder>S)$` once the trigger group has taken the first `consumed` characters of
   * `q`: the space is tried before it is skipped. When `anchored`, the `^` inside `S` needs the
   * remainder to start at the beginning of `q`.
   */
  function AfterTrigger(q: string, consumed: nat, anchored: bool): Option<string>
    requires consumed <= |q|
  {
    var rest := q[consumed..];
    if !anchored && rest != [] && IsRe2Space(rest[0]) && IsTicker(rest[1..]) then Some(rest[1..])
    else if IsTicker(rest) && (!anchored || consumed == 0) then Some(rest)
    else None
  }

  /** The trigger group tried with each alternative of `alts` in turn. */
  function TriggerFirstFrom(q: string, alts: seq<string>, anchored: bool): Option<string>
  {
    if alts == [] then None
    else if alts[0] <= q && AfterTrigger(q, |alts[0]|, anchored).Some? then AfterTrigger(q, |alts[0]|, anchored)
    else TriggerFirstFrom(q, alts[1..], anchored)
  }

  /**
   * The remainder captured by `^(?P<trigger>T)?\s?(?P<remainder>S)$`: every alternative of the
   * trigger group first, then the group skipped.
   */
  function TriggerFirst(q: string, anchored: bool): Option<string>
  {
    var m := TriggerFirstFrom(q, Alternatives(TriggerWords), anchored);
    if m.Some? then m else AfterTrigger(q, 0, anchored)
  }

  lemma SplitWithSpace(q: string, tr: string, anchored: bool)
    requires tr <= q && (tr == "" || IsTrigger(tr)) && !anchored
    requires |tr| < |q| && IsRe2Space(q[|tr|]) && IsTicker(q[|tr| + 1..])
    ensures TriggerFirstSplit(q, tr, [q[|tr|]], q[|tr| + 1..], anchored)
  {
    assert q == tr + [q[|tr|]] + q[|tr| + 1..];
  }

  lemma SplitWithoutSpace(q: string, tr: string, anchored: bool)
    requires tr <= q && (tr == "" || IsTrigger(tr)) && (anchored ==> tr == "")
    requires IsTicker(q[|tr|..])
    ensures TriggerFirstSplit(q, tr, "", q[|tr|..], anchored)
  {
    assert q == tr + "" + q[|tr|..];
  }

  lemma AfterTriggerSound(q: string, tr: string, anchored: bool)
    requires tr <= q && (tr == "" || IsTrigger(tr))
    requires AfterTrigger(q, |tr|, anchored).Some?
    ensures exists ws :: TriggerFirstSplit(q, tr, ws, AfterTrigger(q, |tr|, anchored).value, anchored)
  {
    var rest := q[|tr|..];
    if !anchored && rest != [] && IsRe2Space(rest[0]) && IsTicker(rest[1..]) {
      assert rest[1..] == q[|tr| + 1..];
      SplitWithSpace(q, tr, anchored);
    } else {
      SplitWithoutSpace(q, tr, anchored);
    }
  }

  lemma {:induction false} TriggerFirstFromSound(q: string, alts: seq<string>, anchored: bool)
    requires forall k :: 0 <= k < |alts| ==> IsTrigger(alts[k])
    requires TriggerFirstFrom(q, alts, anchored).Some?
    ensures exists tr, ws :: TriggerFirstSplit(q, tr, ws, TriggerFirstFrom(q, alts, anchored).value, anchored)
  {
    if alts[0] <= q && AfterTrigger(q, |alts[0]|, anchored).Some? {
      AfterTriggerSound(q, alts[0], anchored);
    } else {
      TriggerFirstFromSound(q, alts[1..], anchored);
    }
  }

  /** Whatever the trigger-first pattern captures is the ticker of one of its matches. */
  lemma TriggerFirstSound(q: string, anchored: bool)
    ensures TriggerFirst(q, anchored).Some? ==>
      exists tr, ws :: TriggerFirstSplit(q, tr, ws, TriggerFirst(q, anchored).value, anchored)
  {
    var alts := Alternatives(TriggerWords);
    if TriggerFirstFrom(q, alts, anchored).Some? {
      forall k | 0 <= k < |alts| ensures IsTrigger(alts[k]) { }
      TriggerFirstFromSound(q, alts, anchored);
    } else if AfterTrigger(q, 0, anchored).Some? {
      assert q[..0] == "";
      AfterTriggerSound(q, "", anchored);
    }
  }

  lemma AfterTriggerComplete(q: string, tr: string, ws: string, r: string, anchored: bool)
    requires q == tr + ws + r && IsTicker(r) && (anchored ==> tr + ws == "")
    requires ws == "" || (|ws| == 1 && IsRe2Space(ws[0]))
    ensures tr <= q && AfterTrigger(q, |tr|, anchored).Some?
  {
    assert q == tr + (ws + r);
    assert q[|tr|..] == ws + r;
    if ws != "" {
      assert (ws + r)[1..] == r;
    }
  }

  lemma {:induction false} TriggerFirstFromComplete(q: string, alts: seq<string>, k: int, anchored: bool)
    requires 0 <= k < |alts| && alts[k] <= q && AfterTrigger(q, |alts[k]|, anchored).Some?
    ensures TriggerFirstFrom(q, alts, anchored).Some?
  {
    if k > 0 && !(alts[0] <= q && AfterTrigger(q, |alts[0]|, anchored).Some?) {
      TriggerFirstFromComplete(q, alts[1..], k - 1, anchored);
    }
  }

  /** Whenever the trigger-first pattern can match `q`, it captures a remainder. */
  lemma TriggerFirstComplete(q: string, tr: string, ws: string, r: string, anchored: bool)
    requires TriggerFirstSplit(q, tr, ws, r, anchored)
    ensures TriggerFirst(q, anchored).Some?
  {
    AfterTriggerComplete(q, tr, ws, r, anchored);
    if tr == "" {
      TriggerSkippedComplete(q, anchored);
    } else {
      TriggerFirstOnTrigger(q, tr, anchored);
    }
  }

  /** When the rest of `q` matches with the trigger group skipped, the pattern matches. */
  lemma TriggerSkippedComplete(q: string, anchored: bool)
    requires AfterTrigger(q, 0, anchored).Some?
    ensures TriggerFirst(q, anchored).Some?
  {
  }

  /** A trigger that the rest of `q` can follow makes the trigger group match. */
  lemma TriggerFirstOnTrigger(q: string, tr: string, anchored: bool)
    requires IsTrigger(tr) && tr <= q && AfterTrigger(q, |tr|, anchored).Some?
    ensures TriggerFirst(q, anchored).Some?
  {
    var alts := Alternatives(TriggerWords);
    var k :| 0 <= k < |alts| && alts[k] == tr;
    TriggerFirstFromComplete(q, alts, k, anchored);
  }

  lemma {:induction false} AnchoredAlternativesMiss(q: string, alts: seq<string>)
    requires forall k :: 0 <= k < |alts| ==> alts[k] != ""
    ensures TriggerFirstFrom(q, alts, true) == None
  {
    if alts != [] {
      AnchoredAlternativesMiss(q, alts[1..]);
    }
  }

  /**
   * As written, the ticker fragment's own `^` leaves the trigger group and the optional space
   * nothing to match: the trigger-first pattern accepts only a bare ticker, captured whole.
   */
  lemma TriggerFirstAsWritten(q: string)
    ensures TriggerFirst(q, true) == if IsTicker(q) then Some(q) else None
  {
    TriggerOrder();
    AnchoredAlternativesMiss(q, Alternatives(TriggerWords));
    assert q[0..] == q;
  }

  // ---------------------------------------------------------------------------------------
  // The ticker-first pattern `^(?P<remainder>S)\s(?P<trigger>T)?$`
  // ---------------------------------------------------------------------------------------

  /** The index of the first `\s` character of `q`, or `|q|` when there is none. */
  function FirstSpace(q: string): (k: nat)
    ensures k <= |q|
    ensures forall i :: 0 <= i < k ==> !IsRe2Space(q[i])
    ensures k < |q| ==> IsRe2Space(q[k])
  {
    if q == [] || IsRe2Space(q[0]) then 0 else 1 + FirstSpace(q[1..])
  }

  predicate OptionalTrigger(t: string) {
    t == "" || IsTrigger(t)
  }

  /**
   * The remainder captured by the ticker-first pattern. A ticker holds no space, so the `\s`
   * the pattern needs is the first one of the query.
   */
  function TickerFirst(q: string): Option<string>
  {
    var k := FirstSpace(q);
    if k < |q| && IsTicker(q[..k]) && OptionalTrigger(q[k + 1..]) then Some(q[..k]) else None
  }

  /** One way the ticker-first pattern can match all of `q`. */
  ghost predicate TickerFirstSplit(q: string, r: string, w: char, tr: string) {
    q == r + [w] + tr && IsTicker(r) && IsRe2Space(w) && OptionalTrigger(tr)
  }

  /** The ticker-first pattern captures `r` exactly when `q` is `r`, one `\s`, and an optional trigger. */
  lemma TickerFirstIff(q: string, r: string)
    ensures TickerFirst(q) == Some(r) <==> exists w, tr :: TickerFirstSplit(q, r, w, tr)
  {
    var k := FirstSpace(q);
    if TickerFirst(q) == Some(r) {
      assert q == q[..k] + [q[k]] + q[k + 1..];
      assert TickerFirstSplit(q, r, q[k], q[k + 1..]);
    }
    if exists w, tr :: TickerFirstSplit(q, r, w, tr) {
      var w, tr :| TickerFirstSplit(q, r, w, tr);
      TickerChars(r);
      assert q[|r|] == w;
      assert forall i :: 0 <= i < |r| ==> q[i] == r[i];
      assert k == |r|;
      assert q[..k] == r;
      assert q[k + 1..] == tr;
    }
  }

  /** A query the trigger-first pattern accepts as written holds no space, so the ticker-first one rejects it. */
  lemma PatternsDisjoint(q: string)
    ensures !(TriggerFirst(q, true).Some? && TickerFirst(q).Some?)
  {
    TriggerFirstAsWritten(q);
    var k := FirstSpace(q);
    if k < |q| {
      SpaceNotTicker(q, k);
    }
  }

  // ---------------------------------------------------------------------------------------
  // The installed patterns and the remainder a query yields
  // ---------------------------------------------------------------------------------------

  /** Which of the two stock grammars a compiled pattern denotes. */
  datatype Form = TriggerFirstForm | TickerFirstForm

  /** A compiled pattern: its source text and the grammar that text denotes. */
  datatype Regex = Regex(source: string, form: Form)

  /** The trigger alternation, each word followed by `[s]?`. */
  const Alternation: string := "quote[s]?|stock[s]?|stock quote[s]?"

  /** The ticker fragment, with the `^` it carries. */
  const TickerFragment: string := @"^[\$]?[a-zA-Z]{1,5}[\.]?[a-zA-Z]?"

  function TriggerFirstSource(): string {
    @"^(?P<trigger>" + Alternation + @")?\s?(?P<remainder>" + TickerFragment + ")$"
  }

  function TickerFirstSource(): string {
    "^(?P<remainder>" + TickerFragment + @")\s(?P<trigger>" + Alternation + ")?$"
  }

  /** The two patterns of the answerer, trigger-first then ticker-first. */
  function StockRegexes(): seq<Regex> {
    [Regex(TriggerFirstSource(), TriggerFirstForm), Regex(TickerFirstSource(), TickerFirstForm)]
  }

  /** The remainder a pattern captures from `q`, as written (with the fragment's `^`). */
  function Match(x: Regex, q: string): Option<string> {
    match x.form
    case TriggerFirstForm => TriggerFirst(q, true)
    case TickerFirstForm => TickerFirst(q)
  }

  /** The patterns tried in order; the first that matches gives the remainder. */
  function FirstRemainder(rs: seq<Regex>, q: string): Option<string> {
    if rs == [] then None
    else if Match(rs[0], q).Some? then Match(rs[0], q)
    else FirstRemainder(rs[1..], q)
  }

  /** Trying one list and then another is trying their concatenation. */
  lemma {:induction false} FirstRemainderAppend(a: seq<Regex>, b: seq<Regex>, q: string)
    ensures FirstRemainder(a + b, q) == if FirstRemainder(a, q).Some? then FirstRemainder(a, q) else FirstRemainder(b, q)
  {
    if a != [] {
      assert (a + b)[0] == a[0];
      assert (a + b)[1..] == a[1..] + b;
      FirstRemainderAppend(a[1..], b, q);
    } else {
      assert a + b == b;
    }
  }

  /** The remainder the answerer's patterns take from a query. */
  function Recognise(q: string): Option<string> {
    FirstRemainder(StockRegexes(), q)
  }

  /** Installing the patterns a second time changes no remainder. */
  lemma RecogniseTwice(q: string)
    ensures FirstRemainder(StockRegexes() + StockRegexes(), q) == Recognise(q)
  {
    FirstRemainderAppend(StockRegexes(), StockRegexes(), q);
  }

  /**
   * A query yields `r` exactly when it is the bare ticker `r`, or the ticker `r`, one `\s` and
   * an optional trigger.
   */
  lemma RecogniseIff(q: string, r: string)
    ensures Recognise(q) == Some(r) <==> (IsTicker(q) && r == q) || exists w, tr :: TickerFirstSplit(q, r, w, tr)
  {
    var rs := StockRegexes();
    assert Match(rs[0], q) == TriggerFirst(q, true);
    assert Match(rs[1], q) == TickerFirst(q);
    assert rs[1..] == [rs[1]];
    assert FirstRemainder([rs[1]], q) == TickerFirst(q) by {
      assert [rs[1]][1..] == [];
    }
    assert Recognise(q) == if TriggerFirst(q, true).Some? then TriggerFirst(q, true) else TickerFirst(q);
    TriggerFirstAsWritten(q);
    TickerFirstIff(q, r);
    PatternsDisjoint(q);
  }

  /** As written, a query yields a bare ticker whole, or else what the ticker-first pattern captures. */
  lemma RecogniseAsWritten(q: string)
    ensures Recognise(q) == if IsTicker(q) then Some(q) else TickerFirst(q)
  {
    var rs := StockRegexes();
    assert Match(rs[0], q) == TriggerFirst(q, true);
    assert Match(rs[1], q) == TickerFirst(q);
    assert rs[1..] == [rs[1]];
    assert FirstRemainder([rs[1]], q) == TickerFirst(q) by {
      assert [rs[1]][1..] == [];
    }
    TriggerFirstAsWritten(q);
  }

  /** When `a` holds no `\s`, the first one of `a + [w] + b` is `w`. */
  lemma {:induction false} FirstSpaceAt(a: string, w: char, b: string)
    requires forall i :: 0 <= i < |a| ==> !IsRe2Space(a[i])
    requires IsRe2Space(w)
    ensures FirstSpace(a + [w] + b) == |a|
  {
    if a != [] {
      assert (a + [w] + b)[1..] == a[1..] + [w] + b;
      FirstSpaceAt(a[1..], w, b);
    }
  }

  /**
   * As written, a query that puts a trigger before the ticker never yields that ticker: at best the
   * first word of the trigger is taken as the ticker, and only when the ticker itself spells a trigger.
   */
  lemma TriggerBeforeTicker(tr: string, w: char, t: string)
    requires IsTrigger(tr) && IsRe2Space(w) && IsTicker(t)
    ensures Recognise(tr + [w] + t).Some? ==> Recognise(tr + [w] + t) == Some(tr) && IsTrigger(t)
  {
    var q := tr + [w] + t;
    RecogniseAsWritten(q);
    SpaceNotTicker(q, |tr|);
    if tr == "stock quote" || tr == "stock quotes" {
      TwoWordTriggerFirst(tr, w, t);
    } else {
      OneWordTrigger(tr);
      OneWordTriggerFirst(tr, w, t);
    }
  }

  /** The triggers other than `stock quote` and `stock quotes` are single words. */
  lemma OneWordTrigger(tr: string)
    requires IsTrigger(tr) && tr != "stock quote" && tr != "stock quotes"
    ensures forall i :: 0 <= i < |tr| ==> !IsRe2Space(tr[i])
  {
    TriggerSet(tr);
  }

  /** After a one-word trigger, the ticker-first pattern takes the trigger as the ticker. */
  lemma OneWordTriggerFirst(tr: string, w: char, t: string)
    requires forall i :: 0 <= i < |tr| ==> !IsRe2Space(tr[i])
    requires IsRe2Space(w)
    ensures TickerFirst(tr + [w] + t) == if IsTicker(tr) && OptionalTrigger(t) then Some(tr) else None
  {
    var q := tr + [w] + t;
    FirstSpaceAt(tr, w, t);
    assert q[..|tr|] == tr;
    assert q[|tr| + 1..] == t;
  }

  /** After `stock quote` or `stock quotes`, what follows `stock` is no trigger. */
  lemma TwoWordTriggerFirst(tr: string, w: char, t: string)
    requires tr == "stock quote" || tr == "stock quotes"
    requires IsRe2Space(w) && IsTicker(t)
    ensures TickerFirst(tr + [w] + t) == None
  {
    var q := tr + [w] + t;
    var x := tr[6..];
    var rest := x + [w] + t;
    assert tr == "stock" + [' '] + x;
    assert q == "stock" + [' '] + rest;
    FirstSpaceAt("stock", ' ', rest);
    assert q[6..] == rest;
    TickerSound(t);
    TriggerSet(rest);
    assert rest[0] == 'q';
  }

  /** `quote AAPL` is not recognised as written. */
  lemma QuoteThenTickerRejected()
    ensures Recognise("quote AAPL") == None
  {
    TriggerSet("quote");
    TriggerSet("AAPL");
    assert IsTicker("AAPL");
    assert "quote AAPL" == "quote" + [' '] + "AAPL";
    TriggerBeforeTicker("quote", ' ', "AAPL");
  }

  /** `AAPL quote` yields the ticker `AAPL`. */
  lemma TickerThenQuote()
    ensures Recognise("AAPL quote") == Some("AAPL")
  {
    TriggerSet("quote");
    assert IsTicker("AAPL");
    assert "AAPL quote" == "AAPL" + [' '] + "quote";
    assert TickerFirstSplit("AAPL quote", "AAPL", ' ', "quote");
    RecogniseIff("AAPL quote", "AAPL");
  }

  /** A bare dotted ticker, `brk.a`, is taken whole. */
  lemma BareDottedTicker()
    ensures Recognise("brk.a") == Some("brk.a")
  {
    assert "brk.a"[..3] == "brk";
    assert IsTicker("brk.a");
    RecogniseAsWritten("brk.a");
  }

  // ---------------------------------------------------------------------------------------
  // The patterns as evidently intended: the ticker fragment without its own `^`
  // ---------------------------------------------------------------------------------------

  /** The remainder a query would yield were the ticker fragment free of its own `^`. */
  function RecogniseIntended(q: string): Option<string> {
    var m := TriggerFirst(q, false);
    if m.Some? then m else TickerFirst(q)
  }

  /** A space past the trigger and past the optional `\s` leaves no ticker to the end. */
  lemma MissWithLaterSpace(q: string, consumed: nat, j: int, anchored: bool)
    requires consumed < j < |q| && IsRe2Space(q[j])
    ensures AfterTrigger(q, consumed, anchored) == None
  {
    var rest := q[consumed..];
    assert rest[j - consumed] == q[j];
    SpaceNotTicker(rest, j - consumed);
    assert rest[1..][j - consumed - 1] == q[j];
    SpaceNotTicker(rest[1..], j - consumed - 1);
  }

  /** The trigger group takes the first alternative after which the rest of the pattern matches. */
  lemma {:induction false} FromAt(q: string, alts: seq<string>, k: int, anchored: bool)
    requires 0 <= k < |alts|
    requires forall i :: 0 <= i < k ==> !(alts[i] <= q && AfterTrigger(q, |alts[i]|, anchored).Some?)
    requires alts[k] <= q && AfterTrigger(q, |alts[k]|, anchored).Some?
    ensures TriggerFirstFrom(q, alts, anchored) == AfterTrigger(q, |alts[k]|, anchored)
  {
    if k > 0 {
      FromAt(q, alts[1..], k - 1, anchored);
    }
  }

  /** With the `\s` straight after the trigger, the rest of the pattern captures the ticker. */
  lemma AfterTriggerTicker(tr: string, w: char, t: string)
    requires IsRe2Space(w) && IsTicker(t)
    ensures AfterTrigger(tr + [w] + t, |tr|, false) == Some(t)
  {
    var q := tr + [w] + t;
    assert q[|tr|..] == [w] + t;
    assert ([w] + t)[1..] == t;
  }

  /** The alternatives tried before `tr` all fail on `tr`, one `\s` and a ticker. */
  lemma EarlierAlternativesMiss(tr: string, w: char, t: string, k: int)
    requires IsTrigger(tr) && IsRe2Space(w) && IsTicker(t)
    requires 0 <= k < 6 && Alternatives(TriggerWords)[k] == tr
    ensures forall i :: 0 <= i < k ==>
      !(Alternatives(TriggerWords)[i] <= tr + [w] + t && AfterTrigger(tr + [w] + t, |Alternatives(TriggerWords)[i]|, false).Some?)
  {
    var q := tr + [w] + t;
    var alts := Alternatives(TriggerWords);
    TriggerOrder();
    assert q[..|tr|] == tr;
    assert q[|tr|] == w;
    forall i | 0 <= i < k
      ensures !(alts[i] <= q && AfterTrigger(q, |alts[i]|, false).Some?)
    {
      if k == 1 {
        assert alts[0] == "quotes";
        assert q[5] != 's';
      } else if i < 2 {
        assert tr[0] == 's' by {
          if k == 2 {} else if k == 3 {} else if k == 4 {} else {}
        }
        assert q[0] == 's';
        assert alts[i][0] == 'q';
      } else if i == 2 {
        assert q[5] != 's';
      } else if i == 3 {
        assert |tr| > 5;
        MissWithLaterSpace(q, 5, |tr|, false);
      } else {
        assert q[11] != 's';
      }
    }
  }

  /**
   * Were the ticker fragment free of its own `^`, a trigger, one `\s` and a ticker would yield
   * that ticker.
   */
  lemma TriggerBeforeTickerIntended(tr: string, w: char, t: string)
    requires IsTrigger(tr) && IsRe2Space(w) && IsTicker(t)
    ensures RecogniseIntended(tr + [w] + t) == Some(t)
  {
    var q := tr + [w] + t;
    var alts := Alternatives(TriggerWords);
    TriggerOrder();
    var k :| 0 <= k < 6 && alts[k] == tr;
    EarlierAlternativesMiss(tr, w, t, k);
    AfterTriggerTicker(tr, w, t);
    assert tr <= q;
    FromAt(q, alts, k, false);
  }

  /** `quote AAPL` would yield `AAPL`. */
  lemma QuoteThenTickerIntended()
    ensures RecogniseIntended("quote AAPL") == Some("AAPL")
  {
    TriggerSet("quote");
    assert IsTicker("AAPL");
    assert "quote AAPL" == "quote" + [' '] + "AAPL";
    TriggerBeforeTickerIntended("quote", ' ', "AAPL");
  }

  /** Yet the ticker-first form still yields its ticker: `AAPL quote` gives `AAPL`. */
  lemma TickerThenQuoteIntended()
    ensures RecogniseIntended("AAPL quote") == Some("AAPL")
  {
    var q := "AAPL quote";
    var alts := Alternatives(TriggerWords);
    TriggerOrder();
    NoAlternativeMatches(q, alts);
    SpaceNotTicker(q, 4);
    TickerThenQuote();
    RecogniseAsWritten(q);
  }

  lemma {:induction false} NoAlternativeMatches(q: string, alts: seq<string>)
    requires q != [] && forall k :: 0 <= k < |alts| ==> alts[k] != [] && alts[k][0] != q[0]
    ensures TriggerFirstFrom(q, alts, false) == None
  {
    if alts != [] {
      NoAlternativeMatches(q, alts[1..]);
    }
  }

  // ---------------------------------------------------------------------------------------
  // The ticker handed to the fetcher
  // ---------------------------------------------------------------------------------------

  /** `s` with every `c` removed. */
  function Without(s: string, c: char): (r: string)
    ensures c !in r && |r| <= |s|
  {
    if s == [] then [] else (if s[0] == c then [] else [s[0]]) + Without(s[1..], c)
  }

  lemma {:induction false} WithoutAbsent(s: string, c: char)
    requires c !in s
    ensures Without(s, c) == s
  {
    if s != [] {
      WithoutAbsent(s[1..], c);
    }
  }

  /** Replacing a one-character pattern by nothing removes that character everywhere. */
  lemma {:induction false} ReplaceAllDeletes(s: string, c: char)
    ensures ReplaceAll(s, [c], []) == Without(s, c)
  {
    if s != [] {
      ReplaceAllDeletes(s[1..], c);
      if [c] <= s {
        assert s[|[c]|..] == s[1..];
      }
    }
  }

  /** The ticker handed to the fetcher: the remainder with every `$` removed, upper-cased. */
  function Normalise(remainder: string): string {
    ToUpper(ReplaceAll(remainder, "$", ""))
  }

  lemma UpperKeepsDollar(s: string)
    ensures '$' in ToUpper(s) <==> '$' in s
  {
    if '$' in ToUpper(s) {
      var i :| 0 <= i < |s| && ToUpper(s)[i] == '$';
      assert s[i] == '$';
    }
    if '$' in s {
      var i :| 0 <= i < |s| && s[i] == '$';
      assert ToUpper(s)[i] == '$';
    }
  }

  /** The normalised ticker holds no `$` and no lower-case letter, and normalising it again changes nothing. */
  lemma NormaliseProperties(s: string)
    ensures Normalise(s) == ToUpper(Without(s, '$'))
    ensures '$' !in Normalise(s)
    ensures forall i :: 0 <= i < |Normalise(s)| ==> !IsAsciiLower(Normalise(s)[i])
    ensures Normalise(Normalise(s)) == Normalise(s)
  {
    ReplaceAllDeletes(s, '$');
    var u := Normalise(s);
    UpperKeepsDollar(Without(s, '$'));
    ReplaceAllDeletes(u, '$');
    WithoutAbsent(u, '$');
    assert ToUpper(u) == u;
  }

  lemma UpperLetters(s: string)
    requires AllLetters(s)
    ensures AllLetters(ToUpper(s))
  {
  }

  lemma UpperPrefix(s: string, k: int)
    requires 0 <= k <= |s|
    ensures ToUpper(s)[..k] == ToUpper(s[..k])
  {
  }

  /** Upper-casing keeps a ticker body a ticker body. */
  lemma UpperBody(b: string)
    requires IsTickerBody(b)
    ensures IsTickerBody(ToUpper(b))
  {
    var u := ToUpper(b);
    if 1 <= |b| <= 6 && AllLetters(b) {
      UpperLetters(b);
    } else if 2 <= |b| <= 6 && b[|b| - 1] == '.' && AllLetters(b[..|b| - 1]) {
      UpperPrefix(b, |b| - 1);
      UpperLetters(b[..|b| - 1]);
    } else {
      UpperPrefix(b, |b| - 2);
      UpperLetters(b[..|b| - 2]);
    }
  }

  /**
   * On a ticker, removing every `$` is removing the leading one: the fetcher gets the ticker body,
   * upper-cased, and that is again a ticker.
   */
  lemma NormaliseTicker(s: string)
    requires IsTicker(s)
    ensures Normalise(s) == ToUpper(if s[0] == '$' then s[1..] else s)
    ensures IsTicker(Normalise(s))
  {
    var b := if s[0] == '$' then s[1..] else s;
    NormaliseDropsDollar(s, b);
    UpperTicker(b);
  }

  lemma NormaliseDropsDollar(s: string, b: string)
    requires IsTicker(s) && s != [] && b == if s[0] == '$' then s[1..] else s
    ensures Normalise(s) == ToUpper(b)
  {
    BodyChars(b);
    assert '$' !in b;
    WithoutAbsent(b, '$');
    ReplaceAllDeletes(s, '$');
    if s[0] == '$' {
      assert Without(s, '$') == Without(s[1..], '$');
    }
  }

  /** An upper-cased ticker body is a ticker. */
  lemma UpperTicker(b: string)
    requires IsTickerBody(b)
    ensures IsTicker(ToUpper(b))
  {
    BodyChars(b);
    UpperBody(b);
    assert ToUpper(b)[0] != '$';
  }

  /** A remainder without `$` is only upper-cased. */
  lemma NormaliseDollarFree(s: string)
    requires '$' !in s
    ensures Normalise(s) == ToUpper(s)
  {
    ReplaceAllDeletes(s, '$');
    WithoutAbsent(s, '$');
  }

  /** `brk.a` is fetched as `BRK.A`. */
  lemma NormaliseDotted(s: string)
    requires s == "brk.a"
    ensures Normalise(s) == "BRK.A"
  {
    NormaliseDollarFree(s);
    var u := ToUpper(s);
    assert u[0] == 'B' && u[1] == 'R' && u[2] == 'K' && u[3] == '.' && u[4] == 'A';
  }

  /** `$aapl` is fetched as `AAPL`. */
  lemma NormaliseDollar(s: string)
    requires s == "$aapl"
    ensures Normalise(s) == "AAPL"
  {
    NormaliseProperties(s);
    assert Without(s, '$') == Without(s[1..], '$');
    WithoutAbsent(s[1..], '$');
    var u := ToUpper(s[1..]);
    assert u[0] == 'A' && u[1] == 'A' && u[2] == 'P' && u[3] == 'L';
  }

  // ---------------------------------------------------------------------------------------
  // The answerer
  // ---------------------------------------------------------------------------------------

  /** What the fetcher gives back for a ticker: a quote, or the error it met. */
  datatype Fetched<Quote> = Fetched(quote: Quote) | Failed(message: string)

  /** The trigger words with the optional plural `s` of the pattern appended to each. */
  function PluralPatterns(ws: seq<string>): (r: seq<string>)
    ensures |r| == |ws|
    ensures forall k :: 0 <= k < |ws| ==> r[k] == ws[k] + "[s]?"
  {
    seq(|ws|, k requires 0 <= k < |ws| => ws[k] + "[s]?")
  }

  lemma PluralsOfTriggers()
    ensures PluralPatterns(TriggerWords) == ["quote[s]?", "stock[s]?", "stock quote[s]?"]
  {
    var ps := PluralPatterns(TriggerWords);
    assert ps[0] == "quote[s]?" by { assert "quote" + "[s]?" == "quote[s]?"; }
    assert ps[1] == "stock[s]?" by { assert "stock" + "[s]?" == "stock[s]?"; }
    assert ps[2] == "stock quote[s]?" by { assert "stock quote" + "[s]?" == "stock quote[s]?"; }
  }

  lemma JoinThree(x: string, y: string, z: string, sep: string)
    ensures Join([x, y, z], sep) == x + sep + y + sep + z
  {
    assert [x, y, z][1..] == [y, z];
    assert [y, z][1..] == [z];
    assert Join([z], sep) == z;
    assert Join([y, z], sep) == y + sep + z;
  }

  lemma AlternationPieces(alt: string)
    requires alt == Alternation
    ensures alt == "quote[s]?" + "|" + "stock[s]?" + "|" + "stock quote[s]?"
  {
  }

  /** Joining the plural patterns of the trigger words with `|` gives the alternation. */
  lemma AlternationOfTriggers()
    ensures Join(PluralPatterns(TriggerWords), "|") == Alternation
  {
    PluralsOfTriggers();
    JoinThree("quote[s]?", "stock[s]?", "stock quote[s]?", "|");
    AlternationPieces(Alternation);
  }

  /**
   * The stock-quote answerer. The quote type is left abstract: the fetcher and the sorting of a
   * quote's history belong to a package outside this model.
   */
  class StockQuote<Quote> {
    const fetcher: string -> Fetched<Quote>
    var language: string
    var typ: string
    var cache: bool
    var regex: seq<Regex>
    var remainder: string
    var err: Option<string>
    var solution: Option<Quote>

    /** A fresh answer around `fetcher`, every other field at its zero value. */
    constructor (fetcher: string -> Fetched<Quote>)
      ensures this.fetcher == fetcher
      ensures language == "" && typ == "" && !cache && regex == [] && remainder == ""
      ensures err == None && solution == None
    {
      this.fetcher := fetcher;
      language := "";
      typ := "";
      cache := false;
      regex := [];
      remainder := "";
      err := None;
      solution := None;
    }

    /** The user agent plays no part in a stock answer. */
    method SetUserAgent(userAgent: string) returns (a: StockQuote<Quote>)
      ensures a == this
    {
      a := this;
    }

    method SetLanguage(lang: string) returns (a: StockQuote<Quote>)
      modifies this
      ensures a == this && language == lang
      ensures typ == old(typ) && cache == old(cache) && regex == old(regex)
      ensures remainder == old(remainder) && err == old(err) && solution == old(solution)
    {
      language := lang;
      a := this;
    }

    method SetType() returns (a: StockQuote<Quote>)
      modifies this
      ensures a == this && typ == "stock quote"
      ensures language == old(language) && cache == old(cache) && regex == old(regex)
      ensures remainder == old(remainder) && err == old(err) && solution == old(solution)
    {
      typ := "stock quote";
      a := this;
    }

    method SetCache() returns (a: StockQuote<Quote>)
      modifies this
      ensures a == this && cache
      ensures language == old(language) && typ == old(typ) && regex == old(regex)
      ensures remainder == old(remainder) && err == old(err) && solution == old(solution)
    {
      cache := true;
      a := this;
    }

    /**
     * Appends the trigger-first pattern and then the ticker-first one; the patterns already
     * installed stay in front, so installing twice leaves four.
     */
    method SetRegex() returns (a: StockQuote<Quote>)
      modifies this
      ensures a == this && regex == old(regex) + StockRegexes()
      ensures language == old(language) && typ == old(typ) && cache == old(cache)
      ensures remainder == old(remainder) && err == old(err) && solution == old(solution)
    {
      var triggers := new string[|TriggerWords|](k requires 0 <= k < |TriggerWords| => TriggerWords[k]);
      for i := 0 to triggers.Length
        modifies triggers
        invariant forall k :: 0 <= k < i ==> triggers[k] == TriggerWords[k] + "[s]?"
        invariant forall k :: i <= k < triggers.Length ==> triggers[k] == TriggerWords[k]
      {
        triggers[i] := triggers[i] + "[s]?";
      }
      assert triggers[..] == PluralPatterns(TriggerWords);
      AlternationOfTriggers();
      var t := Join(triggers[..], "|");
      var ticker := TickerFragment;
      regex := regex + [Regex(@"^(?P<trigger>" + t + @")?\s?(?P<remainder>" + ticker + ")$", TriggerFirstForm)];
      regex := regex + [Regex("^(?P<remainder>" + ticker + @")\s(?P<trigger>" + t + ")?$", TickerFirstForm)];
      a := this;
    }

    /**
     * Fetches the normalised remainder. An error is recorded and the solution left as it was; a
     * quote has its history sorted and becomes the solution, the error left as it was.
     */
    method Solve(sortHistorical: Quote -> Quote) returns (a: StockQuote<Quote>)
      modifies this
      ensures a == this
      ensures fetcher(Normalise(remainder)).Failed? ==>
        err == Some(fetcher(Normalise(remainder)).message) && solution == old(solution)
      ensures fetcher(Normalise(remainder)).Fetched? ==>
        solution == Some(sortHistorical(fetcher(Normalise(remainder)).quote)) && err == old(err)
      ensures language == old(language) && typ == old(typ) && cache == old(cache)
      ensures regex == old(regex) && remainder == old(remainder)
    {
      var ticker := Normalise(remainder);
      var resp := fetcher(ticker);
      if resp.Failed? {
        err := Some(resp.message);
        return this;
      }
      solution := Some(sortHistorical(resp.quote));
      a := this;
    }
  }
}
