/**
 * The pieces of Go's `strings` and `unicode` packages that the bang dispatcher and the
 * stock-quote answerer rely on, written as functions on `seq<char>`.
 *
 * White space is Go's `unicode.IsSpace` exactly. Case mapping (`ToLower`, `ToUpper`,
 * the title-casing of `strings.Title`) is restricted to the ASCII letters.
 */
module Text {

  /** Go's unicode.IsSpace: the Latin-1 spaces and the other Unicode White_Space runes. */
  predicate IsSpace(c: char) {
    c == '\t' || c == '\n' || c == '\U{000B}' || c == '\U{000C}' || c == '\r' || c == ' ' ||
    c == '\U{0085}' || c == '\U{00A0}' || c == '\U{1680}' ||
    ('\U{2000}' <= c <= '\U{200A}') ||
    c == '\U{2028}' || c == '\U{2029}' || c == '\U{202F}' || c == '\U{205F}' || c == '\U{3000}'
  }

  predicate IsAsciiUpper(c: char) { 'A' <= c <= 'Z' }
  predicate IsAsciiLower(c: char) { 'a' <= c <= 'z' }
  predicate IsAsciiLetter(c: char) { IsAsciiUpper(c) || IsAsciiLower(c) }
  predicate IsAsciiDigit(c: char) { '0' <= c <= '9' }

  function LowerChar(c: char): char {
    if IsAsciiUpper(c) then (c as int - 'A' as int + 'a' as int) as char else c
  }

  function UpperChar(c: char): char {
    if IsAsciiLower(c) then (c as int - 'a' as int + 'A' as int) as char else c
  }

  /** strings.ToLower, ASCII letters only. */
  function ToLower(s: string): (r: string)
    ensures |r| == |s|
  {
    seq(|s|, i requires 0 <= i < |s| => LowerChar(s[i]))
  }

  /** strings.ToUpper, ASCII letters only. */
  function ToUpper(s: string): (r: string)
    ensures |r| == |s|
  {
    seq(|s|, i requires 0 <= i < |s| => UpperChar(s[i]))
  }

  /** A string that lower-casing leaves as it is. */
  predicate IsLowerCase(s: string) {
    forall i :: 0 <= i < |s| ==> !IsAsciiUpper(s[i])
  }

  lemma ToLowerIsLowerCase(s: string)
    ensures IsLowerCase(ToLower(s))
    ensures IsLowerCase(s) <==> ToLower(s) == s
  {
    if IsLowerCase(s) {
      assert forall i :: 0 <= i < |s| ==> ToLower(s)[i] == s[i];
    }
    if ToLower(s) == s {
      forall i | 0 <= i < |s| ensures !IsAsciiUpper(s[i]) {
        assert LowerChar(s[i]) == s[i];
      }
    }
  }

  /** strings.HasSuffix. (strings.HasPrefix is Dafny's prefix test `p <= s`.) */
  predicate HasSuffix(s: string, p: string) {
    |p| <= |s| && s[|s| - |p|..] == p
  }

  /** `p` occurs in `s` starting at index `i`. */
  predicate OccursAt(s: string, p: string, i: int) {
    0 <= i && i + |p| <= |s| && s[i..i + |p|] == p
  }

  /** `p` occurs somewhere in `s`. */
  predicate Contains(s: string, p: string) {
    exists i :: 0 <= i <= |s| && OccursAt(s, p, i)
  }

  lemma ContainsAt(a: string, p: string, b: string)
    ensures Contains(a + p + b, p)
  {
    assert OccursAt(a + p + b, p, |a|);
  }

  /** A non-empty pattern whose first character is absent from `s` does not occur in `s`. */
  lemma NotContainsWithout(s: string, p: string)
    requires |p| > 0 && p[0] !in s
    ensures !Contains(s, p)
  {
    forall i | 0 <= i <= |s| ensures !OccursAt(s, p, i) {
      if i + |p| <= |s| {
        assert s[i] in s;
        assert s[i..i + |p|][0] == s[i];
      }
    }
  }

  /** strings.TrimLeft(s, cutset) for a one-character cutset. */
  function TrimLeft(s: string, c: char): (r: string)
    ensures |r| <= |s| && r == s[|s| - |r|..]
    ensures forall i :: 0 <= i < |s| - |r| ==> s[i] == c
    ensures r == [] || r[0] != c
  {
    if s != [] && s[0] == c then TrimLeft(s[1..], c) else s
  }

  /** strings.TrimRight(s, cutset) for a one-character cutset. */
  function TrimRight(s: string, c: char): (r: string)
    ensures |r| <= |s| && r == s[..|r|]
    ensures forall i :: |r| <= i < |s| ==> s[i] == c
    ensures r == [] || r[|r| - 1] != c
  {
    if s != [] && s[|s| - 1] == c then TrimRight(s[..|s| - 1], c) else s
  }

  /**
   * strings.Trim(s, cutset) for a one-character cutset: every leading and trailing `c` removed.
   * The result neither starts nor ends with `c`, and it is empty exactly when `s` is all `c`.
   */
  function Trim(s: string, c: char): (r: string)
    ensures r == [] || (r[0] != c && r[|r| - 1] != c)
    ensures r == [] <==> forall i :: 0 <= i < |s| ==> s[i] == c
  {
    var l := TrimLeft(s, c);
    var r := TrimRight(l, c);
    assert r != [] ==> r[0] == l[0];
    r
  }

  /** What trimming keeps is a slice of the input with only `c` before and after it. */
  lemma TrimIsSlice(s: string, c: char)
    ensures exists p :: RunsAround(s, p, Trim(s, c), c)
  {
    var l := TrimLeft(s, c);
    var r := TrimRight(l, c);
    assert Trim(s, c) == r;
    var p := |s| - |l|;
    assert r == s[p..p + |r|];
    assert forall i :: p + |r| <= i < |s| ==> s[i] == l[i - p];
    assert RunsAround(s, p, r, c);
  }

  /** `s` is `r`, at index `p`, between a run of `c` before it and a run of `c` after it. */
  predicate RunsAround(s: string, p: int, r: string, c: char) {
    0 <= p <= |s| - |r| && r == s[p..p + |r|] &&
    (forall i :: 0 <= i < p ==> s[i] == c) &&
    (forall i :: p + |r| <= i < |s| ==> s[i] == c)
  }

  /** Trimming `c` from a word that neither starts nor ends with `c`, between runs of `c`, gives the word. */
  lemma TrimRuns(a: string, w: string, b: string, c: char)
    requires forall i :: 0 <= i < |a| ==> a[i] == c
    requires forall i :: 0 <= i < |b| ==> b[i] == c
    requires w != [] && w[0] != c && w[|w| - 1] != c
    ensures Trim(a + w + b, c) == w
  {
    assert a + w + b == a + (w + b);
    TrimLeftRun(a, w + b, c);
    TrimRightRun(w, b, c);
  }

  lemma TrimLeftRun(a: string, t: string, c: char)
    requires forall i :: 0 <= i < |a| ==> a[i] == c
    requires t == [] || t[0] != c
    ensures TrimLeft(a + t, c) == t
  {
    var s := a + t;
    var l := TrimLeft(s, c);
    assert forall k :: 0 <= k < |a| ==> s[k] == c;
    assert t != [] ==> s[|a|] == t[0];
    assert s[|a|..] == t;
  }

  lemma TrimRightRun(t: string, b: string, c: char)
    requires forall i :: 0 <= i < |b| ==> b[i] == c
    requires t == [] || t[|t| - 1] != c
    ensures TrimRight(t + b, c) == t
  {
    var s := t + b;
    var r := TrimRight(s, c);
    assert forall k :: |t| <= k < |s| ==> s[k] == c;
    assert t != [] ==> s[|t| - 1] == t[|t| - 1];
    assert s[..|t|] == t;
  }

  /** Go's strings.Join. */
  function Join(ws: seq<string>, sep: string): string
  {
    if |ws| == 0 then ""
    else if |ws| == 1 then ws[0]
    else ws[0] + sep + Join(ws[1..], sep)
  }

  /** Every character of a join comes from the separator or from one of the joined strings. */
  lemma {:induction false} JoinChars(ws: seq<string>, sep: string, c: char)
    requires c !in sep
    requires forall k :: 0 <= k < |ws| ==> c !in ws[k]
    ensures c !in Join(ws, sep)
  {
    if |ws| > 1 {
      JoinChars(ws[1..], sep, c);
    }
  }

  /** The longest prefix of `s` without white space. */
  function Word(s: string): (r: string)
    ensures r <= s
    ensures forall i :: 0 <= i < |r| ==> !IsSpace(r[i])
    ensures |r| == |s| || IsSpace(s[|r|])
  {
    if s == [] || IsSpace(s[0]) then [] else [s[0]] + Word(s[1..])
  }

  /** A word of a field list: non-empty and free of white space. */
  predicate IsField(w: string) {
    w != [] && forall i :: 0 <= i < |w| ==> !IsSpace(w[i])
  }

  /**
   * Go's strings.Fields: the maximal runs of non-space characters, in order.
   * No field is empty or holds a space, and every character of a field comes from `s`.
   */
  function Fields(s: string): (r: seq<string>)
    ensures forall k :: 0 <= k < |r| ==> IsField(r[k])
    ensures forall k, c :: 0 <= k < |r| && c in r[k] ==> c in s
    decreases |s|
  {
    if s == [] then []
    else if IsSpace(s[0]) then
      assert forall c :: c in s[1..] ==> c in s;
      Fields(s[1..])
    else
      var w := Word(s);
      assert forall c :: c in w ==> c in s;
      assert forall c :: c in s[|w|..] ==> c in s;
      [w] + Fields(s[|w|..])
  }

  /** Leading white space is skipped: it starts no field. */
  lemma {:induction false} FieldsAfterSpaces(sp: string, s: string)
    requires forall i :: 0 <= i < |sp| ==> IsSpace(sp[i])
    ensures Fields(sp + s) == Fields(s)
    decreases |sp|
  {
    if sp != [] {
      var t := sp + s;
      assert IsSpace(t[0]);
      assert t[1..] == sp[1..] + s;
      FieldsAfterSpaces(sp[1..], s);
    } else {
      assert sp + s == s;
    }
  }

  /** A field followed by white space or the end of the text is the next field, whole. */
  lemma FieldsOfWordThen(w: string, s: string)
    requires IsField(w)
    requires s == [] || IsSpace(s[0])
    ensures Fields(w + s) == [w] + Fields(s)
  {
    var t := w + s;
    WordOfFieldThen(w, s);
    assert t[0] == w[0] && !IsSpace(t[0]);
    assert t[|w|..] == s;
  }

  lemma WordOfFieldThen(a: string, b: string)
    requires IsField(a)
    requires b == [] || IsSpace(b[0])
    ensures Word(a + b) == a
    decreases |a|
  {
    var s := a + b;
    if |a| > 1 {
      assert s[1..] == a[1..] + b;
      WordOfFieldThen(a[1..], b);
    } else {
      assert s[1..] == b;
    }
  }

  /** Splitting a space-joined list of fields gives the list back. */
  lemma {:induction false} FieldsOfJoin(ws: seq<string>)
    requires forall k :: 0 <= k < |ws| ==> IsField(ws[k])
    ensures Fields(Join(ws, " ")) == ws
  {
    if |ws| == 0 {
    } else if |ws| == 1 {
      WordOfFieldThen(ws[0], []);
      assert !IsSpace(ws[0][0]);
      assert ws[0] + [] == ws[0];
      assert ws[0][|ws[0]|..] == [];
    } else {
      var rest := Join(ws[1..], " ");
      var s := ws[0] + " " + rest;
      assert s == ws[0] + (" " + rest);
      WordOfFieldThen(ws[0], " " + rest);
      assert s[|ws[0]|..] == " " + rest;
      assert (" " + rest)[1..] == rest;
      FieldsOfJoin(ws[1..]);
      assert ws == [ws[0]] + ws[1..];
    }
  }

  /**
   * Go's strings.Replace(s, old, new, -1): every non-overlapping occurrence of `old` (here `pat`), found left
   * to right, replaced by `new` (here `rep`). The inserted text is not scanned again.
   */
  function ReplaceAll(s: string, pat: string, rep: string): string
    requires pat != []
    decreases |s|
  {
    if pat <= s then rep + ReplaceAll(s[|pat|..], pat, rep)
    else if s == [] then []
    else [s[0]] + ReplaceAll(s[1..], pat, rep)
  }

  /** Text that cannot start an occurrence of `pat` is copied as it is. */
  lemma {:induction false} ReplaceAllSkips(a: string, rest: string, pat: string, rep: string)
    requires pat != [] && pat[0] !in a
    ensures ReplaceAll(a + rest, pat, rep) == a + ReplaceAll(rest, pat, rep)
  {
    if a != [] {
      var s := a + rest;
      assert s[0] == a[0];
      assert !(pat <= s);
      assert s[1..] == a[1..] + rest;
      assert ReplaceAll(s, pat, rep) == [s[0]] + ReplaceAll(s[1..], pat, rep);
      ReplaceAllSkips(a[1..], rest, pat, rep);
      assert a == [a[0]] + a[1..];
    } else {
      assert a + rest == rest;
    }
  }

  /** Where `pat` does not start, the first character is copied. */
  lemma ReplaceAllMiss(s: string, pat: string, rep: string)
    requires pat != [] && s != [] && !(pat <= s)
    ensures ReplaceAll(s, pat, rep) == [s[0]] + ReplaceAll(s[1..], pat, rep)
  {
  }

  /** An occurrence is replaced, and scanning resumes after it: the replacement is not rescanned. */
  lemma ReplaceAllHit(rest: string, pat: string, rep: string)
    requires pat != []
    ensures ReplaceAll(pat + rest, pat, rep) == rep + ReplaceAll(rest, pat, rep)
  {
    assert (pat + rest)[|pat|..] == rest;
  }

  /** A text in which the pattern does not occur is left as it is. */
  lemma {:induction false} ReplaceAllAbsent(s: string, pat: string, rep: string)
    requires pat != [] && !Contains(s, pat)
    ensures ReplaceAll(s, pat, rep) == s
    decreases |s|
  {
    if s != [] {
      assert !OccursAt(s, pat, 0);
      forall i | 0 <= i <= |s[1..]| ensures !OccursAt(s[1..], pat, i) {
        assert !OccursAt(s, pat, i + 1);
        if i + |pat| <= |s[1..]| {
          assert s[1..][i..i + |pat|] == s[i + 1..i + 1 + |pat|];
        }
      }
      ReplaceAllAbsent(s[1..], pat, rep);
      assert s == [s[0]] + s[1..];
    }
  }

  /** With a one-character pattern, replacement is a character-by-character map. */
  lemma {:induction false} ReplaceAllChar(s: string, a: char, b: char)
    ensures |ReplaceAll(s, [a], [b])| == |s|
    ensures forall i :: 0 <= i < |s| ==> ReplaceAll(s, [a], [b])[i] == if s[i] == a then b else s[i]
    decreases |s|
  {
    if s != [] {
      ReplaceAllChar(s[1..], a, b);
      var t := ReplaceAll(s[1..], [a], [b]);
      if [a] <= s {
        assert s[1..] == s[|[a]|..];
        assert ReplaceAll(s, [a], [b]) == [b] + t;
      } else {
        assert ReplaceAll(s, [a], [b]) == [s[0]] + t;
      }
    }
  }

  /** The separator test of strings.Title: ASCII letters, digits and `_` do not separate words. */
  predicate IsSeparator(c: char) {
    if c as int <= 0x7F then !(IsAsciiLetter(c) || IsAsciiDigit(c) || c == '_')
    else IsSpace(c)
  }

  /** strings.Title: a character that follows a separator (or starts the string) is upper-cased. */
  function Title(s: string): (r: string)
    ensures |r| == |s|
  {
    seq(|s|, i requires 0 <= i < |s| =>
      if IsSeparator(if i == 0 then ' ' else s[i - 1]) then UpperChar(s[i]) else s[i])
  }
}
