/** `extractLead` (server.js:36-48): the e-mail, the North-American telephone number and the
    self-introduced name, each found by a regular expression.

    `text.match(re)` without the g flag tries the start positions 0, 1, 2, ... in turn and, at
    the first start where the pattern matches, returns the match that backtracking finds first.
    For each of the three patterns here that first match is also the LONGEST match at that start
    (the e-mail takes the rightmost usable dot, the phone's optional characters are all forced by
    the text and the country-code reading is the longer one, the name's words are whole runs).
    So each pattern is given as a language (which spans it matches), a hand-written matcher for
    one start position, and a proof that the matcher returns the longest match or none; the scan
    over start positions then yields the leftmost-longest match. */
module LeadExtraction {
  import opened Strings
  import opened Leads

  // ---------------------------------------------------------------------------------------
  // E-mail: /[A-Z0-9._%+-]+@[A-Z0-9.-]+\.[A-Z]{2,}/i
  // ---------------------------------------------------------------------------------------

  /** s[i..j] reads local@domain.tld, with a the position of '@' and d that of the dot before
      the final two-or-more letters. */
  predicate EmailParse(s: string, i: nat, a: nat, d: nat, j: nat) {
    i < a < d < j <= |s|
    && AllIn(s, i, a, EmailLocal) && s[a] == '@'
    && a + 1 < d && AllIn(s, a + 1, d, EmailDomain) && s[d] == '.'
    && d + 3 <= j && AllIn(s, d + 1, j, Letter)
  }

  /** The e-mail pattern matches exactly s[i..j]. */
  ghost predicate IsEmailAt(s: string, i: nat, j: nat) {
    exists a, d :: EmailParse(s, i, a, d, j)
  }

  /** A dot followed by at least two letters: where `\.[A-Z]{2,}` can start. */
  predicate IsTldDot(s: string, d: nat) {
    d < |s| && s[d] == '.' && Run(s, d + 1, Letter) >= 2
  }

  /** The rightmost such dot strictly between lo and hi: the point where backtracking out of the
      greedy domain run `[A-Z0-9.-]+` first succeeds. */
  function LastTldDot(s: string, lo: nat, hi: nat): (r: Option<nat>)
    requires hi <= |s|
    ensures r.Some? ==> lo < r.value < hi && IsTldDot(s, r.value)
    ensures forall d | lo < d < hi && IsTldDot(s, d) :: r.Some? && d <= r.value
    decreases hi
  {
    if hi <= lo + 1 then None
    else if IsTldDot(s, hi - 1) then Some(hi - 1)
    else LastTldDot(s, lo, hi - 1)
  }

  /** The e-mail pattern tried at start i: the end of the match, if any. */
  function MatchEmailAt(s: string, i: nat): (r: Option<nat>)
    requires i <= |s|
    ensures r.Some? ==> IsEmailAt(s, i, r.value)
  {
    var a := i + Run(s, i, EmailLocal);
    if a == i || a == |s| || s[a] != '@' then None
    else
      match LastTldDot(s, a + 1, a + 1 + Run(s, a + 1, EmailDomain))
      case None => None
      case Some(d) =>
        var j := d + 1 + Run(s, d + 1, Letter);
        EmailFound(s, i, a, d);
        Some(j)
  }

  /** The runs the matcher measures, with '@' and the dot between them, form a parse. */
  lemma EmailFound(s: string, i: nat, a: nat, d: nat)
    requires i < a < |s| && a == i + Run(s, i, EmailLocal) && s[a] == '@'
    requires a + 1 < d < a + 1 + Run(s, a + 1, EmailDomain) && IsTldDot(s, d)
    ensures EmailParse(s, i, a, d, d + 1 + Run(s, d + 1, Letter))
  {
    RunAllIn(s, i, EmailLocal);
    RunAllIn(s, a + 1, EmailDomain);
    RunAllIn(s, d + 1, Letter);
  }

  /** No e-mail match at i is longer than the one the matcher returns. */
  lemma EmailLongest(s: string, i: nat, j: nat)
    requires i <= |s| && IsEmailAt(s, i, j)
    ensures MatchEmailAt(s, i).Some? && j <= MatchEmailAt(s, i).value
  {
    var a': nat, d': nat :| EmailParse(s, i, a', d', j);
    var a := i + Run(s, i, EmailLocal);
    RunUnique(s, i, EmailLocal, a' - i);
    var m := Run(s, a + 1, EmailDomain);
    assert d' < a + 1 + m;
    assert Run(s, d' + 1, Letter) >= j - d' - 1;
    assert IsTldDot(s, d');
  }

  // ---------------------------------------------------------------------------------------
  // Telephone: /(\+?1\s?)?(\(?\d{3}\)?)[\s.-]?\d{3}[\s.-]?\d{4}/
  // ---------------------------------------------------------------------------------------

  /** Which of the optional parts a reading of the phone pattern uses. */
  datatype PhoneParse = PhoneParse(country: bool, plus: bool, space: bool, open: bool, close: bool, sep1: bool, sep2: bool)

  function Bit(b: bool): nat { if b then 1 else 0 }

  function CountryLen(p: PhoneParse): nat {
    if p.country then Bit(p.plus) + 1 + Bit(p.space) else 0
  }

  /** Length of the text a reading covers: ten digits plus the optional characters it uses. */
  function PhoneLen(p: PhoneParse): nat {
    CountryLen(p) + Bit(p.open) + 3 + Bit(p.close) + Bit(p.sep1) + 3 + Bit(p.sep2) + 4
  }

  /** s[i..i + PhoneLen(p)] reads the phone pattern with the optional parts chosen by p. */
  predicate PhoneParseAt(s: string, i: nat, p: PhoneParse) {
    i + PhoneLen(p) <= |s|
    && (p.country || (!p.plus && !p.space))
    && (p.plus ==> s[i] == '+')
    && (p.country ==> s[i + Bit(p.plus)] == '1')
    && (p.space ==> IsSpace(s[i + Bit(p.plus) + 1]))
    && var c := i + CountryLen(p);
    && (p.open ==> s[c] == '(')
    && var o := c + Bit(p.open);
    && IsDigit(s[o]) && IsDigit(s[o + 1]) && IsDigit(s[o + 2])
    && (p.close ==> s[o + 3] == ')')
    && var k := o + 3 + Bit(p.close);
    && (p.sep1 ==> In(s[k], PhoneSeparator))
    && var d2 := k + Bit(p.sep1);
    && IsDigit(s[d2]) && IsDigit(s[d2 + 1]) && IsDigit(s[d2 + 2])
    && (p.sep2 ==> In(s[d2 + 3], PhoneSeparator))
    && var d3 := d2 + 3 + Bit(p.sep2);
    && IsDigit(s[d3]) && IsDigit(s[d3 + 1]) && IsDigit(s[d3 + 2]) && IsDigit(s[d3 + 3])
  }

  /** The phone pattern matches exactly s[i..j]. */
  ghost predicate IsPhoneAt(s: string, i: nat, j: nat) {
    exists p :: PhoneParseAt(s, i, p) && j == i + PhoneLen(p)
  }

  /** The reading in which every optional character is taken when it is there, with or
      without the country code. */
  function GreedyPhone(s: string, i: nat, country: bool): PhoneParse {
    var plus := country && i < |s| && s[i] == '+';
    var space := country && i + Bit(plus) + 1 < |s| && IsSpace(s[i + Bit(plus) + 1]);
    var c := i + (if country then Bit(plus) + 1 + Bit(space) else 0);
    var open := c < |s| && s[c] == '(';
    var o := c + Bit(open);
    var close := o + 3 < |s| && s[o + 3] == ')';
    var k := o + 3 + Bit(close);
    var sep1 := k < |s| && In(s[k], PhoneSeparator);
    var f := k + Bit(sep1) + 3;
    var sep2 := f < |s| && In(s[f], PhoneSeparator);
    PhoneParse(country, plus, space, open, close, sep1, sep2)
  }

  /** Every reading of the phone pattern is the greedy one: leaving out an optional character
      that is present puts that character where a digit or the country '1' is needed. */
  lemma PhoneParseForced(s: string, i: nat, p: PhoneParse)
    requires PhoneParseAt(s, i, p)
    ensures p == GreedyPhone(s, i, p.country)
  {
    PhoneHeadForced(s, i, p);
    PhoneMiddleForced(s, i, p);
    PhoneTailForced(s, i, p);
  }

  /** The '+', the space after the country code and the '(' are forced. */
  lemma PhoneHeadForced(s: string, i: nat, p: PhoneParse)
    requires PhoneParseAt(s, i, p)
    ensures var q := GreedyPhone(s, i, p.country); p.plus == q.plus && p.space == q.space && p.open == q.open
  {
    var q := GreedyPhone(s, i, p.country);
    assert p.plus == q.plus;
    assert p.space == q.space;
  }

  /** Once the head is fixed, the ')' and the first separator are forced. */
  lemma PhoneMiddleForced(s: string, i: nat, p: PhoneParse)
    requires PhoneParseAt(s, i, p)
    requires var q := GreedyPhone(s, i, p.country); p.plus == q.plus && p.space == q.space && p.open == q.open
    ensures var q := GreedyPhone(s, i, p.country); p.close == q.close && p.sep1 == q.sep1
  {
    var q := GreedyPhone(s, i, p.country);
    assert p.close == q.close;
  }

  /** And then the second separator is forced. */
  lemma PhoneTailForced(s: string, i: nat, p: PhoneParse)
    requires PhoneParseAt(s, i, p)
    requires var q := GreedyPhone(s, i, p.country); p.plus == q.plus && p.space == q.space && p.open == q.open
    requires var q := GreedyPhone(s, i, p.country); p.close == q.close && p.sep1 == q.sep1
    ensures p.sep2 == GreedyPhone(s, i, p.country).sep2
  {
  }

  /** The phone pattern tried at start i: the country-code reading first, as backtracking
      tries the optional group before skipping it. */
  function MatchPhoneAt(s: string, i: nat): (r: Option<nat>)
    requires i <= |s|
    ensures r.Some? ==> IsPhoneAt(s, i, r.value)
  {
    var withCountry := GreedyPhone(s, i, true);
    if PhoneParseAt(s, i, withCountry) then Some(i + PhoneLen(withCountry))
    else
      var without := GreedyPhone(s, i, false);
      if PhoneParseAt(s, i, without) then Some(i + PhoneLen(without)) else None
  }

  /** When both readings match, the country-code one is the longer: the reading without it
      then starts with '1' and uses no optional character at all. */
  lemma CountryReadingLonger(s: string, i: nat)
    requires PhoneParseAt(s, i, GreedyPhone(s, i, true)) && PhoneParseAt(s, i, GreedyPhone(s, i, false))
    ensures PhoneLen(GreedyPhone(s, i, false)) < PhoneLen(GreedyPhone(s, i, true))
  {
    BothReadingsHead(s, i);
    var w := GreedyPhone(s, i, true);
    var n := GreedyPhone(s, i, false);
    assert IsDigit(s[i + 4]) && !w.close && !w.sep1;
    assert IsDigit(s[i + 6]) && !n.sep2;
  }

  /** Where both readings match, the text opens with '1' and three digits: no '+', no space,
      no '(' in the country-code reading, and no ')' or separator after the first three
      digits of the other. */
  lemma BothReadingsHead(s: string, i: nat)
    requires PhoneParseAt(s, i, GreedyPhone(s, i, true)) && PhoneParseAt(s, i, GreedyPhone(s, i, false))
    ensures var w := GreedyPhone(s, i, true); s[i] == '1' && !w.plus && !w.space && !w.open
    ensures var n := GreedyPhone(s, i, false); !n.open && !n.close && !n.sep1
  {
    FirstCharIsOne(s, i);
    var w := GreedyPhone(s, i, true);
    assert !w.plus && IsDigit(s[i + 1]) && !w.space && !w.open;
    var n := GreedyPhone(s, i, false);
    assert IsDigit(s[i + 3]) && !n.close && !n.sep1;
  }

  /** One reading opens with '+' or '1', the other with '(' or a digit: both match only on
      a leading '1'. */
  lemma FirstCharIsOne(s: string, i: nat)
    requires PhoneParseAt(s, i, GreedyPhone(s, i, true)) && PhoneParseAt(s, i, GreedyPhone(s, i, false))
    ensures s[i] == '1' && !GreedyPhone(s, i, true).plus && !GreedyPhone(s, i, false).open
  {
  }

  /** No phone match at i is longer than the one the matcher returns. */
  lemma PhoneLongest(s: string, i: nat, j: nat)
    requires i <= |s| && IsPhoneAt(s, i, j)
    ensures MatchPhoneAt(s, i).Some? && j <= MatchPhoneAt(s, i).value
  {
    var p :| PhoneParseAt(s, i, p) && j == i + PhoneLen(p);
    PhoneParseForced(s, i, p);
    if !p.country && PhoneParseAt(s, i, GreedyPhone(s, i, true)) {
      CountryReadingLonger(s, i);
    }
  }

  // ---------------------------------------------------------------------------------------
  // Name: /(?:je m'appelle|mon nom est)\s+([A-Za-zÀ-ÖØ-öø-ÿ'-]{2,}(?:\s+[A-Za-zÀ-ÖØ-öø-ÿ'-]{2,}){0,3})/i
  // ---------------------------------------------------------------------------------------

  const JeMAppelle := "je m'appelle"
  const MonNomEst := "mon nom est"

  /** The i flag on an ASCII pattern character: only A-Z fold, onto a-z. */
  function FoldAscii(c: char): char {
    if 'A' <= c <= 'Z' then (c as int + 32) as char else c
  }

  /** s continues at i with w, ignoring the case of ASCII letters. */
  predicate CiStartsAt(s: string, i: nat, w: string) {
    i + |w| <= |s| && forall k | 0 <= k < |w| :: FoldAscii(s[i + k]) == w[k]
  }

  /** Length of the introduction phrase at i (the alternation, first branch first); 0 if none. */
  function TriggerLen(s: string, i: nat): (n: nat)
    ensures n == 0 || (n == |JeMAppelle| && CiStartsAt(s, i, JeMAppelle)) || (n == |MonNomEst| && CiStartsAt(s, i, MonNomEst))
    ensures n == 0 <==> !CiStartsAt(s, i, JeMAppelle) && !CiStartsAt(s, i, MonNomEst)
  {
    if CiStartsAt(s, i, JeMAppelle) then |JeMAppelle|
    else if CiStartsAt(s, i, MonNomEst) then |MonNomEst|
    else 0
  }

  /** End of the name-letter run starting at g: where a greedy `W` stops. */
  function WordEnd(s: string, g: nat): (r: nat)
    requires g <= |s|
    ensures g <= r <= |s|
  {
    g + Run(s, g, NameLetter)
  }

  /** End of the white-space run starting at e: where a greedy `\s+` stops. */
  function SpaceEnd(s: string, e: nat): (r: nat)
    requires e <= |s|
    ensures e <= r <= |s|
  {
    e + Run(s, e, Space)
  }

  /** After a word ending at e, the greedy `(?:\s+W){0,k}`: the end of the last word taken. */
  function MoreNames(s: string, e: nat, k: nat): (r: nat)
    requires e <= |s|
    ensures e <= r <= |s|
    decreases k
  {
    if k == 0 then e
    else
      var g := SpaceEnd(s, e);
      if g == e || WordEnd(s, g) < g + 2 then e
      else MoreNames(s, WordEnd(s, g), k - 1)
  }

  /** s[g..j] is one to k words of two or more name letters separated by white space: the
      language of `W(?:\s+W){0,k-1}` with W = `[A-Za-zÀ-ÖØ-öø-ÿ'-]{2,}`. Name letters and white
      space are disjoint, so the words are exactly the maximal runs, each cut off at j. */
  ghost predicate NameListAt(s: string, g: nat, j: nat, k: nat)
    requires g <= j <= |s|
    decreases k
  {
    var e := WordEnd(s, g);
    k >= 1 &&
    if j <= e then g + 2 <= j
    else g + 2 <= e && e < SpaceEnd(s, e) < j && NameListAt(s, SpaceEnd(s, e), j, k - 1)
  }

  /** The name pattern matches at i with capture group 1 equal to s[g..j]: the phrase, white
      space, then one to four words. */
  ghost predicate IsNameAt(s: string, i: nat, g: nat, j: nat) {
    var n := TriggerLen(s, i);
    0 < n && i + n < g <= j <= |s| && AllIn(s, i + n, g, Space) && NameListAt(s, g, j, 4)
  }

  /** One more step of the greedy scan: white space, then a word of two or more letters. */
  lemma MoreNamesStep(s: string, e: nat, k: nat)
    requires e <= |s| && k > 0
    requires e < SpaceEnd(s, e) && SpaceEnd(s, e) + 2 <= WordEnd(s, SpaceEnd(s, e))
    ensures MoreNames(s, e, k) == MoreNames(s, WordEnd(s, SpaceEnd(s, e)), k - 1)
  {
  }

  /** The greedy scan stops where no further word follows. */
  lemma MoreNamesStop(s: string, e: nat, k: nat)
    requires e <= |s|
    requires k == 0 || e == SpaceEnd(s, e) || WordEnd(s, SpaceEnd(s, e)) < SpaceEnd(s, e) + 2
    ensures MoreNames(s, e, k) == e
  {
  }

  /** A word, white space and a list of k words make a list of k + 1 words. */
  lemma NameListCons(s: string, g: nat, j: nat, k: nat)
    requires g <= j <= |s| && g + 2 <= WordEnd(s, g)
    requires WordEnd(s, g) < SpaceEnd(s, WordEnd(s, g)) < j
    requires NameListAt(s, SpaceEnd(s, WordEnd(s, g)), j, k)
    ensures NameListAt(s, g, j, k + 1)
  {
  }

  /** The words the greedy scan takes form a name list of at most k + 1 words. */
  lemma {:induction false} NamesSound(s: string, g: nat, k: nat)
    requires g <= |s| && g + 2 <= WordEnd(s, g)
    ensures g < MoreNames(s, WordEnd(s, g), k)
    ensures NameListAt(s, g, MoreNames(s, WordEnd(s, g), k), k + 1)
    decreases k
  {
    var e := WordEnd(s, g);
    if k > 0 && e < SpaceEnd(s, e) && SpaceEnd(s, e) + 2 <= WordEnd(s, SpaceEnd(s, e)) {
      MoreNamesStep(s, e, k);
      NamesSound(s, SpaceEnd(s, e), k - 1);
      NameListCons(s, g, MoreNames(s, e, k), k);
    } else {
      MoreNamesStop(s, e, k);
    }
  }

  /** No name list starting at g is longer than the greedy scan. */
  lemma {:induction false} NamesLongest(s: string, g: nat, j: nat, k: nat)
    requires g <= j <= |s| && NameListAt(s, g, j, k + 1)
    ensures g + 2 <= WordEnd(s, g)
    ensures j <= MoreNames(s, WordEnd(s, g), k)
    decreases k
  {
    var e := WordEnd(s, g);
    if e < j {
      var g2 := SpaceEnd(s, e);
      NamesLongest(s, g2, j, k - 1);
      MoreNamesStep(s, e, k);
    }
  }

  /** The name pattern tried at start i: the span of capture group 1, if it matches. */
  function MatchNameAt(s: string, i: nat): (r: Option<(nat, nat)>)
    requires i <= |s|
    ensures r.Some? ==> IsNameAt(s, i, r.value.0, r.value.1)
  {
    var n := TriggerLen(s, i);
    if n == 0 then None
    else
      var g := SpaceEnd(s, i + n);
      if g == i + n || WordEnd(s, g) < g + 2 then None
      else
        var j := MoreNames(s, WordEnd(s, g), 3);
        RunAllIn(s, i + n, Space);
        NamesSound(s, g, 3);
        Some((g, j))
  }

  /** Any name match at i has the same capture start and is no longer than the matcher's. */
  lemma NameLongest(s: string, i: nat, g: nat, j: nat)
    requires i <= |s| && IsNameAt(s, i, g, j)
    ensures MatchNameAt(s, i).Some? && MatchNameAt(s, i).value.0 == g && j <= MatchNameAt(s, i).value.1
  {
    var n := TriggerLen(s, i);
    NameListEdges(s, g, j, 4);
    assert !In(s[g], Space);
    RunUnique(s, i + n, Space, g - (i + n));
    assert SpaceEnd(s, i + n) == g;
    NamesLongest(s, g, j, 3);
  }

  /** A name list begins and ends with a name letter. */
  lemma {:induction false} NameListEdges(s: string, g: nat, j: nat, k: nat)
    requires g <= j <= |s| && NameListAt(s, g, j, k)
    ensures g < j && In(s[g], NameLetter) && In(s[j - 1], NameLetter)
    decreases k
  {
    RunAllIn(s, g, NameLetter);
    var e := WordEnd(s, g);
    if e < j {
      NameListEdges(s, SpaceEnd(s, e), j, k - 1);
    }
  }

  // ---------------------------------------------------------------------------------------
  // `text.match(re)`: the leftmost start, the longest match there
  // ---------------------------------------------------------------------------------------

  datatype Pattern = EmailPattern | PhonePattern | NamePattern

  /** Started at st, the pattern matches, and the part `extractLead` keeps is s[lo..hi]: the
      whole match for the e-mail and the telephone, capture group 1 for the name. */
  ghost predicate Matches(p: Pattern, s: string, st: nat, lo: nat, hi: nat) {
    st <= |s| &&
    match p
    case EmailPattern => lo == st && IsEmailAt(s, st, hi)
    case PhonePattern => lo == st && IsPhoneAt(s, st, hi)
    case NamePattern => IsNameAt(s, st, lo, hi)
  }

  /** The matcher for one start position. */
  function MatchAt(p: Pattern, s: string, st: nat): Option<(nat, nat)>
    requires st <= |s|
  {
    match p
    case EmailPattern => (match MatchEmailAt(s, st) case None => None case Some(j) => Some((st, j)))
    case PhonePattern => (match MatchPhoneAt(s, st) case None => None case Some(j) => Some((st, j)))
    case NamePattern => MatchNameAt(s, st)
  }

  /** What the matcher reports is a match. (Kept apart from MatchAt so that the patterns'
      definitions are only present where a proof asks for them.) */
  lemma MatchAtSound(p: Pattern, s: string, st: nat)
    requires st <= |s| && MatchAt(p, s, st).Some?
    ensures Matches(p, s, st, MatchAt(p, s, st).value.0, MatchAt(p, s, st).value.1)
  {
  }

  /** Every match at st is found by the matcher, with the same start of the kept part and an
      end no further than the matcher's. */
  lemma MatchAtLongest(p: Pattern, s: string, st: nat, lo: nat, hi: nat)
    requires Matches(p, s, st, lo, hi)
    ensures MatchAt(p, s, st).Some? && MatchAt(p, s, st).value.0 == lo && hi <= MatchAt(p, s, st).value.1
  {
    match p
    case EmailPattern => EmailLongest(s, st, hi);
    case PhonePattern => PhoneLongest(s, st, hi);
    case NamePattern => NameLongest(s, st, lo, hi);
  }

  /** The kept part of a match is never empty and has no white space at either end, so the
      `.trim()` applied to it changes nothing. */
  lemma MatchEdges(p: Pattern, s: string, st: nat, lo: nat, hi: nat)
    requires Matches(p, s, st, lo, hi)
    ensures lo < hi <= |s| && !IsSpace(s[lo]) && !IsSpace(s[hi - 1])
  {
    match p
    case EmailPattern => EmailEdges(s, st, hi);
    case PhonePattern => PhoneEdges(s, st, hi);
    case NamePattern => NameListEdges(s, lo, hi, 4);
  }

  /** Hence the `.trim()` is the identity on what the patterns keep. */
  lemma TrimKeepsMatch(p: Pattern, s: string, st: nat, lo: nat, hi: nat)
    requires Matches(p, s, st, lo, hi)
    ensures lo < hi <= |s| && Trim(s[lo..hi]) == s[lo..hi]
  {
    MatchEdges(p, s, st, lo, hi);
    TrimNoEdges(s[lo..hi]);
  }

  lemma EmailEdges(s: string, i: nat, j: nat)
    requires IsEmailAt(s, i, j)
    ensures i < j <= |s| && In(s[i], EmailLocal) && In(s[j - 1], Letter)
  {
    var a: nat, d: nat :| EmailParse(s, i, a, d, j);
  }

  lemma PhoneEdges(s: string, i: nat, j: nat)
    requires IsPhoneAt(s, i, j)
    ensures i < j <= |s| && !IsSpace(s[i]) && IsDigit(s[j - 1])
  {
    var q :| PhoneParseAt(s, i, q) && j == i + PhoneLen(q);
  }

  /** `re` tried at the starts st, st + 1, ..., |s| in turn: the first start where it matches,
      with the matcher's result there. */
  function FindFrom(p: Pattern, s: string, st: nat): (r: Option<(nat, nat, nat)>)
    requires st <= |s|
    ensures r.Some? ==> st <= r.value.0 <= |s| && MatchAt(p, s, r.value.0) == Some((r.value.1, r.value.2))
    ensures r.Some? ==> forall k | st <= k < r.value.0 :: MatchAt(p, s, k).None?
    ensures r.None? ==> forall k | st <= k <= |s| :: MatchAt(p, s, k).None?
    decreases |s| - st
  {
    match MatchAt(p, s, st)
    case Some(m) => Some((st, m.0, m.1))
    case None =>
      if st == |s| then None
      else
        var r := FindFrom(p, s, st + 1);
        NoMatchStep(p, s, st, if r.Some? then r.value.0 else |s| + 1);
        r
  }

  /** A start without a match extends a stretch of starts without one. */
  lemma NoMatchStep(p: Pattern, s: string, st: nat, e: nat)
    requires st < |s| && e <= |s| + 1 && MatchAt(p, s, st).None?
    requires forall k | st + 1 <= k < e :: MatchAt(p, s, k).None?
    ensures forall k | st <= k < e :: MatchAt(p, s, k).None?
  {
  }

  /** s[lo..hi] is what `s.match(re)` reports: re matches at start st, at no earlier start,
      and no match at st reaches further. */
  ghost predicate LeftmostLongest(p: Pattern, s: string, st: nat, lo: nat, hi: nat) {
    Matches(p, s, st, lo, hi)
    && (forall k: nat, a: nat, b: nat | k < st :: !Matches(p, s, k, a, b))
    && (forall a: nat, b: nat | Matches(p, s, st, a, b) :: a == lo && b <= hi)
  }

  /** `m ? m[group].trim() : null` for `m = s.match(re)`: what it returns is a non-empty
      piece of the text. */
  function Capture(p: Pattern, s: string): (r: Option<string>)
    ensures r.Some? ==> r.value != [] && IsSubstring(r.value, s)
  {
    match FindFrom(p, s, 0)
    case None => None
    case Some((st, lo, hi)) =>
      FoundTrimmed(p, s, st, lo, hi);
      Some(Trim(s[lo..hi]))
  }

  /** What the scan finds is a match. */
  lemma Found(p: Pattern, s: string, st: nat, lo: nat, hi: nat)
    requires FindFrom(p, s, 0) == Some((st, lo, hi))
    ensures Matches(p, s, st, lo, hi)
  {
    MatchAtSound(p, s, st);
  }

  /** What the scan finds is a non-empty piece of the text that `.trim()` leaves as it is. */
  lemma FoundTrimmed(p: Pattern, s: string, st: nat, lo: nat, hi: nat)
    requires FindFrom(p, s, 0) == Some((st, lo, hi))
    ensures lo < hi <= |s| && Trim(s[lo..hi]) == s[lo..hi] && IsSubstring(s[lo..hi], s)
  {
    Found(p, s, st, lo, hi);
    MatchTrimmed(p, s, st, lo, hi);
  }

  lemma MatchTrimmed(p: Pattern, s: string, st: nat, lo: nat, hi: nat)
    requires Matches(p, s, st, lo, hi)
    ensures lo < hi <= |s| && Trim(s[lo..hi]) == s[lo..hi] && IsSubstring(s[lo..hi], s)
  {
    TrimKeepsMatch(p, s, st, lo, hi);
    assert OccursAt(s, s[lo..hi], lo);
  }

  /** Capture reports nothing exactly when the pattern matches nowhere, and otherwise the
      leftmost-longest match. */
  lemma CaptureLeftmostLongest(p: Pattern, s: string)
    ensures Capture(p, s).None? <==> forall st: nat, lo: nat, hi: nat :: !Matches(p, s, st, lo, hi)
    ensures Capture(p, s).Some? ==> exists st: nat, lo: nat, hi: nat :: LeftmostLongest(p, s, st, lo, hi) && Capture(p, s).value == s[lo..hi]
  {
    match FindFrom(p, s, 0)
    case None =>
      NoStartNoMatch(p, s);
    case Some((st, lo, hi)) =>
      FirstStartLeftmostLongest(p, s, st, lo, hi);
      FoundTrimmed(p, s, st, lo, hi);
  }

  /** When the scan finds no start, the pattern matches nowhere. */
  lemma NoStartNoMatch(p: Pattern, s: string)
    requires FindFrom(p, s, 0).None?
    ensures forall st: nat, lo: nat, hi: nat :: !Matches(p, s, st, lo, hi)
  {
    forall st: nat, lo: nat, hi: nat | Matches(p, s, st, lo, hi) ensures false {
      MatchAtLongest(p, s, st, lo, hi);
    }
  }

  /** What the scan finds is the leftmost-longest match. */
  lemma FirstStartLeftmostLongest(p: Pattern, s: string, st: nat, lo: nat, hi: nat)
    requires FindFrom(p, s, 0) == Some((st, lo, hi))
    ensures LeftmostLongest(p, s, st, lo, hi)
  {
    Found(p, s, st, lo, hi);
    forall k: nat, a: nat, b: nat | k < st && Matches(p, s, k, a, b) ensures false {
      MatchAtLongest(p, s, k, a, b);
    }
    forall a: nat, b: nat | Matches(p, s, st, a, b) ensures a == lo && b <= hi {
      MatchAtLongest(p, s, st, a, b);
    }
  }

  /** `extractLead(text)`. Each field is null or a non-empty piece of the text, and an
      e-mail holds an '@'. */
  function ExtractLead(text: string): (r: Lead)
    ensures r.name.Some? ==> Truthy(r.name) && IsSubstring(r.name.value, text)
    ensures r.email.Some? ==> Truthy(r.email) && IsSubstring(r.email.value, text) && IsSubstring("@", r.email.value)
    ensures r.phone.Some? ==> Truthy(r.phone) && IsSubstring(r.phone.value, text)
  {
    EmailHasAt(text);
    Lead(Capture(NamePattern, text), Capture(EmailPattern, text), Capture(PhonePattern, text))
  }

  /** A name is only found after "je m'appelle" or "mon nom est" (in any case of its ASCII
      letters) followed by white space. */
  lemma NameNeedsPhrase(text: string)
    ensures Capture(NamePattern, text).Some? ==>
      exists i: nat :: 0 < TriggerLen(text, i) && i + TriggerLen(text, i) < |text| && IsSpace(text[i + TriggerLen(text, i)])
  {
    match FindFrom(NamePattern, text, 0)
    case None =>
    case Some((st, lo, hi)) =>
      Found(NamePattern, text, st, lo, hi);
      assert In(text[st + TriggerLen(text, st)], Space);
  }

  /** An e-mail that is found contains '@'. */
  lemma EmailHasAt(text: string)
    ensures Capture(EmailPattern, text).Some? ==> IsSubstring("@", Capture(EmailPattern, text).value)
  {
    match FindFrom(EmailPattern, text, 0)
    case None =>
    case Some((st, lo, hi)) =>
      Found(EmailPattern, text, st, lo, hi);
      TrimKeepsMatch(EmailPattern, text, st, lo, hi);
      EmailAtSign(text, st, hi);
  }

  lemma EmailAtSign(s: string, i: nat, j: nat)
    requires IsEmailAt(s, i, j)
    ensures IsSubstring("@", s[i..j])
  {
    var a: nat, d: nat :| EmailParse(s, i, a, d, j);
    assert OccursAt(s[i..j], "@", a - i);
  }

  /** A name that is found is one to four white-space-separated words of at least two
      name-class characters each, taken from the text. */
  lemma NameShape(text: string)
    ensures Capture(NamePattern, text).Some? ==>
      exists g: nat, j: nat :: g <= j <= |text| && NameListAt(text, g, j, 4) && Capture(NamePattern, text).value == text[g..j]
  {
    match FindFrom(NamePattern, text, 0)
    case None =>
    case Some((st, lo, hi)) =>
      Found(NamePattern, text, st, lo, hi);
      TrimKeepsMatch(NamePattern, text, st, lo, hi);
  }

  /** A telephone that is found reads the pattern: ten digits in groups of 3, 3 and 4, with
      the optional country code, parentheses and separators, taken from the text. */
  lemma PhoneShape(text: string)
    ensures Capture(PhonePattern, text).Some? ==>
      exists i: nat, j: nat :: i <= j <= |text| && IsPhoneAt(text, i, j) && Capture(PhonePattern, text).value == text[i..j]
  {
    match FindFrom(PhonePattern, text, 0)
    case None =>
    case Some((st, lo, hi)) =>
      Found(PhonePattern, text, st, lo, hi);
      TrimKeepsMatch(PhonePattern, text, st, lo, hi);
  }
}
