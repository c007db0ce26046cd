/** Mention heuristics layered on the named-entity recogniser: trimming a
    mention, the digits test, abbreviations, the bracketed context window,
    the nominal-concept text, and the two-pass coreference/abbreviation
    matcher `find_link_strings`. Entity mentions are records of text,
    label and token span; the lemma of a nominal concept is given. */
module SpacyPlus {
  import opened Wrappers
  import opened PyStr

  // ---------------------------------------------------------------------
  // trim

  predicate HasArticle(text: string) {
    StartsWith(text, "The ") || StartsWith(text, "the ")
  }

  /** `trim`: drop one leading `The `/`the `, then one trailing newline,
      then a trailing `'` or, failing that, a trailing `'s`. */
  function Trim(text: string): (r: string)
    ensures var a := if HasArticle(text) then 4 else 0;
      a <= |text| && StartsWith(text[a..], r) && |text| - a - |r| <= 3
  {
    DropQuote(DropNewline(DropArticle(text)))
  }

  /** The first step of `trim`: one leading article. */
  function DropArticle(text: string): string {
    if HasArticle(text) then text[4..] else text
  }

  /** The second step of `trim`: one trailing newline. */
  function DropNewline(text: string): string {
    if EndsWith(text, "\n") then text[..|text| - 1] else text
  }

  /** The third step of `trim`: a trailing `'`, or else a trailing `'s`. */
  function DropQuote(text: string): string {
    if EndsWith(text, "'") then text[..|text| - 1]
    else if EndsWith(text, "'s") then text[..|text| - 2]
    else text
  }

  /** A mention with none of the trimmed decorations is left as it is, and
      one that has them all loses exactly them. */
  lemma TrimExact(w: string)
    ensures !HasArticle(w) && !EndsWith(w, "\n") && !EndsWith(w, "'") && !EndsWith(w, "'s") ==> Trim(w) == w
    ensures Trim("The " + w + "'s\n") == w
  {
    if !HasArticle(w) && !EndsWith(w, "\n") && !EndsWith(w, "'") && !EndsWith(w, "'s") {
      TrimDecorated("", w, "", "");
      assert "" + w + "" + "" == w;
    }
    TrimDecorated("The ", w, "'s", "\n");
    assert "The " + w + "'s" + "\n" == "The " + w + "'s\n";
  }

  /** `text` is `w` with the decorations `trim` removes: a leading article
      `art`, then a quote `q` (`'`, or `'s`), then a newline `nl`, each
      possibly empty; an empty decoration must not be mistakable for one
      that `w` itself would supply. */
  predicate TrimmedForm(art: string, w: string, q: string, nl: string) {
    && (art == "" || art == "The " || art == "the ")
    && (q == "" || q == "'" || q == "'s")
    && (nl == "" || nl == "\n")
    && (art == "" ==> !HasArticle(w))
    && (q == "" ==> !EndsWith(w, "'") && !EndsWith(w, "'s"))
    && (q == "" && nl == "" ==> !EndsWith(w, "\n"))
  }

  /** A text whose own start is no article gains none from a quote or a
      newline after it. */
  lemma {:induction false} NoArticleAfter(w: string, tail: string)
    requires !HasArticle(w)
    requires tail == [] || tail[0] == '\'' || tail[0] == '\n'
    ensures !HasArticle(w + tail)
  {
    var t := w + tail;
    if |w| >= 4 {
      assert t[..4] == w[..4];
    } else if |t| >= 4 {
      assert t[..4][|w|] == tail[0];
    }
  }

  lemma {:induction false} DropArticleOf(art: string, t: string)
    requires art == "The " || art == "the "
    ensures DropArticle(art + t) == t
  {
    assert (art + t)[..4] == art;
    assert (art + t)[4..] == t;
  }

  lemma {:induction false} DropNewlineOf(t: string, nl: string)
    requires nl == "" || nl == "\n"
    requires nl == "" ==> !EndsWith(t, "\n")
    ensures DropNewline(t + nl) == t
  {
    if nl == "\n" {
      assert (t + nl)[|t|..] == "\n";
      assert (t + nl)[..|t|] == t;
    } else {
      assert t + nl == t;
    }
  }

  lemma {:induction false} DropQuoteOf(w: string, q: string)
    requires q == "" || q == "'" || q == "'s"
    requires q == "" ==> !EndsWith(w, "'") && !EndsWith(w, "'s")
    ensures DropQuote(w + q) == w
  {
    var t := w + q;
    if q == "'" {
      assert t[|t| - 1..] == "'";
      assert t[..|t| - 1] == w;
    } else if q == "'s" {
      assert t[|t| - 1..] == "s";
      assert t[|t| - 2..] == "'s";
      assert t[..|t| - 2] == w;
    } else {
      assert t == w;
    }
  }

  lemma Regroup(art: string, w: string, q: string, nl: string)
    ensures art + w + q + nl == art + ((w + q) + nl)
    ensures w + q + nl == w + (q + nl)
  {
  }

  /** A decorated mention trims to exactly its undecorated text. */
  lemma {:induction false} TrimDecorated(art: string, w: string, q: string, nl: string)
    requires TrimmedForm(art, w, q, nl)
    ensures Trim(art + w + q + nl) == w
  {
    var t2 := w + q;
    var t1 := t2 + nl;
    Regroup(art, w, q, nl);
    if art == "" {
      NoArticleAfter(w, q + nl);
      assert art + t1 == t1;
      assert DropArticle(art + t1) == t1;
    } else {
      DropArticleOf(art, t1);
    }
    if q != "" && nl == "" {
      assert t2[|t2| - 1] == q[|q| - 1];
    }
    DropNewlineOf(t2, nl);
    DropQuoteOf(w, q);
    assert Trim(art + t1) == DropQuote(DropNewline(DropArticle(art + t1)));
  }

  /** What each step of `trim` removes from `text`. */
  function ArticleOf(text: string): string {
    if HasArticle(text) then text[..4] else ""
  }

  function NewlineOf(text: string): string {
    if EndsWith(text, "\n") then "\n" else ""
  }

  function QuoteOf(text: string): string {
    if EndsWith(text, "'") then "'" else if EndsWith(text, "'s") then "'s" else ""
  }

  lemma {:induction false} ArticleSplit(text: string)
    ensures text == ArticleOf(text) + DropArticle(text)
    ensures ArticleOf(text) == "" || ArticleOf(text) == "The " || ArticleOf(text) == "the "
    ensures ArticleOf(text) == "" ==> !HasArticle(text)
  {
    if HasArticle(text) {
      assert text == text[..4] + text[4..];
    }
  }

  lemma {:induction false} NewlineSplit(text: string)
    ensures text == DropNewline(text) + NewlineOf(text)
    ensures NewlineOf(text) == "" ==> !EndsWith(text, "\n")
  {
    if EndsWith(text, "\n") {
      assert text == text[..|text| - 1] + text[|text| - 1..];
    }
  }

  lemma {:induction false} QuoteSplit(text: string)
    ensures text == DropQuote(text) + QuoteOf(text)
    ensures QuoteOf(text) == "" || QuoteOf(text) == "'" || QuoteOf(text) == "'s"
    ensures QuoteOf(text) == "" ==> !EndsWith(text, "'") && !EndsWith(text, "'s")
  {
    if EndsWith(text, "'") {
      assert text == text[..|text| - 1] + text[|text| - 1..];
    } else if EndsWith(text, "'s") {
      assert text == text[..|text| - 2] + text[|text| - 2..];
    }
  }

  lemma {:induction false} ArticleStays(w: string, rest: string)
    requires HasArticle(w)
    ensures HasArticle(w + rest)
  {
    assert (w + rest)[..4] == w[..4];
  }

  /** Every text is its trimmed form with such decorations around it, so
      with `TrimDecorated`: `Trim(text) == w` exactly when `text` is a
      decorated `w`. */
  lemma {:induction false} TrimDecomposes(text: string)
    ensures exists art, q, nl :: TrimmedForm(art, Trim(text), q, nl) && text == art + Trim(text) + q + nl
  {
    var t1 := DropArticle(text);
    var t2 := DropNewline(t1);
    var w := DropQuote(t2);
    var art, nl, q := ArticleOf(text), NewlineOf(t1), QuoteOf(t2);
    ArticleSplit(text);
    NewlineSplit(t1);
    QuoteSplit(t2);
    Regroup(art, w, q, nl);
    assert Trim(text) == w;
    if art == "" && HasArticle(w) {
      ArticleStays(w, q + nl);
    }
    assert TrimmedForm(art, w, q, nl);
  }

  // ---------------------------------------------------------------------
  // alldigits

  const DigitsOrSpace: string := "0123456789 "

  /** `alldigits`: every character a digit or a space (so true on ""). */
  method AllDigits(text: string) returns (r: bool)
    ensures r <==> forall i :: 0 <= i < |text| ==> text[i] in DigitsOrSpace
  {
    for i := 0 to |text|
      invariant forall j :: 0 <= j < i ==> text[j] in DigitsOrSpace
    {
      if text[i] !in DigitsOrSpace {
        return false;
      }
    }
    return true;
  }

  // ---------------------------------------------------------------------
  // abbreviate

  const Stopwords: seq<string> := ["in", "of", "for", "on"]

  /** The tokens that are not stopwords, in order. */
  function KeepWords(tokens: seq<string>): (r: seq<string>)
    ensures forall i :: 0 <= i < |r| ==> r[i] !in Stopwords
    ensures |r| <= |tokens|
    decreases |tokens|
  {
    if tokens == [] then []
    else (if tokens[0] in Stopwords then [] else [tokens[0]]) + KeepWords(tokens[1..])
  }

  /** A token is kept exactly when it occurs and is not a stopword. */
  lemma {:induction false} KeepWordsMembers(tokens: seq<string>, t: string)
    ensures t in KeepWords(tokens) <==> t in tokens && t !in Stopwords
    decreases |tokens|
  {
    if tokens != [] {
      KeepWordsMembers(tokens[1..], t);
      assert t in tokens <==> t == tokens[0] || t in tokens[1..];
    }
  }

  /** Dropping stopwords twice drops nothing more. */
  lemma {:induction false} KeepWordsIdempotent(tokens: seq<string>)
    ensures KeepWords(KeepWords(tokens)) == KeepWords(tokens)
    decreases |tokens|
  {
    if tokens != [] {
      KeepWordsIdempotent(tokens[1..]);
      var rest := KeepWords(tokens[1..]);
      if tokens[0] !in Stopwords {
        var t := [tokens[0]] + rest;
        assert KeepWords(tokens) == t;
        assert t[0] == tokens[0] && t[1..] == rest;
        assert KeepWords(t) == [tokens[0]] + KeepWords(rest);
      } else {
        assert KeepWords(tokens) == rest;
      }
    }
  }

  /** `abbreviate`: the upper-cased first letters of the non-stopword
      tokens; an empty remaining token raises IndexError. */
  function Abbreviate(tokens: seq<string>): (r: Result<string>)
    ensures r.Ok? <==> AllNonEmpty(KeepWords(tokens))
    ensures r.Ok? ==> |r.value| == |KeepWords(tokens)|
    ensures r.Ok? ==> forall i :: 0 <= i < |r.value| ==> r.value[i] == UpperChar(KeepWords(tokens)[i][0])
  {
    var kept := KeepWords(tokens);
    if AllNonEmpty(kept) then
      Ok(Upper(seq(|kept|, i requires 0 <= i < |kept| => kept[i][0])))
    else
      Err(IndexError)
  }

  /** Every token has a first character, so `t[0]` cannot fail. */
  predicate AllNonEmpty(ws: seq<string>)
  {
    forall i :: 0 <= i < |ws| ==> ws[i] != []
  }

  /** An abbreviation does not change when the stopwords are removed first. */
  lemma AbbreviateIgnoresStopwords(tokens: seq<string>)
    ensures Abbreviate(KeepWords(tokens)) == Abbreviate(tokens)
  {
    KeepWordsIdempotent(tokens);
  }

  // ---------------------------------------------------------------------
  // entity_in_text

  function Bracketed(etext: string): string {
    "[" + etext + "]"
  }

  /** Where the window of `entity_in_text` starts, given where the
      bracketed mention, `e1Length` characters long, was found. */
  function WindowStart(estart: int, e1Length: int, maxLength: int): (r: int)
    ensures r >= 0
    ensures estart >= 0 && e1Length <= maxLength ==>
      r <= estart && estart + e1Length <= r + maxLength + 1
  {
    var contextLength := maxLength - e1Length;
    if estart - TruncHalf(contextLength) > 0 then estart - TruncHalf(contextLength) else 0
  }

  /** `entity_in_text`: bracket the first occurrence of `etext` and show a
      window of about `max_length` characters around it. */
  function EntityInText(etext: string, sentence: string, maxLength: int): (r: string)
    ensures maxLength >= -1 ==> |r| <= maxLength + 1
  {
    var sentence1 := ReplaceFirst(sentence, etext, Bracketed(etext));
    var estart := Find(sentence1, Bracketed(etext));
    var start := WindowStart(estart, |Bracketed(etext)|, maxLength);
    Slice(sentence1, start, start + maxLength + 1)
  }

  /** Replacing the first occurrence puts the bracketed text where the
      plain text first was. */
  lemma BracketPlaced(etext: string, sentence: string)
    requires Find(sentence, etext) >= 0
    ensures OccursAt(ReplaceFirst(sentence, etext, Bracketed(etext)), Bracketed(etext), Find(sentence, etext))
  {
    var i := Find(sentence, etext);
    var s1 := ReplaceFirst(sentence, etext, Bracketed(etext));
    assert s1[i..i + |Bracketed(etext)|] == Bracketed(etext);
  }

  /** So the bracketed mention is found in the bracketed sentence. */
  lemma {:induction false} BracketFound(etext: string, sentence: string)
    requires Find(sentence, etext) >= 0
    ensures Find(ReplaceFirst(sentence, etext, Bracketed(etext)), Bracketed(etext)) >= 0
  {
    BracketPlaced(etext, sentence);
  }

  /** A window that starts at or before an occurrence and reaches past its
      end shows the occurrence. */
  lemma WindowKeeps(s: string, p: string, at: int, start: int, stop: int)
    requires OccursAt(s, p, at)
    requires 0 <= start <= at && at + |p| <= stop
    ensures Contains(Slice(s, start, stop), p)
  {
    var b := if stop <= |s| then stop else |s|;
    assert b == SliceIndex(stop, |s|);
    var r := Slice(s, start, stop);
    assert r == s[start..b];
    assert at + |p| <= b;
    assert forall k :: 0 <= k < |p| ==> p[k] == s[at..at + |p|][k] == r[at - start + k];
    assert r[at - start..at - start + |p|] == s[at..at + |p|];
    assert OccursAt(r, p, at - start);
  }

  /** A window at least as wide as `p`, placed around `p`'s first
      occurrence as `entity_in_text` places it, shows `p`. */
  lemma {:induction false} WindowShowsFirst(s1: string, p: string, maxLength: int)
    requires Find(s1, p) >= 0
    requires maxLength >= |p|
    ensures var start := WindowStart(Find(s1, p), |p|, maxLength);
      Contains(Slice(s1, start, start + maxLength + 1), p)
  {
    var at := Find(s1, p);
    var start := WindowStart(at, |p|, maxLength);
    assert OccursAt(s1, p, at);
    assert 0 <= start <= at && at + |p| <= start + maxLength + 1;
    WindowKeeps(s1, p, at, start, start + maxLength + 1);
  }

  /** When the mention occurs and the window is wide enough for it, the
      window shows the whole bracketed mention. */
  lemma {:induction false} WindowShowsMention(etext: string, sentence: string, maxLength: int)
    requires Find(sentence, etext) >= 0
    requires maxLength >= |Bracketed(etext)|
    ensures Contains(EntityInText(etext, sentence, maxLength), Bracketed(etext))
  {
    var e1 := Bracketed(etext);
    var s1 := ReplaceFirst(sentence, etext, e1);
    var start := WindowStart(Find(s1, e1), |e1|, maxLength);
    BracketFound(etext, sentence);
    WindowShowsFirst(s1, e1, maxLength);
    EntityInTextWindow(etext, sentence, maxLength);
  }

  /** `entity_in_text` is the window placed at the bracketed mention's first
      occurrence in the bracketed sentence. */
  lemma {:induction false} EntityInTextWindow(etext: string, sentence: string, maxLength: int)
    ensures var s1 := ReplaceFirst(sentence, etext, Bracketed(etext));
      var start := WindowStart(Find(s1, Bracketed(etext)), |Bracketed(etext)|, maxLength);
      EntityInText(etext, sentence, maxLength) == Slice(s1, start, start + maxLength + 1)
  {
  }

  // ---------------------------------------------------------------------
  // get_nc_text

  /** `get_nc_text` with the last token's text and lemma given: the last
      token's text replaced by its lemma throughout, when they differ. */
  function GetNcText(ncText: string, lastText: string, lemmaText: string): (r: string)
    ensures lemmaText == lastText ==> r == ncText
  {
    if lemmaText != lastText then ReplaceAll(ncText, lastText, lemmaText) else ncText
  }

  /** The test for `lemma != last.text` is only a shortcut: the result is
      always the plain replacement, and a last token that does not occur
      leaves the text alone. */
  lemma NcTextIsReplacement(ncText: string, lastText: string, lemmaText: string)
    ensures GetNcText(ncText, lastText, lemmaText) == ReplaceAll(ncText, lastText, lemmaText)
    ensures lastText != [] && !Contains(ncText, lastText) ==> GetNcText(ncText, lastText, lemmaText) == ncText
  {
    if lemmaText == lastText {
      ReplaceAllSelf(ncText, lastText);
    } else if lastText != [] && !Contains(ncText, lastText) {
      ReplaceAllAbsent(ncText, lastText, lemmaText);
    }
  }

  // ---------------------------------------------------------------------
  // find_link_strings

  /** An entity mention: its text, its label (`tag`) and its token span. */
  datatype Ent = Ent(text: string, tag: string, start: int, end: int)

  /** The keys of `link_string`: (text, label). */
  type Key = (string, string)

  /** Python's `matches.count(matches[0]) == len(matches)`. */
  predicate AllCountFirst(m: seq<string>) {
    m != [] && multiset(m)[m[0]] == |m|
  }

  /** Counting the first match is the same as every match being equal. */
  lemma {:induction false} CountIsUnanimity(m: seq<string>)
    requires m != []
    ensures AllCountFirst(m) <==> forall i :: 0 <= i < |m| ==> m[i] == m[0]
  {
    if forall i :: 0 <= i < |m| ==> m[i] == m[0] {
      CountAllEqual(m, m[0]);
    } else {
      var i :| 0 <= i < |m| && m[i] != m[0];
      CountBelow(m, m[0], i);
    }
  }

  lemma {:induction false} CountAllEqual(m: seq<string>, x: string)
    requires forall i :: 0 <= i < |m| ==> m[i] == x
    ensures multiset(m)[x] == |m|
    decreases |m|
  {
    if m != [] {
      assert m == [m[0]] + m[1..];
      CountAllEqual(m[1..], x);
    }
  }

  lemma {:induction false} CountBelow(m: seq<string>, x: string, i: int)
    requires 0 <= i < |m| && m[i] != x
    ensures multiset(m)[x] < |m|
    decreases |m|
  {
    assert m == [m[0]] + m[1..];
    if i == 0 {
      assert multiset(m[1..])[x] <= |m[1..]|;
    } else {
      CountBelow(m[1..], x, i - 1);
    }
  }

  /** The mentions the first pass tries to link: one token, PERSON. */
  predicate PersonCandidate(e: Ent) {
    !(e.end - e.start > 1 || e.tag != "PERSON")
  }

  function LastWord(text: string): string {
    var pieces := SplitOn(text, {' '});
    pieces[|pieces| - 1]
  }

  function Norm(text: string): string {
    Lower(Trim(text))
  }

  /** A match for `e` in the first pass: another PERSON mention of more than
      one token whose trimmed, lower-cased last word is `e`'s trimmed,
      lower-cased text. */
  predicate PersonMatch(e: Ent, e2: Ent) {
    !(e == e2 || e2.tag != "PERSON" || e2.end - e2.start == 1) &&
    Norm(e.text) == Norm(LastWord(e2.text))
  }

  /** The texts of the matches for `e` among `ents`, in order. */
  function PersonMatches(ents: seq<Ent>, e: Ent): seq<string>
    decreases |ents|
  {
    if ents == [] then []
    else
      var last := ents[|ents| - 1];
      PersonMatches(ents[..|ents| - 1], e) + (if PersonMatch(e, last) then [last.text] else [])
  }

  /** The texts of the mentions that `keep` accepts, in order. */
  function KeptTexts(ents: seq<Ent>, keep: Ent -> bool): seq<string>
    decreases |ents|
  {
    if ents == [] then []
    else
      var last := ents[|ents| - 1];
      KeptTexts(ents[..|ents| - 1], keep) + (if keep(last) then [last.text] else [])
  }

  lemma {:induction false} KeptTextsExact(ents: seq<Ent>, keep: Ent -> bool, m: string)
    ensures m in KeptTexts(ents, keep) <==> exists j :: 0 <= j < |ents| && keep(ents[j]) && ents[j].text == m
    decreases |ents|
  {
    if ents != [] {
      var init := ents[..|ents| - 1];
      KeptTextsExact(init, keep, m);
      assert forall j :: 0 <= j < |init| ==> init[j] == ents[j];
    }
  }

  lemma {:induction false} PersonMatchesKept(ents: seq<Ent>, e: Ent)
    ensures PersonMatches(ents, e) == KeptTexts(ents, x => PersonMatch(e, x))
    decreases |ents|
  {
    if ents != [] {
      PersonMatchesKept(ents[..|ents| - 1], e);
    }
  }

  /** Every collected text is the text of a matching mention, and every
      matching mention's text is collected. */
  lemma PersonMatchesExact(ents: seq<Ent>, e: Ent, m: string)
    ensures m in PersonMatches(ents, e) <==> exists j :: 0 <= j < |ents| && PersonMatch(e, ents[j]) && ents[j].text == m
  {
    PersonMatchesKept(ents, e);
    KeptTextsExact(ents, x => PersonMatch(e, x), m);
  }

  /** The inner loop of the first pass. */
  method CollectPersonMatches(ents: seq<Ent>, e: Ent) returns (matches: seq<string>)
    ensures matches == PersonMatches(ents, e)
  {
    matches := [];
    var etext := Norm(e.text);
    for j := 0 to |ents|
      invariant matches == PersonMatches(ents[..j], e)
    {
      var e2 := ents[j];
      assert ents[..j + 1][..j] == ents[..j];
      if e == e2 || e2.tag != "PERSON" || e2.end - e2.start == 1 {
        continue;
      }
      var e2text := Norm(LastWord(e2.text));
      if etext == e2text {
        matches := matches + [e2.text];
      }
    }
    assert ents[..|ents|] == ents;
  }

  /** One iteration of the first pass. */
  function PersonStep(link: map<Key, string>, ents: seq<Ent>, e: Ent): map<Key, string> {
    if !PersonCandidate(e) then link
    else
      var m := PersonMatches(ents, e);
      if AllCountFirst(m) then link[KeyOf(e) := m[0]] else link
  }

  /** The map after the first pass has seen `ents[..k]`. */
  function Pass1Upto(ents: seq<Ent>, k: nat): map<Key, string>
    requires k <= |ents|
  {
    if k == 0 then map[] else PersonStep(Pass1Upto(ents, k - 1), ents, ents[k - 1])
  }

  /** A first-pass link for mention `i`: a one-token PERSON mention whose
      matches all have one text. */
  ghost predicate PersonLinked(ents: seq<Ent>, i: int) {
    0 <= i < |ents| && PersonCandidate(ents[i]) && AllCountFirst(PersonMatches(ents, ents[i]))
  }

  function KeyOf(e: Ent): Key {
    (e.text, e.tag)
  }

  /** The greatest `j < k` with `p(j)`, or -1 when there is none. */
  ghost function LastWhere(k: nat, p: int -> bool): (r: int)
    ensures -1 <= r < k
    ensures r >= 0 ==> p(r)
    ensures forall j :: r < j < k ==> !p(j)
  {
    if k == 0 then -1 else if p(k - 1) then k - 1 else LastWhere(k - 1, p)
  }

  /** The last mention before `k` that gives `key` a first-pass link, or -1
      when none does. */
  ghost function LastPersonLink(ents: seq<Ent>, k: nat, key: Key): (r: int)
    requires k <= |ents|
    ensures -1 <= r < k
    ensures r >= 0 ==> PersonLinked(ents, r) && KeyOf(ents[r]) == key
    ensures forall j :: r < j < k ==> !(PersonLinked(ents, j) && KeyOf(ents[j]) == key)
  {
    var p := j => PersonLinked(ents, j) && KeyOf(ents[j]) == key;
    assert forall j :: p(j) == (PersonLinked(ents, j) && KeyOf(ents[j]) == key);
    LastWhere(k, p)
  }

  /** After the first pass a key is present exactly when some one-token
      PERSON mention with that text had unanimous matches, and its value is
      the common match of the last such mention. */
  lemma {:induction false} Pass1Links(ents: seq<Ent>, k: nat, key: Key)
    requires k <= |ents|
    ensures key in Pass1Upto(ents, k) <==> LastPersonLink(ents, k, key) >= 0
    ensures key in Pass1Upto(ents, k) ==>
      Pass1Upto(ents, k)[key] == PersonMatches(ents, ents[LastPersonLink(ents, k, key)])[0]
  {
    if k > 0 {
      Pass1Links(ents, k - 1, key);
    }
  }

  const Articles: seq<string> := ["The", "the", "a", "an", "A", "An"]

  /** The tokens of a mention for the abbreviation test: split on spaces
      and hyphens, without a leading article. */
  function MentionTokens(text: string): seq<string> {
    var t := SplitOn(text, {' ', '-'});
    if t[0] in Articles then t[1..] else t
  }

  /** The mentions the second pass tries to expand: one token, ORG or LAW,
      all upper case, 2 to 7 characters. */
  predicate AbbrevCandidate(e: Ent) {
    e.end - e.start == 1 && e.tag in ["ORG", "LAW"] && IsUpper(e.text) && 1 < |e.text| < 8
  }

  /** A candidate expansion of `e`: another mention with the same label
      whose tokens are as many as `e`'s letters. */
  predicate AbbrevCandidateFor(e: Ent, e2: Ent) {
    e != e2 && e2.tag == e.tag && |MentionTokens(e2.text)| == |e.text|
  }

  /** The expansions found for `e` among `ents`, in order; abbreviating a
      mention with an empty token raises. */
  function AbbrevMatches(ents: seq<Ent>, e: Ent): Result<seq<string>>
    decreases |ents|
  {
    if ents == [] then Ok([])
    else
      var prev := AbbrevMatches(ents[..|ents| - 1], e);
      var e2 := ents[|ents| - 1];
      if prev.Err? then prev
      else if e != e2 && e2.tag == e.tag then
        var toks := MentionTokens(e2.text);
        if |toks| != |e.text| then prev
        else
          var a := Abbreviate(toks);
          if a.Err? then Err(a.error)
          else if e.text == a.value then Ok(prev.value + [Join(toks, " ")])
          else prev
      else prev
  }

  /** Without an error, the expansions are exactly the joined tokens of the
      candidate mentions that abbreviate to `e`'s text. */
  lemma {:induction false} AbbrevMatchesExact(ents: seq<Ent>, e: Ent, m: string)
    requires AbbrevMatches(ents, e).Ok?
    ensures m in AbbrevMatches(ents, e).value <==>
      exists j :: 0 <= j < |ents| && AbbrevCandidateFor(e, ents[j]) &&
        Abbreviate(MentionTokens(ents[j].text)) == Ok(e.text) && m == Join(MentionTokens(ents[j].text), " ")
    decreases |ents|
  {
    if ents != [] {
      var init, e2 := ents[..|ents| - 1], ents[|ents| - 1];
      assert AbbrevMatches(init, e).Ok?;
      AbbrevMatchesExact(init, e, m);
      assert forall j :: 0 <= j < |init| ==> init[j] == ents[j];
      if AbbrevCandidateFor(e, e2) && Abbreviate(MentionTokens(e2.text)) == Ok(e.text) {
        assert AbbrevMatches(ents, e).value == AbbrevMatches(init, e).value + [Join(MentionTokens(e2.text), " ")];
      } else {
        assert AbbrevMatches(ents, e) == AbbrevMatches(init, e);
      }
    }
  }

  /** Once abbreviating a mention has raised, the rest of the scan raises. */
  lemma {:induction false} AbbrevErrSticky(ents: seq<Ent>, j: nat, e: Ent)
    requires j <= |ents|
    requires AbbrevMatches(ents[..j], e).Err?
    ensures AbbrevMatches(ents, e) == AbbrevMatches(ents[..j], e)
    decreases |ents| - j
  {
    if j < |ents| {
      assert ents[..j + 1][..j] == ents[..j];
      AbbrevErrSticky(ents, j + 1, e);
    } else {
      assert ents[..j] == ents;
    }
  }

  /** The inner loop of the second pass. */
  method CollectAbbrevMatches(ents: seq<Ent>, e: Ent) returns (r: Result<seq<string>>)
    ensures r == AbbrevMatches(ents, e)
  {
    var matches: seq<string> := [];
    for j := 0 to |ents|
      invariant AbbrevMatches(ents[..j], e) == Ok(matches)
    {
      var e2 := ents[j];
      assert ents[..j + 1][..j] == ents[..j];
      if e != e2 && e2.tag == e.tag {
        var e2tokens := SplitOn(e2.text, {' ', '-'});
        if e2tokens[0] in Articles {
          e2tokens := e2tokens[1..];
        }
        assert e2tokens == MentionTokens(e2.text);
        if |e2tokens| != |e.text| {
          continue;
        }
        var abbreviation := Abbreviate(e2tokens);
        if abbreviation.Err? {
          ghost var upto := ents[..j + 1];
          assert upto[..|upto| - 1] == ents[..j] && upto[|upto| - 1] == e2;
          assert AbbrevMatches(upto, e).Err?;
          AbbrevErrSticky(ents, j + 1, e);
          return Err(abbreviation.error);
        }
        if e.text == abbreviation.value {
          matches := matches + [Join(e2tokens, " ")];
        }
      }
    }
    assert ents[..|ents|] == ents;
    r := Ok(matches);
  }

  /** One iteration of the second pass. */
  function AbbrevStep(link: map<Key, string>, ents: seq<Ent>, e: Ent): Result<map<Key, string>> {
    if !AbbrevCandidate(e) then Ok(link)
    else
      var m := AbbrevMatches(ents, e);
      if m.Err? then Err(m.error)
      else if AllCountFirst(m.value) then Ok(link[KeyOf(e) := m.value[0]])
      else Ok(link)
  }

  /** The map so far, and whether the matcher has raised. */
  datatype Partial = Partial(link: map<Key, string>, failed: bool)

  /** The state after the second pass has seen `ents[..k]`; it starts from
      the first pass's map and stops changing once it raises. */
  function Pass2Upto(ents: seq<Ent>, k: nat): Partial
    requires k <= |ents|
  {
    if k == 0 then Partial(Pass1Upto(ents, |ents|), false)
    else
      var p := Pass2Upto(ents, k - 1);
      if p.failed then p else AbbrevOutcome(p.link, AbbrevStep(p.link, ents, ents[k - 1]))
  }

  /** The state after one step of the second pass from `link`. */
  function AbbrevOutcome(link: map<Key, string>, s: Result<map<Key, string>>): Partial {
    if s.Err? then Partial(link, true) else Partial(s.value, false)
  }

  function LinkStringsOf(ents: seq<Ent>): Partial {
    Pass2Upto(ents, |ents|)
  }

  lemma {:induction false} Pass2Sticky(ents: seq<Ent>, k: nat, n: nat)
    requires k <= n <= |ents|
    requires Pass2Upto(ents, k).failed
    ensures Pass2Upto(ents, n) == Pass2Upto(ents, k)
    decreases n - k
  {
    if k < n {
      Pass2Sticky(ents, k + 1, n);
    }
  }

  /** A second-pass link for mention `i`: an abbreviation-like mention whose
      expansions all have one text. */
  ghost predicate AbbrevLinked(ents: seq<Ent>, i: int) {
    0 <= i < |ents| && AbbrevCandidate(ents[i]) && AbbrevMatches(ents, ents[i]).Ok? &&
    AllCountFirst(AbbrevMatches(ents, ents[i]).value)
  }

  /** The last mention before `k` that gives `key` a second-pass link, or -1
      when none does. */
  ghost function LastAbbrevLink(ents: seq<Ent>, k: nat, key: Key): (r: int)
    requires k <= |ents|
    ensures -1 <= r < k
    ensures r >= 0 ==> AbbrevLinked(ents, r) && KeyOf(ents[r]) == key
    ensures forall j :: r < j < k ==> !(AbbrevLinked(ents, j) && KeyOf(ents[j]) == key)
  {
    var p := j => AbbrevLinked(ents, j) && KeyOf(ents[j]) == key;
    assert forall j :: p(j) == (AbbrevLinked(ents, j) && KeyOf(ents[j]) == key);
    LastWhere(k, p)
  }

  /** When the second pass does not raise, a key is present exactly when the
      first pass gave it or an abbreviation-like mention with unanimous
      expansions has it (the last such mention giving the value), and every
      PERSON key keeps its first-pass value. */
  lemma {:induction false} Pass2Links(ents: seq<Ent>, k: nat, key: Key)
    requires k <= |ents|
    requires !Pass2Upto(ents, k).failed
    ensures key in Pass2Upto(ents, k).link <==> key in Pass1Upto(ents, |ents|) || LastAbbrevLink(ents, k, key) >= 0
    ensures LastAbbrevLink(ents, k, key) >= 0 ==>
      Pass2Upto(ents, k).link[key] == AbbrevMatches(ents, ents[LastAbbrevLink(ents, k, key)]).value[0]
    ensures key.1 == "PERSON" && key in Pass1Upto(ents, |ents|) ==>
      Pass2Upto(ents, k).link[key] == Pass1Upto(ents, |ents|)[key]
  {
    if k > 0 {
      assert !Pass2Upto(ents, k - 1).failed;
      Pass2Links(ents, k - 1, key);
    }
  }

  /** The global `link_string`, which each call of the matcher replaces. */
  class LinkStrings {
    var linkString: map<Key, string>

    constructor ()
      ensures linkString == map[]
    {
      linkString := map[];
    }

    /** `find_link_strings`: a fresh map, then the PERSON pass, then the
        abbreviation pass; if abbreviating raises, the map built so far is
        what stays in `link_string`. */
    method FindLinkStrings(ents: seq<Ent>) returns (r: Result<()>)
      modifies this
      ensures linkString == LinkStringsOf(ents).link
      ensures r.Err? <==> LinkStringsOf(ents).failed
      ensures r.Err? ==> r.error == IndexError
    {
      var link: map<Key, string> := map[];
      for i := 0 to |ents|
        invariant link == Pass1Upto(ents, i)
      {
        var e := ents[i];
        assert Pass1Upto(ents, i + 1) == PersonStep(link, ents, e);
        if !PersonCandidate(e) {
          continue;
        }
        var matches := CollectPersonMatches(ents, e);
        if AllCountFirst(matches) {
          link := link[KeyOf(e) := matches[0]];
        }
      }
      for i := 0 to |ents|
        invariant !Pass2Upto(ents, i).failed && link == Pass2Upto(ents, i).link
      {
        var e := ents[i];
        assert Pass2Upto(ents, i + 1) == AbbrevOutcome(link, AbbrevStep(link, ents, e));
        if AbbrevCandidate(e) {
          var matches := CollectAbbrevMatches(ents, e);
          if matches.Err? {
            Pass2Sticky(ents, i + 1, |ents|);
            linkString := link;
            return Err(IndexError);
          }
          if AllCountFirst(matches.value) {
            link := link[KeyOf(e) := matches.value[0]];
          }
        }
      }
      linkString := link;
      r := Ok(());
    }
  }
}
