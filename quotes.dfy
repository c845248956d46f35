/** The quote explorer (Readfile/Quoteapi/Quote.js): the loaded quotes, the
    search over them, what the quotes container shows, and the HTML escaping
    applied to every quote before it is shown. */
module Quotes {
  import opened Text
  import opened Sequences

  datatype Quote = Quote(id: int, quote: string, author: string)

  // ---------------------------------------------------------------------
  // escapeHtml

  /** String.prototype.replace with a global one-character pattern: every c in s
      becomes rep. */
  function ReplaceAll(s: string, c: char, rep: string): (r: string)
    ensures c !in s ==> r == s
    decreases |s|
  {
    if s == [] then []
    else (if s[0] == c then rep else [s[0]]) + ReplaceAll(s[1..], c, rep)
  }

  /** escapeHtml: five replacements in order, "&" first. */
  function EscapeHtml(s: string): string {
    ReplaceAll(ReplaceAll(ReplaceAll(ReplaceAll(ReplaceAll(s,
      '&', "&amp;"), '<', "&lt;"), '>', "&gt;"), '"', "&quot;"), '\'', "&#039;")
  }

  /** The entity escapeHtml writes for one character. */
  function EscapeChar(c: char): (r: string)
    ensures |r| >= 1
    ensures r[0] == '&' <==> IsSpecial(c)
    ensures !IsSpecial(c) ==> r == [c]
  {
    if c == '&' then "&amp;"
    else if c == '<' then "&lt;"
    else if c == '>' then "&gt;"
    else if c == '"' then "&quot;"
    else if c == '\'' then "&#039;"
    else [c]
  }

  predicate IsSpecial(c: char) {
    c == '&' || c == '<' || c == '>' || c == '"' || c == '\''
  }

  /** Escaping character by character, in one pass. */
  function EscapeEach(s: string): string
    decreases |s|
  {
    if s == [] then [] else EscapeChar(s[0]) + EscapeEach(s[1..])
  }

  lemma {:induction false} ReplaceAllAppend(a: string, b: string, c: char, rep: string)
    ensures ReplaceAll(a + b, c, rep) == ReplaceAll(a, c, rep) + ReplaceAll(b, c, rep)
    decreases |a|
  {
    if a != [] {
      var piece := if a[0] == c then rep else [a[0]];
      assert (a + b)[0] == a[0] && (a + b)[1..] == a[1..] + b;
      assert ReplaceAll(a + b, c, rep) == piece + ReplaceAll(a[1..] + b, c, rep);
      ReplaceAllAppend(a[1..], b, c, rep);
      assert ReplaceAll(a, c, rep) == piece + ReplaceAll(a[1..], c, rep);
    } else {
      assert a + b == b;
    }
  }

  /** The chain distributes over concatenation ... */
  lemma EscapeHtmlAppend(a: string, b: string)
    ensures EscapeHtml(a + b) == EscapeHtml(a) + EscapeHtml(b)
  {
    var a1, b1 := ReplaceAll(a, '&', "&amp;"), ReplaceAll(b, '&', "&amp;");
    ReplaceAllAppend(a, b, '&', "&amp;");
    var a2, b2 := ReplaceAll(a1, '<', "&lt;"), ReplaceAll(b1, '<', "&lt;");
    ReplaceAllAppend(a1, b1, '<', "&lt;");
    var a3, b3 := ReplaceAll(a2, '>', "&gt;"), ReplaceAll(b2, '>', "&gt;");
    ReplaceAllAppend(a2, b2, '>', "&gt;");
    var a4, b4 := ReplaceAll(a3, '"', "&quot;"), ReplaceAll(b3, '"', "&quot;");
    ReplaceAllAppend(a3, b3, '"', "&quot;");
    ReplaceAllAppend(a4, b4, '\'', "&#039;");
  }

  /** Replacing in a one-character string. */
  lemma ReplaceAllSingle(x: char, c: char, rep: string)
    ensures ReplaceAll([x], c, rep) == if x == c then rep else [x]
  {
    assert [x][1..] == [];
  }

  /** ... and maps one character to its entity: since "&" goes first, the "&"s the
      later steps write are never escaped again. */
  lemma EscapeHtmlChar(c: char)
    ensures EscapeHtml([c]) == EscapeChar(c)
  {
    ReplaceAllSingle(c, '&', "&amp;");
    if !IsSpecial(c) {
      ReplaceAllSingle(c, '<', "&lt;");
      ReplaceAllSingle(c, '>', "&gt;");
      ReplaceAllSingle(c, '"', "&quot;");
      ReplaceAllSingle(c, '\'', "&#039;");
    } else if c == '&' {
      assert '<' !in "&amp;" && '>' !in "&amp;" && '"' !in "&amp;" && '\'' !in "&amp;";
    } else if c == '<' {
      ReplaceAllSingle(c, '<', "&lt;");
      assert '>' !in "&lt;" && '"' !in "&lt;" && '\'' !in "&lt;";
    } else if c == '>' {
      ReplaceAllSingle(c, '<', "&lt;");
      ReplaceAllSingle(c, '>', "&gt;");
      assert '"' !in "&gt;" && '\'' !in "&gt;";
    } else if c == '"' {
      ReplaceAllSingle(c, '<', "&lt;");
      ReplaceAllSingle(c, '>', "&gt;");
      ReplaceAllSingle(c, '"', "&quot;");
      assert '\'' !in "&quot;";
    } else {
      ReplaceAllSingle(c, '<', "&lt;");
      ReplaceAllSingle(c, '>', "&gt;");
      ReplaceAllSingle(c, '"', "&quot;");
      ReplaceAllSingle(c, '\'', "&#039;");
    }
  }

  /** So the chain is the one-pass escape. */
  lemma {:induction false} EscapeHtmlIsEscapeEach(s: string)
    ensures EscapeHtml(s) == EscapeEach(s)
    decreases |s|
  {
    if s != [] {
      assert s == [s[0]] + s[1..];
      EscapeHtmlAppend([s[0]], s[1..]);
      EscapeHtmlChar(s[0]);
      EscapeHtmlIsEscapeEach(s[1..]);
    }
  }

  predicate NoMarkup(s: string) {
    forall i :: 0 <= i < |s| ==> s[i] != '<' && s[i] != '>' && s[i] != '"' && s[i] != '\''
  }

  lemma {:induction false} EscapeEachRemovesMarkup(s: string)
    ensures NoMarkup(EscapeEach(s))
    decreases |s|
  {
    if s != [] {
      EscapeEachRemovesMarkup(s[1..]);
      var p, q := EscapeChar(s[0]), EscapeEach(s[1..]);
      assert NoMarkup(p);
      assert forall i :: |p| <= i < |p + q| ==> (p + q)[i] == q[i - |p|];
    }
  }

  /** The output has no "<", ">", '"' or "'". */
  lemma EscapeHtmlRemovesMarkup(s: string)
    ensures NoMarkup(EscapeHtml(s))
  {
    EscapeHtmlIsEscapeEach(s);
    EscapeEachRemovesMarkup(s);
  }

  /** A string without any of the five characters comes back unchanged. */
  lemma EscapeHtmlPlain(s: string)
    requires forall i :: 0 <= i < |s| ==> !IsSpecial(s[i])
    ensures EscapeHtml(s) == s
  {
  }

  predicate StartsWith(s: string, p: string) {
    |p| <= |s| && s[..|p|] == p
  }

  /** An "&" at index k begins one of the five entities. */
  predicate StartsEntity(s: string, k: int)
    requires 0 <= k <= |s|
  {
    StartsWith(s[k..], "&amp;") || StartsWith(s[k..], "&lt;") || StartsWith(s[k..], "&gt;")
    || StartsWith(s[k..], "&quot;") || StartsWith(s[k..], "&#039;")
  }

  predicate AmpersandsStartEntities(o: string) {
    forall k :: 0 <= k < |o| && o[k] == '&' ==> StartsEntity(o, k)
  }

  lemma {:induction false} EscapeEachAmpersands(s: string)
    ensures AmpersandsStartEntities(EscapeEach(s))
    decreases |s|
  {
    if s != [] {
      EscapeEachAmpersands(s[1..]);
      var p, q := EscapeChar(s[0]), EscapeEach(s[1..]);
      var o := p + q;
      forall k | 0 <= k < |o| && o[k] == '&'
        ensures StartsEntity(o, k)
      {
        if k < |p| {
          assert k == 0 && o[..|p|] == p;
        } else {
          assert o[k..] == q[k - |p|..];
        }
      }
    }
  }

  /** Every "&" in the output begins an entity. */
  lemma EscapeHtmlAmpersands(s: string)
    ensures AmpersandsStartEntities(EscapeHtml(s))
  {
    EscapeHtmlIsEscapeEach(s);
    EscapeEachAmpersands(s);
  }

  /** Reads the five entities back as characters. */
  function Unescape(s: string): string
    decreases |s|
  {
    if s == [] then []
    else if StartsWith(s, "&amp;") then "&" + Unescape(s[5..])
    else if StartsWith(s, "&lt;") then "<" + Unescape(s[4..])
    else if StartsWith(s, "&gt;") then ">" + Unescape(s[4..])
    else if StartsWith(s, "&quot;") then "\"" + Unescape(s[6..])
    else if StartsWith(s, "&#039;") then "'" + Unescape(s[6..])
    else [s[0]] + Unescape(s[1..])
  }

  /** The entity of one character is read back as that character. */
  lemma UnescapeEscapeChar(c: char, q: string)
    ensures Unescape(EscapeChar(c) + q) == [c] + Unescape(q)
  {
    var p := EscapeChar(c);
    var o := p + q;
    assert o[..|p|] == p && o[|p|..] == q;
    if !IsSpecial(c) {
      assert o[0] == c;
      assert !StartsWith(o, "&amp;");
      assert !StartsWith(o, "&lt;");
      assert !StartsWith(o, "&gt;");
      assert !StartsWith(o, "&quot;");
      assert !StartsWith(o, "&#039;");
    } else {
      assert o[1] == p[1];
      if c != '&' {
        assert !StartsWith(o, "&amp;");
      }
      if c != '&' && c != '<' {
        assert !StartsWith(o, "&lt;");
      }
      if c == '"' || c == '\'' {
        assert !StartsWith(o, "&gt;");
      }
      if c == '\'' {
        assert !StartsWith(o, "&quot;");
      }
    }
  }

  lemma {:induction false} UnescapeEscapeEach(s: string)
    ensures Unescape(EscapeEach(s)) == s
    decreases |s|
  {
    if s != [] {
      UnescapeEscapeEach(s[1..]);
      UnescapeEscapeChar(s[0], EscapeEach(s[1..]));
    }
  }

  /** Unescaping the output gives back the input, so escaping loses nothing. */
  lemma UnescapeEscapeHtml(s: string)
    ensures Unescape(EscapeHtml(s)) == s
  {
    EscapeHtmlIsEscapeEach(s);
    UnescapeEscapeEach(s);
  }

  // ---------------------------------------------------------------------
  // handleSearch

  /** `searchInput.value.toLowerCase().trim()`. */
  function SearchTerm(value: string): (term: string)
    ensures term == [] <==> AllWhitespace(value)
  {
    LowerKeepsWhitespace(value);
    Trim(Lower(value))
  }

  /** The quote's text or its author, lower-cased, contains the term. */
  predicate Matches(q: Quote, term: string) {
    Contains(Lower(q.quote), term) || Contains(Lower(q.author), term)
  }

  /** The quotes a search keeps: all of them for an empty term, otherwise exactly
      the matching ones, each as often as loaded, in loaded order. */
  function Search(all: seq<Quote>, value: string): (r: seq<Quote>)
    ensures IsSubsequence(r, all)
    ensures AllWhitespace(value) ==> r == all
    ensures !AllWhitespace(value) ==>
      forall q :: multiset(r)[q] == if Matches(q, SearchTerm(value)) then multiset(all)[q] else 0
  {
    var term := SearchTerm(value);
    if term == [] then SubsequenceReflexive(all); all
    else Filter((q: Quote) => Matches(q, term), all)
  }

  /** A quote matches exactly when the term occurs in its lower-cased text or
      author. */
  lemma MatchesIffOccurs(q: Quote, term: string)
    ensures Matches(q, term) <==>
      (exists i :: OccursAt(Lower(q.quote), term, i)) || (exists i :: OccursAt(Lower(q.author), term, i))
  {
    ContainsIffOccurs(Lower(q.quote), term);
    ContainsIffOccurs(Lower(q.author), term);
  }

  /** The search ignores the case of what was typed. */
  lemma SearchIgnoresCase(all: seq<Quote>, value: string)
    ensures Search(all, Lower(value)) == Search(all, value)
  {
    LowerIdempotent(value);
    assert SearchTerm(Lower(value)) == SearchTerm(value);
  }

  // ---------------------------------------------------------------------
  // The page state

  /** What the quotes container holds. */
  datatype Display = Welcome | Cards(quotes: seq<Quote>) | NoResults | ErrorState

  /** The message box: its text and its type. */
  datatype Message = Message(text: string, kind: string)

  /** The message shown when loading the quotes fails. */
  const LoadFailed: Message := Message("Failed to load quotes. Please make sure the server is running on port 3000.", "error")

  /** The outcome of fetching the quotes: the parsed list; a parsed list whose
      drawing throws (a quote without text or author); or a failure before
      anything is assigned (network error, a status that is not ok, a body that
      is not JSON). */
  datatype FetchResult = Fetched(quotes: seq<Quote>) | RenderFailed(quotes: seq<Quote>) | FetchFailed

  /** displayQuotes: an empty list shows the no-results panel. */
  function DisplayQuotes(qs: seq<Quote>): (d: Display)
    ensures d == NoResults <==> qs == []
    ensures qs != [] ==> d == Cards(qs)
  {
    if qs == [] then NoResults else Cards(qs)
  }

  /** The panel handleSearch shows: no results when nothing was kept from a
      non-empty list, the kept quotes otherwise. Since displayQuotes shows the
      no-results panel for an empty list too, this is displayQuotes of the kept
      quotes in every case. */
  function SearchPanel(all: seq<Quote>, filtered: seq<Quote>): (d: Display)
    ensures d == DisplayQuotes(filtered)
  {
    if |filtered| == 0 && |all| > 0 then NoResults else DisplayQuotes(filtered)
  }

  /** getIconForMessageType: the four known types have their icon; any other type
      is shown with the information icon. */
  function IconForMessageType(kind: string): (icon: string)
    ensures kind == "success" <==> icon == "check-circle"
    ensures kind == "error" <==> icon == "exclamation-circle"
    ensures kind == "warning" <==> icon == "exclamation-triangle"
    ensures icon == "info-circle" <==> kind != "success" && kind != "error" && kind != "warning"
  {
    if kind == "success" then "check-circle"
    else if kind == "error" then "exclamation-circle"
    else if kind == "warning" then "exclamation-triangle"
    else "info-circle"
  }

  /** The module variables `allQuotes` and `filteredQuotes`, the search box's text,
      the container and the message box. `drawable` records whether every loaded
      quote has a string text and author: after a load whose drawing threw it is
      false, and reading those fields again throws. */
  class QuoteBrowser {
    var allQuotes: seq<Quote>
    var filteredQuotes: seq<Quote>
    var searchText: string
    var display: Display
    var message: Option<Message>
    var drawable: bool

    /** Nothing loaded; the welcome panel. */
    constructor ()
      ensures allQuotes == [] && filteredQuotes == [] && searchText == []
      ensures display == Welcome && message == None && drawable
    {
      allQuotes := [];
      filteredQuotes := [];
      searchText := [];
      display := Welcome;
      message := None;
      drawable := true;
    }

    /** loadAllQuotes given the fetch's outcome: a loaded list replaces both lists
      and is shown. A failure shows the error panel; it keeps the lists when it
      happens before the body is assigned, and not when drawing the list throws. */
    method LoadAllQuotes(result: FetchResult)
      modifies this`allQuotes, this`filteredQuotes, this`display, this`message, this`drawable
      ensures result.Fetched? ==>
        && allQuotes == result.quotes && filteredQuotes == allQuotes
        && display == DisplayQuotes(allQuotes)
        && message == Some(Message("Successfully loaded " + NatToString(|allQuotes|) + " quotes", "success"))
        && drawable
      ensures result.RenderFailed? ==>
        && allQuotes == result.quotes && filteredQuotes == allQuotes
        && display == ErrorState
        && message == Some(LoadFailed)
        && !drawable
      ensures result.FetchFailed? ==>
        && allQuotes == old(allQuotes) && filteredQuotes == old(filteredQuotes)
        && display == ErrorState
        && message == Some(LoadFailed)
        && drawable == old(drawable)
      ensures searchText == old(searchText)
    {
      match result
      case Fetched(qs) =>
        allQuotes := qs;
        filteredQuotes := allQuotes;
        display := DisplayQuotes(allQuotes);
        message := Some(Message("Successfully loaded " + NatToString(|allQuotes|) + " quotes", "success"));
        drawable := true;
      case RenderFailed(qs) =>
        allQuotes := qs;
        filteredQuotes := allQuotes;
        message := Some(LoadFailed);
        display := ErrorState;
        drawable := false;
      case FetchFailed =>
        message := Some(LoadFailed);
        display := ErrorState;
    }

    /** refreshQuotes, given the order the random shuffle produced: with nothing
      loaded it only warns; otherwise it shows the shuffled quotes, or, when
      drawing them throws, keeps the container and reports the error. Neither
      list changes. */
    method RefreshQuotes(shuffled: seq<Quote>)
      requires multiset(shuffled) == multiset(allQuotes)
      modifies this`display, this`message
      ensures old(allQuotes) == [] ==>
        && display == old(display)
        && message == Some(Message("No quotes to refresh. Please load quotes first.", "warning"))
      ensures old(allQuotes) != [] && !drawable ==>
        && display == old(display)
        && message == Some(Message("Error refreshing quotes", "error"))
      ensures old(allQuotes) != [] && drawable ==>
        && display == Cards(shuffled) && multiset(display.quotes) == multiset(allQuotes)
        && message == Some(Message("Quotes refreshed successfully!", "success"))
    {
      if |allQuotes| == 0 {
        message := Some(Message("No quotes to refresh. Please load quotes first.", "warning"));
        return;
      }
      if !drawable {
        message := Some(Message("Error refreshing quotes", "error"));
        return;
      }
      assert |shuffled| == |multiset(allQuotes)| > 0;
      display := DisplayQuotes(shuffled);
      message := Some(Message("Quotes refreshed successfully!", "success"));
    }

    /** clearQuotes. */
    method ClearQuotes()
      modifies this
      ensures allQuotes == [] && filteredQuotes == [] && searchText == []
      ensures display == Welcome && message == Some(Message("All quotes cleared", "info"))
      ensures drawable
    {
      drawable := true;
      allQuotes := [];
      filteredQuotes := [];
      searchText := [];
      display := Welcome;
      message := Some(Message("All quotes cleared", "info"));
    }

    /** handleSearch after the search box changed to `value`. With quotes that
      cannot be read, a blank value (an empty term) still copies the list and
      then drawing it throws; any other term throws inside the filter, before
      anything is assigned. */
    method HandleSearch(value: string)
      modifies this`searchText, this`filteredQuotes, this`display
      ensures searchText == value
      ensures drawable ==>
        && filteredQuotes == Search(allQuotes, value)
        && display == DisplayQuotes(filteredQuotes)
      ensures !drawable && AllWhitespace(value) ==>
        && filteredQuotes == allQuotes
        && display == (if allQuotes == [] then NoResults else old(display))
      ensures !drawable && !AllWhitespace(value) ==>
        filteredQuotes == old(filteredQuotes) && display == old(display)
    {
      var all := allQuotes;
      var filtered, shown := filteredQuotes, display;
      if drawable {
        filtered := Search(all, value);
        shown := SearchPanel(all, filtered);
      } else if AllWhitespace(value) {
        filtered := all;
        if all == [] {
          shown := NoResults;
        }
      }
      searchText, filteredQuotes, display := value, filtered, shown;
    }
  }
}
