/**
 * `load_symbols` of main.py: the ticker list offered in the symbol box. The
 * file is `Some(text)` when it exists and `None` when it does not; reading
 * it is outside the model.
 */
module Symbols {
  import opened Wrappers
  import opened SymbolScan
  import opened SymbolOrder

  /** The tokens the file yields: none when the file is missing. */
  function FileTokens(file: Option<string>): seq<string>
  {
    match file
    case None => []
    case Some(text) => FindAll(text)
  }

  /** The list `load_symbols` sorts: the matches, or the fallback list (in the order written) when there are none. */
  function Candidates(file: Option<string>): (s: seq<string>)
    ensures s != []
    ensures forall i :: 0 <= i < |s| ==> IsToken(s[i])
    ensures FileTokens(file) != [] ==> s == FileTokens(file)
  {
    var found := FileTokens(file);
    if found == [] then
      assert IsToken("AAPL") && IsToken("MSFT") && IsToken("GOOGL") && IsToken("AMZN") && IsToken("TSLA");
      ["AAPL", "MSFT", "GOOGL", "AMZN", "TSLA"]
    else found
  }

  /** `load_symbols`: the candidates, sorted with duplicates removed. */
  function LoadSymbols(file: Option<string>): (r: seq<string>)
    ensures r != []
    ensures StrictlySorted(r)
    ensures forall i :: 0 <= i < |r| ==> IsToken(r[i])
  {
    var symbols := Candidates(file);
    var r := SortedSet(symbols);
    assert r != [] by { assert symbols[0] in Elements(symbols); ElementsEmpty(r); }
    assert forall i :: 0 <= i < |r| ==> r[i] in Elements(symbols);
    r
  }

  /** A missing file, or one without any `**TOKEN**`, gives the fallback list in sorted order. */
  lemma LoadSymbolsFallback(file: Option<string>)
    requires FileTokens(file) == []
    ensures LoadSymbols(file) == ["AAPL", "AMZN", "GOOGL", "MSFT", "TSLA"]
  {
    var sorted := ["AAPL", "AMZN", "GOOGL", "MSFT", "TSLA"];
    assert Less(sorted[0], sorted[1]) && Less(sorted[1], sorted[2])
        && Less(sorted[2], sorted[3]) && Less(sorted[3], sorted[4]);
    forall i, j | 0 <= i < j < 5 ensures Less(sorted[i], sorted[j]) {
      if j > i + 1 { LessChain(sorted, i, j); }
    }
    assert Elements(sorted) == Elements(["AAPL", "MSFT", "GOOGL", "AMZN", "TSLA"]);
    StrictlySortedUnique(LoadSymbols(file), sorted);
  }

  /** Neighbour-wise ordering extends along a list. */
  lemma {:induction false} LessChain(s: seq<string>, i: nat, j: nat)
    requires i < j < |s|
    requires forall k :: 0 <= k < |s| - 1 ==> Less(s[k], s[k + 1])
    ensures Less(s[i], s[j])
    decreases j - i
  {
    if i + 1 < j {
      LessChain(s, i + 1, j);
      LessTransitive(s[i], s[i + 1], s[j]);
    }
  }

  /** The list holds exactly the distinct tokens found in the file, whenever there is one. */
  lemma LoadSymbolsAreFileTokens(file: Option<string>)
    requires FileTokens(file) != []
    ensures Elements(LoadSymbols(file)) == Elements(FileTokens(file))
  {
  }

  /** When the file yields tokens, each listed symbol stands in the text as `"**" + s + "**"`. */
  lemma LoadSymbolsOccurInText(text: string)
    requires FindAll(text) != []
    ensures forall i :: 0 <= i < |LoadSymbols(Some(text))| ==> OccursWrapped(text, LoadSymbols(Some(text))[i])
  {
    var r := LoadSymbols(Some(text));
    var found := FindAll(text);
    FoundTokensOccurWrapped(text, 0);
    forall i | 0 <= i < |r| ensures OccursWrapped(text, r[i]) {
      assert r[i] in Elements(found);
      var j :| 0 <= j < |found| && found[j] == r[i];
    }
  }

  /** Only the set of tokens matters: two texts with the same tokens, in any order and number, list the same symbols. */
  lemma LoadSymbolsDependsOnlyOnTokenSet(a: Option<string>, b: Option<string>)
    requires Elements(FileTokens(a)) == Elements(FileTokens(b))
    ensures LoadSymbols(a) == LoadSymbols(b)
  {
    ElementsEmpty(FileTokens(a));
    ElementsEmpty(FileTokens(b));
    if FileTokens(a) != [] {
      SortedSetDependsOnlyOnElements(FileTokens(a), FileTokens(b));
    }
  }

  /** A file made of wrapped tokens lists them sorted, with duplicates dropped. */
  lemma LoadSymbolsOfRendered(ss: seq<string>)
    requires ss != []
    requires forall i :: 0 <= i < |ss| ==> IsToken(ss[i])
    ensures LoadSymbols(Some(Render(ss))) == SortedSet(ss)
  {
    FindAllRender(ss);
  }

  /** Rendering the same tokens twice over and in another order changes nothing. */
  lemma DuplicatedAndReorderedExample()
    ensures LoadSymbols(Some(Render(["MSFT", "AAPL", "MSFT"]))) == LoadSymbols(Some(Render(["AAPL", "MSFT"])))
  {
    var xs: seq<string> := ["MSFT", "AAPL", "MSFT"];
    var ys: seq<string> := ["AAPL", "MSFT"];
    SampleTokens();
    LoadSymbolsOfRendered(xs);
    LoadSymbolsOfRendered(ys);
    assert Elements(xs) == Elements(ys);
    SortedSetDependsOnlyOnElements(xs, ys);
  }

  lemma SampleTokens()
    ensures IsToken("AAPL") && IsToken("MSFT") && IsToken("GOOG-X")
  {
    assert IsSymbolChar('-');
  }

  /** The tokens of free text with upper- and lower-case tokens: `"foo **AAPL** bar **MSFT** **aapl** **GOOG-X**"`. */
  lemma MixedTextTokens(t: string)
    requires t == "foo " + Wrap("AAPL") + " bar " + Wrap("MSFT") + " " + Wrap("aapl") + " " + Wrap("GOOG-X")
    ensures FindAll(t) == ["AAPL", "MSFT", "GOOG-X"]
  {
    SampleTokens();
    var t5 := Wrap("GOOG-X");
    var t4 := Wrap("aapl") + (" " + t5);
    var t3 := " " + t4;
    var t2 := Wrap("MSFT") + t3;
    var t1 := " bar " + t2;
    var t0 := Wrap("AAPL") + t1;
    assert t == "foo " + t0;
    calc {
      FindAll(t);
      { FindAllStarFreePrefix("foo ", t0, 0); }
      FindAll(t0);
      { FindAllWrappedPrefix("AAPL", t1); }
      ["AAPL"] + FindAll(t1);
      { FindAllStarFreePrefix(" bar ", t2, 0); }
      ["AAPL"] + FindAll(t2);
      { FindAllWrappedPrefix("MSFT", t3); }
      ["AAPL"] + (["MSFT"] + FindAll(t3));
      { FindAllStarFreePrefix(" ", t4, 0); }
      ["AAPL"] + (["MSFT"] + FindAll(t4));
      { FindAllWrappedNonToken("aapl", " " + t5); }
      ["AAPL"] + (["MSFT"] + FindAll(" " + t5));
      { FindAllStarFreePrefix(" ", t5, 0); }
      ["AAPL"] + (["MSFT"] + FindAll(t5));
      { FindAllWrappedPrefix("GOOG-X", ""); assert t5 + "" == t5; }
      ["AAPL"] + (["MSFT"] + (["GOOG-X"] + FindAll("")));
    }
  }

  /** Free text around the tokens is skipped and lower-case `**aapl**` is not a token. */
  lemma MixedTextExample(t: string)
    requires t == "foo " + Wrap("AAPL") + " bar " + Wrap("MSFT") + " " + Wrap("aapl") + " " + Wrap("GOOG-X")
    ensures LoadSymbols(Some(t)) == ["AAPL", "GOOG-X", "MSFT"]
  {
    MixedTextTokens(t);
    var found: seq<string> := ["AAPL", "MSFT", "GOOG-X"];
    var sorted: seq<string> := ["AAPL", "GOOG-X", "MSFT"];
    assert Less(sorted[0], sorted[1]) && Less(sorted[1], sorted[2]);
    LessTransitive(sorted[0], sorted[1], sorted[2]);
    assert Elements(sorted) == Elements(found);
    StrictlySortedUnique(LoadSymbols(Some(t)), sorted);
  }
}
