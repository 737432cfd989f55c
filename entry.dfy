/**
 * The symbol entry validation at the start of `on_fetch_clicked` in main.py:
 * the entered text is stripped of surrounding whitespace and upper-cased; an
 * empty result is refused with an error message and no fetch is started.
 */
module Entry {

  /** Python's `str.isspace()` for one character: the characters `str.strip()` removes. */
  predicate IsSpace(c: char)
  {
    var n := c as int;
    (9 <= n <= 13) || (28 <= n <= 32) || n == 0x85 || n == 0xA0 || n == 0x1680
    || (0x2000 <= n <= 0x200A) || n == 0x2028 || n == 0x2029 || n == 0x202F
    || n == 0x205F || n == 0x3000
  }

  /** Every character of `s[lo..hi]` is whitespace. */
  predicate SpaceBetween(s: string, lo: nat, hi: nat)
    requires lo <= hi <= |s|
  {
    forall i :: lo <= i < hi ==> IsSpace(s[i])
  }

  predicate AllSpace(s: string)
  {
    SpaceBetween(s, 0, |s|)
  }

  /** Scanning right from `i`: the first position that is not whitespace, or `|s|`. */
  function LeadEnd(s: string, i: nat): (k: nat)
    requires i <= |s|
    ensures i <= k <= |s| && SpaceBetween(s, i, k)
    ensures k < |s| ==> !IsSpace(s[k])
    decreases |s| - i
  {
    if i < |s| && IsSpace(s[i]) then LeadEnd(s, i + 1) else i
  }

  /** Scanning left from `j` down to `lo`: the end of the text once trailing whitespace is cut. */
  function TrailEnd(s: string, lo: nat, j: nat): (k: nat)
    requires lo <= j <= |s|
    ensures lo <= k <= j && SpaceBetween(s, k, j)
    ensures k > lo ==> !IsSpace(s[k - 1])
    decreases j
  {
    if j > lo && IsSpace(s[j - 1]) then TrailEnd(s, lo, j - 1) else j
  }

  /** `s.strip()`: leading whitespace is skipped first, then trailing whitespace down to that point. */
  function Strip(s: string): string
  {
    var i := LeadEnd(s, 0);
    s[i..TrailEnd(s, i, |s|)]
  }

  predicate IsLowerAscii(c: char)
  {
    'a' <= c <= 'z'
  }

  /** `str.upper()` on one character; only ASCII letters are mapped. */
  function UpperChar(c: char): char
  {
    if IsLowerAscii(c) then (c as int - 32) as char else c
  }

  /** `s.upper()`, character by character. */
  function Upper(s: string): (r: string)
    ensures |r| == |s|
    ensures forall i :: 0 <= i < |s| ==> r[i] == UpperChar(s[i])
  {
    if s == [] then [] else [UpperChar(s[0])] + Upper(s[1..])
  }

  /** `symbol_var.get().strip().upper()`. */
  function Normalize(raw: string): string
  {
    Upper(Strip(raw))
  }

  /** What a click on "Fetch & Plot" does with the entered text. */
  datatype Click = ShowError(message: string) | StartFetch(symbol: string)

  const EmptyEntryMessage := "Please select or enter a stock symbol."

  /** `on_fetch_clicked`: refuse an empty normalised entry, otherwise start the fetch with it. */
  function OnFetchClicked(raw: string): (c: Click)
    ensures c.ShowError? <==> AllSpace(raw)
    ensures c.ShowError? ==> c.message == EmptyEntryMessage
    ensures c.StartFetch? ==> c.symbol != [] && c.symbol == Normalize(raw)
  {
    var symbol := Normalize(raw);
    StripEmptyIff(raw);
    if symbol == [] then ShowError(EmptyEntryMessage) else StartFetch(symbol)
  }

  /** Stripping leaves nothing exactly when the text is all whitespace. */
  lemma StripEmptyIff(s: string)
    ensures Strip(s) == [] <==> AllSpace(s)
  {
    var i := LeadEnd(s, 0);
    if i < |s| {
      assert !SpaceBetween(s, i, |s|) && !AllSpace(s);
    }
  }

  /** The stripped text is a slice of the input with only whitespace cut away, and neither end is whitespace. */
  lemma StripIsTrimmedSlice(s: string)
    ensures exists i, j :: 0 <= i <= j <= |s| && Strip(s) == s[i..j] && SpaceBetween(s, 0, i) && SpaceBetween(s, j, |s|)
    ensures Strip(s) != [] ==> !IsSpace(Strip(s)[0]) && !IsSpace(Strip(s)[|Strip(s)| - 1])
  {
    var i := LeadEnd(s, 0);
    var j := TrailEnd(s, i, |s|);
    assert Strip(s) == s[i..j];
  }

  /** A normalised, non-empty entry has no whitespace at either end and no lower-case ASCII letter. */
  lemma NormalizedSymbolShape(raw: string)
    requires Normalize(raw) != []
    ensures !IsSpace(Normalize(raw)[0]) && !IsSpace(Normalize(raw)[|Normalize(raw)| - 1])
    ensures forall i :: 0 <= i < |Normalize(raw)| ==> !IsLowerAscii(Normalize(raw)[i])
  {
    StripIsTrimmedSlice(raw);
  }

  /** Upper-casing maps whitespace to itself and nothing else to whitespace. */
  lemma UpperCharKeepsSpace(c: char)
    ensures IsSpace(UpperChar(c)) <==> IsSpace(c)
  {
  }

  /** Text with no whitespace at either end is left alone by stripping. */
  lemma StripOfTrimmed(s: string)
    requires s != [] ==> !IsSpace(s[0]) && !IsSpace(s[|s| - 1])
    ensures Strip(s) == s
  {
    assert LeadEnd(s, 0) == 0;
    assert TrailEnd(s, 0, |s|) == |s|;
  }

  /** Upper-casing keeps both ends free of whitespace. */
  lemma UpperKeepsTrimmed(s: string)
    requires s != [] ==> !IsSpace(s[0]) && !IsSpace(s[|s| - 1])
    ensures Upper(s) != [] ==> !IsSpace(Upper(s)[0]) && !IsSpace(Upper(s)[|s| - 1])
  {
    if s != [] {
      UpperCharKeepsSpace(s[0]);
      UpperCharKeepsSpace(s[|s| - 1]);
    }
  }

  /** Upper-casing twice is upper-casing once. */
  lemma UpperIdempotent(s: string)
    ensures Upper(Upper(s)) == Upper(s)
  {
    assert forall i :: 0 <= i < |s| ==> UpperChar(UpperChar(s[i])) == UpperChar(s[i]);
  }

  /** Normalising twice is normalising once. */
  lemma NormalizeIdempotent(raw: string)
    ensures Normalize(Normalize(raw)) == Normalize(raw)
  {
    var s := Strip(raw);
    StripIsTrimmedSlice(raw);
    UpperKeepsTrimmed(s);
    StripOfTrimmed(Upper(s));
    UpperIdempotent(s);
  }

  /** Whitespace around the entry and its letter case do not change the symbol fetched. */
  lemma PaddedLowerCaseExample(raw: string)
    requires raw == "  aapl\n"
    ensures OnFetchClicked(raw) == StartFetch("AAPL")
  {
    assert LeadEnd(raw, 2) == 2;
    assert LeadEnd(raw, 0) == 2;
    assert TrailEnd(raw, 2, 6) == 6;
    assert TrailEnd(raw, 2, 7) == 6;
    assert Upper(raw[2..6]) == "AAPL";
  }

  /** A whitespace-only entry is refused. */
  lemma BlankEntryExample()
    ensures OnFetchClicked(" \t ") == ShowError(EmptyEntryMessage)
  {
  }
}
