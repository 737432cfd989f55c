/**
 * `re.findall(r"\*\*([A-Z0-9\-\^]+)\*\*", txt)` as an explicit left-to-right
 * scan. Because `*` is not in the token class, the greedy run of class
 * characters after the opening `**` is the only length the regex can try:
 * shortening the run leaves a class character, never a `*`, in front of the
 * closing `**`.
 */
module SymbolScan {
  import opened Wrappers

  /** The character class `[A-Z0-9\-\^]`. */
  predicate IsSymbolChar(c: char)
  {
    ('A' <= c <= 'Z') || ('0' <= c <= '9') || c == '-' || c == '^'
  }

  /** One or more characters of the class. */
  predicate IsToken(s: string)
  {
    |s| > 0 && forall i :: 0 <= i < |s| ==> IsSymbolChar(s[i])
  }

  /** `"**" + s + "**"`. */
  function Wrap(s: string): string
  {
    "**" + s + "**"
  }

  predicate StarsAt(t: string, p: nat)
  {
    p + 2 <= |t| && t[p] == '*' && t[p + 1] == '*'
  }

  /**
   * The regex matches at `p` with its group ending at `q`: `t[p..q+2]` is
   * `"**" + token + "**"` with the token `t[p+2..q]`.
   */
  predicate PatternAt(t: string, p: nat, q: nat)
  {
    p + 2 < q && q + 2 <= |t| && StarsAt(t, p) && IsToken(t[p + 2..q]) && StarsAt(t, q)
  }

  /** The end of the longest run of class characters starting at `p`. */
  function RunEnd(t: string, p: nat): (q: nat)
    requires p <= |t|
    ensures p <= q <= |t|
    ensures forall i :: p <= i < q ==> IsSymbolChar(t[i])
    ensures q < |t| ==> !IsSymbolChar(t[q])
    decreases |t| - p
  {
    if p < |t| && IsSymbolChar(t[p]) then RunEnd(t, p + 1) else p
  }

  /** A run of class characters from `p` to `q` that stops at a non-class character is the longest run. */
  lemma {:induction false} RunEndIs(t: string, p: nat, q: nat)
    requires p <= q <= |t|
    requires forall i :: p <= i < q ==> IsSymbolChar(t[i])
    requires q < |t| ==> !IsSymbolChar(t[q])
    ensures RunEnd(t, p) == q
    decreases q - p
  {
    if p < q {
      RunEndIs(t, p + 1, q);
    }
  }

  /** A match starting at `p` ends its group where the longest run of class characters ends. */
  lemma PatternAtEnd(t: string, p: nat, q: nat)
    requires PatternAt(t, p, q)
    ensures q == RunEnd(t, p + 2)
  {
    assert forall i :: p + 2 <= i < q ==> t[i] == t[p + 2..q][i - (p + 2)];
    RunEndIs(t, p + 2, q);
  }

  /** A match starting at `p` has only one possible end. */
  lemma PatternAtUnique(t: string, p: nat, q1: nat, q2: nat)
    requires PatternAt(t, p, q1) && PatternAt(t, p, q2)
    ensures q1 == q2
  {
    PatternAtEnd(t, p, q1);
    PatternAtEnd(t, p, q2);
  }

  /** Where the group of a match starting at `p` ends, if the regex matches at `p`. */
  function MatchAt(t: string, p: nat): (m: Option<nat>)
    requires p <= |t|
    ensures m.Some? ==> PatternAt(t, p, m.value)
    ensures m.None? ==> forall q :: !PatternAt(t, p, q)
  {
    if StarsAt(t, p) then
      var q := RunEnd(t, p + 2);
      if q > p + 2 && StarsAt(t, q) then
        Some(q)
      else
        assert forall q' | PatternAt(t, p, q') :: q' == q by {
          forall q' | PatternAt(t, p, q') ensures q' == q { PatternAtEnd(t, p, q'); }
        }
        None
    else None
  }

  /** The matches from position `p` on, left to right, each scan resuming after the previous closing `**`. */
  function FindAllFrom(t: string, p: nat): (r: seq<string>)
    requires p <= |t|
    ensures forall i :: 0 <= i < |r| ==> IsToken(r[i])
    decreases |t| - p
  {
    if p == |t| then []
    else
      match MatchAt(t, p)
      case Some(q) => [t[p + 2..q]] + FindAllFrom(t, q + 2)
      case None => FindAllFrom(t, p + 1)
  }

  /** `re.findall` of the symbol pattern over the whole text. */
  function FindAll(t: string): (r: seq<string>)
    ensures forall i :: 0 <= i < |r| ==> IsToken(r[i])
  {
    FindAllFrom(t, 0)
  }

  /** The token `s` stands wrapped as `"**" + s + "**"` at position `k` of `t`. */
  predicate WrappedAt(t: string, s: string, k: nat)
  {
    k + |s| + 4 <= |t| && t[k..k + |s| + 4] == Wrap(s)
  }

  /** The token `s` occurs somewhere in `t` wrapped in `**`. */
  ghost predicate OccursWrapped(t: string, s: string)
  {
    exists k: nat :: WrappedAt(t, s, k)
  }

  /** No match of the pattern starts at any position in `[p, k)`. */
  ghost predicate NoMatchBetween(t: string, p: nat, k: nat)
  {
    forall j: nat, q: nat :: p <= j < k ==> !PatternAt(t, j, q)
  }

  /** Every token found occurs in the text wrapped in `**`. */
  lemma {:induction false} FoundTokensOccurWrapped(t: string, p: nat)
    requires p <= |t|
    ensures forall i :: 0 <= i < |FindAllFrom(t, p)| ==> OccursWrapped(t, FindAllFrom(t, p)[i])
    decreases |t| - p
  {
    if p < |t| {
      match MatchAt(t, p)
      case Some(q) =>
        FoundTokensOccurWrapped(t, q + 2);
        var s := t[p + 2..q];
        assert t[p..p + |s| + 4] == Wrap(s);
        assert WrappedAt(t, s, p);
        var r := FindAllFrom(t, p);
        assert r == [s] + FindAllFrom(t, q + 2);
        forall i | 0 <= i < |r| ensures OccursWrapped(t, r[i]) {
          if i == 0 {
            assert WrappedAt(t, r[0], p);
          } else {
            assert r[i] == FindAllFrom(t, q + 2)[i - 1];
          }
        }
      case None =>
        FoundTokensOccurWrapped(t, p + 1);
        assert FindAllFrom(t, p) == FindAllFrom(t, p + 1);
    }
  }

  /** The scan finds nothing from `p` on exactly when no match of the pattern starts at or after `p`. */
  lemma {:induction false} FindAllFromEmptyIff(t: string, p: nat)
    requires p <= |t|
    ensures FindAllFrom(t, p) == [] <==> NoMatchBetween(t, p, |t|)
    decreases |t| - p
  {
    if p < |t| {
      match MatchAt(t, p)
      case Some(q) =>
        assert !NoMatchBetween(t, p, |t|) by { assert PatternAt(t, p, q); }
      case None =>
        FindAllFromEmptyIff(t, p + 1);
    }
  }

  /**
   * The first token the scan reports from `p` is the group of the leftmost
   * match starting at or after `p`, and the scan then resumes just past that
   * match's closing `**`.
   */
  lemma {:induction false} ScanTakesLeftmostMatch(t: string, p: nat)
    requires p <= |t| && FindAllFrom(t, p) != []
    ensures exists k: nat, q: nat :: p <= k && PatternAt(t, k, q) && NoMatchBetween(t, p, k)
                           && FindAllFrom(t, p) == [t[k + 2..q]] + FindAllFrom(t, q + 2)
    decreases |t| - p
  {
    match MatchAt(t, p)
    case Some(q) =>
      assert PatternAt(t, p, q) && NoMatchBetween(t, p, p);
    case None =>
      ScanTakesLeftmostMatch(t, p + 1);
      var k: nat, q: nat :| p + 1 <= k && PatternAt(t, k, q) && NoMatchBetween(t, p + 1, k)
                  && FindAllFrom(t, p + 1) == [t[k + 2..q]] + FindAllFrom(t, q + 2);
      assert NoMatchBetween(t, p, k);
  }

  /** Positions where no match starts are stepped over one by one. */
  lemma {:induction false} SkipNoMatch(t: string, p: nat, k: nat)
    requires p <= k <= |t|
    requires forall j :: p <= j < k ==> MatchAt(t, j).None?
    ensures FindAllFrom(t, p) == FindAllFrom(t, k)
    decreases k - p
  {
    if p < k {
      SkipNoMatch(t, p + 1, k);
    }
  }

  lemma RunEndShift(a: string, b: string, k: nat)
    requires k <= |b|
    ensures RunEnd(a + b, |a| + k) == |a| + RunEnd(b, k)
  {
    var q := RunEnd(b, k);
    RunEndIs(a + b, |a| + k, |a| + q);
  }

  /** A match inside `b` is the same match, shifted, inside `a + b`. */
  lemma MatchAtShift(a: string, b: string, k: nat)
    requires k <= |b|
    ensures MatchAt(a + b, |a| + k) == match MatchAt(b, k) case Some(q) => Some(|a| + q) case None => None
  {
    var t := a + b;
    assert StarsAt(t, |a| + k) == StarsAt(b, k);
    if StarsAt(b, k) {
      RunEndShift(a, b, k + 2);
      var q := RunEnd(b, k + 2);
      assert StarsAt(t, |a| + q) == StarsAt(b, q);
    }
  }

  /** Text in front of `b` does not change what the scan finds inside `b`. */
  lemma {:induction false} FindAllFromShift(a: string, b: string, k: nat)
    requires k <= |b|
    ensures FindAllFrom(a + b, |a| + k) == FindAllFrom(b, k)
    decreases |b| - k
  {
    if k < |b| {
      MatchAtShift(a, b, k);
      match MatchAt(b, k)
      case Some(q) =>
        FindAllFromShift(a, b, q + 2);
        assert (a + b)[|a| + k + 2..|a| + q] == b[k + 2..q];
      case None =>
        FindAllFromShift(a, b, k + 1);
    }
  }

  /** A wrapped token at the start of the text is found, and the scan goes on right after it. */
  lemma FindAllWrappedPrefix(s: string, rest: string)
    requires IsToken(s)
    ensures FindAll(Wrap(s) + rest) == [s] + FindAll(rest)
  {
    var t := Wrap(s) + rest;
    assert forall i :: 2 <= i < |s| + 2 ==> t[i] == s[i - 2];
    RunEndIs(t, 2, |s| + 2);
    assert MatchAt(t, 0) == Some(|s| + 2);
    assert t[2..|s| + 2] == s;
    FindAllFromShift(Wrap(s), rest, 0);
  }

  /** Text without a `*` in front of `rest` contributes no token. */
  lemma {:induction false} FindAllStarFreePrefix(junk: string, rest: string, k: nat)
    requires k <= |junk|
    requires forall i :: 0 <= i < |junk| ==> junk[i] != '*'
    ensures FindAllFrom(junk + rest, k) == FindAll(rest)
    decreases |junk| - k
  {
    if k < |junk| {
      assert (junk + rest)[k] == junk[k];
      FindAllStarFreePrefix(junk, rest, k + 1);
    } else {
      FindAllFromShift(junk, rest, 0);
    }
  }

  /**
   * A word that does not start with a class character, wrapped in `**` and
   * followed by a character that is neither `*` nor in the class, yields
   * nothing: lower-case `**aapl** ` is skipped.
   */
  lemma FindAllWrappedNonToken(w: string, rest: string)
    requires w != [] && !IsSymbolChar(w[0])
    requires forall i :: 0 <= i < |w| ==> w[i] != '*'
    requires rest != [] && rest[0] != '*' && !IsSymbolChar(rest[0])
    ensures FindAll(Wrap(w) + rest) == FindAll(rest)
  {
    var t := Wrap(w) + rest;
    var n := |w|;
    assert forall i :: 0 <= i < n ==> t[i + 2] == w[i];
    assert t[n + 2] == '*' && t[n + 3] == '*' && t[n + 4] == rest[0];
    forall j | 0 <= j < n + 4 ensures MatchAt(t, j).None? {
      if j == 0 {
        assert RunEnd(t, 2) == 2;
      } else if j == n + 2 {
        assert RunEnd(t, n + 4) == n + 4;
      } else if j <= n {
        assert t[j + 1] == w[j - 1];
      } else if j == n + 1 {
        assert t[j] == w[n - 1];
      } else {
        assert t[j + 1] == rest[0];
      }
    }
    SkipNoMatch(t, 0, n + 4);
    FindAllFromShift(Wrap(w), rest, 0);
  }

  /** The tokens of a list, each wrapped in `**`, one after the other. */
  function Render(ss: seq<string>): string
  {
    if ss == [] then "" else Wrap(ss[0]) + Render(ss[1..])
  }

  /** Scanning a rendered list of tokens gives back the list, duplicates and order included. */
  lemma {:induction false} FindAllRender(ss: seq<string>)
    requires forall i :: 0 <= i < |ss| ==> IsToken(ss[i])
    ensures FindAll(Render(ss)) == ss
  {
    if ss != [] {
      FindAllWrappedPrefix(ss[0], Render(ss[1..]));
      FindAllRender(ss[1..]);
    }
  }

  /** `"**A**B**"`: after `**A**` the scan resumes past the closing `**`, so `**B**` is not found. */
  lemma NonOverlappingExample()
    ensures FindAll("**A**B**") == ["A"]
  {
    assert "**A**B**" == Wrap("A") + "B**";
    FindAllWrappedPrefix("A", "B**");
  }

  /** `"***A**"`: no match starts at offset 0, the match starts at offset 1. */
  lemma LeadingStarExample()
    ensures forall q :: !PatternAt("***A**", 0, q)
    ensures PatternAt("***A**", 1, 4)
    ensures FindAll("***A**") == ["A"]
  {
    var t := "***A**";
    assert MatchAt(t, 0) == None;
    assert t == "*" + Wrap("A");
    FindAllFromShift("*", Wrap("A"), 0);
    FindAllWrappedPrefix("A", "");
  }

  /** Lower-case letters are outside the class: `"**aapl**"` yields nothing. */
  lemma LowerCaseExample()
    ensures FindAll("**aapl**") == []
  {
    var t := "**aapl**";
    assert MatchAt(t, 0) == None;
    assert MatchAt(t, 6) == None;
  }
}
