/**
 * The moderation filters of the message handler (index.cjs:266-282): the
 * denylist pattern `\b(w1|w2|...)\b` with flags `gi`, the link pattern
 * `https?:\/\/[^\s]+` and the spam pattern `(.)\1{4,}`, each gated by its flag
 * and tried in that order.
 */
module Filters {
  import opened Wrappers
  import opened Text

  /** The three switches of `filter_settings.json`. */
  datatype FilterSettings = FilterSettings(swearwords: bool, links: bool, spam: bool)

  /** The switches `filter_settings.json` is created with. */
  const DefaultFilters := FilterSettings(true, true, true)

  datatype Violation = Profanity | Link | Spam

  /** The notice sent after `<@author>, `. */
  function NoticeText(v: Violation): string
  {
    match v
    case Profanity => "please avoid using inappropriate language."
    case Link => "links are not allowed."
    case Spam => "please avoid spamming."
  }

  /** A regular-expression word character: `[A-Za-z0-9_]`. */
  predicate IsWordChar(c: char)
  {
    'a' <= c <= 'z' || 'A' <= c <= 'Z' || '0' <= c <= '9' || c == '_'
  }

  /** `\b` at position `p`: exactly one of the characters around `p` is a word character. */
  predicate BoundaryAt(s: string, p: nat)
    requires p <= |s|
  {
    (p > 0 && IsWordChar(s[p - 1])) != (p < |s| && IsWordChar(s[p]))
  }

  /** `w` occurs in `s` at `p` up to ASCII case, as the `i` flag compares. */
  predicate CaseMatchAt(s: string, w: string, p: nat)
  {
    p + |w| <= |s| && forall k :: 0 <= k < |w| ==> LowerChar(s[p + k]) == LowerChar(w[k])
  }

  /**
   * The alternatives of the group in `\b(...)\b`: `[].join('|')` is the empty
   * string, so an empty denylist yields the single empty alternative.
   */
  function Alternatives(denylist: seq<string>): (alts: seq<string>)
    ensures |alts| >= 1
  {
    if denylist == [] then [""] else denylist
  }

  /** Entry `w` matches at `p`, between two word boundaries. */
  predicate EntryAt(s: string, w: string, p: nat)
  {
    p + |w| <= |s| && BoundaryAt(s, p) && CaseMatchAt(s, w, p) && BoundaryAt(s, p + |w|)
  }

  /** `blacklistRegex.test(s)`. */
  ghost predicate DenylistMatch(denylist: seq<string>, s: string)
  {
    var alts := Alternatives(denylist);
    exists k: nat, p: nat :: k < |alts| && EntryAt(s, alts[k], p)
  }

  /** JavaScript's `\s`: the ECMAScript white space and line terminator characters. */
  predicate IsJsWhitespace(c: char)
  {
    var n := c as int;
    n == 0x09 || n == 0x0A || n == 0x0B || n == 0x0C || n == 0x0D || n == 0x20 ||
    n == 0xA0 || n == 0x1680 || (0x2000 <= n <= 0x200A) || n == 0x2028 || n == 0x2029 ||
    n == 0x202F || n == 0x205F || n == 0x3000 || n == 0xFEFF
  }

  /** `https?:\/\/[^\s]+` matches starting at `i`. */
  predicate LinkAt(s: string, i: nat)
  {
    || (OccursAt(s, "http://", i) && i + 7 < |s| && !IsJsWhitespace(s[i + 7]))
    || (OccursAt(s, "https://", i) && i + 8 < |s| && !IsJsWhitespace(s[i + 8]))
  }

  ghost predicate LinkMatch(s: string)
  {
    exists i: nat :: LinkAt(s, i)
  }

  /** The characters `.` does not match: `\n`, `\r`, U+2028 and U+2029. */
  predicate IsLineTerminator(c: char)
  {
    var n := c as int;
    n == 0x0A || n == 0x0D || n == 0x2028 || n == 0x2029
  }

  /** `(.)\1{4,}` matches starting at `i`: five equal characters that `.` accepts. */
  predicate RunAt(s: string, i: nat)
  {
    i + 5 <= |s| && !IsLineTerminator(s[i]) &&
    s[i + 1] == s[i] && s[i + 2] == s[i] && s[i + 3] == s[i] && s[i + 4] == s[i]
  }

  ghost predicate SpamMatch(s: string)
  {
    exists i: nat :: RunAt(s, i)
  }

  /** Scans the positions from `p` on for entry `w`. */
  function EntryFrom(s: string, w: string, p: nat): (r: bool)
    ensures r <==> exists q: nat :: p <= q && EntryAt(s, w, q)
    decreases |s| + 1 - p
  {
    if p > |s| then false else EntryAt(s, w, p) || EntryFrom(s, w, p + 1)
  }

  /** Tries the alternatives from the `k`-th on, each at every position. */
  function AlternativeFrom(s: string, alts: seq<string>, k: nat): (r: bool)
    ensures r <==> exists j: nat, q: nat :: k <= j < |alts| && EntryAt(s, alts[j], q)
    decreases |alts| - k
  {
    if k >= |alts| then false else EntryFrom(s, alts[k], 0) || AlternativeFrom(s, alts, k + 1)
  }

  /** The denylist pattern's `test`, decided by search. */
  function DenylistTest(denylist: seq<string>, s: string): (r: bool)
    ensures r <==> DenylistMatch(denylist, s)
  {
    AlternativeFrom(s, Alternatives(denylist), 0)
  }

  function LinkFrom(s: string, i: nat): (r: bool)
    ensures r <==> exists j: nat :: i <= j && LinkAt(s, j)
    decreases |s| - i
  {
    if i >= |s| then false else LinkAt(s, i) || LinkFrom(s, i + 1)
  }

  /** The link pattern's `test`, decided by search. */
  function LinkTest(s: string): (r: bool)
    ensures r <==> LinkMatch(s)
  {
    LinkFrom(s, 0)
  }

  function RunFrom(s: string, i: nat): (r: bool)
    ensures r <==> exists j: nat :: i <= j && RunAt(s, j)
    decreases |s| - i
  {
    if i >= |s| then false else RunAt(s, i) || RunFrom(s, i + 1)
  }

  /** The spam pattern's `test`, decided by search. */
  function SpamTest(s: string): (r: bool)
    ensures r <==> SpamMatch(s)
  {
    RunFrom(s, 0)
  }

  /**
   * The filter chain as written, on the lower-cased content: the first
   * enabled check that matches decides the one violation reported, if any.
   */
  function EvaluateAsWritten(f: FilterSettings, denylist: seq<string>, content: string): (r: Option<Violation>)
    ensures r == Some(Profanity) <==> f.swearwords && DenylistMatch(denylist, content)
    ensures r == Some(Link) ==> f.links && LinkMatch(content)
    ensures r == Some(Spam) ==> f.spam && SpamMatch(content)
  {
    if f.swearwords && DenylistTest(denylist, content) then Some(Profanity)
    else if f.links && LinkTest(content) then Some(Link)
    else if f.spam && SpamTest(content) then Some(Spam)
    else None
  }

  /**
   * The denylist check as intended: an empty denylist flags nothing, a
   * non-empty one is checked as written.
   */
  function DenylistFlags(denylist: seq<string>, content: string): (r: bool)
    ensures r <==> denylist != [] && DenylistMatch(denylist, content)
  {
    denylist != [] && DenylistTest(denylist, content)
  }

  /** The filter chain with the intended denylist check; the message handler uses this one. */
  function Evaluate(f: FilterSettings, denylist: seq<string>, content: string): (r: Option<Violation>)
    ensures r == Some(Profanity) <==> f.swearwords && denylist != [] && DenylistMatch(denylist, content)
    ensures r == Some(Link) ==> f.links && LinkMatch(content)
    ensures r == Some(Spam) ==> f.spam && SpamMatch(content)
  {
    if f.swearwords && DenylistFlags(denylist, content) then Some(Profanity)
    else if f.links && LinkTest(content) then Some(Link)
    else if f.spam && SpamTest(content) then Some(Spam)
    else None
  }

  /** The verdict in full: which violation is reported exactly when. */
  lemma EvaluatePrecedence(f: FilterSettings, denylist: seq<string>, content: string)
    ensures var profane := f.swearwords && denylist != [] && DenylistMatch(denylist, content);
      && (Evaluate(f, denylist, content) == Some(Profanity) <==> profane)
      && (Evaluate(f, denylist, content) == Some(Link) <==> !profane && f.links && LinkMatch(content))
      && (Evaluate(f, denylist, content) == Some(Spam) <==>
            !profane && !(f.links && LinkMatch(content)) && f.spam && SpamMatch(content))
      && (Evaluate(f, denylist, content) == None <==>
            !profane && !(f.links && LinkMatch(content)) && !(f.spam && SpamMatch(content)))
  {
  }

  /** The correction changes nothing unless the denylist is empty. */
  lemma CorrectionOnlyForEmptyDenylist(f: FilterSettings, denylist: seq<string>, content: string)
    requires denylist != []
    ensures Evaluate(f, denylist, content) == EvaluateAsWritten(f, denylist, content)
  {
  }

  /** With an empty denylist no text is reported as profanity. */
  lemma EmptyDenylistFlagsNothing(f: FilterSettings, content: string)
    ensures Evaluate(f, [], content) != Some(Profanity)
  {
  }

  /** With every switch off nothing is ever flagged. */
  lemma AllOffIsClean(denylist: seq<string>, content: string)
    ensures Evaluate(FilterSettings(false, false, false), denylist, content) == None
  {
  }

  /** Lower-casing keeps word characters word characters. */
  lemma LowerKeepsWordChar(c: char)
    ensures IsWordChar(LowerChar(c)) == IsWordChar(c)
  {
  }

  /**
   * A denylist entry that begins and ends with a word character and stands in
   * the text between non-word characters (or the text's ends) is a match,
   * whatever its case.
   */
  lemma {:induction false} WholeWordMatches(denylist: seq<string>, s: string, k: nat, p: nat)
    requires k < |denylist|
    requires var w := denylist[k];
      && w != [] && IsWordChar(w[0]) && IsWordChar(w[|w| - 1])
      && CaseMatchAt(s, w, p)
      && (p == 0 || !IsWordChar(s[p - 1]))
      && (p + |w| == |s| || !IsWordChar(s[p + |w|]))
    ensures DenylistMatch(denylist, s)
  {
    var w := denylist[k];
    assert Alternatives(denylist) == denylist;
    LowerKeepsWordChar(s[p]);
    LowerKeepsWordChar(w[0]);
    LowerKeepsWordChar(s[p + |w| - 1]);
    LowerKeepsWordChar(w[|w| - 1]);
    assert BoundaryAt(s, p);
    assert BoundaryAt(s, p + |w|);
    assert EntryAt(s, Alternatives(denylist)[k], p);
  }

  /** Some position at or before a word character is a word boundary. */
  lemma {:induction false} BoundaryBefore(s: string, k: nat)
    requires k < |s| && IsWordChar(s[k])
    ensures exists p: nat :: p <= k && BoundaryAt(s, p)
    decreases k
  {
    if k == 0 || !IsWordChar(s[k - 1]) {
      assert BoundaryAt(s, k);
    } else {
      BoundaryBefore(s, k - 1);
    }
  }

  /**
   * With an empty denylist the pattern is `\b()\b`, which matches at any word
   * boundary: every text holding a word character is flagged.
   */
  lemma {:induction false} EmptyDenylistMatchesAnyWord(s: string, k: nat)
    requires k < |s| && IsWordChar(s[k])
    ensures DenylistMatch([], s)
  {
    BoundaryBefore(s, k);
    var p: nat :| p <= k && BoundaryAt(s, p);
    assert EntryAt(s, Alternatives([])[0], p);
  }

  /** Without a word character there is no boundary, so an empty denylist flags nothing. */
  lemma {:induction false} EmptyDenylistNeedsAWord(s: string)
    requires forall k :: 0 <= k < |s| ==> !IsWordChar(s[k])
    ensures !DenylistMatch([], s)
  {
  }

  /**
   * As written, under the default switches and the default empty denylist,
   * any text holding a word character is reported as profanity.
   */
  lemma {:induction false} AsWrittenFlagsEveryWord(s: string, k: nat)
    requires k < |s| && IsWordChar(s[k])
    ensures EvaluateAsWritten(DefaultFilters, [], s) == Some(Profanity)
  {
    EmptyDenylistMatchesAnyWord(s, k);
  }

  /** As written, a fresh install deletes the message `hello` as inappropriate language. */
  lemma HelloFlaggedAsWritten()
    ensures EvaluateAsWritten(DefaultFilters, [], "hello") == Some(Profanity)
    ensures Evaluate(DefaultFilters, [], "hello") != Some(Profanity)
  {
    AsWrittenFlagsEveryWord("hello", 0);
  }

  /** An entry found only inside a longer word is not a match: `bad` does not flag `badge`. */
  lemma {:induction false} EmbeddedWordNotMatched()
    ensures !DenylistMatch(["bad"], "badge")
  {
    var s := "badge";
    forall p: nat
      ensures !EntryAt(s, "bad", p)
    {
      if p + 3 <= |s| {
        if p == 0 {
          assert IsWordChar(s[2]) && IsWordChar(s[3]);
          assert !BoundaryAt(s, 3);
        } else {
          assert IsWordChar(s[p - 1]) && IsWordChar(s[p]);
          assert !BoundaryAt(s, p);
        }
      }
    }
    assert Alternatives(["bad"]) == ["bad"];
  }

  /** `http://` or `https://` followed by a non-space character is a link. */
  lemma {:induction false} SchemeMakesLink(pre: string, scheme: string, c: char, post: string)
    requires scheme == "http://" || scheme == "https://"
    requires !IsJsWhitespace(c)
    ensures LinkMatch(pre + scheme + [c] + post)
  {
    var s := pre + scheme + [c] + post;
    assert s[|pre|..|pre| + |scheme|] == scheme;
    assert s[|pre| + |scheme|] == c;
    assert LinkAt(s, |pre|);
  }

  /** A bare scheme with nothing after it is not a link. */
  lemma {:induction false} BareSchemeIsNoLink()
    ensures !LinkMatch("https://")
  {
    var s := "https://";
    forall i: nat
      ensures !LinkAt(s, i)
    {
      if i + 7 < |s| {
        assert i == 0;
        assert s[i..i + 7] != "http://" by { assert s[i..i + 7][4] == 's'; }
      }
    }
  }

  /** Five equal characters in a row (other than a line terminator) are spam. */
  lemma {:induction false} FiveInARowIsSpam(pre: string, c: char, post: string)
    requires !IsLineTerminator(c)
    ensures SpamMatch(pre + [c, c, c, c, c] + post)
  {
    var s := pre + [c, c, c, c, c] + post;
    assert s[|pre|] == c && s[|pre| + 1] == c && s[|pre| + 2] == c && s[|pre| + 3] == c && s[|pre| + 4] == c;
    assert RunAt(s, |pre|);
  }

  /** Four in a row are not enough. */
  lemma {:induction false} FourInARowIsNotSpam()
    ensures !SpamMatch("aaaa")
  {
  }
}
