/**
 * The string operations the bot relies on: ASCII `toLowerCase`, `includes`,
 * `indexOf`, `replace` with a string pattern, `split` on one character,
 * JavaScript truthiness of an optional string and Discord's user mention markup.
 */
module Text {
  import opened Wrappers

  /** JavaScript truthiness of a string that may be null: null and "" are falsy. */
  predicate Truthy(v: Option<string>)
  {
    v.Some? && v.value != ""
  }

  /** `String(user)` for a Discord user: the mention markup `<@id>`. */
  function Mention(id: string): string
  {
    "<@" + id + ">"
  }

  /** `toLowerCase` restricted to ASCII letters. */
  function LowerChar(c: char): char
  {
    if 'A' <= c <= 'Z' then (c as int + 32) as char else c
  }

  function Lower(s: string): (r: string)
    ensures |r| == |s|
    ensures forall i :: 0 <= i < |s| ==> r[i] == LowerChar(s[i])
  {
    seq(|s|, i requires 0 <= i < |s| => LowerChar(s[i]))
  }

  /** `pat` occurs in `s` starting at index `i`. */
  predicate OccursAt(s: string, pat: string, i: nat)
  {
    i + |pat| <= |s| && s[i..i + |pat|] == pat
  }

  /** `s.includes(pat)`, stated as the existence of an occurrence. */
  ghost predicate Contains(s: string, pat: string)
  {
    exists i: nat :: OccursAt(s, pat, i)
  }

  /** `s.indexOf(pat, from)`: the first occurrence at or after `from`, if any. */
  function IndexFrom(s: string, pat: string, from: nat): (r: Option<nat>)
    ensures r.Some? ==> from <= r.value && OccursAt(s, pat, r.value)
    ensures forall j: nat :: from <= j && (r.None? || j < r.value) ==> !OccursAt(s, pat, j)
    decreases |s| - from
  {
    if from + |pat| > |s| then None
    else if OccursAt(s, pat, from) then Some(from)
    else IndexFrom(s, pat, from + 1)
  }

  /** `s.indexOf(pat)`; it finds an occurrence exactly when `s.includes(pat)`. */
  function IndexOf(s: string, pat: string): (r: Option<nat>)
    ensures r.Some? <==> Contains(s, pat)
    ensures r.Some? ==> OccursAt(s, pat, r.value)
    ensures forall j: nat :: r.Some? && j < r.value ==> !OccursAt(s, pat, j)
  {
    IndexFrom(s, pat, 0)
  }

  /**
   * `s.replace(pat, rep)` with a string pattern: only the FIRST occurrence is
   * replaced (ReplaceFirstAt), and a string without one is kept (ReplaceFirstAbsent).
   */
  function ReplaceFirst(s: string, pat: string, rep: string): (r: string)
    ensures !Contains(s, pat) ==> r == s
    ensures Contains(s, pat) ==> |r| == |s| - |pat| + |rep|
  {
    match IndexOf(s, pat)
    case None => s
    case Some(i) => s[..i] + rep + s[i + |pat|..]
  }

  /** `replace` rewrites the first occurrence of the pattern and nothing else. */
  lemma ReplaceFirstAt(s: string, pat: string, rep: string, i: nat)
    requires OccursAt(s, pat, i)
    requires forall j: nat :: j < i ==> !OccursAt(s, pat, j)
    ensures ReplaceFirst(s, pat, rep) == s[..i] + rep + s[i + |pat|..]
  {
  }

  /** `replace` keeps a string in which the pattern does not occur. */
  lemma ReplaceFirstAbsent(s: string, pat: string, rep: string)
    requires forall j: nat :: !OccursAt(s, pat, j)
    ensures ReplaceFirst(s, pat, rep) == s
  {
  }

  /** The pattern placed between two strings occurs right after the first. */
  lemma OccursBetween(pre: string, pat: string, post: string)
    ensures OccursAt(pre + pat + post, pat, |pre|)
  {
    assert (pre + pat + post)[|pre|..|pre| + |pat|] == pat;
  }

  /** An occurrence in `b` is an occurrence in `a + b`, shifted by `|a|`, and back. */
  lemma OccursShifted(a: string, b: string, pat: string, j: nat)
    ensures OccursAt(b, pat, j) <==> OccursAt(a + b, pat, |a| + j)
  {
    if j + |pat| <= |b| {
      assert (a + b)[|a| + j..|a| + j + |pat|] == b[j..j + |pat|];
    }
  }

  /** No occurrence starts inside a prefix that lacks the pattern's first character. */
  lemma NoEarlyOccurrence(pre: string, rest: string, pat: string)
    requires pat != [] && pat[0] !in pre
    ensures forall j: nat :: j < |pre| ==> !OccursAt(pre + rest, pat, j)
  {
    forall j: nat | j < |pre| && j + |pat| <= |pre + rest|
      ensures !OccursAt(pre + rest, pat, j)
    {
      assert (pre + rest)[j..j + |pat|][0] == pre[j] && pre[j] in pre;
    }
  }

  /**
   * When nothing before `pre`'s end starts an occurrence, `replace` swaps
   * exactly the `pat` that follows `pre` and keeps everything around it.
   */
  lemma ReplaceFirstSplit(pre: string, pat: string, rep: string, post: string)
    requires forall j: nat :: j < |pre| ==> !OccursAt(pre + pat + post, pat, j)
    ensures ReplaceFirst(pre + pat + post, pat, rep) == pre + rep + post
  {
    var s := pre + pat + post;
    OccursBetween(pre, pat, post);
    ReplaceFirstAt(s, pat, rep, |pre|);
    assert s[..|pre|] == pre;
    assert s[|pre| + |pat|..] == post;
  }

  /** A pattern whose first character does not appear in `s` does not occur in `s`. */
  lemma NoOccurrenceWithoutFirstChar(s: string, pat: string)
    requires pat != [] && pat[0] !in s
    ensures forall j: nat :: !OccursAt(s, pat, j)
  {
    forall j: nat | j + |pat| <= |s|
      ensures !OccursAt(s, pat, j)
    {
      assert s[j..j + |pat|][0] == s[j] && s[j] in s;
    }
  }

  /** An occurrence of a longer pattern carries an occurrence of each of its infixes. */
  lemma {:induction false} OccursInside(s: string, big: string, small: string, i: nat, k: nat)
    requires OccursAt(s, big, i) && OccursAt(big, small, k)
    ensures OccursAt(s, small, i + k)
  {
    forall t | 0 <= t < |small|
      ensures s[i + k + t] == small[t]
    {
      assert small[t] == big[k..k + |small|][t] == big[k + t];
      assert big[k + t] == s[i..i + |big|][k + t];
    }
  }

  /** `s.split(sep)`: the pieces between the separators, at least one, none holding `sep`. */
  function Split(s: string, sep: char): (parts: seq<string>)
    ensures |parts| >= 1
    ensures forall k :: 0 <= k < |parts| ==> sep !in parts[k]
    decreases |s|
  {
    if s == [] then [""]
    else
      var rest := Split(s[1..], sep);
      if s[0] == sep then [""] + rest
      else [[s[0]] + rest[0]] + rest[1..]
  }

  /** `parts.join(sep)`. */
  function Join(parts: seq<string>, sep: char): string
    requires |parts| >= 1
    decreases |parts|
  {
    if |parts| == 1 then parts[0] else parts[0] + [sep] + Join(parts[1..], sep)
  }

  /** Splitting loses nothing: joining the pieces gives back the original. */
  lemma {:induction false} JoinSplit(s: string, sep: char)
    ensures Join(Split(s, sep), sep) == s
    decreases |s|
  {
    if s != [] {
      JoinSplit(s[1..], sep);
      var rest := Split(s[1..], sep);
      if s[0] != sep {
        if |rest| == 1 {
          assert Split(s, sep) == [[s[0]] + rest[0]];
        } else {
          assert Split(s, sep)[1..] == rest[1..];
          assert Join(rest, sep) == rest[0] + [sep] + Join(rest[1..], sep);
          assert [s[0]] + Join(rest, sep) == s;
        }
      }
    }
  }

  /** Pieces that hold no separator are recovered by splitting their join. */
  lemma {:induction false} SplitJoin(parts: seq<string>, sep: char)
    requires |parts| >= 1
    requires forall k :: 0 <= k < |parts| ==> sep !in parts[k]
    ensures Split(Join(parts, sep), sep) == parts
    decreases |parts|, |parts[0]|
  {
    if |parts| == 1 {
      SplitPiece(parts[0], [], sep);
    } else {
      SplitJoin(parts[1..], sep);
      SplitPiece(parts[0], Join(parts[1..], sep), sep);
      assert [parts[0]] + parts[1..] == parts;
    }
  }

  /** A separator-free piece splits to itself, and splits off as the first piece of a longer text. */
  lemma {:induction false} SplitPiece(piece: string, tail: string, sep: char)
    requires sep !in piece
    ensures Split(piece, sep) == [piece]
    ensures Split(piece + [sep] + tail, sep) == [piece] + Split(tail, sep)
    decreases |piece|
  {
    if piece == [] {
      assert [] + [sep] + tail == [sep] + tail;
      assert ([sep] + tail)[1..] == tail;
    } else {
      SplitPiece(piece[1..], tail, sep);
      assert piece[0] != sep;
      assert [piece[0]] + piece[1..] == piece;
      var s := piece + [sep] + tail;
      assert s[1..] == piece[1..] + [sep] + tail;
      assert s[0] == piece[0];
      var rest := Split(s[1..], sep);
      assert rest == [piece[1..]] + Split(tail, sep);
      assert Split(s, sep) == [[piece[0]] + rest[0]] + rest[1..];
      assert rest[1..] == Split(tail, sep);
    }
  }
}
