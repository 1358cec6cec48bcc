/** Allowlist gating: greedy `*` globs against their declarative meaning. */
module Glob {
  import opened Ordering
  import opened Text
  import opened Sequences

  const STAR: char := '*'

  /** The text matches the pattern, where each star stands for any run of characters. */
  ghost predicate Matches(pattern: string, text: string)
    decreases |pattern|
  {
    if pattern == [] then text == []
    else if pattern[0] == '*' then exists k :: 0 <= k <= |text| && Matches(pattern[1..], text[k..])
    else text != [] && text[0] == pattern[0] && Matches(pattern[1..], text[1..])
  }

  /** The pattern's literal segments. */
  function Split(pattern: string): (parts: seq<string>)
    ensures parts != []
    ensures |parts| == 1 <==> STAR !in pattern
  {
    if pattern == [] then [[]]
    else
      var rest := Split(pattern[1..]);
      if pattern[0] == STAR then [[]] + rest else [[pattern[0]] + rest[0]] + rest[1..]
  }

  /** Where the leftmost placement of the segments after `pos` ends. */
  function Greedy(parts: seq<string>, text: string, pos: nat): (r: Option<nat>)
    requires pos <= |text|
    ensures r.Some? ==> pos <= r.value <= |text|
  {
    if parts == [] then Some(pos)
    else if parts[0] == [] then Greedy(parts[1..], text, pos)
    else
      var hit := Find(text, parts[0], pos);
      if hit.None? then None else Greedy(parts[1..], text, hit.value + |parts[0]|)
  }

  function GlobResult(pattern: string, text: string): bool {
    var parts := Split(pattern);
    if |parts| == 1 then pattern == text
    else if !OccursAt(text, parts[0], 0) then false
    else
      var end := Greedy(parts[1..], text, |parts[0]|);
      end.Some? && (parts[|parts| - 1] != [] ==> end.value == |text|)
  }

  method GlobMatch(pattern: string, text: string) returns (matched: bool)
    ensures matched == GlobResult(pattern, text)
  {
    var parts := Split(pattern);
    if |parts| == 1 {
      return pattern == text;
    }
    var pos := 0;
    for i := 0 to |parts|
      invariant 0 <= pos <= |text|
      invariant i == 0 ==> pos == 0
      invariant i > 0 ==> OccursAt(text, parts[0], 0)
                          && Greedy(parts[1..], text, |parts[0]|) == Greedy(parts[i..], text, pos)
    {
      if parts[i] != [] {
        var hit := Find(text, parts[i], pos);
        if hit.None? {
          return false;
        }
        if i == 0 && hit.value != 0 {
          return false;
        }
        pos := hit.value + |parts[i]|;
      }
      assert i > 0 ==> parts[i..][0] == parts[i] && parts[i..][1..] == parts[i + 1..];
    }
    matched := parts[|parts| - 1] == [] || pos == |text|;
  }

  // ----- placements ------------------------------------------------------------------------

  /** The segments occur in order from `pos` on, gaps allowed before each, the last ending at `end`. */
  ghost predicate Laid(parts: seq<string>, text: string, pos: nat, end: nat)
    decreases |parts|
  {
    if parts == [] then pos == end
    else exists i: nat :: pos <= i && OccursAt(text, parts[0], i) && Laid(parts[1..], text, i + |parts[0]|, end)
  }

  /** The text from `pos` on starts with the first segment and has the others laid out up to its end. */
  ghost predicate Anchored(parts: seq<string>, text: string, pos: nat)
    requires parts != []
  {
    OccursAt(text, parts[0], pos) && Laid(parts[1..], text, pos + |parts[0]|, |text|)
  }

  lemma StarIsGap(pattern: string, rest: seq<string>, text: string, pos: nat)
    requires pos <= |text| && rest != []
    requires forall q: nat :: pos <= q <= |text| ==> (Matches(pattern, text[q..]) <==> Anchored(rest, text, q))
    ensures (exists k :: 0 <= k <= |text[pos..]| && Matches(pattern, text[pos..][k..])) <==> Laid(rest, text, pos, |text|)
  {
    var tail := text[pos..];
    if Laid(rest, text, pos, |text|) {
      var i: nat :| pos <= i && OccursAt(text, rest[0], i) && Laid(rest[1..], text, i + |rest[0]|, |text|);
      assert Anchored(rest, text, i);
      assert tail[i - pos..] == text[i..];
    }
    if k :| 0 <= k <= |tail| && Matches(pattern, tail[k..]) {
      assert tail[k..] == text[pos + k..];
      assert Anchored(rest, text, pos + k);
    }
  }

  /** A pattern matches when its first segment is anchored and the others are laid out up to the end. */
  lemma {:induction false} MatchesIsLaid(pattern: string, text: string, pos: nat)
    requires pos <= |text|
    ensures Matches(pattern, text[pos..]) <==> Anchored(Split(pattern), text, pos)
    decreases |pattern|
  {
    if pattern == [] {
      assert Split(pattern) == [[]];
    } else {
      var rest := Split(pattern[1..]);
      if pattern[0] == STAR {
        forall q: nat | pos <= q <= |text| ensures Matches(pattern[1..], text[q..]) <==> Anchored(rest, text, q) {
          MatchesIsLaid(pattern[1..], text, q);
        }
        StarIsGap(pattern[1..], rest, text, pos);
        assert Split(pattern)[1..] == rest && Split(pattern)[0] == [];
      } else {
        assert Split(pattern)[1..] == rest[1..] && Split(pattern)[0] == [pattern[0]] + rest[0];
        if pos < |text| {
          assert text[pos..][1..] == text[pos + 1..];
          MatchesIsLaid(pattern[1..], text, pos + 1);
          HeadOccurs(text, pattern[0], rest[0], pos);
        }
      }
    }
  }

  lemma HeadOccurs(text: string, c: char, word: string, pos: nat)
    requires pos < |text|
    ensures OccursAt(text, [c] + word, pos) <==> text[pos] == c && OccursAt(text, word, pos + 1)
  {
    var whole := [c] + word;
    assert whole[0] == c && forall k :: 0 <= k < |word| ==> whole[k + 1] == word[k];
    if OccursAt(text, whole, pos) {
      assert text[pos + 0] == whole[0];
      forall k | 0 <= k < |word| ensures text[pos + 1 + k] == word[k] {
        assert text[pos + (k + 1)] == whole[k + 1];
      }
    }
    if text[pos] == c && OccursAt(text, word, pos + 1) {
      forall k | 0 <= k < |whole| ensures text[pos + k] == whole[k] {
        if k > 0 {
          assert text[pos + 1 + (k - 1)] == word[k - 1];
        }
      }
    }
  }

  lemma {:induction false} GreedyIsLaid(parts: seq<string>, text: string, pos: nat)
    requires pos <= |text|
    ensures Greedy(parts, text, pos).Some? ==> Laid(parts, text, pos, Greedy(parts, text, pos).value)
    decreases |parts|
  {
    if parts != [] {
      if parts[0] == [] {
        assert OccursAt(text, parts[0], pos);
        GreedyIsLaid(parts[1..], text, pos);
      } else {
        var hit := Find(text, parts[0], pos);
        if hit.Some? {
          GreedyIsLaid(parts[1..], text, hit.value + |parts[0]|);
        }
      }
    }
  }

  lemma LaidFirst(parts: seq<string>, text: string, from: nat, end: nat) returns (i: nat)
    requires parts != [] && Laid(parts, text, from, end)
    ensures from <= i && OccursAt(text, parts[0], i) && Laid(parts[1..], text, i + |parts[0]|, end)
  {
    i :| from <= i && OccursAt(text, parts[0], i) && Laid(parts[1..], text, i + |parts[0]|, end);
  }

  lemma {:induction false} LaidForward(parts: seq<string>, text: string, from: nat, end: nat)
    requires Laid(parts, text, from, end)
    ensures from <= end
    decreases |parts|
  {
    if parts != [] {
      var i := LaidFirst(parts, text, from, end);
      LaidForward(parts[1..], text, i + |parts[0]|, end);
    }
  }

  /** One segment of the leftmost search ends no later than any occurrence of it. */
  lemma GreedyHit(parts: seq<string>, text: string, pos: nat, i: nat) returns (next: nat)
    requires parts != [] && pos <= i && OccursAt(text, parts[0], i)
    ensures next <= i + |parts[0]| && next <= |text| && Greedy(parts, text, pos) == Greedy(parts[1..], text, next)
  {
    next := if parts[0] == [] then pos else Find(text, parts[0], pos).value + |parts[0]|;
  }

  /** The leftmost search succeeds whenever any placement does, and ends no later. */
  lemma {:induction false} GreedyEndsFirst(parts: seq<string>, text: string, pos: nat, from: nat, end: nat)
    requires pos <= from && end <= |text| && Laid(parts, text, from, end)
    ensures pos <= |text|
    ensures Greedy(parts, text, pos).Some? && Greedy(parts, text, pos).value <= end
    decreases |parts|
  {
    LaidForward(parts, text, from, end);
    if parts != [] {
      var i := LaidFirst(parts, text, from, end);
      var next := GreedyHit(parts, text, pos, i);
      GreedyEndsFirst(parts[1..], text, next, i + |parts[0]|, end);
    }
  }

  /** A final empty segment can always be laid at the end of the text. */
  lemma {:induction false} OpenEnd(parts: seq<string>, text: string, pos: nat, end: nat)
    requires parts != [] && parts[|parts| - 1] == [] && end <= |text| && Laid(parts, text, pos, end)
    ensures Laid(parts, text, pos, |text|)
    decreases |parts|
  {
    var i: nat :| pos <= i && OccursAt(text, parts[0], i) && Laid(parts[1..], text, i + |parts[0]|, end);
    if |parts| == 1 {
      assert OccursAt(text, parts[0], |text|);
      assert Laid(parts[1..], text, |text|, |text|);
    } else {
      OpenEnd(parts[1..], text, i + |parts[0]|, end);
    }
  }

  lemma {:induction false} LastSegment(pattern: string)
    ensures var parts := Split(pattern);
            |parts| > 1 ==> (parts[|parts| - 1] == [] <==> pattern[|pattern| - 1] == STAR)
    ensures |Split(pattern)| == 1 ==> Split(pattern)[0] == pattern
  {
    if pattern != [] {
      LastSegment(pattern[1..]);
    }
  }

  // ----- soundness and exactly when the search is complete ------------------------------------

  /** The search says yes only for texts the pattern really matches. */
  lemma GlobSound(pattern: string, text: string)
    requires GlobResult(pattern, text)
    ensures Matches(pattern, text)
  {
    var parts := Split(pattern);
    assert text[0..] == text;
    MatchesIsLaid(pattern, text, 0);
    LastSegment(pattern);
    if |parts| == 1 {
      assert text[0..0 + |parts[0]|] == text;
    } else {
      GreedyIsLaid(parts[1..], text, |parts[0]|);
      if parts[|parts| - 1] == [] {
        OpenEnd(parts[1..], text, |parts[0]|, Greedy(parts[1..], text, |parts[0]|).value);
      }
    }
  }

  /** The pattern has no star, or its last character is one. */
  predicate OpenEnded(pattern: string) {
    '*' !in pattern || pattern[|pattern| - 1] == '*'
  }

  lemma GlobComplete(pattern: string, text: string)
    requires OpenEnded(pattern) && Matches(pattern, text)
    ensures GlobResult(pattern, text)
  {
    var parts := Split(pattern);
    assert text[0..] == text;
    MatchesIsLaid(pattern, text, 0);
    LastSegment(pattern);
    if |parts| == 1 {
      assert parts[1..] == [];
      assert text[0..0 + |parts[0]|] == text;
    } else {
      GreedyEndsFirst(parts[1..], text, |parts[0]|, |parts[0]|, |text|);
    }
  }

  function Concat(parts: seq<string>): string {
    if parts == [] then [] else parts[0] + Concat(parts[1..])
  }

  /** Segments written one after another are laid out without gaps. */
  lemma {:induction false} ConcatIsLaid(parts: seq<string>, before: string, after: string)
    ensures Laid(parts, before + Concat(parts) + after, |before|, |before| + |Concat(parts)|)
  {
    if parts != [] {
      var text := before + Concat(parts) + after;
      var next := before + parts[0];
      assert text == next + Concat(parts[1..]) + after;
      ConcatIsLaid(parts[1..], next, after);
      assert text[|before|..|before| + |parts[0]|] == parts[0];
      assert OccursAt(text, parts[0], |before|);
    }
  }

  lemma {:induction false} LastRepeats(parts: seq<string>, text: string, pos: nat, end: nat)
    requires parts != [] && Laid(parts, text, pos, end)
    requires OccursAt(text, parts[|parts| - 1], end)
    ensures Laid(parts, text, pos, end + |parts[|parts| - 1]|)
    decreases |parts|
  {
    var i: nat :| pos <= i && OccursAt(text, parts[0], i) && Laid(parts[1..], text, i + |parts[0]|, end);
    if |parts| == 1 {
      assert OccursAt(text, parts[0], end);
      assert Laid(parts[1..], text, end + |parts[0]|, end + |parts[0]|);
    } else {
      LastRepeats(parts[1..], text, i + |parts[0]|, end);
    }
  }

  /** A text on which a starred pattern with a trailing literal goes wrong: the literal appears twice. */
  function Witness(pattern: string): string {
    var parts := Split(pattern);
    parts[0] + Concat(parts[1..]) + parts[|parts| - 1]
  }

  lemma PiecesOccur(first: string, middle: string, last: string)
    ensures var text := first + middle + last; OccursAt(text, first, 0) && OccursAt(text, last, |first| + |middle|)
  {
    var text, end := first + middle + last, |first| + |middle|;
    Pieces(first, middle, last);
    assert text[end..end + |last|] == text[end..] && text[0..0 + |first|] == text[..|first|];
  }

  /** The leftmost search ends at the first copy of the last segment; the second copy is laid out too. */
  lemma RepeatedLast(first: string, rest: seq<string>, text: string, end: nat)
    requires rest != [] && OccursAt(text, first, 0) && Laid(rest, text, |first|, end)
    requires OccursAt(text, rest[|rest| - 1], end) && |text| == end + |rest[|rest| - 1]|
    ensures Laid(rest, text, |first|, |text|)
    ensures Greedy(rest, text, |first|).Some? && Greedy(rest, text, |first|).value <= end
  {
    LastRepeats(rest, text, |first|, end);
    GreedyEndsFirst(rest, text, |first|, |first|, end);
  }

  lemma TrailingLiteralFails(pattern: string)
    requires !OpenEnded(pattern)
    ensures Matches(pattern, Witness(pattern)) && !GlobResult(pattern, Witness(pattern))
  {
    var parts, text := Split(pattern), Witness(pattern);
    var first, last, rest := parts[0], parts[|parts| - 1], parts[1..];
    LastSegment(pattern);
    PiecesOccur(first, Concat(rest), last);
    ConcatIsLaid(rest, first, last);
    RepeatedLast(first, rest, text, |first| + |Concat(rest)|);
    assert text[0..] == text;
    MatchesIsLaid(pattern, text, 0);
  }

  /** The search decides the declarative meaning on all texts exactly for patterns without a star
      or ending in one. */
  lemma GlobExact(pattern: string)
    ensures (forall text :: GlobResult(pattern, text) <==> Matches(pattern, text)) <==> OpenEnded(pattern)
  {
    if OpenEnded(pattern) {
      forall text ensures GlobResult(pattern, text) <==> Matches(pattern, text) {
        if GlobResult(pattern, text) {
          GlobSound(pattern, text);
        }
        if Matches(pattern, text) {
          GlobComplete(pattern, text);
        }
      }
    } else {
      TrailingLiteralFails(pattern);
    }
  }

  // ----- the exact answer ----------------------------------------------------------------------------

  lemma OccursInPrefix(text: string, m: nat, needle: string, i: int)
    requires m <= |text| && i + |needle| <= m
    ensures OccursAt(text[..m], needle, i) <==> OccursAt(text, needle, i)
  {
  }

  lemma {:induction false} LaidInPrefix(parts: seq<string>, text: string, m: nat, pos: nat)
    requires m <= |text|
    ensures Laid(parts, text[..m], pos, m) <==> Laid(parts, text, pos, m)
    decreases |parts|
  {
    if parts != [] {
      if Laid(parts, text[..m], pos, m) {
        var i := LaidFirst(parts, text[..m], pos, m);
        LaidInPrefix(parts[1..], text, m, i + |parts[0]|);
        OccursInPrefix(text, m, parts[0], i);
      }
      if Laid(parts, text, pos, m) {
        var i := LaidFirst(parts, text, pos, m);
        LaidForward(parts[1..], text, i + |parts[0]|, m);
        LaidInPrefix(parts[1..], text, m, i + |parts[0]|);
        OccursInPrefix(text, m, parts[0], i);
      }
    }
  }

  /** A beginning of the text matches when a placement ends there. */
  lemma PrefixMatches(pattern: string, text: string, m: nat)
    requires m <= |text|
    ensures var parts := Split(pattern);
            Matches(pattern, text[..m]) <==>
            |parts[0]| <= m && OccursAt(text, parts[0], 0) && Laid(parts[1..], text, |parts[0]|, m)
  {
    var parts := Split(pattern);
    assert text[..m][0..] == text[..m];
    MatchesIsLaid(pattern, text[..m], 0);
    LaidInPrefix(parts[1..], text, m, |parts[0]|);
    if |parts[0]| <= m {
      OccursInPrefix(text, m, parts[0], 0);
    }
  }

  /** The text matches, and for a pattern with a star but none at its end no shorter beginning of the text matches. */
  ghost predicate MatchesFirst(pattern: string, text: string) {
    && Matches(pattern, text)
    && ('*' in pattern && pattern[|pattern| - 1] != '*' ==> forall m :: 0 <= m < |text| ==> !Matches(pattern, text[..m]))
  }

  /** What the leftmost search ends at is the shortest beginning of the text that matches. */
  lemma EndIsShortest(pattern: string, text: string, end: nat)
    requires OccursAt(text, Split(pattern)[0], 0)
    requires Greedy(Split(pattern)[1..], text, |Split(pattern)[0]|) == Some(end)
    ensures end <= |text| && Matches(pattern, text[..end])
    ensures forall m :: 0 <= m < end ==> !Matches(pattern, text[..m])
  {
    var parts := Split(pattern);
    GreedyIsLaid(parts[1..], text, |parts[0]|);
    PrefixMatches(pattern, text, end);
    forall m | 0 <= m < end ensures !Matches(pattern, text[..m]) {
      PrefixMatches(pattern, text, m);
      if Laid(parts[1..], text, |parts[0]|, m) {
        GreedyEndsFirst(parts[1..], text, |parts[0]|, |parts[0]|, m);
      }
    }
  }

  lemma FirstIsFound(pattern: string, text: string)
    requires !OpenEnded(pattern) && MatchesFirst(pattern, text)
    ensures GlobResult(pattern, text)
  {
    var parts := Split(pattern);
    assert text[..|text|] == text;
    PrefixMatches(pattern, text, |text|);
    GreedyEndsFirst(parts[1..], text, |parts[0]|, |parts[0]|, |text|);
    var end := Greedy(parts[1..], text, |parts[0]|).value;
    EndIsShortest(pattern, text, end);
  }

  lemma FoundIsFirst(pattern: string, text: string)
    requires !OpenEnded(pattern) && GlobResult(pattern, text)
    ensures MatchesFirst(pattern, text)
  {
    LastSegment(pattern);
    EndIsShortest(pattern, text, |text|);
    assert text[..|text|] == text;
  }

  /** The exact answer of the search, for every pattern and text. */
  lemma GlobAnswers(pattern: string, text: string)
    ensures GlobResult(pattern, text) <==> MatchesFirst(pattern, text)
  {
    if OpenEnded(pattern) {
      GlobExact(pattern);
    } else if GlobResult(pattern, text) {
      FoundIsFirst(pattern, text);
    } else if MatchesFirst(pattern, text) {
      FirstIsFound(pattern, text);
    }
  }

  lemma {:induction false} LiteralMatchesItself(pattern: string, text: string)
    requires '*' !in pattern
    ensures Matches(pattern, text) <==> text == pattern
  {
    if pattern != [] && text != [] {
      LiteralMatchesItself(pattern[1..], text[1..]);
      assert pattern == [pattern[0]] + pattern[1..] && text == [text[0]] + text[1..];
    }
  }

  // ----- the allowlist ---------------------------------------------------------------------------

  /** Case folding is a parameter. */
  function IsAllowed(peer: string, allowlist: seq<string>, lower: string -> string): bool {
    allowlist == [] ||
    exists p :: p in allowlist &&
      if STAR in lower(p) then GlobResult(lower(p), lower(peer)) else lower(p) == lower(peer)
  }

  /** Everybody is admitted by an empty list, and otherwise exactly those whom an entry matches. */
  lemma AllowedByMatch(peer: string, allowlist: seq<string>, lower: string -> string)
    ensures IsAllowed(peer, allowlist, lower) <==>
            allowlist == [] || exists p :: p in allowlist && MatchesFirst(lower(p), lower(peer))
  {
    forall p | p in allowlist
      ensures MatchesFirst(lower(p), lower(peer)) <==>
              if STAR in lower(p) then GlobResult(lower(p), lower(peer)) else lower(p) == lower(peer)
    {
      GlobAnswers(lower(p), lower(peer));
      if '*' !in lower(p) {
        LiteralMatchesItself(lower(p), lower(peer));
      }
    }
  }
}
