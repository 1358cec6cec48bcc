/** Merging the blocks of all formats and what is left of the text around them. */
module ToolCallParser {
  import opened Ordering
  import opened Text
  import opened CodeRanges
  import opened ToolBlocks
  import opened BareJson
  import opened CallWrappers
  import opened Json

  // ----- sorting and dropping overlaps --------------------------------------------------------------

  function InsertByStart(b: Block, sorted: seq<Block>): seq<Block> {
    if sorted == [] || b.start <= sorted[0].start then [b] + sorted
    else [sorted[0]] + InsertByStart(b, sorted[1..])
  }

  /** Stable sort by start. */
  function SortByStart(blocks: seq<Block>): seq<Block> {
    if blocks == [] then [] else InsertByStart(blocks[0], SortByStart(blocks[1..]))
  }

  /** Keeps each block that starts at or after the end of the last one kept. */
  function Keep(sorted: seq<Block>, end: nat): seq<Block> {
    if sorted == [] then []
    else if sorted[0].start < end then Keep(sorted[1..], end)
    else [sorted[0]] + Keep(sorted[1..], sorted[0].end)
  }

  function Merged(blocks: seq<Block>): seq<Block> {
    Keep(SortByStart(blocks), 0)
  }

  method MergeBlocks(blocks: seq<Block>) returns (merged: seq<Block>)
    ensures merged == Merged(blocks)
  {
    var sorted := SortByStart(blocks);
    merged := [];
    for i := 0 to |sorted|
      invariant merged + Keep(sorted[i..], if merged == [] then 0 else merged[|merged| - 1].end) == Keep(sorted, 0)
    {
      assert sorted[i..][0] == sorted[i] && sorted[i..][1..] == sorted[i + 1..];
      if merged != [] && sorted[i].start < merged[|merged| - 1].end {
        continue;
      }
      merged := merged + [sorted[i]];
    }
  }

  ghost predicate SortedByStart(blocks: seq<Block>) {
    forall i, j :: 0 <= i < j < |blocks| ==> blocks[i].start <= blocks[j].start
  }

  function FirstAt(blocks: seq<Block>, start: nat): Option<Block> {
    if blocks == [] then None
    else if blocks[0].start == start then Some(blocks[0])
    else FirstAt(blocks[1..], start)
  }

  lemma {:induction false} InsertSorts(b: Block, sorted: seq<Block>, start: nat)
    requires SortedByStart(sorted)
    ensures SortedByStart(InsertByStart(b, sorted))
    ensures forall x :: x in InsertByStart(b, sorted) <==> x == b || x in sorted
    ensures FirstAt(InsertByStart(b, sorted), start) == if b.start == start then Some(b) else FirstAt(sorted, start)
  {
    if sorted != [] && b.start > sorted[0].start {
      var rest := InsertByStart(b, sorted[1..]);
      InsertSorts(b, sorted[1..], start);
      forall j | 0 <= j < |rest| ensures sorted[0].start <= rest[j].start {
        assert rest[j] in rest;
      }
      assert ([sorted[0]] + rest)[1..] == rest;
    } else {
      assert ([b] + sorted)[1..] == sorted;
    }
  }

  lemma {:induction false} SortSorts(blocks: seq<Block>, start: nat)
    ensures SortedByStart(SortByStart(blocks))
    ensures forall x :: x in SortByStart(blocks) <==> x in blocks
    ensures FirstAt(SortByStart(blocks), start) == FirstAt(blocks, start)
  {
    if blocks != [] {
      SortSorts(blocks[1..], start);
      InsertSorts(blocks[0], SortByStart(blocks[1..]), start);
    }
  }

  ghost predicate InBounds(blocks: seq<Block>, limit: nat) {
    forall b :: b in blocks ==> b.start < b.end <= limit
  }

  lemma {:induction false} KeepSubset(sorted: seq<Block>, end: nat)
    ensures forall b :: b in Keep(sorted, end) ==> b in sorted
  {
    if sorted != [] {
      KeepSubset(sorted[1..], if sorted[0].start < end then end else sorted[0].end);
    }
  }

  lemma {:induction false} KeepsDisjoint(sorted: seq<Block>, end: nat, limit: nat)
    requires InBounds(sorted, limit)
    ensures Disjoint(Keep(sorted, end), end, limit)
  {
    if sorted != [] {
      var head, tail := sorted[0], sorted[1..];
      assert InBounds(tail, limit);
      if head.start < end {
        KeepsDisjoint(tail, end, limit);
      } else {
        KeepsDisjoint(tail, head.end, limit);
        DisjointAfter([head], Keep(tail, head.end), end, head.end, limit);
      }
    }
  }

  /** A block not kept starts below the bar or inside a block that was kept. */
  lemma {:induction false} DroppedOverlap(sorted: seq<Block>, end: nat, b: Block)
    requires SortedByStart(sorted) && b in sorted && forall x :: x in sorted ==> x.start < x.end
    ensures b.start < end || Covered(b.start, Keep(sorted, end))
  {
    var head, tail := sorted[0], sorted[1..];
    if head.start < end {
      if b != head {
        DroppedOverlap(tail, end, b);
      }
    } else {
      var kept := Keep(tail, head.end);
      assert Keep(sorted, end) == [head] + kept;
      assert head in [head] + kept;
      if b != head {
        assert b in tail;
        assert head.start <= b.start;
        DroppedOverlap(tail, head.end, b);
        if b.start >= head.end {
          var k :| k in kept && k.start <= b.start < k.end;
          assert k in [head] + kept;
        }
      }
    }
  }

  lemma {:induction false} KeepsFirst(sorted: seq<Block>, end: nat, k: Block)
    requires SortedByStart(sorted) && k in Keep(sorted, end) && forall x :: x in sorted ==> x.start < x.end
    ensures FirstAt(sorted, k.start) == Some(k) && k.start >= end
  {
    var head, tail := sorted[0], sorted[1..];
    if head.start < end {
      KeepsFirst(tail, end, k);
    } else if k != head || k in Keep(tail, head.end) {
      KeepsFirst(tail, head.end, k);
    }
  }

  /** Kept blocks are ordered, non-empty, disjoint and in bounds; every dropped one starts inside a kept one; and of
      several blocks starting together the first collected wins. */
  lemma MergedBlocks(blocks: seq<Block>, limit: nat)
    requires InBounds(blocks, limit)
    ensures Disjoint(Merged(blocks), 0, limit)
    ensures forall b :: b in Merged(blocks) ==> b in blocks && FirstAt(blocks, b.start) == Some(b)
    ensures forall b :: b in blocks ==> Covered(b.start, Merged(blocks))
  {
    var sorted := SortByStart(blocks);
    SortSorts(blocks, 0);
    KeepsDisjoint(sorted, 0, limit);
    KeepSubset(sorted, 0);
    forall b | b in blocks ensures Covered(b.start, Merged(blocks)) {
      DroppedOverlap(sorted, 0, b);
    }
    forall b | b in Merged(blocks) ensures FirstAt(blocks, b.start) == Some(b) {
      KeepsFirst(sorted, 0, b);
      SortSorts(blocks, b.start);
    }
  }

  // ----- what remains ------------------------------------------------------------------------------------

  /** The text between and around the kept blocks, from `cursor` on. */
  function Gaps(text: string, kept: seq<Block>, cursor: nat): seq<string>
    requires cursor <= |text| && Between(kept, cursor, |text|)
  {
    if kept == [] then [text[cursor..]]
    else [text[cursor..kept[0].start]] + Gaps(text, kept[1..], kept[0].end)
  }

  /** Executable form of `Disjoint`. */
  predicate Between(blocks: seq<Block>, from: nat, limit: nat) {
    blocks == [] || (from <= blocks[0].start < blocks[0].end <= limit && Between(blocks[1..], blocks[0].end, limit))
  }

  lemma {:induction false} DisjointIsBetween(blocks: seq<Block>, from: nat, limit: nat)
    requires Disjoint(blocks, from, limit)
    ensures Between(blocks, from, limit)
  {
    if blocks != [] {
      DisjointIsBetween(blocks[1..], blocks[0].end, limit);
    }
  }

  function Weave(text: string, kept: seq<Block>, gaps: seq<string>): string
    requires |gaps| == |kept| + 1 && InText(kept, |text|)
  {
    if kept == [] then gaps[0] else gaps[0] + text[kept[0].start..kept[0].end] + Weave(text, kept[1..], gaps[1..])
  }

  predicate InText(kept: seq<Block>, limit: nat) {
    forall i :: 0 <= i < |kept| ==> kept[i].start <= kept[i].end <= limit
  }

  /** Gaps and kept blocks together are the whole text, in order. */
  lemma {:induction false} GapsPartitionText(text: string, kept: seq<Block>, cursor: nat)
    requires cursor <= |text| && Between(kept, cursor, |text|)
    ensures |Gaps(text, kept, cursor)| == |kept| + 1 && InText(kept, |text|)
    ensures Weave(text, kept, Gaps(text, kept, cursor)) == text[cursor..]
  {
    if kept != [] {
      var b, rest := kept[0], kept[1..];
      GapsPartitionText(text, rest, b.end);
      var gaps := Gaps(text, rest, b.end);
      assert ([text[cursor..b.start]] + gaps)[1..] == gaps;
      assert text[cursor..] == text[cursor..b.start] + text[b.start..b.end] + text[b.end..];
      assert forall i :: 0 < i < |kept| ==> kept[i] == rest[i - 1];
    }
  }

  function Fragments(gaps: seq<string>): seq<string> {
    if gaps == [] then []
    else Fragment(gaps[0]) + Fragments(gaps[1..])
  }

  function JoinLines(parts: seq<string>): string {
    if parts == [] then ""
    else if |parts| == 1 then parts[0]
    else parts[0] + "\n" + JoinLines(parts[1..])
  }

  /** A line feed, and nothing else, is put between neighbours. */
  lemma {:induction false} JoinedByLineFeeds(a: seq<string>, b: seq<string>)
    requires a != [] && b != []
    ensures JoinLines(a + b) == JoinLines(a) + "\n" + JoinLines(b)
    ensures forall part: string :: JoinLines([part]) == part
  {
    if |a| == 1 {
      assert (a + b)[1..] == b;
    } else {
      JoinedByLineFeeds(a[1..], b);
      assert (a + b)[1..] == a[1..] + b;
    }
  }

  lemma GapsStep(text: string, kept: seq<Block>, i: nat, cursor: nat)
    requires i < |kept| && cursor <= |text| && Between(kept[i..], cursor, |text|)
    ensures cursor <= kept[i].start < kept[i].end <= |text| && Between(kept[i + 1..], kept[i].end, |text|)
    ensures Gaps(text, kept[i..], cursor) == [text[cursor..kept[i].start]] + Gaps(text, kept[i + 1..], kept[i].end)
  {
    assert kept[i..][0] == kept[i] && kept[i..][1..] == kept[i + 1..];
  }

  function Fragment(gap: string): seq<string> {
    var part := Unwrap(Trim(gap));
    if part == [] then [] else [part]
  }

  /** A gap leaves nothing exactly when it is nothing but wrapping; otherwise one fragment, which is the gap without
      wrapping at its ends and with none left there. */
  lemma FragmentOfGap(gap: string)
    ensures Fragment(gap) == [] <==> Wrapping(gap)
    ensures Fragment(gap) == [] || (|Fragment(gap)| == 1 && Unwraps(gap, Fragment(gap)[0]))
  {
    TrimPeels(gap);
    UnwrapPeels(Trim(gap));
    UnwrapsToNothing(Trim(gap));
    PeelsTwice(gap, Trim(gap), Unwrap(Trim(gap)));
    if Wrapping(gap) {
      TrimKeepsWrapping(gap);
    }
    if Wrapping(Trim(gap)) {
      PeelsToWrapping(gap, Trim(gap));
    }
  }

  /** The gaps that say something. */
  ghost function Worded(gaps: seq<string>): seq<string> {
    if gaps == [] then [] else (if Wrapping(gaps[0]) then [] else [gaps[0]]) + Worded(gaps[1..])
  }

  ghost predicate Unwraps(gap: string, v: string) {
    v != [] && Peels(gap, v) && CleanFront(v) && CleanBack(v)
  }

  ghost predicate AllUnwrap(gaps: seq<string>, parts: seq<string>) {
    |gaps| == |parts| && forall i :: 0 <= i < |gaps| ==> Unwraps(gaps[i], parts[i])
  }

  lemma UnwrapStep(head: seq<string>, part: seq<string>, gaps: seq<string>, parts: seq<string>)
    requires AllUnwrap(gaps, parts) && |head| == |part| <= 1 && (head != [] ==> Unwraps(head[0], part[0]))
    ensures AllUnwrap(head + gaps, part + parts)
  {
    forall i | 0 <= i < |head + gaps| ensures Unwraps((head + gaps)[i], (part + parts)[i]) {
      assert i >= |head| ==> Unwraps(gaps[i - |head|], parts[i - |head|]);
    }
  }

  /** The fragments are, in order, the gaps that are not mere wrapping, each unwrapped. */
  lemma {:induction false} FragmentsUnwrapGaps(gaps: seq<string>)
    ensures AllUnwrap(Worded(gaps), Fragments(gaps))
  {
    if gaps != [] {
      FragmentsUnwrapGaps(gaps[1..]);
      FragmentOfGap(gaps[0]);
      var head := if Wrapping(gaps[0]) then [] else [gaps[0]];
      UnwrapStep(head, Fragment(gaps[0]), Worded(gaps[1..]), Fragments(gaps[1..]));
    }
  }

  lemma FragmentsCons(gap: string, gaps: seq<string>)
    ensures Fragments([gap] + gaps) == Fragment(gap) + Fragments(gaps)
  {
    assert ([gap] + gaps)[1..] == gaps;
  }

  method ReadGap(gap: string) returns (parts: seq<string>)
    ensures parts == Fragment(gap)
  {
    var part := TrimToolCallWrappers(Trim(gap));
    parts := if part == [] then [] else [part];
  }

  lemma Reassociate(parts: seq<string>, fragment: seq<string>, rest: seq<string>)
    ensures parts + (fragment + rest) == (parts + fragment) + rest
  {
  }

  method RemainingFragments(text: string, kept: seq<Block>) returns (parts: seq<string>)
    requires Between(kept, 0, |text|)
    ensures parts == Fragments(Gaps(text, kept, 0))
  {
    parts := [];
    var cursor := 0;
    assert kept[0..] == kept;
    for i := 0 to |kept|
      invariant 0 <= cursor <= |text| && Between(kept[i..], cursor, |text|)
      invariant parts + Fragments(Gaps(text, kept[i..], cursor)) == Fragments(Gaps(text, kept, 0))
    {
      GapsStep(text, kept, i, cursor);
      var before := ReadGap(text[cursor..kept[i].start]);
      ghost var rest := Gaps(text, kept[i + 1..], kept[i].end);
      FragmentsCons(text[cursor..kept[i].start], rest);
      Reassociate(parts, before, Fragments(rest));
      parts := parts + before;
      cursor := kept[i].end;
    }
    var after := ReadGap(text[cursor..]);
    FragmentsCons(text[cursor..], []);
    assert [text[cursor..]] + [] == [text[cursor..]];
    parts := parts + after;
  }

  // ----- the parser ---------------------------------------------------------------------------------------

  method CallsOf(kept: seq<Block>) returns (calls: seq<Call>)
    ensures |calls| == |kept| && forall i :: 0 <= i < |kept| ==> calls[i] == kept[i].call
  {
    calls := [];
    for i := 0 to |kept|
      invariant |calls| == i && forall j :: 0 <= j < i ==> calls[j] == kept[j].call
    {
      calls := calls + [kept[i].call];
    }
  }

  /** Every kept block is a complete element of some format, or a bare object, up to where it balances or the text ends, that
      parses as a call. */
  ghost predicate Genuine(s: Source, b: Block) {
    IsBareCall(s, b) || exists f :: IsElement(s, f, b)
  }

  /** The blocks of the four tagged formats in priority order, then bare calls, with no bare call missed. */
  ghost predicate Collected(s: Source, blocks: seq<Block>) {
    exists n :: 0 <= n <= |blocks| && Tagged(s, blocks[..n]) && BareCalls(s, blocks, n) && AllSettled(s, blocks)
  }

  ghost predicate AllSettled(s: Source, blocks: seq<Block>) {
    forall h: nat :: OccursAt(s.text, NEEDLE, h) ==> Settled(s, h, blocks)
  }

  lemma CollectedBy(s: Source, tagged: seq<Block>, blocks: seq<Block>)
    requires Tagged(s, tagged) && tagged <= blocks && BareCalls(s, blocks, |tagged|) && AllSettled(s, blocks)
    ensures Collected(s, blocks)
  {
    assert blocks[..|tagged|] == tagged;
  }

  /** Parses all tool calls. Besides the calls and the remaining text it hands back the kept blocks. */
  method ParseToolCalls(text: string, parseCall: string -> Option<Call>, parseJson: string -> Option<Value>)
    returns (calls: seq<Call>, remaining: Option<string>, kept: seq<Block>, code: seq<Range>)
    ensures AreCodeRanges(text, code, |text|)
    ensures Disjoint(kept, 0, |text|) && Between(kept, 0, |text|)
    ensures |calls| == |kept| && forall i :: 0 <= i < |kept| ==> calls[i] == kept[i].call
    ensures var s := Source(text, code, parseCall, parseJson);
            && (forall b :: b in kept ==> Genuine(s, b))
            && (forall f, b :: b in Select(s, f, 0) ==> Covered(b.start, kept))
            && (exists blocks :: Collected(s, blocks) && kept == Merged(blocks))
    ensures kept == [] ==> remaining == Some(text)
    ensures kept != [] ==>
              var parts := Fragments(Gaps(text, kept, 0));
              remaining == if parts == [] then None else Some(JoinLines(parts))
  {
    code := MarkdownCodeRanges(text);
    var s := Source(text, code, parseCall, parseJson);
    var fenced := Collect(s, Fenced);
    var functions := Collect(s, FunctionTag);
    var invokes := Collect(s, InvokeTag);
    var wrapped := Collect(s, ToolCallTag);
    var tagged := fenced + functions + invokes + wrapped;
    assert Tagged(s, tagged);
    CodeHasTicks(s);
    var blocks := CollectBareJson(s, tagged);
    AllGenuine(s, tagged, blocks);
    CollectedBy(s, tagged, blocks);
    MergedBlocks(blocks, |text|);
    if blocks == [] {
      kept := [];
      return [], Some(text), [], code;
    }
    kept := MergeBlocks(blocks);
    DisjointIsBetween(kept, 0, |text|);
    assert blocks[0] in blocks;
    var parts := RemainingFragments(text, kept);
    calls := CallsOf(kept);
    remaining := if parts == [] then None else Some(JoinLines(parts));
  }

  lemma CodeHasTicks(s: Source)
    requires AreCodeRanges(s.text, s.code, |s.text|)
    ensures CodeEndsAtTicks(s)
  {
    forall r | r in s.code ensures r.end >= |s.text| || (0 < r.end && s.text[r.end - 1] == TICK) {
      EndsAtTick(s.text, r);
    }
  }

  ghost predicate Tagged(s: Source, tagged: seq<Block>) {
    tagged == Select(s, Fenced, 0) + Select(s, FunctionTag, 0) + Select(s, InvokeTag, 0) + Select(s, ToolCallTag, 0)
  }

  lemma TaggedHasAll(s: Source, tagged: seq<Block>, f: Format, b: Block)
    requires Tagged(s, tagged) && b in Select(s, f, 0)
    ensures b in tagged
  {
  }

  lemma FormatOf(s: Source, tagged: seq<Block>, b: Block) returns (f: Format)
    requires Tagged(s, tagged) && b in tagged
    ensures b in Select(s, f, 0)
  {
    f := if b in Select(s, Fenced, 0) then Fenced
         else if b in Select(s, FunctionTag, 0) then FunctionTag
         else if b in Select(s, InvokeTag, 0) then InvokeTag
         else ToolCallTag;
  }

  lemma ElementIsGenuine(s: Source, f: Format, b: Block)
    requires b in Select(s, f, 0)
    ensures b.start < b.end <= |s.text| && Genuine(s, b)
  {
    SelectedDisjoint(s, f, 0);
    SelectedElements(s, f, 0);
    assert IsElement(s, f, b);
  }

  lemma BareIsGenuine(s: Source, b: Block)
    requires IsBareCall(s, b)
    ensures b.start < b.end <= |s.text| && Genuine(s, b)
  {
  }

  lemma BlockIsGenuine(s: Source, tagged: seq<Block>, blocks: seq<Block>, b: Block)
    requires Tagged(s, tagged) && tagged <= blocks && BareCalls(s, blocks, |tagged|) && b in blocks
    ensures b.start < b.end <= |s.text| && Genuine(s, b)
  {
    var i :| 0 <= i < |blocks| && blocks[i] == b;
    if i < |tagged| {
      assert b == tagged[i];
      var f := FormatOf(s, tagged, b);
      ElementIsGenuine(s, f, b);
    } else {
      BareIsGenuine(s, b);
    }
  }

  lemma AllGenuine(s: Source, tagged: seq<Block>, blocks: seq<Block>)
    ensures Tagged(s, tagged) && tagged <= blocks && BareCalls(s, blocks, |tagged|) ==>
              && InBounds(blocks, |s.text|)
              && (forall b :: b in blocks ==> Genuine(s, b))
              && (forall f, b :: b in Select(s, f, 0) ==> b in blocks)
  {
    if Tagged(s, tagged) && tagged <= blocks && BareCalls(s, blocks, |tagged|) {
      forall f, b | b in Select(s, f, 0) ensures b in blocks {
        TaggedHasAll(s, tagged, f, b);
      }
      forall b | b in blocks ensures Genuine(s, b) && b.start < b.end <= |s.text| {
        BlockIsGenuine(s, tagged, blocks, b);
      }
    }
  }
}
