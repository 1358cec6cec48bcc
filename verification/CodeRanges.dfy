/** Markdown code spans and fences in model text. */
module CodeRanges {
  import opened Ordering
  import opened Text

  const TICK: char := '`'

  datatype Range = Range(start: nat, end: nat)

  predicate Inside(pos: int, ranges: seq<Range>) {
    exists r :: r in ranges && r.start <= pos < r.end
  }

  /** Length of the run of backticks at `i`. */
  function TickRun(text: string, i: nat): (n: nat)
    requires i <= |text|
    ensures i + n <= |text|
    ensures forall k :: i <= k < i + n ==> text[k] == TICK
    ensures i + n < |text| ==> text[i + n] != TICK
    decreases |text| - i
  {
    if i < |text| && text[i] == TICK then 1 + TickRun(text, i + 1) else 0
  }

  /** Where the code opened at `start` ends: after the next run of the same length, or with the text. */
  ghost predicate ClosesAt(text: string, start: nat, end: nat)
    requires start <= |text|
  {
    var n := TickRun(text, start);
    var fence := text[start..start + n];
    || (exists close :: start + n <= close && end == close + n && OccursAt(text, fence, close)
                        && forall i :: start + n <= i < close ==> !OccursAt(text, fence, i))
    || (end == |text| && forall i :: start + n <= i ==> !OccursAt(text, fence, i))
  }

  ghost predicate Ordered(ranges: seq<Range>, limit: nat) {
    && (forall i :: 0 <= i < |ranges| ==> ranges[i].start < ranges[i].end <= limit)
    && (forall i, j :: 0 <= i < j < |ranges| ==> ranges[i].end <= ranges[j].start)
  }

  ghost predicate IsCode(text: string, r: Range) {
    r.start < |text| && text[r.start] == '`' && ClosesAt(text, r.start, r.end)
  }

  /** Exactly the code of `text` up to `limit`: ordered ranges that each open at a backtick and close where
      that opening closes, leaving no backtick outside. */
  ghost predicate AreCodeRanges(text: string, ranges: seq<Range>, limit: nat) {
    && limit <= |text|
    && Ordered(ranges, limit)
    && (forall r :: r in ranges ==> IsCode(text, r))
    && (forall p :: 0 <= p < limit && text[p] == '`' ==> Inside(p, ranges))
  }

  /** The code that opens at a backtick. */
  method CodeFrom(text: string, start: nat) returns (r: Range)
    requires start < |text| && text[start] == TICK
    ensures r.start == start < r.end <= |text| && ClosesAt(text, start, r.end)
  {
    var n := TickRun(text, start);
    assert n > 0;
    var afterOpen := start + n;
    var close := Find(text, text[start..afterOpen], afterOpen);
    r := Range(start, if close.Some? then close.value + n else |text|);
  }

  method MarkdownCodeRanges(text: string) returns (ranges: seq<Range>)
    ensures AreCodeRanges(text, ranges, |text|)
  {
    ranges := [];
    var searchFrom := 0;
    var next := Find(text, [TICK], 0);
    while next.Some?
      invariant searchFrom <= |text| && next == Find(text, [TICK], searchFrom)
      invariant AreCodeRanges(text, ranges, searchFrom)
      decreases |text| - searchFrom
    {
      TickFound(text, searchFrom, next.value);
      var r := CodeFrom(text, next.value);
      CoverExtends(text, ranges, searchFrom, r);
      ranges := ranges + [r];
      searchFrom := r.end;
      next := Find(text, [TICK], searchFrom);
    }
    NoTickBetween(text, searchFrom, |text|);
    CoverRest(text, ranges, searchFrom);
  }

  lemma TickFound(text: string, from: nat, start: nat)
    requires from <= |text| && Find(text, [TICK], from) == Some(start)
    ensures from <= start < |text| && text[start] == TICK && forall p :: from <= p < start ==> text[p] != TICK
  {
    assert text[start + 0] == [TICK][0];
    NoTickBetween(text, from, start);
  }

  lemma CoverRest(text: string, ranges: seq<Range>, from: nat)
    requires AreCodeRanges(text, ranges, from) && forall p :: from <= p < |text| ==> text[p] != TICK
    ensures AreCodeRanges(text, ranges, |text|)
  {
  }

  lemma NoTickBetween(text: string, from: nat, limit: nat)
    requires from <= limit <= |text| && forall i :: from <= i < limit ==> !OccursAt(text, [TICK], i)
    ensures forall p :: from <= p < limit ==> text[p] != TICK
  {
    forall p | from <= p < limit ensures text[p] != TICK {
      assert text[p..p + 1] == [text[p]];
      assert !OccursAt(text, [TICK], p);
    }
  }

  lemma CoverExtends(text: string, ranges: seq<Range>, from: nat, r: Range)
    requires AreCodeRanges(text, ranges, from) && from <= r.start < r.end <= |text|
    requires forall p :: from <= p < r.start ==> text[p] != TICK
    requires text[r.start] == TICK && ClosesAt(text, r.start, r.end)
    ensures AreCodeRanges(text, ranges + [r], r.end)
  {
    var all := ranges + [r];
    forall p | 0 <= p < r.end && text[p] == TICK ensures Inside(p, all) {
      if p < from {
        var q :| q in ranges && q.start <= p < q.end;
        assert q in all;
      } else {
        assert r in all;
      }
    }
  }

  /** A range ends just after a backtick or with the text. */
  lemma EndsAtTick(text: string, r: Range)
    requires IsCode(text, r)
    ensures r.end == |text| || (0 < r.end <= |text| && text[r.end - 1] == TICK)
  {
    var n := TickRun(text, r.start);
    if r.end != |text| {
      var close :| r.start + n <= close && r.end == close + n && OccursAt(text, text[r.start..r.start + n], close);
      assert text[close..close + n][n - 1] == text[r.start..r.start + n][n - 1];
    }
  }

  /** The characters before `n` that lie in no range. */
  ghost function Outside(text: string, ranges: seq<Range>, n: nat): string
    requires n <= |text|
  {
    if n == 0 then [] else Outside(text, ranges, n - 1) + if Inside(n - 1, ranges) then [] else [text[n - 1]]
  }

  lemma {:induction false} OutsideGap(text: string, ranges: seq<Range>, from: nat, n: nat)
    requires from <= n <= |text| && forall p :: from <= p < n ==> !Inside(p, ranges)
    ensures Outside(text, ranges, n) == Outside(text, ranges, from) + text[from..n]
  {
    if from < n {
      OutsideGap(text, ranges, from, n - 1);
      assert text[from..n] == text[from..n - 1] + [text[n - 1]];
    }
  }

  lemma {:induction false} OutsideCovered(text: string, ranges: seq<Range>, from: nat, n: nat)
    requires from <= n <= |text| && forall p :: from <= p < n ==> Inside(p, ranges)
    ensures Outside(text, ranges, n) == Outside(text, ranges, from)
  {
    if from < n {
      OutsideCovered(text, ranges, from, n - 1);
    }
  }

  /** Removing code leaves the characters outside every range, in order, and so no backtick. */
  method StripCode(text: string) returns (out: string, ranges: seq<Range>)
    ensures AreCodeRanges(text, ranges, |text|)
    ensures out == Outside(text, ranges, |text|) && '`' !in out
  {
    ranges := MarkdownCodeRanges(text);
    out := [];
    var cursor := 0;
    for i := 0 to |ranges|
      invariant 0 <= cursor <= |text| && out == Outside(text, ranges, cursor)
      invariant cursor == if i == 0 then 0 else ranges[i - 1].end
    {
      GapIsOutside(text, ranges, i, cursor);
      OutsideRange(text, ranges, i, cursor);
      if cursor < ranges[i].start {
        out := out + text[cursor..ranges[i].start];
      }
      cursor := ranges[i].end;
    }
    GapIsOutside(text, ranges, |ranges|, cursor);
    OutsideEnd(text, ranges, cursor);
    if cursor < |text| {
      out := out + text[cursor..];
    }
    NoTicksOutside(text, ranges, |text|);
  }

  lemma OutsideEnd(text: string, ranges: seq<Range>, cursor: nat)
    requires cursor <= |text| && forall p :: cursor <= p < |text| ==> !Inside(p, ranges)
    ensures Outside(text, ranges, |text|) == Outside(text, ranges, cursor) + text[cursor..]
  {
    OutsideGap(text, ranges, cursor, |text|);
    assert text[cursor..] == text[cursor..|text|];
  }

  /** Moving past a range adds the gap before it. */
  lemma OutsideRange(text: string, ranges: seq<Range>, i: nat, cursor: nat)
    requires Ordered(ranges, |text|) && i < |ranges| && cursor <= ranges[i].start
    requires forall p :: cursor <= p < ranges[i].start ==> !Inside(p, ranges)
    ensures Outside(text, ranges, ranges[i].end) == Outside(text, ranges, cursor) + text[cursor..ranges[i].start]
  {
    var r := ranges[i];
    OutsideGap(text, ranges, cursor, r.start);
    forall p | r.start <= p < r.end ensures Inside(p, ranges) {
      assert r in ranges;
    }
    OutsideCovered(text, ranges, r.start, r.end);
  }

  lemma GapIsOutside(text: string, ranges: seq<Range>, i: nat, cursor: nat)
    requires Ordered(ranges, |text|) && i <= |ranges| && cursor == if i == 0 then 0 else ranges[i - 1].end
    ensures i < |ranges| ==> cursor <= ranges[i].start
    ensures forall p :: cursor <= p < (if i < |ranges| then ranges[i].start else |text|) ==> !Inside(p, ranges)
  {
    var limit := if i < |ranges| then ranges[i].start else |text|;
    forall k | 0 <= k < |ranges| ensures ranges[k].end <= cursor || limit <= ranges[k].start {
      if k < i - 1 {
        assert ranges[k].end <= ranges[i - 1].start;
      } else if k > i {
        assert ranges[i].end <= ranges[k].start;
      }
    }
  }

  lemma {:induction false} NoTicksOutside(text: string, ranges: seq<Range>, n: nat)
    requires AreCodeRanges(text, ranges, |text|) && n <= |text|
    ensures '`' !in Outside(text, ranges, n)
  {
    if n > 0 {
      NoTicksOutside(text, ranges, n - 1);
    }
  }
}
