/** Bare `{"tool": ...}` objects: the scan whose cursor can move backwards. */
module BareJson {
  import opened Ordering
  import opened Text
  import opened CodeRanges
  import opened ToolBlocks

  const NEEDLE := "\"tool\""

  // ----- the object that opens at a brace -----------------------------------------------------------

  datatype Nesting = Nesting(depth: int, inString: bool, escape: bool)

  const OUTSIDE := Nesting(0, false, false)

  function NestChar(n: Nesting, c: char): Nesting {
    if n.inString then
      if n.escape then n.(escape := false)
      else if c == '\\' then n.(escape := true)
      else if c == '\"' then n.(inString := false)
      else n
    else if c == '\"' then n.(inString := true)
    else if c == '{' then n.(depth := n.depth + 1)
    else if c == '}' then n.(depth := n.depth - 1)
    else n
  }

  /** The nesting after the characters in [open, i). */
  function NestAt(text: string, open: nat, i: nat): Nesting
    requires open <= i <= |text|
  {
    if i == open then OUTSIDE else NestChar(NestAt(text, open, i - 1), text[i - 1])
  }

  /** `end` is where the object opened at `open` first balances, or the end of a text where it never does. */
  ghost predicate ObjectEndsAt(text: string, open: nat, end: nat) {
    && open < end <= |text|
    && (forall i :: open < i < end ==> NestAt(text, open, i).depth > 0)
    && (NestAt(text, open, end).depth == 0 || (end == |text| && NestAt(text, open, end).depth > 0))
  }

  lemma ObjectEndIsUnique(text: string, open: nat, a: nat, b: nat)
    requires ObjectEndsAt(text, open, a) && ObjectEndsAt(text, open, b)
    ensures a == b
  {
  }

  method FindObjectEnd(text: string, open: nat) returns (end: nat)
    requires open < |text| && text[open] == '{'
    ensures ObjectEndsAt(text, open, end)
  {
    var depth, inStr, escape := 0, false, false;
    var i := open;
    while i < |text|
      invariant open <= i <= |text|
      invariant NestAt(text, open, i) == Nesting(depth, inStr, escape)
      invariant i == open ==> depth == 0
      invariant forall j :: open < j <= i ==> NestAt(text, open, j).depth > 0
    {
      var ch := text[i];
      if inStr {
        if escape {
          escape := false;
        } else if ch == '\\' {
          escape := true;
        } else if ch == '\"' {
          inStr := false;
        }
      } else if ch == '\"' {
        inStr := true;
      } else if ch == '{' {
        depth := depth + 1;
      } else if ch == '}' {
        depth := depth - 1;
        if depth == 0 {
          return i + 1;
        }
      }
      i := i + 1;
    }
    end := |text|;
  }

  // ----- what is covered ---------------------------------------------------------------------------------

  predicate Covered(pos: nat, blocks: seq<Block>) {
    exists b :: b in blocks && b.start <= pos < b.end
  }

  /** Opening braces in no block: what is left for the scan to claim. */
  function FreeBraces(text: string, blocks: seq<Block>): set<nat> {
    set p: nat | p < |text| && text[p] == '{' && !Covered(p, blocks)
  }

  /** `h` names the tool key outside code, and `open` is the last brace before it. */
  ghost predicate OpensAt(s: Source, h: nat, open: nat) {
    OccursAt(s.text, NEEDLE, h) && !Inside(h, s.code) && h <= |s.text| && FindLast(s.text, '{', h) == Some(open)
  }

  /** The object that opens before `h` is in a block, or its text is not a tool call. */
  ghost predicate Settled(s: Source, h: nat, blocks: seq<Block>) {
    forall open: nat, end: nat :: OpensAt(s, h, open) && ObjectEndsAt(s.text, open, end) ==>
      Covered(open, blocks) || s.parseCall(s.text[open..end]).None?
  }

  /** A block read from a hit outside code: the object up to where it balances, or the rest of the text if it never does,
      parsed. */
  ghost predicate IsBareCall(s: Source, b: Block) {
    && ObjectEndsAt(s.text, b.start, b.end)
    && s.parseCall(s.text[b.start..b.end]) == Some(b.call)
    && exists h: nat :: OpensAt(s, h, b.start)
  }

  /** Blocks past the first `known` are bare calls opening in no earlier block. */
  ghost predicate BareCalls(s: Source, blocks: seq<Block>, known: nat) {
    forall i :: known <= i < |blocks| ==> IsBareCall(s, blocks[i]) && !Covered(blocks[i].start, blocks[..i])
  }

  ghost predicate CodeEndsAtTicks(s: Source) {
    forall r :: r in s.code ==> r.end >= |s.text| || (0 < r.end && s.text[r.end - 1] == TICK)
  }

  lemma CoveredGrows(pos: nat, blocks: seq<Block>, b: Block)
    ensures Covered(pos, blocks + [b]) <==> Covered(pos, blocks) || b.start <= pos < b.end
  {
    assert b in blocks + [b];
    assert forall x :: x in blocks ==> x in blocks + [b];
  }

  lemma SettledGrows(s: Source, h: nat, blocks: seq<Block>, b: Block)
    requires Settled(s, h, blocks)
    ensures Settled(s, h, blocks + [b])
  {
    forall open: nat, end: nat | OpensAt(s, h, open) && ObjectEndsAt(s.text, open, end)
      ensures Covered(open, blocks + [b]) || s.parseCall(s.text[open..end]).None?
    {
      CoveredGrows(open, blocks, b);
    }
  }

  lemma BareCallsGrow(s: Source, blocks: seq<Block>, known: nat, b: Block)
    requires known <= |blocks| && BareCalls(s, blocks, known) && IsBareCall(s, b) && !Covered(b.start, blocks)
    ensures BareCalls(s, blocks + [b], known)
  {
    var all := blocks + [b];
    forall i | known <= i < |all| ensures IsBareCall(s, all[i]) && !Covered(all[i].start, all[..i]) {
      if i < |blocks| {
        assert all[..i] == blocks[..i];
      } else {
        assert all[..i] == blocks;
      }
    }
  }

  lemma FewerFree(text: string, blocks: seq<Block>, b: Block)
    requires b.start < |text| && text[b.start] == '{' && !Covered(b.start, blocks) && b.start < b.end
    ensures |FreeBraces(text, blocks + [b])| < |FreeBraces(text, blocks)|
  {
    forall p | p in FreeBraces(text, blocks + [b]) ensures p in FreeBraces(text, blocks) && p != b.start {
      CoveredGrows(p, blocks, b);
    }
    var less, more := FreeBraces(text, blocks + [b]), FreeBraces(text, blocks);
    assert less <= more - {b.start} && b.start in more;
    SubsetSize(less, more - {b.start});
  }

  lemma SubsetSize(a: set<nat>, b: set<nat>)
    requires a <= b
    ensures |a| <= |b|
  {
    assert b == a + (b - a);
  }

  /** A second hit can only start on the closing quote of the first: it has the same brace before it, and lies in
      code whenever the first does. */
  lemma OverlappingHits(s: Source, h: nat, k: nat)
    requires OccursAt(s.text, NEEDLE, h) && OccursAt(s.text, NEEDLE, k) && h < k < h + |NEEDLE|
    ensures k == h + 5 && FindLast(s.text, '{', k) == FindLast(s.text, '{', h)
    ensures CodeEndsAtTicks(s) && Inside(h, s.code) ==> Inside(k, s.code)
  {
    NeedlesOverlap(s.text, h, k);
    SameBrace(s.text, h, k);
    if CodeEndsAtTicks(s) && Inside(h, s.code) {
      var r :| r in s.code && r.start <= h < r.end;
      assert r.end > k by {
        assert r.end < |s.text| ==> s.text[r.end - 1] == TICK;
      }
    }
  }

  lemma NeedlesOverlap(text: string, h: nat, k: nat)
    requires OccursAt(text, NEEDLE, h) && OccursAt(text, NEEDLE, k) && h < k < h + |NEEDLE|
    ensures k == h + 5 < |text| && forall i :: h <= i <= k ==> text[i] != '{' && text[i] != TICK
  {
    NeedleAt(text, h);
    NeedleAt(text, k);
  }

  lemma NeedleAt(text: string, h: nat)
    requires OccursAt(text, NEEDLE, h)
    ensures text[h] == '\"' && text[h + 1] == 't' && text[h + 2] == 'o' && text[h + 3] == 'o' && text[h + 4] == 'l'
    ensures text[h + 5] == '\"'
  {
    assert text[h + 0] == NEEDLE[0] && text[h + 1] == NEEDLE[1] && text[h + 2] == NEEDLE[2];
    assert text[h + 3] == NEEDLE[3] && text[h + 4] == NEEDLE[4] && text[h + 5] == NEEDLE[5];
  }

  lemma {:induction false} SameBrace(text: string, h: nat, k: nat)
    requires h <= k <= |text| && forall i :: h <= i < k ==> text[i] != '{'
    ensures FindLast(text, '{', k) == FindLast(text, '{', h)
    decreases k
  {
    if h < k {
      SameBrace(text, h, k - 1);
    }
  }

  /** Every hit before `limit` is settled. */
  ghost predicate SettledBefore(s: Source, blocks: seq<Block>, limit: nat) {
    forall h :: 0 <= h < limit && OccursAt(s.text, NEEDLE, h) ==> Settled(s, h, blocks)
  }

  /** Having dealt with the leftmost hit, everything before the next search position is settled. */
  lemma PastHit(s: Source, blocks: seq<Block>, from: nat, h: nat)
    requires CodeEndsAtTicks(s) && SettledBefore(s, blocks, from) && from <= |s.text| && Find(s.text, NEEDLE, from) == Some(h)
    requires Settled(s, h, blocks)
    ensures SettledBefore(s, blocks, h + |NEEDLE|)
  {
    forall k | 0 <= k < h + |NEEDLE| && OccursAt(s.text, NEEDLE, k) ensures Settled(s, k, blocks) {
      if k > h {
        OverlappingHits(s, h, k);
        forall open: nat, end: nat | OpensAt(s, k, open) && ObjectEndsAt(s.text, open, end)
          ensures Covered(open, blocks) || s.parseCall(s.text[open..end]).None?
        {
          assert OpensAt(s, h, open);
        }
      }
    }
  }

  /** Having claimed an object, every hit before its end is settled, whichever way the cursor moves. */
  lemma PastObject(s: Source, blocks: seq<Block>, from: nat, h: nat, b: Block)
    requires SettledBefore(s, blocks, from) && from <= |s.text| && Find(s.text, NEEDLE, from) == Some(h)
    requires FindLast(s.text, '{', h) == Some(b.start) && b.start < b.end
    ensures SettledBefore(s, blocks + [b], b.end)
  {
    forall k | 0 <= k < b.end && OccursAt(s.text, NEEDLE, k) ensures Settled(s, k, blocks + [b]) {
      if k < from {
        SettledGrows(s, k, blocks, b);
      } else {
        assert k >= h;
        forall open: nat, end: nat | OpensAt(s, k, open) && ObjectEndsAt(s.text, open, end)
          ensures Covered(open, blocks + [b]) || s.parseCall(s.text[open..end]).None?
        {
          assert b.start <= open < b.end;
          CoveredGrows(open, blocks, b);
        }
      }
    }
  }

  /** The scan ends on every text: a claimed object uses up a free brace, anything else moves the cursor on. It claims
      only real calls, and leaves no tool key outside code whose object is a call but in no block. */
  method CollectBareJson(s: Source, blocks: seq<Block>) returns (all: seq<Block>)
    requires CodeEndsAtTicks(s)
    ensures blocks <= all && BareCalls(s, all, |blocks|)
    ensures forall h :: OccursAt(s.text, NEEDLE, h) ==> Settled(s, h, all)
  {
    all := blocks;
    var searchFrom: nat := 0;
    while true
      invariant searchFrom <= |s.text| && blocks <= all && BareCalls(s, all, |blocks|)
      invariant SettledBefore(s, all, searchFrom)
      decreases |FreeBraces(s.text, all)|, |s.text| - searchFrom
    {
      var hit := Find(s.text, NEEDLE, searchFrom);
      if hit.None? {
        break;
      }
      var h := hit.value;
      if Inside(h, s.code) {
        PastHit(s, all, searchFrom, h);
        searchFrom := h + |NEEDLE|;
        continue;
      }
      var open := FindLast(s.text, '{', h);
      if open.None? || Covered(open.value, all) {
        PastHit(s, all, searchFrom, h);
        searchFrom := h + |NEEDLE|;
        continue;
      }
      var end := FindObjectEnd(s.text, open.value);
      var call := s.parseCall(s.text[open.value..end]);
      assert OpensAt(s, h, open.value);
      if call.Some? {
        var b := Block(call.value, open.value, end);
        BareCallsGrow(s, all, |blocks|, b);
        PastObject(s, all, searchFrom, h, b);
        FewerFree(s.text, all, b);
        all := all + [b];
        searchFrom := end;
      } else {
        forall other | ObjectEndsAt(s.text, open.value, other) ensures other == end {
          ObjectEndIsUnique(s.text, open.value, other, end);
        }
        PastHit(s, all, searchFrom, h);
        searchFrom := h + |NEEDLE|;
      }
    }
  }

  // ----- bare calls and code ranges ------------------------------------------------------------------------

  /** Code that holds the brace before a tool key but ends before the key. Only the key is looked up in the code ranges,
      so this code is overlooked. */
  ghost predicate Overlooked(s: Source, h: nat, open: nat, r: Range) {
    OpensAt(s, h, open) && r in s.code && r.start <= open < r.end <= h
  }

  /** A bare call starts in code exactly when such code holds its brace. */
  lemma StartInCode(s: Source, b: Block)
    requires IsBareCall(s, b)
    ensures Inside(b.start, s.code) <==> exists h: nat, r :: Overlooked(s, h, b.start, r)
  {
    if Inside(b.start, s.code) {
      var h: nat :| OpensAt(s, h, b.start);
      var r :| r in s.code && r.start <= b.start < r.end;
      assert r.end <= h;
      assert Overlooked(s, h, b.start, r);
    }
  }

  /** No bare call of the scan starts in code when no tool key outside code is separated from its brace by the end of
      a code range. */
  lemma CallsOutsideCode(s: Source, all: seq<Block>, known: nat)
    requires BareCalls(s, all, known)
    requires forall h: nat, open: nat, r :: !Overlooked(s, h, open, r)
    ensures forall i :: known <= i < |all| ==> !Inside(all[i].start, s.code)
  {
    forall i | known <= i < |all| ensures !Inside(all[i].start, s.code) {
      StartInCode(s, all[i]);
    }
  }

  /** Conversely, such a key makes some block cover a brace in code, or its object is not a call. */
  lemma OverlookedIsClaimed(s: Source, all: seq<Block>, h: nat, open: nat, r: Range, end: nat)
    requires Settled(s, h, all) && Overlooked(s, h, open, r) && ObjectEndsAt(s.text, open, end)
    requires s.parseCall(s.text[open..end]).Some?
    ensures Inside(open, s.code) && Covered(open, all)
  {
    assert r in s.code;
  }

  /** A call that starts in code: the brace lies in the code span, the tool key after it. */
  lemma CallStartingInCode(s: Source, call: Call)
    requires s.text == "`{\"`\":0,\"tool\":\"\"}" && s.code == [Range(0, 4)]
    requires s.parseCall(s.text[1..]) == Some(call)
    ensures AreCodeRanges(s.text, s.code, |s.text|)
    ensures IsBareCall(s, Block(call, 1, |s.text|)) && Inside(1, s.code)
  {
    ExampleCode(s.text);
    ExampleObject(s.text);
    assert s.code[0] == Range(0, 4);
    assert s.text[1..|s.text|] == s.text[1..];
    ExampleKey(s.text);
    assert OpensAt(s, 8, 1);
  }

  lemma ExampleKey(text: string)
    requires text == "`{\"`\":0,\"tool\":\"\"}"
    ensures OccursAt(text, NEEDLE, 8) && FindLast(text, '{', 8) == Some(1)
  {
    assert text[8..8 + |NEEDLE|] == NEEDLE;
    assert text[2] == '\"' && text[3] == '`' && text[4] == '\"' && text[5] == ':' && text[6] == '0' && text[7] == ',';
    SameBrace(text, 2, 8);
    assert text[1] == '{';
  }

  lemma ExampleCode(text: string)
    requires text == "`{\"`\":0,\"tool\":\"\"}"
    ensures AreCodeRanges(text, [Range(0, 4)], |text|)
  {
    assert TickRun(text, 1) == 0;
    assert TickRun(text, 0) == 1;
    assert text[0..1] == [TICK];
    assert text[1..2][0] != TICK;
    assert text[2..3][0] != TICK;
    assert text[3..4] == [TICK];
    assert OccursAt(text, [TICK], 3);
    assert ClosesAt(text, 0, 4);
    assert [Range(0, 4)][0] == Range(0, 4);
  }

  /** Plain characters leave the nesting as it is. */
  lemma {:induction false} NestRun(text: string, open: nat, a: nat, b: nat)
    requires open < a <= b <= |text| && !NestAt(text, open, a).escape
    requires forall i :: a <= i < b ==> text[i] !in {'{', '}', '\"', '\\'}
    ensures forall i :: a <= i <= b ==> NestAt(text, open, i) == NestAt(text, open, a)
    decreases b - a
  {
    if a < b {
      NestRun(text, open, a + 1, b);
    }
  }

  lemma ExampleFirstField(text: string)
    requires text == "`{\"`\":0,\"tool\":\"\"}"
    ensures NestAt(text, 1, 8) == Nesting(1, false, false)
    ensures forall i :: 1 < i <= 8 ==> NestAt(text, 1, i).depth == 1
  {
    assert NestAt(text, 1, 2) == Nesting(1, false, false);
    assert NestAt(text, 1, 3) == Nesting(1, true, false);
    NestRun(text, 1, 3, 4);
    assert NestAt(text, 1, 5) == Nesting(1, false, false);
    NestRun(text, 1, 5, 8);
  }

  lemma ExampleObject(text: string)
    requires text == "`{\"`\":0,\"tool\":\"\"}"
    ensures ObjectEndsAt(text, 1, |text|)
  {
    ExampleFirstField(text);
    assert NestAt(text, 1, 9) == Nesting(1, true, false);
    NestRun(text, 1, 9, 13);
    assert NestAt(text, 1, 14) == Nesting(1, false, false);
    NestRun(text, 1, 14, 15);
    assert NestAt(text, 1, 16) == Nesting(1, true, false);
  }
}
