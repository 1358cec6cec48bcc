/** Where the bare-object scan ends an object whose inside is well nested. */
module BareNesting {
  import opened Ordering
  import opened Sequences
  import opened Text
  import opened NestedText
  import opened CodeRanges
  import opened ToolBlocks
  import opened BareJson

  function NestText(st: Nesting, s: string): Nesting {
    if s == [] then st else NestChar(NestText(st, Front(s)), Last(s))
  }

  lemma {:induction false} NestConcat(st: Nesting, s: string, t: string)
    ensures NestText(st, s + t) == NestText(NestText(st, s), t)
  {
    if t == [] {
      assert s + t == s;
    } else {
      FrontConcat(s, t);
      NestConcat(st, s, Front(t));
    }
  }

  lemma NestOne(st: Nesting, c: char)
    ensures NestText(st, [c]) == NestChar(st, c)
  {
    assert Front([c]) == [];
  }

  lemma {:induction false} NestAtIsText(text: string, open: nat, i: nat)
    requires open <= i <= |text|
    ensures NestAt(text, open, i) == NestText(OUTSIDE, text[open..i])
  {
    if i > open {
      NestAtIsText(text, open, i - 1);
      assert Front(text[open..i]) == text[open..i - 1] && Last(text[open..i]) == text[i - 1];
    }
  }

  /** From `st` on, the depth never falls below `d` within `s`. */
  ghost predicate StaysAbove(st: Nesting, s: string, d: int) {
    forall k: nat :: k <= |s| ==> NestText(st, s[..k]).depth >= d
  }

  lemma AboveBefore(st: Nesting, s: string, t: string, d: int, k: nat)
    requires StaysAbove(st, s, d) && k <= |s|
    ensures NestText(st, (s + t)[..k]).depth >= d
  {
    assert (s + t)[..k] == s[..k];
  }

  lemma AboveAfter(st: Nesting, s: string, t: string, d: int, k: nat)
    requires StaysAbove(NestText(st, s), t, d) && |s| <= k <= |s + t|
    ensures NestText(st, (s + t)[..k]).depth >= d
  {
    var head := t[..k - |s|];
    assert (s + t)[..k] == s + head;
    NestConcat(st, s, head);
  }

  lemma AboveConcat(st: Nesting, s: string, t: string, d: int)
    requires StaysAbove(st, s, d) && StaysAbove(NestText(st, s), t, d)
    ensures StaysAbove(st, s + t, d)
  {
    forall k: nat | k <= |s + t| ensures NestText(st, (s + t)[..k]).depth >= d {
      if k <= |s| {
        AboveBefore(st, s, t, d, k);
      } else {
        AboveAfter(st, s, t, d, k);
      }
    }
  }

  lemma AboveOne(st: Nesting, c: char, d: int)
    requires st.depth >= d && NestChar(st, c).depth >= d
    ensures StaysAbove(st, [c], d)
  {
    NestOne(st, c);
    assert [c][..0] == [] && [c][..1] == [c];
  }

  /** Reading `s` from `st` returns to `st` without going below its depth. */
  ghost predicate Returns(st: Nesting, s: string) {
    NestText(st, s) == st && StaysAbove(st, s, st.depth)
  }

  lemma ReturnsConcat(st: Nesting, s: string, t: string)
    requires Returns(st, s) && Returns(st, t)
    ensures Returns(st, s + t)
  {
    NestConcat(st, s, t);
    AboveConcat(st, s, t, st.depth);
  }

  lemma EmptyReturns(st: Nesting)
    ensures Returns(st, "")
  {
    assert ""[..0] == "";
  }

  ghost predicate InLiteral(st: Nesting) {
    st.inString && !st.escape
  }

  lemma UnitReturns(st: Nesting, u: Unit)
    requires InLiteral(st) && ProperUnits([u])
    ensures Returns(st, WriteUnit(u))
  {
    assert [u][0] == u;
    if u.Char? {
      NestOne(st, u.c);
      AboveOne(st, u.c, st.depth);
    } else {
      var mid := NestChar(st, '\\');
      assert WriteUnit(u) == ['\\'] + [u.c];
      NestConcat(st, ['\\'], [u.c]);
      NestOne(st, '\\');
      NestOne(mid, u.c);
      AboveOne(st, '\\', st.depth);
      AboveOne(mid, u.c, st.depth);
      AboveConcat(st, ['\\'], [u.c], st.depth);
    }
  }

  lemma {:induction false} UnitsReturn(st: Nesting, units: seq<Unit>)
    requires InLiteral(st) && ProperUnits(units)
    ensures Returns(st, WriteUnits(units))
  {
    if units == [] {
      EmptyReturns(st);
    } else {
      UnitReturns(st, units[0]);
      UnitsReturn(st, units[1..]);
      ReturnsConcat(st, WriteUnit(units[0]), WriteUnits(units[1..]));
    }
  }

  /** One character in, a returning middle, one character out. */
  lemma AroundReturns(st: Nesting, open: char, s: string, close: char)
    requires Returns(NestChar(st, open), s) && NestChar(NestChar(st, open), close) == st
    requires NestChar(st, open).depth >= st.depth
    ensures Returns(st, [open] + s + [close])
  {
    var mid := NestChar(st, open);
    NestOne(st, open);
    NestOne(mid, close);
    NestConcat(st, [open], s);
    NestConcat(st, [open] + s, [close]);
    AboveOne(st, open, st.depth);
    assert StaysAbove(mid, s, st.depth);
    AboveConcat(st, [open], s, st.depth);
    AboveOne(mid, close, st.depth);
    AboveConcat(st, [open] + s, [close], st.depth);
  }

  lemma {:induction false} NestedReturns(st: Nesting, n: Nested)
    requires !st.inString && !st.escape && Proper(n)
    ensures Returns(st, Write(n))
    decreases n
  {
    match n
    case Nothing => EmptyReturns(st);
    case Other(c, rest) =>
      NestOne(st, c);
      AboveOne(st, c, st.depth);
      NestedReturns(st, rest);
      ReturnsConcat(st, [c], Write(rest));
    case Quoted(units, rest) =>
      UnitsReturn(NestChar(st, '\"'), units);
      AroundReturns(st, '\"', WriteUnits(units), '\"');
      NestedReturns(st, rest);
      ReturnsConcat(st, Literal(units), Write(rest));
    case Braces(inner, rest) =>
      NestedReturns(NestChar(st, '{'), inner);
      AroundReturns(st, '{', Write(inner), '}');
      NestedReturns(st, rest);
      ReturnsConcat(st, "{" + Write(inner) + "}", Write(rest));
    case Brackets(inner, rest) =>
      NestedReturns(NestChar(st, '['), inner);
      AroundReturns(st, '[', Write(inner), ']');
      NestedReturns(st, rest);
      ReturnsConcat(st, "[" + Write(inner) + "]", Write(rest));
  }

  /** An object written in a text ends at its own closing brace, whatever strings, escapes and brackets are inside and
      whatever follows. */
  lemma ObjectEndsWhereWritten(before: string, inner: Nested, after: string)
    requires Proper(inner)
    ensures var whole := "{" + Write(inner) + "}";
            ObjectEndsAt(before + whole + after, |before|, |before| + |whole|)
  {
    var whole := "{" + Write(inner) + "}";
    var text, open, end := before + whole + after, |before|, |before| + |whole|;
    var st := NestChar(OUTSIDE, '{');
    NestedReturns(st, inner);
    forall i | open < i <= end ensures i < end ==> NestAt(text, open, i).depth > 0
                               ensures i == end ==> NestAt(text, open, i).depth == 0
    {
      NestAtIsText(text, open, i);
      assert text[open..i] == whole[..i - open];
      ObjectPrefix(inner, i - open);
    }
  }

  lemma ObjectPrefix(inner: Nested, k: nat)
    requires Proper(inner) && 0 < k <= |Write(inner)| + 2
    ensures var whole := "{" + Write(inner) + "}";
            && (k < |whole| ==> NestText(OUTSIDE, whole[..k]).depth > 0)
            && (k == |whole| ==> NestText(OUTSIDE, whole[..k]).depth == 0)
  {
    var whole, st := "{" + Write(inner) + "}", NestChar(OUTSIDE, '{');
    NestedReturns(st, inner);
    NestOne(OUTSIDE, '{');
    if k < |whole| {
      assert whole[..k] == ['{'] + Write(inner)[..k - 1];
      NestConcat(OUTSIDE, ['{'], Write(inner)[..k - 1]);
    } else {
      assert whole[..k] == (['{'] + Write(inner)) + ['}'];
      NestConcat(OUTSIDE, ['{'] + Write(inner), ['}']);
      NestConcat(OUTSIDE, ['{'], Write(inner));
      NestOne(st, '}');
    }
  }

  /** So a written object that begins with its tool key, outside code, is what the scan reads there. */
  lemma WrittenObjectIsRead(s: Source, before: string, inner: Nested, after: string, rest: Nested, call: Call)
    requires inner == Quoted([Char('t'), Char('o'), Char('o'), Char('l')], rest) && Proper(inner)
    requires s.text == before + ("{" + Write(inner) + "}") + after
    requires s.parseCall("{" + Write(inner) + "}") == Some(call) && !CodeRanges.Inside(|before| + 1, s.code)
    ensures IsBareCall(s, Block(call, |before|, |before| + |Write(inner)| + 2))
    ensures forall blocks :: Settled(s, |before| + 1, blocks) ==> Covered(|before|, blocks)
  {
    var whole := "{" + Write(inner) + "}";
    ObjectEndsWhereWritten(before, inner, after);
    assert s.text[|before|..|before| + |whole|] == whole;
    KeyAfterBrace(s.text, before, inner, rest, after);
    assert OpensAt(s, |before| + 1, |before|);
  }

  lemma KeyAfterBrace(text: string, before: string, inner: Nested, rest: Nested, after: string)
    requires inner == Quoted([Char('t'), Char('o'), Char('o'), Char('l')], rest)
    requires text == before + ("{" + Write(inner) + "}") + after
    ensures OccursAt(text, "\"tool\"", |before| + 1) && FindLast(text, '{', |before| + 1) == Some(|before|)
  {
    KeyLiteral();
    var tail := Write(rest) + "}" + after;
    assert text == before + ("{" + ("\"tool\"" + tail));
    var h := |before| + 1;
    assert text[h..h + 6] == "\"tool\"";
    assert text[|before|] == '{';
  }

  lemma KeyLiteral()
    ensures Literal([Char('t'), Char('o'), Char('o'), Char('l')]) == "\"tool\""
  {
    var o, l := [Char('o'), Char('l')], [Char('l')];
    assert [Char('t'), Char('o'), Char('o'), Char('l')][1..] == [Char('o'), Char('o'), Char('l')];
    assert [Char('o'), Char('o'), Char('l')][1..] == o && o[1..] == l && l[1..] == [];
    assert WriteUnits(l) == "l" && WriteUnits(o) == "ol";
    assert WriteUnits([Char('o'), Char('o'), Char('l')]) == "ool";
    assert WriteUnits([Char('t'), Char('o'), Char('o'), Char('l')]) == "tool";
  }
}
