/** The repair passes on well-nested texts and their beginnings. */
module RepairNesting {
  import opened Sequences
  import opened NestedText
  import opened JsonRepair

  // ----- the scan on well-nested texts ------------------------------------------------------------------------

  ghost predicate Outside(st: Scan) {
    !st.inString && !st.escape
  }

  lemma ScanOne(st: Scan, c: char)
    ensures ScanText(st, [c]) == ScanChar(st, c)
  {
    assert Front([c]) == [];
  }

  lemma ScanUnit(st: Scan, u: Unit)
    requires st.inString && !st.escape && ProperUnits([u])
    ensures ScanText(st, WriteUnit(u)) == st
  {
    assert [u][0] == u;
    if u.Char? {
      ScanOne(st, u.c);
    } else {
      ScanTwo(st, '\\', [u.c]);
      assert WriteUnit(u) == ['\\'] + [u.c];
      ScanOne(ScanChar(st, '\\'), u.c);
    }
  }

  lemma {:induction false} ScanUnits(st: Scan, units: seq<Unit>)
    requires st.inString && !st.escape && ProperUnits(units)
    ensures ScanText(st, WriteUnits(units)) == st
  {
    if units != [] {
      ScanUnit(st, units[0]);
      ScanUnits(st, units[1..]);
      ScanConcat(st, WriteUnit(units[0]), WriteUnits(units[1..]));
    }
  }

  lemma ScanLiteral(st: Scan, units: seq<Unit>)
    requires Outside(st) && ProperUnits(units)
    ensures ScanText(st, Literal(units)) == st
  {
    var body := WriteUnits(units);
    assert Literal(units) == ['\"'] + (body + ['\"']);
    ScanTwo(st, '\"', body + ['\"']);
    ScanConcat(ScanChar(st, '\"'), body, ['\"']);
    ScanUnits(ScanChar(st, '\"'), units);
    ScanOne(ScanChar(st, '\"'), '\"');
  }

  lemma ScanBracketed(st: Scan, open: char, inner: string, close: char)
    requires Outside(st) && ((open == '{' && close == '}') || (open == '[' && close == ']'))
    requires ScanText(ScanChar(st, open), inner) == ScanChar(st, open)
    ensures ScanText(st, [open] + inner + [close]) == st
  {
    assert [open] + inner + [close] == [open] + (inner + [close]);
    ScanTwo(st, open, inner + [close]);
    ScanConcat(ScanChar(st, open), inner, [close]);
    ScanOne(ScanChar(st, open), close);
    FrontAppend(st.closers, close);
  }

  lemma {:induction false} ScanNested(st: Scan, n: Nested)
    requires Outside(st) && Proper(n)
    ensures ScanText(st, Write(n)) == st
    decreases n
  {
    match n
    case Nothing =>
    case Other(c, rest) =>
      ScanNested(st, rest);
      ScanTwo(st, c, Write(rest));
    case Quoted(units, rest) =>
      ScanLiteral(st, units);
      ScanNested(st, rest);
      ScanConcat(st, Literal(units), Write(rest));
    case Braces(inner, rest) =>
      ScanNested(ScanChar(st, '{'), inner);
      ScanBracketed(st, '{', Write(inner), '}');
      ScanNested(st, rest);
      ScanConcat(st, "{" + Write(inner) + "}", Write(rest));
    case Brackets(inner, rest) =>
      ScanNested(ScanChar(st, '['), inner);
      ScanBracketed(st, '[', Write(inner), ']');
      ScanNested(st, rest);
      ScanConcat(st, "[" + Write(inner) + "]", Write(rest));
  }

  // ----- closing the beginning of a well-nested text ------------------------------------------------------------

  lemma ReversedCons(c: char, s: string)
    ensures Reversed([c] + s) == Reversed(s) + [c]
    decreases |s|
  {
    if s == [] {
      assert Front([c]) == [] && [c] + s == [c];
    } else {
      FrontConcat([c], s);
      ReversedCons(c, Front(s));
    }
  }

  /** What closing appends after the closers already owed. */
  function Tail(st: Scan, own: string): string {
    (if st.inString then ['\"'] else []) + Reversed(own)
  }

  lemma TakeHead(h: string, rest: string, k: nat)
    requires k <= |h| + |rest|
    ensures k >= |h| ==> (h + rest)[..k] == h + rest[..k - |h|]
    ensures k <= |h| ==> (h + rest)[..k] == h[..k]
  {
  }

  lemma {:induction false} CutUnits(st: Scan, units: seq<Unit>, k: nat) returns (kept: seq<Unit>)
    requires st.inString && !st.escape && ProperUnits(units) && k <= |WriteUnits(units)|
    ensures var u := ScanText(st, WriteUnits(units)[..k]);
            && u.inString && u.closers == st.closers && (u.escape <==> UnitsCut(units, k))
            && (!u.escape ==> WriteUnits(kept) == WriteUnits(units)[..k] && ProperUnits(kept))
    decreases |units|
  {
    kept := [];
    if k > 0 {
      var head, rest := WriteUnit(units[0]), WriteUnits(units[1..]);
      TakeHead(head, rest, k);
      if k >= |head| {
        var more := CutUnits(st, units[1..], k - |head|);
        kept := [units[0]] + more;
        ScanUnit(st, units[0]);
        ScanConcat(st, head, rest[..k - |head|]);
        assert kept[1..] == more;
      } else {
        assert head[..k] == ['\\'];
        ScanOne(st, '\\');
      }
    }
  }

  /** A well-nested text cut after `k` characters: what is owed, and the well-nested text that closing gives. */
  ghost predicate Closes(st: Scan, n: Nested, k: nat, own: string, m: Nested)
    requires k <= |Write(n)|
  {
    var u := ScanText(st, Write(n)[..k]);
    && u.closers == st.closers + own && (u.escape <==> EndsInEscape(n, k))
    && (!u.escape ==> Proper(m) && Write(m) == Write(n)[..k] + Tail(u, own))
  }

  lemma CutNowhere(st: Scan, n: Nested)
    requires Outside(st)
    ensures Closes(st, n, 0, "", Nothing) <==> !EndsInEscape(n, 0)
    ensures !EndsInEscape(n, 0)
  {
    assert Write(n)[..0] == "";
    assert st.closers + "" == st.closers;
  }

  /** Past a complete head the cut is in the rest. */
  lemma CutLater(st: Scan, head: string, n: Nested, rest: Nested, k: nat, own: string, m: Nested, whole: Nested)
    requires Outside(st) && ScanText(st, head) == st && |head| <= k <= |Write(n)| && Write(n) == head + Write(rest)
    requires Closes(st, rest, k - |head|, own, m) && (EndsInEscape(n, k) <==> EndsInEscape(rest, k - |head|))
    requires Write(whole) == head + Write(m) && (Proper(m) ==> Proper(whole))
    ensures Closes(st, n, k, own, whole)
  {
    TakeHead(head, Write(rest), k);
    ScanConcat(st, head, Write(rest)[..k - |head|]);
    var u := ScanText(st, Write(n)[..k]);
    HeadThenTail(head, Write(rest)[..k - |head|], Tail(u, own));
  }

  lemma HeadThenTail(head: string, cut: string, tail: string)
    ensures head + (cut + tail) == (head + cut) + tail
  {
  }

  lemma TailOuter(u: Scan, own: string, close: char)
    ensures Tail(u, [close] + own) == (if u.inString then ['\"'] else []) + (Reversed(own) + [close])
  {
    ReversedCons(close, own);
  }

  lemma CutInBracketsScan(st: Scan, open: char, close: char, text: string, inner: string, rest: string, k: nat)
    requires text == ([open] + inner + [close]) + rest && 0 < k <= |inner| + 1
    ensures text[..k] == [open] + inner[..k - 1]
    ensures ScanText(st, text[..k]) == ScanText(ScanChar(st, open), inner[..k - 1])
  {
    CutBracketText(open, close, inner, rest, k);
    ScanTwo(st, open, inner[..k - 1]);
  }

  /** Inside brackets the closer of these brackets is owed last. */
  lemma CutInBrackets(st: Scan, open: char, close: char, n: Nested, inner: Nested, rest: Nested, k: nat,
                      own: string, m: Nested, whole: Nested)
    requires Outside(st) && ScanChar(st, open).closers == st.closers + [close]
    requires Write(n) == ([open] + Write(inner) + [close]) + Write(rest) && 0 < k <= |Write(inner)| + 1
    requires Closes(ScanChar(st, open), inner, k - 1, own, m) && (EndsInEscape(n, k) <==> EndsInEscape(inner, k - 1))
    requires Write(whole) == [open] + Write(m) + [close] && (Proper(m) ==> Proper(whole))
    ensures Closes(st, n, k, [close] + own, whole)
  {
    var cut := Write(inner)[..k - 1];
    CutInBracketsScan(st, open, close, Write(n), Write(inner), Write(rest), k);
    var u := ScanText(st, Write(n)[..k]);
    OweOuter(st.closers, close, own);
    TailOuter(u, own, close);
    BracketTail(open, cut, if u.inString then ['\"'] else [], Reversed(own), close);
  }

  lemma OweOuter(closers: string, close: char, own: string)
    ensures (closers + [close]) + own == closers + ([close] + own)
  {
  }

  lemma CutBracketText(open: char, close: char, inner: string, rest: string, k: nat)
    requires 0 < k <= |inner| + 1
    ensures (([open] + inner + [close]) + rest)[..k] == [open] + inner[..k - 1]
  {
  }

  lemma BracketTail(open: char, cut: string, quote: string, owed: string, close: char)
    ensures [open] + (cut + (quote + owed)) + [close] == ([open] + cut) + (quote + (owed + [close]))
  {
  }

  lemma CutInLiteral(st: Scan, n: Nested, units: seq<Unit>, rest: Nested, k: nat) returns (m: Nested)
    requires Outside(st) && Proper(n) && n == Quoted(units, rest) && 0 < k < |Literal(units)|
    ensures Closes(st, n, k, "", m)
  {
    var body := WriteUnits(units);
    var kept := CutUnits(ScanChar(st, '\"'), units, k - 1);
    m := Quoted(kept, Nothing);
    CutBracketText('\"', '\"', body, Write(rest), k);
    assert Literal(units) == ['\"'] + body + ['\"'];
    ScanTwo(st, '\"', body[..k - 1]);
    assert Reversed("") == "" && st.closers + "" == st.closers;
    assert Write(m) == Literal(kept);
    assert Literal(kept) == (['\"'] + WriteUnits(kept)) + ['\"'];
    assert ['\"'] + "" == ['\"'];
  }

  lemma BracesWritten(n: Nested, k: nat, m: Nested)
    requires n.Braces? && 0 < k < |Write(n.inner)| + 2
    ensures k <= |Write(n)| && Write(n) == (['{'] + Write(n.inner) + ['}']) + Write(n.rest)
    ensures EndsInEscape(n, k) <==> EndsInEscape(n.inner, k - 1)
    ensures Write(Braces(m, Nothing)) == ['{'] + Write(m) + ['}'] && (Proper(m) ==> Proper(Braces(m, Nothing)))
  {
    WriteAlone("{", m, "}");
  }

  lemma BracketsWritten(n: Nested, k: nat, m: Nested)
    requires n.Brackets? && 0 < k < |Write(n.inner)| + 2
    ensures k <= |Write(n)| && Write(n) == (['['] + Write(n.inner) + [']']) + Write(n.rest)
    ensures EndsInEscape(n, k) <==> EndsInEscape(n.inner, k - 1)
    ensures Write(Brackets(m, Nothing)) == ['['] + Write(m) + [']'] && (Proper(m) ==> Proper(Brackets(m, Nothing)))
  {
    WriteAlone("[", m, "]");
  }

  lemma CutBraces(st: Scan, n: Nested, k: nat, own: string, m: Nested)
    requires Outside(st) && n.Braces? && 0 < k < |Write(n.inner)| + 2
    requires Closes(ScanChar(st, '{'), n.inner, k - 1, own, m)
    ensures k <= |Write(n)| && Closes(st, n, k, ['}'] + own, Braces(m, Nothing))
  {
    BracesWritten(n, k, m);
    CutInBrackets(st, '{', '}', n, n.inner, n.rest, k, own, m, Braces(m, Nothing));
  }

  lemma CutBrackets(st: Scan, n: Nested, k: nat, own: string, m: Nested)
    requires Outside(st) && n.Brackets? && 0 < k < |Write(n.inner)| + 2
    requires Closes(ScanChar(st, '['), n.inner, k - 1, own, m)
    ensures k <= |Write(n)| && Closes(st, n, k, [']'] + own, Brackets(m, Nothing))
  {
    BracketsWritten(n, k, m);
    CutInBrackets(st, '[', ']', n, n.inner, n.rest, k, own, m, Brackets(m, Nothing));
  }

  lemma CutPastBraces(st: Scan, n: Nested, k: nat, own: string, m: Nested)
    requires Outside(st) && Proper(n) && n.Braces? && |Write(n.inner)| + 2 <= k <= |Write(n)|
    requires Closes(st, n.rest, k - |Write(n.inner)| - 2, own, m)
    ensures Closes(st, n, k, own, Braces(n.inner, m))
  {
    ScanNested(ScanChar(st, '{'), n.inner);
    ScanBracketed(st, '{', Write(n.inner), '}');
    CutLater(st, "{" + Write(n.inner) + "}", n, n.rest, k, own, m, Braces(n.inner, m));
  }

  lemma CutPastBrackets(st: Scan, n: Nested, k: nat, own: string, m: Nested)
    requires Outside(st) && Proper(n) && n.Brackets? && |Write(n.inner)| + 2 <= k <= |Write(n)|
    requires Closes(st, n.rest, k - |Write(n.inner)| - 2, own, m)
    ensures Closes(st, n, k, own, Brackets(n.inner, m))
  {
    ScanNested(ScanChar(st, '['), n.inner);
    ScanBracketed(st, '[', Write(n.inner), ']');
    CutLater(st, "[" + Write(n.inner) + "]", n, n.rest, k, own, m, Brackets(n.inner, m));
  }

  lemma CutPastOther(st: Scan, n: Nested, k: nat, own: string, m: Nested)
    requires Outside(st) && Proper(n) && n.Other? && 0 < k <= |Write(n)| && Closes(st, n.rest, k - 1, own, m)
    ensures Closes(st, n, k, own, Other(n.c, m))
  {
    ScanOne(st, n.c);
    CutLater(st, [n.c], n, n.rest, k, own, m, Other(n.c, m));
  }

  lemma CutPastLiteral(st: Scan, n: Nested, k: nat, own: string, m: Nested)
    requires Outside(st) && Proper(n) && n.Quoted? && |Literal(n.units)| <= k <= |Write(n)|
    requires Closes(st, n.rest, k - |Literal(n.units)|, own, m)
    ensures Closes(st, n, k, own, Quoted(n.units, m))
  {
    ScanLiteral(st, n.units);
    CutLater(st, Literal(n.units), n, n.rest, k, own, m, Quoted(n.units, m));
  }

  lemma {:induction false} CutCloses(st: Scan, n: Nested, k: nat) returns (own: string, m: Nested)
    requires Outside(st) && Proper(n) && k <= |Write(n)|
    ensures Closes(st, n, k, own, m)
    decreases n
  {
    if k == 0 {
      CutNowhere(st, n);
      return "", Nothing;
    }
    match n
    case Other(c, rest) =>
      own, m := CutCloses(st, rest, k - 1);
      CutPastOther(st, n, k, own, m);
      m := Other(c, m);
    case Quoted(units, rest) =>
      if k >= |Literal(units)| {
        own, m := CutCloses(st, rest, k - |Literal(units)|);
        CutPastLiteral(st, n, k, own, m);
        m := Quoted(units, m);
      } else {
        own := "";
        m := CutInLiteral(st, n, units, rest, k);
      }
    case Braces(inner, rest) =>
      if k >= |Write(inner)| + 2 {
        own, m := CutCloses(st, rest, k - |Write(inner)| - 2);
        CutPastBraces(st, n, k, own, m);
        m := Braces(inner, m);
      } else {
        own, m := CutCloses(ScanChar(st, '{'), inner, k - 1);
        CutBraces(st, n, k, own, m);
        own, m := ['}'] + own, Braces(m, Nothing);
      }
    case Brackets(inner, rest) =>
      if k >= |Write(inner)| + 2 {
        own, m := CutCloses(st, rest, k - |Write(inner)| - 2);
        CutPastBrackets(st, n, k, own, m);
        m := Brackets(inner, m);
      } else {
        own, m := CutCloses(ScanChar(st, '['), inner, k - 1);
        CutBrackets(st, n, k, own, m);
        own, m := [']'] + own, Brackets(m, Nothing);
      }
  }

  lemma WriteAlone(open: string, m: Nested, close: string)
    ensures (open + Write(m) + close) + "" == open + Write(m) + close
  {
  }

  /** What the balancing pass makes of a text. */
  function Closed(cleaned: string): string {
    cleaned + Closing(ScanText(CLEAN, cleaned))
  }

  /** A text that some suffix makes well nested is closed to a well-nested text exactly when it does not end on a
      backslash parted from the character it takes. */
  lemma ClosesToNested(n: Nested, k: nat)
    requires Proper(n) && k <= |Write(n)|
    ensures WellNested(Closed(Write(n)[..k])) <==> !EndsInEscape(n, k)
  {
    var cleaned := Write(n)[..k];
    var own, m := CutCloses(CLEAN, n, k);
    assert "" + own == own;
    BalancedScansClean(cleaned);
    if WellNested(Closed(cleaned)) {
      var w :| Proper(w) && Write(w) == Closed(cleaned);
      ScanNested(CLEAN, w);
    }
  }

  /** A well-nested text is left as it is. */
  lemma NestedStaysClosed(n: Nested)
    requires Proper(n)
    ensures Closed(Write(n)) == Write(n)
  {
    ScanNested(CLEAN, n);
    assert Write(n) + "" == Write(n);
  }

  // ----- trailing commas in well-nested texts ---------------------------------------------------------------------

  predicate OnlySpace(n: Nested) {
    n.Nothing? || (n.Other? && n.c in {' ', '\t', '\n', '\r', '\U{0C}'} && OnlySpace(n.rest))
  }

  /** Drops every comma that only whitespace separates from the end of the brackets it is in. */
  function Strip(n: Nested, bracketed: bool): Nested {
    match n
    case Nothing => Nothing
    case Other(c, rest) =>
      if c == ',' && bracketed && OnlySpace(rest) then Strip(rest, bracketed) else Other(c, Strip(rest, bracketed))
    case Quoted(units, rest) => Quoted(units, Strip(rest, bracketed))
    case Braces(inner, rest) => Braces(Strip(inner, true), Strip(rest, bracketed))
    case Brackets(inner, rest) => Brackets(Strip(inner, true), Strip(rest, bracketed))
  }

  /** After whitespace a closer comes. */
  predicate CloserComes(s: string) {
    s != [] && (IsCloser(s[0]) || (IsAsciiWhitespace(s[0]) && CloserComes(s[1..])))
  }

  /** What the pass keeps of `s`, read from state `st` with `after` still to come. */
  function Kept(st: Scan, s: string, after: string): string
    decreases |s|
  {
    if s == [] then ""
    else (if s[0] == ',' && !st.inString && CloserComes(s[1..] + after) then "" else [s[0]])
         + Kept(ScanChar(st, s[0]), s[1..], after)
  }

  lemma {:induction false} CloserComesAt(text: string, i: nat)
    requires i <= |text|
    ensures CloserFollows(text, i) <==> CloserComes(text[i..])
    decreases |text| - i
  {
    CloserFollowsStep(text, i);
    if i < |text| {
      CloserComesAt(text, i + 1);
      assert text[i..][0] == text[i] && text[i..][1..] == text[i + 1..];
    }
  }

  lemma {:induction false} KeptFrom(text: string, i: nat)
    requires i <= |text|
    ensures WithoutTrailingCommas(text, |text|) ==
            WithoutTrailingCommas(text, i) + Kept(ScanText(CLEAN, text[..i]), text[i..], "")
    decreases |text| - i
  {
    if i < |text| {
      KeptFrom(text, i + 1);
      KeptStep(text, i);
      Regroup(WithoutTrailingCommas(text, i), if TrailingComma(text, i) then "" else [text[i]],
              Kept(ScanText(CLEAN, text[..i + 1]), text[i + 1..], ""));
    } else {
      assert text[i..] == "";
    }
  }

  lemma KeptStep(text: string, i: nat)
    requires i < |text|
    ensures Kept(ScanText(CLEAN, text[..i]), text[i..], "") ==
            (if TrailingComma(text, i) then "" else [text[i]]) + Kept(ScanText(CLEAN, text[..i + 1]), text[i + 1..], "")
  {
    FrontPrefix(text, i);
    CloserComesAt(text, i + 1);
    assert text[i..][0] == text[i] && text[i..][1..] == text[i + 1..];
    assert text[i + 1..] + "" == text[i + 1..];
  }

  lemma Regroup(a: string, b: string, c: string)
    ensures (a + b) + c == a + (b + c)
  {
  }

  lemma {:induction false} KeptConcat(st: Scan, s: string, t: string, after: string)
    ensures Kept(st, s + t, after) == Kept(st, s, t + after) + Kept(ScanText(st, s), t, after)
    decreases |s|
  {
    if s == [] {
      assert s + t == t;
    } else {
      var c, rest := s[0], s[1..];
      KeptConcat(ScanChar(st, c), rest, t, after);
      assert (s + t)[0] == c && (s + t)[1..] == rest + t && s == [c] + rest;
      ScanTwo(st, c, rest);
      Regroup(rest, t, after);
      Regroup(if c == ',' && !st.inString && CloserComes(rest + (t + after)) then "" else [c],
              Kept(ScanChar(st, c), rest, t + after), Kept(ScanText(st, s), t, after));
    }
  }

  lemma KeptOne(st: Scan, c: char, after: string)
    ensures Kept(st, [c], after) == if c == ',' && !st.inString && CloserComes(after) then "" else [c]
  {
    assert [c][1..] == "" && "" + after == after;
  }

  /** Inside a string everything is kept. */
  lemma KeptUnit(st: Scan, u: Unit, after: string)
    requires st.inString && !st.escape && ProperUnits([u])
    ensures Kept(st, WriteUnit(u), after) == WriteUnit(u)
  {
    assert [u][0] == u;
    if u.Char? {
      KeptOne(st, u.c, after);
    } else {
      assert WriteUnit(u) == ['\\'] + [u.c];
      KeptConcat(st, ['\\'], [u.c], after);
      KeptOne(st, '\\', [u.c] + after);
      ScanOne(st, '\\');
      KeptOne(ScanChar(st, '\\'), u.c, after);
    }
  }

  lemma {:induction false} KeptUnits(st: Scan, units: seq<Unit>, after: string)
    requires st.inString && !st.escape && ProperUnits(units)
    ensures Kept(st, WriteUnits(units), after) == WriteUnits(units)
  {
    if units != [] {
      KeptUnits(st, units[1..], after);
      KeptConcat(st, WriteUnit(units[0]), WriteUnits(units[1..]), after);
      KeptUnit(st, units[0], WriteUnits(units[1..]) + after);
      ScanUnit(st, units[0]);
    }
  }

  lemma KeptLiteral(st: Scan, units: seq<Unit>, after: string)
    requires Outside(st) && ProperUnits(units)
    ensures Kept(st, Literal(units), after) == Literal(units)
  {
    var body := WriteUnits(units);
    assert Literal(units) == (['\"'] + body) + ['\"'];
    KeptConcat(st, ['\"'] + body, ['\"'], after);
    KeptConcat(st, ['\"'], body, ['\"'] + after);
    KeptOne(st, '\"', body + (['\"'] + after));
    ScanOne(st, '\"');
    KeptUnits(ScanChar(st, '\"'), units, ['\"'] + after);
    KeptOne(ScanText(st, ['\"'] + body), '\"', after);
  }

  /** What comes after the text: a closer if it is in brackets, and otherwise nothing. */
  predicate Follows(after: string, bracketed: bool) {
    if bracketed then after != [] && IsCloser(after[0]) else after == []
  }

  lemma {:induction false} CloserAfter(n: Nested, after: string, bracketed: bool)
    requires Proper(n) && Follows(after, bracketed)
    ensures CloserComes(Write(n) + after) <==> bracketed && OnlySpace(n)
  {
    if n.Other? {
      CloserAfter(n.rest, after, bracketed);
      assert (Write(n) + after)[0] == n.c && (Write(n) + after)[1..] == Write(n.rest) + after;
    } else if n.Nothing? {
      assert Write(n) + after == after;
    } else {
      assert (Write(n) + after)[0] == Write(n)[0];
    }
  }

  lemma KeptBracketed(st: Scan, open: char, inner: Nested, close: char, after: string)
    requires Outside(st) && Proper(inner) && ((open == '{' && close == '}') || (open == '[' && close == ']'))
    requires Kept(ScanChar(st, open), Write(inner), [close] + after) == Write(Strip(inner, true))
    ensures Kept(st, [open] + Write(inner) + [close], after) == [open] + Write(Strip(inner, true)) + [close]
  {
    KeptConcat(st, [open] + Write(inner), [close], after);
    KeptConcat(st, [open], Write(inner), [close] + after);
    KeptOne(st, open, Write(inner) + ([close] + after));
    ScanOne(st, open);
    KeptOne(ScanText(st, [open] + Write(inner)), close, after);
  }

  /** On a well-nested text the pass drops exactly the commas before the end of the brackets they are in, and keeps every
      string as it is. */
  lemma {:induction false} KeptIsStrip(st: Scan, n: Nested, after: string, bracketed: bool)
    requires Outside(st) && Proper(n) && Follows(after, bracketed)
    ensures Kept(st, Write(n), after) == Write(Strip(n, bracketed))
    decreases n
  {
    match n
    case Nothing =>
    case Other(c, rest) =>
      KeptIsStrip(st, rest, after, bracketed);
      KeptConcat(st, [c], Write(rest), after);
      KeptOne(st, c, Write(rest) + after);
      ScanOne(st, c);
      CloserAfter(rest, after, bracketed);
    case Quoted(units, rest) =>
      KeptIsStrip(st, rest, after, bracketed);
      KeptConcat(st, Literal(units), Write(rest), after);
      KeptLiteral(st, units, Write(rest) + after);
      ScanLiteral(st, units);
    case Braces(inner, rest) =>
      KeptIsStrip(st, rest, after, bracketed);
      KeptIsStrip(ScanChar(st, '{'), inner, "}" + (Write(rest) + after), true);
      KeptBracketed(st, '{', inner, '}', Write(rest) + after);
      KeptConcat(st, "{" + Write(inner) + "}", Write(rest), after);
      ScanNested(ScanChar(st, '{'), inner);
      ScanBracketed(st, '{', Write(inner), '}');
    case Brackets(inner, rest) =>
      KeptIsStrip(st, rest, after, bracketed);
      KeptIsStrip(ScanChar(st, '['), inner, "]" + (Write(rest) + after), true);
      KeptBracketed(st, '[', inner, ']', Write(rest) + after);
      KeptConcat(st, "[" + Write(inner) + "]", Write(rest), after);
      ScanNested(ScanChar(st, '['), inner);
      ScanBracketed(st, '[', Write(inner), ']');
  }

  /** On every well-nested text the pass is `Strip`. */
  lemma StripsNested(n: Nested)
    requires Proper(n)
    ensures WithoutTrailingCommas(Write(n), |Write(n)|) == Write(Strip(n, false))
  {
    var text := Write(n);
    KeptFrom(text, 0);
    assert text[0..] == text && text[..0] == "";
    KeptIsStrip(CLEAN, n, "", false);
    assert "" + Write(Strip(n, false)) == Write(Strip(n, false));
  }
}
