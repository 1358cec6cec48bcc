/** Trailing-comma removal and bracket balancing of malformed JSON. */
module JsonRepair {
  import opened Sequences

  /** Scanner state: inside a string, just after a backslash in it, and the closers owed, innermost last. */
  datatype Scan = Scan(inString: bool, escape: bool, closers: string)

  const CLEAN := Scan(false, false, [])

  /** String escapes follow section 7 of RFC 8259: a backslash takes the next character with it. */
  function ScanChar(st: Scan, c: char): Scan {
    if st.inString then
      if st.escape then st.(escape := false)
      else if c == '\\' then st.(escape := true)
      else if c == '\"' then st.(inString := false)
      else st
    else if c == '\"' then st.(inString := true)
    else if c == '{' then st.(closers := st.closers + ['}'])
    else if c == '[' then st.(closers := st.closers + [']'])
    else if (c == '}' || c == ']') && st.closers != [] && Last(st.closers) == c then st.(closers := Front(st.closers))
    else st
  }

  function ScanText(st: Scan, text: string): Scan {
    if text == [] then st else ScanChar(ScanText(st, Front(text)), Last(text))
  }

  lemma {:induction false} ScanConcat(st: Scan, a: string, b: string)
    ensures ScanText(st, a + b) == ScanText(ScanText(st, a), b)
  {
    if b == [] {
      assert a + b == a;
    } else {
      FrontConcat(a, b);
      ScanConcat(st, a, Front(b));
    }
  }

  lemma {:induction false} EscapeOnlyInString(text: string)
    ensures ScanText(CLEAN, text).escape ==> ScanText(CLEAN, text).inString
  {
    if text != [] {
      EscapeOnlyInString(Front(text));
    }
  }

  // ----- pass 2: trailing commas ---------------------------------------------------------------

  predicate IsAsciiWhitespace(c: char) {
    c == ' ' || c == '\t' || c == '\n' || c == '\r' || c == '\U{0C}'
  }

  predicate IsCloser(c: char) {
    c == '}' || c == ']'
  }

  /** Only whitespace separates `from` from a closer. */
  ghost predicate CloserFollows(text: string, from: nat) {
    exists k :: from <= k < |text| && IsCloser(text[k]) && forall j :: from <= j < k ==> IsAsciiWhitespace(text[j])
  }

  ghost predicate TrailingComma(text: string, i: nat)
    requires i < |text|
  {
    text[i] == ',' && !ScanText(CLEAN, text[..i]).inString && CloserFollows(text, i + 1)
  }

  /** The first `n` characters without their trailing commas. */
  ghost function WithoutTrailingCommas(text: string, n: nat): string
    requires n <= |text|
  {
    if n == 0 then []
    else WithoutTrailingCommas(text, n - 1) + if TrailingComma(text, n - 1) then [] else [text[n - 1]]
  }

  method RemoveTrailingCommas(text: string) returns (cleaned: string)
    ensures cleaned == WithoutTrailingCommas(text, |text|)
  {
    cleaned := [];
    var i := 0;
    var inString, escapeNext := false, false;
    while i < |text|
      invariant 0 <= i <= |text|
      invariant cleaned == WithoutTrailingCommas(text, i)
      invariant inString == ScanText(CLEAN, text[..i]).inString
      invariant escapeNext == ScanText(CLEAN, text[..i]).escape
    {
      var b := text[i];
      FrontPrefix(text, i);
      EscapeOnlyInString(text[..i]);
      if inString {
        cleaned := cleaned + [b];
        if escapeNext {
          escapeNext := false;
        } else if b == '\\' {
          escapeNext := true;
        } else if b == '\"' {
          inString := false;
        }
        i := i + 1;
        continue;
      }
      if b == '\"' {
        inString := true;
        cleaned := cleaned + [b];
        i := i + 1;
        continue;
      }
      if b == ',' {
        var closes := LooksAtCloser(text, i + 1);
        if closes {
          i := i + 1;
          continue;
        }
      }
      cleaned := cleaned + [b];
      i := i + 1;
    }
  }

  method LooksAtCloser(text: string, from: nat) returns (closes: bool)
    requires from <= |text|
    ensures closes <==> CloserFollows(text, from)
  {
    var j := from;
    while j < |text| && IsAsciiWhitespace(text[j])
      invariant from <= j <= |text|
      invariant forall k :: from <= k < j ==> IsAsciiWhitespace(text[k])
    {
      j := j + 1;
    }
    closes := j < |text| && IsCloser(text[j]);
  }

  /** Removing trailing commas leaves the string state and the closers owed as they were, at every cut. */
  lemma {:induction false} CommasDoNotMatter(text: string, n: nat)
    requires n <= |text|
    ensures ScanText(CLEAN, WithoutTrailingCommas(text, n)) == ScanText(CLEAN, text[..n])
  {
    if n > 0 {
      CommasDoNotMatter(text, n - 1);
      var kept := WithoutTrailingCommas(text, n - 1);
      FrontPrefix(text, n - 1);
      if TrailingComma(text, n - 1) {
        EscapeOnlyInString(text[..n - 1]);
        assert kept + [] == kept;
      } else {
        FrontAppend(kept, text[n - 1]);
      }
    }
  }

  function DropCommas(s: string): string {
    if s == [] then [] else DropCommas(Front(s)) + if Last(s) == ',' then [] else [Last(s)]
  }

  /** Nothing but commas disappears and nothing is reordered. */
  lemma {:induction false} OnlyCommasGo(text: string, n: nat)
    requires n <= |text|
    ensures DropCommas(WithoutTrailingCommas(text, n)) == DropCommas(text[..n])
  {
    if n > 0 {
      OnlyCommasGo(text, n - 1);
      var kept := WithoutTrailingCommas(text, n - 1);
      FrontPrefix(text, n - 1);
      if TrailingComma(text, n - 1) {
        assert kept + [] == kept;
      } else {
        FrontAppend(kept, text[n - 1]);
      }
    }
  }

  // ----- when trailing commas remain ---------------------------------------------------------------

  lemma CloserFollowsStep(text: string, i: nat)
    requires i <= |text|
    ensures CloserFollows(text, i) <==>
            i < |text| && (IsCloser(text[i]) || (IsAsciiWhitespace(text[i]) && CloserFollows(text, i + 1)))
  {
    if i < |text| && IsAsciiWhitespace(text[i]) && CloserFollows(text, i + 1) {
      var k :| i + 1 <= k < |text| && IsCloser(text[k]) && forall j :: i + 1 <= j < k ==> IsAsciiWhitespace(text[j]);
      assert forall j :: i <= j < k ==> IsAsciiWhitespace(text[j]);
    }
  }

  /** Where character `i` of the text, if kept, lands in the cleaned text. */
  ghost function Landing(text: string, i: nat): nat
    requires i <= |text|
  {
    |WithoutTrailingCommas(text, i)|
  }

  lemma {:induction false} CleanedPrefix(text: string, i: nat, n: nat)
    requires i <= n <= |text|
    ensures WithoutTrailingCommas(text, i) <= WithoutTrailingCommas(text, n)
  {
    if i < n {
      CleanedPrefix(text, i, n - 1);
    }
  }

  lemma Lands(text: string, i: nat)
    requires i < |text|
    ensures Landing(text, i + 1) == Landing(text, i) + if TrailingComma(text, i) then 0 else 1
    ensures var cleaned := WithoutTrailingCommas(text, |text|);
            && Landing(text, i + 1) <= |cleaned| && cleaned[..Landing(text, i)] == WithoutTrailingCommas(text, i)
            && (!TrailingComma(text, i) ==> cleaned[Landing(text, i)] == text[i])
  {
    CleanedPrefix(text, i, |text|);
    CleanedPrefix(text, i + 1, |text|);
  }

  /** Skipping whitespace and the commas that go, a closer follows. */
  ghost predicate Reaches(text: string, i: nat)
    requires i <= |text|
    decreases |text| - i
  {
    i < |text| && (IsCloser(text[i]) || ((IsAsciiWhitespace(text[i]) || TrailingComma(text, i)) && Reaches(text, i + 1)))
  }

  lemma {:induction false} CloserFollowsInCleaned(text: string, i: nat)
    requires i <= |text|
    ensures CloserFollows(WithoutTrailingCommas(text, |text|), Landing(text, i)) <==> Reaches(text, i)
    decreases |text| - i
  {
    if i < |text| {
      CloserFollowsInCleaned(text, i + 1);
      Lands(text, i);
      CloserFollowsStep(WithoutTrailingCommas(text, |text|), Landing(text, i));
    }
  }

  /** A comma outside strings that only whitespace separates from a trailing comma. */
  ghost predicate DoubledAt(text: string, i: nat)
    requires i < |text|
  {
    text[i] == ',' && !ScanText(CLEAN, text[..i]).inString && CommaFollows(text, i + 1)
  }

  ghost predicate CommaFollows(text: string, from: nat)
    requires from <= |text|
    decreases |text| - from
  {
    from < |text| && (TrailingComma(text, from) || (IsAsciiWhitespace(text[from]) && CommaFollows(text, from + 1)))
  }

  lemma {:induction false} CloserReaches(text: string, i: nat)
    requires i <= |text|
    ensures CloserFollows(text, i) ==> Reaches(text, i)
    decreases |text| - i
  {
    CloserFollowsStep(text, i);
    if i < |text| {
      CloserReaches(text, i + 1);
    }
  }

  /** Only a trailing comma in between makes the difference. */
  lemma {:induction false} ReachesPastComma(text: string, i: nat)
    requires i <= |text|
    ensures Reaches(text, i) && !CloserFollows(text, i) <==> CommaFollows(text, i)
    decreases |text| - i
  {
    CloserFollowsStep(text, i);
    if i < |text| {
      ReachesPastComma(text, i + 1);
      CloserReaches(text, i + 1);
    }
  }

  /** Character `i` of the text is a comma that is kept and trails in the cleaned text exactly when it is doubled. */
  lemma KeptCommaTrails(text: string, i: nat)
    requires i < |text|
    ensures Landing(text, i) <= |WithoutTrailingCommas(text, |text|)|
    ensures DoubledAt(text, i) <==>
            !TrailingComma(text, i) && Landing(text, i) < |WithoutTrailingCommas(text, |text|)|
            && TrailingComma(WithoutTrailingCommas(text, |text|), Landing(text, i))
  {
    Lands(text, i);
    CommasDoNotMatter(text, i);
    ReachesPastComma(text, i + 1);
    CloserFollowsInCleaned(text, i + 1);
  }

  /** Every character of the cleaned text is a kept one of the text. */
  lemma {:induction false} LandsOn(text: string, n: nat, q: nat) returns (i: nat)
    requires n <= |text| && q < |WithoutTrailingCommas(text, n)|
    ensures i < n && Landing(text, i) == q && !TrailingComma(text, i)
  {
    if q == Landing(text, n - 1) {
      i := n - 1;
    } else {
      i := LandsOn(text, n - 1, q);
    }
  }

  ghost predicate HasTrailingComma(text: string) {
    exists q: nat :: q < |text| && TrailingComma(text, q)
  }

  /** Cleaning leaves no trailing comma exactly when no comma of the text is doubled. */
  lemma CleanedExactly(text: string)
    ensures HasTrailingComma(WithoutTrailingCommas(text, |text|)) <==> exists i: nat :: i < |text| && DoubledAt(text, i)
  {
    var cleaned := WithoutTrailingCommas(text, |text|);
    if HasTrailingComma(cleaned) {
      var q: nat :| q < |cleaned| && TrailingComma(cleaned, q);
      var i := LandsOn(text, |text|, q);
      KeptCommaTrails(text, i);
    }
    if i: nat :| i < |text| && DoubledAt(text, i) {
      KeptCommaTrails(text, i);
    }
  }

  lemma {:induction false} QuoteFree(text: string)
    requires '\"' !in text
    ensures !ScanText(CLEAN, text).inString
  {
    if text != [] {
      QuoteFree(Front(text));
    }
  }

  lemma DoubledBeforeCloser(text: string, i: nat)
    requires '\"' !in text && i + 2 < |text| && text[i] == text[i + 1] == ',' && IsCloser(text[i + 2])
    ensures DoubledAt(text, i)
  {
    QuoteFree(text[..i]);
    QuoteFree(text[..i + 1]);
    assert CloserFollows(text, i + 2);
    assert TrailingComma(text, i + 1);
  }

  /** One of two commas stays and then trails. */
  lemma DoubledCommaStays()
    ensures HasTrailingComma(WithoutTrailingCommas("[,,]", 4))
  {
    DoubledBeforeCloser("[,,]", 1);
    CleanedExactly("[,,]");
  }

  // ----- pass 3: balancing ------------------------------------------------------------------------

  function Reversed(s: string): string {
    if s == [] then [] else [Last(s)] + Reversed(Front(s))
  }

  /** What the repair appends. */
  function Closing(st: Scan): string {
    (if st.inString then ['\"'] else []) + Reversed(st.closers)
  }

  method ScanBrackets(cleaned: string) returns (inString: bool, escapeNext: bool, stack: string)
    ensures Scan(inString, escapeNext, stack) == ScanText(CLEAN, cleaned)
  {
    stack := [];
    inString, escapeNext := false, false;
    for i := 0 to |cleaned|
      invariant Scan(inString, escapeNext, stack) == ScanText(CLEAN, cleaned[..i])
    {
      var ch := cleaned[i];
      FrontPrefix(cleaned, i);
      if inString {
        if escapeNext {
          escapeNext := false;
        } else if ch == '\\' {
          escapeNext := true;
        } else if ch == '\"' {
          inString := false;
        }
        continue;
      }
      if ch == '\"' {
        inString := true;
      } else if ch == '{' {
        stack := stack + ['}'];
      } else if ch == '[' {
        stack := stack + [']'];
      } else if (ch == '}' || ch == ']') && stack != [] && stack[|stack| - 1] == ch {
        stack := stack[..|stack| - 1];
      }
    }
    assert cleaned[..|cleaned|] == cleaned;
  }

  lemma AppendCloser(closed: string, stack: string)
    requires stack != []
    ensures closed + Reversed(stack) == closed + [Last(stack)] + Reversed(Front(stack))
  {
  }

  method AppendClosers(text: string, owed: string) returns (closed: string)
    ensures closed == text + Reversed(owed)
  {
    closed := text;
    var stack := owed;
    while stack != []
      invariant closed + Reversed(stack) == text + Reversed(owed)
      decreases |stack|
    {
      AppendCloser(closed, stack);
      closed := closed + [stack[|stack| - 1]];
      stack := stack[..|stack| - 1];
    }
  }

  method CloseBrackets(cleaned: string) returns (closed: string)
    ensures closed == cleaned + Closing(ScanText(CLEAN, cleaned))
  {
    var inString, escapeNext, stack := ScanBrackets(cleaned);
    closed := cleaned;
    if inString {
      closed := closed + ['\"'];
    }
    closed := AppendClosers(closed, stack);
  }

  lemma {:induction false} ScanTwo(st: Scan, c: char, rest: string)
    ensures ScanText(st, [c] + rest) == ScanText(ScanChar(st, c), rest)
  {
    ScanConcat(st, [c], rest);
    assert Front([c]) == [];
    assert ScanText(st, [c]) == ScanChar(st, c);
  }

  ghost predicate OwesClosers(st: Scan) {
    forall c :: c in st.closers ==> IsCloser(c)
  }

  lemma {:induction false} ScanOwesClosers(text: string)
    ensures OwesClosers(ScanText(CLEAN, text))
  {
    if text != [] {
      ScanOwesClosers(Front(text));
    }
  }

  lemma {:induction false} ClosersClose(st: Scan)
    requires !st.inString && OwesClosers(st)
    ensures ScanText(st, Reversed(st.closers)) == st.(closers := [])
    decreases |st.closers|
  {
    if st.closers != [] {
      var next := ScanChar(st, Last(st.closers));
      assert Last(st.closers) in st.closers;
      assert next == st.(closers := Front(st.closers));
      ScanTwo(st, Last(st.closers), Reversed(Front(st.closers)));
      ClosersClose(next);
    }
  }

  lemma {:induction false} ClosersInsideString(st: Scan, rest: string)
    requires st.inString && forall c :: c in rest ==> IsCloser(c)
    ensures ScanText(st, rest).inString
  {
    if rest != [] {
      assert Last(rest) in rest;
      ClosersInsideString(st, Front(rest));
    }
  }

  lemma {:induction false} ReversedElements(s: string)
    ensures forall c :: c in Reversed(s) <==> c in s
    ensures |Reversed(s)| == |s|
  {
    if s != [] {
      ReversedElements(Front(s));
      assert s == Front(s) + [Last(s)];
    }
  }

  /** The balanced text scans to "outside a string, nothing owed" exactly when the input does not end on a
      dangling backslash inside a string. */
  lemma BalancedScansClean(cleaned: string)
    ensures ScanText(CLEAN, cleaned + Closing(ScanText(CLEAN, cleaned))) == CLEAN
            <==> !ScanText(CLEAN, cleaned).escape
  {
    var st := ScanText(CLEAN, cleaned);
    var tail := Reversed(st.closers);
    ScanConcat(CLEAN, cleaned, Closing(st));
    ScanOwesClosers(cleaned);
    EscapeOnlyInString(cleaned);
    ReversedElements(st.closers);
    if st.inString {
      ScanTwo(st, '\"', tail);
      if st.escape {
        ClosersInsideString(ScanChar(st, '\"'), tail);
      } else {
        ClosersClose(ScanChar(st, '\"'));
      }
    } else {
      assert Closing(st) == tail;
      ClosersClose(st);
    }
  }

  /** A text where balancing fails: the appended quote is taken by the dangling backslash. */
  lemma DanglingEscapeFails()
    ensures ScanText(CLEAN, "\"\\" + Closing(ScanText(CLEAN, "\"\\"))) != CLEAN
  {
    assert Front("\"\\") == "\"" && Front("\"") == "";
    BalancedScansClean("\"\\");
  }

  /** One for an open string and one for each closer owed. */
  function Debt(st: Scan): nat {
    |st.closers| + if st.inString then 1 else 0
  }

  lemma {:induction false} DebtFallsSlowly(st: Scan, suffix: string)
    ensures Debt(ScanText(st, suffix)) >= Debt(st) - |suffix|
  {
    if suffix != [] {
      DebtFallsSlowly(st, Front(suffix));
    }
  }

  /** No shorter suffix closes the text. */
  lemma ClosingIsShortest(cleaned: string, suffix: string)
    requires ScanText(CLEAN, cleaned + suffix) == CLEAN
    ensures |Closing(ScanText(CLEAN, cleaned))| <= |suffix|
  {
    var st := ScanText(CLEAN, cleaned);
    ScanConcat(CLEAN, cleaned, suffix);
    DebtFallsSlowly(st, suffix);
    ReversedElements(st.closers);
  }

  /** Both passes together: commas go, brackets close, and what was in strings stays there. */
  lemma RepairScansClean(text: string)
    requires !ScanText(CLEAN, text).escape
    ensures var cleaned := WithoutTrailingCommas(text, |text|);
            && Closing(ScanText(CLEAN, cleaned)) == Closing(ScanText(CLEAN, text))
            && ScanText(CLEAN, cleaned + Closing(ScanText(CLEAN, cleaned))) == CLEAN
  {
    CommasDoNotMatter(text, |text|);
    assert text[..|text|] == text;
    BalancedScansClean(WithoutTrailingCommas(text, |text|));
  }
}
