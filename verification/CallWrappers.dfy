/** Peeling `<tool_call>` tags and whitespace off the text around tool calls. */
module CallWrappers {
  import opened Text
  import opened ToolBlocks

  predicate HasPrefix(s: string, t: string) { t <= s }

  predicate HasSuffix(s: string, t: string) { |t| <= |s| && s[|s| - |t|..] == t }

  function StripFront(v: string): (w: string)
    decreases |v|
  {
    if HasPrefix(v, CALL_OPEN) then TrimShortens(v[|CALL_OPEN|..]); StripFront(Trim(v[|CALL_OPEN|..]))
    else if HasPrefix(v, CALL_CLOSE) then TrimShortens(v[|CALL_CLOSE|..]); StripFront(Trim(v[|CALL_CLOSE|..]))
    else v
  }

  function StripBack(v: string): (w: string)
    decreases |v|
  {
    if HasSuffix(v, CALL_OPEN) then TrimShortens(v[..|v| - |CALL_OPEN|]); StripBack(Trim(v[..|v| - |CALL_OPEN|]))
    else if HasSuffix(v, CALL_CLOSE) then TrimShortens(v[..|v| - |CALL_CLOSE|]); StripBack(Trim(v[..|v| - |CALL_CLOSE|]))
    else v
  }

  function Unwrap(s: string): string {
    StripBack(StripFront(Trim(s)))
  }

  method TrimFront(v: string) returns (value: string)
    ensures value == StripFront(v)
  {
    value := v;
    while HasPrefix(value, CALL_OPEN) || HasPrefix(value, CALL_CLOSE)
      invariant StripFront(value) == StripFront(v)
      decreases |value|
    {
      if HasPrefix(value, CALL_OPEN) {
        TrimShortens(value[|CALL_OPEN|..]);
        value := Trim(value[|CALL_OPEN|..]);
      } else {
        TrimShortens(value[|CALL_CLOSE|..]);
        value := Trim(value[|CALL_CLOSE|..]);
      }
    }
  }

  method TrimBack(v: string) returns (value: string)
    ensures value == StripBack(v)
  {
    value := v;
    while HasSuffix(value, CALL_OPEN) || HasSuffix(value, CALL_CLOSE)
      invariant StripBack(value) == StripBack(v)
      decreases |value|
    {
      if HasSuffix(value, CALL_OPEN) {
        TrimShortens(value[..|value| - |CALL_OPEN|]);
        value := Trim(value[..|value| - |CALL_OPEN|]);
      } else {
        TrimShortens(value[..|value| - |CALL_CLOSE|]);
        value := Trim(value[..|value| - |CALL_CLOSE|]);
      }
    }
  }

  method TrimToolCallWrappers(s: string) returns (value: string)
    ensures value == Unwrap(s)
  {
    value := TrimFront(Trim(s));
    value := TrimBack(value);
  }

  /** Nothing but whitespace and wrapper tags. */
  ghost predicate Wrapping(s: string)
    decreases |s|
  {
    || s == []
    || (IsWhitespace(s[0]) && Wrapping(s[1..]))
    || ("<tool_call>" <= s && Wrapping(s[11..]))
    || ("</tool_call>" <= s && Wrapping(s[12..]))
  }

  predicate IsTag(tag: string) {
    tag == "<tool_call>" || tag == "</tool_call>"
  }

  lemma TagThenWrapping(tag: string, rest: string)
    requires IsTag(tag) && Wrapping(rest)
    ensures Wrapping(tag + rest)
  {
    assert (tag + rest)[|tag|..] == rest;
    assert HasPrefix(tag + rest, tag);
  }

  lemma WhitespaceThenWrapping(c: char, rest: string)
    requires IsWhitespace(c) && Wrapping(rest)
    ensures Wrapping([c] + rest)
  {
    assert ([c] + rest)[1..] == rest;
  }

  lemma CutFront(a: string, n: nat, b: string)
    requires n <= |a|
    ensures a + b == a[..n] + (a[n..] + b)
  {
  }

  /** Wrapping is a whitespace character or a tag, then wrapping. */
  lemma WrappingFirst(a: string) returns (n: nat)
    requires Wrapping(a) && a != []
    ensures 0 < n <= |a| && Wrapping(a[n..])
    ensures IsTag(a[..n]) || (n == 1 && IsWhitespace(a[0]))
  {
    if IsWhitespace(a[0]) && Wrapping(a[1..]) {
      n := 1;
    } else if HasPrefix(a, CALL_OPEN) && Wrapping(a[|CALL_OPEN|..]) {
      n := |CALL_OPEN|;
    } else {
      n := |CALL_CLOSE|;
    }
  }

  lemma {:induction false} WrappingConcat(a: string, b: string)
    requires Wrapping(a) && Wrapping(b)
    ensures Wrapping(a + b)
    decreases |a|
  {
    if a == [] {
      assert a + b == b;
    } else {
      var n := WrappingFirst(a);
      WrappingConcat(a[n..], b);
      CutFront(a, n, b);
      if IsTag(a[..n]) {
        TagThenWrapping(a[..n], a[n..] + b);
      } else {
        assert a[..n] == [a[0]];
        WhitespaceThenWrapping(a[0], a[n..] + b);
      }
    }
  }

  /** `v` is `s` without wrapping at its two ends. */
  ghost predicate Peels(s: string, v: string) {
    exists a, b :: s == a + v + b && Wrapping(a) && Wrapping(b)
  }

  lemma PeelsBy(s: string, a: string, v: string, b: string)
    requires s == a + v + b && Wrapping(a) && Wrapping(b)
    ensures Peels(s, v)
  {
  }

  lemma Regroup(a: string, c: string, w: string, d: string, b: string)
    ensures a + (c + w + d) + b == (a + c) + w + (d + b)
  {
  }

  lemma PeelsTwice(s: string, v: string, w: string)
    requires Peels(s, v) && Peels(v, w)
    ensures Peels(s, w)
  {
    var a, b :| s == a + v + b && Wrapping(a) && Wrapping(b);
    var c, d :| v == c + w + d && Wrapping(c) && Wrapping(d);
    WrappingConcat(a, c);
    WrappingConcat(d, b);
    Regroup(a, c, w, d, b);
    PeelsBy(s, a + c, w, d + b);
  }

  lemma {:induction false} TrimStartPeels(s: string)
    ensures Peels(s, TrimStart(s)) && |TrimStart(s)| <= |s|
    ensures TrimStart(s) != [] ==> !IsWhitespace(TrimStart(s)[0])
  {
    if s != [] && IsWhitespace(s[0]) {
      TrimStartPeels(s[1..]);
      assert [s[0]][1..] == [];
      assert Wrapping([s[0]]);
      assert s == [s[0]] + s[1..] + [];
      PeelsBy(s, [s[0]], s[1..], []);
      PeelsTwice(s, s[1..], TrimStart(s));
    } else {
      assert s == [] + s + [];
      PeelsBy(s, [], s, []);
    }
  }

  lemma {:induction false} TrimEndPeels(s: string)
    ensures Peels(s, TrimEnd(s))
  {
    if s != [] && IsWhitespace(s[|s| - 1]) {
      var n := |s| - 1;
      TrimEndPeels(s[..n]);
      assert [s[n]][1..] == [];
      assert Wrapping([s[n]]);
      assert s == [] + s[..n] + [s[n]];
      PeelsBy(s, [], s[..n], [s[n]]);
      PeelsTwice(s, s[..n], TrimEnd(s));
    } else {
      assert s == [] + s + [];
      PeelsBy(s, [], s, []);
    }
  }

  lemma {:induction false} TrimEndIsPrefix(s: string)
    ensures TrimEnd(s) <= s
    ensures TrimEnd(s) != [] ==> !IsWhitespace(TrimEnd(s)[|TrimEnd(s)| - 1])
  {
    if s != [] && IsWhitespace(s[|s| - 1]) {
      TrimEndIsPrefix(s[..|s| - 1]);
    }
  }

  lemma TrimShortens(s: string)
    ensures |Trim(s)| <= |s|
  {
    TrimStartPeels(s);
    TrimEndIsPrefix(TrimStart(s));
  }

  lemma TrimPeels(s: string)
    ensures Peels(s, Trim(s))
    ensures Trim(s) != [] ==> !IsWhitespace(Trim(s)[0]) && !IsWhitespace(Trim(s)[|Trim(s)| - 1])
  {
    TrimStartPeels(s);
    TrimEndPeels(TrimStart(s));
    TrimEndIsPrefix(TrimStart(s));
    PeelsTwice(s, TrimStart(s), Trim(s));
  }

  ghost predicate CleanFront(v: string) {
    v != [] ==> !IsWhitespace(v[0]) && !("<tool_call>" <= v) && !("</tool_call>" <= v)
  }

  ghost predicate CleanBack(v: string) {
    v != [] ==> !IsWhitespace(v[|v| - 1]) && !HasSuffix(v, CALL_OPEN) && !HasSuffix(v, CALL_CLOSE)
  }

  ghost predicate Trimmed(v: string) {
    v != [] ==> !IsWhitespace(v[0]) && !IsWhitespace(v[|v| - 1])
  }

  lemma TagIsWrapping(tag: string)
    requires IsTag(tag)
    ensures Wrapping(tag)
  {
    assert tag[|tag|..] == [];
    assert HasPrefix(tag, tag);
  }

  lemma {:induction false} StripFrontPeels(v: string)
    requires Trimmed(v)
    ensures Peels(v, StripFront(v)) && CleanFront(StripFront(v)) && Trimmed(StripFront(v))
    decreases |v|
  {
    if HasPrefix(v, CALL_OPEN) || HasPrefix(v, CALL_CLOSE) {
      var tag := if HasPrefix(v, CALL_OPEN) then CALL_OPEN else CALL_CLOSE;
      var rest := v[|tag|..];
      TagIsWrapping(tag);
      assert v == tag + rest + [];
      PeelsBy(v, tag, rest, []);
      TrimPeels(rest);
      TrimShortens(rest);
      PeelsTwice(v, rest, Trim(rest));
      StripFrontPeels(Trim(rest));
      PeelsTwice(v, Trim(rest), StripFront(v));
    } else {
      assert v == [] + v + [];
      PeelsBy(v, [], v, []);
    }
  }

  lemma {:induction false} StripBackPeels(v: string)
    requires Trimmed(v) && CleanFront(v)
    ensures Peels(v, StripBack(v)) && CleanFront(StripBack(v)) && CleanBack(StripBack(v))
    decreases |v|
  {
    if HasSuffix(v, CALL_OPEN) || HasSuffix(v, CALL_CLOSE) {
      var tag := if HasSuffix(v, CALL_OPEN) then CALL_OPEN else CALL_CLOSE;
      var rest := v[..|v| - |tag|];
      TagIsWrapping(tag);
      assert v == [] + rest + tag;
      PeelsBy(v, [], rest, tag);
      TrimPeels(rest);
      TrimShortens(rest);
      PeelsTwice(v, rest, Trim(rest));
      PrefixStaysClean(v, rest);
      StripBackPeels(Trim(rest));
      PeelsTwice(v, Trim(rest), StripBack(v));
    } else {
      assert v == [] + v + [];
      PeelsBy(v, [], v, []);
    }
  }

  lemma PrefixStaysClean(v: string, rest: string)
    requires CleanFront(v) && rest <= v
    ensures CleanFront(Trim(rest))
  {
    assert rest != [] ==> rest[0] == v[0];
    assert TrimStart(rest) == rest;
    TrimEndIsPrefix(rest);
    var t := Trim(rest);
    if t != [] {
      assert t <= v && t[0] == v[0];
    }
  }

  /** The unwrapped text is the original minus whitespace and wrapper tags at its ends, as many as there are. */
  lemma UnwrapPeels(s: string)
    ensures Peels(s, Unwrap(s)) && CleanFront(Unwrap(s)) && CleanBack(Unwrap(s))
  {
    TrimPeels(s);
    StripFrontPeels(Trim(s));
    StripBackPeels(StripFront(Trim(s)));
    PeelsTwice(s, Trim(s), StripFront(Trim(s)));
    PeelsTwice(s, StripFront(Trim(s)), Unwrap(s));
  }

  // ----- nothing but wrapping ---------------------------------------------------------------------------

  lemma WrappingHead(s: string)
    requires Wrapping(s) && s != []
    ensures IsWhitespace(s[0]) ==> Wrapping(s[1..])
    ensures !IsWhitespace(s[0]) ==>
              || (HasPrefix(s, CALL_OPEN) && Wrapping(s[|CALL_OPEN|..]))
              || (HasPrefix(s, CALL_CLOSE) && Wrapping(s[|CALL_CLOSE|..]))
  {
    assert HasPrefix(s, CALL_OPEN) || HasPrefix(s, CALL_CLOSE) ==> s[0] == '<';
  }

  lemma {:induction false} TrimStartKeepsWrapping(s: string)
    requires Wrapping(s)
    ensures Wrapping(TrimStart(s))
  {
    if s != [] && IsWhitespace(s[0]) {
      WrappingHead(s);
      TrimStartKeepsWrapping(s[1..]);
    }
  }

  lemma {:induction false} DropLastWhitespace(s: string)
    requires Wrapping(s) && s != [] && IsWhitespace(s[|s| - 1])
    ensures Wrapping(s[..|s| - 1])
    decreases |s|
  {
    WrappingHead(s);
    if IsWhitespace(s[0]) {
      if |s| > 1 {
        DropLastWhitespace(s[1..]);
        WhitespaceFirst(s);
      }
    } else {
      var tag := if HasPrefix(s, CALL_OPEN) && Wrapping(s[|CALL_OPEN|..]) then CALL_OPEN else CALL_CLOSE;
      var rest := s[|tag|..];
      assert s == tag + rest;
      assert s[|tag| - 1] == '>';
      DropLastWhitespace(rest);
      TagThenWrapping(tag, rest[..|rest| - 1]);
      assert s[..|s| - 1] == tag + rest[..|rest| - 1];
    }
  }

  lemma WhitespaceFirst(s: string)
    requires |s| > 1 && IsWhitespace(s[0]) && Wrapping(s[1..][..|s| - 2])
    ensures Wrapping(s[..|s| - 1])
  {
    assert s[..|s| - 1][1..] == s[1..][..|s| - 2];
  }

  lemma {:induction false} TrimEndKeepsWrapping(s: string)
    requires Wrapping(s)
    ensures Wrapping(TrimEnd(s))
  {
    if s != [] && IsWhitespace(s[|s| - 1]) {
      DropLastWhitespace(s);
      TrimEndKeepsWrapping(s[..|s| - 1]);
    }
  }

  lemma TrimKeepsWrapping(s: string)
    requires Wrapping(s)
    ensures Wrapping(Trim(s))
  {
    TrimStartKeepsWrapping(s);
    TrimEndKeepsWrapping(TrimStart(s));
  }

  lemma {:induction false} WrappingStripsAway(v: string)
    requires Wrapping(v) && Trimmed(v)
    ensures StripFront(v) == []
    decreases |v|
  {
    if v != [] {
      WrappingHead(v);
      WrappingAfterTag(v);
      var rest := v[if HasPrefix(v, CALL_OPEN) then |CALL_OPEN| else |CALL_CLOSE|..];
      TrimKeepsWrapping(rest);
      TrimPeels(rest);
      TrimShortens(rest);
      WrappingStripsAway(Trim(rest));
    }
  }

  /** Only one of the two tags can be in front. */
  lemma WrappingAfterTag(v: string)
    requires Wrapping(v) && v != [] && !IsWhitespace(v[0])
    ensures HasPrefix(v, CALL_OPEN) || HasPrefix(v, CALL_CLOSE)
    ensures Wrapping(v[if HasPrefix(v, CALL_OPEN) then |CALL_OPEN| else |CALL_CLOSE|..])
  {
    WrappingHead(v);
    assert !(HasPrefix(v, CALL_OPEN) && HasPrefix(v, CALL_CLOSE)) by {
      assert CALL_OPEN[1] != CALL_CLOSE[1];
      assert HasPrefix(v, CALL_OPEN) ==> v[1] == CALL_OPEN[1];
      assert HasPrefix(v, CALL_CLOSE) ==> v[1] == CALL_CLOSE[1];
    }
  }

  lemma PeelsToWrapping(s: string, v: string)
    requires Peels(s, v) && Wrapping(v)
    ensures Wrapping(s)
  {
    var a, b :| s == a + v + b && Wrapping(a) && Wrapping(b);
    WrappingConcat(a, v);
    WrappingConcat(a + v, b);
  }

  /** The unwrapped text is empty exactly when the text was nothing but whitespace and wrapper tags. */
  lemma UnwrapsToNothing(s: string)
    ensures Unwrap(s) == [] <==> Wrapping(s)
  {
    if Wrapping(s) {
      TrimKeepsWrapping(s);
      TrimPeels(s);
      WrappingStripsAway(Trim(s));
    } else {
      UnwrapPeels(s);
      if Unwrap(s) == [] {
        PeelsToWrapping(s, []);
      }
    }
  }
}
