/** How much of a value its canonical text tells: on plain values everything but the order of object members. */
module CanonicalText {
  import opened Ordering
  import opened Json

  predicate IsNumberChar(c: char) {
    '0' <= c <= '9' || c == '-' || c == '+' || c == '.' || c == 'e' || c == 'E'
  }

  /** A number as JSON writes it begins with a digit or a minus sign. */
  predicate IsNumberText(t: string) {
    t != [] && ('0' <= t[0] <= '9' || t[0] == '-') && forall c :: c in t ==> IsNumberChar(c)
  }

  /** Numbers are numbers, and no string or key holds a quote. */
  ghost predicate Plain(v: Value) {
    match v
    case Number(t) => IsNumberText(t)
    case Text(s) => '\"' !in s
    case Array(items) => forall i :: 0 <= i < |items| ==> Plain(items[i])
    case Object(fields) =>
      DistinctKeys(fields) && forall i :: 0 <= i < |fields| ==> '\"' !in fields[i].key && Plain(fields[i].value)
    case _ => true
  }

  /** What can follow a value inside a canonical text. */
  predicate Delimited(x: string) {
    x == [] || x[0] == ',' || x[0] == ']' || x[0] == '}'
  }

  // ----- texts ------------------------------------------------------------------------------------------

  lemma SameHead(h: string, x: string, y: string)
    requires h + x == h + y
    ensures x == y
  {
    assert (h + x)[|h|..] == x && (h + y)[|h|..] == y;
  }

  lemma HeadOf(h: string, x: string)
    requires h != []
    ensures (h + x)[0] == h[0]
  {
  }

  /** Two heads from one alphabet, each followed by something outside it, are one head. */
  lemma SameRun(s: string, x: string, t: string, y: string, inside: char -> bool)
    requires s + x == t + y && (forall c :: c in s ==> inside(c)) && (forall c :: c in t ==> inside(c))
    requires (x == [] || !inside(x[0])) && (y == [] || !inside(y[0]))
    ensures s == t && x == y
  {
    var whole := s + x;
    assert forall i :: 0 <= i < |s| ==> whole[i] == s[i] && s[i] in s;
    assert forall i :: 0 <= i < |t| ==> whole[i] == t[i] && t[i] in t;
    assert x != [] ==> whole[|s|] == x[0];
    assert y != [] ==> whole[|t|] == y[0];
    assert |s| == |t|;
    assert whole[..|s|] == s && whole[..|t|] == t && whole[|s|..] == x && whole[|t|..] == y;
  }

  lemma SameQuoted(s: string, x: string, t: string, y: string)
    requires s + "\"" + x == t + "\"" + y && '\"' !in s && '\"' !in t
    ensures s == t && x == y
  {
    assert s + ("\"" + x) == s + "\"" + x;
    assert t + ("\"" + y) == t + "\"" + y;
    SameRun(s, "\"" + x, t, "\"" + y, (c: char) => c != '\"');
    SameHead("\"", x, y);
  }

  // ----- the first character tells the kind -----------------------------------------------------------------

  function Opener(v: Value): char {
    match v
    case Null => 'n'
    case Bool(b) => if b then 't' else 'f'
    case Number(t) => if t == [] then '0' else t[0]
    case Text(_) => '\"'
    case Array(_) => '['
    case Object(_) => '{'
  }

  lemma OpensWith(v: Value, x: string)
    requires Plain(v)
    ensures Canonicalize(v) != [] && (Canonicalize(v) + x)[0] == Opener(v)
  {
    HeadOf(Canonicalize(v), x);
  }

  lemma SameKind(a: Value, b: Value)
    requires Plain(a) && Plain(b) && Opener(a) == Opener(b)
    ensures a.Null? == b.Null? && a.Bool? == b.Bool? && a.Number? == b.Number?
    ensures a.Text? == b.Text? && a.Array? == b.Array? && a.Object? == b.Object?
  {
  }

  // ----- items and members ----------------------------------------------------------------------------------

  /** The canonical text of items `k` on, the closing bracket, and what follows. */
  ghost function ItemsFrom(items: seq<Value>, k: nat, x: string): string
    requires k <= |items|
  {
    Join(CanonicalItems(items[k..])) + "]" + x
  }

  /** What follows an item. */
  ghost function AfterItem(items: seq<Value>, k: nat, x: string): string
    requires k <= |items|
  {
    if k == |items| then "]" + x else "," + ItemsFrom(items, k, x)
  }

  lemma JoinCons(t: string, rest: seq<string>)
    ensures Join([t] + rest) == t + if rest == [] then "" else "," + Join(rest)
  {
    assert ([t] + rest)[1..] == rest;
  }

  lemma Reassociate(t: string, rest: string, close: string, x: string)
    ensures (t + ("," + rest)) + close + x == t + ("," + (rest + close + x))
    ensures (t + "") + close + x == t + (close + x)
  {
  }

  lemma ItemsSplit(items: seq<Value>, k: nat, x: string)
    requires k < |items|
    ensures ItemsFrom(items, k, x) == Canonicalize(items[k]) + AfterItem(items, k + 1, x)
  {
    var t, rest := Canonicalize(items[k]), CanonicalItems(items[k + 1..]);
    assert items[k..][0] == items[k] && items[k..][1..] == items[k + 1..];
    assert CanonicalItems(items[k..]) == [t] + rest;
    JoinCons(t, rest);
    Reassociate(t, Join(rest), "]", x);
  }

  ghost function MembersFrom(fields: seq<Field>, k: nat, x: string): string
    requires k <= |fields|
  {
    Join(Members(CanonicalFields(fields[k..]))) + "}" + x
  }

  ghost function AfterMember(fields: seq<Field>, k: nat, x: string): string
    requires k <= |fields|
  {
    if k == |fields| then "}" + x else "," + MembersFrom(fields, k, x)
  }

  lemma MembersSplit(fields: seq<Field>, k: nat, x: string)
    requires k < |fields|
    ensures MembersFrom(fields, k, x) ==
            ("\"" + fields[k].key + "\":" + Canonicalize(fields[k].value)) + AfterMember(fields, k + 1, x)
  {
    var t, rest := "\"" + fields[k].key + "\":" + Canonicalize(fields[k].value), Members(CanonicalFields(fields[k + 1..]));
    assert fields[k..][0] == fields[k] && fields[k..][1..] == fields[k + 1..];
    var texts := CanonicalFields(fields[k..]);
    assert texts == [(fields[k].key, Canonicalize(fields[k].value))] + CanonicalFields(fields[k + 1..]);
    assert texts[1..] == CanonicalFields(fields[k + 1..]);
    assert Members(texts) == [t] + rest;
    JoinCons(t, rest);
    MembersEmpty(CanonicalFields(fields[k + 1..]));
    Reassociate(t, Join(rest), "}", x);
  }

  lemma MembersEmpty(texts: seq<(string, string)>)
    ensures Members(texts) == [] <==> texts == []
  {
  }

  // ----- sorted fields --------------------------------------------------------------------------------------

  function InsertField(f: Field, sorted: seq<Field>): seq<Field> {
    if sorted == [] || !CompareText(f.key, sorted[0].key).Greater? then [f] + sorted
    else [sorted[0]] + InsertField(f, sorted[1..])
  }

  function SortFields(fields: seq<Field>): seq<Field> {
    if fields == [] then [] else InsertField(fields[0], SortFields(fields[1..]))
  }

  lemma {:induction false} InsertFieldText(f: Field, sorted: seq<Field>)
    ensures CanonicalFields(InsertField(f, sorted)) == InsertByKey((f.key, Canonicalize(f.value)), CanonicalFields(sorted))
    ensures forall x :: x in InsertField(f, sorted) <==> x == f || x in sorted
  {
    if sorted != [] && CompareText(f.key, sorted[0].key).Greater? {
      InsertFieldText(f, sorted[1..]);
      assert ([sorted[0]] + InsertField(f, sorted[1..]))[1..] == InsertField(f, sorted[1..]);
    } else {
      assert ([f] + sorted)[1..] == sorted;
    }
  }

  lemma {:induction false} SortFieldsText(fields: seq<Field>)
    ensures CanonicalFields(SortFields(fields)) == SortByKey(CanonicalFields(fields))
    ensures forall x :: x in SortFields(fields) <==> x in fields
  {
    if fields != [] {
      SortFieldsText(fields[1..]);
      InsertFieldText(fields[0], SortFields(fields[1..]));
    }
  }

  lemma SortedKeysDistinct(fields: seq<Field>)
    requires DistinctKeys(fields)
    ensures DistinctKeys(SortFields(fields))
  {
    var sorted := SortFields(fields);
    SortFieldsText(fields);
    DistinctTexts(fields);
    SortSorts(CanonicalFields(fields));
    forall i, j | 0 <= i < j < |sorted| ensures sorted[i].key != sorted[j].key {
      CanonicalFieldsAt(sorted, i);
      CanonicalFieldsAt(sorted, j);
      TextTie(sorted[i].key, sorted[j].key);
    }
  }

  /** Fields in some order, taken from the object `a`. */
  ghost predicate FieldsOf(p: seq<Field>, a: Value) {
    a.Object? && DistinctKeys(p) && forall x :: x in p <==> x in a.fields
  }

  lemma SortedFieldsOf(a: Value)
    requires Plain(a) && a.Object?
    ensures FieldsOf(SortFields(a.fields), a)
    ensures Canonicalize(a) == "{" + Join(Members(CanonicalFields(SortFields(a.fields)))) + "}"
  {
    SortFieldsText(a.fields);
    SortedKeysDistinct(a.fields);
  }

  ghost predicate SameMember(f: Field, g: Field) {
    f.key == g.key && SameValue(f.value, g.value)
  }

  lemma SameObject(a: Value, b: Value, p: seq<Field>, q: seq<Field>)
    requires Plain(a) && Plain(b) && FieldsOf(p, a) && FieldsOf(q, b)
    requires |p| == |q| && forall i :: 0 <= i < |p| ==> SameMember(p[i], q[i])
    ensures SameValue(a, b)
  {
    var f, g := a.fields, b.fields;
    forall i, j | 0 <= i < |f| && 0 <= j < |g| && f[i].key == g[j].key ensures SameValue(f[i].value, g[j].value) {
      assert f[i] in p && g[j] in q;
      var m :| 0 <= m < |p| && p[m] == f[i];
      var n :| 0 <= n < |q| && q[n] == g[j];
      assert SameMember(p[n], q[n]);
      assert m == n;
    }
    KeysCarryOver(p, q, f, g);
    KeysCarryOver(q, p, g, f);
  }

  lemma KeysCarryOver(p: seq<Field>, q: seq<Field>, f: seq<Field>, g: seq<Field>)
    requires (forall x :: x in f ==> x in p) && (forall x :: x in q ==> x in g)
    requires |p| == |q| && forall i :: 0 <= i < |p| ==> p[i].key == q[i].key
    ensures Keys(f) <= Keys(g)
  {
    forall k | k in Keys(f) ensures k in Keys(g) {
      var x :| x in f && x.key == k;
      var i :| 0 <= i < |p| && p[i] == x;
      assert q[i] in g;
    }
  }

  // ----- reading a text back ------------------------------------------------------------------------------------

  lemma {:induction false} ReadItems(a: Value, b: Value, k: nat, x: string, y: string)
    requires Plain(a) && Plain(b) && a.Array? && b.Array? && k < |a.items| && k < |b.items|
    requires ItemsFrom(a.items, k, x) == ItemsFrom(b.items, k, y)
    ensures |a.items| == |b.items| && x == y
    ensures forall i :: k <= i < |a.items| ==> SameValue(a.items[i], b.items[i])
    decreases a, |a.items| - k, 0
  {
    var s, t := AfterItem(a.items, k + 1, x), AfterItem(b.items, k + 1, y);
    ItemsSplit(a.items, k, x);
    ItemsSplit(b.items, k, y);
    ReadValue(a.items[k], b.items[k], s, t);
    assert k + 1 == |a.items| <==> s[0] == ']';
    assert k + 1 == |b.items| <==> t[0] == ']';
    if k + 1 == |a.items| {
      SameHead("]", x, y);
    } else {
      SameHead(",", ItemsFrom(a.items, k + 1, x), ItemsFrom(b.items, k + 1, y));
      ReadItems(a, b, k + 1, x, y);
    }
  }

  lemma {:induction false} ReadMembers(a: Value, b: Value, p: seq<Field>, q: seq<Field>, k: nat, x: string, y: string)
    requires Plain(a) && Plain(b) && FieldsOf(p, a) && FieldsOf(q, b) && k < |p| && k < |q|
    requires MembersFrom(p, k, x) == MembersFrom(q, k, y)
    ensures |p| == |q| && x == y
    ensures forall i :: k <= i < |p| ==> SameMember(p[i], q[i])
    decreases a, |p| - k, 0
  {
    var s, t := AfterMember(p, k + 1, x), AfterMember(q, k + 1, y);
    MembersSplit(p, k, x);
    MembersSplit(q, k, y);
    assert p[k] in a.fields && q[k] in b.fields;
    var i :| 0 <= i < |a.fields| && a.fields[i] == p[k];
    var j :| 0 <= j < |b.fields| && b.fields[j] == q[k];
    ReadMember(p[k], q[k], s, t);
    ReadValue(a.fields[i].value, b.fields[j].value, s, t);
    assert k + 1 == |p| <==> s[0] == '}';
    assert k + 1 == |q| <==> t[0] == '}';
    if k + 1 == |p| {
      SameHead("}", x, y);
    } else {
      SameHead(",", MembersFrom(p, k + 1, x), MembersFrom(q, k + 1, y));
      ReadMembers(a, b, p, q, k + 1, x, y);
    }
  }

  /** The key of a member can be read off. */
  lemma ReadMember(f: Field, g: Field, s: string, t: string)
    requires '\"' !in f.key && '\"' !in g.key
    requires ("\"" + f.key + "\":" + Canonicalize(f.value)) + s == ("\"" + g.key + "\":" + Canonicalize(g.value)) + t
    ensures f.key == g.key && Canonicalize(f.value) + s == Canonicalize(g.value) + t
  {
    var u, w := Canonicalize(f.value) + s, Canonicalize(g.value) + t;
    MemberText(f.key, Canonicalize(f.value), s);
    MemberText(g.key, Canonicalize(g.value), t);
    SameHead("\"", f.key + "\"" + (":" + u), g.key + "\"" + (":" + w));
    SameQuoted(f.key, ":" + u, g.key, ":" + w);
    SameHead(":", u, w);
  }

  lemma MemberText(key: string, text: string, s: string)
    ensures ("\"" + key + "\":" + text) + s == "\"" + (key + "\"" + (":" + (text + s)))
  {
  }

  /** Two plain values whose texts, each followed by nothing or a delimiter, agree are the same value. */
  lemma {:induction false} ReadValue(a: Value, b: Value, x: string, y: string)
    requires Plain(a) && Plain(b) && Delimited(x) && Delimited(y) && Canonicalize(a) + x == Canonicalize(b) + y
    ensures SameValue(a, b) && x == y
    decreases a, if a.Array? then |a.items| + 1 else if a.Object? then |a.fields| + 1 else 0
  {
    OpensWith(a, x);
    OpensWith(b, y);
    SameKind(a, b);
    match a
    case Null => SameHead("null", x, y);
    case Bool(flag) => SameHead(Canonicalize(a), x, y);
    case Number(t) => SameRun(t, x, b.text, y, IsNumberChar);
    case Text(s) =>
      QuotedText(s, x);
      QuotedText(b.chars, y);
      SameHead("\"", s + "\"" + x, b.chars + "\"" + y);
      SameQuoted(s, x, b.chars, y);
    case Array(_) => ReadArray(a, b, x, y);
    case Object(_) => ReadObject(a, b, x, y);
  }

  lemma QuotedText(s: string, x: string)
    ensures ("\"" + s + "\"") + x == "\"" + (s + "\"" + x)
  {
  }

  lemma BracketedText(open: string, inner: string, close: string, x: string)
    ensures (open + inner + close) + x == open + (inner + close + x)
  {
  }

  lemma {:induction false} ReadArray(a: Value, b: Value, x: string, y: string)
    requires Plain(a) && Plain(b) && a.Array? && b.Array? && Canonicalize(a) + x == Canonicalize(b) + y
    ensures SameValue(a, b) && x == y
    decreases a, |a.items|, 1
  {
    var s, t := ItemsFrom(a.items, 0, x), ItemsFrom(b.items, 0, y);
    assert a.items[0..] == a.items && b.items[0..] == b.items;
    BracketedText("[", Join(CanonicalItems(a.items)), "]", x);
    BracketedText("[", Join(CanonicalItems(b.items)), "]", y);
    SameHead("[", s, t);
    FirstItem(a, x);
    FirstItem(b, y);
    if a.items == [] {
      SameHead("]", x, y);
    } else {
      ReadItems(a, b, 0, x, y);
    }
  }

  lemma FirstItem(a: Value, x: string)
    requires Plain(a) && a.Array?
    ensures ItemsFrom(a.items, 0, x) != [] && (ItemsFrom(a.items, 0, x)[0] == ']' <==> a.items == [])
    ensures a.items == [] ==> ItemsFrom(a.items, 0, x) == "]" + x
  {
    if a.items != [] {
      ItemsSplit(a.items, 0, x);
      OpensWith(a.items[0], AfterItem(a.items, 1, x));
    }
  }

  lemma {:induction false} ReadObject(a: Value, b: Value, x: string, y: string)
    requires Plain(a) && Plain(b) && a.Object? && b.Object? && Canonicalize(a) + x == Canonicalize(b) + y
    ensures SameValue(a, b) && x == y
    decreases a, |a.fields|, 1
  {
    var p, q := SortFields(a.fields), SortFields(b.fields);
    SortedFieldsOf(a);
    SortedFieldsOf(b);
    SortedLength(a.fields);
    assert p[0..] == p && q[0..] == q;
    BracketedText("{", Join(Members(CanonicalFields(p))), "}", x);
    BracketedText("{", Join(Members(CanonicalFields(q))), "}", y);
    SameHead("{", MembersFrom(p, 0, x), MembersFrom(q, 0, y));
    FirstMember(p, x);
    FirstMember(q, y);
    if p == [] {
      SameHead("}", x, y);
    } else {
      ReadMembers(a, b, p, q, 0, x, y);
    }
    SameObject(a, b, p, q);
  }

  lemma {:induction false} SortedLength(fields: seq<Field>)
    ensures |SortFields(fields)| == |fields|
  {
    if fields != [] {
      SortedLength(fields[1..]);
      InsertedLength(fields[0], SortFields(fields[1..]));
    }
  }

  lemma {:induction false} InsertedLength(f: Field, sorted: seq<Field>)
    ensures |InsertField(f, sorted)| == |sorted| + 1
  {
    if sorted != [] {
      InsertedLength(f, sorted[1..]);
    }
  }

  lemma FirstMember(p: seq<Field>, x: string)
    ensures MembersFrom(p, 0, x) != [] && (MembersFrom(p, 0, x)[0] == '}' <==> p == [])
    ensures p == [] ==> MembersFrom(p, 0, x) == "}" + x
  {
    if p != [] {
      MembersSplit(p, 0, x);
    }
  }

  // ----- the canonical text is faithful -----------------------------------------------------------------------

  /** Plain values have one canonical text exactly when they are the same value up to the order of object members. */
  lemma CanonicalTextDecides(a: Value, b: Value)
    requires Plain(a) && Plain(b)
    ensures Canonicalize(a) == Canonicalize(b) <==> SameValue(a, b)
  {
    if SameValue(a, b) {
      CanonicalTextIgnoresKeyOrder(a, b);
    }
    if Canonicalize(a) == Canonicalize(b) {
      assert Canonicalize(a) + [] == Canonicalize(b) + [];
      ReadValue(a, b, [], []);
    }
  }

  /** Quotes are not escaped, so one string can read like two. */
  lemma UnescapedQuotesCollide()
    ensures Canonicalize(Array([Text("a\",\"b")])) == Canonicalize(Array([Text("a"), Text("b")]))
    ensures !SameValue(Array([Text("a\",\"b")]), Array([Text("a"), Text("b")]))
  {
    assert [Text("a"), Text("b")][1..] == [Text("b")];
    assert Canonicalize(Text("a")) == "\"a\"" && Canonicalize(Text("b")) == "\"b\"";
    assert Canonicalize(Text("a\",\"b")) == "\"a\",\"b\"";
    assert CanonicalItems([Text("b")]) == ["\"b\""];
    assert CanonicalItems([Text("a"), Text("b")]) == ["\"a\"", "\"b\""];
    assert CanonicalItems([Text("a\",\"b")]) == ["\"a\",\"b\""];
    assert ["\"a\"", "\"b\""][1..] == ["\"b\""];
  }
}
