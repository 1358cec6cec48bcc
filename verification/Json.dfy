/** JSON values as the runtime holds them (objects keep insertion order) and the
    canonical text that argument hashes and comparisons are taken from. */
module Json {
  import opened Ordering

  datatype Value =
    | Null
    | Bool(flag: bool)
    | Number(text: string)
    | Text(chars: string)
    | Array(items: seq<Value>)
    | Object(fields: seq<Field>)

  datatype Field = Field(key: string, value: Value)

  function Canonicalize(v: Value): string {
    match v
    case Null => "null"
    case Bool(b) => if b then "true" else "false"
    case Number(t) => t
    case Text(s) => "\"" + s + "\""
    case Array(items) => "[" + Join(CanonicalItems(items)) + "]"
    case Object(fields) => "{" + Join(Members(SortByKey(CanonicalFields(fields)))) + "}"
  }

  function CanonicalItems(items: seq<Value>): (texts: seq<string>)
    ensures |texts| == |items|
  {
    if items == [] then [] else [Canonicalize(items[0])] + CanonicalItems(items[1..])
  }

  function CanonicalFields(fields: seq<Field>): (texts: seq<(string, string)>)
    ensures |texts| == |fields|
  {
    if fields == [] then []
    else [(fields[0].key, Canonicalize(fields[0].value))] + CanonicalFields(fields[1..])
  }

  function Join(parts: seq<string>): string {
    if parts == [] then ""
    else if |parts| == 1 then parts[0]
    else parts[0] + "," + Join(parts[1..])
  }

  function Members(fields: seq<(string, string)>): seq<string> {
    if fields == [] then []
    else ["\"" + fields[0].0 + "\":" + fields[0].1] + Members(fields[1..])
  }

  function InsertByKey(field: (string, string), sorted: seq<(string, string)>): seq<(string, string)> {
    if sorted == [] || !CompareText(field.0, sorted[0].0).Greater? then [field] + sorted
    else [sorted[0]] + InsertByKey(field, sorted[1..])
  }

  function SortByKey(fields: seq<(string, string)>): seq<(string, string)> {
    if fields == [] then [] else InsertByKey(fields[0], SortByKey(fields[1..]))
  }

  // ----- key order never matters ----------------------------------------------------

  ghost predicate DistinctKeys(fields: seq<Field>) {
    forall i, j :: 0 <= i < j < |fields| ==> fields[i].key != fields[j].key
  }

  ghost function Keys(fields: seq<Field>): set<string> {
    set f | f in fields :: f.key
  }

  /** Equality of values up to the order of object members, at any depth. */
  ghost predicate SameValue(a: Value, b: Value)
    decreases a
  {
    match (a, b)
    case (Array(x), Array(y)) => |x| == |y| && forall i :: 0 <= i < |x| ==> SameValue(x[i], y[i])
    case (Object(f), Object(g)) =>
      && DistinctKeys(f) && DistinctKeys(g) && Keys(f) == Keys(g)
      && forall i, j :: 0 <= i < |f| && 0 <= j < |g| && f[i].key == g[j].key ==> SameValue(f[i].value, g[j].value)
    case _ => a == b
  }

  ghost predicate Distinct(texts: seq<(string, string)>) {
    forall i, j :: 0 <= i < j < |texts| ==> texts[i].0 != texts[j].0
  }

  ghost predicate StrictlySorted(texts: seq<(string, string)>) {
    forall i, j :: 0 <= i < j < |texts| ==> CompareText(texts[i].0, texts[j].0).Less?
  }

  ghost predicate SameElements(a: seq<(string, string)>, b: seq<(string, string)>) {
    forall x :: x in a <==> x in b
  }

  lemma {:induction false} CanonicalFieldsAt(fields: seq<Field>, i: nat)
    requires i < |fields|
    ensures CanonicalFields(fields)[i] == (fields[i].key, Canonicalize(fields[i].value))
  {
    if i > 0 {
      CanonicalFieldsAt(fields[1..], i - 1);
    }
  }

  lemma {:induction false} InsertSorts(field: (string, string), sorted: seq<(string, string)>)
    requires StrictlySorted(sorted) && forall x :: x in sorted ==> x.0 != field.0
    ensures StrictlySorted(InsertByKey(field, sorted))
    ensures forall x :: x in InsertByKey(field, sorted) <==> x == field || x in sorted
  {
    if sorted != [] {
      TextTie(field.0, sorted[0].0);
      TextFlip(field.0, sorted[0].0);
      if CompareText(field.0, sorted[0].0).Greater? {
        var rest := InsertByKey(field, sorted[1..]);
        InsertSorts(field, sorted[1..]);
        forall j | 0 <= j < |rest| ensures CompareText(sorted[0].0, rest[j].0).Less? {
          assert rest[j] in rest;
          if rest[j] != field {
            var k :| 1 <= k < |sorted| && sorted[k] == rest[j];
          }
        }
      } else {
        forall j | 0 <= j < |sorted| ensures CompareText(field.0, sorted[j].0).Less? {
          if j > 0 {
            TextChain(field.0, sorted[0].0, sorted[j].0);
          }
        }
      }
    }
  }

  lemma {:induction false} SortSorts(texts: seq<(string, string)>)
    requires Distinct(texts)
    ensures StrictlySorted(SortByKey(texts)) && SameElements(SortByKey(texts), texts)
  {
    if texts != [] {
      SortSorts(texts[1..]);
      forall x | x in SortByKey(texts[1..]) ensures x.0 != texts[0].0 {
        assert x in texts[1..];
      }
      InsertSorts(texts[0], SortByKey(texts[1..]));
    }
  }

  lemma {:induction false} SortedIsUnique(a: seq<(string, string)>, b: seq<(string, string)>)
    requires StrictlySorted(a) && StrictlySorted(b) && SameElements(a, b)
    ensures a == b
  {
    if b != [] {
      assert b[0] in a;
    }
    if a != [] {
      assert a[0] in b;
      var i :| 0 <= i < |b| && b[i] == a[0];
      var j :| 0 <= j < |a| && a[j] == b[0];
      TextFlip(a[0].0, b[0].0);
      assert i == 0 && a[0] == b[0];
      forall x ensures x in a[1..] <==> x in b[1..] {
        TextTie(a[0].0, a[0].0);
        assert x in a <==> x in b;
      }
      SortedIsUnique(a[1..], b[1..]);
      assert a == [a[0]] + a[1..] && b == [b[0]] + b[1..];
    }
  }

  lemma {:induction false} CanonicalItemsAgree(x: seq<Value>, y: seq<Value>)
    requires |x| == |y| && forall i :: 0 <= i < |x| ==> Canonicalize(x[i]) == Canonicalize(y[i])
    ensures CanonicalItems(x) == CanonicalItems(y)
  {
    if x != [] {
      CanonicalItemsAgree(x[1..], y[1..]);
    }
  }

  /** Every canonical member of `f` is one of `g` when the values under equal keys agree. */
  lemma MembersCarryOver(f: seq<Field>, g: seq<Field>)
    requires Keys(f) <= Keys(g)
    requires forall i, j :: 0 <= i < |f| && 0 <= j < |g| && f[i].key == g[j].key ==>
                              Canonicalize(f[i].value) == Canonicalize(g[j].value)
    ensures forall x :: x in CanonicalFields(f) ==> x in CanonicalFields(g)
  {
    forall x | x in CanonicalFields(f) ensures x in CanonicalFields(g) {
      var i :| 0 <= i < |f| && CanonicalFields(f)[i] == x;
      CanonicalFieldsAt(f, i);
      assert f[i] in f;
      assert f[i].key in Keys(g);
      var j :| 0 <= j < |g| && g[j].key == f[i].key;
      CanonicalFieldsAt(g, j);
      assert CanonicalFields(g)[j] == x;
    }
  }

  lemma DistinctTexts(fields: seq<Field>)
    requires DistinctKeys(fields)
    ensures Distinct(CanonicalFields(fields))
  {
    forall i, j | 0 <= i < j < |fields| ensures CanonicalFields(fields)[i].0 != CanonicalFields(fields)[j].0 {
      CanonicalFieldsAt(fields, i);
      CanonicalFieldsAt(fields, j);
    }
  }

  /** Values that differ only in member order have one canonical text, hence one argument hash. */
  lemma {:induction false} CanonicalTextIgnoresKeyOrder(a: Value, b: Value)
    requires SameValue(a, b)
    ensures Canonicalize(a) == Canonicalize(b)
    decreases a
  {
    match (a, b)
    case (Array(x), Array(y)) =>
      forall i | 0 <= i < |x| ensures Canonicalize(x[i]) == Canonicalize(y[i]) {
        CanonicalTextIgnoresKeyOrder(x[i], y[i]);
      }
      CanonicalItemsAgree(x, y);
    case (Object(f), Object(g)) =>
      forall i, j | 0 <= i < |f| && 0 <= j < |g| && f[i].key == g[j].key
        ensures Canonicalize(f[i].value) == Canonicalize(g[j].value)
      {
        CanonicalTextIgnoresKeyOrder(f[i].value, g[j].value);
      }
      MembersCarryOver(f, g);
      MembersCarryOver(g, f);
      DistinctTexts(f);
      DistinctTexts(g);
      SortSorts(CanonicalFields(f));
      SortSorts(CanonicalFields(g));
      SortedIsUnique(SortByKey(CanonicalFields(f)), SortByKey(CanonicalFields(g)));
    case _ =>
  }
}
