/** Reading back argument bodies as they are written. */
module WrittenArguments {
  import opened Ordering
  import opened Sequences
  import opened Text
  import opened Json
  import opened ToolArguments

  /** One argument with the text before it. */
  datatype Written = Written(filler: string, key: string, value: string)

  /** What stands between the opening of a tag and its end. */
  function Within(style: Style, key: string): string {
    if style.Tagged? && style.attribute then " name=\"" + key + "\"" else key
  }

  function Parts(style: Style, w: Written): seq<string> {
    if style.Keyed? then [style.open, w.key, style.shut, style.begin, w.value, style.close]
    else [style.open, Within(style, w.key), ">", w.value, style.close]
  }

  function Glue(parts: seq<string>): string {
    if parts == [] then "" else parts[0] + Glue(parts[1..])
  }

  function WritePair(style: Style, w: Written): string {
    Glue(Parts(style, w))
  }

  function WriteBody(style: Style, ws: seq<Written>): string {
    if ws == [] then "" else ws[0].filler + (WritePair(style, ws[0]) + WriteBody(style, ws[1..]))
  }

  predicate IsTrimmed(s: string) {
    s == [] || (!IsWhitespace(s[0]) && !IsWhitespace(s[|s| - 1]))
  }

  /** Letters, digits, underscore and hyphen. */
  predicate IsPlainName(name: string) {
    name != [] && forall c :: c in name ==> 'a' <= c <= 'z' || 'A' <= c <= 'Z' || '0' <= c <= '9' || c == '_' || c == '-'
  }

  /** No tag text, and a key the style can name. */
  predicate Writable(style: Style, w: Written) {
    && '<' !in w.filler && '<' !in w.value
    && (style.Keyed? ==> w.key != [] && '<' !in w.key && IsTrimmed(w.key))
    && (style.Tagged? ==>
          && IsTrimmed(w.value)
          && (if style.attribute then w.key != [] && '<' !in w.key && '>' !in w.key && '\"' !in w.key
              else IsPlainName(w.key)))
  }

  /** All of the style's tags begin as tags do. */
  predicate BeginAsTags(style: Style) {
    && style.open[0] == '<' && style.close[0] == '<'
    && (style.Keyed? ==> style.shut != "" && style.shut[0] == '<' && style.begin != "")
  }

  // ----- where things are found ---------------------------------------------------------------------------------

  lemma HeadMustMatch(text: string, needle: string, i: nat)
    requires needle != [] && OccursAt(text, needle, i)
    ensures text[i] == needle[0]
  {
    assert text[i + 0] == needle[0];
  }

  lemma FirstOccurrence(text: string, needle: string, from: nat, at: nat)
    requires from <= at && OccursAt(text, needle, at) && forall i :: from <= i < at ==> !OccursAt(text, needle, i)
    ensures Find(text, needle, from) == Some(at)
  {
  }

  lemma PlainHasNone(text: string, p: nat, w: string, needle: string)
    requires OccursAt(text, w, p) && needle != [] && needle[0] !in w
    ensures forall i :: p <= i < p + |w| ==> !OccursAt(text, needle, i)
  {
    forall i | p <= i < p + |w| ensures !OccursAt(text, needle, i) {
      assert text[p + (i - p)] == w[i - p];
      if OccursAt(text, needle, i) {
        HeadMustMatch(text, needle, i);
        assert false;
      }
    }
  }

  /** Past text without its first character a needle is found where it is written. */
  lemma FindAfter(text: string, p: nat, w: string, needle: string)
    requires OccursAt(text, w, p) && OccursAt(text, needle, p + |w|) && needle != [] && needle[0] !in w
    ensures Find(text, needle, p) == Some(p + |w|)
  {
    PlainHasNone(text, p, w, needle);
    FirstOccurrence(text, needle, p, p + |w|);
  }

  lemma TrimIdle(s: string)
    requires IsTrimmed(s)
    ensures Trim(s) == s
  {
    assert TrimStart(s) == s;
  }

  lemma NameIsTrimmed(name: string)
    requires IsPlainName(name)
    ensures IsTrimmed(name) && IsValidName(name) && '<' !in name && '>' !in name && '\"' !in name
  {
    assert name[0] in name && name[|name| - 1] in name;
  }

  // ----- one argument ---------------------------------------------------------------------------------------------

  /** The parts stand one after another from `p` on. */
  ghost predicate InOrder(text: string, p: nat, parts: seq<string>)
    decreases |parts|
  {
    parts == [] || (OccursAt(text, parts[0], p) && InOrder(text, p + |parts[0]|, parts[1..]))
  }

  function Length(parts: seq<string>): nat {
    if parts == [] then 0 else |parts[0]| + Length(parts[1..])
  }

  lemma OrderCons(text: string, p: nat, a: string, parts: seq<string>)
    ensures InOrder(text, p, [a] + parts) <==> OccursAt(text, a, p) && InOrder(text, p + |a|, parts)
    ensures Length([a] + parts) == |a| + Length(parts)
  {
    assert ([a] + parts)[1..] == parts;
  }

  lemma Two(text: string, p: nat, w: string, a: string, b: string)
    requires OccursAt(text, w, p) && w == a + b
    ensures OccursAt(text, a, p) && OccursAt(text, b, p + |a|)
  {
    forall k | 0 <= k < |a| ensures text[p + k] == a[k] {
      assert w[k] == a[k];
    }
    forall k | 0 <= k < |b| ensures text[p + |a| + k] == b[k] {
      assert w[|a| + k] == b[k] && text[p + (|a| + k)] == w[|a| + k];
    }
  }

  lemma Slice(text: string, p: nat, w: string)
    requires OccursAt(text, w, p)
    ensures p + |w| <= |text| && text[p..p + |w|] == w
  {
  }

  lemma {:induction false} GlueInOrder(text: string, p: nat, parts: seq<string>)
    requires OccursAt(text, Glue(parts), p)
    ensures InOrder(text, p, parts) && |Glue(parts)| == Length(parts)
    decreases |parts|
  {
    if parts != [] {
      Two(text, p, Glue(parts), parts[0], Glue(parts[1..]));
      GlueInOrder(text, p + |parts[0]|, parts[1..]);
    }
  }

  lemma FiveParts(text: string, p: nat, a: string, b: string, c: string, d: string, e: string)
    requires InOrder(text, p, [a, b, c, d, e])
    ensures OccursAt(text, a, p) && OccursAt(text, b, p + |a|) && OccursAt(text, c, p + |a| + |b|)
    ensures OccursAt(text, d, p + |a| + |b| + |c|) && OccursAt(text, e, p + |a| + |b| + |c| + |d|)
    ensures Length([a, b, c, d, e]) == |a| + |b| + |c| + |d| + |e|
  {
    assert [a, b, c, d, e] == [a] + [b, c, d, e] && [b, c, d, e] == [b] + [c, d, e];
    assert [c, d, e] == [c] + [d, e] && [d, e] == [d] + [e] && [e] == [e] + [];
    OrderCons(text, p, a, [b, c, d, e]);
    OrderCons(text, p + |a|, b, [c, d, e]);
    OrderCons(text, p + |a| + |b|, c, [d, e]);
    OrderCons(text, p + |a| + |b| + |c|, d, [e]);
    OrderCons(text, p + |a| + |b| + |c| + |d|, e, []);
  }

  lemma TagItemIs(style: Style, text: string, p: nat, gt: nat, key: string, value: string)
    requires style.Tagged? && BeginAsTags(style) && IsTrimmed(value) && '<' !in value
    requires p <= gt < |text| && OccursAt(text, value, gt + 1) && OccursAt(text, style.close, gt + 1 + |value|)
    ensures var end := gt + 1 + |value| + |style.close|;
            TagItem(style, text, p, gt, Some(key)) == Some(Item(end, Some(Pair(key, value, p, end))))
  {
    FindAfter(text, gt + 1, value, style.close);
    Slice(text, gt + 1, value);
    TrimIdle(value);
  }

  /** Text without `>` ends at the next one. */
  lemma FollowedByEnd(text: string, q: nat, inside: string)
    requires OccursAt(text, inside, q) && OccursAt(text, ">", q + |inside|) && '>' !in inside
    ensures Find(text, ">", q) == Some(q + |inside|) && text[q..q + |inside|] == inside
  {
    FindAfter(text, q, inside, ">");
    Slice(text, q, inside);
  }

  lemma TagItemAt(style: Style, text: string, p: nat, gt: nat, inside: string, name: Option<string>, item: Option<Item>)
    requires style.Tagged? && OccursAt(text, style.open, p) && p + |style.open| <= gt < |text|
    requires Find(text, ">", p + |style.open|) == Some(gt) && text[p + |style.open|..gt] == inside
    requires NameIn(style, inside) == name && TagItem(style, text, p, gt, name) == item
    ensures ItemAt(style, text, p) == item
  {
  }

  lemma FourInOrder(text: string, p: nat, a: string, b: string, c: string, d: string)
    requires OccursAt(text, a, p) && OccursAt(text, b, p + |a|) && OccursAt(text, c, p + |a| + |b|)
    requires OccursAt(text, d, p + |a| + |b| + |c|)
    ensures InOrder(text, p, [a, b, c, d])
  {
    assert [a, b, c, d] == [a] + [b, c, d] && [b, c, d] == [b] + [c, d] && [c, d] == [c] + [d] && [d] == [d] + [];
    OrderCons(text, p + |a| + |b| + |c|, d, []);
    OrderCons(text, p + |a| + |b|, c, [d]);
    OrderCons(text, p + |a|, b, [c, d]);
    OrderCons(text, p, a, [b, c, d]);
  }

  lemma NameParts(attributes: string, a: string, b: string, c: string, d: string)
    requires attributes == a + (b + (c + d))
    ensures InOrder(attributes, 0, [a, b, c, d])
  {
    assert OccursAt(attributes, attributes, 0);
    Two(attributes, 0, attributes, a, b + (c + d));
    Two(attributes, |a|, b + (c + d), b, c + d);
    Two(attributes, |a| + |b|, c + d, c, d);
    FourInOrder(attributes, 0, a, b, c, d);
  }

  lemma FourParts(text: string, p: nat, a: string, b: string, c: string, d: string)
    requires InOrder(text, p, [a, b, c, d])
    ensures OccursAt(text, a, p) && OccursAt(text, b, p + |a|) && OccursAt(text, c, p + |a| + |b|)
    ensures OccursAt(text, d, p + |a| + |b| + |c|)
  {
    assert [a, b, c, d] == [a] + [b, c, d] && [b, c, d] == [b] + [c, d] && [c, d] == [c] + [d] && [d] == [d] + [];
    OrderCons(text, p, a, [b, c, d]);
    OrderCons(text, p + |a|, b, [c, d]);
    OrderCons(text, p + |a| + |b|, c, [d]);
    OrderCons(text, p + |a| + |b| + |c|, d, []);
  }

  /** A quoted value is found after its needle. */
  lemma QuotedIsRead(attributes: string, needle: string, key: string)
    requires InOrder(attributes, 0, [" ", needle, key, "\""]) && '\"' !in key && needle != "" && needle[0] != ' '
    ensures QuotedAfter(attributes, needle) == Some(key)
  {
    FourParts(attributes, 0, " ", needle, key, "\"");
    FindAfter(attributes, 0, " ", needle);
    FindAfter(attributes, 1 + |needle|, key, "\"");
    Slice(attributes, 1 + |needle|, key);
  }

  lemma NameIsRead(key: string)
    requires '\"' !in key
    ensures NameAttribute(" name=\"" + key + "\"") == Some(key)
  {
    var attributes := " name=\"" + key + "\"";
    assert attributes == " " + ("name=\"" + (key + "\""));
    NameParts(attributes, " ", "name=\"", key, "\"");
    QuotedIsRead(attributes, "name=\"", key);
  }

  lemma AttributeNames(style: Style, w: Written)
    requires style.Tagged? && style.attribute && Writable(style, w)
    ensures NameIn(style, Within(style, w.key)) == Some(w.key)
  {
    NameIsRead(w.key);
  }

  lemma WithinNames(style: Style, w: Written)
    requires style.Tagged? && Writable(style, w)
    ensures NameIn(style, Within(style, w.key)) == Some(w.key) && '>' !in Within(style, w.key)
  {
    if style.attribute {
      AttributeNames(style, w);
    } else {
      NameIsTrimmed(w.key);
      TrimIdle(w.key);
    }
  }

  /** The argument, a writable one, stands at `p`. The countdown keeps what that means out of sight until `Unseal` asks
      for it. */
  ghost predicate Sealed(countdown: nat, style: Style, text: string, p: nat, w: Written)
    decreases countdown
  {
    if countdown == 0 then Writable(style, w) && InOrder(text, p, Parts(style, w))
    else Sealed(countdown - 1, style, text, p, w)
  }

  ghost predicate Stands(style: Style, text: string, p: nat, w: Written) {
    Sealed(5, style, text, p, w)
  }

  lemma {:induction false} SealedStands(countdown: nat, style: Style, text: string, p: nat, w: Written)
    ensures Sealed(countdown, style, text, p, w) <==> Writable(style, w) && InOrder(text, p, Parts(style, w))
    decreases countdown
  {
    if countdown > 0 {
      SealedStands(countdown - 1, style, text, p, w);
    }
  }

  lemma Unseal(style: Style, text: string, p: nat, w: Written)
    ensures Stands(style, text, p, w) <==> Writable(style, w) && InOrder(text, p, Parts(style, w))
  {
    SealedStands(5, style, text, p, w);
  }

  lemma TagPlaced(style: Style, text: string, p: nat, w: Written, gt: nat)
    requires style.Tagged? && Stands(style, text, p, w) && gt == p + |style.open| + |Within(style, w.key)|
    ensures OccursAt(text, style.open, p) && OccursAt(text, Within(style, w.key), p + |style.open|) && OccursAt(text, ">", gt)
    ensures gt < |text|
  {
    Unseal(style, text, p, w);
    FiveParts(text, p, style.open, Within(style, w.key), ">", w.value, style.close);
  }

  lemma TagNames(style: Style, text: string, p: nat, w: Written)
    requires style.Tagged? && Stands(style, text, p, w)
    ensures NameIn(style, Within(style, w.key)) == Some(w.key) && '>' !in Within(style, w.key)
  {
    Unseal(style, text, p, w);
    WithinNames(style, w);
  }

  lemma TagOpens(style: Style, text: string, p: nat, gt: nat, inside: string, name: Option<string>, item: Option<Item>)
    requires style.Tagged? && OccursAt(text, style.open, p) && OccursAt(text, inside, p + |style.open|) && '>' !in inside
    requires gt == p + |style.open| + |inside| < |text| && OccursAt(text, ">", gt)
    requires NameIn(style, inside) == name && TagItem(style, text, p, gt, name) == item
    ensures ItemAt(style, text, p) == item
  {
    FollowedByEnd(text, p + |style.open|, inside);
    TagItemAt(style, text, p, gt, inside, name, item);
  }

  lemma TagFirst(style: Style, text: string, p: nat, w: Written, gt: nat, inside: string, item: Option<Item>)
    requires style.Tagged? && Stands(style, text, p, w) && inside == Within(style, w.key)
    requires gt == p + |style.open| + |inside| < |text| && TagItem(style, text, p, gt, Some(w.key)) == item
    ensures ItemAt(style, text, p) == item
  {
    TagPlaced(style, text, p, w, gt);
    TagNames(style, text, p, w);
    TagOpens(style, text, p, gt, inside, Some(w.key), item);
  }

  lemma TagSecond(style: Style, text: string, p: nat, w: Written, gt: nat, end: nat)
    requires style.Tagged? && BeginAsTags(style) && Stands(style, text, p, w)
    requires gt == p + |style.open| + |Within(style, w.key)| && gt < |text| && end == p + Length(Parts(style, w))
    ensures TagItem(style, text, p, gt, Some(w.key)) == Some(Item(end, Some(Pair(w.key, w.value, p, end))))
  {
    Unseal(style, text, p, w);
    FiveParts(text, p, style.open, Within(style, w.key), ">", w.value, style.close);
    TagItemIs(style, text, p, gt, w.key, w.value);
  }

  lemma SixParts(text: string, p: nat, a: string, b: string, c: string, d: string, e: string, f: string)
    requires InOrder(text, p, [a, b, c, d, e, f])
    ensures OccursAt(text, a, p) && OccursAt(text, b, p + |a|) && OccursAt(text, c, p + |a| + |b|)
    ensures OccursAt(text, d, p + |a| + |b| + |c|) && OccursAt(text, e, p + |a| + |b| + |c| + |d|)
    ensures OccursAt(text, f, p + |a| + |b| + |c| + |d| + |e|)
    ensures Length([a, b, c, d, e, f]) == |a| + |b| + |c| + |d| + |e| + |f|
  {
    assert [a, b, c, d, e, f] == [a] + [b, c, d, e, f];
    OrderCons(text, p, a, [b, c, d, e, f]);
    FiveParts(text, p + |a|, b, c, d, e, f);
  }

  lemma KeyItemAt(style: Style, text: string, p: nat, keyEnd: nat, item: Option<Item>)
    requires style.Keyed? && OccursAt(text, style.open, p) && Find(text, style.shut, p + |style.open|) == Some(keyEnd)
    requires KeyItem(style, text, p, keyEnd) == item
    ensures ItemAt(style, text, p) == item
  {
  }

  /** Where the parts of a key and its value stand. */
  lemma KeyPlaced(style: Style, text: string, p: nat, w: Written, keyEnd: nat, open: nat, close: nat)
    requires style.Keyed? && Stands(style, text, p, w) && keyEnd == p + |style.open| + |w.key|
    requires open == keyEnd + |style.shut| && close == open + |style.begin| + |w.value|
    ensures OccursAt(text, style.open, p) && OccursAt(text, w.key, p + |style.open|) && OccursAt(text, style.shut, keyEnd)
    ensures OccursAt(text, style.begin, open) && OccursAt(text, w.value, open + |style.begin|) && OccursAt(text, style.close, close)
    ensures p + Length(Parts(style, w)) == close + |style.close|
  {
    Unseal(style, text, p, w);
    SixParts(text, p, style.open, w.key, style.shut, style.begin, w.value, style.close);
  }

  lemma KeyPlain(style: Style, text: string, p: nat, w: Written)
    requires style.Keyed? && Stands(style, text, p, w)
    ensures Trim(w.key) == w.key != [] && '<' !in w.key && '<' !in w.value
  {
    Unseal(style, text, p, w);
    TrimIdle(w.key);
  }

  lemma KeyShuts(style: Style, text: string, p: nat, w: Written, keyEnd: nat)
    requires style.Keyed? && BeginAsTags(style) && Stands(style, text, p, w) && keyEnd == p + |style.open| + |w.key|
    ensures OccursAt(text, style.open, p) && Find(text, style.shut, p + |style.open|) == Some(keyEnd)
    ensures keyEnd + |style.shut| <= |text| && Trim(text[p + |style.open|..keyEnd]) == w.key != []
  {
    KeyPlaced(style, text, p, w, keyEnd, keyEnd + |style.shut|, keyEnd + |style.shut| + |style.begin| + |w.value|);
    KeyPlain(style, text, p, w);
    FindAfter(text, p + |style.open|, w.key, style.shut);
    Slice(text, p + |style.open|, w.key);
  }

  lemma KeyBegins(style: Style, text: string, p: nat, w: Written, open: nat)
    requires style.Keyed? && Stands(style, text, p, w) && open == p + |style.open| + |w.key| + |style.shut|
    ensures open + |style.begin| <= |text| && Find(text, style.begin, open) == Some(open)
  {
    KeyPlaced(style, text, p, w, p + |style.open| + |w.key|, open, open + |style.begin| + |w.value|);
    FirstOccurrence(text, style.begin, open, open);
  }

  lemma ValueFollows(text: string, q: nat, value: string, close: string)
    requires OccursAt(text, value, q) && OccursAt(text, close, q + |value|)
    requires close != "" && close[0] == '<' && '<' !in value
    ensures Find(text, close, q) == Some(q + |value|) && q + |value| + |close| <= |text| && text[q..q + |value|] == value
  {
    FindAfter(text, q, value, close);
    Slice(text, q, value);
  }

  lemma KeyOpens(style: Style, text: string, p: nat, w: Written, open: nat, close: nat)
    requires style.Keyed? && BeginAsTags(style) && Stands(style, text, p, w)
    requires open == p + |style.open| + |w.key| + |style.shut| && close == open + |style.begin| + |w.value|
    ensures open + |style.begin| <= |text| && Find(text, style.begin, open) == Some(open)
    ensures Find(text, style.close, open + |style.begin|) == Some(close)
    ensures close + |style.close| <= |text| && text[open + |style.begin|..close] == w.value
  {
    KeyBegins(style, text, p, w, open);
    KeyPlaced(style, text, p, w, p + |style.open| + |w.key|, open, close);
    KeyPlain(style, text, p, w);
    ValueFollows(text, open + |style.begin|, w.value, style.close);
  }

  lemma KeyLength(style: Style, text: string, p: nat, w: Written, close: nat)
    requires style.Keyed? && Stands(style, text, p, w)
    requires close == p + |style.open| + |w.key| + |style.shut| + |style.begin| + |w.value|
    ensures p + Length(Parts(style, w)) == close + |style.close|
  {
    var keyEnd := p + |style.open| + |w.key|;
    KeyPlaced(style, text, p, w, keyEnd, keyEnd + |style.shut|, close);
  }

  lemma KeyItemIs(style: Style, text: string, p: nat, keyEnd: nat, open: nat, close: nat, key: string, value: string)
    requires style.Keyed? && p + |style.open| <= keyEnd <= keyEnd + |style.shut| <= open
    requires open + |style.begin| <= close <= close + |style.close| <= |text|
    requires Find(text, style.begin, keyEnd + |style.shut|) == Some(open) && Find(text, style.close, open + |style.begin|) == Some(close)
    requires Trim(text[p + |style.open|..keyEnd]) == key != [] && text[open + |style.begin|..close] == value
    ensures KeyItem(style, text, p, keyEnd) ==
            Some(Item(close + |style.close|, Some(Pair(key, value, p, close + |style.close|))))
  {
  }

  lemma KeySecond(style: Style, text: string, p: nat, w: Written, keyEnd: nat, open: nat, close: nat, end: nat)
    requires style.Keyed? && BeginAsTags(style) && Stands(style, text, p, w) && keyEnd == p + |style.open| + |w.key|
    requires open == keyEnd + |style.shut| && close == open + |style.begin| + |w.value| && end == close + |style.close|
    ensures keyEnd + |style.shut| <= |text|
    ensures KeyItem(style, text, p, keyEnd) == Some(Item(end, Some(Pair(w.key, w.value, p, end))))
  {
    KeyShuts(style, text, p, w, keyEnd);
    KeyOpens(style, text, p, w, open, close);
    KeyItemIs(style, text, p, keyEnd, open, close, w.key, w.value);
  }

  ghost predicate ReadsBack(style: Style, text: string, p: nat, w: Written, end: nat) {
    ItemAt(style, text, p) == Some(Item(end, Some(Pair(w.key, w.value, p, end))))
  }

  lemma TagReadsBackTo(style: Style, text: string, p: nat, w: Written, gt: nat, end: nat)
    requires style.Tagged? && BeginAsTags(style) && Stands(style, text, p, w)
    requires gt == p + |style.open| + |Within(style, w.key)| < |text| && end == p + Length(Parts(style, w))
    ensures ReadsBack(style, text, p, w, end)
  {
    TagSecond(style, text, p, w, gt, end);
    TagFirst(style, text, p, w, gt, Within(style, w.key), Some(Item(end, Some(Pair(w.key, w.value, p, end)))));
  }

  lemma TagReadsBack(style: Style, text: string, p: nat, w: Written)
    requires style.Tagged? && BeginAsTags(style) && Stands(style, text, p, w)
    ensures ReadsBack(style, text, p, w, p + Length(Parts(style, w)))
  {
    var gt := p + |style.open| + |Within(style, w.key)|;
    TagPlaced(style, text, p, w, gt);
    TagReadsBackTo(style, text, p, w, gt, p + Length(Parts(style, w)));
  }

  lemma KeyReadsBackTo(style: Style, text: string, p: nat, w: Written, keyEnd: nat, open: nat, close: nat, end: nat)
    requires style.Keyed? && BeginAsTags(style) && Stands(style, text, p, w) && keyEnd == p + |style.open| + |w.key|
    requires open == keyEnd + |style.shut| && close == open + |style.begin| + |w.value| && end == close + |style.close|
    ensures ReadsBack(style, text, p, w, end)
  {
    KeyShuts(style, text, p, w, keyEnd);
    KeySecond(style, text, p, w, keyEnd, open, close, end);
    KeyItemAt(style, text, p, keyEnd, Some(Item(end, Some(Pair(w.key, w.value, p, end)))));
  }

  lemma KeyReadsBack(style: Style, text: string, p: nat, w: Written)
    requires style.Keyed? && BeginAsTags(style) && Stands(style, text, p, w)
    ensures ReadsBack(style, text, p, w, p + Length(Parts(style, w)))
  {
    var keyEnd := p + |style.open| + |w.key|;
    var open := keyEnd + |style.shut|;
    var close := open + |style.begin| + |w.value|;
    KeyReadsBackTo(style, text, p, w, keyEnd, open, close, close + |style.close|);
    KeyLength(style, text, p, w, close);
  }

  lemma PairReadsBack(style: Style, text: string, p: nat, w: Written)
    requires BeginAsTags(style) && Stands(style, text, p, w)
    ensures ReadsBack(style, text, p, w, p + Length(Parts(style, w)))
  {
    if style.Keyed? {
      KeyReadsBack(style, text, p, w);
    } else {
      TagReadsBack(style, text, p, w);
    }
  }

  // ----- a whole body -----------------------------------------------------------------------------------------------

  ghost predicate AllWritable(style: Style, ws: seq<Written>) {
    ws == [] || (Writable(style, ws[0]) && AllWritable(style, ws[1..]))
  }

  /** Keys and values, in order. */
  ghost predicate SamePairs(pairs: seq<Pair>, ws: seq<Written>) {
    |pairs| == |ws| && forall i :: 0 <= i < |ws| ==> pairs[i].key == ws[i].key && pairs[i].raw == ws[i].value
  }

  lemma SamePairsCons(pair: Pair, pairs: seq<Pair>, ws: seq<Written>)
    requires ws != [] && pair.key == ws[0].key && pair.raw == ws[0].value && SamePairs(pairs, ws[1..])
    ensures SamePairs([pair] + pairs, ws)
  {
  }

  /** What is read from `p` on, as sealed as `Stands`. */
  ghost predicate SealedPairs(countdown: nat, style: Style, text: string, p: nat, pairs: seq<Pair>)
    decreases countdown
  {
    if countdown == 0 then Pairs(style, text, p) == pairs else SealedPairs(countdown - 1, style, text, p, pairs)
  }

  ghost predicate Yields(style: Style, text: string, p: nat, pairs: seq<Pair>) {
    SealedPairs(5, style, text, p, pairs)
  }

  lemma {:induction false} SealedYields(countdown: nat, style: Style, text: string, p: nat, pairs: seq<Pair>)
    ensures SealedPairs(countdown, style, text, p, pairs) <==> Pairs(style, text, p) == pairs
    decreases countdown
  {
    if countdown > 0 {
      SealedYields(countdown - 1, style, text, p, pairs);
    }
  }

  lemma UnsealPairs(style: Style, text: string, p: nat, pairs: seq<Pair>)
    ensures Yields(style, text, p, pairs) <==> Pairs(style, text, p) == pairs
  {
    SealedYields(5, style, text, p, pairs);
  }

  lemma SkipPlain(style: Style, text: string, p: nat, w: string)
    requires BeginAsTags(style) && OccursAt(text, w, p) && '<' !in w
    ensures Pairs(style, text, p) == Pairs(style, text, p + |w|)
  {
    PlainHasNone(text, p, w, style.open);
    SkipTo(style, text, p, p + |w|);
  }

  lemma YieldsPast(style: Style, text: string, p: nat, w: string, pairs: seq<Pair>)
    requires BeginAsTags(style) && OccursAt(text, w, p) && '<' !in w && Yields(style, text, p + |w|, pairs)
    ensures Yields(style, text, p, pairs)
  {
    SkipPlain(style, text, p, w);
    UnsealPairs(style, text, p + |w|, pairs);
    UnsealPairs(style, text, p, pairs);
  }

  lemma TakePair(style: Style, text: string, q: nat, pair: Pair, end: nat)
    requires q < |text| && ItemAt(style, text, q) == Some(Item(end, Some(pair)))
    ensures Pairs(style, text, q) == [pair] + Pairs(style, text, end)
  {
  }

  lemma YieldsOn(style: Style, text: string, q: nat, w: Written, end: nat, pairs: seq<Pair>)
    requires q < |text| && ReadsBack(style, text, q, w, end) && Yields(style, text, end, pairs)
    ensures Yields(style, text, q, [Pair(w.key, w.value, q, end)] + pairs)
  {
    TakePair(style, text, q, Pair(w.key, w.value, q, end), end);
    UnsealPairs(style, text, end, pairs);
    UnsealPairs(style, text, q, [Pair(w.key, w.value, q, end)] + pairs);
  }

  lemma StartsInText(style: Style, text: string, q: nat, w: Written)
    requires Stands(style, text, q, w)
    ensures q < |text|
  {
    Unseal(style, text, q, w);
    assert OccursAt(text, Parts(style, w)[0], q);
  }

  lemma ReadOn(style: Style, text: string, q: nat, w: Written, pairs: seq<Pair>)
    requires BeginAsTags(style) && Stands(style, text, q, w) && Yields(style, text, q + Length(Parts(style, w)), pairs)
    ensures Yields(style, text, q, [Pair(w.key, w.value, q, q + Length(Parts(style, w)))] + pairs)
  {
    PairReadsBack(style, text, q, w);
    StartsInText(style, text, q, w);
    YieldsOn(style, text, q, w, q + Length(Parts(style, w)), pairs);
  }

  /** From `p` on there is no tag. */
  ghost predicate TagFree(text: string, p: nat) {
    forall i :: p <= i < |text| ==> text[i] != '<'
  }

  lemma NoMorePairs(style: Style, text: string, p: nat)
    requires BeginAsTags(style) && p <= |text| && TagFree(text, p)
    ensures Pairs(style, text, p) == []
  {
    assert text[p..p + |text[p..]|] == text[p..];
    SkipPlain(style, text, p, text[p..]);
  }

  lemma ReadFirst(style: Style, text: string, p: nat, w: Written, q: nat, pairs: seq<Pair>)
    requires BeginAsTags(style) && Stands(style, text, q, w) && q == p + |w.filler|
    requires OccursAt(text, w.filler, p) && '<' !in w.filler && Yields(style, text, q + Length(Parts(style, w)), pairs)
    ensures Yields(style, text, p, [Pair(w.key, w.value, q, q + Length(Parts(style, w)))] + pairs)
  {
    ReadOn(style, text, q, w, pairs);
    YieldsPast(style, text, p, w.filler, [Pair(w.key, w.value, q, q + Length(Parts(style, w)))] + pairs);
  }

  /** The body stands at `p`, can be read, and has no tag after it. */
  ghost predicate Readable(style: Style, text: string, p: nat, ws: seq<Written>)
    decreases |ws|
  {
    if ws == [] then p <= |text| && TagFree(text, p)
    else
      var q := p + |ws[0].filler|;
      && OccursAt(text, ws[0].filler, p) && '<' !in ws[0].filler && Stands(style, text, q, ws[0])
      && Readable(style, text, q + Length(Parts(style, ws[0])), ws[1..])
  }

  lemma {:induction false} BodyReadable(style: Style, text: string, p: nat, ws: seq<Written>)
    requires AllWritable(style, ws) && OccursAt(text, WriteBody(style, ws), p) && TagFree(text, p + |WriteBody(style, ws)|)
    ensures Readable(style, text, p, ws)
    decreases |ws|
  {
    if ws != [] {
      var w, more := ws[0], WriteBody(style, ws[1..]);
      Two(text, p, WriteBody(style, ws), w.filler, WritePair(style, w) + more);
      Two(text, p + |w.filler|, WritePair(style, w) + more, WritePair(style, w), more);
      GlueInOrder(text, p + |w.filler|, Parts(style, w));
      Unseal(style, text, p + |w.filler|, w);
      BodyReadable(style, text, p + |w.filler| + |WritePair(style, w)|, ws[1..]);
    }
  }

  lemma ReadStep(style: Style, text: string, p: nat, ws: seq<Written>, q: nat, end: nat, rest: seq<Pair>) returns (pairs: seq<Pair>)
    requires BeginAsTags(style) && ws != [] && q == p + |ws[0].filler| && end == q + Length(Parts(style, ws[0]))
    requires OccursAt(text, ws[0].filler, p) && '<' !in ws[0].filler && Stands(style, text, q, ws[0])
    requires Yields(style, text, end, rest) && SamePairs(rest, ws[1..])
    ensures Yields(style, text, p, pairs) && SamePairs(pairs, ws)
  {
    ReadFirst(style, text, p, ws[0], q, rest);
    pairs := [Pair(ws[0].key, ws[0].value, q, end)] + rest;
    SamePairsCons(Pair(ws[0].key, ws[0].value, q, end), rest, ws);
  }

  lemma {:induction false} BodyReadsBack(style: Style, text: string, p: nat, ws: seq<Written>) returns (pairs: seq<Pair>)
    requires BeginAsTags(style) && Readable(style, text, p, ws)
    ensures Yields(style, text, p, pairs) && SamePairs(pairs, ws)
    decreases |ws|
  {
    if ws == [] {
      NoMorePairs(style, text, p);
      pairs := [];
      UnsealPairs(style, text, p, pairs);
    } else {
      var q := p + |ws[0].filler|;
      var end := q + Length(Parts(style, ws[0]));
      var rest := BodyReadsBack(style, text, end, ws[1..]);
      pairs := ReadStep(style, text, p, ws, q, end, rest);
    }
  }

  /** The members a body stands for: each key with its value read as JSON, or as text where it is not JSON. */
  function Fields(ws: seq<Written>, parse: string -> Option<Value>): seq<Field> {
    if ws == [] then []
    else
      var w := Last(ws);
      Fields(Front(ws), parse) + [Field(w.key, if parse(w.value).Some? then parse(w.value).value else Text(w.value))]
  }

  ghost predicate DistinctNames(ws: seq<Written>) {
    forall i, j :: 0 <= i < j < |ws| ==> ws[i].key != ws[j].key
  }

  lemma {:induction false} FieldKeys(ws: seq<Written>, parse: string -> Option<Value>)
    ensures |Fields(ws, parse)| == |ws| && forall i :: 0 <= i < |ws| ==> Fields(ws, parse)[i].key == ws[i].key
  {
    if ws != [] {
      FieldKeys(Front(ws), parse);
    }
  }

  lemma {:induction false} ArgumentsAreFields(pairs: seq<Pair>, ws: seq<Written>, parse: string -> Option<Value>)
    requires SamePairs(pairs, ws) && DistinctNames(ws)
    ensures ArgumentsOf(pairs, parse) == Fields(ws, parse)
    decreases |ws|
  {
    if ws != [] {
      ArgumentsAreFields(Front(pairs), Front(ws), parse);
      FieldKeys(Front(ws), parse);
      var past := Fields(Front(ws), parse);
      forall f | f in past ensures f.key != Last(ws).key {
        var i :| 0 <= i < |past| && past[i] == f;
        assert past[i].key == Front(ws)[i].key == ws[i].key;
      }
    }
  }

  /** Reading back what is written: in each style a body gives exactly its keys with its values, in order. */
  lemma WrittenBodyIsRead(style: Style, ws: seq<Written>, tail: string, parse: string -> Option<Value>)
    requires BeginAsTags(style) && AllWritable(style, ws) && DistinctNames(ws) && '<' !in tail
    ensures Arguments(style, WriteBody(style, ws) + tail, parse) == Fields(ws, parse)
  {
    BodyAlone(style, ws, tail);
    ArgumentsAreFields(Pairs(style, WriteBody(style, ws) + tail, 0), ws, parse);
  }

  lemma BodyAlone(style: Style, ws: seq<Written>, tail: string)
    requires BeginAsTags(style) && AllWritable(style, ws) && '<' !in tail
    ensures SamePairs(Pairs(style, WriteBody(style, ws) + tail, 0), ws)
  {
    var body := WriteBody(style, ws);
    var text := body + tail;
    assert text[0..0 + |body|] == body;
    forall i | |body| <= i < |text| ensures text[i] != '<' {
      assert text[i] == tail[i - |body|] && tail[i - |body|] in tail;
    }
    BodyReadable(style, text, 0, ws);
    var pairs := BodyReadsBack(style, text, 0, ws);
    UnsealPairs(style, text, 0, pairs);
  }

  lemma {:induction false} PutTwice(a: Field, b: Field)
    requires a.key == b.key
    ensures Put(Put([], a.key, a.value), b.key, b.value) == [b]
  {
    assert [] + [a] == [a] && [a][0 := b] == [b];
    assert Put([], a.key, a.value) == [a];
  }

  lemma ArgumentsOfTwo(pairs: seq<Pair>, parse: string -> Option<Value>)
    requires |pairs| == 2 && pairs[0].key == pairs[1].key
    ensures ArgumentsOf(pairs, parse) == [Field(pairs[1].key, ParamValue(pairs[1].raw, parse))]
  {
    assert pairs == [pairs[0]] + [pairs[1]];
    FrontAppend([pairs[0]], pairs[1]);
    FrontAppend([], pairs[0]);
    assert [] + [pairs[0]] == [pairs[0]] && ArgumentsOf([], parse) == [];
    PutTwice(Field(pairs[0].key, ParamValue(pairs[0].raw, parse)), Field(pairs[1].key, ParamValue(pairs[1].raw, parse)));
  }

  /** A key that appears again takes the later value. */
  lemma LaterValueWins(style: Style, a: Written, b: Written, parse: string -> Option<Value>)
    requires BeginAsTags(style) && Writable(style, a) && Writable(style, b) && a.key == b.key
    ensures Arguments(style, WriteBody(style, [a, b]) + "", parse) ==
            [Field(b.key, if parse(b.value).Some? then parse(b.value).value else Text(b.value))]
  {
    assert [a, b][1..] == [b] && [b][1..] == [];
    assert AllWritable(style, [b]);
    BodyAlone(style, [a, b], "");
    ArgumentsOfTwo(Pairs(style, WriteBody(style, [a, b]) + "", 0), parse);
  }

  // ----- the three styles ------------------------------------------------------------------------------------------

  lemma GlueFive(a: string, b: string, c: string, d: string, e: string)
    ensures Glue([a, b, c, d, e]) == a + b + c + d + e
  {
    assert [a, b, c, d, e][1..] == [b, c, d, e] && [b, c, d, e][1..] == [c, d, e];
    assert [c, d, e][1..] == [d, e] && [d, e][1..] == [e] && [e][1..] == [];
    assert Glue([e]) == e && Glue([d, e]) == d + e && Glue([c, d, e]) == c + (d + e);
    assert Glue([b, c, d, e]) == b + (c + (d + e));
  }

  lemma GlueSix(a: string, b: string, c: string, d: string, e: string, f: string)
    ensures Glue([a, b, c, d, e, f]) == a + b + c + d + e + f
  {
    assert [a, b, c, d, e, f][1..] == [b, c, d, e, f];
    GlueFive(b, c, d, e, f);
  }

  /** How the three styles write an argument. */
  lemma PairsAsWritten(w: Written)
    ensures WritePair(PARAMETERS, w) == "<parameter=" + w.key + ">" + w.value + "</parameter>"
    ensures WritePair(ARGS, w) == "<arg" + (" name=\"" + w.key + "\"") + ">" + w.value + "</arg>"
    ensures WritePair(KEY_VALUES, w) == "<arg_key>" + w.key + "</arg_key>" + "<arg_value>" + w.value + "</arg_value>"
    ensures BeginAsTags(PARAMETERS) && BeginAsTags(ARGS) && BeginAsTags(KEY_VALUES)
  {
    GlueFive("<parameter=", w.key, ">", w.value, "</parameter>");
    GlueFive("<arg", " name=\"" + w.key + "\"", ">", w.value, "</arg>");
    GlueSix("<arg_key>", w.key, "</arg_key>", "<arg_value>", w.value, "</arg_value>");
  }
}
