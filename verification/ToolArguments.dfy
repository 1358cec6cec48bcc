/** The named arguments inside the body of a text tool call. */
module ToolArguments {
  import opened Ordering
  import opened Sequences
  import opened Text
  import opened Json

  /** How arguments are written: a tag with its name inside and its value after it, or a key and then a value. */
  datatype Shape =
    | Tagged(open: string, close: string, attribute: bool)
    | Keyed(open: string, shut: string, begin: string, close: string)

  type Style = s: Shape | s.open != "" && s.close != "" witness Tagged("<", ">", false)

  /** `<parameter=name>value</parameter>` */
  const PARAMETERS: Style := Tagged("<parameter=", "</parameter>", false)

  /** `<arg name="name">value</arg>` */
  const ARGS: Style := Tagged("<arg", "</arg>", true)

  /** `<arg_key>name</arg_key><arg_value>value</arg_value>` */
  const KEY_VALUES: Style := Keyed("<arg_key>", "</arg_key>", "<arg_value>", "</arg_value>")

  datatype Pair = Pair(key: string, raw: string, start: nat, end: nat)

  /** What starts at some position: where scanning resumes, and the pair it gives if its name is usable. */
  datatype Item = Item(end: nat, pair: Option<Pair>)

  predicate IsNameChar(c: char) {
    'a' <= c <= 'z' || 'A' <= c <= 'Z' || '0' <= c <= '9' || c == '_' || c == '-'
  }

  predicate IsValidName(name: string) {
    name != [] && forall c :: c in name ==> IsNameChar(c)
  }

  /** What stands in quotes after the first `needle`. */
  function QuotedAfter(attributes: string, needle: string): Option<string> {
    var at := Find(attributes, needle, 0);
    if at.None? then None
    else
      var quote := Find(attributes, "\"", at.value + |needle|);
      if quote.None? then None else Some(attributes[at.value + |needle|..quote.value])
  }

  function NameAttribute(attributes: string): Option<string> {
    QuotedAfter(attributes, "name=\"")
  }

  /** The usable name in what stands between an opening marker and its `>`. */
  function NameIn(style: Style, inside: string): Option<string>
    requires style.Tagged?
  {
    if !style.attribute then (if IsValidName(Trim(inside)) then Some(Trim(inside)) else None)
    else
      var name := NameAttribute(inside);
      if name.Some? && name.value != [] then name else None
  }

  // ----- the item that starts at a position ---------------------------------------------------------

  /** A tag whose `>` is at `gt`: without a usable name only the tag is passed over, otherwise it must be closed. */
  function TagItem(style: Style, body: string, p: nat, gt: nat, name: Option<string>): (r: Option<Item>)
    requires style.Tagged? && p <= gt < |body|
    ensures r.Some? ==> gt < r.value.end <= |body|
    ensures r.Some? && r.value.pair.Some? ==> r.value.pair.value.start == p && r.value.pair.value.end == r.value.end
  {
    if name.None? then Some(Item(gt + 1, None))
    else
      var close := Find(body, style.close, gt + 1);
      if close.None? then None
      else
        var end := close.value + |style.close|;
        Some(Item(end, Some(Pair(name.value, Trim(body[gt + 1..close.value]), p, end))))
  }

  /** A key whose closing tag is at `keyEnd`: its value may come any time later. */
  function KeyItem(style: Style, body: string, p: nat, keyEnd: nat): (r: Option<Item>)
    requires style.Keyed? && p + |style.open| <= keyEnd <= keyEnd + |style.shut| <= |body|
    ensures r.Some? ==> keyEnd < r.value.end <= |body|
    ensures r.Some? && r.value.pair.Some? ==> r.value.pair.value.start == p && r.value.pair.value.end == r.value.end
  {
    var key := Trim(body[p + |style.open|..keyEnd]);
    var open := Find(body, style.begin, keyEnd + |style.shut|);
    if open.None? then None
    else
      var close := Find(body, style.close, open.value + |style.begin|);
      if close.None? then None
      else
        var end := close.value + |style.close|;
        Some(Item(end, if key == [] then None
                       else Some(Pair(key, body[open.value + |style.begin|..close.value], p, end))))
  }

  /** What the opening tag ends with. */
  function Bound(style: Style): string {
    if style.Keyed? then style.shut else ">"
  }

  function ItemAt(style: Style, body: string, p: nat): (r: Option<Item>)
    ensures r.Some? ==> p < r.value.end <= |body|
    ensures r.Some? && r.value.pair.Some? ==> r.value.pair.value.start == p && r.value.pair.value.end == r.value.end
  {
    if !OccursAt(body, style.open, p) then None
    else
      var inner := p + |style.open|;
      var bound := Find(body, Bound(style), inner);
      if bound.None? then None
      else if style.Keyed? then KeyItem(style, body, p, bound.value)
      else TagItem(style, body, p, bound.value, NameIn(style, body[inner..bound.value]))
  }

  /** The simple reading: at each position take the item that starts there, otherwise move one character on. */
  function Pairs(style: Style, body: string, from: nat): seq<Pair>
    decreases |body| - from
  {
    if from >= |body| then []
    else
      var item := ItemAt(style, body, from);
      if item.None? then Pairs(style, body, from + 1)
      else (if item.value.pair.Some? then [item.value.pair.value] else []) + Pairs(style, body, item.value.end)
  }

  /** Pairs in order, non-empty, disjoint, between `from` and `limit`. */
  ghost predicate Apart(pairs: seq<Pair>, from: nat, limit: nat) {
    && (forall i :: 0 <= i < |pairs| ==> from <= pairs[i].start < pairs[i].end <= limit)
    && (forall i, j :: 0 <= i < j < |pairs| ==> pairs[i].end <= pairs[j].start)
  }

  lemma ApartCons(head: seq<Pair>, tail: seq<Pair>, from: nat, next: nat, limit: nat)
    requires |head| <= 1 && from <= next && Apart(tail, next, limit)
    requires head != [] ==> from <= head[0].start < head[0].end <= next <= limit
    ensures Apart(head + tail, from, limit)
  {
  }

  lemma {:induction false} PairsApart(style: Style, body: string, from: nat)
    ensures Apart(Pairs(style, body, from), from, |body|)
    decreases |body| - from
  {
    if from < |body| {
      var item := ItemAt(style, body, from);
      var next := if item.None? then from + 1 else item.value.end;
      PairsApart(style, body, next);
      var head := if item.Some? && item.value.pair.Some? then [item.value.pair.value] else [];
      ApartCons(head, Pairs(style, body, next), from, next, |body|);
      assert head + Pairs(style, body, next) == Pairs(style, body, from);
    }
  }

  lemma {:induction false} PairsAreItems(style: Style, body: string, from: nat)
    ensures forall x :: x in Pairs(style, body, from) ==> ItemAt(style, body, x.start) == Some(Item(x.end, Some(x)))
    decreases |body| - from
  {
    if from < |body| {
      var item := ItemAt(style, body, from);
      PairsAreItems(style, body, if item.None? then from + 1 else item.value.end);
    }
  }

  // ----- jumping and stopping early lose nothing ------------------------------------------------------

  lemma SkipOne(style: Style, body: string, a: nat)
    requires a < |body| && !OccursAt(body, style.open, a)
    ensures Pairs(style, body, a) == Pairs(style, body, a + 1)
  {
  }

  lemma {:induction false} SkipTo(style: Style, body: string, a: nat, b: nat)
    requires a <= b <= |body| && forall p :: a <= p < b ==> !OccursAt(body, style.open, p)
    ensures Pairs(style, body, a) == Pairs(style, body, b)
    decreases b - a
  {
    if a < b {
      SkipOne(style, body, a);
      SkipTo(style, body, a + 1, b);
    }
  }

  ghost predicate Barren(style: Style, body: string, from: nat) {
    forall q: nat :: from <= q ==> ItemAt(style, body, q).None? || ItemAt(style, body, q).value.pair.None?
  }

  lemma {:induction false} BarrenIsEmpty(style: Style, body: string, from: nat)
    requires Barren(style, body, from)
    ensures Pairs(style, body, from) == []
    decreases |body| - from
  {
    if from < |body| {
      var item := ItemAt(style, body, from);
      BarrenIsEmpty(style, body, if item.None? then from + 1 else item.value.end);
    }
  }

  /** A later search finds nothing earlier. */
  lemma FindLater(text: string, needle: string, a: nat, b: nat)
    requires a <= b <= |text|
    ensures Find(text, needle, a).None? ==> Find(text, needle, b).None?
    ensures Find(text, needle, b).Some? ==> Find(text, needle, a).Some? && Find(text, needle, a).value <= Find(text, needle, b).value
  {
  }

  /** With no bound after this marker no later item is complete either. */
  lemma UnboundedIsBarren(style: Style, body: string, p: nat)
    requires OccursAt(body, style.open, p) && Find(body, Bound(style), p + |style.open|).None?
    ensures Barren(style, body, p)
  {
    forall q: nat | p <= q ensures ItemAt(style, body, q).None? {
      if OccursAt(body, style.open, q) {
        FindLater(body, Bound(style), p + |style.open|, q + |style.open|);
      }
    }
  }

  lemma UnclosedIsBarren(style: Style, body: string, p: nat, gt: nat)
    requires style.Tagged? && OccursAt(body, style.open, p)
    requires Find(body, ">", p + |style.open|) == Some(gt) && Find(body, style.close, gt + 1).None?
    ensures Barren(style, body, p)
  {
    forall q: nat | p <= q ensures ItemAt(style, body, q).None? || ItemAt(style, body, q).value.pair.None? {
      if OccursAt(body, style.open, q) {
        FindLater(body, ">", p + |style.open|, q + |style.open|);
        var later := Find(body, ">", q + |style.open|);
        if later.Some? {
          LaterTagIsUnclosed(style, body, gt, q, later.value, NameIn(style, body[q + |style.open|..later.value]));
        }
      }
    }
  }

  lemma LaterTagIsUnclosed(style: Style, body: string, gt: nat, q: nat, later: nat, name: Option<string>)
    requires style.Tagged? && gt <= later && q <= later < |body| && Find(body, style.close, gt + 1).None?
    ensures TagItem(style, body, q, later, name).None? || TagItem(style, body, q, later, name).value.pair.None?
  {
    FindLater(body, style.close, gt + 1, later + 1);
  }

  lemma ValuelessIsBarren(style: Style, body: string, p: nat, keyEnd: nat)
    requires style.Keyed? && OccursAt(body, style.open, p) && Find(body, style.shut, p + |style.open|) == Some(keyEnd)
    requires KeyItem(style, body, p, keyEnd).None?
    ensures Barren(style, body, p)
  {
    forall q: nat | p <= q ensures ItemAt(style, body, q).None? {
      if OccursAt(body, style.open, q) {
        FindLater(body, style.shut, p + |style.open|, q + |style.open|);
        var later := Find(body, style.shut, q + |style.open|);
        if later.Some? {
          LaterKeyHasNoValue(style, body, p, keyEnd, q, later.value);
        }
      }
    }
  }

  lemma LaterKeyHasNoValue(style: Style, body: string, p: nat, keyEnd: nat, q: nat, later: nat)
    requires style.Keyed? && p + |style.open| <= keyEnd <= later && q + |style.open| <= later
    requires later + |style.shut| <= |body|
    requires KeyItem(style, body, p, keyEnd).None?
    ensures KeyItem(style, body, q, later).None?
  {
    FindLater(body, style.begin, keyEnd + |style.shut|, later + |style.shut|);
    var first, second := Find(body, style.begin, keyEnd + |style.shut|), Find(body, style.begin, later + |style.shut|);
    if second.Some? {
      FindLater(body, style.close, first.value + |style.begin|, second.value + |style.begin|);
    }
  }

  // ----- the argument loops -----------------------------------------------------------------------------

  /** JSON if it parses, otherwise the text itself. */
  function ParamValue(raw: string, parse: string -> Option<Value>): Value {
    var v := parse(raw);
    if v.Some? then v.value else Text(raw)
  }

  function KeyIndex(fields: seq<Field>, key: string): (i: Option<nat>)
    ensures i.Some? ==> i.value < |fields| && fields[i.value].key == key
    ensures i.None? ==> forall f :: f in fields ==> f.key != key
  {
    if fields == [] then None
    else if fields[0].key == key then Some(0)
    else
      var i := KeyIndex(fields[1..], key);
      if i.Some? then Some(i.value + 1) else None
  }

  /** Inserting keeps the place of a key that is already there. */
  function Put(fields: seq<Field>, key: string, v: Value): seq<Field> {
    var i := KeyIndex(fields, key);
    if i.Some? then fields[i.value := Field(key, v)] else fields + [Field(key, v)]
  }

  function ArgumentsOf(pairs: seq<Pair>, parse: string -> Option<Value>): seq<Field> {
    if pairs == [] then []
    else Put(ArgumentsOf(Front(pairs), parse), Last(pairs).key, ParamValue(Last(pairs).raw, parse))
  }

  function Arguments(style: Style, body: string, parse: string -> Option<Value>): seq<Field> {
    ArgumentsOf(Pairs(style, body, 0), parse)
  }

  /** What one turn of a loop does at a marker: stop, or resume at `next` having read at most one pair. */
  datatype Turn = Stop | Resume(next: nat, read: seq<Pair>)

  ghost predicate Reads(style: Style, body: string, p: nat, turn: Turn) {
    if turn.Stop? then Pairs(style, body, p) == []
    else p < turn.next <= |body| && |turn.read| <= 1 && Pairs(style, body, p) == turn.read + Pairs(style, body, turn.next)
  }

  lemma TakeItem(style: Style, body: string, p: nat, item: Item)
    requires ItemAt(style, body, p) == Some(item)
    ensures Reads(style, body, p, Resume(item.end, if item.pair.Some? then [item.pair.value] else []))
  {
  }

  method ReadNamed(style: Style, body: string, p: nat, gt: nat, name: Option<string>) returns (item: Option<Item>)
    requires style.Tagged? && p <= gt < |body|
    ensures item == TagItem(style, body, p, gt, name)
    ensures item.None? ==> Find(body, style.close, gt + 1).None?
  {
    if name.None? {
      return Some(Item(gt + 1, None));
    }
    var close := Find(body, style.close, gt + 1);
    if close.None? {
      return None;
    }
    var end := close.value + |style.close|;
    item := Some(Item(end, Some(Pair(name.value, Trim(body[gt + 1..close.value]), p, end))));
  }

  lemma TagTurn(style: Style, body: string, p: nat, gt: nat, name: Option<string>)
    requires style.Tagged? && OccursAt(body, style.open, p) && Find(body, ">", p + |style.open|) == Some(gt)
    requires name == NameIn(style, body[p + |style.open|..gt])
    ensures var item := TagItem(style, body, p, gt, name);
            && (item.None? ==> Reads(style, body, p, Stop))
            && (item.Some? ==>
                  Reads(style, body, p, Resume(item.value.end, if item.value.pair.Some? then [item.value.pair.value] else [])))
  {
    var item := TagItem(style, body, p, gt, name);
    if item.None? {
      UnclosedIsBarren(style, body, p, gt);
      BarrenIsEmpty(style, body, p);
    } else {
      TakeItem(style, body, p, item.value);
    }
  }

  method ReadTag(style: Style, body: string, p: nat) returns (turn: Turn)
    requires style.Tagged? && OccursAt(body, style.open, p)
    ensures Reads(style, body, p, turn)
  {
    var inner := p + |style.open|;
    var gt := Find(body, ">", inner);
    if gt.None? {
      StopsWithoutShut(style, body, p);
      return Stop;
    }
    var name := NameIn(style, body[inner..gt.value]);
    TagTurn(style, body, p, gt.value, name);
    var item := ReadNamed(style, body, p, gt.value, name);
    if item.None? {
      return Stop;
    }
    turn := Resume(item.value.end, if item.value.pair.Some? then [item.value.pair.value] else []);
  }

  method ReadValue(style: Style, body: string, p: nat, keyEnd: nat) returns (item: Option<Item>)
    requires style.Keyed? && p + |style.open| <= keyEnd <= keyEnd + |style.shut| <= |body|
    ensures item == KeyItem(style, body, p, keyEnd)
  {
    var key := Trim(body[p + |style.open|..keyEnd]);
    var open := Find(body, style.begin, keyEnd + |style.shut|);
    if open.None? {
      return None;
    }
    var close := Find(body, style.close, open.value + |style.begin|);
    if close.None? {
      return None;
    }
    var end := close.value + |style.close|;
    if key == [] {
      return Some(Item(end, None));
    }
    item := Some(Item(end, Some(Pair(key, body[open.value + |style.begin|..close.value], p, end))));
  }

  lemma StopsWithoutShut(style: Style, body: string, p: nat)
    requires OccursAt(body, style.open, p) && Find(body, Bound(style), p + |style.open|).None?
    ensures Reads(style, body, p, Stop)
  {
    UnboundedIsBarren(style, body, p);
    BarrenIsEmpty(style, body, p);
  }

  lemma KeyTurn(style: Style, body: string, p: nat, keyEnd: nat)
    requires style.Keyed? && OccursAt(body, style.open, p) && Find(body, style.shut, p + |style.open|) == Some(keyEnd)
    ensures var item := KeyItem(style, body, p, keyEnd);
            && (item.None? ==> Reads(style, body, p, Stop))
            && (item.Some? ==>
                  Reads(style, body, p, Resume(item.value.end, if item.value.pair.Some? then [item.value.pair.value] else [])))
  {
    var item := KeyItem(style, body, p, keyEnd);
    if item.None? {
      ValuelessIsBarren(style, body, p, keyEnd);
      BarrenIsEmpty(style, body, p);
    } else {
      TakeItem(style, body, p, item.value);
    }
  }

  method ReadKeyValue(style: Style, body: string, p: nat) returns (turn: Turn)
    requires style.Keyed? && OccursAt(body, style.open, p)
    ensures Reads(style, body, p, turn)
  {
    var keyEnd := Find(body, style.shut, p + |style.open|);
    if keyEnd.None? {
      StopsWithoutShut(style, body, p);
      return Stop;
    }
    KeyTurn(style, body, p, keyEnd.value);
    var item := ReadValue(style, body, p, keyEnd.value);
    if item.None? {
      return Stop;
    }
    turn := Resume(item.value.end, if item.value.pair.Some? then [item.value.pair.value] else []);
  }

  method ReadItem(style: Style, body: string, p: nat) returns (turn: Turn)
    requires OccursAt(body, style.open, p)
    ensures Reads(style, body, p, turn)
  {
    if style.Keyed? {
      turn := ReadKeyValue(style, body, p);
    } else {
      turn := ReadTag(style, body, p);
    }
  }

  lemma NextMarker(style: Style, body: string, from: nat)
    requires from <= |body|
    ensures var hit := Find(body, style.open, from);
            Pairs(style, body, from) == if hit.Some? then Pairs(style, body, hit.value) else []
  {
    var hit := Find(body, style.open, from);
    SkipTo(style, body, from, if hit.Some? then hit.value else |body|);
  }

  method Insert(args: seq<Field>, read: seq<Pair>, parse: string -> Option<Value>, ghost found: seq<Pair>)
    returns (more: seq<Field>)
    requires |read| <= 1 && args == ArgumentsOf(found, parse)
    ensures more == ArgumentsOf(found + read, parse)
  {
    if read == [] {
      assert found + read == found;
      return args;
    }
    assert found + read == found + [read[0]];
    FrontAppend(found, read[0]);
    more := Put(args, read[0].key, ParamValue(read[0].raw, parse));
  }

  lemma Regroup(a: seq<Pair>, b: seq<Pair>, c: seq<Pair>)
    ensures a + (b + c) == (a + b) + c && a + [] == a
  {
  }

  /** The loop the three styles share, inserting as it goes. */
  method CollectArguments(style: Style, body: string, parse: string -> Option<Value>) returns (args: seq<Field>)
    ensures args == Arguments(style, body, parse)
  {
    args := [];
    ghost var found: seq<Pair> := [];
    var cursor := 0;
    while true
      invariant cursor <= |body| && args == ArgumentsOf(found, parse)
      invariant found + Pairs(style, body, cursor) == Pairs(style, body, 0)
      decreases |body| - cursor
    {
      var hit := Find(body, style.open, cursor);
      NextMarker(style, body, cursor);
      Regroup(found, [], []);
      if hit.None? {
        break;
      }
      var turn := ReadItem(style, body, hit.value);
      if turn.Stop? {
        break;
      }
      Regroup(found, turn.read, Pairs(style, body, turn.next));
      args := Insert(args, turn.read, parse, found);
      found := found + turn.read;
      cursor := turn.next;
    }
  }

  // ----- what the arguments are ----------------------------------------------------------------------------

  /** The last pair with this key. */
  function LastWith(pairs: seq<Pair>, key: string): Option<Pair> {
    if pairs == [] then None else if Last(pairs).key == key then Some(Last(pairs)) else LastWith(Front(pairs), key)
  }

  function Lookup(fields: seq<Field>, key: string): Option<Value> {
    var i := KeyIndex(fields, key);
    if i.Some? then Some(fields[i.value].value) else None
  }

  lemma UniqueIndex(fields: seq<Field>, i: nat)
    requires DistinctKeys(fields) && i < |fields|
    ensures KeyIndex(fields, fields[i].key) == Some(i)
  {
    assert fields[i] in fields;
  }

  lemma PutDistinct(fields: seq<Field>, key: string, v: Value)
    requires DistinctKeys(fields)
    ensures DistinctKeys(Put(fields, key, v))
  {
    if KeyIndex(fields, key).None? {
      assert forall i :: 0 <= i < |fields| ==> fields[i] in fields;
    }
  }

  lemma PutLookup(fields: seq<Field>, key: string, v: Value, other: string)
    requires DistinctKeys(fields)
    ensures Lookup(Put(fields, key, v), other) == if other == key then Some(v) else Lookup(fields, other)
  {
    var after := Put(fields, key, v);
    PutDistinct(fields, key, v);
    var at := KeyIndex(fields, key);
    var n := if at.Some? then at.value else |fields|;
    assert after[n] == Field(key, v);
    if other == key {
      UniqueIndex(after, n);
    } else {
      var i := KeyIndex(fields, other);
      if i.Some? {
        assert after[i.value] == fields[i.value];
        UniqueIndex(after, i.value);
      } else {
        forall f | f in after ensures f.key != other {
          var k :| 0 <= k < |after| && after[k] == f;
          assert k < |fields| && k != n ==> after[k] == fields[k] && fields[k] in fields;
        }
      }
    }
  }

  /** Keys are distinct, and each holds the value of the last pair that names it. */
  lemma {:induction false} LastPairWins(pairs: seq<Pair>, parse: string -> Option<Value>, key: string)
    ensures DistinctKeys(ArgumentsOf(pairs, parse))
    ensures Lookup(ArgumentsOf(pairs, parse), key) ==
            var last := LastWith(pairs, key); if last.Some? then Some(ParamValue(last.value.raw, parse)) else None
    ensures ArgumentsOf(pairs, parse) == [] <==> pairs == []
  {
    if pairs != [] {
      LastPairWins(Front(pairs), parse, key);
      var past, v := ArgumentsOf(Front(pairs), parse), ParamValue(Last(pairs).raw, parse);
      PutDistinct(past, Last(pairs).key, v);
      PutLookup(past, Last(pairs).key, v, key);
    }
  }
}
