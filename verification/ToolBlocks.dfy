/** Tool-call blocks written as text: fenced, `<function=...>`, `<invoke ...>` and `<tool_call>` elements. */
module ToolBlocks {
  import opened Ordering
  import opened Text
  import opened CodeRanges
  import opened Json
  import ToolArguments

  datatype Call = Call(name: string, arguments: Value)

  datatype Block = Block(call: Call, start: nat, end: nat)

  datatype Format = Fenced | FunctionTag | InvokeTag | ToolCallTag

  /** The text with its code ranges. Parsing a value, and a whole call, from JSON are deterministic functions given from
      outside. */
  datatype Source = Source(
    text: string,
    code: seq<Range>,
    parseCall: string -> Option<Call>,
    parseJson: string -> Option<Value>)

  /** An element starting at some position: where scanning resumes, and the call it makes if any. */
  datatype Region = Region(end: nat, call: Option<Call>)

  const FENCE := "```tool_call"
  const TICKS := "```"
  const FUNCTION_OPEN := "<function="
  const FUNCTION_CLOSE := "</function>"
  const INVOKE_OPEN := "<invoke"
  const INVOKE_CLOSE := "</invoke>"
  const CALL_OPEN := "<tool_call>"
  const CALL_CLOSE := "</tool_call>"
  const ARG_KEY := "<arg_key>"

  function NamedArguments(s: Source, style: ToolArguments.Style, body: string): seq<Field> {
    ToolArguments.Arguments(style, body, s.parseJson)
  }

  function CallWith(name: string, arguments: seq<Field>): Option<Call> {
    if arguments == [] then None else Some(Call(name, Object(arguments)))
  }

  // ----- the element that starts at a position ----------------------------------------------------

  function FencedRegion(s: Source, p: nat): Option<Region> {
    if !OccursAt(s.text, FENCE, p) then None
    else
      var close := Find(s.text, TICKS, p + |FENCE|);
      if close.None? then None
      else Some(Region(close.value + |TICKS|, s.parseCall(Trim(s.text[p + |FENCE|..close.value]))))
  }

  function SkipWhitespace(text: string, i: nat): (j: nat)
    requires i <= |text|
    ensures i <= j <= |text|
    decreases |text| - i
  {
    if i < |text| && IsWhitespace(text[i]) then SkipWhitespace(text, i + 1) else i
  }

  /** A closing wrapper tag after the element belongs to it. */
  function PastWrapper(text: string, end: nat): nat
    requires end <= |text|
  {
    var i := SkipWhitespace(text, end);
    if OccursAt(text, CALL_CLOSE, i) then i + |CALL_CLOSE| else end
  }

  /** The element whose opening tag ends at `nameEnd`, if its closing tag follows. */
  function FunctionBody(s: Source, nameEnd: nat, name: string): (r: Option<Region>)
    requires nameEnd < |s.text|
    ensures r.Some? ==> nameEnd < r.value.end <= |s.text|
    ensures r.None? <==> Find(s.text, FUNCTION_CLOSE, nameEnd + 1).None?
  {
    var close := Find(s.text, FUNCTION_CLOSE, nameEnd + 1);
    if close.None? then None
    else Some(Region(PastWrapper(s.text, close.value + |FUNCTION_CLOSE|),
                     CallWith(name, NamedArguments(s, ToolArguments.PARAMETERS, s.text[nameEnd + 1..close.value]))))
  }

  function FunctionRegion(s: Source, p: nat): Option<Region> {
    if !OccursAt(s.text, FUNCTION_OPEN, p) || Inside(p, s.code) then None
    else
      var nameEnd := Find(s.text, ">", p + |FUNCTION_OPEN|);
      if nameEnd.None? then None
      else
        var name := Trim(s.text[p + |FUNCTION_OPEN|..nameEnd.value]);
        if !ToolArguments.IsValidName(name) then None else FunctionBody(s, nameEnd.value, name)
  }

  /** An opening tag without a usable name, or never closed, is passed over as a whole. */
  function InvokeBody(s: Source, tagEnd: nat, name: Option<string>): (r: Region)
    requires tagEnd < |s.text|
    ensures tagEnd < r.end <= |s.text|
  {
    var close := Find(s.text, INVOKE_CLOSE, tagEnd + 1);
    if name.None? || !ToolArguments.IsValidName(name.value) || close.None? then Region(tagEnd + 1, None)
    else Region(close.value + |INVOKE_CLOSE|,
                CallWith(name.value, NamedArguments(s, ToolArguments.ARGS, s.text[tagEnd + 1..close.value])))
  }

  function InvokeRegion(s: Source, p: nat): Option<Region> {
    if !OccursAt(s.text, INVOKE_OPEN, p) || Inside(p, s.code) then None
    else
      var tagEnd := Find(s.text, ">", p + |INVOKE_OPEN|);
      if tagEnd.None? then None
      else Some(InvokeBody(s, tagEnd.value, ToolArguments.NameAttribute(s.text[p + |INVOKE_OPEN|..tagEnd.value])))
  }

  /** A JSON body or a body without arguments is left to other readers but still passed over. */
  function ToolCallRegion(s: Source, p: nat): Option<Region> {
    if !OccursAt(s.text, CALL_OPEN, p) || Inside(p, s.code) then None
    else
      var close := Find(s.text, CALL_CLOSE, p + |CALL_OPEN|);
      if close.None? then None
      else
        ToolCallElement(s, s.text[p + |CALL_OPEN|..close.value], close.value + |CALL_CLOSE|)
  }

  function ToolCallElement(s: Source, inner: string, end: nat): (r: Option<Region>)
    ensures r.Some? ==> r.value.end == end
  {
    if ToolCallNames(inner) then Some(Region(end, ToolCallIn(s, inner))) else None
  }

  predicate StartsWithBrace(inner: string) {
    var body := TrimStart(inner);
    body != [] && body[0] == '{'
  }

  /** Where the tool name in the body of a `<tool_call>` ends. */
  function ToolNameEnd(inner: string): (n: nat)
    ensures n <= |inner|
  {
    var key := Find(inner, ARG_KEY, 0);
    if key.Some? then key.value else |inner|
  }

  /** The body is JSON or begins with a tool name. */
  predicate ToolCallNames(inner: string) {
    StartsWithBrace(inner) || ToolArguments.IsValidName(Trim(inner[..ToolNameEnd(inner)]))
  }

  function ToolCallIn(s: Source, inner: string): Option<Call> {
    var n := ToolNameEnd(inner);
    if StartsWithBrace(inner) || n == |inner| then None
    else CallWith(Trim(inner[..n]), NamedArguments(s, ToolArguments.KEY_VALUES, inner[n..]))
  }

  function RegionAt(s: Source, f: Format, p: nat): (r: Option<Region>)
    ensures r.Some? ==> p < r.value.end <= |s.text|
    ensures r.Some? && !f.Fenced? ==> !Inside(p, s.code)
  {
    match f
    case Fenced => FencedRegion(s, p)
    case FunctionTag => FunctionRegion(s, p)
    case InvokeTag => InvokeRegion(s, p)
    case ToolCallTag => ToolCallRegion(s, p)
  }

  /** The simple reading: at each position take the element that starts there, otherwise move one character on. */
  function Select(s: Source, f: Format, from: nat): seq<Block>
    decreases |s.text| - from
  {
    if from >= |s.text| then []
    else
      var r := RegionAt(s, f, from);
      if r.None? then Select(s, f, from + 1)
      else (if r.value.call.Some? then [Block(r.value.call.value, from, r.value.end)] else [])
           + Select(s, f, r.value.end)
  }

  /** Blocks in order, non-empty, disjoint, between `from` and `limit`. */
  ghost predicate Disjoint(blocks: seq<Block>, from: nat, limit: nat) {
    && (forall i :: 0 <= i < |blocks| ==> from <= blocks[i].start < blocks[i].end <= limit)
    && (forall i, j :: 0 <= i < j < |blocks| ==> blocks[i].end <= blocks[j].start)
  }

  /** The block is the complete element starting at its position, outside code unless fenced. */
  ghost predicate IsElement(s: Source, f: Format, b: Block) {
    RegionAt(s, f, b.start) == Some(Region(b.end, Some(b.call))) && (!f.Fenced? ==> !Inside(b.start, s.code))
  }

  lemma DisjointAfter(head: seq<Block>, tail: seq<Block>, from: nat, next: nat, limit: nat)
    requires |head| <= 1 && from <= next && Disjoint(tail, next, limit)
    requires head != [] ==> from <= head[0].start < head[0].end <= next <= limit
    ensures Disjoint(head + tail, from, limit)
  {
  }

  lemma {:induction false} SelectedDisjoint(s: Source, f: Format, from: nat)
    ensures Disjoint(Select(s, f, from), from, |s.text|)
    decreases |s.text| - from
  {
    if from < |s.text| {
      var r := RegionAt(s, f, from);
      var next := if r.None? then from + 1 else r.value.end;
      SelectedDisjoint(s, f, next);
      var head := if r.Some? && r.value.call.Some? then [Block(r.value.call.value, from, next)] else [];
      DisjointAfter(head, Select(s, f, next), from, next, |s.text|);
      assert head + Select(s, f, next) == Select(s, f, from);
    }
  }

  lemma {:induction false} SelectedElements(s: Source, f: Format, from: nat)
    ensures forall b :: b in Select(s, f, from) ==> IsElement(s, f, b)
    decreases |s.text| - from
  {
    if from < |s.text| {
      var r := RegionAt(s, f, from);
      SelectedElements(s, f, if r.None? then from + 1 else r.value.end);
    }
  }

  // ----- jumping ahead is safe -----------------------------------------------------------------------

  lemma SkipOne(s: Source, f: Format, a: nat)
    requires a < |s.text| && RegionAt(s, f, a).None?
    ensures Select(s, f, a) == Select(s, f, a + 1)
  {
  }

  lemma {:induction false} SkipTo(s: Source, f: Format, a: nat, b: nat, read: seq<Block>)
    requires a <= b <= |s.text| && forall p :: a <= p < b ==> RegionAt(s, f, p).None?
    requires read == Select(s, f, b)
    ensures Select(s, f, a) == read
    decreases b - a
  {
    if a < b {
      SkipOne(s, f, b - 1);
      SkipTo(s, f, a, b - 1, read);
    }
  }

  lemma Skip(s: Source, f: Format, a: nat, b: nat)
    requires a <= b <= |s.text| && forall p :: a <= p < b ==> RegionAt(s, f, p).None?
    ensures Select(s, f, a) == Select(s, f, b)
  {
    SkipTo(s, f, a, b, Select(s, f, b));
  }

  lemma SkipRest(s: Source, f: Format, a: nat)
    requires a <= |s.text| && forall p :: a <= p < |s.text| ==> RegionAt(s, f, p).None?
    ensures Select(s, f, a) == []
  {
    Skip(s, f, a, |s.text|);
  }

  function Marker(f: Format): string {
    match f
    case Fenced => FENCE
    case FunctionTag => FUNCTION_OPEN
    case InvokeTag => INVOKE_OPEN
    case ToolCallTag => CALL_OPEN
  }

  lemma RegionNeedsMarker(s: Source, f: Format, p: nat)
    ensures RegionAt(s, f, p).Some? ==> OccursAt(s.text, Marker(f), p)
  {
  }

  lemma SkipToMarker(s: Source, f: Format, from: nat)
    requires from <= |s.text|
    ensures var hit := Find(s.text, Marker(f), from);
            Select(s, f, from) == if hit.Some? then Select(s, f, hit.value) else []
  {
    var hit := Find(s.text, Marker(f), from);
    forall p | from <= p < (if hit.Some? then hit.value else |s.text|) ensures RegionAt(s, f, p).None? {
      RegionNeedsMarker(s, f, p);
    }
    if hit.Some? {
      Skip(s, f, from, hit.value);
    } else {
      SkipRest(s, f, from);
    }
  }

  /** No marker starts inside another: its first character does not recur in it. */
  lemma TagsDoNotOverlap(s: Source, f: Format, p: nat, q: nat)
    requires !f.Fenced? && OccursAt(s.text, Marker(f), p) && p < q < p + |Marker(f)|
    ensures !OccursAt(s.text, Marker(f), q)
  {
    var m := Marker(f);
    assert s.text[p..p + |m|][q - p] == m[q - p];
    assert m[q - p] != '<';
    OccursHead(s.text, m, q);
  }

  lemma OccursHead(text: string, needle: string, i: nat)
    requires needle != []
    ensures OccursAt(text, needle, i) ==> text[i] == needle[0]
  {
    if OccursAt(text, needle, i) {
      assert text[i..i + |needle|][0] == text[i];
    }
  }

  lemma NoneInMarker(s: Source, f: Format, p: nat, q: nat)
    requires !f.Fenced? && OccursAt(s.text, Marker(f), p) && p < q < p + |Marker(f)|
    ensures RegionAt(s, f, q).None?
  {
    TagsDoNotOverlap(s, f, p, q);
    RegionNeedsMarker(s, f, q);
  }

  lemma SkipMarker(s: Source, f: Format, p: nat)
    requires !f.Fenced? && OccursAt(s.text, Marker(f), p) && RegionAt(s, f, p).None?
    ensures Select(s, f, p) == Select(s, f, p + |Marker(f)|)
  {
    forall q | p < q < p + |Marker(f)| ensures RegionAt(s, f, q).None? {
      NoneInMarker(s, f, p, q);
    }
    Skip(s, f, p, p + |Marker(f)|);
  }

  // ----- the collectors ---------------------------------------------------------------------------------

  /** What one turn of a collector does at a marker: stop, or resume at `next` having read `read`. */
  datatype Turn = Stop | Resume(next: nat, read: seq<Block>)

  ghost predicate Reads(s: Source, f: Format, start: nat, turn: Turn) {
    if turn.Stop? then Select(s, f, start) == []
    else start < turn.next <= |s.text| && Select(s, f, start) == turn.read + Select(s, f, turn.next)
  }

  lemma PassOver(s: Source, f: Format, start: nat, next: nat)
    requires start < next <= |s.text| && Select(s, f, start) == Select(s, f, next)
    ensures Reads(s, f, start, Resume(next, []))
  {
    assert [] + Select(s, f, next) == Select(s, f, next);
  }

  function TakenBlock(call: Option<Call>, start: nat, end: nat): seq<Block> {
    if call.Some? then [Block(call.value, start, end)] else []
  }

  lemma TakeRegion(s: Source, f: Format, start: nat, end: nat, call: Option<Call>)
    requires start < |s.text| && RegionAt(s, f, start) == Some(Region(end, call))
    ensures Reads(s, f, start, Resume(end, TakenBlock(call, start, end)))
  {
  }

  lemma PassMarker(s: Source, f: Format, start: nat)
    requires !f.Fenced? && OccursAt(s.text, Marker(f), start) && RegionAt(s, f, start).None?
    ensures Reads(s, f, start, Resume(start + |Marker(f)|, []))
  {
    SkipMarker(s, f, start);
    PassOver(s, f, start, start + |Marker(f)|);
  }

  lemma PassCoded(s: Source, f: Format, start: nat)
    requires !f.Fenced? && OccursAt(s.text, Marker(f), start) && Inside(start, s.code)
    ensures Reads(s, f, start, Resume(start + |Marker(f)|, []))
  {
    PassMarker(s, f, start);
  }

  lemma StopHere(s: Source, f: Format, start: nat)
    requires start <= |s.text| && forall q :: start <= q < |s.text| ==> RegionAt(s, f, q).None?
    ensures Reads(s, f, start, Stop)
  {
    SkipRest(s, f, start);
  }

  method ReadFenced(s: Source, start: nat) returns (turn: Turn)
    requires OccursAt(s.text, FENCE, start)
    ensures Reads(s, Fenced, start, turn)
  {
    var afterMarker := start + |FENCE|;
    var close := Find(s.text, TICKS, afterMarker);
    if close.None? {
      NoCloserNoRegion(s, Fenced, start, afterMarker);
      SkipRest(s, Fenced, start);
      return Stop;
    }
    var end := close.value + |TICKS|;
    var parsed := s.parseCall(Trim(s.text[afterMarker..close.value]));
    TakeRegion(s, Fenced, start, end, parsed);
    turn := Resume(end, TakenBlock(parsed, start, end));
  }

  method ReadFunction(s: Source, start: nat) returns (turn: Turn)
    requires OccursAt(s.text, FUNCTION_OPEN, start)
    ensures Reads(s, FunctionTag, start, turn)
  {
    var afterMarker := start + |FUNCTION_OPEN|;
    if Inside(start, s.code) {
      PassCoded(s, FunctionTag, start);
      return Resume(afterMarker, []);
    }
    var nameEnd := Find(s.text, ">", afterMarker);
    if nameEnd.None? {
      UnclosedTagNoRegion(s, FunctionTag, start);
      StopHere(s, FunctionTag, start);
      return Stop;
    }
    var name := Trim(s.text[afterMarker..nameEnd.value]);
    if !ToolArguments.IsValidName(name) {
      PassUnnamedFunction(s, start, nameEnd.value);
      return Resume(afterMarker, []);
    }
    turn := ReadNamedFunction(s, start, nameEnd.value, name);
  }

  lemma PassUnnamedFunction(s: Source, start: nat, nameEnd: nat)
    requires OccursAt(s.text, FUNCTION_OPEN, start) && Find(s.text, ">", start + |FUNCTION_OPEN|) == Some(nameEnd)
    requires !ToolArguments.IsValidName(Trim(s.text[start + |FUNCTION_OPEN|..nameEnd]))
    ensures Reads(s, FunctionTag, start, Resume(start + |FUNCTION_OPEN|, []))
  {
    PassMarker(s, FunctionTag, start);
  }

  method ReadNamedFunction(s: Source, start: nat, nameEnd: nat, name: string) returns (turn: Turn)
    requires OccursAt(s.text, FUNCTION_OPEN, start) && !Inside(start, s.code)
    requires Find(s.text, ">", start + |FUNCTION_OPEN|) == Some(nameEnd)
    requires name == Trim(s.text[start + |FUNCTION_OPEN|..nameEnd]) && ToolArguments.IsValidName(name)
    ensures Reads(s, FunctionTag, start, turn)
  {
    var region := ReadFunctionBody(s, nameEnd, name);
    if region.None? {
      PassUnclosed(s, start, nameEnd);
      return Resume(nameEnd + 1, []);
    }
    TakeFunction(s, start, nameEnd, name);
    turn := Resume(region.value.end, TakenBlock(region.value.call, start, region.value.end));
  }

  lemma TakeFunction(s: Source, start: nat, nameEnd: nat, name: string)
    requires OccursAt(s.text, FUNCTION_OPEN, start) && !Inside(start, s.code)
    requires Find(s.text, ">", start + |FUNCTION_OPEN|) == Some(nameEnd)
    requires name == Trim(s.text[start + |FUNCTION_OPEN|..nameEnd]) && ToolArguments.IsValidName(name)
    requires FunctionBody(s, nameEnd, name).Some?
    ensures var r := FunctionBody(s, nameEnd, name).value;
            Reads(s, FunctionTag, start, Resume(r.end, TakenBlock(r.call, start, r.end)))
  {
    var r := FunctionBody(s, nameEnd, name).value;
    TakeRegion(s, FunctionTag, start, r.end, r.call);
  }

  lemma PassUnclosed(s: Source, start: nat, nameEnd: nat)
    requires start + |FUNCTION_OPEN| <= nameEnd < |s.text|
    requires Find(s.text, ">", start + |FUNCTION_OPEN|) == Some(nameEnd) && Find(s.text, FUNCTION_CLOSE, nameEnd + 1).None?
    ensures Reads(s, FunctionTag, start, Resume(nameEnd + 1, []))
  {
    UnclosedFunctions(s, start, nameEnd);
    Skip(s, FunctionTag, start, nameEnd + 1);
    PassOver(s, FunctionTag, start, nameEnd + 1);
  }

  method ReadFunctionBody(s: Source, nameEnd: nat, name: string) returns (region: Option<Region>)
    requires nameEnd < |s.text|
    ensures region == FunctionBody(s, nameEnd, name)
  {
    var close := Find(s.text, FUNCTION_CLOSE, nameEnd + 1);
    if close.None? {
      return None;
    }
    var arguments := ToolArguments.CollectArguments(ToolArguments.PARAMETERS, s.text[nameEnd + 1..close.value], s.parseJson);
    var call := CallWith(name, arguments);
    region := Some(Region(PastWrapper(s.text, close.value + |FUNCTION_CLOSE|), call));
  }

  method ReadInvoke(s: Source, start: nat) returns (turn: Turn)
    requires OccursAt(s.text, INVOKE_OPEN, start)
    ensures Reads(s, InvokeTag, start, turn)
  {
    var afterMarker := start + |INVOKE_OPEN|;
    if Inside(start, s.code) {
      PassCoded(s, InvokeTag, start);
      return Resume(afterMarker, []);
    }
    var tagEnd := Find(s.text, ">", afterMarker);
    if tagEnd.None? {
      UnclosedTagNoRegion(s, InvokeTag, start);
      StopHere(s, InvokeTag, start);
      return Stop;
    }
    var name := ToolArguments.NameAttribute(s.text[afterMarker..tagEnd.value]);
    var region := ReadInvokeBody(s, tagEnd.value, name);
    TakeInvoke(s, start, tagEnd.value, name);
    turn := Resume(region.end, TakenBlock(region.call, start, region.end));
  }

  lemma TakeInvoke(s: Source, start: nat, tagEnd: nat, name: Option<string>)
    requires OccursAt(s.text, INVOKE_OPEN, start) && !Inside(start, s.code)
    requires Find(s.text, ">", start + |INVOKE_OPEN|) == Some(tagEnd)
    requires name == ToolArguments.NameAttribute(s.text[start + |INVOKE_OPEN|..tagEnd])
    ensures var r := InvokeBody(s, tagEnd, name);
            Reads(s, InvokeTag, start, Resume(r.end, TakenBlock(r.call, start, r.end)))
  {
    var r := InvokeBody(s, tagEnd, name);
    TakeRegion(s, InvokeTag, start, r.end, r.call);
  }

  method ReadInvokeBody(s: Source, tagEnd: nat, name: Option<string>) returns (region: Region)
    requires tagEnd < |s.text|
    ensures region == InvokeBody(s, tagEnd, name)
  {
    var bodyStart := tagEnd + 1;
    if name.None? || !ToolArguments.IsValidName(name.value) {
      return Region(bodyStart, None);
    }
    var close := Find(s.text, INVOKE_CLOSE, bodyStart);
    if close.None? {
      return Region(bodyStart, None);
    }
    var arguments := ToolArguments.CollectArguments(ToolArguments.ARGS, s.text[bodyStart..close.value], s.parseJson);
    region := Region(close.value + |INVOKE_CLOSE|, CallWith(name.value, arguments));
  }

  method ReadToolCall(s: Source, start: nat) returns (turn: Turn)
    requires OccursAt(s.text, CALL_OPEN, start)
    ensures Reads(s, ToolCallTag, start, turn)
  {
    var contentStart := start + |CALL_OPEN|;
    if Inside(start, s.code) {
      PassCoded(s, ToolCallTag, start);
      return Resume(contentStart, []);
    }
    var close := Find(s.text, CALL_CLOSE, contentStart);
    if close.None? {
      NoCloserNoRegion(s, ToolCallTag, start, contentStart);
      StopHere(s, ToolCallTag, start);
      return Stop;
    }
    turn := ReadClosedToolCall(s, start, close.value);
  }

  method ReadClosedToolCall(s: Source, start: nat, close: nat) returns (turn: Turn)
    requires OccursAt(s.text, CALL_OPEN, start) && !Inside(start, s.code)
    requires Find(s.text, CALL_CLOSE, start + |CALL_OPEN|) == Some(close)
    ensures Reads(s, ToolCallTag, start, turn)
  {
    var contentStart, end := start + |CALL_OPEN|, close + |CALL_CLOSE|;
    var inner := s.text[contentStart..close];
    var named, call := ReadToolCallBody(s, inner);
    if !named {
      UnnamedIsNone(s, start, close, inner);
      PassOpening(s, start);
      return Resume(contentStart, []);
    }
    TakeToolCall(s, start, close, inner);
    turn := Resume(end, TakenBlock(call, start, end));
  }

  lemma TakeToolCall(s: Source, start: nat, close: nat, inner: string)
    requires OccursAt(s.text, CALL_OPEN, start) && !Inside(start, s.code) && ToolCallNames(inner)
    requires Find(s.text, CALL_CLOSE, start + |CALL_OPEN|) == Some(close) && inner == s.text[start + |CALL_OPEN|..close]
    ensures var end := close + |CALL_CLOSE|;
            Reads(s, ToolCallTag, start, Resume(end, TakenBlock(ToolCallIn(s, inner), start, end)))
  {
    TakeRegion(s, ToolCallTag, start, close + |CALL_CLOSE|, ToolCallIn(s, inner));
  }

  lemma PassOpening(s: Source, start: nat)
    requires OccursAt(s.text, CALL_OPEN, start) && RegionAt(s, ToolCallTag, start).None?
    ensures Reads(s, ToolCallTag, start, Resume(start + |CALL_OPEN|, []))
  {
    PassMarker(s, ToolCallTag, start);
  }

  lemma UnnamedIsNone(s: Source, start: nat, close: nat, inner: string)
    requires OccursAt(s.text, CALL_OPEN, start) && !Inside(start, s.code) && !ToolCallNames(inner)
    requires Find(s.text, CALL_CLOSE, start + |CALL_OPEN|) == Some(close) && inner == s.text[start + |CALL_OPEN|..close]
    ensures RegionAt(s, ToolCallTag, start).None?
  {
  }

  method ReadToolCallBody(s: Source, inner: string) returns (named: bool, call: Option<Call>)
    ensures named <==> ToolCallNames(inner)
    ensures named ==> call == ToolCallIn(s, inner)
  {
    var body := TrimStart(inner);
    if body != [] && body[0] == '{' {
      return true, None;
    }
    var key := Find(inner, ARG_KEY, 0);
    var nameEnd := if key.Some? then key.value else |inner|;
    var name := Trim(inner[..nameEnd]);
    if !ToolArguments.IsValidName(name) {
      return false, None;
    }
    if nameEnd == |inner| {
      return true, None;
    }
    var arguments := ToolArguments.CollectArguments(ToolArguments.KEY_VALUES, inner[nameEnd..], s.parseJson);
    return true, CallWith(name, arguments);
  }

  /** The search loop the four collectors share: jump to the next marker and read there. */
  method Collect(s: Source, f: Format) returns (found: seq<Block>)
    ensures found == Select(s, f, 0)
  {
    found := [];
    var searchFrom := 0;
    while true
      invariant searchFrom <= |s.text| && found + Select(s, f, searchFrom) == Select(s, f, 0)
      decreases |s.text| - searchFrom
    {
      var hit := Find(s.text, Marker(f), searchFrom);
      SkipToMarker(s, f, searchFrom);
      if hit.None? {
        break;
      }
      var turn: Turn;
      match f {
        case Fenced => turn := ReadFenced(s, hit.value);
        case FunctionTag => turn := ReadFunction(s, hit.value);
        case InvokeTag => turn := ReadInvoke(s, hit.value);
        case ToolCallTag => turn := ReadToolCall(s, hit.value);
      }
      if turn.Stop? {
        break;
      }
      found := found + turn.read;
      searchFrom := turn.next;
    }
  }

  /** Without the closing text after `bound` no element starting at or after `p` is complete. */
  lemma NoCloserNoRegion(s: Source, f: Format, p: nat, bound: nat)
    requires f.Fenced? || f.ToolCallTag?
    requires bound == p + |Marker(f)| <= |s.text|
    requires Find(s.text, if f.Fenced? then TICKS else CALL_CLOSE, bound).None?
    ensures forall q :: p <= q < |s.text| ==> RegionAt(s, f, q).None?
  {
    var closer := if f.Fenced? then TICKS else CALL_CLOSE;
    assert forall i :: bound <= i ==> !OccursAt(s.text, closer, i);
  }

  lemma UnclosedTagNoRegion(s: Source, f: Format, p: nat)
    requires f.FunctionTag? || f.InvokeTag?
    requires p + |Marker(f)| <= |s.text| && Find(s.text, ">", p + |Marker(f)|).None?
    ensures forall q :: p <= q < |s.text| ==> RegionAt(s, f, q).None?
  {
    assert forall i :: p + |Marker(f)| <= i ==> !OccursAt(s.text, ">", i);
  }

  lemma UnclosedFunctions(s: Source, p: nat, nameEnd: nat)
    requires p + |FUNCTION_OPEN| <= nameEnd < |s.text|
    requires Find(s.text, ">", p + |FUNCTION_OPEN|) == Some(nameEnd) && Find(s.text, FUNCTION_CLOSE, nameEnd + 1).None?
    ensures forall q :: p <= q < |s.text| ==> RegionAt(s, FunctionTag, q).None?
  {
    assert forall i :: nameEnd + 1 <= i ==> !OccursAt(s.text, FUNCTION_CLOSE, i);
    forall q | p <= q < |s.text| ensures FunctionRegion(s, q).None? {
      if OccursAt(s.text, FUNCTION_OPEN, q) {
        var end := Find(s.text, ">", q + |FUNCTION_OPEN|);
        assert end.Some? ==> end.value >= nameEnd;
      }
    }
  }
}
