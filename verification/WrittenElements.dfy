/** Reading back tool-call elements as they are written. */
module WrittenElements {
  import opened Ordering
  import opened Text
  import opened Json
  import opened CodeRanges
  import opened ToolBlocks
  import opened WrittenArguments
  import ToolArguments

  // ----- what a body does not contain ---------------------------------------------------------------------------

  /** A tag that is not the beginning of `needle` nor begins with it, and does not contain another tag. */
  predicate Clashes(tag: string, needle: string, at: nat) {
    at < |tag| && at < |needle| && tag[at] != needle[at] && '<' !in tag[1..]
  }

  lemma TagHasNone(text: string, p: nat, tag: string, needle: string, at: nat)
    requires OccursAt(text, tag, p) && Clashes(tag, needle, at) && needle[0] == '<'
    ensures forall i :: p <= i < p + |tag| ==> !OccursAt(text, needle, i)
  {
    forall i | p <= i < p + |tag| ensures !OccursAt(text, needle, i) {
      if i == p {
        assert text[p + at] == tag[at];
      } else {
        assert text[p + (i - p)] == tag[i - p] == tag[1..][i - p - 1];
        assert text[i + 0] != needle[0];
      }
    }
  }

  /** Plain text, or a tag that clashes. */
  ghost predicate Clean(part: string, needle: string) {
    '<' !in part || exists at: nat :: Clashes(part, needle, at)
  }

  lemma PartHasNone(text: string, p: nat, part: string, needle: string)
    requires OccursAt(text, part, p) && Clean(part, needle) && needle != "" && needle[0] == '<'
    ensures forall i :: p <= i < p + |part| ==> !OccursAt(text, needle, i)
  {
    if '<' !in part {
      PlainHasNone(text, p, part, needle);
    } else {
      var at: nat :| Clashes(part, needle, at);
      TagHasNone(text, p, part, needle, at);
    }
  }

  ghost predicate AllClean(parts: seq<string>, needle: string) {
    parts == [] || (Clean(parts[0], needle) && AllClean(parts[1..], needle))
  }

  lemma {:induction false} OrderHasNone(text: string, p: nat, parts: seq<string>, needle: string)
    requires InOrder(text, p, parts) && AllClean(parts, needle) && needle != "" && needle[0] == '<'
    ensures forall i :: p <= i < p + Length(parts) ==> !OccursAt(text, needle, i)
    decreases |parts|
  {
    if parts != [] {
      PartHasNone(text, p, parts[0], needle);
      OrderHasNone(text, p + |parts[0]|, parts[1..], needle);
    }
  }

  /** The style's tags cannot be taken for `needle`. */
  ghost predicate Distinguishes(style: ToolArguments.Style, needle: string) {
    && needle != "" && needle[0] == '<' && Clean(style.open, needle) && Clean(style.close, needle)
    && (style.Keyed? ==> Clean(style.shut, needle) && Clean(style.begin, needle))
  }

  lemma CleanCons(part: string, parts: seq<string>, needle: string)
    requires Clean(part, needle) && AllClean(parts, needle)
    ensures AllClean([part] + parts, needle)
  {
    assert ([part] + parts)[1..] == parts;
  }

  lemma PartsAreClean(style: ToolArguments.Style, w: Written, needle: string)
    requires Distinguishes(style, needle) && Writable(style, w)
    ensures AllClean(Parts(style, w), needle)
  {
    assert AllClean([], needle);
    CleanCons(style.close, [], needle);
    CleanCons(w.value, [style.close], needle);
    assert [w.value] + [style.close] == [w.value, style.close];
    if style.Keyed? {
      CleanCons(style.begin, [w.value, style.close], needle);
      CleanCons(style.shut, [style.begin, w.value, style.close], needle);
      CleanCons(w.key, [style.shut, style.begin, w.value, style.close], needle);
      CleanCons(style.open, [w.key, style.shut, style.begin, w.value, style.close], needle);
    } else {
      KeyHasNoTag(style, w);
      CleanCons(">", [w.value, style.close], needle);
      CleanCons(Within(style, w.key), [">", w.value, style.close], needle);
      CleanCons(style.open, [Within(style, w.key), ">", w.value, style.close], needle);
    }
  }

  lemma KeyHasNoTag(style: ToolArguments.Style, w: Written)
    requires style.Tagged? && Writable(style, w)
    ensures '<' !in Within(style, w.key)
  {
    if !style.attribute {
      NameIsTrimmed(w.key);
    }
  }

  lemma {:induction false} BodyHasNone(style: ToolArguments.Style, text: string, p: nat, ws: seq<Written>, needle: string)
    requires Distinguishes(style, needle) && AllWritable(style, ws) && OccursAt(text, WriteBody(style, ws), p)
    ensures forall i :: p <= i < p + |WriteBody(style, ws)| ==> !OccursAt(text, needle, i)
    decreases |ws|
  {
    if ws != [] {
      var w, more := ws[0], WriteBody(style, ws[1..]);
      var q := p + |w.filler|;
      Two(text, p, WriteBody(style, ws), w.filler, WritePair(style, w) + more);
      Two(text, q, WritePair(style, w) + more, WritePair(style, w), more);
      PlainHasNone(text, p, w.filler, needle);
      PairHasNone(style, text, q, w, needle);
      BodyHasNone(style, text, q + |WritePair(style, w)|, ws[1..], needle);
    }
  }

  lemma PairHasNone(style: ToolArguments.Style, text: string, q: nat, w: Written, needle: string)
    requires Distinguishes(style, needle) && Writable(style, w) && OccursAt(text, WritePair(style, w), q)
    ensures forall i :: q <= i < q + |WritePair(style, w)| ==> !OccursAt(text, needle, i)
  {
    GlueInOrder(text, q, Parts(style, w));
    PartsAreClean(style, w, needle);
    OrderHasNone(text, q, Parts(style, w), needle);
  }

  /** Past a body the closing text is found where it is written. */
  lemma FindPastBody(style: ToolArguments.Style, text: string, p: nat, ws: seq<Written>, needle: string)
    requires Distinguishes(style, needle) && AllWritable(style, ws) && OccursAt(text, WriteBody(style, ws), p)
    requires OccursAt(text, needle, p + |WriteBody(style, ws)|)
    ensures Find(text, needle, p) == Some(p + |WriteBody(style, ws)|)
  {
    BodyHasNone(style, text, p, ws, needle);
    FirstOccurrence(text, needle, p, p + |WriteBody(style, ws)|);
  }

  lemma TagIsClean(tag: string, needle: string, at: nat)
    requires Clashes(tag, needle, at)
    ensures Clean(tag, needle)
  {
  }

  lemma ParametersStandOut()
    ensures Distinguishes(ToolArguments.PARAMETERS, "</function>")
  {
    TagIsClean("<parameter=", "</function>", 1);
    TagIsClean("</parameter>", "</function>", 2);
  }

  lemma ArgsStandOut()
    ensures Distinguishes(ToolArguments.ARGS, "</invoke>")
  {
    TagIsClean("<arg", "</invoke>", 1);
    TagIsClean("</arg>", "</invoke>", 2);
  }

  lemma KeyTagsAreClean()
    ensures Clean("<arg_key>", "</tool_call>") && Clean("</arg_key>", "</tool_call>")
  {
    TagIsClean("<arg_key>", "</tool_call>", 1);
    TagIsClean("</arg_key>", "</tool_call>", 2);
  }

  lemma ValueTagsAreClean()
    ensures Clean("<arg_value>", "</tool_call>") && Clean("</arg_value>", "</tool_call>")
  {
    TagIsClean("<arg_value>", "</tool_call>", 1);
    TagIsClean("</arg_value>", "</tool_call>", 2);
  }

  lemma KeysStandOut()
    ensures Distinguishes(ToolArguments.KEY_VALUES, "</tool_call>")
  {
    KeyTagsAreClean();
    ValueTagsAreClean();
  }

  // ----- the arguments of an element ----------------------------------------------------------------------------

  /** The call an element makes: none without arguments. */
  function CallOf(name: string, ws: seq<Written>, parse: string -> Option<Value>): Option<Call> {
    if ws == [] then None else Some(Call(name, Object(Fields(ws, parse))))
  }

  lemma BodyMakesCall(style: ToolArguments.Style, name: string, ws: seq<Written>, parse: string -> Option<Value>)
    requires BeginAsTags(style) && AllWritable(style, ws) && DistinctNames(ws)
    ensures CallWith(name, ToolArguments.Arguments(style, WriteBody(style, ws), parse)) == CallOf(name, ws, parse)
  {
    WrittenBodyIsRead(style, ws, "", parse);
    assert WriteBody(style, ws) + "" == WriteBody(style, ws);
    FieldKeys(ws, parse);
  }

  // ----- what is read where -----------------------------------------------------------------------------------------

  /** A whole element, or what is left of it after its name, after its opening tag, or between its tags. */
  datatype Place =
    | At(f: Format, start: nat)
    | AfterName(nameEnd: nat, name: string)
    | AfterTag(tagEnd: nat, name: string)
    | Between(inner: string, end: nat)

  function Reading(s: Source, place: Place): Option<Region> {
    match place
    case At(f, start) => RegionAt(s, f, start)
    case AfterName(nameEnd, name) => if nameEnd < |s.text| then FunctionBody(s, nameEnd, name) else None
    case AfterTag(tagEnd, name) => if tagEnd < |s.text| then Some(InvokeBody(s, tagEnd, Some(name))) else None
    case Between(inner, end) => ToolCallElement(s, inner, end)
  }

  /** What is read there ends at `end` and makes this call. The countdown keeps what that means out of sight until
      `UnsealReading` asks for it. */
  ghost predicate SealedReading(countdown: nat, s: Source, place: Place, end: nat, call: Option<Call>)
    decreases countdown
  {
    if countdown == 0 then Reading(s, place) == Some(Region(end, call)) else SealedReading(countdown - 1, s, place, end, call)
  }

  ghost predicate Makes(s: Source, place: Place, end: nat, call: Option<Call>) {
    SealedReading(5, s, place, end, call)
  }

  lemma {:induction false} SealedMakes(countdown: nat, s: Source, place: Place, end: nat, call: Option<Call>)
    ensures SealedReading(countdown, s, place, end, call) <==> Reading(s, place) == Some(Region(end, call))
    decreases countdown
  {
    if countdown > 0 {
      SealedMakes(countdown - 1, s, place, end, call);
    }
  }

  lemma UnsealReading(s: Source, place: Place, end: nat, call: Option<Call>)
    ensures Makes(s, place, end, call) <==> Reading(s, place) == Some(Region(end, call))
  {
    SealedMakes(5, s, place, end, call);
  }

  // ----- function elements ------------------------------------------------------------------------------------------

  lemma NameFollows(text: string, q: nat, name: string)
    requires IsPlainName(name) && OccursAt(text, name, q) && OccursAt(text, ">", q + |name|)
    ensures Find(text, ">", q) == Some(q + |name|) && Trim(text[q..q + |name|]) == name
  {
    NameIsTrimmed(name);
    TrimIdle(name);
    FindAfter(text, q, name, ">");
    Slice(text, q, name);
  }

  lemma FunctionTagRead(s: Source, p: nat, nameEnd: nat, name: string)
    requires OccursAt(s.text, FUNCTION_OPEN, p) && p + |FUNCTION_OPEN| <= nameEnd < |s.text| && !Inside(p, s.code)
    requires Find(s.text, ">", p + |FUNCTION_OPEN|) == Some(nameEnd)
    requires Trim(s.text[p + |FUNCTION_OPEN|..nameEnd]) == name && ToolArguments.IsValidName(name)
    ensures RegionAt(s, FunctionTag, p) == FunctionBody(s, nameEnd, name)
  {
  }

  lemma FunctionOpens(s: Source, p: nat, nameEnd: nat, name: string, end: nat, call: Option<Call>)
    requires OccursAt(s.text, FUNCTION_OPEN, p) && OccursAt(s.text, name, p + |FUNCTION_OPEN|) && IsPlainName(name)
    requires nameEnd == p + |FUNCTION_OPEN| + |name| && OccursAt(s.text, ">", nameEnd) && !Inside(p, s.code)
    requires Makes(s, AfterName(nameEnd, name), end, call)
    ensures Makes(s, At(FunctionTag, p), end, call)
  {
    NameFollows(s.text, p + |FUNCTION_OPEN|, name);
    NameIsTrimmed(name);
    FunctionTagRead(s, p, nameEnd, name);
    UnsealReading(s, AfterName(nameEnd, name), end, call);
    UnsealReading(s, At(FunctionTag, p), end, call);
  }

  /** A body is followed by its closing text, and makes this call. */
  ghost predicate BodyStands(style: ToolArguments.Style, s: Source, p: nat, body: string, close: string, name: string, call: Option<Call>) {
    && OccursAt(s.text, body, p) && Find(s.text, close, p) == Some(p + |body|)
    && CallWith(name, ToolArguments.Arguments(style, body, s.parseJson)) == call
  }

  lemma WrittenBodyStands(style: ToolArguments.Style, s: Source, p: nat, ws: seq<Written>, close: string, name: string)
    requires BeginAsTags(style) && Distinguishes(style, close) && AllWritable(style, ws) && DistinctNames(ws)
    requires OccursAt(s.text, WriteBody(style, ws), p) && OccursAt(s.text, close, p + |WriteBody(style, ws)|)
    ensures BodyStands(style, s, p, WriteBody(style, ws), close, name, CallOf(name, ws, s.parseJson))
  {
    FindPastBody(style, s.text, p, ws, close);
    BodyMakesCall(style, name, ws, s.parseJson);
  }

  lemma ParametersStand(s: Source, p: nat, ws: seq<Written>, name: string)
    requires AllWritable(ToolArguments.PARAMETERS, ws) && DistinctNames(ws)
    requires OccursAt(s.text, WriteBody(ToolArguments.PARAMETERS, ws), p)
    requires OccursAt(s.text, FUNCTION_CLOSE, p + |WriteBody(ToolArguments.PARAMETERS, ws)|)
    ensures BodyStands(ToolArguments.PARAMETERS, s, p, WriteBody(ToolArguments.PARAMETERS, ws), FUNCTION_CLOSE, name,
                       CallOf(name, ws, s.parseJson))
  {
    ParametersStandOut();
    WrittenBodyStands(ToolArguments.PARAMETERS, s, p, ws, FUNCTION_CLOSE, name);
  }

  /** What follows the element is not taken for its wrapper. */
  ghost predicate Unwrapped(text: string, end: nat) {
    end <= |text| ==> PastWrapper(text, end) == end
  }

  lemma FunctionCloses(s: Source, nameEnd: nat, name: string, body: string, end: nat, call: Option<Call>)
    requires BodyStands(ToolArguments.PARAMETERS, s, nameEnd + 1, body, FUNCTION_CLOSE, name, call)
    requires end == nameEnd + 1 + |body| + |FUNCTION_CLOSE| && Unwrapped(s.text, end)
    ensures Makes(s, AfterName(nameEnd, name), end, call)
  {
    Slice(s.text, nameEnd + 1, body);
    UnsealReading(s, AfterName(nameEnd, name), end, call);
  }

  // ----- invoke elements ------------------------------------------------------------------------------------------------

  lemma InvokeTagRead(s: Source, p: nat, attributes: string, tagEnd: nat, name: string)
    requires OccursAt(s.text, INVOKE_OPEN, p) && tagEnd == p + |INVOKE_OPEN| + |attributes| < |s.text| && !Inside(p, s.code)
    requires Find(s.text, ">", p + |INVOKE_OPEN|) == Some(tagEnd) && s.text[p + |INVOKE_OPEN|..tagEnd] == attributes
    requires ToolArguments.NameAttribute(attributes) == Some(name)
    ensures RegionAt(s, InvokeTag, p) == Some(InvokeBody(s, tagEnd, Some(name)))
  {
  }

  lemma InvokeOpens(s: Source, p: nat, attributes: string, tagEnd: nat, name: string, end: nat, call: Option<Call>)
    requires OccursAt(s.text, INVOKE_OPEN, p) && OccursAt(s.text, attributes, p + |INVOKE_OPEN|) && '>' !in attributes
    requires tagEnd == p + |INVOKE_OPEN| + |attributes| && OccursAt(s.text, ">", tagEnd) && !Inside(p, s.code)
    requires ToolArguments.NameAttribute(attributes) == Some(name) && Makes(s, AfterTag(tagEnd, name), end, call)
    ensures Makes(s, At(InvokeTag, p), end, call)
  {
    FindAfter(s.text, p + |INVOKE_OPEN|, attributes, ">");
    Slice(s.text, p + |INVOKE_OPEN|, attributes);
    InvokeTagRead(s, p, attributes, tagEnd, name);
    UnsealReading(s, AfterTag(tagEnd, name), end, call);
    UnsealReading(s, At(InvokeTag, p), end, call);
  }

  lemma InvokeCloses(s: Source, tagEnd: nat, name: string, body: string, end: nat, call: Option<Call>)
    requires BodyStands(ToolArguments.ARGS, s, tagEnd + 1, body, INVOKE_CLOSE, name, call) && IsPlainName(name)
    requires end == tagEnd + 1 + |body| + |INVOKE_CLOSE|
    ensures Makes(s, AfterTag(tagEnd, name), end, call)
  {
    NameIsTrimmed(name);
    Slice(s.text, tagEnd + 1, body);
    UnsealReading(s, AfterTag(tagEnd, name), end, call);
  }

  // ----- tool_call elements ----------------------------------------------------------------------------------------------

  /** A name and a body right after it. */
  function Inner(name: string, ws: seq<Written>): string {
    name + WriteBody(ToolArguments.KEY_VALUES, ws)
  }

  lemma NameHasNone(text: string, p: nat, name: string, needle: string)
    requires IsPlainName(name) && OccursAt(text, name, p) && needle != "" && needle[0] == '<'
    ensures forall i :: p <= i < p + |name| ==> !OccursAt(text, needle, i)
  {
    NameIsTrimmed(name);
    PlainHasNone(text, p, name, needle);
  }

  lemma InnerHasNone(text: string, p: nat, name: string, ws: seq<Written>, needle: string)
    requires IsPlainName(name) && AllWritable(ToolArguments.KEY_VALUES, ws) && OccursAt(text, Inner(name, ws), p)
    requires Distinguishes(ToolArguments.KEY_VALUES, needle)
    ensures forall i :: p <= i < p + |Inner(name, ws)| ==> !OccursAt(text, needle, i)
  {
    Two(text, p, Inner(name, ws), name, WriteBody(ToolArguments.KEY_VALUES, ws));
    NameHasNone(text, p, name, needle);
    BodyHasNone(ToolArguments.KEY_VALUES, text, p + |name|, ws, needle);
  }

  lemma InnerEnds(s: Source, p: nat, name: string, ws: seq<Written>)
    requires IsPlainName(name) && AllWritable(ToolArguments.KEY_VALUES, ws)
    requires OccursAt(s.text, Inner(name, ws), p) && OccursAt(s.text, CALL_CLOSE, p + |Inner(name, ws)|)
    ensures Find(s.text, CALL_CLOSE, p) == Some(p + |Inner(name, ws)|)
  {
    InnerIsPassed(s.text, p, name, ws);
    FirstOccurrence(s.text, CALL_CLOSE, p, p + |Inner(name, ws)|);
  }

  lemma InnerIsPassed(text: string, p: nat, name: string, ws: seq<Written>)
    requires IsPlainName(name) && AllWritable(ToolArguments.KEY_VALUES, ws) && OccursAt(text, Inner(name, ws), p)
    ensures forall i :: p <= i < p + |Inner(name, ws)| ==> !OccursAt(text, CALL_CLOSE, i)
  {
    KeysStandOut();
    InnerHasNone(text, p, name, ws, CALL_CLOSE);
  }

  lemma InnerName(name: string, ws: seq<Written>)
    requires IsPlainName(name) && (ws != [] ==> ws[0].filler == "")
    ensures ToolNameEnd(Inner(name, ws)) == |name| && !StartsWithBrace(Inner(name, ws))
    ensures Inner(name, ws)[..|name|] == name && Inner(name, ws)[|name|..] == WriteBody(ToolArguments.KEY_VALUES, ws)
  {
    var inner, body := Inner(name, ws), WriteBody(ToolArguments.KEY_VALUES, ws);
    NameIsTrimmed(name);
    assert inner[0] == name[0] && name[0] in name;
    assert OccursAt(inner, inner, 0);
    Two(inner, 0, inner, name, body);
    PlainHasNone(inner, 0, name, ARG_KEY);
    if ws == [] {
      NoKey(inner, name);
    } else {
      BodyStartsWithKey(inner, |name|, ws);
      FirstOccurrence(inner, ARG_KEY, 0, |name|);
    }
  }

  lemma NoKey(inner: string, name: string)
    requires inner == name + "" && '<' !in name
    ensures Find(inner, ARG_KEY, 0).None?
  {
    assert inner == name;
    assert forall i :: 0 <= i < |inner| ==> inner[i] in name;
    var hit := Find(inner, ARG_KEY, 0);
    if hit.Some? {
      HeadMustMatch(inner, ARG_KEY, hit.value);
      assert false;
    }
  }

  lemma BodyStartsWithKey(text: string, p: nat, ws: seq<Written>)
    requires ws != [] && ws[0].filler == "" && OccursAt(text, WriteBody(ToolArguments.KEY_VALUES, ws), p)
    ensures OccursAt(text, ARG_KEY, p)
  {
    var style, w := ToolArguments.KEY_VALUES, ws[0];
    var more := WriteBody(style, ws[1..]);
    Two(text, p, WriteBody(style, ws), w.filler, WritePair(style, w) + more);
    Two(text, p, WritePair(style, w) + more, WritePair(style, w), more);
    GlueInOrder(text, p, Parts(style, w));
  }

  lemma InnerMakesCall(s: Source, name: string, ws: seq<Written>)
    requires IsPlainName(name) && AllWritable(ToolArguments.KEY_VALUES, ws) && DistinctNames(ws)
    requires ws != [] ==> ws[0].filler == ""
    ensures ToolCallNames(Inner(name, ws)) && ToolCallIn(s, Inner(name, ws)) == CallOf(name, ws, s.parseJson)
  {
    KeysStandOut();
    NameIsTrimmed(name);
    TrimIdle(name);
    InnerName(name, ws);
    if ws != [] {
      BodyNotEmpty(ws);
      BodyMakesCall(ToolArguments.KEY_VALUES, name, ws, s.parseJson);
    }
  }

  lemma BodyNotEmpty(ws: seq<Written>)
    requires ws != []
    ensures WriteBody(ToolArguments.KEY_VALUES, ws) != ""
  {
    var style := ToolArguments.KEY_VALUES;
    assert Parts(style, ws[0])[0] == style.open;
  }

  lemma ToolCallRead(s: Source, p: nat, inner: string, end: nat)
    requires OccursAt(s.text, CALL_OPEN, p) && !Inside(p, s.code) && end == p + |CALL_OPEN| + |inner| + |CALL_CLOSE|
    requires Find(s.text, CALL_CLOSE, p + |CALL_OPEN|) == Some(p + |CALL_OPEN| + |inner|) && end <= |s.text|
    requires s.text[p + |CALL_OPEN|..p + |CALL_OPEN| + |inner|] == inner
    ensures ToolCallRegion(s, p) == ToolCallElement(s, inner, end)
  {
  }

  lemma ToolCallCloses(s: Source, p: nat, inner: string, end: nat, call: Option<Call>)
    requires OccursAt(s.text, CALL_OPEN, p) && !Inside(p, s.code) && OccursAt(s.text, inner, p + |CALL_OPEN|)
    requires Find(s.text, CALL_CLOSE, p + |CALL_OPEN|) == Some(p + |CALL_OPEN| + |inner|)
    requires end == p + |CALL_OPEN| + |inner| + |CALL_CLOSE| && Makes(s, Between(inner, end), end, call)
    ensures Makes(s, At(ToolCallTag, p), end, call)
  {
    Slice(s.text, p + |CALL_OPEN|, inner);
    ToolCallRead(s, p, inner, end);
    ToolCallJoins(s, p, inner, end, call);
  }

  lemma ToolCallJoins(s: Source, p: nat, inner: string, end: nat, call: Option<Call>)
    requires ToolCallRegion(s, p) == ToolCallElement(s, inner, end) && Makes(s, Between(inner, end), end, call)
    ensures Makes(s, At(ToolCallTag, p), end, call)
  {
    UnsealReading(s, Between(inner, end), end, call);
    UnsealReading(s, At(ToolCallTag, p), end, call);
  }

  lemma ToolCallMakes(s: Source, name: string, ws: seq<Written>, end: nat, call: Option<Call>)
    requires IsPlainName(name) && AllWritable(ToolArguments.KEY_VALUES, ws) && DistinctNames(ws)
    requires (ws != [] ==> ws[0].filler == "") && call == CallOf(name, ws, s.parseJson)
    ensures Makes(s, Between(Inner(name, ws), end), end, call)
  {
    InnerMakesCall(s, name, ws);
    UnsealReading(s, Between(Inner(name, ws), end), end, call);
  }

  // ----- fenced elements ----------------------------------------------------------------------------------------------------

  lemma FencedCloses(s: Source, p: nat, json: string)
    requires OccursAt(s.text, FENCE, p) && OccursAt(s.text, json, p + |FENCE|) && '`' !in json
    requires OccursAt(s.text, TICKS, p + |FENCE| + |json|)
    ensures FencedRegion(s, p) == Some(Region(p + |FENCE| + |json| + |TICKS|, s.parseCall(Trim(json))))
  {
    FindAfter(s.text, p + |FENCE|, json, TICKS);
    Slice(s.text, p + |FENCE|, json);
  }

  // ----- one element in a text -----------------------------------------------------------------------------------------------

  /** How each format writes a call. Fenced elements hold a JSON text instead. */
  function Element(f: Format, name: string, ws: seq<Written>): seq<string>
    requires !f.Fenced?
  {
    match f
    case FunctionTag => ["<function=", name, ">", WriteBody(ToolArguments.PARAMETERS, ws), "</function>"]
    case InvokeTag => ["<invoke", " name=\"" + name + "\"", ">", WriteBody(ToolArguments.ARGS, ws), "</invoke>"]
    case ToolCallTag => ["<tool_call>", Inner(name, ws), "</tool_call>", "", ""]
  }

  function StyleOf(f: Format): ToolArguments.Style {
    match f
    case InvokeTag => ToolArguments.ARGS
    case ToolCallTag => ToolArguments.KEY_VALUES
    case _ => ToolArguments.PARAMETERS
  }

  /** A name and arguments the format can write. */
  ghost predicate Expressible(f: Format, name: string, ws: seq<Written>) {
    && IsPlainName(name) && AllWritable(StyleOf(f), ws) && DistinctNames(ws)
    && (f.ToolCallTag? && ws != [] ==> ws[0].filler == "")
  }

  /** An element stands at `p`. The countdown keeps what that means out of sight until `Unseal` asks for it. */
  ghost predicate Sealed(countdown: nat, text: string, p: nat, f: Format, name: string, ws: seq<Written>)
    requires !f.Fenced?
    decreases countdown
  {
    if countdown == 0 then InOrder(text, p, Element(f, name, ws)) else Sealed(countdown - 1, text, p, f, name, ws)
  }

  ghost predicate Stands(text: string, p: nat, f: Format, name: string, ws: seq<Written>)
    requires !f.Fenced?
  {
    Sealed(5, text, p, f, name, ws)
  }

  lemma {:induction false} SealedIsInOrder(countdown: nat, text: string, p: nat, f: Format, name: string, ws: seq<Written>)
    requires !f.Fenced?
    ensures Sealed(countdown, text, p, f, name, ws) <==> InOrder(text, p, Element(f, name, ws))
    decreases countdown
  {
    if countdown > 0 {
      SealedIsInOrder(countdown - 1, text, p, f, name, ws);
    }
  }

  lemma Unseal(text: string, p: nat, f: Format, name: string, ws: seq<Written>)
    requires !f.Fenced?
    ensures Stands(text, p, f, name, ws) <==> InOrder(text, p, Element(f, name, ws))
  {
    SealedIsInOrder(5, text, p, f, name, ws);
  }

  lemma FunctionOpenPlaced(text: string, p: nat, name: string, ws: seq<Written>)
    requires Stands(text, p, FunctionTag, name, ws)
    ensures OccursAt(text, FUNCTION_OPEN, p) && OccursAt(text, name, p + |FUNCTION_OPEN|)
    ensures OccursAt(text, ">", p + |FUNCTION_OPEN| + |name|)
  {
    Unseal(text, p, FunctionTag, name, ws);
    FiveParts(text, p, FUNCTION_OPEN, name, ">", WriteBody(ToolArguments.PARAMETERS, ws), FUNCTION_CLOSE);
  }

  lemma FunctionFirst(s: Source, p: nat, nameEnd: nat, name: string, ws: seq<Written>, end: nat, call: Option<Call>)
    requires Stands(s.text, p, FunctionTag, name, ws) && IsPlainName(name) && !Inside(p, s.code)
    requires nameEnd == p + |FUNCTION_OPEN| + |name| && Makes(s, AfterName(nameEnd, name), end, call)
    ensures Makes(s, At(FunctionTag, p), end, call)
  {
    FunctionOpenPlaced(s.text, p, name, ws);
    FunctionOpens(s, p, nameEnd, name, end, call);
  }

  lemma FunctionBodyPlaced(text: string, p: nat, nameEnd: nat, name: string, ws: seq<Written>)
    requires nameEnd == p + |FUNCTION_OPEN| + |name| && Stands(text, p, FunctionTag, name, ws)
    ensures OccursAt(text, WriteBody(ToolArguments.PARAMETERS, ws), nameEnd + 1)
    ensures OccursAt(text, FUNCTION_CLOSE, nameEnd + 1 + |WriteBody(ToolArguments.PARAMETERS, ws)|)
  {
    Unseal(text, p, FunctionTag, name, ws);
    FiveParts(text, p, FUNCTION_OPEN, name, ">", WriteBody(ToolArguments.PARAMETERS, ws), FUNCTION_CLOSE);
  }

  lemma FunctionSecond(s: Source, p: nat, nameEnd: nat, name: string, ws: seq<Written>)
    requires AllWritable(ToolArguments.PARAMETERS, ws) && DistinctNames(ws) && nameEnd == p + |FUNCTION_OPEN| + |name|
    requires Stands(s.text, p, FunctionTag, name, ws)
    ensures BodyStands(ToolArguments.PARAMETERS, s, nameEnd + 1, WriteBody(ToolArguments.PARAMETERS, ws), FUNCTION_CLOSE, name,
                       CallOf(name, ws, s.parseJson))
  {
    FunctionBodyPlaced(s.text, p, nameEnd, name, ws);
    ParametersStand(s, nameEnd + 1, ws, name);
  }

  lemma FunctionThird(s: Source, p: nat, nameEnd: nat, name: string, ws: seq<Written>, end: nat)
    requires AllWritable(ToolArguments.PARAMETERS, ws) && DistinctNames(ws) && nameEnd == p + |FUNCTION_OPEN| + |name|
    requires Stands(s.text, p, FunctionTag, name, ws) && end == p + ElementSize(FunctionTag, name, ws) && Unwrapped(s.text, end)
    ensures Makes(s, AfterName(nameEnd, name), end, CallOf(name, ws, s.parseJson))
  {
    FunctionSecond(s, p, nameEnd, name, ws);
    FunctionCloses(s, nameEnd, name, WriteBody(ToolArguments.PARAMETERS, ws), end, CallOf(name, ws, s.parseJson));
  }

  lemma InvokeOpenPlaced(text: string, p: nat, attributes: string, name: string, ws: seq<Written>)
    requires Stands(text, p, InvokeTag, name, ws) && attributes == " name=\"" + name + "\""
    ensures OccursAt(text, INVOKE_OPEN, p) && OccursAt(text, attributes, p + |INVOKE_OPEN|)
    ensures OccursAt(text, ">", p + |INVOKE_OPEN| + |attributes|)
  {
    Unseal(text, p, InvokeTag, name, ws);
    FiveParts(text, p, INVOKE_OPEN, attributes, ">", WriteBody(ToolArguments.ARGS, ws), INVOKE_CLOSE);
  }

  lemma InvokeFirst(s: Source, p: nat, attributes: string, tagEnd: nat, name: string, ws: seq<Written>, end: nat, call: Option<Call>)
    requires Stands(s.text, p, InvokeTag, name, ws) && !Inside(p, s.code) && attributes == " name=\"" + name + "\""
    requires IsPlainName(name) && tagEnd == p + |INVOKE_OPEN| + |attributes| && Makes(s, AfterTag(tagEnd, name), end, call)
    ensures Makes(s, At(InvokeTag, p), end, call)
  {
    InvokeName(name);
    InvokeOpenPlaced(s.text, p, attributes, name, ws);
    InvokeOpens(s, p, attributes, tagEnd, name, end, call);
  }

  lemma InvokeBodyPlaced(text: string, p: nat, tagEnd: nat, attributes: string, name: string, ws: seq<Written>)
    requires tagEnd == p + |INVOKE_OPEN| + |attributes| && Stands(text, p, InvokeTag, name, ws)
    requires attributes == " name=\"" + name + "\""
    ensures OccursAt(text, WriteBody(ToolArguments.ARGS, ws), tagEnd + 1)
    ensures OccursAt(text, INVOKE_CLOSE, tagEnd + 1 + |WriteBody(ToolArguments.ARGS, ws)|)
  {
    Unseal(text, p, InvokeTag, name, ws);
    FiveParts(text, p, INVOKE_OPEN, attributes, ">", WriteBody(ToolArguments.ARGS, ws), INVOKE_CLOSE);
  }

  lemma ArgsStand(s: Source, p: nat, ws: seq<Written>, name: string)
    requires AllWritable(ToolArguments.ARGS, ws) && DistinctNames(ws)
    requires OccursAt(s.text, WriteBody(ToolArguments.ARGS, ws), p)
    requires OccursAt(s.text, INVOKE_CLOSE, p + |WriteBody(ToolArguments.ARGS, ws)|)
    ensures BodyStands(ToolArguments.ARGS, s, p, WriteBody(ToolArguments.ARGS, ws), INVOKE_CLOSE, name,
                       CallOf(name, ws, s.parseJson))
  {
    ArgsStandOut();
    WrittenBodyStands(ToolArguments.ARGS, s, p, ws, INVOKE_CLOSE, name);
  }

  lemma InvokeSecond(s: Source, p: nat, tagEnd: nat, attributes: string, name: string, ws: seq<Written>)
    requires AllWritable(ToolArguments.ARGS, ws) && DistinctNames(ws) && tagEnd == p + |INVOKE_OPEN| + |attributes|
    requires Stands(s.text, p, InvokeTag, name, ws) && attributes == " name=\"" + name + "\""
    ensures BodyStands(ToolArguments.ARGS, s, tagEnd + 1, WriteBody(ToolArguments.ARGS, ws), INVOKE_CLOSE, name,
                       CallOf(name, ws, s.parseJson))
  {
    InvokeBodyPlaced(s.text, p, tagEnd, attributes, name, ws);
    ArgsStand(s, tagEnd + 1, ws, name);
  }

  lemma InvokeThird(s: Source, p: nat, tagEnd: nat, attributes: string, name: string, ws: seq<Written>, end: nat)
    requires AllWritable(ToolArguments.ARGS, ws) && DistinctNames(ws) && tagEnd == p + |INVOKE_OPEN| + |attributes|
    requires Stands(s.text, p, InvokeTag, name, ws) && attributes == " name=\"" + name + "\"" && IsPlainName(name)
    requires end == p + ElementSize(InvokeTag, name, ws)
    ensures Makes(s, AfterTag(tagEnd, name), end, CallOf(name, ws, s.parseJson))
  {
    InvokeSecond(s, p, tagEnd, attributes, name, ws);
    InvokeCloses(s, tagEnd, name, WriteBody(ToolArguments.ARGS, ws), end, CallOf(name, ws, s.parseJson));
  }

  lemma InvokeName(name: string)
    requires IsPlainName(name)
    ensures ToolArguments.NameAttribute(" name=\"" + name + "\"") == Some(name) && '>' !in " name=\"" + name + "\""
  {
    NameIsTrimmed(name);
    NameIsRead(name);
  }

  /** How long a written element is. */
  function ElementSize(f: Format, name: string, ws: seq<Written>): nat {
    match f
    case FunctionTag => |FUNCTION_OPEN| + |name| + 1 + |WriteBody(ToolArguments.PARAMETERS, ws)| + |FUNCTION_CLOSE|
    case InvokeTag => |INVOKE_OPEN| + |" name=\"" + name + "\""| + 1 + |WriteBody(ToolArguments.ARGS, ws)| + |INVOKE_CLOSE|
    case _ => |CALL_OPEN| + |Inner(name, ws)| + |CALL_CLOSE|
  }

  lemma SizeIsLength(f: Format, text: string, p: nat, name: string, ws: seq<Written>)
    requires !f.Fenced? && InOrder(text, p, Element(f, name, ws))
    ensures Length(Element(f, name, ws)) == ElementSize(f, name, ws)
  {
    match f
    case FunctionTag => FiveParts(text, p, FUNCTION_OPEN, name, ">", WriteBody(ToolArguments.PARAMETERS, ws), FUNCTION_CLOSE);
    case InvokeTag =>
      FiveParts(text, p, INVOKE_OPEN, " name=\"" + name + "\"", ">", WriteBody(ToolArguments.ARGS, ws), INVOKE_CLOSE);
    case ToolCallTag => FiveParts(text, p, CALL_OPEN, Inner(name, ws), CALL_CLOSE, "", "");
  }

  lemma ToolCallPlaced(text: string, p: nat, name: string, ws: seq<Written>)
    requires Stands(text, p, ToolCallTag, name, ws)
    ensures OccursAt(text, CALL_OPEN, p) && OccursAt(text, Inner(name, ws), p + |CALL_OPEN|)
    ensures OccursAt(text, CALL_CLOSE, p + |CALL_OPEN| + |Inner(name, ws)|)
  {
    Unseal(text, p, ToolCallTag, name, ws);
    FiveParts(text, p, CALL_OPEN, Inner(name, ws), CALL_CLOSE, "", "");
  }

  lemma ToolCallEnds(s: Source, p: nat, inner: string, name: string, ws: seq<Written>)
    requires Expressible(ToolCallTag, name, ws) && Stands(s.text, p, ToolCallTag, name, ws) && inner == Inner(name, ws)
    ensures OccursAt(s.text, CALL_OPEN, p) && OccursAt(s.text, inner, p + |CALL_OPEN|)
    ensures Find(s.text, CALL_CLOSE, p + |CALL_OPEN|) == Some(p + |CALL_OPEN| + |inner|)
  {
    ToolCallPlaced(s.text, p, name, ws);
    InnerEnds(s, p + |CALL_OPEN|, name, ws);
  }

  lemma ToolCallFirst(s: Source, p: nat, inner: string, name: string, ws: seq<Written>, end: nat, call: Option<Call>)
    requires Expressible(ToolCallTag, name, ws) && Stands(s.text, p, ToolCallTag, name, ws) && !Inside(p, s.code)
    requires inner == Inner(name, ws) && end == p + |CALL_OPEN| + |inner| + |CALL_CLOSE| && Makes(s, Between(inner, end), end, call)
    ensures Makes(s, At(ToolCallTag, p), end, call)
  {
    ToolCallEnds(s, p, inner, name, ws);
    ToolCallCloses(s, p, inner, end, call);
  }

  // ----- a text with one element ---------------------------------------------------------------------------------------------

  lemma NoTagNoMarker(s: Source, f: Format, p: nat)
    requires !f.Fenced? && p <= |s.text| && TagFree(s.text, p)
    ensures Select(s, f, p) == []
  {
    SkipToMarker(s, f, p);
    var hit := Find(s.text, Marker(f), p);
    if hit.Some? {
      HeadMustMatch(s.text, Marker(f), hit.value);
    }
  }

  lemma NoWrapper(text: string, end: nat)
    requires end <= |text| && TagFree(text, end)
    ensures PastWrapper(text, end) == end
  {
    var i := SkipWhitespace(text, end);
    if OccursAt(text, CALL_CLOSE, i) {
      HeadMustMatch(text, CALL_CLOSE, i);
    }
  }

  lemma SelectElement(s: Source, f: Format, p: nat, end: nat, call: Option<Call>)
    requires p < |s.text| && RegionAt(s, f, p) == Some(Region(end, call)) && Select(s, f, end) == []
    ensures Select(s, f, p) == TakenBlock(call, p, end)
  {
    assert TakenBlock(call, p, end) + [] == TakenBlock(call, p, end);
  }

  lemma BeforeElement(s: Source, f: Format, before: string)
    requires !f.Fenced? && OccursAt(s.text, before, 0) && '<' !in before && OccursAt(s.text, Marker(f), |before|)
    ensures Select(s, f, 0) == Select(s, f, |before|)
  {
    MarkerFollows(s.text, f, before);
    SkipToMarker(s, f, 0);
  }

  lemma MarkerFollows(text: string, f: Format, before: string)
    requires !f.Fenced? && OccursAt(text, before, 0) && '<' !in before && OccursAt(text, Marker(f), |before|)
    ensures Find(text, Marker(f), 0) == Some(|before|)
  {
    FindAfter(text, 0, before, Marker(f));
  }

  lemma ElementStarts(f: Format, text: string, p: nat, name: string, ws: seq<Written>)
    requires !f.Fenced? && Stands(text, p, f, name, ws)
    ensures OccursAt(text, Marker(f), p) && p < |text|
  {
    Unseal(text, p, f, name, ws);
  }

  lemma FunctionElement(s: Source, p: nat, name: string, ws: seq<Written>, end: nat, call: Option<Call>)
    requires Expressible(FunctionTag, name, ws) && Stands(s.text, p, FunctionTag, name, ws) && !Inside(p, s.code)
    requires end == p + ElementSize(FunctionTag, name, ws) && Unwrapped(s.text, end) && call == CallOf(name, ws, s.parseJson)
    ensures Makes(s, At(FunctionTag, p), end, call)
  {
    var nameEnd := p + |FUNCTION_OPEN| + |name|;
    FunctionThird(s, p, nameEnd, name, ws, end);
    FunctionFirst(s, p, nameEnd, name, ws, end, call);
  }

  lemma InvokeElement(s: Source, p: nat, attributes: string, name: string, ws: seq<Written>, end: nat, call: Option<Call>)
    requires Expressible(InvokeTag, name, ws) && Stands(s.text, p, InvokeTag, name, ws) && !Inside(p, s.code)
    requires end == p + ElementSize(InvokeTag, name, ws) && call == CallOf(name, ws, s.parseJson)
    requires attributes == " name=\"" + name + "\""
    ensures Makes(s, At(InvokeTag, p), end, call)
  {
    var tagEnd := p + |INVOKE_OPEN| + |attributes|;
    InvokeThird(s, p, tagEnd, attributes, name, ws, end);
    InvokeFirst(s, p, attributes, tagEnd, name, ws, end, call);
  }

  lemma ToolCallIsRead(s: Source, p: nat, name: string, ws: seq<Written>, end: nat, call: Option<Call>)
    requires Expressible(ToolCallTag, name, ws) && Stands(s.text, p, ToolCallTag, name, ws) && !Inside(p, s.code)
    requires end == p + ElementSize(ToolCallTag, name, ws) && call == CallOf(name, ws, s.parseJson)
    ensures Makes(s, At(ToolCallTag, p), end, call)
  {
    ToolCallMakes(s, name, ws, end, call);
    ToolCallFirst(s, p, Inner(name, ws), name, ws, end, call);
  }

  lemma ElementRegion(s: Source, f: Format, p: nat, name: string, ws: seq<Written>, end: nat, call: Option<Call>)
    requires !f.Fenced? && Expressible(f, name, ws) && Stands(s.text, p, f, name, ws) && !Inside(p, s.code)
    requires end == p + ElementSize(f, name, ws) && Unwrapped(s.text, end) && call == CallOf(name, ws, s.parseJson)
    ensures Makes(s, At(f, p), end, call)
  {
    if f == FunctionTag {
      FunctionElement(s, p, name, ws, end, call);
    } else if f == InvokeTag {
      InvokeElement(s, p, " name=\"" + name + "\"", name, ws, end, call);
    } else {
      assert f == ToolCallTag;
      ToolCallIsRead(s, p, name, ws, end, call);
    }
  }

  lemma SelectWhole(s: Source, f: Format, p: nat, end: nat, call: Option<Call>)
    requires p < |s.text| && RegionAt(s, f, p) == Some(Region(end, call)) && Select(s, f, end) == []
    requires Select(s, f, 0) == Select(s, f, p)
    ensures Select(s, f, 0) == TakenBlock(call, p, end)
  {
    SelectElement(s, f, p, end, call);
  }

  lemma ElementAlone(s: Source, f: Format, before: string, end: nat, call: Option<Call>)
    requires !f.Fenced? && OccursAt(s.text, before, 0) && '<' !in before && end <= |s.text| && TagFree(s.text, end)
    requires OccursAt(s.text, Marker(f), |before|) && |before| < |s.text|
    requires Makes(s, At(f, |before|), end, call)
    ensures Select(s, f, 0) == TakenBlock(call, |before|, end)
  {
    UnsealReading(s, At(f, |before|), end, call);
    BeforeElement(s, f, before);
    NoTagNoMarker(s, f, end);
    SelectWhole(s, f, |before|, end, call);
  }

  /** The text around the element, and where it stands. */
  lemma ElementPlaced(text: string, f: Format, before: string, name: string, ws: seq<Written>, after: string)
    requires !f.Fenced? && '<' !in after && text == before + (Glue(Element(f, name, ws)) + after)
    ensures OccursAt(text, before, 0) && Stands(text, |before|, f, name, ws)
    ensures |Glue(Element(f, name, ws))| == ElementSize(f, name, ws)
    ensures |before| + ElementSize(f, name, ws) <= |text| && TagFree(text, |before| + ElementSize(f, name, ws))
  {
    ElementInText(text, before, Element(f, name, ws), after);
    SizeIsLength(f, text, |before|, name, ws);
    Unseal(text, |before|, f, name, ws);
  }

  lemma PlacedElementIsRead(s: Source, f: Format, before: string, name: string, ws: seq<Written>, end: nat, call: Option<Call>)
    requires !f.Fenced? && Expressible(f, name, ws) && '<' !in before && !Inside(|before|, s.code)
    requires OccursAt(s.text, before, 0) && Stands(s.text, |before|, f, name, ws)
    requires end == |before| + ElementSize(f, name, ws) <= |s.text| && TagFree(s.text, end) && call == CallOf(name, ws, s.parseJson)
    ensures Select(s, f, 0) == TakenBlock(call, |before|, end)
  {
    ElementStarts(f, s.text, |before|, name, ws);
    NoWrapper(s.text, end);
    ElementRegion(s, f, |before|, name, ws, end, call);
    ElementAlone(s, f, before, end, call);
  }

  lemma TakenIsBlock(name: string, ws: seq<Written>, parse: string -> Option<Value>, start: nat, end: nat)
    ensures TakenBlock(CallOf(name, ws, parse), start, end) ==
            if ws == [] then [] else [Block(Call(name, Object(Fields(ws, parse))), start, end)]
  {
  }

  lemma WrittenElementIsTaken(s: Source, f: Format, before: string, name: string, ws: seq<Written>, after: string, end: nat)
    requires !f.Fenced? && Expressible(f, name, ws) && '<' !in before && '<' !in after && !Inside(|before|, s.code)
    requires s.text == before + (Glue(Element(f, name, ws)) + after) && end == |before| + |Glue(Element(f, name, ws))|
    ensures Select(s, f, 0) == TakenBlock(CallOf(name, ws, s.parseJson), |before|, end)
  {
    ElementPlaced(s.text, f, before, name, ws, after);
    PlacedElementIsRead(s, f, before, name, ws, end, CallOf(name, ws, s.parseJson));
  }

  /** Reading back what is written: an element outside code gives its name and arguments, and extends over exactly its own
      text; without arguments it gives no call. */
  lemma WrittenElementIsRead(s: Source, f: Format, before: string, name: string, ws: seq<Written>, after: string, end: nat)
    requires !f.Fenced? && Expressible(f, name, ws) && '<' !in before && '<' !in after && !Inside(|before|, s.code)
    requires s.text == before + (Glue(Element(f, name, ws)) + after) && end == |before| + |Glue(Element(f, name, ws))|
    ensures Select(s, f, 0) ==
            if ws == [] then [] else [Block(Call(name, Object(Fields(ws, s.parseJson))), |before|, end)]
  {
    WrittenElementIsTaken(s, f, before, name, ws, after, end);
    TakenIsBlock(name, ws, s.parseJson, |before|, end);
  }

  lemma ElementInText(text: string, before: string, parts: seq<string>, after: string)
    requires text == before + (Glue(parts) + after) && '<' !in after
    ensures OccursAt(text, before, 0) && InOrder(text, |before|, parts) && |Glue(parts)| == Length(parts)
    ensures |before| + Length(parts) <= |text| && TagFree(text, |before| + Length(parts))
  {
    assert OccursAt(text, text, 0);
    Two(text, 0, text, before, Glue(parts) + after);
    Two(text, |before|, Glue(parts) + after, Glue(parts), after);
    GlueInOrder(text, |before|, parts);
    RestIsTagFree(text, |before| + |Glue(parts)|, after);
  }

  lemma RestIsTagFree(text: string, q: nat, after: string)
    requires OccursAt(text, after, q) && q + |after| == |text| && '<' !in after
    ensures TagFree(text, q)
  {
    forall i | q <= i < |text| ensures text[i] != '<' {
      assert text[q + (i - q)] == after[i - q] && after[i - q] in after;
    }
  }

  /** A function element whose closing tag is followed by a `</tool_call>` takes that in. */
  lemma WrapperBelongs(text: string, end: nat, space: string)
    requires AllWhitespace(space) && OccursAt(text, space, end) && OccursAt(text, "</tool_call>", end + |space|)
    ensures PastWrapper(text, end) == end + |space| + |"</tool_call>"|
  {
    HeadMustMatch(text, "</tool_call>", end + |space|);
    PastSpace(text, end, space);
  }

  lemma {:induction false} PastSpace(text: string, i: nat, space: string)
    requires AllWhitespace(space) && OccursAt(text, space, i)
    requires i + |space| < |text| && !IsWhitespace(text[i + |space|])
    ensures SkipWhitespace(text, i) == i + |space|
    decreases |space|
  {
    if space != "" {
      assert text[i + 0] == space[0] && space[0] in space;
      assert space == [space[0]] + space[1..];
      Two(text, i, space, [space[0]], space[1..]);
      PastSpace(text, i + 1, space[1..]);
    }
  }

  lemma NoTicksNoFence(s: Source, p: nat)
    requires p <= |s.text| && forall i :: p <= i < |s.text| ==> s.text[i] != '`'
    ensures Select(s, Fenced, p) == []
  {
    SkipToMarker(s, Fenced, p);
    var hit := Find(s.text, FENCE, p);
    if hit.Some? {
      HeadMustMatch(s.text, FENCE, hit.value);
    }
  }

  lemma FourPlaced(text: string, a: string, b: string, c: string, d: string, e: string)
    requires text == a + b + c + d + e
    ensures OccursAt(text, a, 0) && OccursAt(text, b, |a|) && OccursAt(text, c, |a| + |b|) && OccursAt(text, d, |a| + |b| + |c|)
    ensures |text| == |a| + |b| + |c| + |d| + |e|
    ensures forall i :: |a| + |b| + |c| + |d| <= i < |text| ==> text[i] in e
  {
    GlueFive(a, b, c, d, e);
    assert text == Glue([a, b, c, d, e]);
    GlueInOrder(text, 0, [a, b, c, d, e]);
    FiveParts(text, 0, a, b, c, d, e);
    var end := |a| + |b| + |c| + |d|;
    forall i | end <= i < |text| ensures text[i] in e {
      assert text[end + (i - end)] == e[i - end];
    }
  }

  lemma BeforeFence(s: Source, before: string)
    requires OccursAt(s.text, before, 0) && '`' !in before && OccursAt(s.text, FENCE, |before|)
    ensures Select(s, Fenced, 0) == Select(s, Fenced, |before|)
  {
    FindAfter(s.text, 0, before, FENCE);
    SkipToMarker(s, Fenced, 0);
  }

  /** A fenced element gives the call its JSON text stands for, wherever code is, and extends over exactly its own text. */
  lemma WrittenFenceIsRead(s: Source, before: string, json: string, after: string, end: nat, call: Option<Call>)
    requires s.text == before + "```tool_call" + json + "```" + after && end == |before| + 12 + |json| + 3
    requires '`' !in before && '`' !in json && '`' !in after && call == s.parseCall(Trim(json))
    ensures Select(s, Fenced, 0) == if call.None? then [] else [Block(call.value, |before|, end)]
  {
    FencePlaced(s.text, before, json, after);
    FenceTaken(s, before, json, end, call);
  }

  lemma FenceTaken(s: Source, before: string, json: string, end: nat, call: Option<Call>)
    requires OccursAt(s.text, before, 0) && '`' !in before && '`' !in json && |before| < |s.text|
    requires OccursAt(s.text, FENCE, |before|) && OccursAt(s.text, json, |before| + |FENCE|)
    requires OccursAt(s.text, TICKS, |before| + |FENCE| + |json|) && end == |before| + |FENCE| + |json| + |TICKS|
    requires call == s.parseCall(Trim(json)) && forall i :: end <= i < |s.text| ==> s.text[i] != '`'
    ensures Select(s, Fenced, 0) == if call.None? then [] else [Block(call.value, |before|, end)]
  {
    FenceRead(s, before, json, end);
    TakenWhole(call, |before|, end);
  }

  lemma TakenWhole(call: Option<Call>, start: nat, end: nat)
    ensures TakenBlock(call, start, end) == if call.None? then [] else [Block(call.value, start, end)]
  {
  }

  lemma FencePlaced(text: string, before: string, json: string, after: string)
    requires text == before + "```tool_call" + json + "```" + after && '`' !in after
    ensures OccursAt(text, before, 0) && OccursAt(text, FENCE, |before|) && OccursAt(text, json, |before| + |FENCE|)
    ensures OccursAt(text, TICKS, |before| + |FENCE| + |json|)
    ensures forall i :: |before| + |FENCE| + |json| + |TICKS| <= i < |text| ==> text[i] != '`'
  {
    FourPlaced(text, before, FENCE, json, TICKS, after);
  }

  lemma FenceRegion(s: Source, p: nat, json: string, end: nat, call: Option<Call>)
    requires OccursAt(s.text, FENCE, p) && OccursAt(s.text, json, p + |FENCE|) && '`' !in json
    requires OccursAt(s.text, TICKS, p + |FENCE| + |json|) && end == p + |FENCE| + |json| + |TICKS|
    requires call == s.parseCall(Trim(json))
    ensures RegionAt(s, Fenced, p) == Some(Region(end, call))
  {
    FencedCloses(s, p, json);
  }

  lemma FenceRead(s: Source, before: string, json: string, end: nat)
    requires OccursAt(s.text, before, 0) && '`' !in before && '`' !in json && |before| < |s.text|
    requires OccursAt(s.text, FENCE, |before|) && OccursAt(s.text, json, |before| + |FENCE|)
    requires OccursAt(s.text, TICKS, |before| + |FENCE| + |json|) && end == |before| + |FENCE| + |json| + |TICKS|
    requires forall i :: end <= i < |s.text| ==> s.text[i] != '`'
    ensures Select(s, Fenced, 0) == TakenBlock(s.parseCall(Trim(json)), |before|, end)
  {
    var call := s.parseCall(Trim(json));
    FenceRegion(s, |before|, json, end, call);
    BeforeFence(s, before);
    NoTicksNoFence(s, end);
    SelectWhole(s, Fenced, |before|, end, call);
  }
}
