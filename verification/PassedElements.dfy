/** Elements that are begun but make no call. */
module PassedElements {
  import opened Ordering
  import opened Text
  import opened Json
  import opened CodeRanges
  import opened ToolBlocks
  import opened WrittenArguments
  import WrittenElements
  import ToolArguments

  /** Nothing starts in code but a fence. */
  lemma NothingInCode(s: Source, f: Format, p: nat)
    requires !f.Fenced? && Inside(p, s.code)
    ensures RegionAt(s, f, p).None?
  {
  }

  lemma ValidIsPlain(name: string)
    ensures ToolArguments.IsValidName(name) <==> IsPlainName(name)
  {
  }

  lemma FunctionTagPassed(s: Source, p: nat, nameEnd: nat, name: string)
    requires OccursAt(s.text, FUNCTION_OPEN, p) && p + |FUNCTION_OPEN| <= nameEnd < |s.text|
    requires Find(s.text, ">", p + |FUNCTION_OPEN|) == Some(nameEnd) && s.text[p + |FUNCTION_OPEN|..nameEnd] == name
    requires !ToolArguments.IsValidName(Trim(name)) || Find(s.text, FUNCTION_CLOSE, nameEnd + 1).None?
    ensures RegionAt(s, FunctionTag, p).None?
  {
  }

  /** A function element needs a name of letters, digits, underscores and hyphens, and its closing tag. */
  lemma FunctionIsPassed(s: Source, p: nat, name: string)
    requires OccursAt(s.text, "<function=", p) && OccursAt(s.text, name, p + 10) && OccursAt(s.text, ">", p + 10 + |name|)
    requires '>' !in name
    requires !IsPlainName(Trim(name)) || forall i :: p + 10 + |name| < i ==> !OccursAt(s.text, "</function>", i)
    ensures RegionAt(s, FunctionTag, p).None?
  {
    FollowedByEnd(s.text, p + 10, name);
    ValidIsPlain(Trim(name));
    FunctionTagPassed(s, p, p + 10 + |name|, name);
  }

  lemma NoNameNeedle(attributes: string)
    requires forall i :: !OccursAt(attributes, "name=\"", i)
    ensures ToolArguments.NameAttribute(attributes).None?
  {
  }

  lemma InvokeTagPassed(s: Source, p: nat, tagEnd: nat, attributes: string)
    requires OccursAt(s.text, INVOKE_OPEN, p) && p + |INVOKE_OPEN| <= tagEnd < |s.text| && !Inside(p, s.code)
    requires Find(s.text, ">", p + |INVOKE_OPEN|) == Some(tagEnd) && s.text[p + |INVOKE_OPEN|..tagEnd] == attributes
    requires var name := ToolArguments.NameAttribute(attributes);
             name.None? || !ToolArguments.IsValidName(name.value) || Find(s.text, INVOKE_CLOSE, tagEnd + 1).None?
    ensures RegionAt(s, InvokeTag, p) == Some(Region(tagEnd + 1, None))
  {
  }

  /** Of an invoke element without a name, or without its closing tag, only the opening tag is passed. */
  lemma InvokeIsPassed(s: Source, p: nat, attributes: string)
    requires OccursAt(s.text, "<invoke", p) && OccursAt(s.text, attributes, p + 7) && OccursAt(s.text, ">", p + 7 + |attributes|)
    requires '>' !in attributes && !Inside(p, s.code)
    requires || (forall i :: !OccursAt(attributes, "name=\"", i))
             || (forall i :: p + 7 + |attributes| < i ==> !OccursAt(s.text, "</invoke>", i))
    ensures RegionAt(s, InvokeTag, p) == Some(Region(p + 7 + |attributes| + 1, None))
  {
    FollowedByEnd(s.text, p + 7, attributes);
    if forall i :: !OccursAt(attributes, "name=\"", i) {
      NoNameNeedle(attributes);
    }
    InvokeTagPassed(s, p, p + 7 + |attributes|, attributes);
  }

  lemma MisnamedAttribute(name: string, attributes: string)
    requires attributes == " name=\"" + name + "\"" && '\"' !in name && !IsPlainName(name)
    ensures ToolArguments.NameAttribute(attributes) == Some(name) && !ToolArguments.IsValidName(name)
  {
    NameIsRead(name);
    ValidIsPlain(name);
  }

  lemma MisnamedTag(s: Source, p: nat, name: string, attributes: string)
    requires ToolArguments.NameAttribute(attributes) == Some(name) && !ToolArguments.IsValidName(name) && '>' !in attributes
    requires OccursAt(s.text, "<invoke", p) && OccursAt(s.text, attributes, p + 7) && OccursAt(s.text, ">", p + 7 + |attributes|)
    requires !Inside(p, s.code)
    ensures RegionAt(s, InvokeTag, p) == Some(Region(p + 7 + |attributes| + 1, None))
  {
    FollowedByEnd(s.text, p + 7, attributes);
    InvokeTagPassed(s, p, p + 7 + |attributes|, attributes);
  }

  /** An invoke element named with other characters is passed the same way. */
  lemma MisnamedInvokeIsPassed(s: Source, p: nat, name: string, attributes: string)
    requires attributes == " name=\"" + name + "\"" && '>' !in attributes && '\"' !in name && !IsPlainName(name)
    requires OccursAt(s.text, "<invoke", p) && OccursAt(s.text, attributes, p + 7) && OccursAt(s.text, ">", p + 7 + |attributes|)
    requires !Inside(p, s.code)
    ensures RegionAt(s, InvokeTag, p) == Some(Region(p + 7 + |attributes| + 1, None))
  {
    MisnamedAttribute(name, attributes);
    MisnamedTag(s, p, name, attributes);
  }

  lemma ToolCallBody(s: Source, p: nat, inner: string)
    requires OccursAt(s.text, "<tool_call>", p) && OccursAt(s.text, inner, p + 11) && '<' !in inner
    requires OccursAt(s.text, "</tool_call>", p + 11 + |inner|) && !Inside(p, s.code)
    ensures RegionAt(s, ToolCallTag, p) == ToolCallElement(s, inner, p + 11 + |inner| + 12)
  {
    FindAfter(s.text, p + 11, inner, "</tool_call>");
    Slice(s.text, p + 11, inner);
    WrittenElements.ToolCallRead(s, p, inner, p + 11 + |inner| + 12);
  }

  lemma JsonNames(s: Source, space: string, rest: string, end: nat)
    requires AllWhitespace(space)
    ensures ToolCallElement(s, space + "{" + rest, end) == Some(Region(end, None))
  {
    StartsPastSpace(space, "{" + rest);
    assert space + "{" + rest == space + ("{" + rest);
  }

  /** A `<tool_call>` element whose body is JSON is passed whole, and left to the reader of bare objects. */
  lemma JsonBodyIsPassed(s: Source, p: nat, space: string, rest: string, inner: string)
    requires AllWhitespace(space) && '<' !in rest && inner == space + "{" + rest
    requires OccursAt(s.text, "<tool_call>", p) && OccursAt(s.text, inner, p + 11)
    requires OccursAt(s.text, "</tool_call>", p + 11 + |inner|) && !Inside(p, s.code)
    ensures RegionAt(s, ToolCallTag, p) == Some(Region(p + 11 + |inner| + 12, None))
  {
    SpaceHasNoTag(space);
    ToolCallBody(s, p, inner);
    JsonNames(s, space, rest, p + 11 + |inner| + 12);
  }

  lemma SpaceHasNoTag(space: string)
    requires AllWhitespace(space)
    ensures '<' !in space
  {
  }

  lemma {:induction false} StartsPastSpace(space: string, rest: string)
    requires AllWhitespace(space) && rest != [] && !IsWhitespace(rest[0])
    ensures TrimStart(space + rest) == rest
  {
    if space == [] {
      assert space + rest == rest;
    } else {
      StartsPastSpace(space[1..], rest);
      assert (space + rest)[1..] == space[1..] + rest && space[0] in space;
    }
  }

  /** A `<tool_call>` element that is never closed is passed over by its marker alone. */
  lemma UnclosedToolCallIsPassed(s: Source, p: nat)
    requires OccursAt(s.text, "<tool_call>", p)
    requires forall i :: p + 11 <= i ==> !OccursAt(s.text, "</tool_call>", i)
    ensures RegionAt(s, ToolCallTag, p).None?
  {
  }

  /** So is one whose body names no tool and is not JSON. */
  lemma UnnamedToolCallIsPassed(s: Source, p: nat, inner: string)
    requires '<' !in inner && !IsPlainName(Trim(inner)) && (TrimStart(inner) != "" ==> TrimStart(inner)[0] != '{')
    requires OccursAt(s.text, "<tool_call>", p) && OccursAt(s.text, inner, p + 11)
    requires OccursAt(s.text, "</tool_call>", p + 11 + |inner|) && !Inside(p, s.code)
    ensures RegionAt(s, ToolCallTag, p).None?
  {
    ToolCallBody(s, p, inner);
    NamesNothing(s, inner, p + 11 + |inner| + 12);
  }

  lemma NamesNothing(s: Source, inner: string, end: nat)
    requires '<' !in inner && !IsPlainName(Trim(inner)) && (TrimStart(inner) != "" ==> TrimStart(inner)[0] != '{')
    ensures ToolCallElement(s, inner, end).None?
  {
    BodyWithoutKey(inner);
    ValidIsPlain(Trim(inner));
  }

  lemma BodyWithoutKey(inner: string)
    requires '<' !in inner
    ensures ToolNameEnd(inner) == |inner| && inner[..|inner|] == inner
  {
    assert OccursAt(inner, inner, 0);
    PlainHasNone(inner, 0, inner, "<arg_key>");
  }
}
