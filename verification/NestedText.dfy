/** Well-nested texts: string literals, other characters, `{`...`}` and `[`...`]`. */
module NestedText {

  /** A piece of a string literal; a backslash takes the next character with it. */
  datatype Unit = Char(c: char) | Escaped(c: char)

  datatype Nested =
    | Nothing
    | Other(c: char, rest: Nested)
    | Quoted(units: seq<Unit>, rest: Nested)
    | Braces(inner: Nested, rest: Nested)
    | Brackets(inner: Nested, rest: Nested)

  function WriteUnit(u: Unit): string {
    match u
    case Char(c) => [c]
    case Escaped(c) => ['\\', c]
  }

  function WriteUnits(units: seq<Unit>): string {
    if units == [] then "" else WriteUnit(units[0]) + WriteUnits(units[1..])
  }

  function Literal(units: seq<Unit>): string {
    "\"" + WriteUnits(units) + "\""
  }

  function Write(n: Nested): string {
    match n
    case Nothing => ""
    case Other(c, rest) => [c] + Write(rest)
    case Quoted(units, rest) => Literal(units) + Write(rest)
    case Braces(inner, rest) => ("{" + Write(inner) + "}") + Write(rest)
    case Brackets(inner, rest) => ("[" + Write(inner) + "]") + Write(rest)
  }

  predicate ProperUnits(units: seq<Unit>) {
    forall i :: 0 <= i < |units| && units[i].Char? ==> units[i].c != '\"' && units[i].c != '\\'
  }

  predicate Proper(n: Nested) {
    match n
    case Nothing => true
    case Other(c, rest) => c !in {'\"', '{', '}', '[', ']'} && Proper(rest)
    case Quoted(units, rest) => ProperUnits(units) && Proper(rest)
    case Braces(inner, rest) => Proper(inner) && Proper(rest)
    case Brackets(inner, rest) => Proper(inner) && Proper(rest)
  }

  ghost predicate WellNested(text: string) {
    exists n :: Proper(n) && Write(n) == text
  }

  /** Cutting the literal's body after `k` characters parts a backslash from the character it takes. */
  predicate UnitsCut(units: seq<Unit>, k: nat) {
    if units == [] then false
    else if units[0].Char? then k > 0 && UnitsCut(units[1..], k - 1)
    else k == 1 || (k > 1 && UnitsCut(units[1..], k - 2))
  }

  /** Cutting the text after `k` characters does. */
  predicate EndsInEscape(n: Nested, k: nat) {
    match n
    case Nothing => false
    case Other(_, rest) => k > 0 && EndsInEscape(rest, k - 1)
    case Quoted(units, rest) =>
      var q := |Literal(units)|;
      if k >= q then EndsInEscape(rest, k - q) else k > 0 && UnitsCut(units, k - 1)
    case Braces(inner, rest) =>
      var q := |Write(inner)| + 2;
      if k >= q then EndsInEscape(rest, k - q) else k > 0 && EndsInEscape(inner, k - 1)
    case Brackets(inner, rest) =>
      var q := |Write(inner)| + 2;
      if k >= q then EndsInEscape(rest, k - q) else k > 0 && EndsInEscape(inner, k - 1)
  }
}
