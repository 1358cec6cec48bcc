/** Three-way comparison as the runtime's derived `Ord` instances use it. */
module Ordering {

  datatype Option<+T> = None | Some(value: T)

  datatype Order = Less | Equal | Greater

  /** Compares two components of a tuple, the second only on a tie in the first. */
  function Then(first: Order, second: Order): Order {
    if first.Equal? then second else first
  }

  function Flip(o: Order): Order {
    match o
    case Less => Greater
    case Equal => Equal
    case Greater => Less
  }

  function CompareText(a: string, b: string): Order {
    if a == [] then (if b == [] then Equal else Less)
    else if b == [] then Greater
    else if a[0] < b[0] then Less
    else if b[0] < a[0] then Greater
    else CompareText(a[1..], b[1..])
  }

  function CompareNat(a: nat, b: nat): Order {
    if a < b then Less else if b < a then Greater else Equal
  }

  function CompareBool(a: bool, b: bool): Order {
    if a == b then Equal else if b then Less else Greater
  }

  /** `None` sorts before every `Some`. */
  function CompareOptionalText(a: Option<string>, b: Option<string>): Order {
    match (a, b)
    case (None, None) => Equal
    case (None, Some(_)) => Less
    case (Some(_), None) => Greater
    case (Some(x), Some(y)) => CompareText(x, y)
  }

  lemma {:induction false} TextTie(a: string, b: string)
    ensures CompareText(a, b).Equal? <==> a == b
  {
    if a != [] && b != [] && a[0] == b[0] {
      TextTie(a[1..], b[1..]);
      assert a == [a[0]] + a[1..] && b == [b[0]] + b[1..];
    }
  }

  lemma {:induction false} TextFlip(a: string, b: string)
    ensures CompareText(b, a) == Flip(CompareText(a, b))
  {
    if a != [] && b != [] && a[0] == b[0] {
      TextFlip(a[1..], b[1..]);
    }
  }

  lemma {:induction false} TextChain(a: string, b: string, c: string)
    requires !CompareText(a, b).Greater? && !CompareText(b, c).Greater?
    ensures CompareText(a, c) == Then(CompareText(a, b), CompareText(b, c))
  {
    if a != [] && b != [] && c != [] && a[0] == b[0] && b[0] == c[0] {
      TextChain(a[1..], b[1..], c[1..]);
    }
  }

  lemma OptionalTextFlip(a: Option<string>, b: Option<string>)
    ensures CompareOptionalText(b, a) == Flip(CompareOptionalText(a, b))
  {
    if a.Some? && b.Some? {
      TextFlip(a.value, b.value);
    }
  }

  lemma OptionalTextChain(a: Option<string>, b: Option<string>, c: Option<string>)
    requires !CompareOptionalText(a, b).Greater? && !CompareOptionalText(b, c).Greater?
    ensures CompareOptionalText(a, c) == Then(CompareOptionalText(a, b), CompareOptionalText(b, c))
  {
    if a.Some? && b.Some? && c.Some? {
      TextChain(a.value, b.value, c.value);
    }
  }
}
