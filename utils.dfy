/**
 * `create_list_shopping_cart`: the text of the downloadable shopping list, a
 * header followed by one numbered line per aggregated ingredient group.
 *
 * Python's `str` of an integer is modelled by `IntToString` (decimal digits,
 * a leading '-' for a negative value); `ParseDigits` reads such digits back,
 * which is how the numbering of the lines is stated.
 */
module Utils {
  import opened Aggregation

  /** The first element of every shopping list. */
  const Header: string := "Список покупок:\n--------------"

  predicate IsDigit(c: char)
  {
    '0' <= c <= '9'
  }

  function DigitChar(d: nat): (c: char)
    requires d < 10
    ensures IsDigit(c) && c as int - '0' as int == d
  {
    ('0' as int + d) as char
  }

  function DigitValue(c: char): (d: nat)
    requires IsDigit(c)
    ensures d < 10 && DigitChar(d) == c
  {
    c as int - '0' as int
  }

  /** The decimal digits of `n`, most significant first, with no leading zero. */
  function NatToString(n: nat): (s: string)
    ensures s != []
    ensures forall i :: 0 <= i < |s| ==> IsDigit(s[i])
    ensures |s| > 1 ==> s[0] != '0'
  {
    if n < 10 then [DigitChar(n)] else NatToString(n / 10) + [DigitChar(n % 10)]
  }

  /** Python's `str` of an integer: its decimal digits, after a '-' when it is negative. */
  function IntToString(i: int): (s: string)
    ensures s != []
    ensures s[0] == '-' <==> i < 0
    ensures i >= 0 ==> (forall k :: 0 <= k < |s| ==> IsDigit(s[k])) && ParseDigits(s) == i
    ensures i < 0 ==> (forall k :: 1 <= k < |s| ==> IsDigit(s[k])) && ParseDigits(s[1..]) == -i
  {
    if i < 0 then
      ParseNatToString(-i);
      assert ("-" + NatToString(-i))[1..] == NatToString(-i);
      "-" + NatToString(-i)
    else
      ParseNatToString(i);
      NatToString(i)
  }

  /** The number that a string of decimal digits denotes. */
  function ParseDigits(s: string): nat
    requires forall i :: 0 <= i < |s| ==> IsDigit(s[i])
  {
    if s == [] then 0 else ParseDigits(s[..|s| - 1]) * 10 + DigitValue(s[|s| - 1])
  }

  /** The number of decimal digits at the start of `s`. */
  function DigitPrefix(s: string): (n: nat)
    ensures n <= |s|
    ensures forall i :: 0 <= i < n ==> IsDigit(s[i])
    ensures n < |s| ==> !IsDigit(s[n])
  {
    if s == [] || !IsDigit(s[0]) then 0 else 1 + DigitPrefix(s[1..])
  }

  /** The number written at the start of `s` (0 when there is none). */
  function LeadingNumber(s: string): nat
  {
    ParseDigits(s[..DigitPrefix(s)])
  }

  /** Reading the digits back gives the number. */
  lemma {:induction false} ParseNatToString(n: nat)
    ensures ParseDigits(NatToString(n)) == n
  {
    if n >= 10 {
      var s := NatToString(n);
      var front := NatToString(n / 10);
      assert s[..|s| - 1] == front;
      ParseNatToString(n / 10);
    }
  }

  /** The digits of `n` followed by a non-digit span exactly `|NatToString(n)|` characters. */
  lemma {:induction false} DigitPrefixOf(d: string, rest: string)
    requires forall i :: 0 <= i < |d| ==> IsDigit(d[i])
    requires rest == [] || !IsDigit(rest[0])
    ensures DigitPrefix(d + rest) == |d|
  {
    if d != [] {
      assert (d + rest)[1..] == d[1..] + rest;
      DigitPrefixOf(d[1..], rest);
    }
  }

  /** A number followed by a non-digit is read back as that number. */
  lemma NumberThenText(n: nat, rest: string)
    requires rest == [] || !IsDigit(rest[0])
    ensures LeadingNumber(NatToString(n) + rest) == n
  {
    var d := NatToString(n);
    DigitPrefixOf(d, rest);
    assert (d + rest)[..|d|] == d;
    ParseNatToString(n);
  }

  /** Line `position` of the list for one group. */
  function FormatLine(position: nat, g: Group): string
  {
    "\n" + NatToString(position) + ". " + g.name + ":" + " " + IntToString(g.amount) + "(" + g.unit + ")"
  }

  /** A line starts with a newline and then its own position number. */
  lemma LinePosition(position: nat, g: Group)
    ensures FormatLine(position, g)[0] == '\n'
    ensures LeadingNumber(FormatLine(position, g)[1..]) == position
  {
    var rest := ". " + g.name + ":" + " " + IntToString(g.amount) + "(" + g.unit + ")";
    assert FormatLine(position, g)[1..] == NatToString(position) + rest;
    NumberThenText(position, rest);
  }

  /** The shape of a finished list: the header, then line `i` for the `i`-th group. */
  predicate IsShoppingList(lines: seq<string>, groups: seq<Group>)
  {
    && |lines| == |groups| + 1
    && lines[0] == Header
    && forall i :: 1 <= i < |lines| ==> lines[i] == FormatLine(i, groups[i - 1])
  }

  /** Builds the list by appending one line per group, numbering from 1. */
  method CreateListShoppingCart(ingredients: seq<Group>) returns (shoppingCart: seq<string>)
    ensures IsShoppingList(shoppingCart, ingredients)
  {
    shoppingCart := [Header];
    for position := 1 to |ingredients| + 1
      invariant |shoppingCart| == position
      invariant shoppingCart[0] == Header
      invariant forall i :: 1 <= i < position ==> shoppingCart[i] == FormatLine(i, ingredients[i - 1])
    {
      shoppingCart := shoppingCart + [FormatLine(position, ingredients[position - 1])];
    }
  }

  /** Every line after the header carries its own 1-based position, so the lines are numbered 1, 2, 3, ... */
  lemma ShoppingListNumbered(lines: seq<string>, groups: seq<Group>)
    requires IsShoppingList(lines, groups)
    ensures forall i :: 1 <= i < |lines| ==> lines[i] != [] && lines[i][0] == '\n' && LeadingNumber(lines[i][1..]) == i
  {
    forall i | 1 <= i < |lines|
      ensures lines[i] != [] && lines[i][0] == '\n' && LeadingNumber(lines[i][1..]) == i
    {
      LinePosition(i, groups[i - 1]);
    }
  }

  /** Only an empty group list yields the header alone. */
  lemma ShoppingListEmpty(lines: seq<string>, groups: seq<Group>)
    requires IsShoppingList(lines, groups)
    ensures lines == [Header] <==> groups == []
  {
  }
}
