/**
 * The fallback colour of a company avatar: the sum of the name's character
 * codes, modulo the number of palettes, picks one of nine palettes.
 */
module CompanyLogo {

  const Colors: seq<string> := ["red", "blue", "green", "orange", "purple", "teal", "cyan", "pink", "yellow"]

  /** `reduce((acc, char) => acc + char.charCodeAt(0), acc)`, folding from the left. */
  function Accumulate(acc: int, name: string): int
    decreases name
  {
    if name == [] then acc else Accumulate(acc + name[0] as int, name[1..])
  }

  /** The sum of the character codes of a name, as a plain recursive sum. */
  function CodeSum(name: string): (r: nat)
    ensures name == [] ==> r == 0
  {
    if name == [] then 0 else name[0] as int + CodeSum(name[1..])
  }

  /** The left fold adds exactly the code sum to its seed. */
  lemma {:induction false} AccumulateIsSum(acc: int, name: string)
    ensures Accumulate(acc, name) == acc + CodeSum(name)
    decreases name
  {
    if name != [] {
      AccumulateIsSum(acc + name[0] as int, name[1..]);
    }
  }

  /** `pickPalette`: the palette at the code sum modulo nine. */
  function PickPalette(companyName: string): (r: string)
    ensures r in Colors
  {
    var sum := Accumulate(0, companyName);
    AccumulateIsSum(0, companyName);
    Colors[sum % |Colors|]
  }

  /** The index is the code sum modulo nine, so it lies in [0, 9). */
  lemma PaletteIndex(companyName: string)
    ensures 0 <= CodeSum(companyName) % 9 < 9
    ensures PickPalette(companyName) == Colors[CodeSum(companyName) % 9]
  {
    AccumulateIsSum(0, companyName);
  }

  /** The empty name gets the first palette. */
  lemma EmptyNameIsRed()
    ensures PickPalette("") == "red"
  {
  }

  lemma {:induction false} CodeSumConcat(a: string, b: string)
    ensures CodeSum(a + b) == CodeSum(a) + CodeSum(b)
  {
    if a != [] {
      assert (a + b)[0] == a[0] && (a + b)[1..] == a[1..] + b;
      CodeSumConcat(a[1..], b);
      assert CodeSum(a + b) == a[0] as int + CodeSum(a[1..] + b);
    } else {
      assert a + b == b;
    }
  }

  /** The code sum ignores the order of the characters. */
  lemma {:induction false} CodeSumPermutation(a: string, b: string)
    requires multiset(a) == multiset(b)
    ensures CodeSum(a) == CodeSum(b)
    decreases |a|
  {
    if a != [] {
      assert a[0] in multiset(b);
      var i :| 0 <= i < |b| && b[i] == a[0];
      var rest := b[..i] + b[i + 1..];
      RemoveAt(b, i);
      assert a == [a[0]] + a[1..];
      assert multiset(a[1..]) == multiset(a) - multiset{a[0]};
      CodeSumPermutation(a[1..], rest);
    } else {
      assert |b| == |multiset(b)|;
    }
  }

  /** Taking character `i` out of `b` takes it out of the multiset and its code out of the sum. */
  lemma RemoveAt(b: string, i: int)
    requires 0 <= i < |b|
    ensures multiset(b[..i] + b[i + 1..]) == multiset(b) - multiset{b[i]}
    ensures CodeSum(b) == b[i] as int + CodeSum(b[..i] + b[i + 1..])
  {
    var left, right := b[..i], b[i + 1..];
    assert b == left + [b[i]] + right;
    RemoveCode(left, b[i], right);
  }

  lemma RemoveCode(left: string, c: char, right: string)
    ensures CodeSum(left + [c] + right) == c as int + CodeSum(left + right)
  {
    CodeSumConcat(left + [c], right);
    CodeSumConcat(left, [c]);
    CodeSumConcat(left, right);
    assert [c][1..] == [];
  }

  /** Two names made of the same characters in any order get the same palette. */
  lemma AnagramsShareAPalette(a: string, b: string)
    requires multiset(a) == multiset(b)
    ensures PickPalette(a) == PickPalette(b)
  {
    PaletteIndex(a);
    PaletteIndex(b);
    CodeSumPermutation(a, b);
  }
}
