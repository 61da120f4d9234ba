/**
 * Text normalisation before fuzzy matching, the fuzzy similarity built on
 * it, and the structure of the cosine similarity. `fuzz.ratio` and the
 * square root are parameters.
 */
module Deduplication {
  import opened Wrappers
  import opened Text

  /** `' '.join(text.lower().split())`. */
  function NormalizeText(text: string): (r: string)
    ensures NoUpper(r)
    ensures SingleSpaced(r)
  {
    var ws := Words(Lower(text));
    JoinWordsSingleSpaced(ws);
    WordsNoUpper(Lower(text));
    JoinNoUpper(ws);
    Join(" ", ws)
  }

  lemma {:induction false} JoinNoUpper(ws: seq<string>)
    requires forall k :: 0 <= k < |ws| ==> IsWord(ws[k])
    ensures (forall k :: 0 <= k < |ws| ==> NoUpper(ws[k])) ==> NoUpper(Join(" ", ws))
  {
    if |ws| > 1 {
      JoinNoUpper(ws[1..]);
      var rest := Join(" ", ws[1..]);
      var s := ws[0] + " " + rest;
      assert Join(" ", ws) == s;
      if forall k :: 0 <= k < |ws| ==> NoUpper(ws[k]) {
        forall i | 0 <= i < |s| ensures !IsUpper(s[i]) {
          if i > |ws[0]| { assert s[i] == rest[i - |ws[0]| - 1]; }
        }
      }
    }
  }

  lemma {:induction false} WordsNoUpper(s: string)
    requires NoUpper(s)
    ensures forall k :: 0 <= k < |Words(s)| ==> NoUpper(Words(s)[k])
    decreases |s|
  {
    if s != [] {
      if IsPySpace(s[0]) {
        WordsNoUpper(s[1..]);
      } else {
        var w := TakeWord(s);
        WordsNoUpper(s[|w|..]);
      }
    }
  }

  lemma LowerTwice(s: string)
    ensures Lower(Lower(s)) == Lower(s)
  {
  }

  /** Normalising twice changes nothing. */
  lemma NormalizeIdempotent(text: string)
    ensures NormalizeText(NormalizeText(text)) == NormalizeText(text)
  {
    var n := NormalizeText(text);
    var ws := Words(Lower(text));
    LowerIdentity(n);
    WordsOfJoin(ws);
  }

  /** Case does not matter: a text and its lower-cased form normalise alike. */
  lemma NormalizeIgnoresCase(text: string)
    ensures NormalizeText(Lower(text)) == NormalizeText(text)
  {
    LowerTwice(text);
  }

  /** Runs of whitespace do not matter: only the words, in order, decide the normal form. */
  lemma NormalizeIgnoresSpacing(a: string, b: string)
    requires Words(Lower(a)) == Words(Lower(b))
    ensures NormalizeText(a) == NormalizeText(b)
  {
  }

  /** `fuzz.ratio(_normalize_text(a), _normalize_text(b)) / 100`. */
  function FuzzyTextSimilarity(ratio: (string, string) -> real, text1: string, text2: string): real
  {
    ratio(NormalizeText(text1), NormalizeText(text2)) / 100.0
  }

  /** With a ratio in [0, 100] that is 100 on equal strings, similarity is in [0, 1] and 1 on equal normal forms. */
  lemma FuzzyBounds(ratio: (string, string) -> real, text1: string, text2: string)
    requires forall x, y :: 0.0 <= ratio(x, y) <= 100.0
    requires forall x :: ratio(x, x) == 100.0
    ensures 0.0 <= FuzzyTextSimilarity(ratio, text1, text2) <= 1.0
    ensures NormalizeText(text1) == NormalizeText(text2) ==> FuzzyTextSimilarity(ratio, text1, text2) == 1.0
  {
  }

  /** Changing case or whitespace runs in either argument leaves the similarity unchanged. */
  lemma FuzzyIgnoresCaseAndSpacing(ratio: (string, string) -> real, a: string, a2: string, b: string, b2: string)
    requires Words(Lower(a)) == Words(Lower(a2))
    requires Words(Lower(b)) == Words(Lower(b2))
    ensures FuzzyTextSimilarity(ratio, a, b) == FuzzyTextSimilarity(ratio, a2, b2)
  {
  }

  datatype CosineError = LengthMismatch

  function Dot(v1: seq<real>, v2: seq<real>): real
    requires |v1| == |v2|
  {
    if v1 == [] then 0.0 else v1[0] * v2[0] + Dot(v1[1..], v2[1..])
  }

  function SumSquares(v: seq<real>): (r: real)
    ensures r >= 0.0
  {
    if v == [] then 0.0 else v[0] * v[0] + SumSquares(v[1..])
  }

  /** The zero vector has zero magnitude. */
  lemma {:induction false} SumSquaresZero(v: seq<real>)
    requires forall i :: 0 <= i < |v| ==> v[i] == 0.0
    ensures SumSquares(v) == 0.0
  {
    if v != [] {
      SumSquaresZero(v[1..]);
    }
  }

  /**
   * `cosine_similarity`: `zip(..., strict=True)` raises on different
   * lengths; a zero magnitude gives 0.0; otherwise the dot product over
   * the product of the magnitudes (`sqrt` stands for `** 0.5`).
   */
  function CosineSimilarity(sqrt: real -> real, v1: seq<real>, v2: seq<real>): (r: Result<real, CosineError>)
    ensures r.Err? <==> |v1| != |v2|
    ensures |v1| == |v2| && (sqrt(SumSquares(v1)) == 0.0 || sqrt(SumSquares(v2)) == 0.0) ==> r == Ok(0.0)
  {
    if |v1| != |v2| then Err(LengthMismatch)
    else
      var m1 := sqrt(SumSquares(v1));
      var m2 := sqrt(SumSquares(v2));
      if m1 == 0.0 || m2 == 0.0 then Ok(0.0) else Ok(Dot(v1, v2) / (m1 * m2))
  }

  /** With a square root that is zero only at zero, a zero vector on either side gives 0.0. */
  lemma CosineZeroVector(sqrt: real -> real, v1: seq<real>, v2: seq<real>)
    requires sqrt(0.0) == 0.0
    requires |v1| == |v2|
    requires (forall i :: 0 <= i < |v1| ==> v1[i] == 0.0) || (forall i :: 0 <= i < |v2| ==> v2[i] == 0.0)
    ensures CosineSimilarity(sqrt, v1, v2) == Ok(0.0)
  {
    if forall i :: 0 <= i < |v1| ==> v1[i] == 0.0 {
      SumSquaresZero(v1);
    } else {
      SumSquaresZero(v2);
    }
  }
}
