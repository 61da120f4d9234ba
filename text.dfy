/**
 * String helpers shared by the Python backend and the TypeScript frontend:
 * splitting on one character, joining with a separator, Python's
 * whitespace `split()`, JavaScript's `trim()` and ASCII lower-casing.
 * Strings are sequences of code points.
 */
module Text {

  /** Unicode's space separators (general category Zs) outside Latin-1. */
  predicate IsWideSpace(c: char)
  {
    c == '\U{1680}' || ('\U{2000}' <= c <= '\U{200A}') || c == '\U{202F}' || c == '\U{205F}' || c == '\U{3000}'
  }

  /** Whitespace as Python's `str.isspace()`, and so `str.split()` with no argument, sees it. */
  predicate IsPySpace(c: char)
  {
    c == ' ' || c == '\t' || c == '\n' || c == '\r' || c == '\U{0B}' || c == '\U{0C}'
    || ('\U{1C}' <= c <= '\U{1F}') || c == '\U{85}' || c == '\U{A0}'
    || c == '\U{2028}' || c == '\U{2029}' || IsWideSpace(c)
  }

  /** Whitespace as JavaScript's `String.prototype.trim` sees it: white space and line terminators. */
  predicate IsJsSpace(c: char)
  {
    c == ' ' || c == '\t' || c == '\n' || c == '\r' || c == '\U{0B}' || c == '\U{0C}'
    || c == '\U{A0}' || c == '\U{2028}' || c == '\U{2029}' || c == '\U{FEFF}' || IsWideSpace(c)
  }

  predicate IsUpper(c: char) { 'A' <= c <= 'Z' }

  function LowerChar(c: char): (r: char)
    ensures !IsUpper(r)
    ensures !IsUpper(c) ==> r == c
    ensures IsPySpace(r) <==> IsPySpace(c)
  {
    if IsUpper(c) then (c as int + 32) as char else c
  }

  /** ASCII `lower()`: every upper-case letter replaced, everything else kept. */
  function Lower(s: string): (r: string)
    ensures |r| == |s|
    ensures forall i :: 0 <= i < |s| ==> r[i] == LowerChar(s[i])
  {
    if s == [] then [] else [LowerChar(s[0])] + Lower(s[1..])
  }

  predicate NoUpper(s: string) { forall i :: 0 <= i < |s| ==> !IsUpper(s[i]) }

  lemma LowerIdentity(s: string)
    requires NoUpper(s)
    ensures Lower(s) == s
  {
  }

  /** `sep.join(parts)` in Python, `parts.join(sep)` in JavaScript. */
  function Join(sep: string, parts: seq<string>): (r: string)
    ensures parts == [] ==> r == ""
    ensures |parts| == 1 ==> r == parts[0]
  {
    if |parts| == 0 then ""
    else if |parts| == 1 then parts[0]
    else parts[0] + sep + Join(sep, parts[1..])
  }

  /** `s.split(c)` for a one-character separator (same in Python and JavaScript). */
  function Split(s: string, c: char): (r: seq<string>)
    ensures |r| >= 1
    ensures forall k :: 0 <= k < |r| ==> c !in r[k]
  {
    if s == [] then [""]
    else if s[0] == c then [""] + Split(s[1..], c)
    else
      var rest := Split(s[1..], c);
      [[s[0]] + rest[0]] + rest[1..]
  }

  /** Joining the pieces of a split with the same separator gives the string back. */
  lemma {:induction false} JoinSplit(s: string, c: char)
    ensures Join([c], Split(s, c)) == s
  {
    if s == [] {
    } else if s[0] == c {
      JoinSplit(s[1..], c);
      var rest := Split(s[1..], c);
      assert Split(s, c) == [""] + rest;
      assert Join([c], [""] + rest) == "" + [c] + Join([c], rest);
    } else {
      JoinSplit(s[1..], c);
      var rest := Split(s[1..], c);
      if |rest| == 1 {
      } else {
        assert Join([c], rest) == rest[0] + [c] + Join([c], rest[1..]);
        var r := Split(s, c);
        assert r[1..] == rest[1..];
        assert Join([c], r) == ([s[0]] + rest[0]) + [c] + Join([c], rest[1..]);
      }
    }
  }

  /** Splitting a join of separator-free pieces gives the pieces back. */
  lemma {:induction false} SplitJoin(parts: seq<string>, c: char)
    requires |parts| >= 1
    requires forall k :: 0 <= k < |parts| ==> c !in parts[k]
    ensures Split(Join([c], parts), c) == parts
  {
    if |parts| == 1 {
      SplitFree(parts[0], c);
    } else {
      SplitJoin(parts[1..], c);
      SplitPrefix(parts[0], Join([c], parts[1..]), c);
      assert Join([c], parts) == parts[0] + ([c] + Join([c], parts[1..]));
      assert [parts[0]] + parts[1..] == parts;
    }
  }

  lemma {:induction false} SplitFree(w: string, c: char)
    requires c !in w
    ensures Split(w, c) == [w]
  {
    if w != [] {
      SplitFree(w[1..], c);
      assert [w[0]] + w[1..] == w;
    }
  }

  lemma {:induction false} SplitPrefix(w: string, t: string, c: char)
    requires c !in w
    ensures Split(w + [c] + t, c) == [w] + Split(t, c)
  {
    if w == [] {
      assert w + [c] + t == [c] + t;
      assert ([c] + t)[1..] == t;
    } else {
      assert (w + [c] + t)[1..] == w[1..] + [c] + t;
      SplitPrefix(w[1..], t, c);
      assert [w[0]] + w[1..] == w;
    }
  }

  /** Longest prefix of non-whitespace characters. */
  function TakeWord(s: string): (w: string)
    ensures |w| <= |s| && w == s[..|w|]
    ensures forall i :: 0 <= i < |w| ==> !IsPySpace(w[i])
    ensures |w| < |s| ==> IsPySpace(s[|w|])
  {
    if s == [] || IsPySpace(s[0]) then [] else [s[0]] + TakeWord(s[1..])
  }

  /** Python's `str.split()` with no argument: the maximal runs of non-whitespace. */
  function Words(s: string): (ws: seq<string>)
    ensures forall k :: 0 <= k < |ws| ==> IsWord(ws[k])
    decreases |s|
  {
    if s == [] then []
    else if IsPySpace(s[0]) then Words(s[1..])
    else
      var w := TakeWord(s);
      [w] + Words(s[|w|..])
  }

  predicate IsWord(w: string)
  {
    |w| > 0 && forall i :: 0 <= i < |w| ==> !IsPySpace(w[i])
  }

  lemma {:induction false} TakeWordOf(w: string, t: string)
    requires IsWord(w)
    requires t == [] || IsPySpace(t[0])
    ensures TakeWord(w + t) == w
  {
    if |w| == 1 {
      assert (w + t)[1..] == t;
    } else {
      assert (w + t)[1..] == w[1..] + t;
      TakeWordOf(w[1..], t);
      assert [w[0]] + w[1..] == w;
    }
  }

  /** Python's `split()` undoes `' '.join` of words. */
  lemma {:induction false} WordsOfJoin(ws: seq<string>)
    requires forall k :: 0 <= k < |ws| ==> IsWord(ws[k])
    ensures Words(Join(" ", ws)) == ws
  {
    if |ws| == 0 {
    } else if |ws| == 1 {
      TakeWordOf(ws[0], []);
      assert ws[0] + [] == ws[0];
      assert ws[0][|ws[0]|..] == [];
    } else {
      var rest := Join(" ", ws[1..]);
      var s := ws[0] + (" " + rest);
      assert Join(" ", ws) == s;
      TakeWordOf(ws[0], " " + rest);
      assert s[|ws[0]|..] == " " + rest;
      assert (" " + rest)[1..] == rest;
      WordsOfJoin(ws[1..]);
      assert [ws[0]] + ws[1..] == ws;
    }
  }

  /** Text whose whitespace is single spaces between non-blank runs. */
  predicate SingleSpaced(s: string)
  {
    && (forall i :: 0 <= i < |s| && IsPySpace(s[i]) ==> s[i] == ' ')
    && (|s| > 0 ==> !IsPySpace(s[0]) && !IsPySpace(s[|s| - 1]))
    && (forall i :: 0 <= i < |s| - 1 ==> !(IsPySpace(s[i]) && IsPySpace(s[i + 1])))
  }

  /** Joining words with one space yields single-spaced text. */
  lemma {:induction false} JoinWordsSingleSpaced(ws: seq<string>)
    requires forall k :: 0 <= k < |ws| ==> IsWord(ws[k])
    ensures SingleSpaced(Join(" ", ws))
  {
    if |ws| > 1 {
      JoinWordsSingleSpaced(ws[1..]);
      var rest := Join(" ", ws[1..]);
      var s := ws[0] + " " + rest;
      assert Join(" ", ws) == s;
      assert |rest| > 0 by { JoinNonEmpty(ws[1..]); }
      forall i | 0 <= i < |s| && IsPySpace(s[i]) ensures s[i] == ' ' {
        if i > |ws[0]| { assert s[i] == rest[i - |ws[0]| - 1]; }
      }
      forall i | 0 <= i < |s| - 1 ensures !(IsPySpace(s[i]) && IsPySpace(s[i + 1])) {
        if i > |ws[0]| { assert s[i] == rest[i - |ws[0]| - 1]; assert s[i + 1] == rest[i - |ws[0]|]; }
      }
      assert s[|s| - 1] == rest[|rest| - 1];
    }
  }

  lemma {:induction false} JoinNonEmpty(ws: seq<string>)
    requires |ws| > 0 && forall k :: 0 <= k < |ws| ==> IsWord(ws[k])
    ensures |Join(" ", ws)| > 0
  {
    if |ws| > 1 { JoinNonEmpty(ws[1..]); }
  }

  /** JavaScript's `trim()`: leading and trailing whitespace removed. */
  function Trim(s: string): (r: string)
    ensures |r| <= |s|
    ensures r != [] ==> !IsJsSpace(r[0]) && !IsJsSpace(r[|r| - 1])
    ensures exists i, j :: 0 <= i <= j <= |s| && r == s[i..j]
    ensures (forall i :: 0 <= i < |s| ==> IsJsSpace(s[i])) <==> r == []
  {
    var a := TrimStart(s);
    var b := TrimEnd(a);
    TrimParts(s, a, b);
    b
  }

  /** The two halves of `trim()`, stated on what each half promises. */
  lemma TrimParts(s: string, a: string, b: string)
    requires |a| <= |s| && a == s[|s| - |a|..]
    requires a != [] ==> !IsJsSpace(a[0])
    requires forall k :: 0 <= k < |s| - |a| ==> IsJsSpace(s[k])
    requires |b| <= |a| && b == a[..|b|]
    requires forall k :: |b| <= k < |a| ==> IsJsSpace(a[k])
    ensures b == s[|s| - |a|..|s| - |a| + |b|]
    ensures (forall k :: 0 <= k < |s| ==> IsJsSpace(s[k])) <==> b == []
  {
  }

  function TrimStart(s: string): (r: string)
    ensures |r| <= |s| && r == s[|s| - |r|..]
    ensures r != [] ==> !IsJsSpace(r[0])
    ensures forall i :: 0 <= i < |s| - |r| ==> IsJsSpace(s[i])
  {
    if s != [] && IsJsSpace(s[0]) then TrimStart(s[1..]) else s
  }

  function TrimEnd(s: string): (r: string)
    ensures |r| <= |s| && r == s[..|r|]
    ensures r != [] ==> !IsJsSpace(r[|r| - 1])
    ensures forall i :: |r| <= i < |s| ==> IsJsSpace(s[i])
  {
    if s != [] && IsJsSpace(s[|s| - 1]) then TrimEnd(s[..|s| - 1]) else s
  }

  /** Text with no whitespace at either end is left alone by `trim()`. */
  lemma TrimIdentity(s: string)
    requires s != [] ==> !IsJsSpace(s[0]) && !IsJsSpace(s[|s| - 1])
    ensures Trim(s) == s
  {
  }

  /** Splitting around one separator splits each side separately. */
  lemma {:induction false} SplitConcat(s: string, t: string, c: char)
    ensures Split(s + [c] + t, c) == Split(s, c) + Split(t, c)
  {
    if s == [] {
      assert s + [c] + t == [c] + t;
      assert ([c] + t)[1..] == t;
    } else if s[0] == c {
      assert (s + [c] + t)[1..] == s[1..] + [c] + t;
      SplitConcat(s[1..], t, c);
    } else {
      assert (s + [c] + t)[1..] == s[1..] + [c] + t;
      SplitConcat(s[1..], t, c);
      var rest := Split(s[1..], c);
      assert (rest + Split(t, c))[0] == rest[0];
      assert (rest + Split(t, c))[1..] == rest[1..] + Split(t, c);
    }
  }

  predicate IsLowerLetter(c: char) { 'a' <= c <= 'z' }

  function UpperChar(c: char): (r: char)
    ensures !IsLowerLetter(r)
    ensures !IsLowerLetter(c) ==> r == c
  {
    if IsLowerLetter(c) then (c as int - 32) as char else c
  }

  /** ASCII `upper()`. */
  function Upper(s: string): (r: string)
    ensures |r| == |s|
    ensures forall i :: 0 <= i < |s| ==> r[i] == UpperChar(s[i])
  {
    if s == [] then [] else [UpperChar(s[0])] + Upper(s[1..])
  }

  /** `s.startsWith(p)`. */
  predicate StartsWith(s: string, p: string)
  {
    |p| <= |s| && s[..|p|] == p
  }

  /** Decimal digits of a natural number, as `String(n)` and `str(n)` print them. */
  function NatToString(n: nat): (r: string)
    ensures |r| >= 1
    ensures forall i :: 0 <= i < |r| ==> '0' <= r[i] <= '9'
    ensures n < 10 ==> r == [(n + 48) as char]
    ensures 10 <= n < 100 ==> r == [(n / 10 + 48) as char, (n % 10 + 48) as char]
    ensures n < 1000 ==> |r| <= 3
    ensures 1000 <= n < 10000 ==> |r| == 4
    decreases n
  {
    if n < 10 then [(n + 48) as char] else NatToString(n / 10) + [(n % 10 + 48) as char]
  }

  /** `String(n)` / `str(n)` for an integer. */
  function IntToString(i: int): (r: string)
    ensures i >= 0 ==> r == NatToString(i)
    ensures i < 0 ==> r == "-" + NatToString(-i)
  {
    if i >= 0 then NatToString(i) else "-" + NatToString(-i)
  }

  /** Trimmed, non-empty pieces, in order. */
  function TrimmedLines(parts: seq<string>): (r: seq<string>)
    ensures |r| <= |parts|
    ensures forall k :: 0 <= k < |r| ==> r[k] != [] && !IsJsSpace(r[k][0]) && !IsJsSpace(r[k][|r[k]| - 1])
  {
    if parts == [] then []
    else
      var t := Trim(parts[0]);
      var rest := TrimmedLines(parts[1..]);
      if t == [] then rest else [t] + rest
  }

  /** Each piece, trimmed. */
  function Trims(parts: seq<string>): (r: seq<string>)
    ensures |r| == |parts| && forall j :: 0 <= j < |parts| ==> r[j] == Trim(parts[j])
  {
    seq(|parts|, j requires 0 <= j < |parts| => Trim(parts[j]))
  }

  /** Trimming adds no character. */
  lemma TrimAvoids(s: string, c: char)
    requires c !in s
    ensures c !in Trim(s)
  {
    var i, j :| 0 <= i <= j <= |s| && Trim(s) == s[i..j];
    assert forall x :: x in s[i..j] ==> x in s;
  }

  /** Every line kept is one of the pieces, trimmed. */
  lemma {:induction false} TrimmedLinesFrom(parts: seq<string>)
    ensures forall k :: 0 <= k < |TrimmedLines(parts)| ==> TrimmedLines(parts)[k] in Trims(parts)
  {
    if parts != [] {
      TrimmedLinesFrom(parts[1..]);
      assert Trims(parts) == [Trim(parts[0])] + Trims(parts[1..]);
    }
  }

  /** Pieces that are all whitespace leave no lines at all. */
  lemma {:induction false} BlankLinesDropped(parts: seq<string>)
    requires forall k :: 0 <= k < |parts| ==> forall i :: 0 <= i < |parts[k]| ==> IsJsSpace(parts[k][i])
    ensures TrimmedLines(parts) == []
  {
    if parts != [] {
      assert Trim(parts[0]) == [];
      BlankLinesDropped(parts[1..]);
    }
  }
}
