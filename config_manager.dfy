/**
 * The configuration manager: the `.env` rewriter, the split of a partial
 * update into YAML-bound values and secrets, the exposure map built from
 * the schema, secret injection on load and the loaded-configuration guard.
 * Files, the process environment and Pydantic validation are parameters.
 */
module ConfigManager {
  import opened Wrappers
  import opened Text
  import opened Structure
  import opened ConfigSchemas

  // ---------------------------------------------------------------- _write_env: the pattern

  /** Drops the whitespace a `\s*` consumes inside one line. */
  function SkipSpaces(s: string): (r: string)
    ensures |r| <= |s| && r == s[|s| - |r|..]
    ensures r != [] ==> !IsPySpace(r[0])
    ensures forall i :: 0 <= i < |s| - |r| ==> IsPySpace(s[i])
  {
    if s != [] && IsPySpace(s[0]) then SkipSpaces(s[1..]) else s
  }

  /** A line that `\s*` crosses whole: nothing but whitespace. */
  predicate Blank(line: string)
  {
    SkipSpaces(line) == []
  }

  /**
   * After `\s*` has crossed a line end: blank lines are crossed too, and the
   * first other line must start, after its whitespace, with `=`. The result
   * is that line's index.
   */
  function EqualsLine(ls: seq<string>): (r: Option<nat>)
    ensures r.Some? ==> r.value < |ls|
  {
    if ls == [] then None
    else if Blank(ls[0]) then
      (match EqualsLine(ls[1..])
       case Some(j) => Some(j + 1)
       case None => None)
    else if SkipSpaces(ls[0])[0] == '=' then Some(0)
    else None
  }

  /**
   * The multi-line pattern `^KEY\s*=.*` tried at the start of the line
   * `ls[0]`: the index of the line whose end ends the match. `\s*` crosses
   * line ends, so after a key followed only by whitespace the `=` may come
   * on a later line; `.*` runs to the end of the line holding the `=`.
   * The key is matched as text.
   */
  function MatchAt(ls: seq<string>, key: string): (r: Option<nat>)
    requires ls != []
    ensures r.Some? ==> r.value < |ls|
  {
    if !StartsWith(ls[0], key) then None
    else
      var rest := SkipSpaces(ls[0][|key|..]);
      if rest != [] then (if rest[0] == '=' then Some(0) else None)
      else
        match EqualsLine(ls[1..])
        case Some(j) => Some(j + 1)
        case None => None
  }

  /** The `=` ends the first line that is not blank. */
  lemma {:induction false} EqualsLineShape(ls: seq<string>)
    ensures EqualsLine(ls).Some? ==> !Blank(ls[EqualsLine(ls).value]) && SkipSpaces(ls[EqualsLine(ls).value])[0] == '='
    ensures EqualsLine(ls).Some? ==> forall m :: 0 <= m < EqualsLine(ls).value ==> Blank(ls[m])
  {
    if ls != [] && Blank(ls[0]) {
      EqualsLineShape(ls[1..]);
    }
  }

  /** A match starts with the key; when it spans several lines, those between are blank and the last starts with `=`. */
  lemma {:induction false} MatchShape(ls: seq<string>, key: string)
    requires ls != []
    ensures MatchAt(ls, key).Some? ==> StartsWith(ls[0], key)
    ensures MatchAt(ls, key).Some? ==> forall m :: 0 < m < MatchAt(ls, key).value ==> Blank(ls[m])
    ensures MatchAt(ls, key).Some? && MatchAt(ls, key).value > 0 ==>
      !Blank(ls[MatchAt(ls, key).value]) && SkipSpaces(ls[MatchAt(ls, key).value])[0] == '='
  {
    if StartsWith(ls[0], key) && SkipSpaces(ls[0][|key|..]) == [] && EqualsLine(ls[1..]).Some? {
      CrossedShape(ls, key);
    }
  }

  /** A match that crosses line ends ends at the first line after the key's that is not blank. */
  lemma {:induction false} CrossedShape(ls: seq<string>, key: string)
    requires ls != [] && StartsWith(ls[0], key) && SkipSpaces(ls[0][|key|..]) == [] && EqualsLine(ls[1..]).Some?
    ensures MatchAt(ls, key) == Some(EqualsLine(ls[1..]).value + 1)
    ensures forall m :: 0 < m <= EqualsLine(ls[1..]).value ==> Blank(ls[m])
    ensures !Blank(ls[EqualsLine(ls[1..]).value + 1]) && SkipSpaces(ls[EqualsLine(ls[1..]).value + 1])[0] == '='
  {
    var rest := ls[1..];
    var j := EqualsLine(rest).value;
    EqualsLineShape(rest);
    forall m | 0 < m <= j ensures Blank(ls[m]) {
      assert ls[m] == rest[m - 1];
    }
    assert ls[j + 1] == rest[j];
  }

  /** `re.search(pattern, content, re.MULTILINE)`: a match starts at some line. */
  predicate AnyMatch(ls: seq<string>, key: string)
  {
    exists i :: 0 <= i < |ls| && MatchAt(ls[i..], key).Some?
  }

  // ---------------------------------------------------------------- _write_env: the template

  /** A piece of a parsed replacement template: literal text, or the whole match (`\g<0>`). */
  datatype Piece = Lit(text: string) | Whole

  function Prepend(p: Piece, rest: Result<seq<Piece>, string>): (r: Result<seq<Piece>, string>)
    ensures r.Ok? <==> rest.Ok?
    ensures r.Ok? ==> r.value == [p] + rest.value
  {
    if rest.Err? then rest else Ok([p] + rest.value)
  }

  predicate IsOctal(c: char) { '0' <= c <= '7' }

  function OctalDigit(c: char): (n: nat)
    requires IsOctal(c)
    ensures n < 8
  {
    (c - '0') as nat
  }

  /** The number of `0` characters `s` starts with. */
  function Zeros(s: string): (n: nat)
    ensures n <= |s|
    ensures forall i :: 0 <= i < n ==> s[i] == '0'
    ensures n < |s| ==> s[n] != '0'
  {
    if s != [] && s[0] == '0' then 1 + Zeros(s[1..]) else 0
  }

  /** The character a one-letter escape of a template stands for, for the letters that have one. */
  function ControlEscape(c: char): Option<char>
  {
    if c == 'a' then Some('\U{07}')
    else if c == 'b' then Some('\U{08}')
    else if c == 'f' then Some('\U{0C}')
    else if c == 'n' then Some('\n')
    else if c == 'r' then Some('\r')
    else if c == 't' then Some('\t')
    else if c == 'v' then Some('\U{0B}')
    else if c == '\\' then Some('\\')
    else None
  }

  predicate IsAsciiLetter(c: char) { 'a' <= c <= 'z' || 'A' <= c <= 'Z' }

  /**
   * The replacement template of `re.sub`, parsed as Python 3.12 does for a
   * pattern without groups. `\g<0>` (any number of zeros) is the whole
   * match. `\0` with up to two more octal digits, and a three-digit octal
   * escape up to `\377`, are characters. `\a \b \f \n \r \t \v \\` are
   * the control characters and the backslash. A backslash before any other
   * character that is not an ASCII letter is kept with it. Every other group
   * reference, a trailing backslash, an unknown letter escape and a bad
   * group name are errors.
   */
  function ParseTemplate(t: string): (r: Result<seq<Piece>, string>)
    decreases |t|
  {
    if t == [] then Ok([])
    else if t[0] != '\\' then Prepend(Lit([t[0]]), ParseTemplate(t[1..]))
    else if |t| == 1 then Err("bad escape (end of pattern)")
    else
      match Escape(t)
      case Err(e) => Err(e)
      case Ok((p, n)) => Prepend(p, ParseTemplate(t[n..]))
  }

  /** The escape a template starts with: the piece it stands for and how many characters it takes, or Python's error. */
  function Escape(t: string): (r: Result<(Piece, int), string>)
    requires |t| >= 2 && t[0] == '\\'
    ensures r.Ok? ==> 2 <= r.value.1 <= |t|
  {
    var c, rest := t[1], t[2..];
    if c == 'g' then
      var n := if rest != [] && rest[0] == '<' then Zeros(rest[1..]) else 0;
      if rest != [] && rest[0] == '<' && n > 0 && n + 1 < |rest| && rest[n + 1] == '>' then Ok((Whole, n + 4))
      else Err("invalid group reference")
    else if c == '0' then
      if rest != [] && IsOctal(rest[0]) then
        if |rest| > 1 && IsOctal(rest[1]) then Ok((Lit([(8 * OctalDigit(rest[0]) + OctalDigit(rest[1])) as char]), 4))
        else Ok((Lit([OctalDigit(rest[0]) as char]), 3))
      else Ok((Lit(['\0']), 2))
    else if '1' <= c <= '9' then
      if IsOctal(c) && |rest| >= 2 && IsOctal(rest[0]) && IsOctal(rest[1]) then
        var v := 64 * OctalDigit(c) + 8 * OctalDigit(rest[0]) + OctalDigit(rest[1]);
        if v > 255 then Err("octal escape value outside of range 0-0o377")
        else Ok((Lit([v as char]), 4))
      else Err("invalid group reference")
    else if ControlEscape(c).Some? then Ok((Lit([ControlEscape(c).value]), 2))
    else if IsAsciiLetter(c) then Err("bad escape")
    else Ok((Lit(['\\', c]), 2))
  }

  /** The text a parsed template puts in place of one match. */
  function Expand(t: seq<Piece>, matched: string): string
  {
    if t == [] then ""
    else (match t[0] case Lit(s) => s case Whole => matched) + Expand(t[1..], matched)
  }

  /** A template without backslashes stands for itself, whatever it replaces. */
  lemma {:induction false} LiteralTemplate(s: string)
    requires '\\' !in s
    ensures ParseTemplate(s).Ok?
    ensures forall m :: Expand(ParseTemplate(s).value, m) == s
  {
    if s != [] {
      LiteralTemplate(s[1..]);
      var t := ParseTemplate(s).value;
      assert t == [Lit([s[0]])] + ParseTemplate(s[1..]).value;
      assert t[1..] == ParseTemplate(s[1..]).value;
      forall m ensures Expand(t, m) == s {
        assert [s[0]] + s[1..] == s;
      }
    }
  }

  // ---------------------------------------------------------------- _write_env: the substitution

  /**
   * `re.sub` over the lines: the lines a match spans, from its first to the
   * one holding the `=`, are replaced as one piece by the expanded template,
   * and the scan resumes after them. Every other line is kept.
   */
  function Sub(ls: seq<string>, key: string, t: seq<Piece>): seq<string>
    decreases |ls|
  {
    if ls == [] then []
    else
      match MatchAt(ls, key)
      case Some(j) => [Expand(t, Join("\n", ls[..j + 1]))] + Sub(ls[j + 1..], key, t)
      case None => [ls[0]] + Sub(ls[1..], key, t)
  }

  /** `KEY=value`. */
  function EnvLine(key: string, value: string): string
  {
    key + "=" + value
  }

  /** The content with a newline added when it is non-empty and does not end in one. */
  function Terminated(content: string): string
  {
    if content != "" && content[|content| - 1] != '\n' then content + "\n" else content
  }

  /**
   * One update: when the pattern matches somewhere, `re.sub` with `KEY=value`
   * as its template, which Python may refuse; otherwise the assignment
   * appended as it is, on a line of its own.
   */
  function EnvStep(content: string, key: string, value: string): Result<string, string>
  {
    var lines := Split(content, '\n');
    if AnyMatch(lines, key) then
      match ParseTemplate(EnvLine(key, value))
      case Ok(t) => Ok(Join("\n", Sub(lines, key, t)))
      case Err(e) => Err(e)
    else Ok(Terminated(content) + EnvLine(key, value) + "\n")
  }

  /** The content after the updates, in order: `None` values are skipped and the first refused template ends the writing. */
  function EnvAfter(content: string, updates: seq<(string, Option<string>)>): Result<string, string>
  {
    if updates == [] then Ok(content)
    else
      var acc := EnvAfter(content, updates[..|updates| - 1]);
      var (key, value) := updates[|updates| - 1];
      if acc.Err? || value.None? then acc else EnvStep(acc.value, key, value.value)
  }

  /** Once an update is refused, the later ones do not run. */
  lemma {:induction false} ErrorSticks(content: string, updates: seq<(string, Option<string>)>, n: nat)
    requires n <= |updates| && EnvAfter(content, updates[..n]).Err?
    ensures EnvAfter(content, updates) == EnvAfter(content, updates[..n])
    decreases |updates|
  {
    if n == |updates| {
      assert updates[..n] == updates;
    } else {
      var init := updates[..|updates| - 1];
      assert init[..n] == updates[..n];
      ErrorSticks(content, init, n);
    }
  }

  /** The updates up to `i` and one more: the next one runs unless writing has stopped or its value is `None`. */
  lemma {:induction false} EnvAfterNext(content: string, updates: seq<(string, Option<string>)>, i: nat)
    requires i < |updates|
    ensures EnvAfter(content, updates[..i + 1]) ==
      if EnvAfter(content, updates[..i]).Err? || updates[i].1.None? then EnvAfter(content, updates[..i])
      else EnvStep(EnvAfter(content, updates[..i]).value, updates[i].0, updates[i].1.value)
  {
    assert updates[..i + 1][..i] == updates[..i];
  }

  /** One pass of the loop of `_write_env`: search, then substitute or append. */
  method WriteOne(content: string, key: string, value: string) returns (r: Result<string, string>)
    ensures r == EnvStep(content, key, value)
  {
    var lines := Split(content, '\n');
    var repl := EnvLine(key, value);
    if AnyMatch(lines, key) {
      var template := ParseTemplate(repl);
      if template.Err? {
        return Err(template.error);
      }
      return Ok(Join("\n", Sub(lines, key, template.value)));
    }
    var text := content;
    if text != "" && text[|text| - 1] != '\n' {
      text := text + "\n";
    }
    return Ok(text + repl + "\n");
  }

  /** `_write_env` on the file's text: the new text, or the error that makes `save` raise. */
  method WriteEnv(content: string, updates: seq<(string, Option<string>)>) returns (r: Result<string, string>)
    ensures r == EnvAfter(content, updates)
  {
    var text := content;
    var i := 0;
    while i < |updates|
      invariant 0 <= i <= |updates|
      invariant EnvAfter(content, updates[..i]) == Ok(text)
    {
      var next := WriteNext(content, updates, i, text);
      if next.Err? {
        ErrorSticks(content, updates, i + 1);
        return next;
      }
      text := next.value;
      i := i + 1;
    }
    assert updates[..i] == updates;
    return Ok(text);
  }

  /** One iteration of the loop of `_write_env`: an update whose value is `None` is skipped. */
  method WriteNext(content: string, updates: seq<(string, Option<string>)>, i: nat, text: string) returns (r: Result<string, string>)
    requires i < |updates| && EnvAfter(content, updates[..i]) == Ok(text)
    ensures r == EnvAfter(content, updates[..i + 1])
  {
    EnvAfterNext(content, updates, i);
    var (key, value) := updates[i];
    if value.None? {
      return Ok(text);
    }
    r := WriteOne(text, key, value.value);
  }

  // ---------------------------------------------------------------- _write_env: properties

  /** The lines of a small file, by `SplitJoin`. */
  lemma {:induction false} LinesOf(parts: seq<string>, content: string)
    requires |parts| >= 1 && forall k :: 0 <= k < |parts| ==> '\n' !in parts[k]
    requires Join("\n", parts) == content
    ensures Split(content, '\n') == parts
  {
    SplitJoin(parts, '\n');
  }

  /** Where the pattern matches at line `i`, the update is the substitution or the template's error. */
  lemma {:induction false} EnvStepAt(content: string, key: string, value: string, ls: seq<string>, i: nat)
    requires Split(content, '\n') == ls && i < |ls| && MatchAt(ls[i..], key).Some?
    ensures ParseTemplate(EnvLine(key, value)).Err? ==> EnvStep(content, key, value).Err?
    ensures ParseTemplate(EnvLine(key, value)).Ok? ==>
      EnvStep(content, key, value) == Ok(Join("\n", Sub(ls, key, ParseTemplate(EnvLine(key, value)).value)))
  {
  }

  /** A character other than a backslash stands for itself. */
  lemma {:induction false} TemplateHead(t: string)
    requires t != [] && t[0] != '\\'
    ensures ParseTemplate(t) == Prepend(Lit([t[0]]), ParseTemplate(t[1..]))
  {
  }

  lemma {:induction false} ExpandLit(text: string, t: seq<Piece>, m: string)
    ensures Expand([Lit(text)] + t, m) == text + Expand(t, m)
  {
    assert ([Lit(text)] + t)[1..] == t;
  }

  /** A character other than a backslash, in front of a template, stands for itself. */
  lemma {:induction false} LiteralHead(c: char, tail: string, m: string)
    requires c != '\\'
    ensures ParseTemplate([c] + tail).Ok? <==> ParseTemplate(tail).Ok?
    ensures ParseTemplate(tail).Ok? ==> Expand(ParseTemplate([c] + tail).value, m) == [c] + Expand(ParseTemplate(tail).value, m)
  {
    assert ([c] + tail)[0] == c && ([c] + tail)[1..] == tail;
    TemplateHead([c] + tail);
    if ParseTemplate(tail).Ok? {
      ExpandLit([c], ParseTemplate(tail).value, m);
    }
  }

  lemma {:induction false} ConsConcat(s: string, rest: string)
    requires s != []
    ensures s + rest == [s[0]] + (s[1..] + rest)
  {
  }

  /** A template that starts with text free of backslashes stands for that text before what the rest stands for. */
  lemma {:induction false} LiteralPrefix(s: string, rest: string, m: string)
    requires '\\' !in s
    ensures ParseTemplate(s + rest).Ok? <==> ParseTemplate(rest).Ok?
    ensures ParseTemplate(rest).Ok? ==> Expand(ParseTemplate(s + rest).value, m) == s + Expand(ParseTemplate(rest).value, m)
  {
    if s == [] {
      assert s + rest == rest;
    } else {
      LiteralPrefix(s[1..], rest, m);
      ConsConcat(s, rest);
      LiteralHead(s[0], s[1..] + rest, m);
      if ParseTemplate(rest).Ok? {
        ConsConcat(s, Expand(ParseTemplate(rest).value, m));
      }
    }
  }

  /** The lines of an assignment followed by a line end. */
  lemma {:induction false} AssignmentLines(key: string, prior: string)
    requires '\n' !in key && '\n' !in prior
    ensures Split(EnvLine(key, prior) + "\n", '\n') == [EnvLine(key, prior), ""]
  {
    EnvLineNoNewline(key, prior);
    LinesOf([EnvLine(key, prior), ""], EnvLine(key, prior) + "\n");
  }

  /** Rewriting `KEY=prior` on a line of its own. */
  lemma {:induction false} RewriteAssignment(key: string, prior: string, value: string)
    requires PlainKey(key) && '\n' !in key && '\n' !in prior
    ensures ParseTemplate(EnvLine(key, value)).Err? ==> EnvStep(EnvLine(key, prior) + "\n", key, value).Err?
    ensures ParseTemplate(EnvLine(key, value)).Ok? ==>
      EnvStep(EnvLine(key, prior) + "\n", key, value) ==
        Ok(Expand(ParseTemplate(EnvLine(key, value)).value, EnvLine(key, prior)) + "\n")
  {
    var ls := [EnvLine(key, prior), ""];
    AssignmentLines(key, prior);
    EnvLineMatches(key, prior, [""]);
    assert ls == [EnvLine(key, prior)] + [""];
    assert ls[0..] == ls;
    EnvStepAt(EnvLine(key, prior) + "\n", key, value, ls, 0);
    if ParseTemplate(EnvLine(key, value)).Ok? {
      var t := ParseTemplate(EnvLine(key, value)).value;
      SubOneLine(EnvLine(key, prior), key, t);
      JoinPair(Expand(t, EnvLine(key, prior)));
    }
  }

  /** The empty last line holds no match of a non-empty key. */
  lemma {:induction false} SubEmptyLine(key: string, t: seq<Piece>)
    requires key != []
    ensures Sub([""], key, t) == [""]
  {
    assert !StartsWith("", key);
  }

  /** A line that matches by itself, followed by the empty last line, is replaced by the expanded template. */
  lemma {:induction false} SubOneLine(line: string, key: string, t: seq<Piece>)
    requires key != [] && MatchAt([line, ""], key) == Some(0)
    ensures Sub([line, ""], key, t) == [Expand(t, line), ""]
  {
    var ls := [line, ""];
    SubMatchHead(ls, key, t, 0);
    assert ls[..1] == [line] && ls[1..] == [""];
    SubEmptyLine(key, t);
  }

  /** The substitution where a match starts at the first line and ends at line `j`. */
  lemma {:induction false} SubMatchHead(ls: seq<string>, key: string, t: seq<Piece>, j: nat)
    requires ls != [] && MatchAt(ls, key) == Some(j)
    ensures Sub(ls, key, t) == [Expand(t, Join("\n", ls[..j + 1]))] + Sub(ls[j + 1..], key, t)
  {
  }

  /** A group reference in the value, as in `K=a\1`, makes Python refuse the template. */
  lemma {:induction false} EnvStepRefusesGroup(key: string, prior: string, pre: string)
    requires PlainKey(key) && '\n' !in key && '\n' !in prior && '\\' !in pre
    ensures EnvStep(EnvLine(key, prior) + "\n", key, pre + "\\1").Err?
  {
    RewriteAssignment(key, prior, pre + "\\1");
    PlainKeyNoBackslash(key);
    assert EnvLine(key, pre + "\\1") == EnvLine(key, pre) + "\\1";
    EnvLineNoBackslash(key, pre);
    GroupRefused();
    LiteralPrefix(EnvLine(key, pre), "\\1", "");
  }

  /** `\1` on its own is a reference to a group the pattern does not have. */
  lemma {:induction false} GroupRefused()
    ensures ParseTemplate("\\1").Err?
  {
    assert Escape("\\1").Err?;
  }

  /** An escape in the value is expanded: `a\nb` writes a line end between `a` and `b`. */
  lemma {:induction false} EnvStepExpandsEscape(key: string, prior: string, a: string, b: string)
    requires PlainKey(key) && '\n' !in key && '\n' !in prior && '\\' !in a && '\\' !in b
    ensures EnvStep(EnvLine(key, prior) + "\n", key, a + "\\n" + b) == Ok(EnvLine(key, a) + "\n" + b + "\n")
  {
    RewriteAssignment(key, prior, a + "\\n" + b);
    EscapedValue(key, a, b);
  }

  /** The template `KEY=a\nb` stands for `KEY=a`, a line end and `b`. */
  lemma {:induction false} EscapedValue(key: string, a: string, b: string)
    requires PlainKey(key) && '\\' !in a && '\\' !in b
    ensures ParseTemplate(EnvLine(key, a + "\\n" + b)).Ok?
    ensures forall m :: Expand(ParseTemplate(EnvLine(key, a + "\\n" + b)).value, m) == EnvLine(key, a) + "\n" + b
  {
    PlainKeyNoBackslash(key);
    var lead := EnvLine(key, a);
    assert EnvLine(key, a + "\\n" + b) == lead + ("\\n" + b);
    EnvLineNoBackslash(key, a);
    LineEndEscape(b);
    LiteralPrefix(lead, "\\n" + b, "");
    forall m ensures Expand(ParseTemplate(lead + ("\\n" + b)).value, m) == EnvLine(key, a) + "\n" + b {
      LiteralPrefix(lead, "\\n" + b, m);
      assert lead + ("\n" + b) == EnvLine(key, a) + "\n" + b;
    }
  }

  /** `\n` followed by text without backslashes stands for a line end and that text. */
  lemma {:induction false} LineEndEscape(b: string)
    requires '\\' !in b
    ensures ParseTemplate("\\n" + b).Ok?
    ensures forall m :: Expand(ParseTemplate("\\n" + b).value, m) == "\n" + b
  {
    LiteralTemplate(b);
    var s := "\\n" + b;
    assert s[0] == '\\' && s[1] == 'n' && s[2..] == b;
    var t := ParseTemplate(s).value;
    assert t == [Lit(['\n'])] + ParseTemplate(b).value;
    assert t[1..] == ParseTemplate(b).value;
  }

  lemma {:induction false} PlainKeyNoBackslash(key: string)
    requires PlainKey(key)
    ensures '\\' !in key
  {
    assert forall i :: 0 <= i < |key| ==> key[i] != '\\';
  }

  lemma {:induction false} JoinPair(x: string)
    ensures Join("\n", [x, ""]) == x + "\n"
  {
    assert [x, ""][1..] == [""];
    assert x + "\n" + "" == x + "\n";
  }

  lemma {:induction false} JoinThree(x: string, y: string)
    ensures Join("\n", [x, y, ""]) == x + "\n" + y + "\n"
  {
    assert [x, y, ""][1..] == [y, ""];
    assert [y, ""][1..] == [""];
    assert y + "\n" + "" == y + "\n";
  }

  /** A key alone on its line, with `=prior` on the next, is matched through the second line. */
  lemma {:induction false} SplitAssignment(key: string, prior: string)
    requires PlainKey(key) && '\n' !in key && '\n' !in prior
    ensures Split(key + "\n=" + prior + "\n", '\n') == [key, "=" + prior, ""]
    ensures MatchAt([key, "=" + prior, ""], key) == Some(1)
  {
    var ls := [key, "=" + prior, ""];
    JoinThree(key, "=" + prior);
    assert key + "\n" + ("=" + prior) + "\n" == key + "\n=" + prior + "\n";
    LinesOf(ls, key + "\n=" + prior + "\n");
    CrossedMatch(key, prior);
  }

  lemma {:induction false} CrossedMatch(key: string, prior: string)
    requires PlainKey(key)
    ensures MatchAt([key, "=" + prior, ""], key) == Some(1)
  {
    var ls := [key, "=" + prior, ""];
    assert ls[0] == key && ls[1] == "=" + prior && ls[1][0] == '=';
    MatchAfterKey(ls, key);
  }

  /** A line holding just the key, followed by a line that starts with `=`, matches through the second line. */
  lemma {:induction false} MatchAfterKey(ls: seq<string>, key: string)
    requires |ls| >= 2 && ls[0] == key && ls[1] != [] && ls[1][0] == '='
    ensures MatchAt(ls, key) == Some(1)
  {
    assert key[..|key|] == key && key[|key|..] == [];
    assert ls[1..][0] == ls[1];
    EqualsFirst(ls[1]);
  }

  /** A line that starts with `=` is not blank, and `\s*` stops at its `=`. */
  lemma {:induction false} EqualsFirst(line: string)
    requires line != [] && line[0] == '='
    ensures SkipSpaces(line) == line && !Blank(line)
  {
    assert !IsPySpace(line[0]);
  }

  /** `\s*` crosses a line end: a key alone on its line and an `=` on the next are replaced together. */
  lemma {:induction false} EnvStepCrossesLines(key: string, prior: string, value: string)
    requires PlainKey(key) && '\n' !in key && '\n' !in prior && '\n' !in value && '\\' !in value
    ensures EnvStep(key + "\n=" + prior + "\n", key, value) == Ok(EnvLine(key, value) + "\n")
  {
    var ls := [key, "=" + prior, ""];
    SplitAssignment(key, prior);
    assert ls[0..] == ls;
    EnvStepAt(key + "\n=" + prior + "\n", key, value, ls, 0);
    PlainKeyNoBackslash(key);
    EnvLineNoBackslash(key, value);
    LiteralTemplate(EnvLine(key, value));
    CrossedMatch(key, prior);
    SubCrossed(ls, key, value, ParseTemplate(EnvLine(key, value)).value);
    JoinPair(EnvLine(key, value));
  }

  /** Two lines that match together, followed by the empty last line, become one. */
  lemma {:induction false} SubCrossed(ls: seq<string>, key: string, value: string, t: seq<Piece>)
    requires |ls| == 3 && ls[2] == "" && key != [] && MatchAt(ls, key) == Some(1)
    requires forall m :: Expand(t, m) == EnvLine(key, value)
    ensures Sub(ls, key, t) == [EnvLine(key, value), ""]
  {
    SubMatchHead(ls, key, t, 1);
    var x := Join("\n", ls[..2]);
    assert Expand(t, x) == EnvLine(key, value);
    assert ls[2..] == [""];
    SubEmptyLine(key, t);
  }

  /** An appended value is written as it is, backslashes and all. */
  lemma {:induction false} EnvStepAppendsLiterally()
    ensures EnvStep("A=1", "K", "x\\1") == Ok("A=1\nK=x\\1\n")
  {
    var ls := ["A=1"];
    LinesOf(ls, "A=1");
    assert !StartsWith("A=1", "K");
    assert ls[0..] == ls;
    assert MatchAt(ls, "K") == None;
    assert !AnyMatch(ls, "K");
    assert Terminated("A=1") == "A=1\n";
    assert EnvLine("K", "x\\1") == "K=x\\1";
    assert "A=1\n" + "K=x\\1" + "\n" == "A=1\nK=x\\1\n";
  }

  /** The lines after an append: every line kept, then the new one, then the empty piece after the final newline. */
  function DropTrailingEmpty(lines: seq<string>): (r: seq<string>)
    ensures r == lines || (lines != [] && lines[|lines| - 1] == "" && r == lines[..|lines| - 1])
  {
    if lines != [] && lines[|lines| - 1] == "" then lines[..|lines| - 1] else lines
  }

  lemma {:induction false} SplitLastNonEmpty(s: string, c: char)
    requires s != [] && s[|s| - 1] != c
    ensures Split(s, c)[|Split(s, c)| - 1] != ""
  {
    if |s| > 1 {
      SplitLastNonEmpty(s[1..], c);
    }
  }

  /** Appending puts the assignment on a line of its own and keeps every existing line. */
  lemma {:induction false} AppendedLines(content: string, line: string)
    requires '\n' !in line
    ensures Split(Terminated(content) + line + "\n", '\n') == DropTrailingEmpty(Split(content, '\n')) + [line, ""]
  {
    SplitFree(line, '\n');
    SplitConcat(line, "", '\n');
    assert line + "\n" == line + ['\n'] + "";
    if content == "" {
      assert Terminated(content) + line + "\n" == line + "\n";
    } else if content[|content| - 1] == '\n' {
      AppendAfterNewline(content, line);
    } else {
      AppendAfterText(content, line);
    }
  }

  lemma {:induction false} AppendAfterNewline(content: string, line: string)
    requires content != "" && content[|content| - 1] == '\n'
    requires Split(line + "\n", '\n') == [line, ""]
    ensures Split(Terminated(content) + line + "\n", '\n') == DropTrailingEmpty(Split(content, '\n')) + [line, ""]
  {
    var c := content[..|content| - 1];
    assert content == c + ['\n'] + "";
    SplitConcat(c, "", '\n');
    assert Terminated(content) + line + "\n" == c + ['\n'] + (line + "\n");
    SplitConcat(c, line + "\n", '\n');
  }

  lemma {:induction false} AppendAfterText(content: string, line: string)
    requires content != "" && content[|content| - 1] != '\n'
    requires Split(line + "\n", '\n') == [line, ""]
    ensures Split(Terminated(content) + line + "\n", '\n') == DropTrailingEmpty(Split(content, '\n')) + [line, ""]
  {
    SplitLastNonEmpty(content, '\n');
    assert Terminated(content) + line + "\n" == content + ['\n'] + (line + "\n");
    SplitConcat(content, line + "\n", '\n');
  }

  /** When the pattern matches nowhere, the assignment is appended as a new last line, literally. */
  lemma {:induction false} AppendedWhenAbsent(content: string, key: string, value: string)
    requires !AnyMatch(Split(content, '\n'), key)
    requires '\n' !in EnvLine(key, value)
    ensures EnvStep(content, key, value).Ok?
    ensures Split(EnvStep(content, key, value).value, '\n') == DropTrailingEmpty(Split(content, '\n')) + [EnvLine(key, value), ""]
  {
    AppendedLines(content, EnvLine(key, value));
  }

  lemma {:induction false} EnvLineNoNewline(key: string, value: string)
    requires '\n' !in key && '\n' !in value
    ensures '\n' !in EnvLine(key, value)
  {
    var line := EnvLine(key, value);
    assert forall i :: 0 <= i < |line| ==> line[i] == (if i < |key| then key[i] else if i == |key| then '=' else value[i - |key| - 1]);
  }

  lemma {:induction false} EnvLineNoBackslash(key: string, value: string)
    requires '\\' !in key && '\\' !in value
    ensures '\\' !in EnvLine(key, value)
  {
    var line := EnvLine(key, value);
    assert forall i :: 0 <= i < |line| ==> line[i] == (if i < |key| then key[i] else if i == |key| then '=' else value[i - |key| - 1]);
  }

  /** The assignment's own line is matched by its key, on that line alone. */
  lemma {:induction false} EnvLineMatches(key: string, value: string, rest: seq<string>)
    ensures MatchAt([EnvLine(key, value)] + rest, key) == Some(0)
  {
    var line := EnvLine(key, value);
    assert ([line] + rest)[0] == line;
    assert line[..|key|] == key;
    assert line[|key|..] == "=" + value;
  }

  /** Lines holding the assignment somewhere are matched by its key. */
  lemma {:induction false} MatchAtAssignment(ls: seq<string>, key: string, value: string, i: nat)
    requires i < |ls| && ls[i] == EnvLine(key, value)
    ensures AnyMatch(ls, key)
  {
    assert ls[i..] == [ls[i]] + ls[i + 1..];
    EnvLineMatches(key, value, ls[i + 1..]);
  }

  /** A line separated by line ends from the rest is one of the lines of the joined text. */
  lemma {:induction false} JoinKeeps(parts: seq<string>, k: nat)
    requires k < |parts| && '\n' !in parts[k]
    ensures parts[k] in Split(Join("\n", parts), '\n')
  {
    if |parts| == 1 {
      SplitFree(parts[0], '\n');
    } else {
      assert Join("\n", parts) == parts[0] + ['\n'] + Join("\n", parts[1..]);
      SplitConcat(parts[0], Join("\n", parts[1..]), '\n');
      if k == 0 {
        SplitFree(parts[0], '\n');
      } else {
        JoinKeeps(parts[1..], k - 1);
      }
    }
  }

  /** When a match exists and the template stands for `repl`, `repl` is among the lines after the substitution. */
  lemma {:induction false} SubHas(ls: seq<string>, key: string, t: seq<Piece>, repl: string)
    requires AnyMatch(ls, key)
    requires forall m :: Expand(t, m) == repl
    ensures repl in Sub(ls, key, t)
    decreases |ls|
  {
    var i :| 0 <= i < |ls| && MatchAt(ls[i..], key).Some?;
    if MatchAt(ls, key).None? {
      assert i != 0 by { assert ls[0..] == ls; }
      assert ls[1..][i - 1..] == ls[i..];
      SubHas(ls[1..], key, t, repl);
    }
  }

  /** With a template that stands for `repl`, every line after the substitution is `repl` or a line of the input. */
  lemma {:induction false} SubLines(ls: seq<string>, key: string, t: seq<Piece>, repl: string)
    requires forall m :: Expand(t, m) == repl
    ensures forall k :: 0 <= k < |Sub(ls, key, t)| ==> Sub(ls, key, t)[k] == repl || Sub(ls, key, t)[k] in ls
    decreases |ls|
  {
    if ls != [] {
      match MatchAt(ls, key)
      case Some(j) =>
        SubLines(ls[j + 1..], key, t, repl);
        forall x | x in ls[j + 1..] ensures x in ls { }
      case None =>
        SubLines(ls[1..], key, t, repl);
        forall x | x in ls[1..] ensures x in ls { }
    }
  }

  /**
   * A line no match can start or run through: its first non-space character
   * is not `=`, and after the key, when it starts with the key, comes
   * something other than whitespace and `=`.
   */
  predicate Solid(line: string, key: string)
  {
    var s := SkipSpaces(line);
    && s != [] && s[0] != '='
    && (StartsWith(line, key) ==> var rest := SkipSpaces(line[|key|..]); rest != [] && rest[0] != '=')
  }

  /** A solid line is kept by the substitution, whatever the template. */
  lemma {:induction false} SubKeeps(ls: seq<string>, key: string, t: seq<Piece>, k: nat)
    requires k < |ls| && Solid(ls[k], key)
    ensures ls[k] in Sub(ls, key, t)
    decreases |ls|
  {
    match MatchAt(ls, key)
    case Some(j) =>
      SolidBeyond(ls, key, k);
      assert ls[j + 1..][k - j - 1] == ls[k];
      SubKeeps(ls[j + 1..], key, t, k - j - 1);
    case None =>
      if k > 0 {
        assert ls[1..][k - 1] == ls[k];
        SubKeeps(ls[1..], key, t, k - 1);
      }
  }

  /** A solid line is neither where a match starts nor one of the lines it spans. */
  lemma {:induction false} SolidBeyond(ls: seq<string>, key: string, k: nat)
    requires k < |ls| && Solid(ls[k], key) && MatchAt(ls, key).Some?
    ensures k > MatchAt(ls, key).value
  {
    MatchShape(ls, key);
  }

  /**
   * When the pattern matches, the lines after the update are the
   * substituted lines, and a literal assignment is among them.
   */
  lemma {:induction false} RewrittenLines(content: string, key: string, value: string)
    requires AnyMatch(Split(content, '\n'), key)
    requires '\n' !in EnvLine(key, value) && '\\' !in EnvLine(key, value)
    ensures ParseTemplate(EnvLine(key, value)).Ok?
    ensures EnvStep(content, key, value).Ok?
    ensures Split(EnvStep(content, key, value).value, '\n') == Sub(Split(content, '\n'), key, ParseTemplate(EnvLine(key, value)).value)
    ensures EnvLine(key, value) in Split(EnvStep(content, key, value).value, '\n')
  {
    var repl := EnvLine(key, value);
    LiteralTemplate(repl);
    var lines := Split(content, '\n');
    var t := ParseTemplate(repl).value;
    var after := Sub(lines, key, t);
    assert EnvStep(content, key, value) == Ok(Join("\n", after));
    SubHas(lines, key, t, repl);
    SubLines(lines, key, t, repl);
    SplitJoin(after, '\n');
  }

  /** After an update the file holds the line `KEY=value`, when neither key nor value holds a line end or a backslash. */
  lemma {:induction false} EnvStepSetsKey(content: string, key: string, value: string)
    requires '\n' !in key && '\n' !in value && '\\' !in key && '\\' !in value
    ensures EnvStep(content, key, value).Ok?
    ensures EnvLine(key, value) in Split(EnvStep(content, key, value).value, '\n')
  {
    var repl := EnvLine(key, value);
    EnvLineNoNewline(key, value);
    EnvLineNoBackslash(key, value);
    if AnyMatch(Split(content, '\n'), key) {
      RewrittenLines(content, key, value);
    } else {
      AppendedWhenAbsent(content, key, value);
      var r := DropTrailingEmpty(Split(content, '\n')) + [repl, ""];
      assert r[|r| - 2] == repl;
    }
  }

  /** A non-empty line of the content is a line of the content followed by anything. */
  lemma {:induction false} KeptOnAppend(content: string, x: string, line: string)
    requires line in Split(content, '\n') && line != ""
    ensures line in Split(Terminated(content) + x, '\n')
  {
    if content[|content| - 1] == '\n' {
      var c := content[..|content| - 1];
      assert content == c + ['\n'] + "";
      SplitConcat(c, "", '\n');
      assert Terminated(content) + x == c + ['\n'] + x;
      SplitConcat(c, x, '\n');
    } else {
      assert Terminated(content) + x == content + ['\n'] + x;
      SplitConcat(content, x, '\n');
    }
  }

  /** A solid line survives an update that succeeds, whatever the value. */
  lemma {:induction false} EnvStepKeepsLine(content: string, key: string, value: string, line: string)
    requires line in Split(content, '\n') && Solid(line, key)
    ensures EnvStep(content, key, value).Ok? ==> line in Split(EnvStep(content, key, value).value, '\n')
  {
    var lines := Split(content, '\n');
    var k :| 0 <= k < |lines| && lines[k] == line;
    if AnyMatch(lines, key) {
      if ParseTemplate(EnvLine(key, value)).Ok? {
        var after := Sub(lines, key, ParseTemplate(EnvLine(key, value)).value);
        SubKeeps(lines, key, ParseTemplate(EnvLine(key, value)).value, k);
        var i :| 0 <= i < |after| && after[i] == line;
        JoinKeeps(after, i);
      }
    } else {
      assert Terminated(content) + EnvLine(key, value) + "\n" == Terminated(content) + (EnvLine(key, value) + "\n");
      KeptOnAppend(content, EnvLine(key, value) + "\n", line);
    }
  }

  /** Keys as `_write_env` receives them: upper-cased field names, so not empty, with no whitespace, `=` or backslash. */
  predicate PlainKey(key: string)
  {
    key != "" && forall i :: 0 <= i < |key| ==> !IsPySpace(key[i]) && key[i] != '=' && key[i] != '\\'
  }

  /** The assignment of a plain key is not blank and does not start with `=`. */
  lemma {:induction false} EnvLineFirm(key: string, value: string)
    requires PlainKey(key)
    ensures !Blank(EnvLine(key, value)) && SkipSpaces(EnvLine(key, value))[0] != '='
  {
    assert EnvLine(key, value)[0] == key[0];
  }

  /** A blank line does not start with a plain key. */
  lemma {:induction false} BlankNoKey(line: string, key: string)
    requires PlainKey(key) && Blank(line)
    ensures !StartsWith(line, key)
  {
  }

  /** Where the `=` a match looks for is missing, the substitution does not supply it. */
  lemma {:induction false} EqualsLineSub(ls: seq<string>, key: string, value: string, t: seq<Piece>)
    requires PlainKey(key) && forall m :: Expand(t, m) == EnvLine(key, value)
    requires EqualsLine(ls) == None
    ensures EqualsLine(Sub(ls, key, t)) == None
    decreases |ls|
  {
    if ls != [] {
      if Blank(ls[0]) {
        BlankNoKey(ls[0], key);
        var rest := Sub(ls[1..], key, t);
        EqualsLineSub(ls[1..], key, value, t);
        assert Sub(ls, key, t) == [ls[0]] + rest;
        assert ([ls[0]] + rest)[1..] == rest;
      } else if MatchAt(ls, key).Some? {
        EnvLineFirm(key, value);
      }
    }
  }

  /** A line where no match starts still starts none once the lines after it are substituted. */
  lemma {:induction false} NoMatchKept(ls: seq<string>, key: string, value: string, t: seq<Piece>)
    requires PlainKey(key) && forall m :: Expand(t, m) == EnvLine(key, value)
    requires ls != [] && MatchAt(ls, key) == None
    ensures MatchAt([ls[0]] + Sub(ls[1..], key, t), key) == None
  {
    var rest := Sub(ls[1..], key, t);
    assert ([ls[0]] + rest)[1..] == rest;
    if StartsWith(ls[0], key) && SkipSpaces(ls[0][|key|..]) == [] {
      EqualsLineSub(ls[1..], key, value, t);
    }
  }

  /** Substituting the assignment a second time changes nothing. */
  lemma {:induction false} SubTwice(ls: seq<string>, key: string, value: string, t: seq<Piece>)
    requires PlainKey(key) && forall m :: Expand(t, m) == EnvLine(key, value)
    ensures Sub(Sub(ls, key, t), key, t) == Sub(ls, key, t)
    decreases |ls|
  {
    if ls != [] {
      var repl := EnvLine(key, value);
      match MatchAt(ls, key)
      case Some(j) =>
        var rest := Sub(ls[j + 1..], key, t);
        SubTwice(ls[j + 1..], key, value, t);
        EnvLineMatches(key, value, rest);
        assert ([repl] + rest)[1..] == rest;
        assert Sub([repl] + rest, key, t) == [repl] + Sub(rest, key, t);
      case None =>
        var rest := Sub(ls[1..], key, t);
        SubTwice(ls[1..], key, value, t);
        NoMatchKept(ls, key, value, t);
        assert ([ls[0]] + rest)[1..] == rest;
        assert Sub([ls[0]] + rest, key, t) == [ls[0]] + Sub(rest, key, t);
    }
  }

  /** Where no `=` follows the blank lines, none follows once the assignment and an empty line are appended. */
  lemma {:induction false} EqualsLineAppend(a: seq<string>, tail: seq<string>, key: string, value: string)
    requires PlainKey(key) && (tail == [] || tail == [""])
    requires EqualsLine(a + tail) == None
    ensures EqualsLine(a + [EnvLine(key, value), ""]) == None
    decreases |a|
  {
    var b := a + [EnvLine(key, value), ""];
    if a == [] {
      EnvLineFirm(key, value);
      assert b == [EnvLine(key, value), ""];
    } else {
      assert (a + tail)[0] == a[0] && b[0] == a[0];
      assert (a + tail)[1..] == a[1..] + tail;
      assert b[1..] == a[1..] + [EnvLine(key, value), ""];
      if Blank(a[0]) {
        EqualsLineAppend(a[1..], tail, key, value);
      }
    }
  }

  /** A line where no match starts still starts none once the assignment and an empty line follow the lines after it. */
  lemma {:induction false} AppendNoMatch(d: seq<string>, tail: seq<string>, key: string, value: string)
    requires PlainKey(key) && (tail == [] || tail == [""])
    requires d != [] && MatchAt(d + tail, key) == None
    ensures MatchAt(d + [EnvLine(key, value), ""], key) == None
  {
    var b := d + [EnvLine(key, value), ""];
    assert (d + tail)[0] == d[0] && b[0] == d[0];
    assert (d + tail)[1..] == d[1..] + tail;
    assert b[1..] == d[1..] + [EnvLine(key, value), ""];
    if StartsWith(d[0], key) && SkipSpaces(d[0][|key|..]) == [] {
      EqualsLineAppend(d[1..], tail, key, value);
    }
  }

  /** Where no match starts, the substitution keeps the first line. */
  lemma {:induction false} SubKeptHead(ls: seq<string>, key: string, t: seq<Piece>)
    requires ls != [] && MatchAt(ls, key) == None
    ensures Sub(ls, key, t) == [ls[0]] + Sub(ls[1..], key, t)
  {
  }

  lemma {:induction false} NoMatchTail(d: seq<string>, tail: seq<string>, key: string)
    requires d != [] && forall i :: 0 <= i < |d| ==> MatchAt((d + tail)[i..], key) == None
    ensures MatchAt(d + tail, key) == None
    ensures forall i :: 0 <= i < |d[1..]| ==> MatchAt((d[1..] + tail)[i..], key) == None
  {
    assert (d + tail)[0..] == d + tail;
    forall i | 0 <= i < |d[1..]| ensures MatchAt((d[1..] + tail)[i..], key) == None {
      assert (d[1..] + tail)[i..] == (d + tail)[i + 1..];
    }
  }

  /** Lines where no match starts, followed by the appended assignment, are left alone by the substitution. */
  lemma {:induction false} AppendSettled(d: seq<string>, tail: seq<string>, key: string, value: string, t: seq<Piece>)
    requires PlainKey(key) && forall m :: Expand(t, m) == EnvLine(key, value)
    requires tail == [] || tail == [""]
    requires forall i :: 0 <= i < |d| ==> MatchAt((d + tail)[i..], key) == None
    ensures Sub(d + [EnvLine(key, value), ""], key, t) == d + [EnvLine(key, value), ""]
    decreases |d|
  {
    var b := d + [EnvLine(key, value), ""];
    if d == [] {
      AppendedOnly(b, key, value, t);
    } else {
      NoMatchTail(d, tail, key);
      AppendSettled(d[1..], tail, key, value, t);
      AppendNoMatch(d, tail, key, value);
      assert b[1..] == d[1..] + [EnvLine(key, value), ""];
      KeptHead(b, key, t);
    }
  }

  /** The appended assignment and the empty line after it are left alone. */
  lemma {:induction false} AppendedOnly(ls: seq<string>, key: string, value: string, t: seq<Piece>)
    requires PlainKey(key) && forall m :: Expand(t, m) == EnvLine(key, value)
    requires ls == [EnvLine(key, value), ""]
    ensures Sub(ls, key, t) == ls
  {
    EnvLineMatches(key, value, [""]);
    assert ls == [EnvLine(key, value)] + [""];
    SubMatchHead(ls, key, t, 0);
    assert ls[1..] == [""];
    EmptyLineKept(key, t);
  }

  lemma {:induction false} EmptyLineKept(key: string, t: seq<Piece>)
    requires key != ""
    ensures Sub([""], key, t) == [""]
  {
    assert !StartsWith([""][0], key);
    SubKeptHead([""], key, t);
    assert [""][1..] == [];
  }

  /** A first line where no match starts is kept in front of the kept rest. */
  lemma {:induction false} KeptHead(ls: seq<string>, key: string, t: seq<Piece>)
    requires ls != [] && MatchAt(ls, key) == None && Sub(ls[1..], key, t) == ls[1..]
    ensures Sub(ls, key, t) == ls
  {
    SubKeptHead(ls, key, t);
    assert ls == [ls[0]] + ls[1..];
  }

  /** A second update of the same key after a rewrite changes nothing. */
  lemma {:induction false} SettledAfterRewrite(content: string, key: string, value: string)
    requires PlainKey(key) && AnyMatch(Split(content, '\n'), key)
    requires '\n' !in EnvLine(key, value) && '\\' !in EnvLine(key, value)
    ensures EnvStep(content, key, value).Ok?
    ensures EnvStep(EnvStep(content, key, value).value, key, value) == EnvStep(content, key, value)
  {
    var repl := EnvLine(key, value);
    RewrittenLines(content, key, value);
    LiteralTemplate(repl);
    var t := ParseTemplate(repl).value;
    var after := Sub(Split(content, '\n'), key, t);
    var once := EnvStep(content, key, value).value;
    assert once == Join("\n", after);
    var i :| 0 <= i < |after| && after[i] == repl;
    MatchAtAssignment(after, key, value, i);
    SubTwice(Split(content, '\n'), key, value, t);
  }

  /** After an append, the lines hold a match of the key and the substitution leaves them as they are. */
  lemma {:induction false} AppendedLinesSettled(content: string, key: string, value: string, t: seq<Piece>)
    requires PlainKey(key) && !AnyMatch(Split(content, '\n'), key)
    requires '\n' !in EnvLine(key, value) && forall m :: Expand(t, m) == EnvLine(key, value)
    ensures var after := Split(Terminated(content) + EnvLine(key, value) + "\n", '\n');
      AnyMatch(after, key) && Sub(after, key, t) == after
  {
    var repl := EnvLine(key, value);
    var lines := Split(content, '\n');
    AppendedLines(content, repl);
    var d := DropTrailingEmpty(lines);
    var tail := lines[|d|..];
    assert lines == d + tail;
    forall i | 0 <= i < |d| ensures MatchAt((d + tail)[i..], key) == None {
      assert (d + tail)[i..] == lines[i..];
    }
    AppendSettled(d, tail, key, value, t);
    var b := d + [repl, ""];
    assert b[|d|] == repl;
    MatchAtAssignment(b, key, value, |d|);
  }

  /** A second update of the same key after an append changes nothing. */
  lemma {:induction false} SettledAfterAppend(content: string, key: string, value: string)
    requires PlainKey(key) && !AnyMatch(Split(content, '\n'), key)
    requires '\n' !in EnvLine(key, value) && '\\' !in EnvLine(key, value)
    ensures EnvStep(content, key, value).Ok?
    ensures EnvStep(EnvStep(content, key, value).value, key, value) == EnvStep(content, key, value)
  {
    var repl := EnvLine(key, value);
    LiteralTemplate(repl);
    var t := ParseTemplate(repl).value;
    var once := Terminated(content) + repl + "\n";
    assert EnvStep(content, key, value) == Ok(once);
    AppendedLinesSettled(content, key, value, t);
    var after := Split(once, '\n');
    var i :| 0 <= i < |after| && MatchAt(after[i..], key).Some?;
    EnvStepAt(once, key, value, after, i);
    JoinSplit(once, '\n');
  }

  /** Writing the same assignment twice is the same as writing it once, for a plain key and a value without line ends or backslashes. */
  lemma {:induction false} EnvStepIdempotent(content: string, key: string, value: string)
    requires PlainKey(key) && '\n' !in value && '\\' !in value
    ensures EnvStep(content, key, value).Ok?
    ensures EnvStep(EnvStep(content, key, value).value, key, value) == EnvStep(content, key, value)
  {
    assert '\n' !in key && '\\' !in key by {
      assert forall i :: 0 <= i < |key| ==> key[i] != '\n' && key[i] != '\\';
    }
    EnvLineNoNewline(key, value);
    EnvLineNoBackslash(key, value);
    if AnyMatch(Split(content, '\n'), key) {
      SettledAfterRewrite(content, key, value);
    } else {
      SettledAfterAppend(content, key, value);
    }
  }

  /** A different plain key that starts an assignment line is a proper prefix of that line's key. */
  lemma {:induction false} PrefixShorter(k1: string, v1: string, k2: string)
    requires PlainKey(k2) && k1 != k2 && StartsWith(EnvLine(k1, v1), k2)
    ensures |k2| < |k1|
  {
    var line := EnvLine(k1, v1);
    assert line[..|k1|] == k1;
    assert line[|k1|] == '=';
  }

  /** The assignment line of one plain key is solid for any other plain key. */
  lemma {:induction false} OtherKeySolid(k1: string, v1: string, k2: string)
    requires PlainKey(k1) && PlainKey(k2) && k1 != k2
    ensures Solid(EnvLine(k1, v1), k2)
  {
    var line := EnvLine(k1, v1);
    EnvLineFirm(k1, v1);
    if StartsWith(line, k2) {
      PrefixShorter(k1, v1, k2);
      var rest := line[|k2|..];
      assert rest[0] == k1[|k2|];
      assert SkipSpaces(rest) == rest;
    }
  }

  predicate DistinctKeys(updates: seq<(string, Option<string>)>)
  {
    forall i, j :: 0 <= i < j < |updates| ==> updates[i].0 != updates[j].0
  }

  /** After `_write_env` with plain keys and values without line ends or backslashes, every non-`None` update is in the file as `KEY=value`. */
  lemma {:induction false} WriteEnvSetsAll(content: string, updates: seq<(string, Option<string>)>)
    requires DistinctKeys(updates)
    requires forall i :: 0 <= i < |updates| ==> PlainKey(updates[i].0)
    requires forall i :: 0 <= i < |updates| && updates[i].1.Some? ==> '\n' !in updates[i].1.value && '\\' !in updates[i].1.value
    ensures EnvAfter(content, updates).Ok?
    ensures forall i :: 0 <= i < |updates| && updates[i].1.Some? ==>
      EnvLine(updates[i].0, updates[i].1.value) in Split(EnvAfter(content, updates).value, '\n')
  {
    if updates != [] {
      var init := updates[..|updates| - 1];
      var (key, value) := updates[|updates| - 1];
      WriteEnvSetsAll(content, init);
      var acc := EnvAfter(content, init).value;
      if value.Some? {
        EnvStepSetsKey(acc, key, value.value);
      }
      forall i | 0 <= i < |updates| && updates[i].1.Some?
        ensures EnvLine(updates[i].0, updates[i].1.value) in Split(EnvAfter(content, updates).value, '\n')
      {
        if i < |updates| - 1 {
          assert updates[i] == init[i];
          if value.Some? {
            OtherKeySolid(updates[i].0, updates[i].1.value, key);
            EnvStepKeepsLine(acc, key, value.value, EnvLine(updates[i].0, updates[i].1.value));
          }
        }
      }
    }
  }
  // ---------------------------------------------------------------- plain `.env` files

  /** A character of a variable name as `.env` files write them. */
  predicate IsNameChar(c: char)
  {
    'A' <= c <= 'Z' || 'a' <= c <= 'z' || '0' <= c <= '9' || c == '_'
  }

  /** A variable name: letters, digits and `_`, at least one. */
  predicate EnvName(name: string)
  {
    name != [] && forall i :: 0 <= i < |name| ==> IsNameChar(name[i])
  }

  /** A character a value can hold without quoting: printable ASCII other than space, quotes, `#`, `$` and backslash. */
  predicate IsPlainValueChar(c: char)
  {
    '!' <= c <= '~' && c != '"' && c != '\'' && c != '`' && c != '#' && c != '$' && c != '\\'
  }

  predicate PlainValue(value: string)
  {
    forall i :: 0 <= i < |value| ==> IsPlainValueChar(value[i])
  }

  /** The length of the name a line starts with. */
  function NameLength(line: string): (n: nat)
    ensures n <= |line|
    ensures forall i :: 0 <= i < n ==> IsNameChar(line[i])
    ensures n < |line| ==> !IsNameChar(line[n])
  {
    if line != [] && IsNameChar(line[0]) then 1 + NameLength(line[1..]) else 0
  }

  /** A line any `.env` reader reads the same way: empty, a comment, or `NAME=value` with a plain value. */
  predicate PlainLine(line: string)
  {
    || line == ""
    || (line[0] == '#' && '\r' !in line)
    || (var n := NameLength(line); 0 < n < |line| && line[n] == '=' && PlainValue(line[n + 1..]))
  }

  predicate PlainLines(ls: seq<string>)
  {
    forall i :: 0 <= i < |ls| ==> PlainLine(ls[i])
  }

  /** A `.env` text made of plain lines. */
  predicate PlainEnv(text: string)
  {
    PlainLines(Split(text, '\n'))
  }

  /** `NAME=value` is one of the lines, and every line that assigns `NAME` is that line. */
  predicate SoleLine(ls: seq<string>, name: string, value: string)
  {
    && EnvLine(name, value) in ls
    && forall i :: 0 <= i < |ls| && StartsWith(ls[i], name + "=") ==> ls[i] == EnvLine(name, value)
  }

  /** `NAME=value` is a line of the text, and the only line that assigns `NAME`. */
  predicate SoleValue(text: string, name: string, value: string)
  {
    SoleLine(Split(text, '\n'), name, value)
  }

  /** A variable name is a key `_write_env` can take. */
  lemma {:induction false} EnvNamePlainKey(name: string)
    requires EnvName(name)
    ensures PlainKey(name) && '\n' !in name
  {
    assert forall i :: 0 <= i < |name| ==> IsNameChar(name[i]) && name[i] != '\n';
  }

  /** `NAME=value` is a plain line whose name is `NAME`. */
  lemma {:induction false} EnvLinePlain(name: string, value: string)
    requires EnvName(name) && PlainValue(value)
    ensures NameLength(EnvLine(name, value)) == |name|
    ensures PlainLine(EnvLine(name, value)) && '\n' !in EnvLine(name, value)
  {
    var line := EnvLine(name, value);
    NameLengthOf(line, |name|);
    assert line[|name| + 1..] == value;
    assert '\n' !in value by {
      assert forall i :: 0 <= i < |value| ==> IsPlainValueChar(value[i]) && value[i] != '\n';
    }
    EnvNamePlainKey(name);
    EnvLineNoNewline(name, value);
  }

  /** A line whose first `n` characters are name characters and whose next one is not has a name of length `n`. */
  lemma {:induction false} NameLengthOf(line: string, n: nat)
    requires n <= |line| && (forall i :: 0 <= i < n ==> IsNameChar(line[i])) && (n < |line| ==> !IsNameChar(line[n]))
    ensures NameLength(line) == n
  {
    if n > 0 {
      NameLengthOf(line[1..], n - 1);
    }
  }

  /** A line that starts with a name starts with that name's characters at least. */
  lemma {:induction false} NameCovers(line: string, key: string)
    requires EnvName(key) && StartsWith(line, key)
    ensures |key| <= NameLength(line)
  {
  }

  /** A name followed by more name characters is not followed by `=`, even after spaces. */
  lemma {:induction false} LongerName(line: string, key: string)
    requires StartsWith(line, key) && |key| < NameLength(line)
    ensures SkipSpaces(line[|key|..]) != [] && SkipSpaces(line[|key|..])[0] != '='
    ensures !StartsWith(line, key + "=")
  {
    var c := line[|key|];
    assert IsNameChar(c);
    assert line[|key|..][0] == c && !IsPySpace(c);
    assert SkipSpaces(line[|key|..]) == line[|key|..];
    AssignmentStart(line, key);
  }

  /** A line that starts with `NAME=` has `=` right after the name. */
  lemma {:induction false} AssignmentStart(line: string, key: string)
    ensures StartsWith(line, key + "=") ==> |key| < |line| && line[|key|] == '='
  {
    if StartsWith(line, key + "=") {
      assert line[..|key| + 1][|key|] == '=';
    }
  }

  /** A name followed by `=` is matched there. */
  lemma {:induction false} ExactName(line: string, key: string)
    requires StartsWith(line, key) && |key| < |line| && line[|key|] == '='
    ensures SkipSpaces(line[|key|..]) != [] && SkipSpaces(line[|key|..])[0] == '='
    ensures StartsWith(line, key + "=")
  {
    EqualsFirst(line[|key|..]);
    PrefixExtend(line, key);
  }

  /** A prefix followed by the next character of the line is a prefix. */
  lemma {:induction false} PrefixExtend(line: string, p: string)
    requires StartsWith(line, p) && |p| < |line|
    ensures StartsWith(line, p + [line[|p|]])
  {
    assert line[..|p| + 1] == line[..|p|] + [line[|p|]];
  }

  lemma {:induction false} NoPrefix(line: string, key: string)
    requires !StartsWith(line, key)
    ensures !StartsWith(line, key + "=")
  {
  }

  /** On a plain line the pattern for a variable name matches exactly when the line starts with `NAME=`, and never runs onto the next line. */
  lemma {:induction false} MatchPlain(ls: seq<string>, key: string)
    requires ls != [] && PlainLine(ls[0]) && EnvName(key)
    ensures MatchAt(ls, key) == if StartsWith(ls[0], key + "=") then Some(0) else None
  {
    var line := ls[0];
    if StartsWith(line, key) {
      assert line[0] == key[0];
      NameCovers(line, key);
      if |key| < NameLength(line) {
        LongerName(line, key);
      } else {
        ExactName(line, key);
      }
    } else {
      NoPrefix(line, key);
    }
  }
  /** `NAME=value` starts with `OTHER=` only for the same name. */
  lemma {:induction false} PrefixNames(key: string, value: string, name: string)
    requires EnvName(key) && EnvName(name) && StartsWith(EnvLine(key, value), name + "=")
    ensures name == key
  {
    var line := EnvLine(key, value);
    NameLengthOf(line, |key|);
    assert line[..|name| + 1] == name + "=";
    assert line[|name|] == '=';
    assert |name| == |key|;
    assert line[..|key|] == key;
    assert name == (name + "=")[..|name|];
  }

  /** A line after the substitution: `NAME=value` in place of any line that assigns `NAME`. */
  function Rewritten(line: string, key: string, value: string): string
  {
    if StartsWith(line, key + "=") then EnvLine(key, value) else line
  }

  /** The substitution on plain lines, one line at a time. */
  lemma {:induction false} SubHead(ls: seq<string>, key: string, value: string, t: seq<Piece>)
    requires ls != [] && PlainLine(ls[0]) && EnvName(key) && forall m :: Expand(t, m) == EnvLine(key, value)
    ensures Sub(ls, key, t) == [Rewritten(ls[0], key, value)] + Sub(ls[1..], key, t)
  {
    MatchPlain(ls, key);
    assert ls[..1] == [ls[0]];
  }

  /** On plain lines the substitution rewrites exactly the lines that start with `NAME=`. */
  lemma {:induction false} SubPlain(ls: seq<string>, key: string, value: string, t: seq<Piece>)
    requires PlainLines(ls) && EnvName(key) && forall m :: Expand(t, m) == EnvLine(key, value)
    ensures |Sub(ls, key, t)| == |ls|
    ensures forall i :: 0 <= i < |ls| ==> Sub(ls, key, t)[i] == Rewritten(ls[i], key, value)
    decreases |ls|
  {
    if ls != [] {
      PlainLinesTail(ls);
      SubPlain(ls[1..], key, value, t);
      SubHead(ls, key, value, t);
      RewrittenShift(ls, Sub(ls, key, t), Sub(ls[1..], key, t), key, value);
    }
  }

  lemma {:induction false} PlainLinesTail(ls: seq<string>)
    requires ls != [] && PlainLines(ls)
    ensures PlainLines(ls[1..])
  {
    forall i | 0 <= i < |ls| - 1 ensures PlainLine(ls[1..][i]) {
      assert ls[1..][i] == ls[i + 1];
    }
  }

  /** The first line rewritten, followed by the rest rewritten, is every line rewritten. */
  lemma {:induction false} RewrittenShift(ls: seq<string>, whole: seq<string>, rest: seq<string>, key: string, value: string)
    requires ls != [] && whole == [Rewritten(ls[0], key, value)] + rest && |rest| == |ls| - 1
    requires forall i :: 0 <= i < |ls| - 1 ==> rest[i] == Rewritten(ls[1..][i], key, value)
    ensures |whole| == |ls| && forall i :: 0 <= i < |ls| ==> whole[i] == Rewritten(ls[i], key, value)
  {
    forall i | 0 < i < |ls| ensures whole[i] == Rewritten(ls[i], key, value) {
      assert whole[i] == rest[i - 1] && ls[1..][i - 1] == ls[i];
    }
  }

  /** A plain value holds no line end and no backslash. */
  lemma {:induction false} PlainValueFree(value: string)
    requires PlainValue(value)
    ensures '\n' !in value && '\\' !in value
  {
    assert forall i :: 0 <= i < |value| ==> IsPlainValueChar(value[i]) && value[i] != '\n' && value[i] != '\\';
  }

  /** What `_write_env` keeps of plain lines when it rewrites them: plain lines, the new assignment the only one for its name, and every other name's sole assignment. */
  lemma {:induction false} RewriteKeepsPlain(lines: seq<string>, after: seq<string>, key: string, value: string)
    requires PlainLines(lines) && EnvName(key) && PlainValue(value)
    requires |after| == |lines| && forall i :: 0 <= i < |lines| ==> after[i] == Rewritten(lines[i], key, value)
    ensures PlainLines(after)
    ensures forall i :: 0 <= i < |after| && StartsWith(after[i], key + "=") ==> after[i] == EnvLine(key, value)
    ensures forall name, v :: name != key && EnvName(name) && SoleLine(lines, name, v) ==> SoleLine(after, name, v)
  {
    EnvLinePlain(key, value);
    forall name, v | name != key && EnvName(name) && SoleLine(lines, name, v) ensures SoleLine(after, name, v) {
      var j :| 0 <= j < |lines| && lines[j] == EnvLine(name, v);
      if StartsWith(lines[j], key + "=") {
        PrefixNames(name, v, key);
      }
      assert after[j] == EnvLine(name, v);
      forall i | 0 <= i < |after| && StartsWith(after[i], name + "=") ensures after[i] == EnvLine(name, v) {
        if StartsWith(lines[i], key + "=") {
          PrefixNames(key, value, name);
        }
      }
    }
  }
  /** Appending `NAME=value` to plain lines of which none assigns `NAME`: the lines stay plain and every name keeps or gets its sole assignment. */
  lemma {:induction false} AppendKeepsPlain(lines: seq<string>, key: string, value: string)
    requires PlainLines(lines) && EnvName(key) && PlainValue(value)
    requires forall i :: 0 <= i < |lines| ==> !StartsWith(lines[i], key + "=")
    ensures var after := DropTrailingEmpty(lines) + [EnvLine(key, value), ""];
      && PlainLines(after) && SoleLine(after, key, value)
      && forall name, v :: name != key && EnvName(name) && SoleLine(lines, name, v) ==> SoleLine(after, name, v)
  {
    var line := EnvLine(key, value);
    EnvLinePlain(key, value);
    var d := DropTrailingEmpty(lines);
    var after := d + [line, ""];
    assert forall i :: 0 <= i < |d| ==> after[i] == lines[i];
    assert after[|d|] == line && after[|d| + 1] == "";
    forall name, v | name != key && EnvName(name) && SoleLine(lines, name, v) ensures SoleLine(after, name, v) {
      var j :| 0 <= j < |lines| && lines[j] == EnvLine(name, v);
      assert lines[j] != "";
      assert after[j] == EnvLine(name, v);
      if StartsWith(line, name + "=") {
        PrefixNames(key, value, name);
      }
    }
  }

  /** Where no plain line assigns the name, appending keeps the lines plain and makes the new assignment the only one for its name. */
  lemma {:induction false} AppendPlain(content: string, key: string, value: string)
    requires PlainEnv(content) && EnvName(key) && PlainValue(value) && !AnyMatch(Split(content, '\n'), key)
    ensures var after := Split(Terminated(content) + EnvLine(key, value) + "\n", '\n');
      && PlainLines(after) && SoleLine(after, key, value)
      && forall name, v :: name != key && EnvName(name) && SoleLine(Split(content, '\n'), name, v) ==> SoleLine(after, name, v)
  {
    var lines := Split(content, '\n');
    EnvLinePlain(key, value);
    AppendedLines(content, EnvLine(key, value));
    forall i | 0 <= i < |lines| ensures !StartsWith(lines[i], key + "=") {
      assert lines[i..][0] == lines[i];
      MatchPlain(lines[i..], key);
    }
    AppendKeepsPlain(lines, key, value);
  }

  /**
   * One update of a plain `.env` text with a variable name and a plain
   * value: it succeeds, the text stays plain, the new assignment is the
   * only one for its name, and every other name keeps its sole assignment.
   */
  lemma {:induction false} EnvStepPlain(content: string, key: string, value: string)
    requires PlainEnv(content) && EnvName(key) && PlainValue(value)
    ensures EnvStep(content, key, value).Ok?
    ensures PlainEnv(EnvStep(content, key, value).value) && SoleValue(EnvStep(content, key, value).value, key, value)
    ensures forall name, v :: name != key && EnvName(name) && SoleValue(content, name, v) ==>
      SoleValue(EnvStep(content, key, value).value, name, v)
  {
    var lines := Split(content, '\n');
    EnvNamePlainKey(key);
    PlainValueFree(value);
    PlainKeyNoBackslash(key);
    EnvLineNoBackslash(key, value);
    EnvLinePlain(key, value);
    if AnyMatch(lines, key) {
      RewrittenLines(content, key, value);
      LiteralTemplate(EnvLine(key, value));
      var t := ParseTemplate(EnvLine(key, value)).value;
      SubPlain(lines, key, value, t);
      RewriteKeepsPlain(lines, Sub(lines, key, t), key, value);
    } else {
      AppendPlain(content, key, value);
    }
  }
  /**
   * `_write_env` on a plain text with distinct variable names and plain
   * values: it succeeds, the text stays plain, and each written variable
   * has exactly one assignment, to its value.
   */
  lemma {:induction false} WriteEnvPlain(content: string, updates: seq<(string, Option<string>)>)
    requires PlainEnv(content) && DistinctKeys(updates)
    requires forall i :: 0 <= i < |updates| ==> EnvName(updates[i].0)
    requires forall i :: 0 <= i < |updates| && updates[i].1.Some? ==> PlainValue(updates[i].1.value)
    ensures EnvAfter(content, updates).Ok? && PlainEnv(EnvAfter(content, updates).value)
    ensures forall i :: 0 <= i < |updates| && updates[i].1.Some? ==>
      SoleValue(EnvAfter(content, updates).value, updates[i].0, updates[i].1.value)
  {
    if updates != [] {
      var init := updates[..|updates| - 1];
      var (key, value) := updates[|updates| - 1];
      WriteEnvPlain(content, init);
      var acc := EnvAfter(content, init).value;
      if value.Some? {
        EnvStepPlain(acc, key, value.value);
      }
      forall i | 0 <= i < |updates| - 1 && updates[i].1.Some?
        ensures SoleValue(EnvAfter(content, updates).value, updates[i].0, updates[i].1.value)
      {
        assert updates[i] == init[i];
      }
    }
  }

  // ---------------------------------------------------------------- save: walk

  /** `exposure_map.get(path, 'normal')`. */
  function ExposureAt(exposure: map<seq<string>, Exposure>, path: seq<string>): (r: Exposure)
    ensures path !in exposure ==> r == Normal
    ensures path in exposure ==> r == exposure[path]
  {
    if path in exposure then exposure[path] else Normal
  }

  /** Python's `str(v)` on a scalar; how floats print is a parameter. */
  function PyStr(a: Atom, realText: real -> string): (r: string)
    ensures a.Str? ==> r == a.s
    ensures a.Bool? ==> r == (if a.b then "True" else "False")
    ensures a.Null? ==> r == "None"
  {
    match a
    case Str(s) => s
    case Int(i) => IntToString(i)
    case Num(x) => realText(x)
    case Bool(b) => if b then "True" else "False"
    case Null => "None"
  }

  /** What the walk adds to `secret_updates` for the leaves it visits, in visiting order. */
  function RecordSecrets(secrets: map<string, string>, order: seq<(seq<string>, Value)>,
                         exposure: map<seq<string>, Exposure>, realText: real -> string): map<string, string>
  {
    if order == [] then secrets
    else
      var acc := RecordSecrets(secrets, order[..|order| - 1], exposure, realText);
      var (p, v) := order[|order| - 1];
      if p != [] && v.Leaf? && ExposureAt(exposure, p) == Secret then acc[Upper(p[|p| - 1]) := PyStr(v.atom, realText)]
      else acc
  }

  lemma {:induction false} RecordSecretsAppend(secrets: map<string, string>, a: seq<(seq<string>, Value)>, b: seq<(seq<string>, Value)>,
                                               exposure: map<seq<string>, Exposure>, realText: real -> string)
    ensures RecordSecrets(secrets, a + b, exposure, realText)
         == RecordSecrets(RecordSecrets(secrets, a, exposure, realText), b, exposure, realText)
  {
    if b != [] {
      assert (a + b)[..|a + b| - 1] == a + b[..|b| - 1];
      RecordSecretsAppend(secrets, a, b[..|b| - 1], exposure, realText);
    } else {
      assert a + b == a;
    }
  }

  lemma {:induction false} GetExtend(v: Value, path: seq<string>, w: Value, rest: seq<string>)
    requires Get(v, path) == Some(w)
    ensures Get(v, path + rest) == Get(w, rest)
    ensures IsLeafPath(v, path + rest) <==> IsLeafPath(w, rest)
  {
    if path == [] {
      assert path + rest == rest;
    } else {
      assert (path + rest)[0] == path[0];
      assert (path + rest)[1..] == path[1..] + rest;
      GetExtend(v.entries[path[0]], path[1..], w, rest);
    }
  }

  lemma PrefixStep(path: seq<string>, k: string, q: seq<string>)
    ensures IsPrefix(path + [k], q) <==> IsPrefix(path, q) && |q| > |path| && q[|path|] == k
  {
    if IsPrefix(path, q) && |q| > |path| && q[|path|] == k {
      assert q[..|path| + 1] == q[..|path|] + [q[|path|]];
    }
    if IsPrefix(path + [k], q) {
      assert q[..|path|] == q[..|path| + 1][..|path|];
    }
  }

  predicate DistinctPaths(order: seq<(seq<string>, Value)>)
  {
    forall i, j :: 0 <= i < j < |order| ==> order[i].0 != order[j].0
  }

  /** Each entry of `order` is a leaf under `path` whose first key below `path` is in `done`, with its value. */
  ghost predicate LeavesIn(root: map<string, Value>, path: seq<string>, done: set<string>, order: seq<(seq<string>, Value)>)
  {
    forall i :: 0 <= i < |order| ==>
      && IsPrefix(path, order[i].0) && |order[i].0| > |path| && order[i].0[|path|] in done
      && IsLeafPath(Dict(root), order[i].0) && Get(Dict(root), order[i].0) == Some(order[i].1)
  }

  /** Every leaf under `path` whose first key below `path` is in `done` is listed. */
  ghost predicate Covers(root: map<string, Value>, path: seq<string>, done: set<string>, order: seq<(seq<string>, Value)>)
  {
    forall q :: IsPrefix(path, q) && |q| > |path| && q[|path|] in done && IsLeafPath(Dict(root), q) ==> q in PathsOf(order)
  }

  /** `order` lists, once each, the leaves under `path` whose first key below `path` is in `done`. */
  ghost predicate VisitsPart(root: map<string, Value>, path: seq<string>, done: set<string>, order: seq<(seq<string>, Value)>)
  {
    LeavesIn(root, path, done, order) && Covers(root, path, done, order) && DistinctPaths(order)
  }

  /** `order` lists, once each, every leaf under `path`, with its value. */
  ghost predicate VisitsAll(root: map<string, Value>, path: seq<string>, order: seq<(seq<string>, Value)>)
  {
    && (forall i :: 0 <= i < |order| ==>
          IsPrefix(path, order[i].0) && IsLeafPath(Dict(root), order[i].0) && Get(Dict(root), order[i].0) == Some(order[i].1))
    && (forall q :: IsPrefix(path, q) && IsLeafPath(Dict(root), q) ==> q in PathsOf(order))
    && DistinctPaths(order)
  }

  lemma PathsOfAppend(a: seq<(seq<string>, Value)>, b: seq<(seq<string>, Value)>)
    ensures PathsOf(a + b) == PathsOf(a) + PathsOf(b)
  {
    var ab := a + b;
    forall q | q in PathsOf(b) ensures q in PathsOf(ab) {
      var j :| 0 <= j < |b| && b[j].0 == q;
      assert ab[|a| + j] == b[j];
    }
    forall q | q in PathsOf(a) ensures q in PathsOf(ab) {
      var j :| 0 <= j < |a| && a[j].0 == q;
      assert ab[j] == a[j];
    }
    forall q | q in PathsOf(ab) ensures q in PathsOf(a) + PathsOf(b) {
      var j :| 0 <= j < |ab| && ab[j].0 == q;
      if j < |a| { assert ab[j] == a[j]; } else { assert ab[j] == b[j - |a|]; }
    }
  }

  lemma SubUnderKey(root: map<string, Value>, path: seq<string>, k: string, sub: seq<(seq<string>, Value)>)
    requires VisitsAll(root, path + [k], sub)
    ensures LeavesIn(root, path, {k}, sub)
  {
    forall i | 0 <= i < |sub| ensures IsPrefix(path, sub[i].0) && |sub[i].0| > |path| && sub[i].0[|path|] == k {
      PrefixStep(path, k, sub[i].0);
    }
  }

  lemma LeavesInAppend(root: map<string, Value>, path: seq<string>, d1: set<string>, d2: set<string>,
                       a: seq<(seq<string>, Value)>, b: seq<(seq<string>, Value)>)
    requires LeavesIn(root, path, d1, a) && LeavesIn(root, path, d2, b)
    ensures LeavesIn(root, path, d1 + d2, a + b)
  {
    var ab := a + b;
    forall i | 0 <= i < |ab|
      ensures IsPrefix(path, ab[i].0) && |ab[i].0| > |path| && ab[i].0[|path|] in d1 + d2
           && IsLeafPath(Dict(root), ab[i].0) && Get(Dict(root), ab[i].0) == Some(ab[i].1)
    {
      if i < |a| { assert ab[i] == a[i]; } else { assert ab[i] == b[i - |a|]; }
    }
  }

  lemma DistinctAppend(path: seq<string>, d1: set<string>, d2: set<string>, a: seq<(seq<string>, Value)>, b: seq<(seq<string>, Value)>)
    requires d1 !! d2
    requires DistinctPaths(a) && DistinctPaths(b)
    requires forall i :: 0 <= i < |a| ==> |a[i].0| > |path| && a[i].0[|path|] in d1
    requires forall i :: 0 <= i < |b| ==> |b[i].0| > |path| && b[i].0[|path|] in d2
    ensures DistinctPaths(a + b)
  {
    var ab := a + b;
    forall i, j | 0 <= i < j < |ab| ensures ab[i].0 != ab[j].0 {
      if j < |a| {
        assert ab[i] == a[i] && ab[j] == a[j];
      } else if i >= |a| {
        assert ab[i] == b[i - |a|] && ab[j] == b[j - |a|];
      } else {
        assert ab[i] == a[i] && ab[j] == b[j - |a|];
      }
    }
  }

  lemma CoversDict(root: map<string, Value>, path: seq<string>, done: set<string>, k: string,
                   before: seq<(seq<string>, Value)>, sub: seq<(seq<string>, Value)>)
    requires Covers(root, path, done, before)
    requires VisitsAll(root, path + [k], sub)
    ensures Covers(root, path, done + {k}, before + sub)
  {
    PathsOfAppend(before, sub);
    forall q | IsPrefix(path, q) && |q| > |path| && q[|path|] == k && IsLeafPath(Dict(root), q)
      ensures q in PathsOf(sub)
    {
      PrefixStep(path, k, q);
    }
  }

  lemma WalkDictStep(root: map<string, Value>, path: seq<string>, done: set<string>, k: string,
                     before: seq<(seq<string>, Value)>, sub: seq<(seq<string>, Value)>)
    requires k !in done
    requires VisitsPart(root, path, done, before)
    requires VisitsAll(root, path + [k], sub)
    ensures VisitsPart(root, path, done + {k}, before + sub)
    ensures PathsOf(before + sub) == PathsOf(before) + PathsOf(sub)
  {
    SubUnderKey(root, path, k, sub);
    LeavesInAppend(root, path, done, {k}, before, sub);
    DistinctAppend(path, done, {k}, before, sub);
    CoversDict(root, path, done, k, before, sub);
    PathsOfAppend(before, sub);
  }

  /** The only leaf under `path + [k]`, when that key holds a scalar, is `path + [k]` itself. */
  lemma OnlyLeafAt(root: map<string, Value>, path: seq<string>, data: map<string, Value>, k: string, q: seq<string>)
    requires Get(Dict(root), path) == Some(Dict(data))
    requires k in data && data[k].Leaf?
    requires IsPrefix(path, q) && |q| > |path| && q[|path|] == k && IsLeafPath(Dict(root), q)
    ensures q == path + [k]
  {
    var cur := path + [k];
    GetExtend(Dict(root), path, Dict(data), [k]);
    assert [k][1..] == [];
    PrefixStep(path, k, q);
    var rest := q[|cur|..];
    assert q == cur + rest;
    GetExtend(Dict(root), cur, data[k], rest);
  }

  lemma WalkLeafStep(root: map<string, Value>, path: seq<string>, data: map<string, Value>, done: set<string>, k: string,
                     before: seq<(seq<string>, Value)>)
    requires Get(Dict(root), path) == Some(Dict(data))
    requires k in data && k !in done && data[k].Leaf?
    requires VisitsPart(root, path, done, before)
    ensures IsLeafPath(Dict(root), path + [k]) && Get(Dict(root), path + [k]) == Some(data[k])
    ensures path + [k] !in PathsOf(before)
    ensures VisitsPart(root, path, done + {k}, before + [(path + [k], data[k])])
    ensures PathsOf(before + [(path + [k], data[k])]) == PathsOf(before) + {path + [k]}
  {
    var cur := path + [k];
    var one := [(cur, data[k])];
    GetExtend(Dict(root), path, Dict(data), [k]);
    assert [k][1..] == [];
    PrefixStep(path, k, cur);
    assert cur in PathsOf(one) by { assert one[0].0 == cur; }
    assert PathsOf(one) == {cur};
    PathsOfAppend(before, one);
    LeavesInAppend(root, path, done, {k}, before, one);
    DistinctAppend(path, done, {k}, before, one);
    forall q | IsPrefix(path, q) && |q| > |path| && q[|path|] == k && IsLeafPath(Dict(root), q)
      ensures q in PathsOf(before + one)
    {
      OnlyLeafAt(root, path, data, k, q);
    }
  }

  lemma NotUnderKey(path: seq<string>, k: string, seen: set<seq<string>>, root: map<string, Value>, done: set<string>,
                    order: seq<(seq<string>, Value)>)
    requires forall q :: q in seen ==> !IsPrefix(path, q)
    requires LeavesIn(root, path, done, order) && k !in done
    ensures forall q :: q in seen + PathsOf(order) ==> !IsPrefix(path + [k], q)
    ensures path + [k] !in seen + PathsOf(order)
  {
    forall q | q in seen + PathsOf(order) ensures !IsPrefix(path + [k], q) {
      PrefixStep(path, k, q);
    }
    assert IsPrefix(path + [k], path + [k]);
  }

  lemma AfterSubWalk(root: map<string, Value>, cur: seq<string>, seen: set<seq<string>>,
                     order: seq<(seq<string>, Value)>, sub: seq<(seq<string>, Value)>)
    requires LeafPaths(root, seen + PathsOf(order))
    requires VisitsAll(root, cur, sub)
    ensures LeafPaths(root, seen + PathsOf(order + sub))
    ensures seen + PathsOf(order) + PathsOf(sub) == seen + PathsOf(order + sub)
  {
    PathsOfAppend(order, sub);
  }

  /** The state after visiting one scalar. */
  lemma LeafVisit(root: map<string, Value>, path: seq<string>, data: map<string, Value>, seen: set<seq<string>>,
                  done: set<string>, k: string, order: seq<(seq<string>, Value)>,
                  secretsIn: map<string, string>, exposure: map<seq<string>, Exposure>, realText: real -> string)
    requires Get(Dict(root), path) == Some(Dict(data))
    requires k in data && k !in done && data[k].Leaf?
    requires VisitsPart(root, path, done, order)
    requires LeafPaths(root, seen + PathsOf(order))
    requires path + [k] !in seen + PathsOf(order)
    ensures AssignPath(Restrict(root, seen + PathsOf(order)), path + [k], data[k])
         == Ok(Restrict(root, seen + PathsOf(order + [(path + [k], data[k])])))
    ensures LeafPaths(root, seen + PathsOf(order + [(path + [k], data[k])]))
    ensures VisitsPart(root, path, done + {k}, order + [(path + [k], data[k])])
    ensures RecordSecrets(secretsIn, order + [(path + [k], data[k])], exposure, realText)
         == (var secrets := RecordSecrets(secretsIn, order, exposure, realText);
             if ExposureAt(exposure, path + [k]) == Secret then secrets[Upper(k) := PyStr(data[k].atom, realText)] else secrets)
  {
    var cur := path + [k];
    WalkLeafStep(root, path, data, done, k, order);
    ghost var paths := seen + PathsOf(order);
    assert seen + PathsOf(order + [(cur, data[k])]) == paths + {cur};
    LeafAssigned(root, paths, cur, order, data[k]);
    RecordOne(secretsIn, order, path, k, data[k], exposure, realText);
  }

  lemma LeafAssigned(root: map<string, Value>, paths: set<seq<string>>, cur: seq<string>,
                     order: seq<(seq<string>, Value)>, v: Value)
    requires LeafPaths(root, paths) && IsLeafPath(Dict(root), cur) && cur !in paths
    requires Get(Dict(root), cur) == Some(v)
    requires PathsOf(order + [(cur, v)]) == PathsOf(order) + {cur}
    ensures AssignPath(Restrict(root, paths), cur, v) == Ok(Restrict(root, paths + {cur}))
  {
    AssignLeaf(root, paths, cur);
  }

  lemma RecordOne(secretsIn: map<string, string>, order: seq<(seq<string>, Value)>, path: seq<string>, k: string, v: Value,
                  exposure: map<seq<string>, Exposure>, realText: real -> string)
    requires v.Leaf?
    ensures RecordSecrets(secretsIn, order + [(path + [k], v)], exposure, realText)
         == (var secrets := RecordSecrets(secretsIn, order, exposure, realText);
             if ExposureAt(exposure, path + [k]) == Secret then secrets[Upper(k) := PyStr(v.atom, realText)] else secrets)
  {
    var cur := path + [k];
    assert cur[|cur| - 1] == k;
    assert (order + [(cur, v)])[..|order|] == order;
  }

  lemma VisitsAllFromPart(root: map<string, Value>, path: seq<string>, data: map<string, Value>, order: seq<(seq<string>, Value)>)
    requires Get(Dict(root), path) == Some(Dict(data))
    requires VisitsPart(root, path, data.Keys, order)
    ensures VisitsAll(root, path, order)
  {
    forall q | IsPrefix(path, q) && IsLeafPath(Dict(root), q) ensures q in PathsOf(order) {
      var rest := q[|path|..];
      assert q == path + rest;
      GetExtend(Dict(root), path, Dict(data), rest);
      assert rest != [];
    }
  }

  /**
   * `walk(data, path)` inside `save`: every scalar under `path` is assigned
   * into `yaml_updates` at its full path, and a scalar whose path the
   * exposure map marks secret is also recorded in `secret_updates` under its
   * upper-cased field name as `str(value)`. `order` is the visiting order.
   */
  method Walk(ghost root: map<string, Value>, path: seq<string>, data: map<string, Value>,
              exposure: map<seq<string>, Exposure>, realText: real -> string,
              yamlIn: map<string, Value>, secretsIn: map<string, string>, ghost seen: set<seq<string>>)
    returns (yaml: map<string, Value>, secrets: map<string, string>, ghost order: seq<(seq<string>, Value)>)
    requires Get(Dict(root), path) == Some(Dict(data))
    requires LeafPaths(root, seen) && yamlIn == Restrict(root, seen)
    requires forall q :: q in seen ==> !IsPrefix(path, q)
    ensures VisitsAll(root, path, order)
    ensures yaml == Restrict(root, seen + PathsOf(order))
    ensures secrets == RecordSecrets(secretsIn, order, exposure, realText)
    decreases Dict(data), 1
  {
    yaml, secrets, order := yamlIn, secretsIn, [];
    assert seen + PathsOf(order) == seen;
    var todo := data.Keys;
    while todo != {}
      invariant todo <= data.Keys
      invariant VisitsPart(root, path, data.Keys - todo, order)
      invariant LeafPaths(root, seen + PathsOf(order))
      invariant yaml == Restrict(root, seen + PathsOf(order))
      invariant secrets == RecordSecrets(secretsIn, order, exposure, realText)
      decreases todo
    {
      var k :| k in todo;
      ghost var done := data.Keys - todo;
      yaml, secrets, order := WalkKey(root, path, data, k, exposure, realText, secretsIn, seen, done, yaml, secrets, order);
      todo := todo - {k};
      assert data.Keys - todo == done + {k};
    }
    VisitsAllFromPart(root, path, data, order);
  }

  /** One turn of `walk`'s loop: the entry `k` of `data`, a nested dict walked in turn or a scalar assigned. */
  method WalkKey(ghost root: map<string, Value>, path: seq<string>, data: map<string, Value>, k: string,
                 exposure: map<seq<string>, Exposure>, realText: real -> string, secretsIn: map<string, string>,
                 ghost seen: set<seq<string>>, ghost done: set<string>,
                 yamlIn: map<string, Value>, secretsNow: map<string, string>, ghost orderIn: seq<(seq<string>, Value)>)
    returns (yaml: map<string, Value>, secrets: map<string, string>, ghost order: seq<(seq<string>, Value)>)
    requires Get(Dict(root), path) == Some(Dict(data))
    requires forall q :: q in seen ==> !IsPrefix(path, q)
    requires k in data && k !in done && done <= data.Keys
    requires VisitsPart(root, path, done, orderIn)
    requires LeafPaths(root, seen + PathsOf(orderIn))
    requires yamlIn == Restrict(root, seen + PathsOf(orderIn))
    requires secretsNow == RecordSecrets(secretsIn, orderIn, exposure, realText)
    ensures VisitsPart(root, path, done + {k}, order)
    ensures LeafPaths(root, seen + PathsOf(order))
    ensures yaml == Restrict(root, seen + PathsOf(order))
    ensures secrets == RecordSecrets(secretsIn, order, exposure, realText)
    decreases Dict(data), 0
  {
    var cur := path + [k];
    var v := data[k];
    GetExtend(Dict(root), path, Dict(data), [k]);
    assert [k][1..] == [];
    NotUnderKey(path, k, seen, root, done, orderIn);
    if v.Dict? {
      assert Dict(v.entries) == v;
      ghost var sub;
      ghost var paths := seen + PathsOf(orderIn);
      yaml, secrets, sub := Walk(root, cur, v.entries, exposure, realText, yamlIn, secretsNow, paths);
      WalkDictStep(root, path, done, k, orderIn, sub);
      RecordSecretsAppend(secretsIn, orderIn, sub, exposure, realText);
      AfterSubWalk(root, path + [k], seen, orderIn, sub);
      order := orderIn + sub;
    } else {
      LeafVisit(root, path, data, seen, done, k, orderIn, secretsIn, exposure, realText);
      yaml := AssignPath(yamlIn, cur, v).value;
      secrets := secretsNow;
      if ExposureAt(exposure, cur) == Secret {
        secrets := secrets[Upper(k) := PyStr(v.atom, realText)];
      }
      order := orderIn + [(cur, v)];
    }
  }

  /** A secret scalar of `order` is recorded under its upper-cased field name. */
  predicate SecretEntry(entry: (seq<string>, Value), exposure: map<seq<string>, Exposure>)
  {
    entry.0 != [] && entry.1.Leaf? && ExposureAt(exposure, entry.0) == Secret
  }

  lemma {:induction false} RecordedKeys(secrets: map<string, string>, order: seq<(seq<string>, Value)>,
                                        exposure: map<seq<string>, Exposure>, realText: real -> string)
    ensures forall i :: 0 <= i < |order| && SecretEntry(order[i], exposure) ==>
      Upper(order[i].0[|order[i].0| - 1]) in RecordSecrets(secrets, order, exposure, realText)
    ensures secrets.Keys <= RecordSecrets(secrets, order, exposure, realText).Keys
  {
    if order != [] {
      var init := order[..|order| - 1];
      RecordedKeys(secrets, init, exposure, realText);
      forall i | 0 <= i < |order| - 1 ensures order[i] == init[i] { }
    }
  }

  /** `text`, recorded under `key`, is the original entry or the `str` of a secret scalar of `order` with that field name. */
  ghost predicate Traced(secrets: map<string, string>, order: seq<(seq<string>, Value)>,
                         exposure: map<seq<string>, Exposure>, realText: real -> string, key: string, text: string)
  {
    (key in secrets && text == secrets[key])
    || (exists i :: 0 <= i < |order| && SecretEntry(order[i], exposure)
          && Upper(order[i].0[|order[i].0| - 1]) == key && text == PyStr(order[i].1.atom, realText))
  }

  lemma TracedWiden(secrets: map<string, string>, init: seq<(seq<string>, Value)>, entry: (seq<string>, Value),
                    exposure: map<seq<string>, Exposure>, realText: real -> string, key: string, text: string)
    requires Traced(secrets, init, exposure, realText, key, text)
    ensures Traced(secrets, init + [entry], exposure, realText, key, text)
  {
    if !(key in secrets && text == secrets[key]) {
      var i :| 0 <= i < |init| && SecretEntry(init[i], exposure)
        && Upper(init[i].0[|init[i].0| - 1]) == key && text == PyStr(init[i].1.atom, realText);
      assert (init + [entry])[i] == init[i];
    }
  }

  /** Every recorded secret is an original entry or the `str` of a secret scalar of `order` with that field name. */
  lemma {:induction false} RecordedFrom(secrets: map<string, string>, order: seq<(seq<string>, Value)>,
                                        exposure: map<seq<string>, Exposure>, realText: real -> string)
    ensures forall key :: key in RecordSecrets(secrets, order, exposure, realText) ==>
      Traced(secrets, order, exposure, realText, key, RecordSecrets(secrets, order, exposure, realText)[key])
  {
    if order != [] {
      var init := order[..|order| - 1];
      var entry := order[|order| - 1];
      assert order == init + [entry];
      RecordedFrom(secrets, init, exposure, realText);
      var acc := RecordSecrets(secrets, init, exposure, realText);
      var r := RecordSecrets(secrets, order, exposure, realText);
      forall key | key in r
        ensures Traced(secrets, order, exposure, realText, key, r[key])
      {
        if SecretEntry(entry, exposure) && Upper(entry.0[|entry.0| - 1]) == key {
          assert order[|order| - 1] == entry;
        } else {
          assert key in acc && r[key] == acc[key];
          TracedWiden(secrets, init, entry, exposure, realText, key, acc[key]);
        }
      }
    }
  }

  /** `key` names a secret scalar of `data` whose `str` is `text`. */
  ghost predicate SecretOf(data: map<string, Value>, exposure: map<seq<string>, Exposure>, realText: real -> string,
                           key: string, text: string)
  {
    exists q :: IsLeafPath(Dict(data), q) && ExposureAt(exposure, q) == Secret && q != [] && Upper(q[|q| - 1]) == key
      && Get(Dict(data), q).Some? && Get(Dict(data), q).value.Leaf? && text == PyStr(Get(Dict(data), q).value.atom, realText)
  }

  /**
   * The walk over a whole partial update, from empty `yaml_updates` and
   * `secret_updates`: the YAML-bound updates hold every scalar of the
   * update at its path (the update itself when no nested dict is empty),
   * every secret scalar is recorded under its upper-cased field name, and
   * every recorded secret is the `str` of a secret scalar with that name.
   */
  method SplitUpdates(data: map<string, Value>, exposure: map<seq<string>, Exposure>, realText: real -> string)
    returns (yaml: map<string, Value>, secrets: map<string, string>)
    ensures forall q :: IsLeafPath(Dict(data), q) ==> Get(Dict(yaml), q) == Get(Dict(data), q)
    ensures forall q :: IsLeafPath(Dict(yaml), q) <==> IsLeafPath(Dict(data), q)
    ensures NoEmptyDicts(data) ==> yaml == data
    ensures forall q :: IsLeafPath(Dict(data), q) && ExposureAt(exposure, q) == Secret ==> q != [] && Upper(q[|q| - 1]) in secrets
    ensures forall key :: key in secrets ==> SecretOf(data, exposure, realText, key, secrets[key])
  {
    RestrictNothing(data);
    ghost var order;
    yaml, secrets, order := Walk(data, [], data, exposure, realText, map[], map[], {});
    assert {} + PathsOf(order) == PathsOf(order);
    YamlHoldsLeaves(data, order);
    SecretsCovered(data, order, exposure, realText);
    SecretsSound(data, order, exposure, realText);
  }

  lemma SecretsCovered(data: map<string, Value>, order: seq<(seq<string>, Value)>,
                       exposure: map<seq<string>, Exposure>, realText: real -> string)
    requires VisitsAll(data, [], order)
    ensures forall q :: IsLeafPath(Dict(data), q) && ExposureAt(exposure, q) == Secret ==>
      q != [] && Upper(q[|q| - 1]) in RecordSecrets(map[], order, exposure, realText)
  {
    RecordedKeys(map[], order, exposure, realText);
    forall q | IsLeafPath(Dict(data), q) && ExposureAt(exposure, q) == Secret
      ensures q != [] && Upper(q[|q| - 1]) in RecordSecrets(map[], order, exposure, realText)
    {
      assert IsPrefix([], q);
      var i :| 0 <= i < |order| && order[i].0 == q;
      LeafPathGet(Dict(data), q);
    }
  }

  lemma SecretsSound(data: map<string, Value>, order: seq<(seq<string>, Value)>,
                     exposure: map<seq<string>, Exposure>, realText: real -> string)
    requires VisitsAll(data, [], order)
    ensures forall key :: key in RecordSecrets(map[], order, exposure, realText) ==>
      SecretOf(data, exposure, realText, key, RecordSecrets(map[], order, exposure, realText)[key])
  {
    var secrets := RecordSecrets(map[], order, exposure, realText);
    RecordedFrom(map[], order, exposure, realText);
    forall key | key in secrets ensures SecretOf(data, exposure, realText, key, secrets[key]) {
      var i :| 0 <= i < |order| && SecretEntry(order[i], exposure)
        && Upper(order[i].0[|order[i].0| - 1]) == key && secrets[key] == PyStr(order[i].1.atom, realText);
      var q := order[i].0;
      assert IsLeafPath(Dict(data), q) && Get(Dict(data), q) == Some(order[i].1);
    }
  }

  lemma YamlHoldsLeaves(data: map<string, Value>, order: seq<(seq<string>, Value)>)
    requires VisitsAll(data, [], order)
    ensures forall q :: IsLeafPath(Dict(data), q) ==> Get(Dict(Restrict(data, PathsOf(order))), q) == Get(Dict(data), q)
    ensures forall q :: IsLeafPath(Dict(Restrict(data, PathsOf(order))), q) <==> IsLeafPath(Dict(data), q)
    ensures NoEmptyDicts(data) ==> Restrict(data, PathsOf(order)) == data
  {
    forall q ensures q in PathsOf(order) <==> IsLeafPath(Dict(data), q) {
      assert IsPrefix([], q);
    }
    forall q ensures IsLeafPath(Dict(Restrict(data, PathsOf(order))), q) <==> IsLeafPath(Dict(data), q) {
      RestrictLeafPath(data, PathsOf(order), q);
    }
    forall q | IsLeafPath(Dict(data), q) ensures Get(Dict(Restrict(data, PathsOf(order))), q) == Get(Dict(data), q) {
      assert IsPrefix([], q);
      var i :| 0 <= i < |order| && order[i].0 == q;
      RestrictGet(data, PathsOf(order), q);
    }
    if NoEmptyDicts(data) {
      RestrictAll(data, PathsOf(order));
    }
  }

  // ---------------------------------------------------------------- save: the YAML-only update

  /** What one top-level entry of the partial update contributes to the YAML file, if anything. */
  function SectionForYaml(k: string, v: Value, exposure: map<seq<string>, Exposure>): (r: Option<Value>)
    ensures v.Leaf? ==> (r.Some? <==> ExposureAt(exposure, [k]) != Secret) && (r.Some? ==> r.value == v)
    ensures v.Dict? && r.Some? ==> r.value.Dict? && r.value.entries != map[]
    ensures v.Dict? && r.Some? ==> forall f :: f in r.value.entries <==> f in v.entries && ExposureAt(exposure, [k, f]) != Secret
    ensures v.Dict? && r.Some? ==> forall f :: f in r.value.entries ==> r.value.entries[f] == v.entries[f]
    ensures v.Dict? && r.None? ==> forall f :: f in v.entries ==> ExposureAt(exposure, [k, f]) == Secret
  {
    if v.Dict? then
      var kept := map f | f in v.entries && ExposureAt(exposure, [k, f]) != Secret :: v.entries[f];
      assert forall f :: f in v.entries && ExposureAt(exposure, [k, f]) != Secret ==> f in kept;
      if kept == map[] then None else Some(Dict(kept))
    else if ExposureAt(exposure, [k]) != Secret then Some(v)
    else None
  }

  /** `yaml_only_updates`: the partial update without its secret fields and without sections left empty. */
  function YamlOnly(partial: map<string, Value>, exposure: map<seq<string>, Exposure>): (r: map<string, Value>)
    ensures r.Keys <= partial.Keys
    ensures forall k :: k in r && r[k].Dict? ==> r[k].entries != map[]
    ensures forall k :: k in r && partial[k].Dict? ==> r[k].Dict?
    ensures forall k, f :: k in r && partial[k].Dict? && r[k].Dict? && f in r[k].entries ==> ExposureAt(exposure, [k, f]) != Secret
    ensures forall k :: k in partial && partial[k].Leaf? ==> (k in r <==> ExposureAt(exposure, [k]) != Secret)
    ensures forall k, f :: k in partial && partial[k].Dict? && f in partial[k].entries && ExposureAt(exposure, [k, f]) != Secret ==>
              k in r && r[k].Dict? && f in r[k].entries && r[k].entries[f] == partial[k].entries[f]
  {
    map k | k in partial && SectionForYaml(k, partial[k], exposure).Some? :: SectionForYaml(k, partial[k], exposure).value
  }

  /** The loop that builds `yaml_only_updates`. */
  method YamlOnlyUpdates(partial: map<string, Value>, exposure: map<seq<string>, Exposure>) returns (out: map<string, Value>)
    ensures out == YamlOnly(partial, exposure)
  {
    out := map[];
    var todo := partial.Keys;
    while todo != {}
      invariant todo <= partial.Keys
      invariant forall k :: k in out <==> k in partial && k !in todo && SectionForYaml(k, partial[k], exposure).Some?
      invariant forall k :: k in out ==> out[k] == SectionForYaml(k, partial[k], exposure).value
      decreases todo
    {
      var k :| k in todo;
      var v := partial[k];
      if v.Dict? {
        out := out[k := Dict(map f | f in v.entries && ExposureAt(exposure, [k, f]) != Secret :: v.entries[f])];
        if out[k].entries == map[] {
          out := out - {k};
        }
      } else if ExposureAt(exposure, [k]) != Secret {
        out := out[k := v];
      }
      todo := todo - {k};
    }
  }

  // ---------------------------------------------------------------- _build_exposure_map

  /** The map `_build_exposure_map(model, prefix)` returns: later fields overwrite earlier ones. */
  function ExposureOf(fields: seq<FieldDecl>, prefix: seq<string>): map<seq<string>, Exposure>
    decreases fields
  {
    if fields == [] then map[]
    else ExposureOf(fields[..|fields| - 1], prefix) + FieldExposure(fields[|fields| - 1], prefix)
  }

  /** One field's entries: its own path for a scalar, the nested model's map for a model. */
  function FieldExposure(f: FieldDecl, prefix: seq<string>): map<seq<string>, Exposure>
    decreases f
  {
    match f
    case Scalar(name, e) => map[prefix + [name] := e.GetOr(Normal)]
    case Nested(name, sub) => ExposureOf(sub, prefix + [name])
  }

  /** `_build_exposure_map`: scalars get their exposure (default `'normal'`), nested models are walked. */
  method BuildExposureMap(fields: seq<FieldDecl>, prefix: seq<string>) returns (mapping: map<seq<string>, Exposure>)
    ensures mapping == ExposureOf(fields, prefix)
    decreases fields
  {
    mapping := map[];
    var i := 0;
    while i < |fields|
      invariant 0 <= i <= |fields|
      invariant mapping == ExposureOf(fields[..i], prefix)
    {
      assert fields[..i + 1][..i] == fields[..i];
      var path := prefix + [fields[i].name];
      match fields[i] {
        case Scalar(_, e) =>
          mapping := mapping[path := e.GetOr(Normal)];
        case Nested(_, sub) =>
          var nested := BuildExposureMap(sub, path);
          mapping := mapping + nested;
      }
      i := i + 1;
    }
    assert fields[..i] == fields;
  }

  function Names(fields: seq<FieldDecl>): set<string>
  {
    set i | 0 <= i < |fields| :: fields[i].name
  }

  /** Field names are unique within every model, as Pydantic guarantees. */
  predicate WellFormed(fields: seq<FieldDecl>)
    decreases fields
  {
    && (forall i, j :: 0 <= i < j < |fields| ==> fields[i].name != fields[j].name)
    && (forall i :: 0 <= i < |fields| && fields[i].Nested? ==> WellFormed(fields[i].fields))
  }

  /** The declared exposure of the scalar at `path`, found by walking the schema one field name at a time. */
  function Lookup(fields: seq<FieldDecl>, path: seq<string>): Option<Exposure>
    decreases fields
  {
    if fields == [] || path == [] then None
    else
      var f := fields[|fields| - 1];
      if f.name != path[0] then Lookup(fields[..|fields| - 1], path) else FieldLookup(f, path[1..])
  }

  /** The declared exposure below one field: the field itself for a scalar, a path into the model otherwise. */
  function FieldLookup(f: FieldDecl, rest: seq<string>): Option<Exposure>
    decreases f
  {
    match f
    case Scalar(_, e) => if rest == [] then Some(e.GetOr(Normal)) else None
    case Nested(_, sub) => Lookup(sub, rest)
  }

  lemma {:induction false} ExposureKeys(fields: seq<FieldDecl>, prefix: seq<string>)
    ensures forall q :: q in ExposureOf(fields, prefix) ==> IsPrefix(prefix, q) && |q| > |prefix| && q[|prefix|] in Names(fields)
    decreases fields
  {
    if fields != [] {
      var init := fields[..|fields| - 1];
      var f := fields[|fields| - 1];
      ExposureKeys(init, prefix);
      assert Names(init) <= Names(fields) by {
        forall n | n in Names(init) ensures n in Names(fields) {
          var i :| 0 <= i < |init| && init[i].name == n;
          assert fields[i] == init[i];
        }
      }
      assert f.name in Names(fields);
      FieldKeys(f, prefix);
    }
  }

  lemma {:induction false} FieldKeys(f: FieldDecl, prefix: seq<string>)
    ensures forall q :: q in FieldExposure(f, prefix) ==> IsPrefix(prefix, q) && |q| > |prefix| && q[|prefix|] == f.name
    decreases f
  {
    var pn := prefix + [f.name];
    match f
    case Scalar(_, _) =>
      assert pn[..|prefix|] == prefix;
    case Nested(_, sub) =>
      ExposureKeys(sub, pn);
      forall q | q in ExposureOf(sub, pn) ensures IsPrefix(prefix, q) && |q| > |prefix| && q[|prefix|] == f.name {
        assert q[..|prefix|] == q[..|pn|][..|prefix|];
        assert q[|prefix|] == q[..|pn|][|prefix|];
      }
  }

  lemma WellFormedParts(fields: seq<FieldDecl>)
    requires WellFormed(fields) && fields != []
    ensures WellFormed(fields[..|fields| - 1])
    ensures fields[|fields| - 1].name !in Names(fields[..|fields| - 1])
    ensures fields[|fields| - 1].Nested? ==> WellFormed(fields[|fields| - 1].fields)
  {
    var init := fields[..|fields| - 1];
    forall i | 0 <= i < |init| ensures init[i] == fields[i] { }
  }

  /**
   * The exposure map agrees with walking the schema: a path is in the map
   * exactly when it leads to a declared scalar, and the map holds that
   * scalar's exposure, `'normal'` when none was declared.
   */
  lemma {:induction false} ExposureMatchesSchema(fields: seq<FieldDecl>, prefix: seq<string>, path: seq<string>)
    requires WellFormed(fields)
    ensures (prefix + path in ExposureOf(fields, prefix)) <==> Lookup(fields, path).Some?
    ensures prefix + path in ExposureOf(fields, prefix) ==> ExposureOf(fields, prefix)[prefix + path] == Lookup(fields, path).value
    decreases fields
  {
    var q := prefix + path;
    ExposureKeys(fields, prefix);
    if fields != [] && path != [] {
      var init := fields[..|fields| - 1];
      var f := fields[|fields| - 1];
      WellFormedParts(fields);
      ExposureKeys(init, prefix);
      FieldKeys(f, prefix);
      assert q[|prefix|] == path[0];
      if f.name != path[0] {
        ExposureMatchesSchema(init, prefix, path);
      } else {
        FieldMatchesSchema(f, prefix, path);
      }
    } else if path == [] {
      assert q == prefix;
    }
  }

  lemma {:induction false} FieldMatchesSchema(f: FieldDecl, prefix: seq<string>, path: seq<string>)
    requires path != [] && f.name == path[0]
    requires f.Nested? ==> WellFormed(f.fields)
    ensures (prefix + path in FieldExposure(f, prefix)) <==> FieldLookup(f, path[1..]).Some?
    ensures prefix + path in FieldExposure(f, prefix) ==> FieldExposure(f, prefix)[prefix + path] == FieldLookup(f, path[1..]).value
    decreases f, 0
  {
    var q := prefix + path;
    var pn := prefix + [f.name];
    match f
    case Scalar(_, _) =>
      if |path| == 1 {
        assert q == pn;
      } else {
        assert q != pn by { assert |q| != |pn|; }
      }
    case Nested(_, sub) =>
      assert q == pn + path[1..];
      ExposureMatchesSchema(sub, pn, path[1..]);
  }

  // ---------------------------------------------------------------- _get_secret_paths

  /** `(section, field)` for every field of a model-typed section declared secret, in declaration order. */
  function SecretPathsOf(fields: seq<FieldDecl>): seq<(string, string)>
  {
    if fields == [] then []
    else
      var f := fields[|fields| - 1];
      SecretPathsOf(fields[..|fields| - 1]) + (if f.Nested? then SecretFields(f.name, f.fields) else [])
  }

  function SecretFields(section: string, fields: seq<FieldDecl>): seq<(string, string)>
  {
    if fields == [] then []
    else
      var g := fields[|fields| - 1];
      SecretFields(section, fields[..|fields| - 1]) + (if g.Scalar? && g.exposure == Some(Secret) then [(section, g.name)] else [])
  }

  /** `_get_secret_paths`: two nested loops appending to a list. */
  method GetSecretPaths(model: seq<FieldDecl>) returns (secrets: seq<(string, string)>)
    ensures secrets == SecretPathsOf(model)
  {
    secrets := [];
    var i := 0;
    while i < |model|
      invariant 0 <= i <= |model|
      invariant secrets == SecretPathsOf(model[..i])
    {
      assert model[..i + 1][..i] == model[..i];
      var section := model[i];
      if section.Nested? {
        ghost var before := secrets;
        var j := 0;
        while j < |section.fields|
          invariant 0 <= j <= |section.fields|
          invariant secrets == before + SecretFields(section.name, section.fields[..j])
        {
          assert section.fields[..j + 1][..j] == section.fields[..j];
          var field := section.fields[j];
          if field.Scalar? && field.exposure == Some(Secret) {
            secrets := secrets + [(section.name, field.name)];
          }
          j := j + 1;
        }
        assert section.fields[..j] == section.fields;
      }
      i := i + 1;
    }
    assert model[..i] == model;
  }

  lemma {:induction false} SecretFieldsMatch(section: string, fields: seq<FieldDecl>, s: string, f: string)
    requires forall i, j :: 0 <= i < j < |fields| ==> fields[i].name != fields[j].name
    ensures (s, f) in SecretFields(section, fields) <==> s == section && Lookup(fields, [f]) == Some(Secret)
  {
    if fields != [] {
      var init := fields[..|fields| - 1];
      var g := fields[|fields| - 1];
      SecretFieldsMatch(section, init, s, f);
      if g.name == f {
        SecretFieldNames(section, init);
        assert f !in Names(init) by {
          forall i | 0 <= i < |init| ensures init[i].name != f { assert init[i] == fields[i]; }
        }
        assert (s, f) !in SecretFields(section, init);
        assert [f][1..] == [];
        assert Lookup(fields, [f]) == FieldLookup(g, []);
        if g.Nested? {
          assert FieldLookup(g, []) == None;
        }
      }
    }
  }

  lemma {:induction false} SecretFieldNames(section: string, fields: seq<FieldDecl>)
    ensures forall e :: e in SecretFields(section, fields) ==> e.0 == section && e.1 in Names(fields)
  {
    if fields != [] {
      var init := fields[..|fields| - 1];
      SecretFieldNames(section, init);
      forall i | 0 <= i < |init| ensures init[i] == fields[i] { }
      assert Names(init) <= Names(fields);
      assert fields[|fields| - 1].name in Names(fields);
    }
  }

  lemma {:induction false} SecretSections(fields: seq<FieldDecl>)
    ensures forall e :: e in SecretPathsOf(fields) ==> e.0 in Names(fields)
  {
    if fields != [] {
      var init := fields[..|fields| - 1];
      var f := fields[|fields| - 1];
      SecretSections(init);
      forall i | 0 <= i < |init| ensures init[i] == fields[i] { }
      assert Names(init) <= Names(fields);
      assert f.name in Names(fields);
      if f.Nested? {
        SecretFieldNames(f.name, f.fields);
      }
    }
  }

  /**
   * `_get_secret_paths` lists exactly the two-step paths the schema declares
   * secret; the exposure map marks the same paths secret.
   */
  lemma {:induction false} SecretPathsMatch(fields: seq<FieldDecl>, s: string, f: string)
    requires WellFormed(fields)
    ensures (s, f) in SecretPathsOf(fields) <==> Lookup(fields, [s, f]) == Some(Secret)
    ensures (s, f) in SecretPathsOf(fields) <==> [s, f] in ExposureOf(fields, []) && ExposureOf(fields, [])[[s, f]] == Secret
  {
    ExposureMatchesSchema(fields, [], [s, f]);
    assert [] + [s, f] == [s, f];
    if fields != [] {
      var init := fields[..|fields| - 1];
      var g := fields[|fields| - 1];
      WellFormedParts(fields);
      SecretPathsMatch(init, s, f);
      ExposureMatchesSchema(init, [], [s, f]);
      assert [s, f][1..] == [f];
      if g.name == s {
        SecretSections(init);
        if g.Nested? {
          SecretFieldsMatch(g.name, g.fields, s, f);
        }
      } else if g.Nested? {
        SecretFieldNames(g.name, g.fields);
      }
    }
  }

  lemma NoSecretIn(section: string, fields: seq<FieldDecl>)
    requires forall i :: 0 <= i < |fields| ==> fields[i].Scalar? && fields[i].exposure != Some(Secret)
    ensures SecretFields(section, fields) == []
  {
    if fields != [] {
      NoSecretIn(section, fields[..|fields| - 1]);
    }
  }

  /** `openai_api_key` in the `env` section is the only secret of the application's configuration. */
  lemma OnlyApiKeySecret()
    ensures SecretPathsOf(AppConfig) == [("env", "openai_api_key")]
  {
    NoSecretIn("model", ModelFields);
    NoSecretIn("resume", ResumeFields);
    NoSecretIn("listings", ListingsFields);
    NoSecretIn("experiences", ExperiencesFields);
    NoSecretIn("scraping", ScrapingFields);
    assert EnvFields[..0] == [];
    assert SecretFields("env", EnvFields) == [("env", "openai_api_key")];
    var a := AppConfig;
    assert a[..1][..0] == [];
    assert SecretPathsOf(a[..1]) == [];
    assert a[..2][..1] == a[..1];
    assert SecretPathsOf(a[..2]) == [];
    assert a[..3][..2] == a[..2];
    assert SecretPathsOf(a[..3]) == [];
    assert a[..4][..3] == a[..3];
    assert SecretPathsOf(a[..4]) == [];
    assert a[..5][..4] == a[..4];
    assert SecretPathsOf(a[..5]) == [];
    assert a[..6][..5] == a[..5];
    assert a[..6] == a;
  }

  predicate TwoLevel(fields: seq<FieldDecl>)
  {
    forall i :: 0 <= i < |fields| ==> fields[i].Nested? && forall j :: 0 <= j < |fields[i].fields| ==> fields[i].fields[j].Scalar?
  }

  lemma {:induction false} ScalarLookup(fields: seq<FieldDecl>, q: seq<string>)
    requires forall j :: 0 <= j < |fields| ==> fields[j].Scalar?
    ensures Lookup(fields, q).Some? ==> |q| == 1
  {
    if fields != [] && q != [] {
      var init := fields[..|fields| - 1];
      var f := fields[|fields| - 1];
      forall j | 0 <= j < |init| ensures init[j] == fields[j] { }
      ScalarLookup(init, q);
      assert Lookup(fields, q) == if f.name != q[0] then Lookup(init, q) else FieldLookup(f, q[1..]);
      if f.name == q[0] && FieldLookup(f, q[1..]).Some? {
        assert q[1..] == [];
      }
    }
  }

  lemma {:induction false} TwoLevelLookup(fields: seq<FieldDecl>, q: seq<string>)
    requires TwoLevel(fields)
    ensures Lookup(fields, q).Some? ==> |q| == 2
  {
    if fields != [] && q != [] {
      var f := fields[|fields| - 1];
      var init := fields[..|fields| - 1];
      forall j | 0 <= j < |init| ensures init[j] == fields[j] { }
      TwoLevelLookup(init, q);
      ScalarLookup(f.fields, q[1..]);
      assert Lookup(fields, q) == if f.name != q[0] then Lookup(init, q) else FieldLookup(f, q[1..]);
    }
  }

  lemma AppConfigShape()
    ensures WellFormed(AppConfig) && TwoLevel(AppConfig)
  {
    SectionNames();
    forall i | 0 <= i < |AppConfig| ensures AppConfig[i].Nested? && FlatSection(AppConfig[i].fields) {
      if i == 0 {
        ModelShape();
      } else if i == 1 {
        ResumeShape();
      } else if i == 2 {
        ListingsShape();
      } else if i == 3 {
        ExperiencesShape();
      } else if i == 4 {
        ScrapingShape();
      } else {
        EnvShape();
      }
    }
  }

  lemma SectionNames()
    ensures forall i, j :: 0 <= i < j < |AppConfig| ==> AppConfig[i].name != AppConfig[j].name
  {
  }

  /** A section of distinct scalars. */
  predicate FlatSection(fields: seq<FieldDecl>)
  {
    WellFormed(fields) && forall j :: 0 <= j < |fields| ==> fields[j].Scalar?
  }

  lemma ModelShape() ensures FlatSection(ModelFields) { }
  lemma ResumeShape() ensures FlatSection(ResumeFields) { }
  lemma ListingsShape() ensures FlatSection(ListingsFields) { }
  lemma ExperiencesShape() ensures FlatSection(ExperiencesFields) { }
  lemma ScrapingShape() ensures FlatSection(ScrapingFields) { }
  lemma EnvShape() ensures FlatSection(EnvFields) { }

  /** In the exposure map of the application's configuration, exactly `env.openai_api_key` is secret. */
  lemma OnlyApiKeyExposedSecret(q: seq<string>)
    ensures (q in ExposureOf(AppConfig, []) && ExposureOf(AppConfig, [])[q] == Secret) <==> q == ["env", "openai_api_key"]
  {
    AppConfigShape();
    OnlyApiKeySecret();
    ExposureMatchesSchema(AppConfig, [], q);
    assert [] + q == q;
    TwoLevelLookup(AppConfig, q);
    if q in ExposureOf(AppConfig, []) {
      assert q == [q[0], q[1]];
      SecretPathsMatch(AppConfig, q[0], q[1]);
    }
    SecretPathsMatch(AppConfig, "env", "openai_api_key");
  }

  // ---------------------------------------------------------------- load: secret injection

  /** The merged configuration after injecting, in order, every secret whose environment variable is set. */
  function InjectAll(merged: map<string, Value>, paths: seq<(string, string)>, environ: map<string, string>)
    : Result<map<string, Value>, AssignError>
  {
    if paths == [] then Ok(merged)
    else match InjectAll(merged, paths[..|paths| - 1], environ)
      case Err(e) => Err(e)
      case Ok(acc) =>
        var (section, field) := paths[|paths| - 1];
        if Upper(field) in environ then AssignPath(acc, [section, field], Leaf(Str(environ[Upper(field)])))
        else Ok(acc)
  }

  /** The injection loop of `load`: a missing section becomes `{}`, then the field is set. */
  method InjectSecrets(merged: map<string, Value>, paths: seq<(string, string)>, environ: map<string, string>)
    returns (r: Result<map<string, Value>, AssignError>)
    ensures r == InjectAll(merged, paths, environ)
  {
    var config := merged;
    var i := 0;
    while i < |paths|
      invariant 0 <= i <= |paths|
      invariant InjectAll(merged, paths[..i], environ) == Ok(config)
    {
      assert paths[..i + 1][..i] == paths[..i];
      var (section, field) := paths[i];
      var name := Upper(field);
      if name in environ {
        var envVal := environ[name];
        var sectionValue := if section in config then config[section] else Dict(map[]);
        AssignTwo(config, section, field, Leaf(Str(envVal)));
        if !sectionValue.Dict? {
          assert InjectAll(merged, paths[..i + 1], environ) == Err(NotTraversable([section]));
          InjectErrSticks(merged, paths, environ, i + 1);
          return Err(NotTraversable([section]));
        }
        config := config[section := Dict(sectionValue.entries[field := Leaf(Str(envVal))])];
      }
      i := i + 1;
    }
    assert paths[..i] == paths;
    return Ok(config);
  }

  /** Assigning a two-step path: a missing section starts as an empty dict, a scalar section fails. */
  lemma AssignTwo(d: map<string, Value>, section: string, field: string, value: Value)
    ensures var child := if section in d then d[section] else Dict(map[]);
      AssignPath(d, [section, field], value) ==
        if child.Dict? then Ok(d[section := Dict(child.entries[field := value])]) else Err(NotTraversable([section]))
  {
    assert [section, field][1..] == [field];
  }

  /** With no secret variable set, loading injects nothing. */
  lemma {:induction false} InjectNothing(merged: map<string, Value>, paths: seq<(string, string)>, environ: map<string, string>)
    requires forall i :: 0 <= i < |paths| ==> Upper(paths[i].1) !in environ
    ensures InjectAll(merged, paths, environ) == Ok(merged)
  {
    if paths != [] {
      InjectNothing(merged, paths[..|paths| - 1], environ);
    }
  }

  /** After a successful injection every secret whose variable is set holds that variable's value. */
  lemma {:induction false} InjectSets(merged: map<string, Value>, paths: seq<(string, string)>, environ: map<string, string>)
    requires InjectAll(merged, paths, environ).Ok?
    ensures forall i :: 0 <= i < |paths| && Upper(paths[i].1) in environ ==>
      Get(Dict(InjectAll(merged, paths, environ).value), [paths[i].0, paths[i].1]) == Some(Leaf(Str(environ[Upper(paths[i].1)])))
  {
    if paths != [] {
      var init := paths[..|paths| - 1];
      var (section, field) := paths[|paths| - 1];
      var acc := InjectAll(merged, init, environ).value;
      InjectSets(merged, init, environ);
      var r := InjectAll(merged, paths, environ).value;
      forall i | 0 <= i < |paths| && Upper(paths[i].1) in environ
        ensures Get(Dict(r), [paths[i].0, paths[i].1]) == Some(Leaf(Str(environ[Upper(paths[i].1)])))
      {
        if Upper(field) in environ {
          AssignThenGet(acc, [section, field], Leaf(Str(environ[Upper(field)])));
          if i < |paths| - 1 && [paths[i].0, paths[i].1] != [section, field] {
            assert paths[i] == init[i];
            AssignKeepsOthers(acc, [section, field], Leaf(Str(environ[Upper(field)])), [paths[i].0, paths[i].1]);
          } else if i < |paths| - 1 {
            assert paths[i].1 == field;
          }
        } else if i < |paths| - 1 {
          assert paths[i] == init[i];
        }
      }
    }
  }

  /** Once a prefix of the injections fails, the whole injection fails. */
  lemma {:induction false} InjectErrSticks(merged: map<string, Value>, paths: seq<(string, string)>, environ: map<string, string>, n: nat)
    requires n <= |paths|
    requires InjectAll(merged, paths[..n], environ).Err?
    ensures InjectAll(merged, paths, environ) == InjectAll(merged, paths[..n], environ)
    decreases |paths| - n
  {
    if n < |paths| {
      assert paths[..n + 1][..n] == paths[..n];
      InjectErrSticks(merged, paths, environ, n + 1);
    } else {
      assert paths[..n] == paths;
    }
  }

  /** Injection fails exactly when a secret's variable is set and its section already holds a scalar. */
  lemma {:induction false} InjectFails(merged: map<string, Value>, paths: seq<(string, string)>, environ: map<string, string>)
    ensures InjectAll(merged, paths, environ).Err? <==>
      exists i :: 0 <= i < |paths| && Upper(paths[i].1) in environ && paths[i].0 in merged && merged[paths[i].0].Leaf?
    ensures InjectAll(merged, paths, environ).Ok? ==> SectionsKept(merged, InjectAll(merged, paths, environ).value)
  {
    if paths != [] {
      var init := paths[..|paths| - 1];
      var (section, field) := paths[|paths| - 1];
      InjectFails(merged, init, environ);
      forall i | 0 <= i < |init| ensures init[i] == paths[i] { }
      if InjectAll(merged, init, environ).Ok? {
        var acc := InjectAll(merged, init, environ).value;
        if Upper(field) in environ {
          AssignTwo(acc, section, field, Leaf(Str(environ[Upper(field)])));
        }
      } else {
        var i :| 0 <= i < |init| && Upper(init[i].1) in environ && init[i].0 in merged && merged[init[i].0].Leaf?;
        assert paths[i] == init[i];
      }
    }
  }

  /** Every section of `merged` is still there; a scalar section is unchanged and every other entry is a dict. */
  predicate SectionsKept(merged: map<string, Value>, acc: map<string, Value>)
  {
    && merged.Keys <= acc.Keys
    && (forall k :: k in merged && merged[k].Leaf? ==> acc[k] == merged[k])
    && (forall k :: k in acc && acc[k].Leaf? ==> k in merged && acc[k] == merged[k])
  }

  /** Injection leaves alone every path that is neither a prefix nor an extension of an injected one. */
  lemma {:induction false} InjectKeeps(merged: map<string, Value>, paths: seq<(string, string)>, environ: map<string, string>,
                                       q: seq<string>)
    requires InjectAll(merged, paths, environ).Ok?
    requires q != []
    requires forall i :: 0 <= i < |paths| ==> !IsPrefix(q, [paths[i].0, paths[i].1]) && !IsPrefix([paths[i].0, paths[i].1], q)
    ensures Get(Dict(InjectAll(merged, paths, environ).value), q) == Get(Dict(merged), q)
  {
    if paths != [] {
      var init := paths[..|paths| - 1];
      var (section, field) := paths[|paths| - 1];
      forall i | 0 <= i < |init| ensures init[i] == paths[i] { }
      InjectKeeps(merged, init, environ, q);
      if Upper(field) in environ {
        AssignKeepsOthers(InjectAll(merged, init, environ).value, [section, field], Leaf(Str(environ[Upper(field)])), q);
      }
    }
  }

  // ---------------------------------------------------------------- load

  /** The failures `ConfigManager` raises as `ServiceError`. */
  datatype ServiceError =
    | NotLoaded        // `config` read while no configuration is stored
    | LoadFailed       // `load`: a secret went into a section holding a scalar, or `AppConfig` rejected the result
    | UndeclaredField  // `save`: an updated scalar names no field of `AppConfig`
    | InvalidUpdate    // `save`: the loaded configuration with the update applied fails validation
    | EnvWriteFailed   // `save`: `_write_env` raised, as when `re.sub` refuses a secret's replacement template

  /** `_read_yaml` on a parsed document: a mapping is used as it is, any other document reads as `{}`. */
  function ReadYaml(doc: Value): map<string, Value>
  {
    if doc.Dict? then doc.entries else map[]
  }

  /** The three YAML files deep-merged in order: normal defaults, advanced defaults, user overrides. */
  function MergedSources(normal: Value, advanced: Value, user: Value): map<string, Value>
  {
    Merged(Merged(ReadYaml(normal), ReadYaml(advanced)), ReadYaml(user))
  }

  /** `load`: the merged files with every set secret of `schema` injected, if validation accepts the result. */
  function LoadConfig(schema: seq<FieldDecl>, normal: Value, advanced: Value, user: Value, environ: map<string, string>,
                      valid: map<string, Value> -> bool): (r: Result<map<string, Value>, ServiceError>)
    ensures r.Ok? ==> valid(r.value)
    ensures r.Err? ==> r.error == LoadFailed
  {
    match InjectAll(MergedSources(normal, advanced, user), SecretPathsOf(schema), environ)
    case Err(_) => Err(LoadFailed)
    case Ok(config) => if valid(config) then Ok(config) else Err(LoadFailed)
  }

  /** The one secret path of the application's configuration, and the variable `load` reads it from. */
  lemma ApiKeyPath()
    ensures SecretPathsOf(AppConfig) == [("env", "openai_api_key")]
    ensures forall i :: 0 <= i < |SecretPathsOf(AppConfig)| ==>
      [SecretPathsOf(AppConfig)[i].0, SecretPathsOf(AppConfig)[i].1] == ["env", "openai_api_key"]
  {
    OnlyApiKeySecret();
  }

  /** Without `OPENAI_API_KEY` in the environment, `load` validates the merged files unchanged. */
  lemma LoadWithoutKey(normal: Value, advanced: Value, user: Value, environ: map<string, string>, valid: map<string, Value> -> bool)
    requires Upper("openai_api_key") !in environ
    ensures var merged := MergedSources(normal, advanced, user);
      LoadConfig(AppConfig, normal, advanced, user, environ, valid) == if valid(merged) then Ok(merged) else Err(LoadFailed)
  {
    ApiKeyPath();
    InjectNothing(MergedSources(normal, advanced, user), SecretPathsOf(AppConfig), environ);
  }

  /** With `OPENAI_API_KEY` set, a successful `load` holds its value as `env.openai_api_key`. */
  lemma LoadInjectsKey(normal: Value, advanced: Value, user: Value, environ: map<string, string>, valid: map<string, Value> -> bool)
    requires Upper("openai_api_key") in environ
    requires LoadConfig(AppConfig, normal, advanced, user, environ, valid).Ok?
    ensures Get(Dict(LoadConfig(AppConfig, normal, advanced, user, environ, valid).value), ["env", "openai_api_key"])
      == Some(Leaf(Str(environ[Upper("openai_api_key")])))
  {
    ApiKeyPath();
    InjectSets(MergedSources(normal, advanced, user), SecretPathsOf(AppConfig), environ);
    assert SecretPathsOf(AppConfig)[0] == ("env", "openai_api_key");
  }

  /** `load` fails exactly when `OPENAI_API_KEY` is set and `env` is a scalar, or when validation fails. */
  lemma LoadFails(normal: Value, advanced: Value, user: Value, environ: map<string, string>, valid: map<string, Value> -> bool)
    ensures var merged := MergedSources(normal, advanced, user);
      var injected := InjectAll(merged, SecretPathsOf(AppConfig), environ);
      LoadConfig(AppConfig, normal, advanced, user, environ, valid).Err? <==>
        (Upper("openai_api_key") in environ && "env" in merged && merged["env"].Leaf?) || (injected.Ok? && !valid(injected.value))
  {
    ApiKeyPath();
    var merged := MergedSources(normal, advanced, user);
    InjectFails(merged, SecretPathsOf(AppConfig), environ);
    OneSecretFails(merged, SecretPathsOf(AppConfig), environ, "env", "openai_api_key");
    LoadErr(AppConfig, normal, advanced, user, environ, valid);
  }

  /** `load` fails when injecting fails or when validation rejects the injected merge. */
  lemma LoadErr(schema: seq<FieldDecl>, normal: Value, advanced: Value, user: Value, environ: map<string, string>,
                valid: map<string, Value> -> bool)
    ensures var injected := InjectAll(MergedSources(normal, advanced, user), SecretPathsOf(schema), environ);
      LoadConfig(schema, normal, advanced, user, environ, valid).Err? <==> injected.Err? || !valid(injected.value)
  {
  }

  /** With one secret path, injecting fails exactly when its variable is set and its section is a scalar. */
  lemma OneSecretFails(merged: map<string, Value>, paths: seq<(string, string)>, environ: map<string, string>,
                       section: string, field: string)
    requires paths == [(section, field)]
    ensures (exists i :: 0 <= i < |paths| && Upper(paths[i].1) in environ && paths[i].0 in merged && merged[paths[i].0].Leaf?)
      <==> Upper(field) in environ && section in merged && merged[section].Leaf?
  {
    assert paths[0] == (section, field);
  }

  /** Outside the secret, a scalar of the user overrides is what `load` returns at its path. */
  lemma LoadPrefersUser(normal: Value, advanced: Value, user: Value, environ: map<string, string>,
                        valid: map<string, Value> -> bool, q: seq<string>)
    requires LoadConfig(AppConfig, normal, advanced, user, environ, valid).Ok?
    requires IsLeafPath(user, q) && |q| >= 2 && q[..2] != ["env", "openai_api_key"]
    ensures Get(Dict(LoadConfig(AppConfig, normal, advanced, user, environ, valid).value), q) == Get(user, q)
  {
    var merged := MergedSources(normal, advanced, user);
    ApiKeyPath();
    LoadInjected(AppConfig, normal, advanced, user, environ, valid);
    UserWins(normal, advanced, user, q);
    OutsideApiKey(q, ["env", "openai_api_key"]);
    InjectKeeps(merged, SecretPathsOf(AppConfig), environ, q);
  }

  /** A successful `load` returns the injected merge. */
  lemma LoadInjected(schema: seq<FieldDecl>, normal: Value, advanced: Value, user: Value, environ: map<string, string>,
                     valid: map<string, Value> -> bool)
    requires LoadConfig(schema, normal, advanced, user, environ, valid).Ok?
    ensures InjectAll(MergedSources(normal, advanced, user), SecretPathsOf(schema), environ)
      == Ok(LoadConfig(schema, normal, advanced, user, environ, valid).value)
  {
  }

  /** The user file is merged last, so its scalars win. */
  lemma UserWins(normal: Value, advanced: Value, user: Value, q: seq<string>)
    requires IsLeafPath(user, q) && q != []
    ensures Get(Dict(MergedSources(normal, advanced, user)), q) == Get(user, q)
  {
    assert user == Dict(ReadYaml(user));
    MergedGetUpdate(Merged(ReadYaml(normal), ReadYaml(advanced)), ReadYaml(user), q);
  }

  lemma OutsideApiKey(q: seq<string>, key: seq<string>)
    requires |key| == 2 && |q| >= 2 && q[..2] != key
    ensures !IsPrefix(q, key) && !IsPrefix(key, q)
  {
  }

  // ---------------------------------------------------------------- save

  /** Every scalar of the update names a declared field of `AppConfig`, as attribute assignment on the loaded model demands. */
  ghost predicate Declared(schema: seq<FieldDecl>, partial: map<string, Value>)
  {
    forall q :: IsLeafPath(Dict(partial), q) ==> Lookup(schema, q).Some?
  }

  /** Checks the flattened `yaml_updates` path by path before they are assigned into the loaded model. */
  method AllDeclared(schema: seq<FieldDecl>, flat: map<seq<string>, Value>) returns (ok: bool)
    ensures ok <==> forall p :: p in flat ==> Lookup(schema, p).Some?
  {
    ok := true;
    var todo := flat.Keys;
    while todo != {}
      invariant todo <= flat.Keys
      invariant ok <==> forall p :: p in flat && p !in todo ==> Lookup(schema, p).Some?
      decreases todo
    {
      var p :| p in todo;
      if Lookup(schema, p).None? {
        ok := false;
      }
      todo := todo - {p};
    }
  }

  /** The user-overrides document after `save`: the YAML-only update deep-merged in when there is one. */
  function UserAfter(schema: seq<FieldDecl>, doc: Value, partial: map<string, Value>): Value
  {
    var updates := YamlOnly(partial, ExposureOf(schema, []));
    if updates == map[] then doc else Dict(Merged(ReadYaml(doc), updates))
  }

  /** `secrets` is what the walk records for `partial`: every secret scalar, under its upper-cased name, as its `str`. */
  ghost predicate SecretsFrom(schema: seq<FieldDecl>, partial: map<string, Value>, realText: real -> string,
                              secrets: map<string, string>)
  {
    var exposure := ExposureOf(schema, []);
    && (forall key :: key in secrets ==> SecretOf(partial, exposure, realText, key, secrets[key]))
    && (forall q :: IsLeafPath(Dict(partial), q) && ExposureAt(exposure, q) == Secret ==> q != [] && Upper(q[|q| - 1]) in secrets)
  }

  /** `updates` lists each entry of `secrets` once. */
  predicate Listed(updates: seq<(string, Option<string>)>, secrets: map<string, string>)
  {
    && DistinctKeys(updates)
    && (forall i :: 0 <= i < |updates| ==> updates[i].0 in secrets && updates[i].1 == Some(secrets[updates[i].0]))
    && (forall key :: key in secrets ==> exists i :: 0 <= i < |updates| && updates[i].0 == key)
  }

  /** `secret_updates.items()`, in the dictionary's own order. */
  method SecretList(secrets: map<string, string>) returns (updates: seq<(string, Option<string>)>)
    ensures Listed(updates, secrets)
  {
    updates := [];
    var todo := secrets.Keys;
    while todo != {}
      invariant todo <= secrets.Keys
      invariant DistinctKeys(updates)
      invariant forall i :: 0 <= i < |updates| ==> updates[i].0 in secrets - todo && updates[i].1 == Some(secrets[updates[i].0])
      invariant forall key :: key in secrets - todo ==> exists i :: 0 <= i < |updates| && updates[i].0 == key
      decreases todo
    {
      var key :| key in todo;
      ghost var before, pending := updates, todo;
      updates := updates + [(key, Some(secrets[key]))];
      todo := todo - {key};
      forall other | other in secrets - todo ensures exists i :: 0 <= i < |updates| && updates[i].0 == other {
        if other == key {
          assert updates[|updates| - 1].0 == other;
        } else {
          assert other in secrets - pending;
          var i :| 0 <= i < |before| && before[i].0 == other;
          assert updates[i].0 == other;
        }
      }
    }
    assert secrets - todo == secrets;
  }

  /** The flattened update names only declared fields exactly when the update does. */
  lemma DeclaredFlat(schema: seq<FieldDecl>, partial: map<string, Value>, yaml: map<string, Value>, flat: map<seq<string>, Value>)
    requires forall q :: IsLeafPath(Dict(yaml), q) <==> IsLeafPath(Dict(partial), q)
    requires FlattensTo(Dict(yaml), [], flat)
    ensures (forall p :: p in flat ==> Lookup(schema, p).Some?) <==> Declared(schema, partial)
  {
    forall p ensures p in flat <==> IsLeafPath(Dict(partial), p) {
      assert IsPrefix([], p) && p[0..] == p;
    }
  }

  /**
   * The part of `save` before anything is written: split the update into
   * the YAML-bound values and the secrets, check every path against the
   * schema, and validate the loaded configuration with the update applied.
   */
  method CheckUpdate(schema: seq<FieldDecl>, partial: map<string, Value>, exposure: map<seq<string>, Exposure>, current: map<string, Value>,
                     valid: map<string, Value> -> bool, realText: real -> string)
    returns (refusal: Option<ServiceError>, secrets: map<string, string>)
    requires exposure == ExposureOf(schema, [])
    ensures !Declared(schema, partial) ==> refusal == Some(UndeclaredField)
    ensures Declared(schema, partial) && NoEmptyDicts(partial) ==> (refusal.None? <==> valid(Merged(current, partial)))
    ensures refusal.Some? ==> refusal.value == UndeclaredField || refusal.value == InvalidUpdate
    ensures refusal.None? ==> Declared(schema, partial)
    ensures SecretsFrom(schema, partial, realText, secrets)
  {
    var yaml;
    yaml, secrets := SplitUpdates(partial, exposure, realText);
    var flat := FlattenStructure(Dict(yaml), []);
    DeclaredFlat(schema, partial, yaml, flat);
    var declared := AllDeclared(schema, flat);
    if !declared {
      return Some(UndeclaredField), secrets;
    }
    if !valid(Merged(current, yaml)) {
      return Some(InvalidUpdate), secrets;
    }
    return None, secrets;
  }

  /** `yaml_only_updates` and `_write_yaml`: the user-overrides document after `save`. */
  method WriteYaml(schema: seq<FieldDecl>, doc: Value, partial: map<string, Value>, exposure: map<seq<string>, Exposure>)
    returns (written: Value)
    requires exposure == ExposureOf(schema, [])
    ensures written == UserAfter(schema, doc, partial)
  {
    written := doc;
    var yamlOnly := YamlOnlyUpdates(partial, exposure);
    if yamlOnly != map[] {
      var merged := DeepMerge(ReadYaml(doc), yamlOnly);
      written := Dict(merged);
    }
  }

  /**
   * The manager: the three parsed YAML documents, the `.env` text, the
   * process environment and the stored configuration (`_config`).
   * The schema is `AppConfig`; its validation, the printing of floats and
   * the parsing of `.env` text into variables by `load_dotenv` are
   * parameters.
   */
  class ConfigManager {
    var normalDoc: Value
    var advancedDoc: Value
    var userDoc: Value
    var envText: string
    var environ: map<string, string>
    var stored: Option<map<string, Value>>
    const valid: map<string, Value> -> bool
    const realText: real -> string
    const dotenv: string -> map<string, string>
    const schema: seq<FieldDecl>

    constructor(normal: Value, advanced: Value, user: Value, env: string, environment: map<string, string>,
                valid: map<string, Value> -> bool, realText: real -> string, dotenv: string -> map<string, string>)
      ensures normalDoc == normal && advancedDoc == advanced && userDoc == user
      ensures envText == env && environ == environment && stored == None
      ensures this.valid == valid && this.realText == realText && this.dotenv == dotenv && schema == AppConfig
    {
      normalDoc, advancedDoc, userDoc := normal, advanced, user;
      envText, environ := env, environment;
      stored := None;
      this.valid, this.realText, this.dotenv, schema := valid, realText, dotenv, AppConfig;
    }

    /** The `config` property: the stored configuration, or `ServiceError` when none is stored. */
    function Config(): (r: Result<map<string, Value>, ServiceError>)
      reads this
      ensures r.Err? <==> stored.None?
      ensures r.Err? ==> r.error == NotLoaded
      ensures r.Ok? ==> stored == Some(r.value)
    {
      if stored.None? then Err(NotLoaded) else Ok(stored.value)
    }

    /** The environment once `load_dotenv(override=True)` has read the `.env` text: its variables win. */
    function DotenvLoaded(): map<string, string>
      reads this
    {
      environ + dotenv(envText)
    }

    /** What `load` returns in the current state. */
    function Loaded(): Result<map<string, Value>, ServiceError>
      reads this
    {
      LoadConfig(schema, normalDoc, advancedDoc, userDoc, DotenvLoaded(), valid)
    }

    /**
     * `load`: merge the three files, let the `.env` variables override the
     * environment, inject the secrets, validate; nothing is stored. The
     * environment keeps the `.env` variables whether or not validation
     * passes, so a second `load` returns the same.
     */
    method Load() returns (r: Result<map<string, Value>, ServiceError>)
      modifies this
      ensures r == old(Loaded())
      ensures environ == old(DotenvLoaded())
      ensures normalDoc == old(normalDoc) && advancedDoc == old(advancedDoc) && userDoc == old(userDoc)
      ensures envText == old(envText) && stored == old(stored)
      ensures Loaded() == old(Loaded())
    {
      var merged := DeepMerge(ReadYaml(normalDoc), ReadYaml(advancedDoc));
      merged := DeepMerge(merged, ReadYaml(userDoc));
      environ := environ + dotenv(envText);
      DotenvTwice(old(environ), dotenv(envText));
      var secretPaths := GetSecretPaths(schema);
      var injected := InjectSecrets(merged, secretPaths, environ);
      if injected.Err? || !valid(injected.value) {
        return Err(LoadFailed);
      }
      return Ok(injected.value);
    }

    /**
     * The writes of `save`: the YAML-only update into the user overrides,
     * then the secrets into `.env`. `ok` is false when `_write_env` raises;
     * the file is then left as it was, since it is written only at the end.
     */
    method WriteUpdates(partial: map<string, Value>, exposure: map<seq<string>, Exposure>, secrets: map<string, string>)
      returns (ok: bool, ghost updates: seq<(string, Option<string>)>)
      requires exposure == ExposureOf(schema, [])
      modifies this
      ensures normalDoc == old(normalDoc) && advancedDoc == old(advancedDoc) && stored == old(stored) && environ == old(environ)
      ensures userDoc == UserAfter(schema, old(userDoc), partial)
      ensures Listed(updates, secrets)
      ensures ok <==> EnvAfter(old(envText), updates).Ok?
      ensures envText == if ok then EnvAfter(old(envText), updates).value else old(envText)
    {
      var doc := WriteYaml(schema, userDoc, partial, exposure);
      userDoc := doc;
      updates := [];
      ok := true;
      if secrets != map[] {
        var list := SecretList(secrets);
        updates := list;
        var text := WriteEnv(envText, list);
        if text.Err? {
          return false, updates;
        }
        envText := text.value;
      }
    }

    /**
     * `save`: split the update, check it against a freshly loaded
     * configuration, write the YAML-only part and the secrets, then reload.
     * `accepted` is whether the check passed and the files were written;
     * `secrets` is the recorded `secret_updates` and `updates` the order in
     * which they were written. Each `load` leaves the `.env` variables in
     * the environment.
     */
    method Save(partial: map<string, Value>)
      returns (r: Result<(), ServiceError>, ghost accepted: bool, ghost secrets: map<string, string>,
               ghost updates: seq<(string, Option<string>)>)
      modifies this
      ensures old(Loaded()).Err? ==> r == Err(old(Loaded()).error) && !accepted
      ensures old(Loaded()).Ok? && !Declared(schema, partial) ==> r == Err(UndeclaredField) && !accepted
      ensures old(Loaded()).Ok? && Declared(schema, partial) && NoEmptyDicts(partial) ==>
        (accepted <==> valid(Merged(old(Loaded()).value, partial)))
      ensures accepted ==> Declared(schema, partial)
      ensures normalDoc == old(normalDoc) && advancedDoc == old(advancedDoc)
      ensures !accepted ==> r.Err? && userDoc == old(userDoc) && envText == old(envText) && stored == old(stored)
      ensures !accepted ==> environ == old(DotenvLoaded())
      ensures accepted ==> userDoc == UserAfter(schema, old(userDoc), partial)
      ensures accepted ==> SecretsFrom(schema, partial, realText, secrets) && Listed(updates, secrets)
      ensures accepted && EnvAfter(old(envText), updates).Err? ==>
        r == Err(EnvWriteFailed) && envText == old(envText) && stored == old(stored) && environ == old(DotenvLoaded())
      ensures accepted && EnvAfter(old(envText), updates).Ok? ==>
        && envText == EnvAfter(old(envText), updates).value
        && environ == old(DotenvLoaded()) + dotenv(envText)
        && r == (if Loaded().Ok? then Ok(()) else Err(Loaded().error))
        && stored == (if Loaded().Ok? then Some(Loaded().value) else old(stored))
    {
      accepted, secrets, updates := false, map[], [];
      var exposure := BuildExposureMap(schema, []);
      var current := Load();
      if current.Err? {
        return Err(current.error), accepted, secrets, updates;
      }
      var refusal, found := CheckUpdate(schema, partial, exposure, current.value, valid, realText);
      if refusal.Some? {
        return Err(refusal.value), accepted, secrets, updates;
      }
      accepted, secrets := true, found;
      var written;
      written, updates := WriteUpdates(partial, exposure, found);
      if !written {
        return Err(EnvWriteFailed), accepted, secrets, updates;
      }
      var reloaded := Load();
      if reloaded.Err? {
        return Err(reloaded.error), accepted, secrets, updates;
      }
      stored := Some(reloaded.value);
      return Ok(()), accepted, secrets, updates;
    }
  }

  /** Reading the same `.env` variables a second time changes nothing. */
  lemma DotenvTwice(environ: map<string, string>, vars: map<string, string>)
    ensures (environ + vars) + vars == environ + vars
  {
  }

  // ---------------------------------------------------------------- save, then load

  /** A non-secret scalar of the update reads back the same from the YAML-only update. */
  lemma YamlOnlyKeeps(partial: map<string, Value>, exposure: map<seq<string>, Exposure>, q: seq<string>)
    requires IsLeafPath(Dict(partial), q) && |q| >= 2 && ExposureAt(exposure, q[..2]) != Secret
    ensures q[0] in YamlOnly(partial, exposure)
    ensures Get(Dict(YamlOnly(partial, exposure)), q) == Get(Dict(partial), q)
  {
    var updates := YamlOnly(partial, exposure);
    var k, f := q[0], q[1];
    assert q[..2] == [k, f];
    assert partial[k].Dict? && f in partial[k].entries;
    assert updates[k].Dict? && updates[k].entries[f] == partial[k].entries[f];
    assert Get(Dict(updates), q) == Get(updates[k].entries[f], q[2..]) by { assert q[1..][1..] == q[2..]; }
    assert Get(Dict(partial), q) == Get(partial[k].entries[f], q[2..]) by { assert q[1..][1..] == q[2..]; }
  }

  /** After `save` writes the user overrides, `load` returns each non-secret scalar of the update at its path. */
  lemma SavedValueLoads(normal: Value, advanced: Value, user: Value, partial: map<string, Value>, environ: map<string, string>,
                        valid: map<string, Value> -> bool, q: seq<string>)
    requires LoadConfig(AppConfig, normal, advanced, UserAfter(AppConfig, user, partial), environ, valid).Ok?
    requires IsLeafPath(Dict(partial), q) && |q| >= 2 && ExposureAt(ExposureOf(AppConfig, []), q[..2]) != Secret
    ensures Get(Dict(LoadConfig(AppConfig, normal, advanced, UserAfter(AppConfig, user, partial), environ, valid).value), q)
      == Get(Dict(partial), q)
  {
    var exposure := ExposureOf(AppConfig, []);
    var updates := YamlOnly(partial, exposure);
    YamlOnlyKeeps(partial, exposure, q);
    var written := Dict(Merged(ReadYaml(user), updates));
    assert UserAfter(AppConfig, user, partial) == written;
    LeafPathGet(Dict(partial), q);
    GetLeafPath(Dict(updates), q);
    MergedGetUpdate(ReadYaml(user), updates, q);
    GetLeafPath(written, q);
    OnlyApiKeyExposedSecret(q[..2]);
    LoadPrefersUser(normal, advanced, written, environ, valid, q);
  }

  /** When `path` is the only secret path, the secret recorded under its upper-cased name is its string. */
  lemma SecretRecordedAt(partial: map<string, Value>, exposure: map<seq<string>, Exposure>, realText: real -> string,
                         secrets: map<string, string>, path: seq<string>, key: string)
    requires path != [] && ExposureAt(exposure, path) == Secret
    requires forall q :: ExposureAt(exposure, q) == Secret ==> q == path
    requires forall name :: name in secrets ==> SecretOf(partial, exposure, realText, name, secrets[name])
    requires forall q :: IsLeafPath(Dict(partial), q) && ExposureAt(exposure, q) == Secret ==> q != [] && Upper(q[|q| - 1]) in secrets
    requires Get(Dict(partial), path) == Some(Leaf(Str(key)))
    ensures Upper(path[|path| - 1]) in secrets && secrets[Upper(path[|path| - 1])] == key
  {
    GetLeafPath(Dict(partial), path);
    var name := Upper(path[|path| - 1]);
    var q :| IsLeafPath(Dict(partial), q) && ExposureAt(exposure, q) == Secret && q != [] && Upper(q[|q| - 1]) == name
      && Get(Dict(partial), q).Some? && Get(Dict(partial), q).value.Leaf? && secrets[name] == PyStr(Get(Dict(partial), q).value.atom, realText);
  }

  /** The secret `save` records for `env.openai_api_key` is the string the update gave it. */
  lemma SavedKeyRecorded(partial: map<string, Value>, realText: real -> string, secrets: map<string, string>, key: string)
    requires SecretsFrom(AppConfig, partial, realText, secrets)
    requires Get(Dict(partial), ["env", "openai_api_key"]) == Some(Leaf(Str(key)))
    ensures Upper("openai_api_key") in secrets && secrets[Upper("openai_api_key")] == key
  {
    var exposure := ExposureOf(AppConfig, []);
    var path := ["env", "openai_api_key"];
    ApiKeyOnlySecret();
    OnlyApiKeyExposedSecret(path);
    SecretRecordedAt(partial, exposure, realText, secrets, path, key);
    assert path[|path| - 1] == "openai_api_key";
  }

  /** `OPENAI_API_KEY` is the only secret `save` records. */
  lemma OnlyApiKeyRecorded(partial: map<string, Value>, realText: real -> string, secrets: map<string, string>, name: string)
    requires SecretsFrom(AppConfig, partial, realText, secrets)
    requires name == Upper("openai_api_key")
    ensures forall other :: other in secrets ==> other == name
  {
    var path := ["env", "openai_api_key"];
    ApiKeyOnlySecret();
    assert path[|path| - 1] == "openai_api_key";
    SecretsNamedAt(partial, ExposureOf(AppConfig, []), realText, secrets, path, name);
  }

  /**
   * `load_dotenv` reads a plain `.env` file as written: a variable assigned
   * on exactly one line gets that line's value.
   */
  ghost predicate ReadsPlainLines(dotenv: string -> map<string, string>)
  {
    forall text, name, value :: PlainEnv(text) && EnvName(name) && SoleValue(text, name, value) ==>
      name in dotenv(text) && dotenv(text)[name] == value
  }

  /** When `path` is the only secret path, a recorded secret is named after its last field. */
  lemma SecretNamedAt(partial: map<string, Value>, exposure: map<seq<string>, Exposure>, realText: real -> string,
                      secrets: map<string, string>, path: seq<string>, name: string)
    requires path != [] && forall q :: ExposureAt(exposure, q) == Secret ==> q == path
    requires name in secrets && SecretOf(partial, exposure, realText, name, secrets[name])
    ensures name == Upper(path[|path| - 1])
  {
  }

  /** When `path` is the only secret path, every recorded secret is named after its last field. */
  lemma SecretsNamedAt(partial: map<string, Value>, exposure: map<seq<string>, Exposure>, realText: real -> string,
                       secrets: map<string, string>, path: seq<string>, name: string)
    requires path != [] && forall q :: ExposureAt(exposure, q) == Secret ==> q == path
    requires forall other :: other in secrets ==> SecretOf(partial, exposure, realText, other, secrets[other])
    requires name == Upper(path[|path| - 1])
    ensures forall other :: other in secrets ==> other == name
  {
    forall other | other in secrets ensures other == name {
      SecretNamedAt(partial, exposure, realText, secrets, path, other);
    }
  }

  /** `env.openai_api_key` is the only secret path of `AppConfig`. */
  lemma ApiKeyOnlySecret()
    ensures forall q :: ExposureAt(ExposureOf(AppConfig, []), q) == Secret ==> q == ["env", "openai_api_key"]
  {
    forall q | ExposureAt(ExposureOf(AppConfig, []), q) == Secret ensures q == ["env", "openai_api_key"] {
      OnlyApiKeyExposedSecret(q);
    }
  }

  /** A map with a single key is listed as that one update. */
  lemma ListedSingle(updates: seq<(string, Option<string>)>, secrets: map<string, string>, name: string)
    requires Listed(updates, secrets) && name in secrets && forall other :: other in secrets ==> other == name
    ensures updates == [(name, Some(secrets[name]))]
  {
    var i :| 0 <= i < |updates| && updates[i].0 == name;
    if |updates| >= 2 {
      FirstTwoDistinct(updates);
      assert false;
    }
  }

  lemma FirstTwoDistinct(updates: seq<(string, Option<string>)>)
    requires DistinctKeys(updates) && |updates| >= 2
    ensures updates[0].0 != updates[1].0
  {
  }

  /** Upper-casing keeps a variable name a variable name. */
  lemma UpperName(name: string)
    requires EnvName(name)
    ensures EnvName(Upper(name))
  {
    forall i | 0 <= i < |name| ensures IsNameChar(Upper(name)[i]) {
      assert IsNameChar(name[i]);
    }
  }

  lemma ApiKeyName()
    ensures EnvName(Upper("openai_api_key"))
  {
    var field := "openai_api_key";
    assert EnvName(field);
    UpperName(field);
  }

  /** One secret, written into a plain `.env` file, is its only update and is assigned on exactly one line. */
  lemma SingleSecretWritten(secrets: map<string, string>, updates: seq<(string, Option<string>)>, name: string, key: string,
                            envText: string)
    requires Listed(updates, secrets) && name in secrets && secrets[name] == key
    requires forall other :: other in secrets ==> other == name
    requires EnvName(name) && PlainEnv(envText) && PlainValue(key)
    ensures updates == [(name, Some(key))]
    ensures EnvAfter(envText, updates).Ok? && PlainEnv(EnvAfter(envText, updates).value)
    ensures SoleValue(EnvAfter(envText, updates).value, name, key)
  {
    ListedSingle(updates, secrets, name);
    WriteEnvPlain(envText, updates);
    assert updates[0] == (name, Some(key));
  }

  /**
   * An API key saved through `save` into a plain `.env` file is what the
   * next `load` returns as `env.openai_api_key`: the file is written
   * without error, and once `load_dotenv` has read it back, whatever the
   * environment held before, a successful load holds the key.
   */
  lemma SavedKeyLoads(normal: Value, advanced: Value, user: Value, environ: map<string, string>, valid: map<string, Value> -> bool,
                      dotenv: string -> map<string, string>, partial: map<string, Value>, realText: real -> string,
                      secrets: map<string, string>, updates: seq<(string, Option<string>)>, envText: string, key: string)
    requires ReadsPlainLines(dotenv)
    requires SecretsFrom(AppConfig, partial, realText, secrets) && Listed(updates, secrets)
    requires Get(Dict(partial), ["env", "openai_api_key"]) == Some(Leaf(Str(key)))
    requires PlainEnv(envText) && PlainValue(key)
    ensures EnvAfter(envText, updates).Ok?
    ensures var loaded := LoadConfig(AppConfig, normal, advanced, user, environ + dotenv(EnvAfter(envText, updates).value), valid);
      loaded.Ok? ==> Get(Dict(loaded.value), ["env", "openai_api_key"]) == Some(Leaf(Str(key)))
  {
    var name := Upper("openai_api_key");
    SavedKeyRecorded(partial, realText, secrets, key);
    OnlyApiKeyRecorded(partial, realText, secrets, name);
    ApiKeyName();
    SingleSecretWritten(secrets, updates, name, key, envText);
    DotenvKeyLoads(normal, advanced, user, environ, valid, dotenv, EnvAfter(envText, updates).value, key);
  }

  /** Once `load_dotenv` has read a plain file assigning `OPENAI_API_KEY` once, a successful `load` holds that value. */
  lemma DotenvKeyLoads(normal: Value, advanced: Value, user: Value, environ: map<string, string>, valid: map<string, Value> -> bool,
                       dotenv: string -> map<string, string>, written: string, key: string)
    requires ReadsPlainLines(dotenv) && PlainEnv(written) && SoleValue(written, Upper("openai_api_key"), key)
    ensures var loaded := LoadConfig(AppConfig, normal, advanced, user, environ + dotenv(written), valid);
      loaded.Ok? ==> Get(Dict(loaded.value), ["env", "openai_api_key"]) == Some(Leaf(Str(key)))
  {
    var name := Upper("openai_api_key");
    ApiKeyName();
    var env := environ + dotenv(written);
    assert name in env && env[name] == key;
    if LoadConfig(AppConfig, normal, advanced, user, env, valid).Ok? {
      LoadInjectsKey(normal, advanced, user, env, valid);
    }
  }
}
