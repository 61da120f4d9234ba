/**
 * URL canonicalisation: the scheme becomes `https`, the host is lower-cased,
 * IDNA-encoded and loses one leading `www.`, default ports go, dot segments
 * and empty segments are resolved away, tracking parameters are dropped and
 * the rest sorted by key, and the fragment goes.
 *
 * `urlsplit` is not modelled: the operations take its parts. The IDNA codec
 * and the percent-codecs of `urllib.parse` are parameters (`Codecs`).
 */
module Url {
  import opened Wrappers
  import opened Text
  import opened Sorting

  datatype Codecs = Codecs(
    idna: string -> string,        // `s.encode('idna').decode('ascii')`
    requote: string -> string,     // `quote(unquote(path), safe=...)`
    unquotePlus: string -> string, // decoding inside `parse_qsl`
    quotePlus: string -> string)   // encoding inside `urlencode`

  /** The parts of `urlsplit(str(url))` that `normalize_url` reads. */
  datatype SplitUrl = SplitUrl(
    scheme: string, hostname: Option<string>, port: Option<nat>,
    path: string, query: string, fragment: string)

  // ---------------------------------------------------------------- scheme, fragment

  function NormalizeScheme(scheme: string): (r: string)
    ensures r == "https"
  {
    "https"
  }

  function NormalizeFragment(fragment: string): (r: string)
    ensures r == ""
  {
    ""
  }

  // ---------------------------------------------------------------- netloc

  function StripWww(h: string): (r: string)
    ensures StartsWith(h, "www.") ==> h == "www." + r
    ensures !StartsWith(h, "www.") ==> r == h
  {
    if StartsWith(h, "www.") then h[4..] else h
  }

  /** The port `_normalize_netloc` drops: the default one of the original scheme. */
  predicate IsDefaultPort(originalScheme: string, port: Option<nat>)
  {
    (Lower(originalScheme) == "http" && port == Some(80))
    || (Lower(originalScheme) == "https" && port == Some(443))
  }

  /** Host, then `:port` when a port survives and is truthy (non-zero). */
  function NormalizeNetloc(c: Codecs, hostname: string, originalScheme: string, port: Option<nat>): (r: string)
    ensures var host := StripWww(c.idna(Lower(hostname)));
      if IsDefaultPort(originalScheme, port) || port.None? || port == Some(0) then r == host
      else r == host + ":" + NatToString(port.value)
  {
    var host := StripWww(c.idna(Lower(hostname)));
    var kept := if IsDefaultPort(originalScheme, port) then None else port;
    host + (if kept.Some? && kept.value != 0 then ":" + NatToString(kept.value) else "")
  }

  /** Only one `www.` goes: `www.www.x` keeps the second. */
  lemma WwwStrippedOnce(h: string)
    ensures StripWww("www." + h) == h
  {
    assert ("www." + h)[..4] == "www.";
  }

  /** The default port of the scheme the URL came with is dropped. */
  lemma DefaultPortDropped(c: Codecs, hostname: string)
    ensures NormalizeNetloc(c, hostname, "http", Some(80)) == StripWww(c.idna(Lower(hostname)))
    ensures NormalizeNetloc(c, hostname, "https", Some(443)) == StripWww(c.idna(Lower(hostname)))
  {
    LowerIdentity("http");
    LowerIdentity("https");
  }

  /** Any other port is kept, even the default of the other scheme: `http://h:443` keeps `:443`. */
  lemma OtherPortKept(c: Codecs, hostname: string)
    ensures NormalizeNetloc(c, hostname, "http", Some(443)) == StripWww(c.idna(Lower(hostname))) + ":443"
  {
    HttpNotDefault443();
    PortText443();
  }

  lemma HttpNotDefault443()
    ensures !IsDefaultPort("http", Some(443))
  {
    LowerIdentity("http");
  }

  lemma PortText443()
    ensures NatToString(443) == "443"
  {
    assert NatToString(4) == "4";
    assert NatToString(44) == "44";
  }

  // ---------------------------------------------------------------- path

  /** A segment that survives resolution. */
  predicate Ordinary(s: string)
  {
    s != "" && s != "." && s != ".."
  }

  /** One turn of the segment loop: `..` pops (never above the root), `.` and empty are skipped. */
  function Step(stack: seq<string>, segment: string): (r: seq<string>)
  {
    if segment == ".." then (if stack == [] then [] else stack[..|stack| - 1])
    else if !Ordinary(segment) then stack
    else stack + [segment]
  }

  /** The segment stack after the loop has seen `parts`. */
  function Resolve(parts: seq<string>): (r: seq<string>)
    ensures |r| <= |parts|
    ensures forall k :: 0 <= k < |r| ==> Ordinary(r[k]) && r[k] in parts
  {
    if parts == [] then []
    else
      var init := Resolve(parts[..|parts| - 1]);
      assert forall s :: s in parts[..|parts| - 1] ==> s in parts;
      Step(init, parts[|parts| - 1])
  }

  /** `'/' + '/'.join(segments)`, or `''` when nothing is left. */
  function PathOf(segments: seq<string>): string
  {
    if segments == [] then "" else "/" + Join("/", segments)
  }

  /** The shape of every normalised path: empty, or rooted with no `//` and no trailing `/`. */
  predicate CanonicalPath(p: string)
  {
    p == [] || (p[0] == '/' && p[|p| - 1] != '/' && forall i :: 0 <= i < |p| - 1 ==> !(p[i] == '/' && p[i + 1] == '/'))
  }

  predicate PathSegment(s: string)
  {
    Ordinary(s) && '/' !in s
  }

  lemma {:induction false} JoinSegmentsShape(segs: seq<string>)
    requires |segs| > 0 && forall k :: 0 <= k < |segs| ==> PathSegment(segs[k])
    ensures var j := Join("/", segs);
      |j| > 0 && j[0] != '/' && j[|j| - 1] != '/'
      && forall i :: 0 <= i < |j| - 1 ==> !(j[i] == '/' && j[i + 1] == '/')
  {
    if |segs| > 1 {
      JoinSegmentsShape(segs[1..]);
      var w := segs[0];
      var rest := Join("/", segs[1..]);
      var s := w + "/" + rest;
      assert Join("/", segs) == s;
      forall i | 0 <= i < |s| - 1 ensures !(s[i] == '/' && s[i + 1] == '/') {
        if i < |w| - 1 {
          assert s[i] == w[i];
        } else if i == |w| - 1 {
          assert s[i] == w[|w| - 1];
        } else if i == |w| {
          assert s[i + 1] == rest[0];
        } else {
          assert s[i] == rest[i - |w| - 1];
          assert s[i + 1] == rest[i - |w|];
        }
      }
      assert s[|s| - 1] == rest[|rest| - 1];
      assert s[0] == w[0];
    } else {
      assert segs[0][0] in segs[0];
      assert segs[0][|segs[0]| - 1] in segs[0];
    }
  }

  /** What the segment loop makes of a path whose percent-encoding was already normalised. */
  function ResolvePath(p: string): (r: string)
    ensures CanonicalPath(r)
  {
    var segs := Resolve(Split(p, '/'));
    if segs == [] then "" else JoinSegmentsShape(segs); PathOf(segs)
  }

  /** `_normalize_path`. */
  method NormalizePath(c: Codecs, path: string) returns (r: string)
    ensures r == ResolvePath(c.requote(path))
    ensures CanonicalPath(r)
  {
    var p := c.requote(path);
    var parts := Split(p, '/');
    var segments: seq<string> := [];
    var i := 0;
    while i < |parts|
      invariant 0 <= i <= |parts|
      invariant segments == Resolve(parts[..i])
    {
      var segment := parts[i];
      assert parts[..i + 1][..i] == parts[..i];
      if segment == ".." {
        if segments != [] {
          segments := segments[..|segments| - 1];
        }
      } else if segment != "." && segment != "" {
        segments := segments + [segment];
      }
      i := i + 1;
    }
    assert parts[..i] == parts;
    if segments == [] {
      return "";
    }
    return "/" + Join("/", segments);
  }

  lemma {:induction false} ResolveOrdinary(prefix: seq<string>, segs: seq<string>)
    requires forall k :: 0 <= k < |segs| ==> Ordinary(segs[k])
    ensures Resolve(prefix + segs) == Resolve(prefix) + segs
  {
    if segs == [] {
      assert prefix + segs == prefix;
    } else {
      var init := segs[..|segs| - 1];
      var last := segs[|segs| - 1];
      var front := prefix + init;
      ResolveOrdinary(prefix, init);
      assert segs == init + [last];
      assert prefix + segs == front + [last];
      ResolveSnoc(front, last);
      StepOrdinary(Resolve(front), last);
      assert Resolve(prefix) + init + [last] == Resolve(prefix) + segs;
    }
  }

  lemma ResolveSnoc(parts: seq<string>, segment: string)
    ensures Resolve(parts + [segment]) == Step(Resolve(parts), segment)
  {
    assert (parts + [segment])[..|parts|] == parts;
  }

  lemma StepOrdinary(stack: seq<string>, segment: string)
    requires Ordinary(segment)
    ensures Step(stack, segment) == stack + [segment]
  {
  }

  const ExampleParts: seq<string> := ["", "..", "a", ".", "b", "", "c", "..", ""]

  lemma ExampleSplit(p: string)
    requires p == "/../a/./b//c/../"
    ensures Split(p, '/') == ExampleParts
  {
    var parts := ExampleParts;
    ExampleJoin();
    ExamplePartsFree();
    SplitJoin(parts, '/');
  }

  lemma ExamplePartsFree()
    ensures forall k :: 0 <= k < |ExampleParts| ==> '/' !in ExampleParts[k]
  {
  }

  lemma ExampleJoin()
    ensures Join("/", ExampleParts) == "/../a/./b//c/../"
  {
    ExampleJoinNested();
    ExampleNestedLiteral();
  }

  lemma ExampleJoinNested()
    ensures Join("/", ExampleParts)
      == "" + "/" + (".." + "/" + ("a" + "/" + ("." + "/" + ("b" + "/" + ("" + "/" + ("c" + "/" + (".." + "/" + "")))))))
  {
  }

  lemma ExampleNestedLiteral()
    ensures "" + "/" + (".." + "/" + ("a" + "/" + ("." + "/" + ("b" + "/" + ("" + "/" + ("c" + "/" + (".." + "/" + "")))))))
      == "/../a/./b//c/../"
  {
  }

  lemma ExampleResolve()
    ensures Resolve(ExampleParts) == ["a", "b"]
  {
    var parts := ExampleParts;
    assert Resolve(parts[..2]) == [] by {
      assert parts[..2][..1] == parts[..1];
    }
    assert Resolve(parts[..4]) == ["a"] by {
      assert parts[..4][..3] == parts[..3];
      assert parts[..3][..2] == parts[..2];
    }
    assert Resolve(parts[..6]) == ["a", "b"] by {
      assert parts[..6][..5] == parts[..5];
      assert parts[..5][..4] == parts[..4];
    }
    assert Resolve(parts[..8]) == ["a", "b"] by {
      assert parts[..8][..7] == parts[..7];
      assert parts[..7][..6] == parts[..6];
    }
    assert parts[..9] == parts;
    assert parts[..9][..8] == parts[..8];
  }

  /** `..` never climbs above the root, and `.`, empty segments and a trailing `/` vanish. */
  lemma DotSegmentsResolved(p: string)
    requires p == "/../a/./b//c/../"
    ensures ResolvePath(p) == "/a/b"
  {
    ExampleSplit(p);
    ExampleResolve();
    PathOfExample();
  }

  lemma PathOfExample()
    ensures PathOf(["a", "b"]) == "/a/b"
  {
    var segs := ["a", "b"];
    assert segs[1..] == ["b"];
    assert Join("/", segs) == "a" + "/" + "b";
    assert PathOf(segs) == "/" + ("a" + "/" + "b");
  }

  lemma ResolvedSegments(p: string)
    ensures forall k :: 0 <= k < |Resolve(Split(p, '/'))| ==> PathSegment(Resolve(Split(p, '/'))[k])
  {
    var parts := Split(p, '/');
    var segs := Resolve(parts);
    forall k | 0 <= k < |segs| ensures '/' !in segs[k] {
      assert segs[k] in parts;
    }
  }

  lemma SplitPathOf(segs: seq<string>)
    requires segs != [] && forall k :: 0 <= k < |segs| ==> PathSegment(segs[k])
    ensures Split(PathOf(segs), '/') == [""] + segs
  {
    assert ([""] + segs)[1..] == segs;
    assert PathOf(segs) == Join("/", [""] + segs);
    SplitJoin([""] + segs, '/');
  }

  /** Resolving is idempotent: a normalised path is its own normal form. */
  lemma ResolvePathIdempotent(p: string)
    ensures ResolvePath(ResolvePath(p)) == ResolvePath(p)
  {
    var segs := Resolve(Split(p, '/'));
    assert ResolvePath(p) == PathOf(segs);
    if segs == [] {
      assert Split("", '/') == [""];
      assert Resolve([""]) == [];
    } else {
      ResolvedSegments(p);
      SplitPathOf(segs);
      ResolveOrdinary([""], segs);
      assert Resolve([""]) == [];
      assert Resolve(Split(PathOf(segs), '/')) == segs;
    }
  }

  // ---------------------------------------------------------------- query

  const TrackingParams: set<string> := {
    "utm_source", "utm_medium", "utm_campaign", "utm_term", "utm_content",
    "gclid", "fbclid", "mc_cid", "mc_eid", "sessionid", "phpsessid", "ref",
    "tracking_id"}

  /** `s.split(c, 1)` when `c` occurs in `s`. */
  function SplitOnce(s: string, c: char): (r: Option<(string, string)>)
    ensures r.None? <==> c !in s
    ensures r.Some? ==> s == r.value.0 + [c] + r.value.1 && c !in r.value.0
  {
    if s == [] then None
    else if s[0] == c then
      assert s == [] + [c] + s[1..];
      Some(([], s[1..]))
    else
      match SplitOnce(s[1..], c)
      case None => None
      case Some((a, b)) =>
        assert s == ([s[0]] + a) + [c] + b;
        Some(([s[0]] + a, b))
  }

  /** The split happens at the first occurrence. */
  lemma {:induction false} SplitOnceAt(a: string, b: string, c: char)
    requires c !in a
    ensures SplitOnce(a + [c] + b, c) == Some((a, b))
  {
    if a == [] {
      assert a + [c] + b == [c] + b;
    } else {
      assert (a + [c] + b)[1..] == a[1..] + [c] + b;
      SplitOnceAt(a[1..], b, c);
      assert [a[0]] + a[1..] == a;
    }
  }

  /**
   * `parse_qsl(query, keep_blank_values=False)`: pieces between `&`; a piece
   * without `=` or with an empty value is dropped; the rest split at the
   * first `=` and decoded.
   */
  function ParseQsl(c: Codecs, query: string): seq<(string, string)>
  {
    ParsePieces(c, Split(query, '&'))
  }

  function ParsePieces(c: Codecs, pieces: seq<string>): (r: seq<(string, string)>)
    ensures |r| <= |pieces|
  {
    if pieces == [] then []
    else
      var rest := ParsePieces(c, pieces[1..]);
      match SplitOnce(pieces[0], '=')
      case None => rest
      case Some((name, value)) =>
        if value == [] then rest else [(c.unquotePlus(name), c.unquotePlus(value))] + rest
  }

  /** The pairs the filtering loop keeps from `pairs`, keys lower-cased, in order. */
  function Untracked(pairs: seq<(string, string)>): (r: seq<(string, string)>)
    ensures |r| <= |pairs|
    ensures forall k :: 0 <= k < |r| ==> r[k].0 !in TrackingParams && NoUpper(r[k].0)
  {
    if pairs == [] then []
    else
      var init := Untracked(pairs[..|pairs| - 1]);
      var (key, value) := pairs[|pairs| - 1];
      var keyLower := Lower(key);
      if keyLower !in TrackingParams then init + [(keyLower, value)] else init
  }

  /** Python string order: code point by code point, a prefix first. */
  predicate LexLe(a: string, b: string)
  {
    a == [] || (b != [] && (a[0] < b[0] || (a[0] == b[0] && LexLe(a[1..], b[1..]))))
  }

  lemma {:induction false} LexTotal(a: string, b: string)
    ensures LexLe(a, b) || LexLe(b, a)
  {
    if a != [] && b != [] && a[0] == b[0] {
      LexTotal(a[1..], b[1..]);
    }
  }

  lemma {:induction false} LexTransitive(a: string, b: string, d: string)
    requires LexLe(a, b) && LexLe(b, d)
    ensures LexLe(a, d)
  {
    if a != [] && b != [] && d != [] && a[0] == b[0] && b[0] == d[0] {
      LexTransitive(a[1..], b[1..], d[1..]);
    }
  }

  /** `key=lambda kv: kv[0]`. */
  function KeyLe(p: (string, string), q: (string, string)): bool
  {
    LexLe(p.0, q.0)
  }

  lemma KeyOrder()
    ensures TotalPreorder(KeyLe)
  {
    forall p: (string, string), q: (string, string) ensures KeyLe(p, q) || KeyLe(q, p) {
      LexTotal(p.0, q.0);
    }
    forall p: (string, string), q: (string, string), s: (string, string) | KeyLe(p, q) && KeyLe(q, s)
      ensures KeyLe(p, s)
    {
      LexTransitive(p.0, q.0, s.0);
    }
  }

  /** `urlencode(pairs, doseq=True)` for string values. */
  function UrlEncode(c: Codecs, pairs: seq<(string, string)>): (r: string)
    ensures pairs == [] <==> r == ""
  {
    Join("&", EncodePairs(c, pairs))
  }

  function EncodePairs(c: Codecs, pairs: seq<(string, string)>): (r: seq<string>)
    ensures |r| == |pairs|
    ensures forall k :: 0 <= k < |r| ==> r[k] == c.quotePlus(pairs[k].0) + "=" + c.quotePlus(pairs[k].1)
  {
    if pairs == [] then [] else [c.quotePlus(pairs[0].0) + "=" + c.quotePlus(pairs[0].1)] + EncodePairs(c, pairs[1..])
  }

  /** The pairs `_normalize_query` encodes. */
  function QueryPairs(c: Codecs, query: string): seq<(string, string)>
  {
    Sort(Untracked(ParseQsl(c, query)), KeyLe)
  }

  /** `_normalize_query`. */
  method NormalizeQuery(c: Codecs, query: string) returns (r: string)
    ensures r == UrlEncode(c, QueryPairs(c, query))
  {
    var pairs := ParseQsl(c, query);
    var filtered: seq<(string, string)> := [];
    var i := 0;
    while i < |pairs|
      invariant 0 <= i <= |pairs|
      invariant filtered == Untracked(pairs[..i])
    {
      var (key, value) := pairs[i];
      assert pairs[..i + 1][..i] == pairs[..i];
      var keyLower := Lower(key);
      if keyLower !in TrackingParams {
        filtered := filtered + [(keyLower, value)];
      }
      i := i + 1;
    }
    assert pairs[..i] == pairs;
    var sorted := Sort(filtered, KeyLe);
    r := UrlEncode(c, sorted);
  }

  /**
   * What `_normalize_query` keeps: no tracking key, lower-case keys, sorted by
   * key, the same pairs as the filter let through, and duplicate keys in
   * their original order.
   */
  lemma QueryPairsFacts(c: Codecs, query: string)
    ensures var out := QueryPairs(c, query);
      && (forall k :: 0 <= k < |out| ==> out[k].0 !in TrackingParams && NoUpper(out[k].0))
      && SortedBy(out, KeyLe)
      && multiset(out) == multiset(Untracked(ParseQsl(c, query)))
      && forall e :: Ties(out, e, KeyLe) == Ties(Untracked(ParseQsl(c, query)), e, KeyLe)
  {
    var kept := Untracked(ParseQsl(c, query));
    var out := QueryPairs(c, query);
    KeyOrder();
    SortSorted(kept, KeyLe);
    SortPermutation(kept, KeyLe);
    forall e ensures Ties(out, e, KeyLe) == Ties(kept, e, KeyLe) {
      SortStable(kept, e, KeyLe);
    }
    forall k | 0 <= k < |out| ensures out[k].0 !in TrackingParams && NoUpper(out[k].0) {
      assert out[k] in multiset(kept);
    }
  }

  lemma ExampleQuerySplit()
    ensures Split("a=&b&c=1", '&') == ["a=", "b", "c=1"]
  {
    var parts := ["a=", "b", "c=1"];
    assert Join("&", parts[2..]) == "c=1";
    assert Join("&", parts[1..]) == "b&c=1";
    assert Join("&", parts) == "a=&b&c=1";
    SplitJoin(parts, '&');
  }

  /** A first piece `name=value` parses to its decoded pair unless the value is empty. */
  lemma ParsePiecesCons(c: Codecs, pieces: seq<string>, name: string, value: string)
    requires pieces != [] && pieces[0] == name + "=" + value && '=' !in name
    ensures ParsePieces(c, pieces) ==
      if value == "" then ParsePieces(c, pieces[1..]) else [(c.unquotePlus(name), c.unquotePlus(value))] + ParsePieces(c, pieces[1..])
  {
    assert name + "=" + value == name + ['='] + value;
    SplitOnceAt(name, value, '=');
  }

  /** A first piece without `=` is dropped. */
  lemma ParsePiecesBare(c: Codecs, pieces: seq<string>)
    requires pieces != [] && '=' !in pieces[0]
    ensures ParsePieces(c, pieces) == ParsePieces(c, pieces[1..])
  {
  }

  lemma BlankLiterals()
    ensures "a=" == "a" + "=" + "" && "c=1" == "c" + "=" + "1"
    ensures '=' !in "a" && '=' !in "b" && '=' !in "c"
  {
  }

  /** A parameter with an empty value, or with no `=`, is dropped. */
  lemma BlankParametersDropped(c: Codecs)
    ensures ParseQsl(c, "a=&b&c=1") == [(c.unquotePlus("c"), c.unquotePlus("1"))]
  {
    var pieces := ["a=", "b", "c=1"];
    ExampleQuerySplit();
    BlankLiterals();
    assert pieces[1..][1..][1..] == [];
    ParsePiecesCons(c, pieces[1..][1..], "c", "1");
    ParsePiecesBare(c, pieces[1..]);
    ParsePiecesCons(c, pieces, "a", "");
  }

  // ---------------------------------------------------------------- whole URL

  /** `urlunsplit` of the normalised parts: the query follows a `?` only when non-empty. */
  function Canonical(c: Codecs, u: SplitUrl): (r: string)
    ensures StartsWith(r, "https://")
  {
    var netloc := NormalizeNetloc(c, u.hostname.GetOr(""), u.scheme, u.port);
    var path := ResolvePath(c.requote(u.path));
    var query := UrlEncode(c, QueryPairs(c, u.query));
    HttpsHead(u.scheme, netloc, path, query);
    Assemble(NormalizeScheme(u.scheme), netloc, path, query)
  }

  /** `scheme://netloc` + path, and `?query` when the query is not empty. */
  function Assemble(scheme: string, netloc: string, path: string, query: string): string
  {
    scheme + "://" + (netloc + path + (if query == "" then "" else "?" + query))
  }

  lemma HttpsHead(scheme: string, netloc: string, path: string, query: string)
    ensures StartsWith(Assemble(NormalizeScheme(scheme), netloc, path, query), "https://")
  {
    var head := NormalizeScheme(scheme) + "://";
    assert head == "https://";
    var r := Assemble(NormalizeScheme(scheme), netloc, path, query);
    assert r[..|head|] == head;
  }

  /** `normalize_url`, up to the final `HttpUrl` construction. */
  method NormalizeUrl(c: Codecs, u: SplitUrl) returns (r: string)
    ensures r == Canonical(c, u)
    ensures StartsWith(r, "https://")
  {
    var netloc := NormalizeNetloc(c, u.hostname.GetOr(""), u.scheme, u.port);
    var path := NormalizePath(c, u.path);
    var query := NormalizeQuery(c, u.query);
    var fragment := NormalizeFragment(u.fragment);
    r := NormalizeScheme(u.scheme) + "://" + (netloc + path + (if query == "" then "" else "?" + query));
    if fragment != "" {
      r := r + "#" + fragment;
    }
  }

  /** The scheme and the fragment of the input do not matter beyond the port rule. */
  lemma CanonicalIgnoresFragment(c: Codecs, u: SplitUrl, fragment: string)
    ensures Canonical(c, u.(fragment := fragment)) == Canonical(c, u)
  {
  }

  // ---------------------------------------------------------------- the documented example

  const ExampleUrl := SplitUrl("HTTP", Some("www.b\U{FC}cher.com"), None, "/foo/./bar/../baz/", "b=2&utm_source=test&a=1", "section")

  /** The codecs behave as `urllib.parse` and the IDNA codec do on the example's parts. */
  predicate ExampleCodecs(c: Codecs)
  {
    && c.idna("www.b\U{FC}cher.com") == "www.xn--bcher-kva.com"
    && c.requote("/foo/./bar/../baz/") == "/foo/./bar/../baz/"
    && c.unquotePlus("b") == "b" && c.unquotePlus("2") == "2"
    && c.unquotePlus("utm_source") == "utm_source" && c.unquotePlus("test") == "test"
    && c.unquotePlus("a") == "a" && c.unquotePlus("1") == "1"
    && c.quotePlus("a") == "a" && c.quotePlus("1") == "1"
    && c.quotePlus("b") == "b" && c.quotePlus("2") == "2"
  }

  /** A host the IDNA codec maps to `www.` + `h` ends up as `h` when no port is given. */
  lemma NetlocOfWwwHost(c: Codecs, hostname: string, scheme: string, h: string)
    requires NoUpper(hostname)
    requires c.idna(hostname) == "www." + h
    ensures NormalizeNetloc(c, hostname, scheme, None) == h
  {
    LowerIdentity(hostname);
    WwwStrippedOnce(h);
  }

  lemma ExamplePathSplit()
    ensures Split("/foo/./bar/../baz/", '/') == ["", "foo", ".", "bar", "..", "baz", ""]
  {
    var parts := ["", "foo", ".", "bar", "..", "baz", ""];
    PathPartsJoin();
    PathPartsFree();
    SplitJoin(parts, '/');
  }

  lemma PathPartsJoin()
    ensures Join("/", ["", "foo", ".", "bar", "..", "baz", ""]) == "/foo/./bar/../baz/"
  {
    PathPartsNested();
    PathNestedLiteral();
  }

  lemma PathNestedLiteral()
    ensures "" + "/" + ("foo" + "/" + ("." + "/" + ("bar" + "/" + (".." + "/" + ("baz" + "/" + ""))))) == "/foo/./bar/../baz/"
  {
  }

  lemma PathPartsNested()
    ensures Join("/", ["", "foo", ".", "bar", "..", "baz", ""])
      == "" + "/" + ("foo" + "/" + ("." + "/" + ("bar" + "/" + (".." + "/" + ("baz" + "/" + "")))))
  {
  }

  lemma PathPartsFree()
    ensures forall k :: 0 <= k < 7 ==> '/' !in ["", "foo", ".", "bar", "..", "baz", ""][k]
  {
  }

  lemma ExamplePathResolve()
    ensures Resolve(["", "foo", ".", "bar", "..", "baz", ""]) == ["foo", "baz"]
  {
    var parts := ["", "foo", ".", "bar", "..", "baz", ""];
    assert Resolve(parts[..2]) == ["foo"] by {
      assert parts[..2][..1] == parts[..1];
      assert Resolve(parts[..1]) == [];
    }
    assert Resolve(parts[..4]) == ["foo", "bar"] by {
      assert parts[..4][..3] == parts[..3];
      assert parts[..3][..2] == parts[..2];
    }
    assert Resolve(parts[..6]) == ["foo", "baz"] by {
      assert parts[..6][..5] == parts[..5];
      assert parts[..5][..4] == parts[..4];
    }
    assert parts[..7] == parts;
    assert parts[..7][..6] == parts[..6];
  }

  lemma ExamplePathJoin()
    ensures PathOf(["foo", "baz"]) == "/foo/baz"
  {
    var segs := ["foo", "baz"];
    assert segs[1..] == ["baz"];
    assert Join("/", segs) == "foo" + "/" + "baz";
    assert PathOf(segs) == "/" + ("foo" + "/" + "baz");
  }

  lemma ExamplePath(p: string)
    requires p == "/foo/./bar/../baz/"
    ensures ResolvePath(p) == "/foo/baz"
  {
    ExamplePathSplit();
    ExamplePathResolve();
    ExamplePathJoin();
  }

  lemma ExampleQueryPieces()
    ensures Split("b=2&utm_source=test&a=1", '&') == ["b=2", "utm_source=test", "a=1"]
  {
    var pieces := ["b=2", "utm_source=test", "a=1"];
    QueryPiecesJoin();
    QueryPiecesFree();
    SplitJoin(pieces, '&');
  }

  lemma QueryPiecesJoin()
    ensures Join("&", ["b=2", "utm_source=test", "a=1"]) == "b=2&utm_source=test&a=1"
  {
    QueryPiecesNested();
    QueryNestedLiteral();
  }

  lemma QueryPiecesNested()
    ensures Join("&", ["b=2", "utm_source=test", "a=1"]) == "b=2" + "&" + ("utm_source=test" + "&" + "a=1")
  {
  }

  lemma QueryNestedLiteral()
    ensures "b=2" + "&" + ("utm_source=test" + "&" + "a=1") == "b=2&utm_source=test&a=1"
  {
  }

  lemma QueryPiecesFree()
    ensures forall k :: 0 <= k < 3 ==> '&' !in ["b=2", "utm_source=test", "a=1"][k]
  {
  }

  lemma ExampleParsed(c: Codecs, q: string)
    requires ExampleCodecs(c)
    requires q == "b=2&utm_source=test&a=1"
    ensures ParseQsl(c, q) == [("b", "2"), ("utm_source", "test"), ("a", "1")]
  {
    ExampleQueryPieces();
    ExamplePieces(c);
  }

  lemma ExamplePieces(c: Codecs)
    requires ExampleCodecs(c)
    ensures ParsePieces(c, ["b=2", "utm_source=test", "a=1"]) == [("b", "2"), ("utm_source", "test"), ("a", "1")]
  {
    var pieces := ["b=2", "utm_source=test", "a=1"];
    QueryLiterals();
    assert '=' !in "a" && '=' !in "b" && '=' !in "utm_source";
    assert pieces[1..][1..][1..] == [];
    ParsePiecesCons(c, pieces[1..][1..], "a", "1");
    ParsePiecesCons(c, pieces[1..], "utm_source", "test");
    ParsePiecesCons(c, pieces, "b", "2");
  }

  lemma ExampleUntracked()
    ensures Untracked([("b", "2"), ("utm_source", "test"), ("a", "1")]) == [("b", "2"), ("a", "1")]
  {
    TrackingLiterals();
    LowerLiterals();
    UntrackedMiddle("b", "2", "utm_source", "test", "a", "1");
  }

  /** Three pairs whose middle key is a tracking parameter and whose other keys are lower-case. */
  lemma UntrackedMiddle(k1: string, v1: string, k2: string, v2: string, k3: string, v3: string)
    requires Lower(k1) == k1 && k1 !in TrackingParams
    requires Lower(k2) in TrackingParams
    requires Lower(k3) == k3 && k3 !in TrackingParams
    ensures Untracked([(k1, v1), (k2, v2), (k3, v3)]) == [(k1, v1), (k3, v3)]
  {
    var p0: seq<(string, string)> := [];
    var p1 := p0 + [(k1, v1)];
    UntrackedSnoc(p0, k1, v1);
    assert Untracked(p1) == [(k1, v1)];
    var p2 := p1 + [(k2, v2)];
    UntrackedSnoc(p1, k2, v2);
    assert Untracked(p2) == [(k1, v1)];
    var p3 := p2 + [(k3, v3)];
    UntrackedSnoc(p2, k3, v3);
    assert Untracked(p3) == [(k1, v1), (k3, v3)];
    assert p3 == [(k1, v1), (k2, v2), (k3, v3)];
  }

  /** The filtering loop's step for one more pair. */
  lemma UntrackedSnoc(init: seq<(string, string)>, key: string, value: string)
    ensures Untracked(init + [(key, value)])
      == if Lower(key) !in TrackingParams then Untracked(init) + [(Lower(key), value)] else Untracked(init)
  {
    assert (init + [(key, value)])[..|init|] == init;
  }

  lemma ExampleSorted()
    ensures Sort([("b", "2"), ("a", "1")], KeyLe) == [("a", "1"), ("b", "2")]
  {
    var kept := [("b", "2"), ("a", "1")];
    assert Sort(kept[..1], KeyLe) == [("b", "2")] by {
      assert kept[..1][..0] == [];
    }
    assert !LexLe("b", "a");
  }

  lemma ExampleEncoded(c: Codecs)
    requires ExampleCodecs(c)
    ensures UrlEncode(c, [("a", "1"), ("b", "2")]) == "a=1&b=2"
  {
    var sorted := [("a", "1"), ("b", "2")];
    assert EncodePairs(c, sorted) == ["a" + "=" + "1", "b" + "=" + "2"];
    assert Join("&", ["a=1", "b=2"]) == "a=1" + "&" + "b=2";
  }

  lemma ExampleQuery(c: Codecs, q: string)
    requires ExampleCodecs(c)
    requires q == "b=2&utm_source=test&a=1"
    ensures UrlEncode(c, QueryPairs(c, q)) == "a=1&b=2"
  {
    ExampleParsed(c, q);
    ExampleUntracked();
    ExampleSorted();
    ExampleEncoded(c);
  }

  /** The example in the documentation of `normalize_url`. */
  lemma DocumentedExample(c: Codecs, u: SplitUrl)
    requires ExampleCodecs(c)
    requires u == ExampleUrl
    ensures Canonical(c, u) == "https://xn--bcher-kva.com/foo/baz?a=1&b=2"
  {
    ExampleNetloc(c, u);
    ExamplePathOf(c, u);
    ExampleQueryOf(c, u);
    ExampleLiteral();
  }

  lemma ExampleNetloc(c: Codecs, u: SplitUrl)
    requires ExampleCodecs(c)
    requires u == ExampleUrl
    ensures NormalizeNetloc(c, u.hostname.GetOr(""), u.scheme, u.port) == "xn--bcher-kva.com"
  {
    HostLiterals();
    NetlocOfWwwHost(c, "www.b\U{FC}cher.com", "HTTP", "xn--bcher-kva.com");
  }

  lemma ExamplePathOf(c: Codecs, u: SplitUrl)
    requires ExampleCodecs(c)
    requires u == ExampleUrl
    ensures ResolvePath(c.requote(u.path)) == "/foo/baz"
  {
    ExamplePath(c.requote(u.path));
  }

  lemma ExampleQueryOf(c: Codecs, u: SplitUrl)
    requires ExampleCodecs(c)
    requires u == ExampleUrl
    ensures UrlEncode(c, QueryPairs(c, u.query)) == "a=1&b=2"
  {
    ExampleQuery(c, u.query);
  }

  lemma HostLiterals()
    ensures NoUpper("www.b\U{FC}cher.com")
    ensures "www." + "xn--bcher-kva.com" == "www.xn--bcher-kva.com"
  {
  }

  lemma QueryLiterals()
    ensures "utm_source" + "=" + "test" == "utm_source=test"
    ensures "a" + "=" + "1" == "a=1" && "b" + "=" + "2" == "b=2"
  {
  }

  lemma TrackingLiterals()
    ensures "b" !in TrackingParams && "a" !in TrackingParams && "utm_source" in TrackingParams
  {
  }
  lemma LowerLiterals()
    ensures Lower("b") == "b" && Lower("a") == "a" && Lower("utm_source") == "utm_source"
  {
    LowerIdentity("b");
    LowerIdentity("a");
    LowerIdentity("utm_source");
  }

  lemma ExampleLiteral()
    ensures Assemble("https", "xn--bcher-kva.com", "/foo/baz", "a=1&b=2") == "https://xn--bcher-kva.com/foo/baz?a=1&b=2"
  {
  }
}
