/**
 * The breadcrumb trail: the current path split into segments, one link per
 * segment pointing at the path up to and including it, a leading Home link,
 * and the rendering rule that marks the last item as the current page.
 */
module Breadcrumb {
  import opened Text

  /** `filter(Boolean)` on strings: the empty ones go. */
  function DropEmpty(parts: seq<string>): (r: seq<string>)
    ensures |r| <= |parts|
    ensures forall k :: 0 <= k < |r| ==> r[k] != "" && r[k] in parts
  {
    if parts == [] then []
    else if parts[0] == "" then DropEmpty(parts[1..])
    else [parts[0]] + DropEmpty(parts[1..])
  }

  /** Nothing is dropped from a list without empty strings. */
  lemma {:induction false} DropEmptyKeeps(parts: seq<string>)
    requires forall k :: 0 <= k < |parts| ==> parts[k] != ""
    ensures DropEmpty(parts) == parts
  {
    if parts != [] {
      DropEmptyKeeps(parts[1..]);
    }
  }

  /** The segments of a pathname: split on `/`, empty pieces dropped. */
  function Segments(pathname: string): (r: seq<string>)
    ensures forall k :: 0 <= k < |r| ==> r[k] != "" && '/' !in r[k]
  {
    var parts := Split(pathname, '/');
    var r := DropEmpty(parts);
    assert forall k :: 0 <= k < |r| ==> r[k] in parts;
    r
  }

  datatype Link = Link(caption: string, to: string)

  /** The path that segment link `i` points at: `'/' + segments.slice(0, i + 1).join('/')`. */
  function PathTo(segs: seq<string>, i: nat): (r: string)
    requires i < |segs|
    ensures |r| >= 1 && r[0] == '/'
  {
    "/" + Join("/", segs[..i + 1])
  }

  /** `pathLinks`: Home first, then one link per segment captioned by `toTitleCase`. */
  function PathLinks(pathname: string, toTitleCase: string -> string): (r: seq<Link>)
    ensures |r| == |Segments(pathname)| + 1
    ensures r[0] == Link("Home", "/")
    ensures forall i :: 1 <= i < |r| ==> r[i].caption == toTitleCase(Segments(pathname)[i - 1])
  {
    var segs := Segments(pathname);
    [Link("Home", "/")] + seq(|segs|, i requires 0 <= i < |segs| => Link(toTitleCase(segs[i]), PathTo(segs, i)))
  }

  /** The Home link leads to a path with no segments. */
  lemma HomeHasNoSegments()
    ensures Segments("/") == []
  {
    assert Split("/", '/') == [""] + Split("", '/');
  }

  lemma {:induction false} SplitLeadingSlash(t: string)
    ensures Split("/" + t, '/') == [""] + Split(t, '/')
  {
    assert ("/" + t)[0] == '/' && ("/" + t)[1..] == t;
  }

  /** Following the link of segment `i` leads to a page whose segments are the first `i + 1` segments. */
  lemma PathToRoundTrip(segs: seq<string>, i: nat)
    requires i < |segs|
    requires forall k :: 0 <= k < |segs| ==> segs[k] != "" && '/' !in segs[k]
    ensures Segments(PathTo(segs, i)) == segs[..i + 1]
  {
    var prefix := segs[..i + 1];
    assert forall k :: 0 <= k < |prefix| ==> prefix[k] == segs[k];
    SplitJoin(prefix, '/');
    SplitLeadingSlash(Join("/", prefix));
    DropEmptyKeeps(prefix);
  }

  /** Every link in the trail leads to a page whose trail is the matching prefix of this one. */
  lemma LinksLeadToPrefixes(pathname: string, toTitleCase: string -> string, i: nat)
    requires i < |PathLinks(pathname, toTitleCase)|
    ensures Segments(PathLinks(pathname, toTitleCase)[i].to) == Segments(pathname)[..i]
  {
    var segs := Segments(pathname);
    if i == 0 {
      HomeHasNoSegments();
    } else {
      PathToRoundTrip(segs, i - 1);
    }
  }

  /** One rendered item: a current-page marker for the last item, a link otherwise, and maybe a separator after it. */
  datatype Item = Item(link: Link, current: bool, separated: bool)

  /** The rendered list: only the last item is current; a non-empty separator follows every item but the last. */
  function Render(links: seq<Link>, separator: string): (r: seq<Item>)
    ensures |r| == |links|
    ensures forall i :: 0 <= i < |r| ==> r[i].link == links[i]
  {
    seq(|links|, i requires 0 <= i < |links| => Item(links[i], i == |links| - 1, separator != "" && i != |links| - 1))
  }

  /** Exactly the last item is the current page, and separators sit strictly between items. */
  lemma RenderShape(links: seq<Link>, separator: string, i: nat)
    requires i < |links|
    ensures Render(links, separator)[i].current <==> i == |links| - 1
    ensures Render(links, separator)[i].separated <==> separator != "" && i < |links| - 1
  {
  }

  /** The trail always has its current item, and it points where the page already is. */
  lemma CurrentIsHere(pathname: string, toTitleCase: string -> string)
    ensures var links := PathLinks(pathname, toTitleCase);
      Render(links, "/ ")[|links| - 1].current &&
      Segments(links[|links| - 1].to) == Segments(pathname)
  {
    var links := PathLinks(pathname, toTitleCase);
    LinksLeadToPrefixes(pathname, toTitleCase, |links| - 1);
    assert Segments(pathname)[..|links| - 1] == Segments(pathname);
  }
}
