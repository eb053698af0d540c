/** The link record shared by every link syntax, its markdown serialisation,
    and the BrokenLink condition raised while resolving one (types.py). */
module Links {

  datatype Option<T> = None | Some(value: T)

  /** One link occurrence or definition: an optional image marker, the
      visible text, the target, an optional anchor and an optional title.
      An empty string stands for an absent anchor or title. */
  datatype Link = Link(image: bool, text: string, target: string, anchor: string, title: string)

  /** Why a link could not be resolved. Each cause carries what the message
      of the original exception quotes: the raw matched text, or the target
      that was not found. */
  datatype BrokenLink =
    | CouldNotExtract(raw: string)
    | NoTarget(raw: string)
    | NotFound(target: string)

  /** A step that either yields a value or raises BrokenLink. */
  datatype Result<T> = Ok(value: T) | Broken(cause: BrokenLink)

  function ImageMarker(image: bool): string {
    if image then "!" else ""
  }

  function AnchorPart(anchor: string): string {
    if anchor != "" then "#" + anchor else ""
  }

  function TitlePart(title: string): string {
    if title != "" then " \"" + title + "\"" else ""
  }

  /** The label the rendering shows: the title when it is asked for and
      present, the link text otherwise. */
  function Label(link: Link, titleAsText: bool): string {
    if titleAsText && link.title != "" then link.title else link.text
  }

  /** Link.render: `![label](target#anchor "title")`. In title-as-text mode
      with a non-empty title, the title becomes the label and no quoted
      title is written. */
  function Render(link: Link, titleAsText: bool): (r: string)
    ensures |r| > 0 && (r[0] == '!' <==> link.image)
    ensures r[|r| - 1] == ')'
  {
    var img := ImageMarker(link.image);
    var anchor := AnchorPart(link.anchor);
    var title := TitlePart(link.title);
    if titleAsText && link.title != "" then
      img + "[" + link.title + "](" + link.target + anchor + ")"
    else
      img + "[" + link.text + "](" + link.target + anchor + title + ")"
  }

  /** The part of the rendering inside the parentheses. */
  function Destination(link: Link, titleAsText: bool): string {
    link.target + AnchorPart(link.anchor) + TitleShown(link, titleAsText)
  }

  /** Every rendering is the image marker, the label in brackets and the
      destination in parentheses; the destination starts with the target,
      the anchor part follows it immediately, and the title part comes last
      unless the title is used as the label. */
  lemma RenderLayout(link: Link, titleAsText: bool)
    ensures Render(link, titleAsText)
      == ImageMarker(link.image) + "[" + Label(link, titleAsText) + "](" + Destination(link, titleAsText) + ")"
  {
  }

  /** The target starts right after the `](` that closes the label, and the
      anchor part follows the target with nothing in between. */
  lemma RenderTargetPosition(link: Link, titleAsText: bool)
    ensures var r := Render(link, titleAsText);
            var k := |ImageMarker(link.image)| + 1 + |Label(link, titleAsText)|;
            var t := k + 2 + |link.target|;
            && t + |AnchorPart(link.anchor)| < |r|
            && r[k..k + 2] == "]("
            && r[k + 2..t] == link.target
            && r[t..t + |AnchorPart(link.anchor)|] == AnchorPart(link.anchor)
  {
    var head := ImageMarker(link.image) + "[" + Label(link, titleAsText);
    RenderLayout(link, titleAsText);
    assert Render(link, titleAsText)
      == head + "](" + (link.target + AnchorPart(link.anchor) + TitleShown(link, titleAsText)) + ")";
    Slices(head, "](", link.target, AnchorPart(link.anchor), TitleShown(link, titleAsText), ")");
  }

  /** The title part shown inside the parentheses. */
  function TitleShown(link: Link, titleAsText: bool): string {
    if titleAsText && link.title != "" then "" else TitlePart(link.title)
  }

  lemma Slices(p: string, q: string, u: string, v: string, x: string, w: string)
    requires w != []
    ensures var s := p + q + (u + v + x) + w;
      var i, j, k := |p| + |q|, |p| + |q| + |u|, |p| + |q| + |u| + |v|;
      && k < |s| && s[|p|..i] == q && s[i..j] == u && s[j..k] == v
  {
    var s, i := p + q + (u + v + x) + w, |p| + |q|;
    var t := u + v + x + w;
    assert s[..i] == p + q;
    assert s[i..] == t;
    assert t[..|u|] == u;
    assert t[|u|..|u| + |v|] == v;
  }

  /** With an empty title both rendering modes agree. */
  lemma RenderEmptyTitle(link: Link)
    requires link.title == ""
    ensures Render(link, true) == Render(link, false)
  {
  }

  // ---------------------------------------------------------------------
  // An inverse of Render, used to show that the rendering loses nothing.

  /** Splits `s` at the first occurrence of `c`. */
  function SplitAt(s: string, c: char): (r: Option<(string, string)>)
    ensures r.None? <==> c !in s
    ensures r.Some? ==> s == r.value.0 + [c] + r.value.1 && c !in r.value.0
  {
    if s == [] then None
    else if s[0] == c then Some(([], s[1..]))
    else match SplitAt(s[1..], c)
      case None => None
      case Some(p) => Some(([s[0]] + p.0, p.1))
  }

  lemma {:induction false} SplitAtFirst(a: string, c: char, b: string)
    requires c !in a
    ensures SplitAt(a + [c] + b, c) == Some((a, b))
  {
    if a == [] {
      assert a + [c] + b == [c] + b;
    } else {
      assert (a + [c] + b)[1..] == a[1..] + [c] + b;
      SplitAtFirst(a[1..], c, b);
      assert [a[0]] + a[1..] == a;
    }
  }

  /** Reads the quoted title written by TitlePart, without its quotes. */
  function ParseTitle(s: string): Option<string> {
    if |s| >= 2 && s[0] == '"' && s[|s| - 1] == '"' then Some(s[1..|s| - 1]) else None
  }

  /** Splits `reference[ "title"]` at its first space into the reference
      and the title. */
  function ParseTitled(dest: string): Option<(string, string)> {
    match SplitAt(dest, ' ')
    case None => Some((dest, ""))
    case Some(p) => match ParseTitle(p.1)
      case None => None
      case Some(title) => Some((p.0, title))
  }

  /** Reads `target[#anchor][ "title"]`. */
  function ParseDestination(dest: string): Option<(string, string, string)> {
    match ParseTitled(dest)
    case None => None
    case Some(q) =>
      match SplitAt(q.0, '#')
      case None => Some((q.0, "", q.1))
      case Some(ta) => Some((ta.0, ta.1, q.1))
  }

  /** Reads `[label](destination)`, the rendering after its image marker. */
  function ParseBracketed(image: bool, s: string): Option<Link> {
    if |s| == 0 || s[0] != '[' then None
    else match SplitAt(s[1..], ']')
      case None => None
      case Some(p) =>
        var after := p.1;
        if |after| < 2 || after[0] != '(' || after[|after| - 1] != ')' then None
        else match ParseDestination(after[1..|after| - 1])
          case None => None
          case Some(d) => Some(Link(image, p.0, d.0, d.1, d.2))
  }

  /** Reads `[!][label](destination)` back into a link record. */
  function Parse(s: string): Option<Link> {
    if |s| > 0 && s[0] == '!' then ParseBracketed(true, s[1..]) else ParseBracketed(false, s)
  }

  /** The links Parse can read back: a label without `]`, a target without
      spaces or `#`, and an anchor without spaces. */
  predicate Readable(link: Link) {
    ']' !in link.text && ' ' !in link.target && '#' !in link.target && ' ' !in link.anchor
  }

  lemma ParseTitledOf(ref: string, title: string)
    requires ' ' !in ref
    ensures ParseTitled(ref + TitlePart(title)) == Some((ref, title))
  {
    if title == "" {
      assert ref + TitlePart(title) == ref;
    } else {
      var quoted := "\"" + title + "\"";
      assert ref + TitlePart(title) == ref + [' '] + quoted;
      SplitAtFirst(ref, ' ', quoted);
      assert quoted[1..|quoted| - 1] == title;
    }
  }

  lemma SplitAnchorOf(target: string, anchor: string)
    requires '#' !in target
    ensures SplitAt(target + AnchorPart(anchor), '#') == if anchor == "" then None else Some((target, anchor))
  {
    if anchor == "" {
      assert target + AnchorPart(anchor) == target;
    } else {
      assert target + AnchorPart(anchor) == target + ['#'] + anchor;
      SplitAtFirst(target, '#', anchor);
    }
  }

  lemma ParseDestinationOf(target: string, anchor: string, title: string)
    requires ' ' !in target && '#' !in target && ' ' !in anchor
    ensures ParseDestination(target + AnchorPart(anchor) + TitlePart(title)) == Some((target, anchor, title))
  {
    var ref := target + AnchorPart(anchor);
    assert ' ' !in ref by {
      if anchor != "" { assert ref == target + ['#'] + anchor; }
    }
    ParseTitledOf(ref, title);
    SplitAnchorOf(target, anchor);
    var dest := ref + TitlePart(title);
    assert ParseTitled(dest) == Some((ref, title));
    if anchor == "" {
      assert ref == target;
      assert SplitAt(ref, '#') == None;
    } else {
      assert SplitAt(ref, '#') == Some((target, anchor));
    }
  }

  lemma ParseBracketedParts(image: bool, lbl: string, dest: string)
    requires ']' !in lbl
    ensures ParseBracketed(image, "[" + lbl + "](" + dest + ")")
      == match ParseDestination(dest)
         case None => None
         case Some(d) => Some(Link(image, lbl, d.0, d.1, d.2))
  {
    var s := "[" + lbl + "](" + dest + ")";
    var after := "(" + dest + ")";
    assert s[1..] == lbl + [']'] + after;
    SplitAtFirst(lbl, ']', after);
    assert after[1..|after| - 1] == dest;
  }

  lemma ParseMarked(image: bool, rest: string)
    requires |rest| > 0 && rest[0] == '['
    ensures Parse(ImageMarker(image) + rest) == ParseBracketed(image, rest)
  {
    if image {
      assert (ImageMarker(image) + rest)[1..] == rest;
    } else {
      assert ImageMarker(image) + rest == rest;
    }
  }

  lemma ParseRenderedParts(image: bool, lbl: string, dest: string)
    requires ']' !in lbl
    ensures Parse(ImageMarker(image) + "[" + lbl + "](" + dest + ")")
      == match ParseDestination(dest)
         case None => None
         case Some(d) => Some(Link(image, lbl, d.0, d.1, d.2))
  {
    var rest := "[" + lbl + "](" + dest + ")";
    assert ImageMarker(image) + "[" + lbl + "](" + dest + ")" == ImageMarker(image) + rest;
    ParseMarked(image, rest);
    ParseBracketedParts(image, lbl, dest);
  }

  /** Parse undoes the default rendering of every readable link. */
  lemma ParseRender(link: Link)
    requires Readable(link)
    ensures Parse(Render(link, false)) == Some(link)
  {
    RenderLayout(link, false);
    ParseRenderedParts(link.image, link.text, Destination(link, false));
    ParseDestinationOf(link.target, link.anchor, link.title);
  }

  /** In title-as-text mode a link with a title reads back with the title as
      its text and no title of its own. */
  lemma ParseRenderTitleAsText(link: Link)
    requires link.title != "" && ']' !in link.title
    requires ' ' !in link.target && '#' !in link.target && ' ' !in link.anchor
    ensures Parse(Render(link, true)) == Some(link.(text := link.title, title := ""))
  {
    RenderLayout(link, true);
    ParseRenderedParts(link.image, link.title, Destination(link, true));
    ParseDestinationOf(link.target, link.anchor, "");
    assert Destination(link, true) == link.target + AnchorPart(link.anchor) + TitlePart("");
  }
}
