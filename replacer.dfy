/** The link-rewriting engine (replacer.py, EzLinksReplacer): a pre-pass
    that collects the reference-style definitions of one document into a
    target map, and a substitution pass that rewrites every link match. */
module Replacer {
  import opened Links

  // ---------------------------------------------------------------------
  // The abstract regular-expression scan

  /** One match of a compiled pattern: the whole matched text (group 0) and
      the named groups that took part in it. A match of the fenced or inline
      code-span alternatives takes part in no named group. */
  datatype Match = Match(whole: string, groups: map<string, string>)

  /** The document, cut by one pass of a pattern into the text between
      matches and the matches themselves, in order. */
  datatype Segment = Unmatched(text: string) | Matched(m: Match)

  /** The two patterns `compile` builds, each around the `|`-joined
      sub-patterns of its scanners: the substitution pattern tries the
      fenced and the inline code-span alternatives first, the definition
      pattern has only the sub-patterns. */
  datatype Pattern = CodeFencedAlternation(subpatterns: string) | Alternation(subpatterns: string)

  /** A link recognizer: its regex fragment, whether it claims a match, and
      the link it extracts from a claimed match, if any. */
  datatype Scanner = Scanner(pattern: string, claims: Match -> bool, extract: Match -> Option<Link>)

  /** The project-wide file index: the search result for a target, seen from
      a document path; the empty string means nothing was found. */
  datatype FileMapper = FileMapper(search: (string, string) -> string)

  /** The library calls the engine makes: os.path.join, os.path.dirname,
      os.path.relpath(path, start), urllib.parse.quote, and the regex engine
      that cuts a text by a pattern (the matches re.sub and re.finditer visit). */
  datatype Library = Library(
    join: (string, string) -> string,
    dirname: string -> string,
    relpath: (string, string) -> string,
    quote: string -> string,
    scan: (Pattern, string) -> seq<Segment>)

  /** What the replacer fixes at construction. */
  datatype Context = Context(root: string, fileMap: FileMapper, useDirectoryUrls: bool, lib: Library)

  /** The text a sequence of segments covers. */
  function Text(segments: seq<Segment>): string {
    if segments == [] then ""
    else Text(segments[..|segments| - 1]) + Piece(segments[|segments| - 1])
  }

  function Piece(segment: Segment): string {
    match segment
    case Unmatched(t) => t
    case Matched(m) => m.whole
  }

  /** The regex engine cuts every text into segments that cover it exactly. */
  ghost predicate Tiles(scan: (Pattern, string) -> seq<Segment>) {
    forall p, s :: Text(scan(p, s)) == s
  }

  /** The matches of a scan, as re.finditer yields them. */
  function Matches(segments: seq<Segment>): (ms: seq<Match>)
    ensures forall k :: 0 <= k < |ms| ==> Matched(ms[k]) in segments
  {
    if segments == [] then []
    else
      var last := segments[|segments| - 1];
      Matches(segments[..|segments| - 1]) + (if last.Matched? then [last.m] else [])
  }

  /** The matches of two stretches of segments are those of the first
      followed by those of the second. */
  lemma {:induction false} MatchesAppend(s1: seq<Segment>, s2: seq<Segment>)
    ensures Matches(s1 + s2) == Matches(s1) + Matches(s2)
  {
    if s2 != [] {
      var s, init := s1 + s2, s2[..|s2| - 1];
      assert s[..|s| - 1] == s1 + init;
      assert s[|s| - 1] == s2[|s2| - 1];
      MatchesAppend(s1, init);
    } else {
      assert s1 + s2 == s1;
    }
  }

  /** A matched segment yields its match, text between matches none. */
  lemma MatchesSingleton(segment: Segment)
    ensures Matches([segment]) == if segment.Matched? then [segment.m] else []
  {
    assert [segment][..0] == [];
  }

  /** The scanners' pattern fragments, in order, with a vertical bar between
      each two of them. */
  function JoinPatterns(scanners: seq<Scanner>): (r: string)
    ensures scanners == [] ==> r == ""
    ensures |scanners| == 1 ==> r == scanners[0].pattern
  {
    if scanners == [] then ""
    else if |scanners| == 1 then scanners[0].pattern
    else JoinPatterns(scanners[..|scanners| - 1]) + "|" + scanners[|scanners| - 1].pattern
  }

  /** Joining two non-empty runs of scanners is joining each of them and
      putting a vertical bar between the two. */
  lemma {:induction false} JoinPatternsAppend(s1: seq<Scanner>, s2: seq<Scanner>)
    requires s1 != [] && s2 != []
    ensures JoinPatterns(s1 + s2) == JoinPatterns(s1) + "|" + JoinPatterns(s2)
  {
    var s, init, last := s1 + s2, s2[..|s2| - 1], s2[|s2| - 1];
    assert s[..|s| - 1] == s1 + init;
    assert s[|s| - 1] == last;
    if init != [] {
      JoinPatternsAppend(s1, init);
      var a, b := JoinPatterns(s1), JoinPatterns(init);
      assert JoinPatterns(s) == (a + "|" + b) + "|" + last.pattern;
      assert JoinPatterns(s2) == b + "|" + last.pattern;
    } else {
      assert s1 + init == s1;
    }
  }

  // ---------------------------------------------------------------------
  // Resolution steps shared by both passes

  /** The directory of the document being processed, relative paths start here. */
  function AbsFrom(c: Context, path: string): string {
    c.lib.dirname(c.lib.join(c.root, path))
  }

  /** Without directory URLs a search result with no "." at all gets ".md"
      appended; the test is for a dot anywhere, not for an extension. */
  function Suffixed(found: string, useDirectoryUrls: bool): (r: string)
    ensures useDirectoryUrls || '.' in found ==> r == found
    ensures !useDirectoryUrls && '.' !in found ==> r == found + ".md"
    ensures !useDirectoryUrls ==> '.' in r
  {
    if !useDirectoryUrls && '.' !in found then found + ".md" else found
  }

  /** Searches the file map for a non-empty target. The suffix is applied
      before the emptiness test, so the search is reported broken only when
      directory URLs are on and nothing was found. */
  function Search(c: Context, path: string, target: string): (r: Result<string>)
    ensures r.Broken? <==> c.useDirectoryUrls && c.fileMap.search(path, target) == ""
    ensures r.Broken? ==> r.cause == NotFound(target)
    ensures r.Ok? ==> r.value == Suffixed(c.fileMap.search(path, target), c.useDirectoryUrls)
  {
    var found := Suffixed(c.fileMap.search(path, target), c.useDirectoryUrls);
    if found == "" then Broken(NotFound(target)) else Ok(found)
  }

  /** The absolute destination of an extracted link: the current document
      for a bare anchor, the search result for a target; no target and no
      anchor is broken. */
  function Locate(c: Context, path: string, link: Link, raw: string): (r: Result<string>)
    ensures link.target == "" ==> r == (if link.anchor != "" then Ok(c.lib.join(c.root, path)) else Broken(NoTarget(raw)))
    ensures link.target != "" ==> r == Search(c, path, link.target)
  {
    if link.target == "" then
      if link.anchor != "" then Ok(c.lib.join(c.root, path)) else Broken(NoTarget(raw))
    else Search(c, path, link.target)
  }

  // ---------------------------------------------------------------------
  // The target-map pass (_build_target_map)

  /** The definition one claiming target scanner makes of a match: the
      extracted link with its target resolved relative to the document's
      directory, not percent-encoded. */
  function Definition(c: Context, scanner: Scanner, path: string, m: Match): (r: Result<Link>)
    ensures scanner.extract(m).None? ==> r == Broken(CouldNotExtract(m.whole))
    ensures r.Broken? <==> scanner.extract(m).None? || Locate(c, path, scanner.extract(m).value, m.whole).Broken?
    ensures scanner.extract(m).Some? && Locate(c, path, scanner.extract(m).value, m.whole).Broken?
      ==> r.cause == Locate(c, path, scanner.extract(m).value, m.whole).cause
    ensures r.Ok? ==> scanner.extract(m).Some?
    ensures r.Ok? ==> var link := scanner.extract(m).value;
      && Locate(c, path, link, m.whole).Ok?
      && r.value == link.(target := c.lib.relpath(Locate(c, path, link, m.whole).value, AbsFrom(c, path)))
  {
    match scanner.extract(m)
    case None => Broken(CouldNotExtract(m.whole))
    case Some(link) =>
      match Locate(c, path, link, m.whole)
      case Broken(e) => Broken(e)
      case Ok(dest) => Ok(link.(target := c.lib.relpath(dest, AbsFrom(c, path))))
  }

  /** The definitions one match contributes. Every target scanner that
      claims the match is asked in turn (there is no stop after the first
      claim); the first BrokenLink ends the scanners for this match. */
  function Contributions(c: Context, scanners: seq<Scanner>, path: string, m: Match): (r: seq<Link>)
    ensures |r| <= |scanners|
  {
    if scanners == [] then []
    else if !scanners[0].claims(m) then Contributions(c, scanners[1..], path, m)
    else match Definition(c, scanners[0], path, m)
      case Broken(_) => []
      case Ok(link) => [link] + Contributions(c, scanners[1..], path, m)
  }

  /** One step of Contributions, from target scanner `j` on. */
  lemma ContributionsFrom(c: Context, scanners: seq<Scanner>, j: nat, path: string, m: Match)
    requires j < |scanners|
    ensures Contributions(c, scanners[j..], path, m)
      == if !scanners[j].claims(m) then Contributions(c, scanners[j + 1..], path, m)
         else match Definition(c, scanners[j], path, m)
           case Broken(_) => []
           case Ok(link) => [link] + Contributions(c, scanners[j + 1..], path, m)
  {
    assert scanners[j..][0] == scanners[j] && scanners[j..][1..] == scanners[j + 1..];
  }

  /** The definitions of all matches, in document order. */
  function AllDefinitions(c: Context, scanners: seq<Scanner>, path: string, ms: seq<Match>): seq<Link> {
    if ms == [] then []
    else AllDefinitions(c, scanners, path, ms[..|ms| - 1]) + Contributions(c, scanners, path, ms[|ms| - 1])
  }

  /** The dictionary filled by storing each definition under its text, in
      order: keys are the texts, and each value carries its own key. */
  function Index(defs: seq<Link>): (r: map<string, Link>)
    ensures forall k :: k in r <==> exists i :: 0 <= i < |defs| && defs[i].text == k
    ensures forall k :: k in r ==> r[k].text == k && r[k] in defs
  {
    if defs == [] then map[]
    else
      var prior := defs[..|defs| - 1];
      var last := defs[|defs| - 1];
      assert forall i :: 0 <= i < |prior| ==> prior[i] == defs[i];
      Index(prior)[last.text := last]
  }

  lemma Assoc<T>(a: seq<T>, b: seq<T>, c: seq<T>)
    ensures (a + b) + c == a + (b + c)
  {
  }

  lemma IndexSnoc(defs: seq<Link>, link: Link)
    ensures Index(defs + [link]) == Index(defs)[link.text := link]
  {
    assert (defs + [link])[..|defs|] == defs;
  }

  lemma AllDefinitionsSnoc(c: Context, scanners: seq<Scanner>, path: string, ms: seq<Match>, i: nat)
    requires i < |ms|
    ensures AllDefinitions(c, scanners, path, ms[..i + 1])
      == AllDefinitions(c, scanners, path, ms[..i]) + Contributions(c, scanners, path, ms[i])
  {
    assert ms[..i + 1][..i] == ms[..i];
  }

  /** The target map of a document: built afresh from its definition matches. */
  function TargetMap(c: Context, scanners: seq<Scanner>, path: string, ms: seq<Match>): map<string, Link> {
    Index(AllDefinitions(c, scanners, path, ms))
  }

  // ---------------------------------------------------------------------
  // The substitution pass (_do_replace)

  /** The first scanner that claims a match. */
  function FirstClaim(scanners: seq<Scanner>, m: Match): (r: Option<nat>)
    ensures r.None? <==> forall j :: 0 <= j < |scanners| ==> !scanners[j].claims(m)
    ensures r.Some? ==> (r.value < |scanners| && scanners[r.value].claims(m)
      && forall j :: 0 <= j < r.value ==> !scanners[j].claims(m))
  {
    if scanners == [] then None
    else if scanners[0].claims(m) then Some(0)
    else match FirstClaim(scanners[1..], m)
      case None => None
      case Some(k) => Some(k + 1)
  }

  /** What the claiming scanner's link becomes: a target-map entry rendered
      with its title as label, or the link with its target resolved,
      made relative and percent-encoded. */
  function Attempt(c: Context, scanner: Scanner, targetMap: map<string, Link>, path: string, m: Match): (r: Result<string>)
    ensures scanner.extract(m).None? ==> r == Broken(CouldNotExtract(m.whole))
    ensures r.Broken? && scanner.extract(m).Some? ==> var loc := Locate(c, path, scanner.extract(m).value, m.whole);
      loc.Broken? && r.cause == loc.cause
  {
    match scanner.extract(m)
    case None => Broken(CouldNotExtract(m.whole))
    case Some(link) =>
      if link.target != "" && link.target in targetMap then Ok(Render(targetMap[link.target], true))
      else match Locate(c, path, link, m.whole)
        case Broken(e) => Broken(e)
        case Ok(dest) => Ok(Render(link.(target := c.lib.quote(c.lib.relpath(dest, AbsFrom(c, path)))), false))
  }

  /** The replacement text of one match: the rewritten link when the first
      claiming scanner resolves it, the matched text itself otherwise. */
  function Substitution(c: Context, scanners: seq<Scanner>, targetMap: map<string, Link>, path: string, m: Match): (r: string)
    ensures FirstClaim(scanners, m).None? ==> r == m.whole
  {
    match FirstClaim(scanners, m)
    case None => m.whole
    case Some(i) =>
      match Attempt(c, scanners[i], targetMap, path, m)
      case Ok(s) => s
      case Broken(_) => m.whole
  }

  /** re.sub's output for the callback `sub`: the text between matches as
      it is, each match replaced by what `sub` returns for it. */
  function Expand(sub: Match -> string, segments: seq<Segment>): string {
    if segments == [] then ""
    else Expand(sub, segments[..|segments| - 1]) + Replacement(sub, segments[|segments| - 1])
  }

  /** What one segment becomes: text between matches is kept as it is. */
  function Replacement(sub: Match -> string, segment: Segment): string {
    match segment
    case Unmatched(t) => t
    case Matched(m) => sub(m)
  }

  /** The document `replace` returns. */
  function Rewritten(c: Context, scanners: seq<Scanner>, targetScanners: seq<Scanner>,
                     regex: Pattern, targetRegex: Pattern, path: string, markdown: string): string {
    var targetMap := TargetMap(c, targetScanners, path, Matches(c.lib.scan(targetRegex, markdown)));
    Expand(m => Substitution(c, scanners, targetMap, path, m), c.lib.scan(regex, markdown))
  }

  // ---------------------------------------------------------------------
  // The replacer object

  class EzLinksReplacer {
    const root: string
    const fileMap: FileMapper
    const useDirectoryUrls: bool
    const lib: Library
    var scanners: seq<Scanner>
    var targetScanners: seq<Scanner>
    /** The compiled patterns; None until `Compile` runs. */
    var regex: Option<Pattern>
    var targetRegex: Option<Pattern>

    constructor (root: string, fileMap: FileMapper, useDirectoryUrls: bool, lib: Library)
      ensures this.root == root && this.fileMap == fileMap && this.useDirectoryUrls == useDirectoryUrls && this.lib == lib
      ensures scanners == [] && targetScanners == []
      ensures regex == None && targetRegex == None
    {
      this.root := root;
      this.fileMap := fileMap;
      this.useDirectoryUrls := useDirectoryUrls;
      this.lib := lib;
      scanners := [];
      targetScanners := [];
      regex := None;
      targetRegex := None;
    }

    function Ctx(): Context {
      Context(root, fileMap, useDirectoryUrls, lib)
    }

    method AddScanner(scanner: Scanner)
      modifies this`scanners
      ensures scanners == old(scanners) + [scanner]
    {
      scanners := scanners + [scanner];
    }

    method AddTargetScanner(scanner: Scanner)
      modifies this`targetScanners
      ensures targetScanners == old(targetScanners) + [scanner]
    {
      targetScanners := targetScanners + [scanner];
    }

    /** Builds both patterns from the scanners registered so far. */
    method Compile()
      modifies this`regex, this`targetRegex
      ensures regex == Some(CodeFencedAlternation(JoinPatterns(scanners)))
      ensures targetRegex == Some(Alternation(JoinPatterns(targetScanners)))
    {
      var patterns := JoinPatterns(scanners);
      regex := Some(CodeFencedAlternation(patterns));
      var targetPatterns := JoinPatterns(targetScanners);
      targetRegex := Some(Alternation(targetPatterns));
    }

    /** Rewrites one document: builds its target map, then replaces every
      match of the compiled pattern, in order, by its substitution. */
    method Replace(path: string, markdown: string) returns (r: string)
      requires regex.Some? && targetRegex.Some?
      ensures r == Rewritten(Ctx(), scanners, targetScanners, regex.value, targetRegex.value, path, markdown)
    {
      var targetMap := BuildTargetMap(path, markdown);
      var segments := lib.scan(regex.value, markdown);
      ghost var c, sc := Ctx(), scanners;
      ghost var sub := (m: Match) => Substitution(c, sc, targetMap, path, m);
      r := "";
      var i := 0;
      while i < |segments|
        invariant 0 <= i <= |segments|
        invariant r == Expand(sub, segments[..i])
      {
        assert segments[..i + 1][..i] == segments[..i];
        match segments[i] {
          case Unmatched(t) =>
            r := r + t;
          case Matched(m) =>
            var s := DoReplace(path, m, targetMap);
            assert s == sub(m);
            r := r + s;
        }
        i := i + 1;
      }
      assert segments[..i] == segments;
    }

    /** Collects the document's definitions into a fresh dictionary keyed by
      link text; a BrokenLink skips the rest of that match only. */
    method BuildTargetMap(path: string, markdown: string) returns (targetMap: map<string, Link>)
      requires targetRegex.Some?
      ensures targetMap == TargetMap(Ctx(), targetScanners, path, Matches(lib.scan(targetRegex.value, markdown)))
    {
      targetMap := map[];
      var absFrom := lib.dirname(lib.join(root, path));
      var found := Matches(lib.scan(targetRegex.value, markdown));
      ghost var defined: seq<Link> := [];
      var i := 0;
      while i < |found|
        invariant 0 <= i <= |found|
        invariant defined == AllDefinitions(Ctx(), targetScanners, path, found[..i])
        invariant targetMap == Index(defined)
      {
        targetMap, defined := DefineMatch(path, found[i], absFrom, targetMap, defined);
        AllDefinitionsSnoc(Ctx(), targetScanners, path, found, i);
        i := i + 1;
      }
      assert found[..i] == found;
    }

    /** One turn of the loop over definition matches: every target scanner
      that claims the match stores its definition under the link text, until
      one raises BrokenLink, which ends this match. */
    method DefineMatch(path: string, m: Match, absFrom: string, targetMap: map<string, Link>, ghost defined: seq<Link>)
      returns (targetMap': map<string, Link>, ghost defined': seq<Link>)
      requires absFrom == lib.dirname(lib.join(root, path))
      requires targetMap == Index(defined)
      ensures defined' == defined + Contributions(Ctx(), targetScanners, path, m)
      ensures targetMap' == Index(defined + Contributions(Ctx(), targetScanners, path, m))
    {
      targetMap', defined' := targetMap, defined;
      ghost var c := Ctx();
      ghost var total := Contributions(c, targetScanners, path, m);
      var j := 0;
      while j < |targetScanners|
        invariant 0 <= j <= |targetScanners|
        invariant targetMap' == Index(defined')
        invariant defined' + Contributions(c, targetScanners[j..], path, m) == defined + total
      {
        var scanner := targetScanners[j];
        ghost var rest := Contributions(c, targetScanners[j + 1..], path, m);
        ContributionsFrom(c, targetScanners, j, path, m);
        if scanner.claims(m) {
          var definition := Define(path, scanner, m, absFrom);
          if definition.Broken? {
            assert Contributions(c, targetScanners[j..], path, m) == [];
            assert defined' + [] == defined';
            return;
          }
          var link := definition.value;
          assert Contributions(c, targetScanners[j..], path, m) == [link] + rest;
          Assoc(defined', [link], rest);
          IndexSnoc(defined', link);
          targetMap' := targetMap'[link.text := link];
          defined' := defined' + [link];
        }
        j := j + 1;
      }
      assert targetScanners[j..] == [];
      assert defined' + [] == defined';
    }

    /** What one claiming target scanner makes of a definition match (the
      body of the scanner loop of _build_target_map): the extracted link
      with its target resolved and made relative, or the BrokenLink raised. */
    method Define(path: string, scanner: Scanner, m: Match, absFrom: string) returns (r: Result<Link>)
      requires absFrom == lib.dirname(lib.join(root, path))
      ensures r == Definition(Ctx(), scanner, path, m)
    {
      var extracted := scanner.extract(m);
      if extracted.None? {
        return Broken(CouldNotExtract(m.whole));
      }
      var link := extracted.value;
      if link.target == "" {
        if link.anchor != "" {
          link := link.(target := lib.join(root, path));
        } else {
          return Broken(NoTarget(m.whole));
        }
      } else {
        var result := fileMap.search(path, link.target);
        if !useDirectoryUrls {
          result := if '.' !in result then result + ".md" else result;
        }
        if result == "" {
          return Broken(NotFound(link.target));
        }
        link := link.(target := result);
      }
      link := link.(target := lib.relpath(link.target, absFrom));
      return Ok(link);
    }

    /** The replacement of one match (_do_replace): only the first scanner
      that claims the match is tried; every BrokenLink, and a match no
      scanner claims, yields the matched text unchanged. */
    method DoReplace(path: string, m: Match, targetMap: map<string, Link>) returns (r: string)
      ensures r == Substitution(Ctx(), scanners, targetMap, path, m)
    {
      var absFrom := lib.dirname(lib.join(root, path));
      var i := 0;
      while i < |scanners|
        invariant 0 <= i <= |scanners|
        invariant forall j :: 0 <= j < i ==> !scanners[j].claims(m)
      {
        var scanner := scanners[i];
        if scanner.claims(m) {
          assert FirstClaim(scanners, m) == Some(i);
          var attempt := Rewrite(path, scanner, m, targetMap, absFrom);
          if attempt.Broken? {
            return m.whole;  // BrokenLink: logged, the match is kept
          }
          return attempt.value;
        }
        i := i + 1;
      }
      return m.whole;
    }

    /** What the claiming scanner makes of a link occurrence (the body of the
      try block of _do_replace): the rewritten link, or the BrokenLink
      raised. */
    method Rewrite(path: string, scanner: Scanner, m: Match, targetMap: map<string, Link>, absFrom: string)
      returns (r: Result<string>)
      requires absFrom == lib.dirname(lib.join(root, path))
      ensures r == Attempt(Ctx(), scanner, targetMap, path, m)
    {
      var extracted := scanner.extract(m);
      if extracted.None? {
        return Broken(CouldNotExtract(m.whole));
      }
      var link := extracted.value;
      if link.target == "" {
        if link.anchor != "" {
          link := link.(target := lib.join(root, path));
        } else {
          return Broken(NoTarget(m.whole));
        }
      } else if link.target in targetMap {
        return Ok(Render(targetMap[link.target], true));
      } else {
        var result := fileMap.search(path, link.target);
        if !useDirectoryUrls {
          result := if '.' !in result then result + ".md" else result;
        }
        if result == "" {
          return Broken(NotFound(link.target));
        }
        link := link.(target := result);
      }
      link := link.(target := lib.quote(lib.relpath(link.target, absFrom)));
      return Ok(Render(link, false));
    }
  }
}
