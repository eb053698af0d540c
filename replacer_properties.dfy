/** What the two passes of the replacer guarantee, stated over the
    specification functions that the methods of EzLinksReplacer are proved
    to compute. */
module ReplacerProperties {
  import opened Links
  import opened Replacer

  // ---------------------------------------------------------------------
  // The target-map pass

  /** Every contribution of a match is the definition made by a target
      scanner that claims it. */
  lemma {:induction false} ContributionsSound(c: Context, scanners: seq<Scanner>, path: string, m: Match, k: nat)
    requires k < |Contributions(c, scanners, path, m)|
    ensures exists j :: (0 <= j < |scanners| && scanners[j].claims(m)
      && Definition(c, scanners[j], path, m) == Ok(Contributions(c, scanners, path, m)[k]))
  {
    var r := Contributions(c, scanners, path, m);
    var rest := Contributions(c, scanners[1..], path, m);
    if scanners[0].claims(m) && k == 0 {
      assert 0 <= 0 < |scanners| && scanners[0].claims(m) && Definition(c, scanners[0], path, m) == Ok(r[0]);
    } else {
      var k' := if scanners[0].claims(m) then k - 1 else k;
      assert r[k] == rest[k'];
      ContributionsSound(c, scanners[1..], path, m, k');
      var j :| 0 <= j < |scanners[1..]| && scanners[1..][j].claims(m)
        && Definition(c, scanners[1..][j], path, m) == Ok(rest[k']);
      assert scanners[1..][j] == scanners[j + 1];
    }
  }

  /** There is no first-claim-wins in the target-map pass: every target
      scanner that claims a match contributes its definition, as long as no
      earlier claiming scanner raised BrokenLink. */
  lemma {:induction false} EveryClaimerContributes(c: Context, scanners: seq<Scanner>, path: string, m: Match, j: nat)
    requires j < |scanners| && scanners[j].claims(m) && Definition(c, scanners[j], path, m).Ok?
    requires forall i :: 0 <= i < j && scanners[i].claims(m) ==> Definition(c, scanners[i], path, m).Ok?
    ensures Definition(c, scanners[j], path, m).value in Contributions(c, scanners, path, m)
  {
    if j > 0 {
      forall i | 0 <= i < j - 1 && scanners[1..][i].claims(m)
        ensures Definition(c, scanners[1..][i], path, m).Ok?
      {
        assert scanners[1..][i] == scanners[i + 1];
      }
      assert scanners[1..][j - 1] == scanners[j];
      EveryClaimerContributes(c, scanners[1..], path, m, j - 1);
    }
  }

  /** A BrokenLink from a claiming target scanner ends that match: the
      scanners after it add nothing, those before it keep their definitions. */
  lemma {:induction false} BrokenEndsMatch(c: Context, scanners: seq<Scanner>, path: string, m: Match, j: nat)
    requires j < |scanners| && scanners[j].claims(m) && Definition(c, scanners[j], path, m).Broken?
    ensures Contributions(c, scanners, path, m) == Contributions(c, scanners[..j], path, m)
  {
    if j == 0 {
      assert scanners[..0] == [];
    } else {
      assert scanners[1..][j - 1] == scanners[j];
      BrokenEndsMatch(c, scanners[1..], path, m, j - 1);
      assert scanners[..j][0] == scanners[0] && scanners[..j][1..] == scanners[1..][..j - 1];
    }
  }

  lemma {:induction false} AllDefinitionsAppend(c: Context, scanners: seq<Scanner>, path: string, ms1: seq<Match>, ms2: seq<Match>)
    ensures AllDefinitions(c, scanners, path, ms1 + ms2)
      == AllDefinitions(c, scanners, path, ms1) + AllDefinitions(c, scanners, path, ms2)
  {
    if ms2 == [] {
      assert ms1 + ms2 == ms1;
    } else {
      var init := ms2[..|ms2| - 1];
      var last := ms2[|ms2| - 1];
      assert (ms1 + ms2)[..|ms1 + ms2| - 1] == ms1 + init;
      assert (ms1 + ms2)[|ms1 + ms2| - 1] == last;
      AllDefinitionsAppend(c, scanners, path, ms1, init);
    }
  }

  /** A match that yields no definition (its first claiming target scanner
      raises BrokenLink, or no target scanner claims it) is skipped and the
      pass goes on with the matches after it. */
  lemma BrokenDefinitionSkipped(c: Context, scanners: seq<Scanner>, path: string,
                                before: seq<Match>, m: Match, after: seq<Match>)
    requires match FirstClaim(scanners, m)
             case None => true
             case Some(j) => Definition(c, scanners[j], path, m).Broken?
    ensures TargetMap(c, scanners, path, before + [m] + after) == TargetMap(c, scanners, path, before + after)
  {
    match FirstClaim(scanners, m) {
      case None =>
        NoClaimNoContribution(c, scanners, path, m);
      case Some(j) =>
        BrokenEndsMatch(c, scanners, path, m, j);
        NoClaimNoContribution(c, scanners[..j], path, m);
    }
    SilentMatchSkipped(c, scanners, path, before, m, after);
  }

  lemma SilentMatchSkipped(c: Context, scanners: seq<Scanner>, path: string,
                           before: seq<Match>, m: Match, after: seq<Match>)
    requires Contributions(c, scanners, path, m) == []
    ensures AllDefinitions(c, scanners, path, before + [m] + after) == AllDefinitions(c, scanners, path, before + after)
  {
    AllDefinitionsAppend(c, scanners, path, before + [m], after);
    AllDefinitionsAppend(c, scanners, path, before, [m]);
    AllDefinitionsAppend(c, scanners, path, before, after);
    assert [m][..0] == [];
  }

  lemma {:induction false} NoClaimNoContribution(c: Context, scanners: seq<Scanner>, path: string, m: Match)
    requires forall j :: 0 <= j < |scanners| ==> !scanners[j].claims(m)
    ensures Contributions(c, scanners, path, m) == []
  {
    if scanners != [] {
      assert forall j :: 0 <= j < |scanners[1..]| ==> scanners[1..][j] == scanners[j + 1];
      NoClaimNoContribution(c, scanners[1..], path, m);
    }
  }

  /** Storing definitions in order keeps, for each text, the last definition
      with that text: a later definition overwrites an earlier one. */
  lemma {:induction false} IndexLastWins(defs: seq<Link>, i: nat)
    requires i < |defs|
    requires forall j :: i < j < |defs| ==> defs[j].text != defs[i].text
    ensures defs[i].text in Index(defs) && Index(defs)[defs[i].text] == defs[i]
  {
    var prior := defs[..|defs| - 1];
    if i < |defs| - 1 {
      forall j | i < j < |prior| ensures prior[j].text != prior[i].text {
        assert prior[j] == defs[j];
      }
      IndexLastWins(prior, i);
    }
  }

  /** Every entry of the target map is stored under its own text and is the
      definition some claiming target scanner made of some definition match:
      its target is the located destination made relative to the document's
      directory, without percent-encoding. */
  lemma TargetMapEntry(c: Context, scanners: seq<Scanner>, path: string, ms: seq<Match>, key: string)
    requires key in TargetMap(c, scanners, path, ms)
    ensures var link := TargetMap(c, scanners, path, ms)[key];
      && link.text == key
      && exists i, j :: 0 <= i < |ms| && 0 <= j < |scanners| && scanners[j].claims(ms[i])
           && Definition(c, scanners[j], path, ms[i]) == Ok(link)
  {
    var defs := AllDefinitions(c, scanners, path, ms);
    var link := Index(defs)[key];
    var k :| 0 <= k < |defs| && defs[k] == link;
    AllDefinitionsSound(c, scanners, path, ms, k);
  }

  lemma {:induction false} AllDefinitionsSound(c: Context, scanners: seq<Scanner>, path: string, ms: seq<Match>, k: nat)
    requires k < |AllDefinitions(c, scanners, path, ms)|
    ensures exists i, j :: (0 <= i < |ms| && 0 <= j < |scanners| && scanners[j].claims(ms[i])
      && Definition(c, scanners[j], path, ms[i]) == Ok(AllDefinitions(c, scanners, path, ms)[k]))
  {
    var init := ms[..|ms| - 1];
    var prior := AllDefinitions(c, scanners, path, init);
    var defs := AllDefinitions(c, scanners, path, ms);
    if k < |prior| {
      assert defs[k] == prior[k];
      AllDefinitionsSound(c, scanners, path, init, k);
      var i, j :| 0 <= i < |init| && 0 <= j < |scanners| && scanners[j].claims(init[i])
        && Definition(c, scanners[j], path, init[i]) == Ok(prior[k]);
      assert init[i] == ms[i];
    } else {
      var m := ms[|ms| - 1];
      assert defs[k] == Contributions(c, scanners, path, m)[k - |prior|];
      ContributionsSound(c, scanners, path, m, k - |prior|);
    }
  }

  /** A definition with an empty target and an anchor points at the current
      document, made relative to its directory. */
  lemma DefinitionSelfAnchor(c: Context, scanner: Scanner, path: string, m: Match)
    requires scanner.extract(m).Some?
    requires scanner.extract(m).value.target == "" && scanner.extract(m).value.anchor != ""
    ensures Definition(c, scanner, path, m)
      == Ok(scanner.extract(m).value.(target := c.lib.relpath(c.lib.join(c.root, path), AbsFrom(c, path))))
  {
  }

  // ---------------------------------------------------------------------
  // The substitution pass

  /** The causes of BrokenLink for a claimed match: no link extracted, no
      target and no anchor, or a target outside the target map whose search
      finds nothing while directory URLs are on. */
  lemma AttemptBroken(c: Context, scanner: Scanner, targetMap: map<string, Link>, path: string, m: Match)
    ensures Attempt(c, scanner, targetMap, path, m).Broken? <==>
      match scanner.extract(m)
      case None => true
      case Some(link) =>
        || (link.target == "" && link.anchor == "")
        || (link.target != "" && link.target !in targetMap
            && c.useDirectoryUrls && c.fileMap.search(path, link.target) == "")
  {
  }

  /** Every BrokenLink falls back to the matched text, exactly. */
  lemma BrokenKeepsMatch(c: Context, scanners: seq<Scanner>, targetMap: map<string, Link>, path: string, m: Match, i: nat)
    requires i < |scanners| && scanners[i].claims(m)
    requires forall j :: 0 <= j < i ==> !scanners[j].claims(m)
    requires Attempt(c, scanners[i], targetMap, path, m).Broken?
    ensures Substitution(c, scanners, targetMap, path, m) == m.whole
  {
  }

  /** A scanner recognises only matches of its own sub-pattern, which take
      part in one of its named groups. */
  ghost predicate ClaimsOwnGroups(scanner: Scanner) {
    forall m :: scanner.claims(m) ==> m.groups != map[]
  }

  /** A fenced or inline code-span match takes part in no named group, so no
      scanner claims it and it is returned unchanged. */
  lemma CodeSpanUnchanged(c: Context, scanners: seq<Scanner>, targetMap: map<string, Link>, path: string, m: Match)
    requires m.groups == map[]
    requires forall j :: 0 <= j < |scanners| ==> ClaimsOwnGroups(scanners[j])
    ensures Substitution(c, scanners, targetMap, path, m) == m.whole
  {
    forall j | 0 <= j < |scanners| ensures !scanners[j].claims(m) {
      assert ClaimsOwnGroups(scanners[j]);
    }
  }

  /** Only the first claiming scanner is used: the scanners after it are
      never tried, even when its extraction fails. */
  lemma FirstClaimWins(c: Context, first: seq<Scanner>, later: seq<Scanner>, targetMap: map<string, Link>, path: string, m: Match, i: nat)
    requires i < |first| && first[i].claims(m)
    ensures Substitution(c, first + later, targetMap, path, m) == Substitution(c, first, targetMap, path, m)
  {
    var k := FirstClaim(first, m).value;
    assert (first + later)[k] == first[k];
    forall j | 0 <= j < k ensures !(first + later)[j].claims(m) {
      assert (first + later)[j] == first[j];
    }
    assert FirstClaim(first + later, m) == Some(k);
  }

  /** A non-empty target that names a target-map entry is replaced by that
      entry rendered with its title as label. */
  lemma TargetMapHit(c: Context, scanners: seq<Scanner>, targetMap: map<string, Link>, path: string, m: Match, i: nat)
    requires i < |scanners| && scanners[i].claims(m)
    requires forall j :: 0 <= j < i ==> !scanners[j].claims(m)
    requires scanners[i].extract(m).Some?
    requires var t := scanners[i].extract(m).value.target; t != "" && t in targetMap
    ensures Substitution(c, scanners, targetMap, path, m)
      == Render(targetMap[scanners[i].extract(m).value.target], true)
  {
    var entry := targetMap[scanners[i].extract(m).value.target];
    assert FirstClaim(scanners, m) == Some(i);
    assert Attempt(c, scanners[i], targetMap, path, m) == Ok(Render(entry, true));
  }

  /** On a target-map hit neither the file map nor percent-encoding is
      consulted: the result is the same whatever they do. */
  lemma TargetMapHitIgnoresSearch(c: Context, fileMap: FileMapper, quote: string -> string,
                                  scanners: seq<Scanner>, targetMap: map<string, Link>, path: string, m: Match, i: nat)
    requires i < |scanners| && scanners[i].claims(m)
    requires forall j :: 0 <= j < i ==> !scanners[j].claims(m)
    requires scanners[i].extract(m).Some?
    requires var t := scanners[i].extract(m).value.target; t != "" && t in targetMap
    ensures Substitution(c.(fileMap := fileMap, lib := c.lib.(quote := quote)), scanners, targetMap, path, m)
      == Substitution(c, scanners, targetMap, path, m)
  {
    var c' := c.(fileMap := fileMap, lib := c.lib.(quote := quote));
    assert FirstClaim(scanners, m) == Some(i);
    assert Attempt(c', scanners[i], targetMap, path, m) == Attempt(c, scanners[i], targetMap, path, m);
  }

  /** An empty target with an anchor points at the current document, made
      relative to its directory and percent-encoded. */
  lemma SelfAnchor(c: Context, scanners: seq<Scanner>, targetMap: map<string, Link>, path: string, m: Match, i: nat)
    requires i < |scanners| && scanners[i].claims(m)
    requires forall j :: 0 <= j < i ==> !scanners[j].claims(m)
    requires scanners[i].extract(m).Some?
    requires var link := scanners[i].extract(m).value; link.target == "" && link.anchor != ""
    ensures var link := scanners[i].extract(m).value;
      Substitution(c, scanners, targetMap, path, m)
        == Render(link.(target := c.lib.quote(c.lib.relpath(c.lib.join(c.root, path), AbsFrom(c, path)))), false)
  {
    var link := scanners[i].extract(m).value;
    var resolved := link.(target := c.lib.quote(c.lib.relpath(c.lib.join(c.root, path), AbsFrom(c, path))));
    assert FirstClaim(scanners, m) == Some(i);
    assert Locate(c, path, link, m.whole) == Ok(c.lib.join(c.root, path));
    assert Attempt(c, scanners[i], targetMap, path, m) == Ok(Render(resolved, false));
  }

  /** A target outside the target map that the file map finds is rendered
      with the suffixed search result, made relative to the document's
      directory and percent-encoded. */
  lemma SearchResolved(c: Context, scanners: seq<Scanner>, targetMap: map<string, Link>, path: string, m: Match, i: nat)
    requires i < |scanners| && scanners[i].claims(m)
    requires forall j :: 0 <= j < i ==> !scanners[j].claims(m)
    requires scanners[i].extract(m).Some?
    requires var link := scanners[i].extract(m).value;
      && link.target != "" && link.target !in targetMap
      && (!c.useDirectoryUrls || c.fileMap.search(path, link.target) != "")
    ensures var link := scanners[i].extract(m).value;
      var found := Suffixed(c.fileMap.search(path, link.target), c.useDirectoryUrls);
      Substitution(c, scanners, targetMap, path, m)
        == Render(link.(target := c.lib.quote(c.lib.relpath(found, AbsFrom(c, path)))), false)
  {
    var link := scanners[i].extract(m).value;
    var found := Suffixed(c.fileMap.search(path, link.target), c.useDirectoryUrls);
    var resolved := link.(target := c.lib.quote(c.lib.relpath(found, AbsFrom(c, path))));
    assert FirstClaim(scanners, m) == Some(i);
    assert Locate(c, path, link, m.whole) == Ok(found);
    assert Attempt(c, scanners[i], targetMap, path, m) == Ok(Render(resolved, false));
  }

  /** With directory URLs off an empty search result becomes ".md" and is
      not reported broken. */
  lemma EmptySearchWithoutDirectoryUrls(c: Context, path: string, target: string)
    requires !c.useDirectoryUrls && c.fileMap.search(path, target) == ""
    ensures Search(c, path, target) == Ok(".md")
  {
    assert "" + ".md" == ".md";
  }

  // ---------------------------------------------------------------------
  // The whole document

  /** The text between matches is kept, and each match is replaced on its
      own: rewriting two stretches of segments is rewriting each of them. */
  lemma {:induction false} ExpandAppend(sub: Match -> string, s1: seq<Segment>, s2: seq<Segment>)
    ensures Expand(sub, s1 + s2) == Expand(sub, s1) + Expand(sub, s2)
  {
    if s2 == [] {
      assert s1 + s2 == s1;
    } else {
      var init := s2[..|s2| - 1];
      var a, b, r := Expand(sub, s1), Expand(sub, init), Replacement(sub, s2[|s2| - 1]);
      ExpandSnoc(sub, s1, s2);
      ExpandAppend(sub, s1, init);
      assert Expand(sub, s2) == b + r;
      Assoc(a, b, r);
    }
  }

  /** Appending a non-empty stretch adds the replacement of its last segment
      after the rest. */
  lemma ExpandSnoc(sub: Match -> string, s1: seq<Segment>, s2: seq<Segment>)
    requires s2 != []
    ensures Expand(sub, s1 + s2) == Expand(sub, s1 + s2[..|s2| - 1]) + Replacement(sub, s2[|s2| - 1])
  {
    var s := s1 + s2;
    assert s[..|s| - 1] == s1 + s2[..|s2| - 1];
    assert s[|s| - 1] == s2[|s2| - 1];
  }

  /** When every match is replaced by itself, the segments come back as the
      text they cover. */
  lemma {:induction false} ExpandIdentity(sub: Match -> string, segments: seq<Segment>)
    requires forall k :: 0 <= k < |segments| && segments[k].Matched? ==> sub(segments[k].m) == segments[k].m.whole
    ensures Expand(sub, segments) == Text(segments)
  {
    if segments != [] {
      var init := segments[..|segments| - 1];
      forall k | 0 <= k < |init| && init[k].Matched?
        ensures sub(init[k].m) == init[k].m.whole
      {
        assert init[k] == segments[k];
      }
      ExpandIdentity(sub, init);
    }
  }

  /** A document none of whose matches any scanner claims (for one, a
      document whose matches are all code spans) comes back unchanged. */
  lemma UnclaimedDocumentUnchanged(c: Context, scanners: seq<Scanner>, targetScanners: seq<Scanner>,
                                   regex: Pattern, targetRegex: Pattern, path: string, markdown: string)
    requires Tiles(c.lib.scan)
    requires forall m :: Matched(m) in c.lib.scan(regex, markdown) ==> FirstClaim(scanners, m).None?
    ensures Rewritten(c, scanners, targetScanners, regex, targetRegex, path, markdown) == markdown
  {
    var segments := c.lib.scan(regex, markdown);
    var targetMap := TargetMap(c, targetScanners, path, Matches(c.lib.scan(targetRegex, markdown)));
    forall k | 0 <= k < |segments| && segments[k].Matched?
      ensures Substitution(c, scanners, targetMap, path, segments[k].m) == segments[k].m.whole
    {
      assert Matched(segments[k].m) == segments[k];
    }
    ExpandIdentity(m => Substitution(c, scanners, targetMap, path, m), segments);
  }
}
