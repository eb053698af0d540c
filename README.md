# mkdocs-ezlinks link replacer, modelled in Dafny

This project models the link-rewriting engine of the mkdocs-ezlinks plugin.
For one markdown document, `EzLinksReplacer.replace` does two things:

1. It builds a *target map* from the document's reference-style definitions.
   Each definition is stored under its link text, with its target resolved
   relative to the document's directory.
2. It rewrites every match of the combined link pattern. The target comes
   from the target map or from the project's file map. A search result is
   made relative, percent-encoded and rendered back to markdown. Every
   `BrokenLink` leaves the matched text as it was.

`Link.render` serialises a link record back into
`![text](target#anchor "title")`. In title-as-text mode a non-empty title
becomes the label.

Files:

- `links.dfy`, module `Links` (types.py). It holds the `Link` record, `Render`,
  and `BrokenLink` as the error side of a `Result` type. It also holds an
  inverse parser `Parse`, used to prove that the default rendering loses
  nothing for `Readable` links.
- `replacer.dfy`, module `Replacer` (replacer.py). It holds the abstract scan
  (matches and segments), the scanners and the library collaborators. The
  specification functions of both passes (`TargetMap`, `Substitution`,
  `Expand`, `Rewritten`) are here. So is the class `EzLinksReplacer`, whose
  methods follow the source step by step and are proved to compute those
  functions.
- `replacer_properties.dfy`, module `ReplacerProperties`. Lemmas about the
  specification functions.

Modelling decisions:

- The regular-expression engine is the function `Library.scan`. It cuts a
  text by a `Pattern` into `Unmatched` text and `Matched` matches, which is
  what `re.sub` and `re.finditer` visit. `Compile` builds the patterns from
  the `|`-joined scanner fragments. The code-span alternatives come first in
  the substitution pattern, as a constructor of `Pattern`. A code-span match
  takes part in no named group. `ClaimsOwnGroups` states that a scanner
  claims only matches in which some named group took part.
- `FileMapper.search`, `os.path.join`, `os.path.dirname`, `os.path.relpath`
  and `urllib.parse.quote` are function-valued fields. No property depends
  on how they work.
- The document path is an explicit parameter, not instance state.
- `Expand` takes the substitution of a match as a callback, as `re.sub`
  takes `_do_replace`. So its lemmas hold for every callback.
- The model follows the code as written:
  - `_build_target_map` has no `return` after a claim (replacer.py:76-102).
    So every target scanner that claims a definition match contributes. The
    first `BrokenLink` ends only that match (`EveryClaimerContributes`,
    `BrokenEndsMatch`).
  - The `.md` test looks for a `.` anywhere in the search result, not for
    an extension.
  - The suffix is added before the emptiness test. So with directory URLs
    off an empty search result becomes `.md` and is never reported broken
    (`Search`, `EmptySearchWithoutDirectoryUrls`).

## Model

| member | source | states |
|---|---|---|
| `Links.Render` | mkdocs_ezlinks_plugin/types.py:19-27 | the rendering starts with `!` exactly when the link is an image, and always ends with `)` |
| `Links.RenderLayout` | mkdocs_ezlinks_plugin/types.py:20-27 | a rendering is marker, `[label]`, then `(target` + anchor part + title part `)`; the title part is empty when the title is the label |
| `Links.RenderTargetPosition` | mkdocs_ezlinks_plugin/types.py:21-27 | right after the label comes `](` then the target; the `#anchor` part follows the target directly and is empty for an empty anchor |
| `Links.RenderEmptyTitle` | mkdocs_ezlinks_plugin/types.py:24-27 | with an empty title, title-as-text rendering equals the default rendering |
| `Links.ParseRender` | mkdocs_ezlinks_plugin/types.py:19-27 | the default rendering of a readable link parses back to the same link: image flag, text, target, anchor and quoted title all survive |
| `Links.ParseRenderTitleAsText` | mkdocs_ezlinks_plugin/types.py:24-25 | in title-as-text mode with a title, the rendering parses back with the title as the label and no quoted title |
| `Replacer.Suffixed` | mkdocs_ezlinks_plugin/replacer.py:93-94 | with directory URLs off, a result with no `.` anywhere gets `.md` and every result then contains a `.`; otherwise the result is unchanged |
| `Replacer.Search` | mkdocs_ezlinks_plugin/replacer.py:92-98 | the search is broken exactly when directory URLs are on and the file map returns nothing, with cause NotFound(target); otherwise the suffixed result |
| `Replacer.Locate` | mkdocs_ezlinks_plugin/replacer.py:85-98 | an empty target with an anchor gives `join(root, path)`, with neither gives NoTarget; a non-empty target goes through Search |
| `Replacer.Definition` | mkdocs_ezlinks_plugin/replacer.py:78-100 | broken exactly when extraction fails (CouldNotExtract) or locating the extracted link fails, in which case the cause is Locate's NoTarget or NotFound; otherwise the extracted link with its target replaced by the located destination made relative to the document's directory, not quoted |
| `Replacer.Index` | mkdocs_ezlinks_plugin/replacer.py:70-102 | the dictionary's keys are exactly the texts of the definitions stored; every value is one of them, stored under its own text |
| `Replacer.FirstClaim` | mkdocs_ezlinks_plugin/replacer.py:113-114 | none exactly when no scanner claims the match; otherwise the index of a claiming scanner with no claiming scanner before it |
| `Replacer.Substitution` | mkdocs_ezlinks_plugin/replacer.py:110-147 | a match that no scanner claims comes back as its own matched text |
| `Replacer.Matches` | mkdocs_ezlinks_plugin/replacer.py:74 | every match visited by the definition pass is a matched segment of the scan |
| `Replacer.MatchesAppend` | mkdocs_ezlinks_plugin/replacer.py:74 | the matches of two stretches of segments are those of the first followed by those of the second, so the pass visits the matches in document order |
| `Replacer.MatchesSingleton` | mkdocs_ezlinks_plugin/replacer.py:74 | a matched segment contributes exactly its match, text between matches contributes none; with MatchesAppend this fixes every match and its order |
| `Replacer.Contributions` | mkdocs_ezlinks_plugin/replacer.py:76-103 | the specification of DefineMatch: at most one definition per target scanner; what they are is stated by ContributionsSound, EveryClaimerContributes and BrokenEndsMatch |
| `Replacer.Attempt` | mkdocs_ezlinks_plugin/replacer.py:115-140 | the specification of Rewrite: failed extraction is CouldNotExtract, and every other BrokenLink carries the cause Locate gives; AttemptBroken, TargetMapHit, SelfAnchor and SearchResolved state the rest |
| `Replacer.JoinPatterns` | mkdocs_ezlinks_plugin/replacer.py:41 | the specification of Compile's two joins (also line 59): no scanners give the empty pattern, one scanner its own fragment |
| `Replacer.JoinPatternsAppend` | mkdocs_ezlinks_plugin/replacer.py:41 | joining two non-empty runs of scanners is joining each and putting a vertical bar between them |
| `Replacer.EzLinksReplacer.constructor` | mkdocs_ezlinks_plugin/replacer.py:13-20 | the configuration is stored and both scanner lists start empty, with nothing compiled yet |
| `Replacer.EzLinksReplacer.AddScanner` | mkdocs_ezlinks_plugin/replacer.py:22-23 | appends the scanner to the substitution scanners, nothing else changes |
| `Replacer.EzLinksReplacer.AddTargetScanner` | mkdocs_ezlinks_plugin/replacer.py:25-26 | appends the scanner to the definition scanners, nothing else changes |
| `Replacer.EzLinksReplacer.Compile` | mkdocs_ezlinks_plugin/replacer.py:40-67 | both patterns are built from the fragments, joined by a vertical bar, of the scanners registered so far, the substitution one with the code-span alternatives first |
| `Replacer.EzLinksReplacer.Replace` | mkdocs_ezlinks_plugin/replacer.py:28-35 | the output is the scan of the document with the text between matches kept and each match replaced by its substitution under a target map built afresh for this call |
| `Replacer.EzLinksReplacer.BuildTargetMap` | mkdocs_ezlinks_plugin/replacer.py:69-108 | the dictionary filled in place equals the index of all definitions of the definition matches, in order, starting from an empty map |
| `Replacer.EzLinksReplacer.DefineMatch` | mkdocs_ezlinks_plugin/replacer.py:75-103 | the scanner loop for one definition match appends exactly that match's contributions, in scanner order, stopping at the first BrokenLink, and keeps the dictionary equal to the index of everything stored so far |
| `Replacer.EzLinksReplacer.Define` | mkdocs_ezlinks_plugin/replacer.py:78-100 | stepwise updating of the extracted link yields the definition: CouldNotExtract, NoTarget or NotFound exactly where the source raises them, else the link with its target located and made relative |
| `Replacer.EzLinksReplacer.Rewrite` | mkdocs_ezlinks_plugin/replacer.py:115-140 | the body of the try block yields the scanner's attempt: the BrokenLink cause where the source raises it, the target-map entry rendered with its title as label, or the link rendered with its located, relative, quoted target |
| `Replacer.EzLinksReplacer.DoReplace` | mkdocs_ezlinks_plugin/replacer.py:110-147 | the loop with early returns computes the substitution: first claimer only, target-map hit, search, or the matched text on any BrokenLink |
| `ReplacerProperties.ContributionsSound` | mkdocs_ezlinks_plugin/replacer.py:76-102 | every definition a match contributes comes from a target scanner that claims it |
| `ReplacerProperties.EveryClaimerContributes` | mkdocs_ezlinks_plugin/replacer.py:76-102 | every claiming target scanner contributes its definition unless an earlier claiming scanner broke |
| `ReplacerProperties.BrokenEndsMatch` | mkdocs_ezlinks_plugin/replacer.py:81-103 | a BrokenLink ends the scanners for that match; those before it keep their definitions |
| `ReplacerProperties.AllDefinitionsAppend` | mkdocs_ezlinks_plugin/replacer.py:74-106 | the definitions of two runs of matches are those of the first followed by those of the second |
| `ReplacerProperties.BrokenDefinitionSkipped` | mkdocs_ezlinks_plugin/replacer.py:103-106 | a match whose first claimer breaks, or that nobody claims, leaves the target map as if it were absent; later matches are still processed |
| `ReplacerProperties.SilentMatchSkipped` | mkdocs_ezlinks_plugin/replacer.py:74-106 | a match that contributes no definition can be dropped from the match sequence without changing the definitions |
| `ReplacerProperties.NoClaimNoContribution` | mkdocs_ezlinks_plugin/replacer.py:76-77 | a match that no target scanner claims contributes nothing |
| `ReplacerProperties.IndexLastWins` | mkdocs_ezlinks_plugin/replacer.py:102 | the value under a text is the last definition stored with that text, so a later definition overwrites an earlier one |
| `ReplacerProperties.TargetMapEntry` | mkdocs_ezlinks_plugin/replacer.py:100-102 | each entry is keyed by its own text and is the definition a claiming target scanner made of one of the matches |
| `ReplacerProperties.AllDefinitionsSound` | mkdocs_ezlinks_plugin/replacer.py:74-102 | every definition of the pass comes from a claiming target scanner on one of the matches |
| `ReplacerProperties.DefinitionSelfAnchor` | mkdocs_ezlinks_plugin/replacer.py:85-87 | in the definition pass an empty target with an anchor becomes the current document, made relative |
| `ReplacerProperties.AttemptBroken` | mkdocs_ezlinks_plugin/replacer.py:118-136 | a claimed match breaks exactly when extraction fails, or target and anchor are both empty, or a target outside the map is not found with directory URLs on |
| `ReplacerProperties.BrokenKeepsMatch` | mkdocs_ezlinks_plugin/replacer.py:141-147 | any BrokenLink of the first claimer yields the original matched text exactly |
| `ReplacerProperties.CodeSpanUnchanged` | mkdocs_ezlinks_plugin/replacer.py:44-50 | a code-span match, which takes part in no scanner's group, is returned unchanged |
| `ReplacerProperties.FirstClaimWins` | mkdocs_ezlinks_plugin/replacer.py:113-119 | scanners after a claiming one never change the result, even when its extraction fails |
| `ReplacerProperties.TargetMapHit` | mkdocs_ezlinks_plugin/replacer.py:127-128 | a non-empty target that is a key of the target map yields that entry rendered with its title as label |
| `ReplacerProperties.TargetMapHitIgnoresSearch` | mkdocs_ezlinks_plugin/replacer.py:127-128 | on a target-map hit the result does not depend on the file map or on percent-encoding |
| `ReplacerProperties.SelfAnchor` | mkdocs_ezlinks_plugin/replacer.py:122-124 | an empty target with an anchor renders with the current document, made relative and quoted, as its target |
| `ReplacerProperties.SearchResolved` | mkdocs_ezlinks_plugin/replacer.py:131-140 | a target found by search renders with `quote(relpath(suffixed result, dirname(join(root, path))))` as its target |
| `ReplacerProperties.EmptySearchWithoutDirectoryUrls` | mkdocs_ezlinks_plugin/replacer.py:132-136 | with directory URLs off an empty search result becomes `.md` and is not broken |
| `ReplacerProperties.ExpandAppend` | mkdocs_ezlinks_plugin/replacer.py:35 | rewriting is piecewise: two runs of segments rewrite to the concatenation of their rewrites |
| `ReplacerProperties.ExpandIdentity` | mkdocs_ezlinks_plugin/replacer.py:35 | when the callback returns every match's own text, the rewrite is the text the segments cover |
| `ReplacerProperties.UnclaimedDocumentUnchanged` | mkdocs_ezlinks_plugin/replacer.py:28-35 | a document none of whose matches is claimed comes back unchanged |

## Left out

- Python `re` semantics in `compile`: lazy quantifiers, verbose and multi-line mode, and alternation precedence. The scan is the abstract function `Library.scan`. The engine is assumed to tile the text exactly (`Tiles`) only where a lemma says so.
- `FileMapper.search`: its ambiguity and extension policy are not modelled. It is an arbitrary function from (path, target) to a string.
- `os.path.join`, `dirname`, `relpath` and `urllib.parse.quote`: foreign library calls, kept as arbitrary functions. So nothing is proved about concrete path shapes or `%20` encoding.
- The logger: debug messages have no effect on the output. The cause of each `BrokenLink` is still kept in the `Result`.
- `EzLinksOptions`: plain configuration data with no logic here.
- The concrete scanner classes: they are represented by their `claims` and `extract` functions and their pattern fragment.
- `self.path` as instance state, and reuse of one instance across threads. The path is a parameter of each call instead.
- In-place mutation of the extracted `Link` object: the model updates a value. Aliasing between a link in the target map and a scanner's own objects is not captured.
- Calling `replace` before `compile` raises an AttributeError in the source. It is a precondition of `Replace` and `BuildTargetMap` here.
- `Replacer.Substitution`: its own contract states only the unclaimed case. The other cases are stated by the lemmas `BrokenKeepsMatch`, `TargetMapHit`, `SelfAnchor` and `SearchResolved`.
