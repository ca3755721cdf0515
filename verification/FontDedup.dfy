/** De-duplication of fonts in an EPUB archive (transoria/tools/epub_compressor.py): fonts of equal content
    collapse into the first, and every reference to a removed one is rewritten to it. */
module FontDedup {
  import opened EpubPaths
  import opened Lists
  import opened Slashes
  import opened TextRules

  /** An entry of the archive's directory. An entry is read by its name, so its digest is a function of it. */
  datatype Info = Info(name: string, isDir: bool)

  const MIMETYPE := "mimetype"

  function Fonts(infos: seq<Info>, isFont: string -> bool): seq<string> {
    if infos == [] then []
    else (if !infos[0].isDir && isFont(infos[0].name) then [infos[0].name] else []) + Fonts(infos[1..], isFont)
  }

  /** The first font with a given digest. */
  function FirstWith(fonts: seq<string>, digest: string -> string, d: string): Option<string> {
    if fonts == [] then None
    else if digest(fonts[0]) == d then Some(fonts[0])
    else FirstWith(fonts[1..], digest, d)
  }

  predicate Kept(fonts: seq<string>, digest: string -> string, f: string) {
    FirstWith(fonts, digest, digest(f)) == Some(f)
  }

  /** How many of the listed fonts are replaced by another. */
  function Moved(list: seq<string>, fonts: seq<string>, digest: string -> string): nat {
    if list == [] then 0 else (if Kept(fonts, digest, list[0]) then 0 else 1) + Moved(list[1..], fonts, digest)
  }

  lemma {:induction false} FirstWithMeans(fonts: seq<string>, digest: string -> string, d: string)
    ensures var first := FirstWith(fonts, digest, d);
            && (first.None? <==> forall f :: f in fonts ==> digest(f) != d)
            && (first.Some? ==> first.value in fonts && digest(first.value) == d)
  {
    if fonts != [] {
      FirstWithMeans(fonts[1..], digest, d);
      assert fonts == [fonts[0]] + fonts[1..];
    }
  }

  lemma {:induction false} FirstWithAppend(a: seq<string>, b: seq<string>, digest: string -> string, d: string)
    ensures FirstWith(a + b, digest, d)
            == if FirstWith(a, digest, d).Some? then FirstWith(a, digest, d) else FirstWith(b, digest, d)
  {
    if a == [] {
      assert a + b == b;
    } else {
      assert (a + b)[1..] == a[1..] + b;
      FirstWithAppend(a[1..], b, digest, d);
    }
  }

  /** The map sends each font of the archive to the first one of equal digest, and nothing else. */
  ghost predicate MapOk(fonts: seq<string>, digest: string -> string, mapping: map<string, string>) {
    forall f :: (f in mapping <==> f in fonts) && (f in fonts ==> FirstWith(fonts, digest, digest(f)) == Some(mapping[f]))
  }

  ghost predicate HashOk(fonts: seq<string>, digest: string -> string, byHash: map<string, string>) {
    forall d :: FirstWith(fonts, digest, d) == if d in byHash then Some(byHash[d]) else None
  }

  lemma OneMoreFont(fonts: seq<string>, digest: string -> string, byHash: map<string, string>,
                    mapping: map<string, string>, f: string)
    requires HashOk(fonts, digest, byHash) && MapOk(fonts, digest, mapping)
    ensures var d := digest(f);
            var more := if d in byHash then byHash else byHash[d := f];
            HashOk(fonts + [f], digest, more) && MapOk(fonts + [f], digest, mapping[f := more[d]])
  {
    var d := digest(f);
    var more := if d in byHash then byHash else byHash[d := f];
    forall e ensures FirstWith(fonts + [f], digest, e) == if e in more then Some(more[e]) else None {
      FirstWithAppend(fonts, [f], digest, e);
    }
    forall g | g in fonts ensures FirstWith(fonts + [f], digest, digest(g)) == FirstWith(fonts, digest, digest(g)) {
      FirstWithAppend(fonts, [f], digest, digest(g));
    }
  }

  lemma {:induction false} MovedGrows(list: seq<string>, fonts: seq<string>, more: seq<string>, digest: string -> string)
    requires forall f :: f in list ==> f in fonts
    ensures Moved(list, fonts + more, digest) == Moved(list, fonts, digest)
  {
    if list != [] {
      FirstWithMeans(fonts, digest, digest(list[0]));
      FirstWithAppend(fonts, more, digest, digest(list[0]));
      MovedGrows(list[1..], fonts, more, digest);
    }
  }

  lemma {:induction false} MovedAppend(a: seq<string>, f: string, fonts: seq<string>, digest: string -> string)
    ensures Moved(a + [f], fonts, digest) == Moved(a, fonts, digest) + if Kept(fonts, digest, f) then 0 else 1
  {
    if a == [] {
      assert a + [f] == [f];
    } else {
      assert (a + [f])[1..] == a[1..] + [f];
      MovedAppend(a[1..], f, fonts, digest);
    }
  }

  lemma FontsFrom(fonts: seq<string>, infos: seq<Info>, i: nat, isFont: string -> bool)
    requires i < |infos|
    ensures fonts + Fonts(infos[i..], isFont)
            == (if !infos[i].isDir && isFont(infos[i].name) then fonts + [infos[i].name] else fonts)
               + Fonts(infos[i + 1..], isFont)
  {
    assert infos[i..][1..] == infos[i + 1..];
  }

  lemma OneMoreMoved(fonts: seq<string>, digest: string -> string, byHash: map<string, string>, f: string)
    requires HashOk(fonts, digest, byHash)
    ensures Moved(fonts + [f], fonts + [f], digest)
            == Moved(fonts, fonts, digest) + if digest(f) in byHash && byHash[digest(f)] != f then 1 else 0
  {
    MovedGrows(fonts, fonts, [f], digest);
    MovedAppend(fonts, f, fonts + [f], digest);
    FirstWithAppend(fonts, [f], digest, digest(f));
  }

  /** `_build_font_map`. */
  method BuildFontMap(infos: seq<Info>, isFont: string -> bool, digest: string -> string)
    returns (mapping: map<string, string>, removed: nat)
    ensures MapOk(Fonts(infos, isFont), digest, mapping)
    ensures removed == Moved(Fonts(infos, isFont), Fonts(infos, isFont), digest)
  {
    var byHash: map<string, string> := map[];
    mapping, removed := map[], 0;
    ghost var fonts: seq<string> := [];
    assert infos[0..] == infos;
    for i := 0 to |infos|
      invariant fonts + Fonts(infos[i..], isFont) == Fonts(infos, isFont)
      invariant HashOk(fonts, digest, byHash) && MapOk(fonts, digest, mapping)
      invariant removed == Moved(fonts, fonts, digest)
    {
      var info := infos[i];
      FontsFrom(fonts, infos, i, isFont);
      if info.isDir || !isFont(info.name) { continue; }
      var signature := digest(info.name);
      OneMoreFont(fonts, digest, byHash, mapping, info.name);
      OneMoreMoved(fonts, digest, byHash, info.name);
      if signature !in byHash { byHash := byHash[signature := info.name]; }
      var kept := byHash[signature];
      mapping := mapping[info.name := kept];
      if kept != info.name { removed := removed + 1; }
      fonts := fonts + [info.name];
    }
    assert fonts + [] == fonts;
  }

  // ---- the map

  /** The font a font is sent to is sent to itself, and has its digest. */
  lemma MapIsIdempotent(fonts: seq<string>, digest: string -> string, mapping: map<string, string>, f: string)
    requires MapOk(fonts, digest, mapping) && f in mapping
    ensures mapping[f] in mapping && mapping[mapping[f]] == mapping[f] && digest(mapping[f]) == digest(f)
    ensures forall g :: g in mapping && digest(g) == digest(f) ==> mapping[g] == mapping[f]
  {
    FirstWithMeans(fonts, digest, digest(f));
  }

  function Keepers(list: seq<string>, fonts: seq<string>, digest: string -> string): seq<string> {
    if list == [] then []
    else (if Kept(fonts, digest, list[0]) then [list[0]] else []) + Keepers(list[1..], fonts, digest)
  }

  lemma {:induction false} KeepersCount(list: seq<string>, fonts: seq<string>, digest: string -> string)
    ensures |Keepers(list, fonts, digest)| + Moved(list, fonts, digest) == |list|
    ensures forall f :: f in Keepers(list, fonts, digest) <==> f in list && Kept(fonts, digest, f)
  {
    if list != [] {
      KeepersCount(list[1..], fonts, digest);
      assert list == [list[0]] + list[1..];
    }
  }

  lemma {:induction false} ImageCount(a: set<string>, digest: string -> string)
    requires forall x, y :: x in a && y in a && digest(x) == digest(y) ==> x == y
    ensures |set x | x in a :: digest(x)| == |a|
  {
    var image := set x | x in a :: digest(x);
    if a == {} {
      assert image == {};
    } else {
      var x :| x in a;
      ImageCount(a - {x}, digest);
      assert image == (set y | y in a - {x} :: digest(y)) + {digest(x)};
    }
  }

  function Digests(fonts: seq<string>, digest: string -> string): set<string> {
    set f | f in fonts :: digest(f)
  }

  lemma KeptPerDigest(fonts: seq<string>, digest: string -> string)
    ensures |set f | f in Keepers(fonts, fonts, digest)| == |Digests(fonts, digest)|
  {
    var kept := set f | f in Keepers(fonts, fonts, digest);
    KeepersCount(fonts, fonts, digest);
    ImageCount(kept, digest);
    forall d | d in Digests(fonts, digest) ensures d in set f | f in kept :: digest(f) {
      FirstWithMeans(fonts, digest, d);
      var first := FirstWith(fonts, digest, d).value;
      assert first in kept;
    }
    assert (set f | f in kept :: digest(f)) == Digests(fonts, digest);
  }

  /** The removed count is the number of fonts less the number of distinct digests, exactly if no kept name
      is listed twice. */
  lemma RemovedIsExact(fonts: seq<string>, digest: string -> string)
    ensures Moved(fonts, fonts, digest) == |fonts| - |Digests(fonts, digest)|
            <==> NoDup(Keepers(fonts, fonts, digest))
    ensures NoDup(fonts) ==> NoDup(Keepers(fonts, fonts, digest))
  {
    KeepersCount(fonts, fonts, digest);
    KeptPerDigest(fonts, digest);
    SetCount(Keepers(fonts, fonts, digest));
    if NoDup(fonts) { KeepersNoDup(fonts, fonts, digest); }
  }

  lemma {:induction false} KeepersNoDup(list: seq<string>, fonts: seq<string>, digest: string -> string)
    requires NoDup(list)
    ensures NoDup(Keepers(list, fonts, digest))
  {
    if list != [] {
      var rest := list[1..];
      assert list == [list[0]] + rest;
      NoDupSplit([list[0]], rest);
      KeepersNoDup(rest, fonts, digest);
      KeepersCount(rest, fonts, digest);
      assert list[0] in [list[0]];
      if Kept(fonts, digest, list[0]) { NoDupConcat([list[0]], Keepers(rest, fonts, digest)); }
    }
  }

  // ---- what is written

  predicate Skipped(info: Info, isFont: string -> bool, mapping: map<string, string>) {
    info.name == MIMETYPE || info.isDir
    || (isFont(info.name) && (info.name !in mapping || mapping[info.name] != info.name))
  }

  /** The loop of `_compress_archive` that copies entries, behind the mimetype. */
  method WriteEntries(infos: seq<Info>, isFont: string -> bool, mapping: map<string, string>) returns (written: seq<string>)
    ensures forall name :: name in written <==>
              name == MIMETYPE || exists k :: 0 <= k < |infos| && infos[k].name == name && !Skipped(infos[k], isFont, mapping)
  {
    written := [MIMETYPE];
    for i := 0 to |infos|
      invariant forall name :: name in written <==>
                  name == MIMETYPE || exists k :: 0 <= k < i && infos[k].name == name && !Skipped(infos[k], isFont, mapping)
    {
      if infos[i].name == MIMETYPE || infos[i].isDir { continue; }
      if isFont(infos[i].name) && (infos[i].name !in mapping || mapping[infos[i].name] != infos[i].name) { continue; }
      written := written + [infos[i].name];
    }
  }

  lemma {:induction false} FontListed(infos: seq<Info>, isFont: string -> bool, f: string) returns (k: nat)
    requires f in Fonts(infos, isFont)
    ensures k < |infos| && infos[k] == Info(f, false) && isFont(f)
  {
    if !infos[0].isDir && isFont(infos[0].name) && infos[0].name == f {
      k := 0;
    } else {
      k := FontListed(infos[1..], isFont, f);
      k := k + 1;
    }
  }

  /** A kept font survives the copying. */
  lemma KeptIsWritten(infos: seq<Info>, isFont: string -> bool, digest: string -> string, mapping: map<string, string>,
                      f: string)
    requires MapOk(Fonts(infos, isFont), digest, mapping) && f in mapping && !isFont(MIMETYPE)
    ensures exists k :: 0 <= k < |infos| && infos[k].name == mapping[f] && !Skipped(infos[k], isFont, mapping)
  {
    MapIsIdempotent(Fonts(infos, isFont), digest, mapping, f);
    var k := FontListed(infos, isFont, mapping[f]);
  }

  // ---- references

  /** The reference after rewriting: unchanged unless its font has been replaced. */
  function RewrittenHref(c: Codec, cwd: string, base: string, mapping: map<string, string>, href: string): string {
    if Replaced(c, base, mapping, href) then RelativeHref(cwd, base, mapping[Resolve(c, base, href)]) else href
  }

  datatype Item = Item(href: string, mediaType: string)

  predicate Replaced(c: Codec, base: string, mapping: map<string, string>, href: string) {
    var resolved := Resolve(c, base, href);
    resolved in mapping && mapping[resolved] != "" && mapping[resolved] != resolved
  }

  function RewrittenItem(c: Codec, cwd: string, base: string, mapping: map<string, string>, isFont: string -> bool,
                         fontTypes: set<string>, item: Item): Item {
    if isFont(item.href) || item.mediaType in fontTypes
    then item.(href := RewrittenHref(c, cwd, base, mapping, item.href)) else item
  }

  function RewrittenItems(c: Codec, cwd: string, base: string, mapping: map<string, string>, isFont: string -> bool,
                          fontTypes: set<string>, items: seq<Item>): (r: seq<Item>)
    ensures |r| == |items|
  {
    seq(|items|, k requires 0 <= k < |items| => RewrittenItem(c, cwd, base, mapping, isFont, fontTypes, items[k]))
  }

  /** The loop of `_rewrite_font_manifest_items`, on the items of the manifest in place. */
  method RewriteManifest(c: Codec, cwd: string, opf: string, mapping: map<string, string>, items: array<Item>,
                         isFont: string -> bool, fontTypes: set<string>)
    returns (changed: bool)
    modifies items
    ensures items[..] == RewrittenItems(c, cwd, ZipDirName(opf), mapping, isFont, fontTypes, old(items[..]))
    ensures !changed ==> items[..] == old(items[..])
  {
    changed := false;
    var base := ZipDirName(opf);
    ghost var was := items[..];
    ghost var all := RewrittenItems(c, cwd, base, mapping, isFont, fontTypes, was);
    for i := 0 to items.Length
      invariant forall k :: 0 <= k < items.Length ==> items[k] == if k < i then all[k] else was[k]
      invariant !changed ==> items[..] == was
    {
      var rewritten, hit := RewriteOne(c, cwd, base, mapping, isFont, fontTypes, items[i]);
      assert rewritten == all[i];
      if hit {
        items[i] := rewritten;
        changed := true;
      }
    }
    assert items[..] == all;
  }

  method RewriteOne(c: Codec, cwd: string, base: string, mapping: map<string, string>, isFont: string -> bool,
                    fontTypes: set<string>, item: Item) returns (rewritten: Item, hit: bool)
    ensures rewritten == RewrittenItem(c, cwd, base, mapping, isFont, fontTypes, item)
    ensures !hit ==> rewritten == item
  {
    rewritten, hit := item, false;
    if isFont(item.href) || item.mediaType in fontTypes {
      var resolved := Resolve(c, base, item.href);
      if resolved in mapping && mapping[resolved] != "" && mapping[resolved] != resolved {
        rewritten, hit := item.(href := RelativeHref(cwd, base, mapping[resolved])), true;
      }
    }
  }

  predicate Starts(s: string, prefix: string) {
    prefix <= s
  }

  /** What `_rewrite_css_font_urls` makes of one `url(...)`; a fragment is kept. */
  function RewrittenUrl(c: Codec, cwd: string, base: string, mapping: map<string, string>, url: string): string {
    if Starts(url, "data:") || Starts(url, "http://") || Starts(url, "https://") || Starts(url, "#") then url else
    var k := FirstIndex(url, '#');
    if Replaced(c, base, mapping, url[..k]) then RelativeHref(cwd, base, mapping[Resolve(c, base, url[..k])]) + url[k..]
    else url
  }

  // ---- no dangling references

  /** Names whose path survives decoding and normalizing. */
  ghost predicate PlainPath(c: Codec, path: string) {
    exists parts :: parts != [] && PlainParts(c, parts) && path == PathOf(parts)
  }

  lemma KeptResolves(c: Codec, dir: seq<string>, doc: seq<string>, kept: string)
    requires PlainParts(c, dir) && PlainParts(c, doc) && doc != [] && PlainPath(c, kept)
    ensures kept != "" && '#' !in RelativeHref("/" + PathOf(dir), ZipDirName(PathOf(doc)), kept)
    ensures var base := ZipDirName(PathOf(doc));
            Resolve(c, base, RelativeHref("/" + PathOf(dir), base, kept)) == kept <==> kept[0] != '.'
  {
    var parts :| parts != [] && PlainParts(c, parts) && kept == PathOf(parts);
    DirectoryOf(c, doc);
    PlainIsStep(c, parts);
    SplitPath(parts);
    RelativeHrefResolves(c, dir, doc[..|doc| - 1], parts);
    RelativeIsClean(c, dir, doc[..|doc| - 1], parts);
  }

  lemma RelativeIsClean(c: Codec, dir: seq<string>, base: seq<string>, parts: seq<string>)
    requires PlainParts(c, dir) && PlainParts(c, base) && PlainParts(c, parts) && parts != []
    ensures '#' !in RelativeHref("/" + PathOf(dir), PathOf(base), PathOf(parts))
  {
    if base == [] {
      HrefClean(c, parts);
    } else {
      RelativeParts(c, dir, base, parts);
      PartsClean(c, RelParts(base, parts));
      PlainIsStep(c, base);
      SplitPath(base);
    }
  }

  lemma PartsClean(c: Codec, href: seq<string>)
    requires HrefParts(c, href)
    ensures '#' !in if href == [] then "." else PathOf(href)
  {
    if href != [] { HrefClean(c, href); }
  }

  /** A rewritten reference, resolved from its document, gives the kept font, exactly if that font's path
      does not begin with a dot; and the kept font is in the output. */
  lemma NoDangling(c: Codec, dir: seq<string>, doc: seq<string>, infos: seq<Info>, isFont: string -> bool,
                   digest: string -> string, mapping: map<string, string>, href: string)
    requires PlainParts(c, dir) && PlainParts(c, doc) && doc != [] && !isFont(MIMETYPE)
    requires MapOk(Fonts(infos, isFont), digest, mapping)
    requires var base := ZipDirName(PathOf(doc));
             Replaced(c, base, mapping, href) && PlainPath(c, mapping[Resolve(c, base, href)])
    ensures var base := ZipDirName(PathOf(doc));
            var kept := mapping[Resolve(c, base, href)];
            && (Resolve(c, base, RewrittenHref(c, "/" + PathOf(dir), base, mapping, href)) == kept <==> kept[0] != '.')
            && exists k :: 0 <= k < |infos| && infos[k].name == kept && !Skipped(infos[k], isFont, mapping)
  {
    var f := Resolve(c, ZipDirName(PathOf(doc)), href);
    KeptResolves(c, dir, doc, mapping[f]);
    KeptIsWritten(infos, isFont, digest, mapping, f);
  }

  lemma SuffixIgnored(c: Codec, base: string, href: string, fragment: string)
    requires '#' !in href && (fragment == "" || fragment[0] == '#')
    ensures Resolve(c, base, href + fragment) == Resolve(c, base, href)
  {
    NoIndex(href, '#');
    if fragment == "" {
      assert href + fragment == href;
    } else {
      assert href + fragment == href + ['#'] + fragment[1..];
      FirstIndexOf(href, '#', fragment[1..]);
      assert (href + fragment)[..|href|] == href[..|href|];
    }
  }

  /** The same for a style sheet's `url(...)`, whose fragment stays behind the rewritten path. */
  lemma NoDanglingUrl(c: Codec, dir: seq<string>, doc: seq<string>, infos: seq<Info>, isFont: string -> bool,
                      digest: string -> string, mapping: map<string, string>, url: string)
    requires PlainParts(c, dir) && PlainParts(c, doc) && doc != [] && !isFont(MIMETYPE)
    requires MapOk(Fonts(infos, isFont), digest, mapping)
    requires !Starts(url, "data:") && !Starts(url, "http://") && !Starts(url, "https://") && !Starts(url, "#")
    requires var base := ZipDirName(PathOf(doc));
             var path := url[..FirstIndex(url, '#')];
             Replaced(c, base, mapping, path) && PlainPath(c, mapping[Resolve(c, base, path)])
    ensures var base := ZipDirName(PathOf(doc));
            var path, fragment := url[..FirstIndex(url, '#')], url[FirstIndex(url, '#')..];
            var kept := mapping[Resolve(c, base, path)];
            var rewritten := RewrittenUrl(c, "/" + PathOf(dir), base, mapping, url);
            && (Resolve(c, base, rewritten) == kept <==> kept[0] != '.')
            && rewritten == RelativeHref("/" + PathOf(dir), base, kept) + fragment
            && exists k :: 0 <= k < |infos| && infos[k].name == kept && !Skipped(infos[k], isFont, mapping)
  {
    var base, k := ZipDirName(PathOf(doc)), FirstIndex(url, '#');
    var kept := mapping[Resolve(c, base, url[..k])];
    KeptResolves(c, dir, doc, kept);
    SuffixIgnored(c, base, RelativeHref("/" + PathOf(dir), base, kept), url[k..]);
    KeptIsWritten(infos, isFont, digest, mapping, Resolve(c, base, url[..k]));
  }

  /** A font kept in a directory whose name begins with a dot is not what its rewritten reference leads to. */
  lemma DottedKeptDangles()
    ensures Resolve(IDENTITY, "", RelativeHref("/", "", ".fonts/a.ttf")) != ".fonts/a.ttf"
  {
    var parts := [".fonts", "a.ttf"];
    SplitTwo();
    assert PlainPart(IDENTITY, ".fonts") && PlainPart(IDENTITY, "a.ttf");
    assert "/" + PathOf([]) == "/";
    RelativeHrefResolves(IDENTITY, [], [], parts);
  }

  lemma SplitTwo()
    ensures PathOf([".fonts", "a.ttf"]) == ".fonts/a.ttf"
  {
    PathAppend([".fonts"], ["a.ttf"]);
    PathOfOne(".fonts");
    PathOfOne("a.ttf");
    assert [".fonts"] + ["a.ttf"] == [".fonts", "a.ttf"];
  }
}
