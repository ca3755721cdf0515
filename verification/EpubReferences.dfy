/** References as books write them: percent-encoded, with backslashes, with a query or a fragment behind. Whatever the
    spelling, a reference to a font is recognized (transoria/formats/epub_paths.py, transoria/tools/epub_compressor.py). */
module EpubReferences {
  import opened EpubPaths
  import opened FontDedup
  import opened Lists
  import opened Slashes
  import opened TextRules

  /** Unquoted, `body` is `plain` but for backslashes in place of slashes, and `plain` is `path` but for Unicode
      normalization. */
  ghost predicate Spells(c: Codec, body: string, plain: string, path: string) {
    var decoded := c.unquote(body);
    && '#' !in body && '?' !in body && |plain| == |decoded|
    && (forall i :: 0 <= i < |decoded| ==> plain[i] == if decoded[i] == '\\' then '/' else decoded[i])
    && c.nfc(plain) == path
  }

  /** What may follow the path in a reference. */
  predicate IsSuffix(suffix: string) {
    suffix == "" || suffix[0] == '#' || suffix[0] == '?'
  }

  lemma {:induction false} SlashesPut(decoded: string, plain: string)
    requires |plain| == |decoded|
    requires forall i :: 0 <= i < |decoded| ==> plain[i] == if decoded[i] == '\\' then '/' else decoded[i]
    ensures ReplaceBackslashes(decoded) == plain
  {
    if decoded != "" {
      SlashesPut(decoded[1..], plain[1..]);
      Uncons(plain);
    }
  }

  lemma IndexBehind(body: string, x: char, rest: string)
    requires x !in body
    ensures FirstIndex(body + [x] + rest, x) == |body| && FirstIndex(body, x) == |body|
  {
    FirstIndexOf(body, x, rest);
  }

  lemma QueryStripped(body: string, query: string)
    requires '?' !in body && (query == "" || query[0] == '?')
    ensures var path := body + query; path[..FirstIndex(path, '?')] == body
  {
    NoIndex(body, '?');
    if query == "" {
      EmptyConcat(body);
    } else {
      Uncons(query);
      Assoc(body, ['?'], query[1..]);
      IndexBehind(body, '?', query[1..]);
    }
  }

  lemma {:induction false} IndexShift(body: string, x: char, suffix: string)
    requires x !in body
    ensures FirstIndex(body + suffix, x) == |body| + FirstIndex(suffix, x)
  {
    if body == "" {
      EmptyConcat(suffix);
    } else {
      TailOfConcat(body, suffix);
      IndexShift(body[1..], x, suffix);
    }
  }

  lemma SuffixStripped(body: string, suffix: string)
    requires '#' !in body && '?' !in body && IsSuffix(suffix)
    ensures StripSuffix(body + suffix) == body
  {
    var k := FirstIndex(suffix, '#');
    IndexShift(body, '#', suffix);
    assert (body + suffix)[..|body| + k] == body + suffix[..k];
    QueryStripped(body, suffix[..k]);
  }

  lemma SpellingDecodes(c: Codec, body: string, plain: string, path: string, suffix: string)
    requires Spells(c, body, plain, path) && IsSuffix(suffix)
    ensures Decode(c, StripSuffix(body + suffix)) == path
  {
    SuffixStripped(body, suffix);
    SlashesPut(c.unquote(body), plain);
  }

  /** However it is spelled, a reference that goes `n` directories up and then down `down` is resolved to the path
      meant, exactly if that does not begin with a dot. */
  lemma SpellingResolves(c: Codec, base: seq<string>, n: nat, down: seq<string>, body: string, plain: string, suffix: string)
    requires PlainParts(c, base) && n <= |base| && PlainParts(c, down) && Ups(n) + down != []
    requires base[..|base| - n] + down != [] && Spells(c, body, plain, PathOf(Ups(n) + down)) && IsSuffix(suffix)
    ensures var target := base[..|base| - n] + down;
            Resolve(c, PathOf(base), body + suffix) == PathOf(target) <==> target[0][0] != '.'
  {
    var target := base[..|base| - n] + down;
    SpellingDecodes(c, body, plain, PathOf(Ups(n) + down), suffix);
    UpsAreHref(c, n, down);
    DecodesToItself(c, Ups(n) + down);
    ResolveDetour(c, base, n, down);
    PlainIsStep(c, target);
    SplitPath(target);
    StripDotsOnce(PathOf(target));
  }

  /** A reference from the root of the archive is resolved to the path meant, dots or not. */
  lemma RootedSpellingResolves(c: Codec, base: string, target: seq<string>, body: string, plain: string, suffix: string)
    requires PlainParts(c, target) && target != [] && Spells(c, body, plain, "/" + PathOf(target)) && IsSuffix(suffix)
    ensures Resolve(c, base, body + suffix) == PathOf(target)
  {
    SpellingDecodes(c, body, plain, "/" + PathOf(target), suffix);
    PlainIsStep(c, target);
    SplitPath(target);
    assert ("/" + PathOf(target))[1..] == PathOf(target) && StripStart(PathOf(target)) == PathOf(target);
    assert StripStart("/" + PathOf(target)) == PathOf(target);
    EmptyConcat(target);
    NormPlain(c, target, [], false, []);
    NormRelative(target, target);
  }

  // ---- fonts

  /** A reference, resolved to a font, is rewritten to the first font of equal content exactly if that is another. */
  lemma FollowsFont(c: Codec, cwd: string, base: string, fonts: seq<string>, digest: string -> string,
                    mapping: map<string, string>, href: string, font: string, kept: string)
    requires MapOk(fonts, digest, mapping) && font in fonts && Resolve(c, base, href) == font
    requires kept in fonts && digest(kept) == digest(font) && kept != ""
    requires forall i, k :: 0 <= i < k < |fonts| && fonts[k] == kept ==> digest(fonts[i]) != digest(font) || fonts[i] == kept
    ensures RewrittenHref(c, cwd, base, mapping, href) == if kept == font then href else RelativeHref(cwd, base, kept)
  {
    FirstIs(fonts, digest, digest(font), kept);
  }

  lemma {:induction false} FirstIs(fonts: seq<string>, digest: string -> string, d: string, kept: string)
    requires kept in fonts && digest(kept) == d
    requires forall i, k :: 0 <= i < k < |fonts| && fonts[k] == kept ==> digest(fonts[i]) != d || fonts[i] == kept
    ensures FirstWith(fonts, digest, d) == Some(kept)
  {
    if fonts[0] != kept {
      var rest := fonts[1..];
      var k :| 0 <= k < |fonts| && fonts[k] == kept;
      assert rest[k - 1] == kept && digest(fonts[0]) != d;
      FirstIs(rest, digest, d, kept);
    }
  }

  /** However a book refers to a font whose content an earlier one has, the reference is rewritten to that one. */
  lemma DuplicateFollowed(c: Codec, cwd: string, base: seq<string>, n: nat, down: seq<string>, body: string, plain: string,
                          suffix: string, fonts: seq<string>, digest: string -> string, mapping: map<string, string>,
                          kept: string)
    requires PlainParts(c, base) && n <= |base| && PlainParts(c, down) && Ups(n) + down != []
    requires base[..|base| - n] + down != [] && Spells(c, body, plain, PathOf(Ups(n) + down)) && IsSuffix(suffix)
    requires (base[..|base| - n] + down)[0][0] != '.'
    requires var font := PathOf(base[..|base| - n] + down);
             && MapOk(fonts, digest, mapping) && font in fonts && kept in fonts && digest(kept) == digest(font) && kept != ""
             && forall i, k :: 0 <= i < k < |fonts| && fonts[k] == kept ==> digest(fonts[i]) != digest(font) || fonts[i] == kept
    ensures var font := PathOf(base[..|base| - n] + down);
            RewrittenHref(c, cwd, PathOf(base), mapping, body + suffix)
            == if kept == font then body + suffix else RelativeHref(cwd, PathOf(base), kept)
  {
    SpellingResolves(c, base, n, down, body, plain, suffix);
    FollowsFont(c, cwd, PathOf(base), fonts, digest, mapping, body + suffix, PathOf(base[..|base| - n] + down), kept);
  }
}
