/** Paths inside an EPUB archive: how a relative reference is resolved (transoria/formats/epub_paths.py) and
    how the font compressor writes one (transoria/tools/epub_compressor.py), with the parts of posixpath that
    they use. */
module EpubPaths {
  import opened Lists
  import opened Slashes

  // ---- decoding

  /** Percent decoding and Unicode normalization, as parameters. */
  datatype RawCodec = RawCodec(unquote: string -> string, nfc: string -> string)

  ghost predicate CodecSound(c: RawCodec) {
    && (forall s :: '%' !in s ==> c.unquote(s) == s)
    && (forall a, b :: c.nfc(a + "/" + b) == c.nfc(a) + "/" + c.nfc(b))
    && c.nfc(".") == "." && c.nfc("..") == ".."
  }

  const IDENTITY := RawCodec(s => s, s => s)

  type Codec = c: RawCodec | CodecSound(c) witness IDENTITY

  function ReplaceBackslashes(s: string): (r: string)
    ensures '\\' !in s ==> r == s
  {
    if s == "" then "" else [if s[0] == '\\' then '/' else s[0]] + ReplaceBackslashes(s[1..])
  }

  /** `decode_epub_href`. */
  function Decode(c: Codec, href: string): string {
    c.nfc(ReplaceBackslashes(c.unquote(href)))
  }

  /** `strip_href_suffix`. */
  function StripSuffix(href: string): string {
    var path := href[..FirstIndex(href, '#')];
    path[..FirstIndex(path, '?')]
  }

  // ---- posixpath

  function Join(a: string, b: string): string {
    if b != "" && b[0] == '/' then b
    else if a == "" || a[|a| - 1] == '/' then a + b
    else a + "/" + b
  }

  /** The loop of `normpath` over the components, with the ones kept so far. */
  function NormParts(parts: seq<string>, absolute: bool, kept: seq<string> := []): seq<string>
    decreases |parts|
  {
    if parts == [] then kept else
    var c, rest := parts[0], parts[1..];
    if c == "" || c == "." then NormParts(rest, absolute, kept)
    else if c != ".." || (!absolute && kept == []) || (kept != [] && kept[|kept| - 1] == "..")
    then NormParts(rest, absolute, kept + [c])
    else if kept != [] then NormParts(rest, absolute, kept[..|kept| - 1])
    else NormParts(rest, absolute, kept)
  }

  /** `"/".join(parts)`. */
  function PathOf(parts: seq<string>): string {
    if parts == [] then "" else parts[0] + JoinSlash(parts[1..])
  }

  function LeadingSlashes(path: string): string {
    if path == "" || path[0] != '/' then ""
    else if |path| >= 2 && path[1] == '/' && !(|path| >= 3 && path[2] == '/') then "//"
    else "/"
  }

  function NormPath(path: string): string {
    if path == "" then "." else
    var slashes := LeadingSlashes(path);
    var normal := slashes + PathOf(NormParts(Split(path, '/'), slashes != ""));
    if normal == "" then "." else normal
  }

  function CommonLength(a: seq<string>, b: seq<string>): (n: nat)
    ensures n <= |a| && n <= |b| && a[..n] == b[..n]
  {
    if a == [] || b == [] || a[0] != b[0] then 0
    else
      var n := 1 + CommonLength(a[1..], b[1..]);
      assert a[..n] == [a[0]] + a[1..][..n - 1] && b[..n] == [b[0]] + b[1..][..n - 1];
      n
  }

  function AbsParts(cwd: string, path: string): seq<string> {
    NonEmpty(Split(NormPath(Join(cwd, path)), '/'))
  }

  function Ups(n: nat): seq<string> {
    seq(n, _ => "..")
  }

  /** `relpath`, for a process that runs in `cwd`. */
  function RelPath(cwd: string, path: string, start: string): string {
    var parts := RelParts(AbsParts(cwd, start), AbsParts(cwd, path));
    if parts == [] then "." else PathOf(parts)
  }

  /** Up to the common directory, then down. */
  function RelParts(from: seq<string>, to: seq<string>): seq<string> {
    var n := CommonLength(from, to);
    Ups(|from| - n) + to[n..]
  }

  function AfterLastSlash(s: string): (i: nat)
    ensures i <= |s| && (i > 0 ==> s[i - 1] == '/') && forall j :: i <= j < |s| ==> s[j] != '/'
  {
    if s == "" then 0 else if s[|s| - 1] == '/' then |s| else AfterLastSlash(s[..|s| - 1])
  }

  function DirName(path: string): string {
    var head := path[..AfterLastSlash(path)];
    if StripEnd(head) == "" then head else StripEnd(head)
  }

  // ---- references

  /** `lstrip("./")`. */
  function StripDots(s: string): string {
    if s != "" && (s[0] == '.' || s[0] == '/') then StripDots(s[1..]) else s
  }

  /** `resolve_epub_href`. */
  function Resolve(c: Codec, base: string, href: string): string {
    var decoded := Decode(c, StripSuffix(href));
    if decoded != "" && decoded[0] == '/' then NormPath(StripStart(decoded))
    else StripDots(NormPath(Join(base, decoded)))
  }

  /** `_zip_dirname`. */
  function ZipDirName(filename: string): string {
    var parent := DirName(ReplaceBackslashes(filename));
    if parent == "." then "" else parent
  }

  /** `_relative_zip_href`. */
  function RelativeHref(cwd: string, base: string, target: string): string {
    if base == "" then target else RelPath(cwd, target, base)
  }

  // ---- plain names

  const SPECIAL: set<char> := {'/', '%', '#', '?', '\\'}

  /** A path component that no part of the code rewrites. */
  predicate PlainPart(c: Codec, s: string) {
    s != "" && s != "." && s != ".." && c.nfc(s) == s && forall i :: 0 <= i < |s| ==> s[i] !in SPECIAL
  }

  predicate PlainParts(c: Codec, parts: seq<string>) {
    forall i :: 0 <= i < |parts| ==> PlainPart(c, parts[i])
  }

  /** Components of a reference: plain ones and ways up. */
  predicate HrefParts(c: Codec, parts: seq<string>) {
    forall i :: 0 <= i < |parts| ==> PlainPart(c, parts[i]) || parts[i] == ".."
  }

  lemma HrefPart(c: Codec, s: string)
    requires PlainPart(c, s) || s == ".."
    ensures PlainStep(s) && c.nfc(s) == s && forall i :: 0 <= i < |s| ==> s[i] !in SPECIAL
  {
  }

  lemma PathOfCons(first: string, rest: seq<string>)
    ensures PathOf([first] + rest) == first + JoinSlash(rest)
    ensures rest != [] ==> PathOf([first] + rest) == first + "/" + PathOf(rest)
  {
    assert ([first] + rest)[1..] == rest;
    if rest != [] { Associate(first, rest[0], JoinSlash(rest[1..])); }
  }

  lemma Associate(a: string, b: string, c: string)
    ensures a + ("/" + b + c) == a + "/" + (b + c)
  {
  }

  lemma {:induction false} SplitPath(parts: seq<string>)
    requires parts != [] && forall i :: 0 <= i < |parts| ==> PlainStep(parts[i])
    ensures Split(PathOf(parts), '/') == parts && PathOf(parts) != "" && PathOf(parts)[0] != '/'
    ensures PathOf(parts)[|PathOf(parts)| - 1] != '/'
  {
    SplitJoin(parts[0], parts[1..]);
    JoinSlashEnd(parts[0], parts[1..]);
    assert [parts[0]] + parts[1..] == parts;
  }

  lemma {:induction false} PathAppend(a: seq<string>, b: seq<string>)
    requires a != [] && b != []
    ensures PathOf(a + b) == PathOf(a) + "/" + PathOf(b)
  {
    var rest := a[1..];
    assert a == [a[0]] + rest;
    if rest == [] {
      PathOfCons(a[0], b);
      PathOfCons(a[0], []);
      assert a + b == [a[0]] + b && JoinSlash([]) == "" && a[0] + "" == a[0];
    } else {
      PathAppend(rest, b);
      PathOfCons(a[0], rest + b);
      PathOfCons(a[0], rest);
      assert a + b == [a[0]] + (rest + b);
      assert a[0] + "/" + (PathOf(rest) + "/" + PathOf(b)) == (a[0] + "/" + PathOf(rest)) + "/" + PathOf(b);
    }
  }

  lemma {:induction false} HrefClean(c: Codec, parts: seq<string>)
    requires parts != [] && HrefParts(c, parts)
    ensures var s := PathOf(parts); c.nfc(s) == s && '%' !in s && '#' !in s && '?' !in s && '\\' !in s
  {
    HrefPart(c, parts[0]);
    var rest := parts[1..];
    assert parts == [parts[0]] + rest;
    PathOfCons(parts[0], rest);
    if rest == [] {
      assert JoinSlash([]) == "" && parts[0] + "" == parts[0];
    } else {
      HrefClean(c, rest);
    }
  }

  lemma NoIndex(s: string, x: char)
    requires x !in s
    ensures FirstIndex(s, x) == |s|
  {
    FirstIndexOf(s, x, "");
  }

  lemma {:induction false} NoBackslashes(s: string)
    requires '\\' !in s
    ensures ReplaceBackslashes(s) == s
  {
  }

  /** A clean reference decodes to itself. */
  lemma DecodesToItself(c: Codec, parts: seq<string>)
    requires parts != [] && HrefParts(c, parts)
    ensures Decode(c, StripSuffix(PathOf(parts))) == PathOf(parts)
  {
    var s := PathOf(parts);
    HrefClean(c, parts);
    NoIndex(s, '#');
    NoIndex(s, '?');
    assert s[..|s|] == s;
    NoBackslashes(s);
  }

  // ---- normalizing

  /** Plain components are pushed. */
  lemma {:induction false} NormPlain(c: Codec, parts: seq<string>, rest: seq<string>, absolute: bool, kept: seq<string>)
    requires PlainParts(c, parts)
    ensures NormParts(parts + rest, absolute, kept) == NormParts(rest, absolute, kept + parts)
    decreases |parts|
  {
    if parts == [] {
      assert parts + rest == rest && kept + parts == kept;
    } else {
      assert (parts + rest)[1..] == parts[1..] + rest;
      NormPlain(c, parts[1..], rest, absolute, kept + [parts[0]]);
      assert kept + [parts[0]] + parts[1..] == kept + parts;
    }
  }

  /** Ways up pop. */
  lemma {:induction false} NormUps(c: Codec, n: nat, rest: seq<string>, absolute: bool, kept: seq<string>)
    requires n <= |kept| && PlainParts(c, kept)
    ensures NormParts(Ups(n) + rest, absolute, kept) == NormParts(rest, absolute, kept[..|kept| - n])
  {
    if n == 0 {
      assert Ups(0) + rest == rest && kept[..|kept|] == kept;
    } else {
      assert (Ups(n) + rest)[1..] == Ups(n - 1) + rest;
      assert kept[|kept| - 1] != "..";
      NormUps(c, n - 1, rest, absolute, kept[..|kept| - 1]);
      assert kept[..|kept| - 1][..|kept| - 1 - (n - 1)] == kept[..|kept| - n];
    }
  }

  lemma PlainIsStep(c: Codec, parts: seq<string>)
    requires HrefParts(c, parts)
    ensures forall i :: 0 <= i < |parts| ==> PlainStep(parts[i])
  {
    forall i | 0 <= i < |parts| ensures PlainStep(parts[i]) { HrefPart(c, parts[i]); }
  }

  lemma DetourParts(c: Codec, base: seq<string>, n: nat, down: seq<string>)
    requires PlainParts(c, base) && n <= |base| && PlainParts(c, down)
    ensures NormParts(base + Ups(n) + down, false) == base[..|base| - n] + down
  {
    assert base + Ups(n) + down == base + (Ups(n) + down) && [] + base == base;
    NormPlain(c, base, Ups(n) + down, false, []);
    NormUps(c, n, down, false, base);
    assert down + [] == down;
    NormPlain(c, down, [], false, base[..|base| - n]);
  }

  /** A relative path of good components is normalized component by component. */
  lemma NormRelative(parts: seq<string>, normal: seq<string>)
    requires parts != [] && forall i :: 0 <= i < |parts| ==> PlainStep(parts[i])
    requires NormParts(parts, false) == normal && PathOf(normal) != ""
    ensures NormPath(PathOf(parts)) == PathOf(normal)
  {
    SplitPath(parts);
    assert "" + PathOf(normal) == PathOf(normal);
  }

  /** From a directory, up, and down again. */
  lemma NormDetour(c: Codec, base: seq<string>, n: nat, down: seq<string>)
    requires PlainParts(c, base) && n <= |base| && PlainParts(c, down)
    requires base[..|base| - n] + down != [] && base + Ups(n) + down != []
    ensures NormPath(PathOf(base + Ups(n) + down)) == PathOf(base[..|base| - n] + down)
  {
    var parts, normal := base + Ups(n) + down, base[..|base| - n] + down;
    DetourParts(c, base, n, down);
    PlainIsStep(c, parts);
    PlainIsStep(c, normal);
    SplitPath(normal);
    NormRelative(parts, normal);
  }

  // ---- resolving what was made relative

  lemma StripDotsOnce(s: string)
    requires s != "" && s[0] != '/'
    ensures StripDots(s) == s <==> s[0] != '.'
  {
    StripDotsShrinks(s);
    if s[0] == '.' { StripDotsShrinks(s[1..]); }
  }

  lemma {:induction false} StripDotsShrinks(s: string)
    ensures |StripDots(s)| <= |s|
  {
    if s != "" && (s[0] == '.' || s[0] == '/') { StripDotsShrinks(s[1..]); }
  }

  lemma JoinHref(base: seq<string>, href: seq<string>)
    requires href != [] && (forall i :: 0 <= i < |base| ==> PlainStep(base[i]))
    requires forall i :: 0 <= i < |href| ==> PlainStep(href[i])
    ensures Join(PathOf(base), PathOf(href)) == PathOf(base + href)
  {
    SplitPath(href);
    if base == [] {
      assert base + href == href && "" + PathOf(href) == PathOf(href);
    } else {
      SplitPath(base);
      PathAppend(base, href);
    }
  }

  /** A reference of ways up and plain names, resolved from a plain directory. */
  lemma ResolveDetour(c: Codec, base: seq<string>, n: nat, down: seq<string>)
    requires PlainParts(c, base) && n <= |base| && PlainParts(c, down)
    requires base[..|base| - n] + down != [] && Ups(n) + down != []
    ensures Resolve(c, PathOf(base), PathOf(Ups(n) + down)) == StripDots(PathOf(base[..|base| - n] + down))
  {
    var href := Ups(n) + down;
    UpsAreHref(c, n, down);
    ResolveHref(c, base, href);
    Assoc(base, Ups(n), down);
    NormDetour(c, base, n, down);
  }

  lemma UpsAreHref(c: Codec, n: nat, down: seq<string>)
    requires PlainParts(c, down)
    ensures HrefParts(c, Ups(n) + down)
  {
  }

  lemma ResolveHref(c: Codec, base: seq<string>, href: seq<string>)
    requires PlainParts(c, base) && HrefParts(c, href) && href != []
    ensures Resolve(c, PathOf(base), PathOf(href)) == StripDots(NormPath(PathOf(base + href)))
  {
    PlainIsStep(c, href);
    PlainIsStep(c, base);
    DecodesToItself(c, href);
    SplitPath(href);
    JoinHref(base, href);
  }

  lemma NormAbsolute(c: Codec, all: seq<string>)
    requires PlainParts(c, all) && all != []
    ensures NormPath("/" + PathOf(all)) == "/" + PathOf(all)
  {
    PlainIsStep(c, all);
    AbsoluteSplit(all);
    assert ([""] + all)[1..] == all && all + [] == all && [] + all == all;
    NormPlain(c, all, [], true, []);
  }

  /** An absolute path of plain components, split again. */
  lemma AbsoluteParts(c: Codec, dir: seq<string>, parts: seq<string>)
    requires PlainParts(c, dir) && PlainParts(c, parts) && parts != []
    ensures AbsParts("/" + PathOf(dir), PathOf(parts)) == dir + parts
  {
    PlainIsStep(c, dir + parts);
    PlainIsStep(c, parts);
    PlainIsStep(c, dir);
    SplitPath(parts);
    if dir != [] { SplitPath(dir); }
    AbsoluteJoin(dir, parts);
    NormAbsolute(c, dir + parts);
    NonEmptyAbsolute(dir + parts);
  }

  lemma AbsoluteJoin(dir: seq<string>, parts: seq<string>)
    requires parts != [] && PathOf(parts) != "" && PathOf(parts)[0] != '/'
    requires dir != [] ==> PathOf(dir) != "" && PathOf(dir)[|PathOf(dir)| - 1] != '/'
    requires forall i :: 0 <= i < |dir| ==> PlainStep(dir[i])
    ensures Join("/" + PathOf(dir), PathOf(parts)) == "/" + PathOf(dir + parts)
  {
    JoinBehind(PathOf(dir), PathOf(parts));
    if dir == [] { EmptyConcat(parts); } else { PathAppend(dir, parts); }
  }

  lemma JoinBehind(a: string, b: string)
    requires b != "" && b[0] != '/' && (a != "" ==> a[|a| - 1] != '/')
    ensures Join("/" + a, b) == "/" + if a == "" then b else a + "/" + b
  {
    if a == "" {
      EmptyConcat("/");
    } else {
      assert ("/" + a)[|"/" + a| - 1] == a[|a| - 1];
      Assoc("/", a, "/");
      Assoc("/", a + "/", b);
    }
  }

  lemma AbsoluteSplit(all: seq<string>)
    requires all != [] && forall i :: 0 <= i < |all| ==> PlainStep(all[i])
    ensures Split("/" + PathOf(all), '/') == [""] + all
    ensures LeadingSlashes("/" + PathOf(all)) == "/"
  {
    SplitPath(all);
    var path := "/" + PathOf(all);
    assert FirstIndex(path, '/') == 0;
    assert path[1..] == PathOf(all) && path[..0] == "";
  }

  lemma NonEmptyAbsolute(all: seq<string>)
    requires all != [] && forall i :: 0 <= i < |all| ==> PlainStep(all[i])
    ensures NonEmpty(Split("/" + PathOf(all), '/')) == all
  {
    AbsoluteSplit(all);
    assert ([""] + all)[1..] == all;
    NonEmptyPlain(all);
  }

  lemma {:induction false} CommonOfPrefix(c: seq<string>, a: seq<string>, b: seq<string>)
    ensures CommonLength(c + a, c + b) == |c| + CommonLength(a, b)
  {
    if c == [] {
      assert c + a == a && c + b == b;
    } else {
      assert (c + a)[1..] == c[1..] + a && (c + b)[1..] == c[1..] + b;
      CommonOfPrefix(c[1..], a, b);
    }
  }

  lemma SameRelParts(dir: seq<string>, base: seq<string>, target: seq<string>)
    ensures RelParts(dir + base, dir + target) == RelParts(base, target)
  {
    CommonOfPrefix(dir, base, target);
    var n := CommonLength(base, target);
    assert (dir + target)[|dir| + n..] == target[n..];
  }

  /** The relative reference written for a target does not depend on the working directory. */
  lemma RelativeParts(c: Codec, dir: seq<string>, base: seq<string>, target: seq<string>)
    requires PlainParts(c, dir) && PlainParts(c, base) && base != [] && PlainParts(c, target) && target != []
    ensures var parts := RelParts(base, target);
            && RelPath("/" + PathOf(dir), PathOf(target), PathOf(base)) == (if parts == [] then "." else PathOf(parts))
            && HrefParts(c, parts)
  {
    AbsoluteParts(c, dir, base);
    AbsoluteParts(c, dir, target);
    SameRelParts(dir, base, target);
    RelPartsPlain(c, base, target);
  }

  lemma RelPartsPlain(c: Codec, base: seq<string>, target: seq<string>)
    requires PlainParts(c, target)
    ensures HrefParts(c, RelParts(base, target))
  {
  }

  lemma HereParts(c: Codec, base: seq<string>)
    requires PlainParts(c, base)
    ensures NormParts(base + ["."], false) == base
  {
    NormPlain(c, base, ["."], false, []);
    assert [] + base == base && ["."][1..] == [];
  }

  lemma DecodeHere(c: Codec)
    ensures Decode(c, StripSuffix(".")) == "." && PathOf(["."]) == "."
  {
    NoIndex(".", '#');
    NoIndex(".", '?');
    assert "."[..1] == ".";
    PathOfCons(".", []);
    assert [] + ["."] == ["."] && "." + "" == ".";
  }

  lemma ResolveHere(c: Codec, base: seq<string>)
    requires PlainParts(c, base) && base != []
    ensures Resolve(c, PathOf(base), ".") == StripDots(PathOf(base))
  {
    PlainIsStep(c, base);
    SplitPath(base);
    DecodeHere(c);
    JoinHref(base, ["."]);
    HereParts(c, base);
    NormRelative(base + ["."], base);
  }

  lemma ResolveRelParts(c: Codec, base: seq<string>, target: seq<string>)
    requires PlainParts(c, base) && base != [] && PlainParts(c, target) && target != []
    ensures var parts := RelParts(base, target);
            Resolve(c, PathOf(base), if parts == [] then "." else PathOf(parts)) == StripDots(PathOf(target))
  {
    var n := CommonLength(base, target);
    TakeDrop(target, n);
    if RelParts(base, target) == [] {
      SameDirectory(base, target, n);
      ResolveHere(c, base);
    } else {
      BelowCommon(c, base, target, n);
    }
  }

  lemma SameDirectory(base: seq<string>, target: seq<string>, n: nat)
    requires n <= |base| && n <= |target| && base[..n] == target[..n] && Ups(|base| - n) + target[n..] == []
    ensures base == target
  {
    assert n == |base| && n == |target|;
    assert base[..n] == base && target[..n] == target;
  }

  lemma BelowCommon(c: Codec, base: seq<string>, target: seq<string>, n: nat)
    requires PlainParts(c, base) && PlainParts(c, target) && target != []
    requires n <= |base| && n <= |target| && base[..n] == target[..n] && Ups(|base| - n) + target[n..] != []
    ensures Resolve(c, PathOf(base), PathOf(Ups(|base| - n) + target[n..])) == StripDots(PathOf(target))
  {
    TakeDrop(target, n);
    assert PlainParts(c, target[n..]);
    ResolveDetour(c, base, |base| - n, target[n..]);
  }

  /** Resolving the rewritten reference from its own directory gives the target, exactly if the target's
      first component does not begin with a dot. */
  lemma RelativeHrefResolves(c: Codec, dir: seq<string>, base: seq<string>, target: seq<string>)
    requires PlainParts(c, dir) && PlainParts(c, base) && PlainParts(c, target) && target != []
    ensures Resolve(c, PathOf(base), RelativeHref("/" + PathOf(dir), PathOf(base), PathOf(target))) == PathOf(target)
            <==> target[0][0] != '.'
  {
    PlainIsStep(c, target);
    SplitPath(target);
    StripDotsOnce(PathOf(target));
    assert PathOf(target)[0] == target[0][0];
    if base == [] {
      assert Ups(0) + target == target && base[..0] + target == target;
      ResolveDetour(c, base, 0, target);
    } else {
      PlainIsStep(c, base);
      SplitPath(base);
      RelativeParts(c, dir, base, target);
      ResolveRelParts(c, base, target);
    }
  }

  lemma NotDot(c: Codec, parts: seq<string>)
    requires PlainParts(c, parts) && parts != []
    ensures PathOf(parts) != "."
  {
    PlainIsStep(c, parts);
    SplitPath(parts);
    NoIndex(".", '/');
    assert Split(".", '/') == ["."];
    assert ["."][0] == "." && PlainPart(c, parts[0]);
  }

  lemma DirNameOf(init: string, last: string)
    requires PlainStep(last) && init != "" && init[|init| - 1] != '/'
    ensures DirName(init + "/" + last) == init
  {
    var head := init + "/";
    LastSlash(head, last);
    assert (head + last)[..|head|] == head && head[..|head| - 1] == init;
    assert StripEnd(head) == StripEnd(init) == init;
  }

  /** The directory of a plain file name. */
  lemma DirectoryOf(c: Codec, doc: seq<string>)
    requires PlainParts(c, doc) && doc != []
    ensures ZipDirName(PathOf(doc)) == PathOf(doc[..|doc| - 1])
  {
    var init, last := doc[..|doc| - 1], doc[|doc| - 1];
    PlainIsStep(c, doc);
    HrefClean(c, doc);
    NoBackslashes(PathOf(doc));
    assert doc == init + [last];
    PathOfOne(last);
    if init == [] {
      LastSlash("", last);
      assert doc == [last] && "" + last == last && last[..0] == "";
    } else {
      PathAppend(init, [last]);
      DirectoryBelow(c, init, last);
    }
  }

  lemma PathOfOne(last: string)
    ensures PathOf([last]) == last
  {
    assert last + "" == last;
  }

  lemma DirectoryBelow(c: Codec, init: seq<string>, last: string)
    requires PlainParts(c, init) && init != [] && PlainStep(last)
    ensures DirName(PathOf(init) + "/" + last) == PathOf(init) != "."
  {
    PlainIsStep(c, init);
    SplitPath(init);
    DirNameOf(PathOf(init), last);
    NotDot(c, init);
  }

  lemma {:induction false} LastSlash(head: string, last: string)
    requires PlainStep(last) && (head == "" || head[|head| - 1] == '/')
    ensures AfterLastSlash(head + last) == |head|
  {
    var s := head + last;
    var i := AfterLastSlash(s);
    assert forall j :: |head| <= j < |s| ==> s[j] == last[j - |head|];
    if head != "" { assert s[|head| - 1] == '/'; }
  }
}
