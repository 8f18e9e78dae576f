/**
  Building the script and stylesheet references for the sorted chunks:
  public-path normalisation, the cache-busting hash suffix, the `.js` / `.css`
  classification of file names and the two tag lists.
*/
module References {
  import opened Wrappers
  import opened Chunks

  /**
    The public path prefix: empty when the configured value is absent or empty,
    otherwise the configured value with a `/` added unless it already ends in one.
  */
  function NormalizePublicPath(configured: Option<string>): (r: string)
    ensures configured.None? || configured.value == "" ==> r == ""
    ensures configured.Some? && configured.value != "" ==>
      && |r| > 0 && r[|r| - 1] == '/'
      && configured.value <= r
      && (configured.value[|configured.value| - 1] == '/' ==> r == configured.value)
      && (configured.value[|configured.value| - 1] != '/' ==> |r| == |configured.value| + 1)
  {
    var p := if configured.Some? then configured.value else "";
    if p != "" && p[|p| - 1] != '/' then p + "/" else p
  }

  /**
    `path` followed by the hash as a query parameter: introduced by `?` when `path`
    has no query string yet, and by `&` when it has one.
  */
  function AppendHash(path: string, hash: string): (r: string)
    ensures |r| == |path| + 1 + |hash|
    ensures r[..|path|] == path && r[|path| + 1..] == hash
    ensures r[|path|] == (if '?' in path then '&' else '?')
    ensures '?' in r
  {
    path + (if '?' !in path then "?" else "&") + hash
  }

  /** `ext` occurs at `i` in `file` and is followed by the end of the name or by `?`. */
  ghost predicate ExtensionAt(file: string, ext: string, i: int) {
    && 0 <= i && i + |ext| <= |file|
    && file[i..i + |ext|] == ext
    && (i + |ext| == |file| || file[i + |ext|] == '?')
  }

  /** Scans `file` from `from` for `ext` followed by end-of-name or `?` (the tests `/\.js($|\?)/` and `/\.css($|\?)/`). */
  function HasExtension(file: string, ext: string, from: nat): (b: bool)
    requires from <= |file|
    ensures b <==> exists i :: from <= i && ExtensionAt(file, ext, i)
    decreases |file| - from
  {
    if from + |ext| > |file| then false
    else if file[from..from + |ext|] == ext && (from + |ext| == |file| || file[from + |ext|] == '?') then
      assert ExtensionAt(file, ext, from);
      true
    else HasExtension(file, ext, from + 1)
  }

  /** What a file contributes: a script tag, a stylesheet link, or nothing. */
  datatype TagKind = Script | Stylesheet | Ignored

  /** The `.js` test runs first, so a name matching both counts as a script. */
  function Classify(file: string): (k: TagKind)
    ensures k == Script <==> exists i :: ExtensionAt(file, ".js", i)
    ensures k == Stylesheet <==> (!exists i :: ExtensionAt(file, ".js", i)) && (exists i :: ExtensionAt(file, ".css", i))
    ensures k == Ignored <==> (!exists i :: ExtensionAt(file, ".js", i)) && (!exists i :: ExtensionAt(file, ".css", i))
  {
    if HasExtension(file, ".js", 0) then Script
    else if HasExtension(file, ".css", 0) then Stylesheet
    else Ignored
  }

  /** The reference to `file`: the public path, then the file name, with the chunk hash appended when hashing is on. */
  function Reference(publicPath: string, hashOn: bool, file: string, chunkHash: string): (r: string)
    ensures publicPath + file <= r
    ensures !hashOn ==> r == publicPath + file
    ensures hashOn ==> r == publicPath + AppendHash(file, chunkHash)
  {
    publicPath + (if hashOn then AppendHash(file, chunkHash) else file)
  }

  function ScriptTag(src: string): string {
    "<script type=\"text/javascript\" src=\"" + src + "\"></script>"
  }

  function LinkTag(href: string): string {
    "<link href=\"" + href + "\" rel=\"stylesheet\" />"
  }

  /** One output file of a chunk, with the hash of the chunk it belongs to. */
  datatype Asset = Asset(file: string, chunkHash: string)

  /** The assets of one chunk, in its file order. */
  function ChunkAssets(c: Chunk): (r: seq<Asset>)
    ensures |r| == |c.files|
    ensures forall k :: 0 <= k < |r| ==> r[k] == Asset(c.files[k], c.hash)
  {
    seq(|c.files|, k requires 0 <= k < |c.files| => Asset(c.files[k], c.hash))
  }

  /** The assets of all chunks: chunk order first, then each chunk's file order. */
  function Assets(chunks: seq<Chunk>): seq<Asset> {
    if chunks == [] then []
    else Assets(chunks[..|chunks| - 1]) + ChunkAssets(chunks[|chunks| - 1])
  }

  /** The tag one asset yields for `kind`: present only when the asset is of that kind. */
  function TagFor(kind: TagKind, a: Asset, publicPath: string, hashOn: bool): seq<string> {
    if Classify(a.file) != kind then []
    else
      match kind
      case Script => [ScriptTag(Reference(publicPath, hashOn, a.file, a.chunkHash))]
      case Stylesheet => [LinkTag(Reference(publicPath, hashOn, a.file, a.chunkHash))]
      case Ignored => []
  }

  /** The tags of `kind` for `assets`, in asset order. */
  function Tags(kind: TagKind, assets: seq<Asset>, publicPath: string, hashOn: bool): seq<string> {
    if assets == [] then []
    else Tags(kind, assets[..|assets| - 1], publicPath, hashOn) + TagFor(kind, assets[|assets| - 1], publicPath, hashOn)
  }

  /** Tags of a concatenation are the tags of the first part followed by those of the second. */
  lemma {:induction false} TagsAppend(kind: TagKind, xs: seq<Asset>, ys: seq<Asset>, publicPath: string, hashOn: bool)
    ensures Tags(kind, xs + ys, publicPath, hashOn) == Tags(kind, xs, publicPath, hashOn) + Tags(kind, ys, publicPath, hashOn)
    decreases |ys|
  {
    if ys == [] {
      assert xs + ys == xs;
    } else {
      var ys' := ys[..|ys| - 1];
      assert (xs + ys)[..|xs + ys| - 1] == xs + ys';
      TagsAppend(kind, xs, ys', publicPath, hashOn);
    }
  }

  /** A single asset yields exactly one tag of its own kind (script or stylesheet) and none of any other kind. */
  lemma TagsSingle(kind: TagKind, a: Asset, publicPath: string, hashOn: bool)
    ensures |Tags(kind, [a], publicPath, hashOn)| == if Classify(a.file) == kind && kind != Ignored then 1 else 0
    ensures Classify(a.file) == Script && kind == Script ==>
      Tags(kind, [a], publicPath, hashOn) == [ScriptTag(Reference(publicPath, hashOn, a.file, a.chunkHash))]
    ensures Classify(a.file) == Stylesheet && kind == Stylesheet ==>
      Tags(kind, [a], publicPath, hashOn) == [LinkTag(Reference(publicPath, hashOn, a.file, a.chunkHash))]
  {
    assert [a][..0] == [];
  }

  lemma TagsStep(kind: TagKind, xs: seq<Asset>, a: Asset, publicPath: string, hashOn: bool)
    ensures Tags(kind, xs + [a], publicPath, hashOn) == Tags(kind, xs, publicPath, hashOn) + TagFor(kind, a, publicPath, hashOn)
  {
    assert (xs + [a])[..|xs|] == xs;
  }

  /** The tags one file yields, stated through the two tests in the order the loop applies them. */
  lemma TagForFile(file: string, chunkHash: string, publicPath: string, hashOn: bool)
    ensures var path := publicPath + (if hashOn then AppendHash(file, chunkHash) else file);
      && TagFor(Script, Asset(file, chunkHash), publicPath, hashOn) ==
         (if HasExtension(file, ".js", 0) then [ScriptTag(path)] else [])
      && TagFor(Stylesheet, Asset(file, chunkHash), publicPath, hashOn) ==
         (if !HasExtension(file, ".js", 0) && HasExtension(file, ".css", 0) then [LinkTag(path)] else [])
  {
  }

  lemma PrefixStep<T>(s: seq<T>, j: nat)
    requires j < |s|
    ensures s[..j + 1] == s[..j] + [s[j]]
  {
  }

  lemma AssetsStep(chunks: seq<Chunk>, i: nat)
    requires i < |chunks|
    ensures Assets(chunks[..i + 1]) == Assets(chunks[..i]) + ChunkAssets(chunks[i])
  {
    assert chunks[..i + 1][..i] == chunks[..i];
  }

  /** One file: pushed as a script when it passes the `.js` test, else as a stylesheet when it passes the `.css` test. */
  method PushFileTag(file: string, chunkHash: string, publicPath: string, hashOn: bool, head0: seq<string>, body0: seq<string>)
    returns (headTags: seq<string>, bodyTags: seq<string>)
    ensures headTags == head0 + TagFor(Stylesheet, Asset(file, chunkHash), publicPath, hashOn)
    ensures bodyTags == body0 + TagFor(Script, Asset(file, chunkHash), publicPath, hashOn)
  {
    headTags, bodyTags := head0, body0;
    var path := publicPath + (if hashOn then AppendHash(file, chunkHash) else file);
    TagForFile(file, chunkHash, publicPath, hashOn);
    if HasExtension(file, ".js", 0) {
      bodyTags := bodyTags + [ScriptTag(path)];
    } else if HasExtension(file, ".css", 0) {
      headTags := headTags + [LinkTag(path)];
    }
  }

  /** The inner loop: the tags one chunk's files yield, in file order. */
  method ChunkTags(chunk: Chunk, publicPath: string, hashOn: bool) returns (headTags: seq<string>, bodyTags: seq<string>)
    ensures headTags == Tags(Stylesheet, ChunkAssets(chunk), publicPath, hashOn)
    ensures bodyTags == Tags(Script, ChunkAssets(chunk), publicPath, hashOn)
  {
    headTags, bodyTags := [], [];
    var own := ChunkAssets(chunk);
    for j := 0 to |own|
      invariant headTags == Tags(Stylesheet, own[..j], publicPath, hashOn)
      invariant bodyTags == Tags(Script, own[..j], publicPath, hashOn)
    {
      var a := own[j];
      PrefixStep(own, j);
      TagsStep(Stylesheet, own[..j], a, publicPath, hashOn);
      TagsStep(Script, own[..j], a, publicPath, hashOn);
      headTags, bodyTags := PushFileTag(a.file, a.chunkHash, publicPath, hashOn, headTags, bodyTags);
    }
    assert own[..|own|] == own;
  }

  /** The two tag lists the nested loops push onto: stylesheet links for the head and scripts for the body. */
  method BuildTags(sorted: seq<Chunk>, publicPath: string, hashOn: bool) returns (headTags: seq<string>, bodyTags: seq<string>)
    ensures headTags == Tags(Stylesheet, Assets(sorted), publicPath, hashOn)
    ensures bodyTags == Tags(Script, Assets(sorted), publicPath, hashOn)
  {
    headTags, bodyTags := [], [];
    for i := 0 to |sorted|
      invariant headTags == Tags(Stylesheet, Assets(sorted[..i]), publicPath, hashOn)
      invariant bodyTags == Tags(Script, Assets(sorted[..i]), publicPath, hashOn)
    {
      AssetsStep(sorted, i);
      TagsAppend(Stylesheet, Assets(sorted[..i]), ChunkAssets(sorted[i]), publicPath, hashOn);
      TagsAppend(Script, Assets(sorted[..i]), ChunkAssets(sorted[i]), publicPath, hashOn);
      var head, body := ChunkTags(sorted[i], publicPath, hashOn);
      headTags, bodyTags := headTags + head, bodyTags + body;
    }
    assert sorted[..|sorted|] == sorted;
  }

  /** `app.abc123.js` is a script file. */
  lemma ExampleIsScript()
    ensures Classify("app.abc123.js") == Script
  {
    assert ExtensionAt("app.abc123.js", ".js", 10);
  }

  lemma ExampleAssets(c: Chunk)
    requires c.files == ["app.abc123.js"] && c.hash == "abc123"
    ensures Assets([c]) == [Asset("app.abc123.js", "abc123")]
  {
    assert [c][..0] == [];
  }

  /** With public path `/static/` and hashing off, the file `app.abc123.js` becomes one script tag. */
  lemma ScriptTagExample(c: Chunk)
    requires c.files == ["app.abc123.js"] && c.hash == "abc123"
    ensures Tags(Script, Assets([c]), "/static/", false) == [ScriptTag("/static/app.abc123.js")]
  {
    ExampleAssets(c);
    ExampleIsScript();
    TagsSingle(Script, Asset("app.abc123.js", "abc123"), "/static/", false);
    assert Reference("/static/", false, "app.abc123.js", "abc123") == "/static/app.abc123.js";
  }

  /** With hashing on, the same file's reference carries the chunk hash as its query string. */
  lemma HashedScriptTagExample(c: Chunk)
    requires c.files == ["app.abc123.js"] && c.hash == "abc123"
    ensures Tags(Script, Assets([c]), "/static/", true) == [ScriptTag("/static/app.abc123.js?abc123")]
  {
    ExampleAssets(c);
    ExampleIsScript();
    TagsSingle(Script, Asset("app.abc123.js", "abc123"), "/static/", true);
    HashedReferenceExample();
  }

  /** A file name without a query string gets the hash after a `?`. */
  lemma HashedReferenceExample()
    ensures Reference("/static/", true, "app.abc123.js", "abc123") == "/static/app.abc123.js?abc123"
  {
    var file := "app.abc123.js";
    assert forall k :: 0 <= k < |file| ==> file[k] != '?';
    assert AppendHash(file, "abc123") == file + "?" + "abc123";
  }

  /** A script file contributes no stylesheet link. */
  lemma NoLinkExample(c: Chunk, hashOn: bool)
    requires c.files == ["app.abc123.js"] && c.hash == "abc123"
    ensures Tags(Stylesheet, Assets([c]), "/static/", hashOn) == []
  {
    ExampleAssets(c);
    ExampleIsScript();
    TagsSingle(Stylesheet, Asset("app.abc123.js", "abc123"), "/static/", hashOn);
  }

  /** `vendor.js` and `app.js` are script files. */
  lemma PairFilesAreScripts()
    ensures Classify("vendor.js") == Script && Classify("app.js") == Script
  {
    assert ExtensionAt("vendor.js", ".js", 6);
    assert ExtensionAt("app.js", ".js", 3);
  }

  /** A one-file chunk contributes one asset. */
  lemma SingleFileAssets(c: Chunk)
    requires |c.files| == 1
    ensures ChunkAssets(c) == [Asset(c.files[0], c.hash)]
  {
  }

  /** Two one-file chunks contribute their assets in chunk order. */
  lemma PairAssets(first: Chunk, second: Chunk)
    requires |first.files| == 1 && |second.files| == 1
    ensures Assets([first, second]) == [Asset(first.files[0], first.hash), Asset(second.files[0], second.hash)]
  {
    var cs := [first, second];
    SingleFileAssets(first);
    SingleFileAssets(second);
    AssetsStep(cs, 0);
    AssetsStep(cs, 1);
    assert cs[..0] == [] && cs[..2] == cs;
  }

  /** Two script assets yield their two script tags in asset order. */
  lemma TwoScriptsExample(v: Asset, a: Asset, publicPath: string)
    requires v.file == "vendor.js" && a.file == "app.js"
    ensures Tags(Script, [v, a], publicPath, false) == [ScriptTag(publicPath + "vendor.js"), ScriptTag(publicPath + "app.js")]
  {
    PairFilesAreScripts();
    TagsSingle(Script, v, publicPath, false);
    TagsSingle(Script, a, publicPath, false);
    TagsAppend(Script, [v], [a], publicPath, false);
    assert [v] + [a] == [v, a];
  }
}
