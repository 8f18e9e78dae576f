/**
  The plugin object: option validation and defaults, the per-instance ledger
  (`chunkVersions`, `lastTimestamp`) and the emit handler that ties the change
  detector, the chunk orderer, the tag builder and the splice together.
*/
module Plugin {
  import opened Wrappers
  import opened Chunks
  import opened TopoSort
  import opened ChangeDetection
  import opened ChunkOrder
  import opened References
  import opened Splice

  /**
    The options object as the user passes it; `None` is a key that is absent.
    `hash` and `minify` stand for the truthiness of those options.
  */
  datatype UserOptions = UserOptions(
    template: Option<string>,
    chunks: Option<seq<string>>,
    filename: Option<string>,
    hash: bool,
    minify: bool,
    alwaysWriteToDisk: Option<bool>)

  /** The merged options the plugin keeps. */
  datatype Config = Config(
    template: string,
    chunks: seq<string>,
    filename: string,
    hash: bool,
    minify: bool,
    alwaysWriteToDisk: bool)

  /** The two construction-time failures, checked in this order. */
  datatype ConfigError = MissingTemplate | MissingChunks

  /**
    `Object.assign` of the defaults and the user options, followed by the two
    checks: a missing or empty template fails first, then a missing or empty
    chunk list. User values override the defaults `index.html` and `false`.
  */
  function Configure(user: UserOptions): (r: Result<Config, ConfigError>)
    ensures r == Err(MissingTemplate) <==> user.template.None? || user.template.value == ""
    ensures r == Err(MissingChunks) <==>
      user.template.Some? && user.template.value != "" && (user.chunks.None? || user.chunks.value == [])
    ensures r.Ok? ==>
      && r.value.template == user.template.value && r.value.template != ""
      && r.value.chunks == user.chunks.value && r.value.chunks != []
      && r.value.hash == user.hash && r.value.minify == user.minify
      && r.value.filename == (if user.filename.Some? then user.filename.value else "index.html")
      && r.value.alwaysWriteToDisk == (user.alwaysWriteToDisk == Some(true))
  {
    var filename := if user.filename.Some? then user.filename.value else "index.html";
    var alwaysWriteToDisk := if user.alwaysWriteToDisk.Some? then user.alwaysWriteToDisk.value else false;
    if user.template.None? || user.template.value == "" then Err(MissingTemplate)
    else if user.chunks.None? || user.chunks.value == [] then Err(MissingChunks)
    else Ok(Config(user.template.value, user.chunks.value, filename, user.hash, user.minify, alwaysWriteToDisk))
  }

  /** What the handler reads from the compilation on one pass. */
  datatype Compilation = Compilation(
    chunks: seq<Chunk>,
    templateTimestamp: Option<int>,
    publicPath: Option<string>)

  /** The pass either skips, registers the page under the configured file name, or fails on a dependency cycle. */
  datatype EmitResult = Skipped | Emitted(filename: string, html: string) | Failed(error: CyclicDependency)

  /** `relevantChunks`, the lookup `apply` builds from the configured chunk names. */
  method CollectRelevant(names: seq<string>) returns (relevant: set<string>)
    ensures forall n :: n in relevant <==> n in names
  {
    relevant := {};
    for i := 0 to |names|
      invariant forall n :: n in relevant <==> n in names[..i]
    {
      relevant := relevant + {names[i]};
    }
    assert names[..|names|] == names;
  }

  /** The names in `options.chunks`, as the set `relevantChunks` holds them. */
  function Relevant(options: Config): set<string> {
    set n | n in options.chunks
  }

  /** `compilation.chunks.filter(c => relevantChunks[c.name] === true)`: the relevant chunks in pass order. */
  function Target(chunks: seq<Chunk>, relevant: set<string>): (r: seq<Chunk>)
    ensures forall c :: c in r <==> c in chunks && c.name in relevant
    ensures forall c :: multiset(r)[c] == if c.name in relevant then multiset(chunks)[c] else 0
    ensures |r| <= |chunks|
  {
    if chunks == [] then []
    else
      assert chunks == [chunks[0]] + chunks[1..];
      (if chunks[0].name in relevant then [chunks[0]] else []) + Target(chunks[1..], relevant)
  }

  /** The filter keeps pass order: filtering a concatenation filters each part in turn. */
  lemma {:induction false} TargetAppend(xs: seq<Chunk>, ys: seq<Chunk>, relevant: set<string>)
    ensures Target(xs + ys, relevant) == Target(xs, relevant) + Target(ys, relevant)
  {
    if xs == [] {
      assert xs + ys == ys;
    } else {
      var head := if xs[0].name in relevant then [xs[0]] else [];
      var zs := xs + ys;
      assert zs[0] == xs[0] && zs[1..] == xs[1..] + ys;
      calc {
        Target(zs, relevant);
        head + Target(xs[1..] + ys, relevant);
        { TargetAppend(xs[1..], ys, relevant); }
        head + (Target(xs[1..], relevant) + Target(ys, relevant));
        (head + Target(xs[1..], relevant)) + Target(ys, relevant);
      }
    }
  }

  /** The page a building pass produces from the sorted relevant chunks, before minification. */
  function Page(sorted: seq<Chunk>, publicPath: Option<string>, hashOn: bool, templateText: string): string {
    var prefix := NormalizePublicPath(publicPath);
    Render(templateText, Tags(Stylesheet, Assets(sorted), prefix, hashOn), Tags(Script, Assets(sorted), prefix, hashOn))
  }

  /** What a pass that goes on to build returns: the sorted relevant chunks' page, or the sort's failure. */
  function BuildOutcome(options: Config, compilation: Compilation, templateText: string, minifier: string -> string): EmitResult {
    var target := Target(compilation.chunks, Relevant(options));
    match Sort(target, ChunkEdges(NodeMap(target), target))
    case Err(e) => Failed(e)
    case Ok(sorted) =>
      var html := Page(sorted, compilation.publicPath, options.hash, templateText);
      Emitted(options.filename, if options.minify then minifier(html) else html)
  }

  /** What one pass of the emit handler returns, given the ledger and stored timestamp it starts from. */
  function PassOutcome(options: Config, ledger: Ledger, last: int, compilation: Compilation,
                       templateText: string, minifier: string -> string): EmitResult
  {
    var relevantChanged := AnyRelevant(Changed(ledger, compilation.chunks), Relevant(options));
    var templateChanged := TemplateChanged(last, compilation.templateTimestamp);
    if ShouldBuild(relevantChanged, templateChanged, options.hash) then BuildOutcome(options, compilation, templateText, minifier)
    else Skipped
  }

  /**
    A pass skips exactly when the template is unchanged and either hashing is
    off or no relevant chunk changed; with hashing off, exactly when the
    template is unchanged.
  */
  lemma PassSkips(options: Config, ledger: Ledger, last: int, compilation: Compilation,
                  templateText: string, minifier: string -> string)
    ensures var relevantChanged := AnyRelevant(Changed(ledger, compilation.chunks), Relevant(options));
      var templateChanged := TemplateChanged(last, compilation.templateTimestamp);
      var r := PassOutcome(options, ledger, last, compilation, templateText, minifier);
      && (r.Skipped? <==> !templateChanged && (!options.hash || !relevantChanged))
      && (!options.hash ==> (r.Skipped? <==> !templateChanged))
      && (!r.Skipped? ==> r == BuildOutcome(options, compilation, templateText, minifier))
  {
  }

  /** A building pass fails exactly when the relevant chunks admit no order that puts every resolved parent first. */
  lemma BuildFailsOnlyWithoutOrder(options: Config, compilation: Compilation, templateText: string, minifier: string -> string)
    ensures var target := Target(compilation.chunks, Relevant(options));
      BuildOutcome(options, compilation, templateText, minifier).Failed? <==>
        !Orderable(target, ChunkEdges(NodeMap(target), target))
  {
    var target := Target(compilation.chunks, Relevant(options));
    var edges := ChunkEdges(NodeMap(target), target);
    assert BuildOutcome(options, compilation, templateText, minifier).Failed? <==> Sort(target, edges).Err?;
    SortFailsIffNoOrder(target, edges);
  }

  /**
    A building pass registers its page under the configured file name, and the
    page is the template spliced with the tags of an order of the relevant
    chunks that is a permutation putting every resolved parent first, passed
    through the minifier when minification is on.
  */
  lemma BuiltPageFollowsDependencyOrder(options: Config, compilation: Compilation, templateText: string, minifier: string -> string)
    ensures var target := Target(compilation.chunks, Relevant(options));
      var r := BuildOutcome(options, compilation, templateText, minifier);
      r.Emitted? ==>
        && r.filename == options.filename
        && exists sorted ::
             && multiset(sorted) == multiset(target)
             && ParentsFirst(sorted, NodeMap(target))
             && var page := Page(sorted, compilation.publicPath, options.hash, templateText);
                r.html == if options.minify then minifier(page) else page
  {
    var target := Target(compilation.chunks, Relevant(options));
    SortChunksSpec(target);
  }

  /**
    End to end for two chunks, `vendor` and `app` whose parent entry names
    vendor's id: in either pass order the sort puts vendor first, so vendor's
    script tag precedes app's.
  */
  lemma DependencyOrderTagsExample(vendor: Chunk, app: Chunk, chunks: seq<Chunk>, publicPath: string)
    requires vendor.id != app.id && vendor.parents == [] && app.parents == [ById(vendor.id)]
    requires vendor.files == ["vendor.js"] && app.files == ["app.js"]
    requires chunks == [vendor, app] || chunks == [app, vendor]
    ensures var r := Sort(chunks, ChunkEdges(NodeMap(chunks), chunks));
      && r.Ok?
      && Tags(Script, Assets(r.value), publicPath, false) == [ScriptTag(publicPath + "vendor.js"), ScriptTag(publicPath + "app.js")]
  {
    ParentBeforeChildExample(vendor, app, chunks);
    PairAssets(vendor, app);
    TwoScriptsExample(Asset("vendor.js", vendor.hash), Asset("app.js", app.hash), publicPath);
  }

  /** The whole page for a one-file chunk: its script tag lands immediately before `</body>`. */
  lemma PageExample(c: Chunk)
    requires c.files == ["app.abc123.js"] && c.hash == "abc123"
    ensures Page([c], Some("/static/"), false, "<body></body>") ==
      "<body>" + ScriptTag("/static/app.abc123.js") + "</body>"
  {
    ScriptTagExample(c);
    NoLinkExample(c, false);
    assert NormalizePublicPath(Some("/static/")) == "/static/";
    RenderExample(ScriptTag("/static/app.abc123.js"));
  }

  class SimpleHtmlWebpackPlugin {
    const options: Config
    /** Last-seen hash per chunk name, kept for the life of the instance. */
    var chunkVersions: Ledger
    /** Last-seen template timestamp; starts as the construction time. */
    var lastTimestamp: int

    constructor (options: Config, now: int)
      ensures this.options == options && chunkVersions == map[] && lastTimestamp == now
    {
      this.options := options;
      chunkVersions := map[];
      lastTimestamp := now;
    }

    /** The `filter` over the pass's chunks that overwrites each ledger entry and keeps the chunks whose hash differed. */
    method RecordChunks(chunks: seq<Chunk>) returns (changed: seq<Chunk>)
      modifies this`chunkVersions
      ensures chunkVersions == Record(old(chunkVersions), chunks)
      ensures changed == Changed(old(chunkVersions), chunks)
    {
      changed := [];
      for i := 0 to |chunks|
        invariant chunkVersions == Record(old(chunkVersions), chunks[..i])
        invariant changed == Changed(old(chunkVersions), chunks[..i])
      {
        var chunk := chunks[i];
        assert chunks[..i + 1][..i] == chunks[..i];
        var oldVersion := if chunk.name in chunkVersions then Some(chunkVersions[chunk.name]) else None;
        chunkVersions := chunkVersions[chunk.name := chunk.hash];
        if oldVersion != Some(chunk.hash) {
          changed := changed + [chunk];
        }
      }
      assert chunks[..|chunks|] == chunks;
    }

    /**
      The emit handler. The ledger and the stored timestamp are updated on every
      pass, whether it then builds, skips or fails.
    */
    method Emit(compilation: Compilation, templateText: string, minifier: string -> string) returns (r: EmitResult)
      modifies this`chunkVersions, this`lastTimestamp
      ensures chunkVersions == Record(old(chunkVersions), compilation.chunks)
      ensures lastTimestamp == NextTimestamp(old(lastTimestamp), compilation.templateTimestamp)
      ensures r == PassOutcome(options, old(chunkVersions), old(lastTimestamp), compilation, templateText, minifier)
    {
      var relevant := CollectRelevant(options.chunks);
      assert relevant == Relevant(options);
      ghost var ledger, last := chunkVersions, lastTimestamp;
      var changed := RecordChunks(compilation.chunks);
      var templateTimestamp := compilation.templateTimestamp;
      var relevantChunksChanged := exists c :: c in changed && c.name in relevant;
      var templateChanged := templateTimestamp != Some(lastTimestamp);
      lastTimestamp := if templateTimestamp.Some? && templateTimestamp.value != 0 then templateTimestamp.value else lastTimestamp;
      ghost var build := ShouldBuild(relevantChunksChanged, templateChanged, options.hash);
      assert relevantChunksChanged == AnyRelevant(Changed(ledger, compilation.chunks), relevant);
      assert templateChanged == TemplateChanged(last, compilation.templateTimestamp);

      if !relevantChunksChanged && !templateChanged {
        return Skipped;
      }
      if !options.hash && !templateChanged {
        return Skipped;
      }
      assert build;

      var targetChunks := Target(compilation.chunks, relevant);
      var sortedChunks := SortChunks(targetChunks);
      if sortedChunks.Err? {
        return Failed(sortedChunks.error);
      }

      var publicPath := NormalizePublicPath(compilation.publicPath);
      var headTags, bodyTags := BuildTags(sortedChunks.value, publicPath, options.hash);
      var output := Render(templateText, headTags, bodyTags);
      if options.minify {
        output := minifier(output);
      }
      r := Emitted(options.filename, output);
    }
  }

  /** Construction: the option checks, then an instance with an empty ledger and the given clock reading. */
  method Create(user: UserOptions, now: int) returns (r: Result<SimpleHtmlWebpackPlugin, ConfigError>)
    ensures r.Err? <==> Configure(user).Err?
    ensures r.Err? ==> r.error == Configure(user).error
    ensures r.Ok? ==> fresh(r.value) && r.value.options == Configure(user).value
    ensures r.Ok? ==> r.value.chunkVersions == map[] && r.value.lastTimestamp == now
  {
    var config := Configure(user);
    if config.Err? {
      return Err(config.error);
    }
    var plugin := new SimpleHtmlWebpackPlugin(config.value, now);
    r := Ok(plugin);
  }
}
