# simple-html-webpack-plugin in Dafny

A model of the webpack plugin `SimpleHtmlWebpackPlugin` (`index.js`). The
plugin writes an HTML page that references the bundles of a chosen set of
chunks. The model covers the whole logic of the plugin:

- **Construction** (`Plugin.Configure`, `Plugin.Create`). The user options are
  merged over the defaults `filename: 'index.html'` and
  `alwaysWriteToDisk: false`. The options are rejected when the template is
  missing or empty, or when the chunk list is missing or empty.
- **Change detection** (module `ChangeDetection`, class
  `Plugin.SimpleHtmlWebpackPlugin`). Each instance keeps a ledger of the last
  hash per chunk name (`chunkVersions`) and the last template timestamp
  (`lastTimestamp`). Every pass overwrites the ledger entry of every chunk and
  updates the timestamp before it decides anything. It then builds only when
  the template changed, or when hashing is on and a relevant chunk changed.
- **Chunk ordering** (module `ChunkOrder`). `sortChunks` builds an id-to-chunk
  lookup and turns every parent entry that resolves into a parent-before-child
  edge. An entry resolves when it is an inline chunk, or when it is an id found
  in the lookup. The chunks and edges are then handed to a topological sort.
  The sort is the foreign `toposort` library, so module `TopoSort` specifies it
  and implements it as a stand-in:
  - a result is a permutation that respects every edge;
  - it fails exactly when no such order exists, and in particular on every cycle.
- **References and tags** (module `References`). This covers:
  - public-path normalisation;
  - `appendHash`, which adds `?hash` or `&hash`;
  - the `/\.js($|\?)/` and `/\.css($|\?)/` tests, where `.js` wins;
  - the two tag lists, in sorted-chunk order and then file order.
- **Splice** (module `Splice`). The concatenated head tags go before the first
  case-insensitive `</head>`, and the body tags before the first `</body>`. A
  missing closing tag means that category is not inserted.

Stateful parts are imperative Dafny:
- the plugin is a class whose `Emit` method updates `chunkVersions` and
  `lastTimestamp`;
- the tag lists, the chunk lookup and the edge list are filled by loops.

Each of these methods is proved equal to a specification function, and the
properties are proved about that function. For one pass, that function is
`Plugin.PassOutcome`, which builds via `Plugin.BuildOutcome`.

With hashing off, a changed relevant chunk on its own does not trigger a
build; only a template change does (`index.js:55-59`).

## Model

| member | source | states |
|---|---|---|
| Plugin.Configure | index.js:7-19 | Fails with MissingTemplate exactly when the template is absent or empty. Fails with MissingChunks exactly when the template is present but the chunk list is absent or empty. Otherwise the user's template, chunks, hash and minify are kept, `filename` defaults to `index.html` and `alwaysWriteToDisk` to false. |
| Plugin.Create | index.js:7-23 | Fails exactly when Configure fails, with the same error. Otherwise it returns a fresh plugin holding the merged options, an empty ledger and the given clock reading as `lastTimestamp`. |
| Plugin.SimpleHtmlWebpackPlugin.constructor | index.js:21-22 | A new instance starts with an empty ledger and with `lastTimestamp` equal to the construction time. |
| Plugin.CollectRelevant | index.js:27-31 | A name is relevant exactly when it appears in the configured chunk list. |
| Plugin.SimpleHtmlWebpackPlugin.RecordChunks | index.js:37-41 | The ledger becomes the old ledger with every chunk's hash written under its name, in pass order. The returned list is the chunks whose hash differed from the entry in force when each was reached. |
| ChangeDetection.Record | index.js:37-41 | The ledger after a pass has exactly the old names plus the pass's names. Each name of the pass holds the hash of the last chunk with that name. Names outside the pass keep their entries. |
| ChangeDetection.ChangedAgainstPriorLedger | index.js:37-41 | When names are distinct, a chunk is reported changed exactly when it is in the pass and its hash differs from the ledger before the pass. An absent entry counts as a difference. |
| ChangeDetection.FirstPassAllChanged | index.js:37-41 | Against the empty ledger of a new instance, every chunk of a pass with distinct names is changed. |
| ChangeDetection.UnchangedChunkKeepsEntry | index.js:37-41 | A chunk whose hash equals its entry is not reported changed, and its entry is unchanged after the pass. |
| ChangeDetection.NextTimestamp | index.js:43-47 | A truthy current timestamp is stored, so a repeat of it is not a template change. A falsy one (absent or 0) leaves the stored value as it was. |
| ChangeDetection.SameTimestampTwice | index.js:46-47 | Over two passes that see the same timestamp, the second counts as a template change exactly when that timestamp is falsy and differs from the value stored before the first pass. |
| ChangeDetection.ShouldBuild | index.js:49-59 | The page is built exactly when the template changed, or when hashing is on and a relevant chunk changed. With hashing off, it is built exactly when the template changed. With neither change, nothing is built. |
| Plugin.Target | index.js:64 | A chunk is kept exactly when it is in the pass and its name is relevant. Each relevant chunk occurs as often as in the pass, an irrelevant one not at all, and the result is never longer than the pass. |
| Plugin.TargetAppend | index.js:64 | The filter keeps pass order: filtering a concatenation gives the filtered first part followed by the filtered second part. |
| Plugin.PassSkips | index.js:45-59 | A pass skips exactly when the template is unchanged and either hashing is off or no relevant chunk changed. With hashing off, it skips exactly when the template is unchanged. A pass that does not skip returns the build outcome. |
| Plugin.BuildFailsOnlyWithoutOrder | index.js:64-65 | A building pass fails exactly when the relevant chunks admit no order in which every resolved parent precedes its child. |
| Plugin.BuiltPageFollowsDependencyOrder | index.js:64-95 | An emitted page is registered under the configured file name. It is the template spliced with the tags of some permutation of the relevant chunks that puts every resolved parent first, passed through the minifier when minification is on. |
| Plugin.DependencyOrderTagsExample | index.js:64-81 | For a chunk `vendor` and a chunk `app` naming vendor's id as parent, in either pass order, the sort succeeds and vendor's script tag precedes app's. |
| Plugin.PageExample | index.js:67-86 | With public path `/static/` and template `<body></body>`, a chunk with file `app.abc123.js` gives the page `<body>` followed by its script tag and `</body>`. |
| Plugin.SimpleHtmlWebpackPlugin.Emit | index.js:37-95 | The handler leaves the ledger as Record of the old ledger, and `lastTimestamp` as NextTimestamp of the old value. Its result is PassOutcome of the state before the pass: a skip, a failure, or the emitted page. |
| References.NormalizePublicPath | index.js:67-70 | An absent or empty public path becomes empty. Otherwise the result starts with the configured value and ends in `/`: it is unchanged if the value already ended in `/`, else one character longer. |
| References.AppendHash | index.js:107-109 | The result is the path, one separator and the hash, so the path is a prefix and the hash a suffix. The separator is `&` exactly when the path already holds a `?`, else `?`. |
| References.HasExtension | index.js:75-77 | True exactly when the extension occurs at or after the start position and is followed by the end of the name or by `?`. |
| References.Classify | index.js:75-77 | A file is a script exactly when it passes the `.js` test. It is a stylesheet exactly when it fails that test and passes the `.css` test. Otherwise it is ignored. |
| References.Reference | index.js:74 | The reference starts with the public path followed by the file name. With hashing on it is the public path followed by AppendHash of the file, and with hashing off the two concatenated. |
| References.ChunkAssets | index.js:72-73 | A chunk contributes one asset per file, in file order, each carrying the chunk's hash. |
| References.TagsAppend | index.js:72-81 | The tags of a concatenation of assets are the tags of the first part followed by those of the second, so tags follow chunk order and then file order. |
| References.TagsSingle | index.js:74-79 | One asset yields exactly one tag of its own kind, script or link, with its reference, and nothing for any other kind. |
| References.TagForFile | index.js:74-79 | A file yields a script tag exactly when the `.js` test passes. It yields a link tag exactly when the `.js` test fails and the `.css` test passes. |
| References.PushFileTag | index.js:74-79 | One file's step appends its script tag to the body list or its link tag to the head list, and leaves the other list as it was. |
| References.ChunkTags | index.js:73-80 | The tags produced by one chunk's files, in file order. |
| References.BuildTags | index.js:72-81 | The head list is the link tags and the body list the script tags of all assets of the sorted chunks, in chunk order and then file order. |
| References.ExampleIsScript | index.js:75 | `app.abc123.js` passes the script test. |
| References.ScriptTagExample | index.js:72-76 | With public path `/static/` and hashing off, a chunk with file `app.abc123.js` yields exactly one script tag, for `/static/app.abc123.js`. |
| References.HashedScriptTagExample | index.js:72-76 | With hashing on, the same chunk's script tag references `/static/app.abc123.js?abc123`. |
| References.HashedReferenceExample | index.js:107-109 | A file without `?` gets the hash after a `?`. |
| References.NoLinkExample | index.js:77-79 | A script file yields no stylesheet link. |
| References.PairFilesAreScripts | index.js:75 | `vendor.js` and `app.js` pass the script test. |
| References.PairAssets | index.js:72-73 | Two one-file chunks contribute their two assets in chunk order. |
| References.TwoScriptsExample | index.js:72-76 | The assets `vendor.js` then `app.js` yield their two script tags in that order. |
| Splice.FindFirst | index.js:85-86 | The returned position is a case-insensitive match and no earlier position matches. No position is returned only when there is no match. |
| Splice.InsertBeforeFirst | index.js:84-86 | Without a case-insensitive match the text is unchanged. Otherwise the insert is placed immediately before the first match. |
| Splice.DeleteInserted | index.js:84-86 | After an insertion, the result is longer by the insert. The insert sits where the first match was and is immediately followed by the closing tag. Deleting it gives back the template. |
| Splice.InsertNothing | index.js:84-86 | Inserting no tags leaves the template unchanged, whether or not the closing tag occurs. |
| Splice.ExampleBodyMatch | index.js:86 | In `<body></body>`, the first case-insensitive `</body>` starts at position 6. |
| Splice.RenderExample | index.js:84-86 | With no head tags and one body tag, `<body></body>` becomes `<body>`, the tag and `</body>`. |
| ChunkOrder.NodeMap | index.js:115-117 | Every chunk's id is a key. Each key maps to a chunk with that id, and a later chunk replaces an earlier one with the same id. |
| ChunkOrder.ParentEdgesSpec | index.js:123-128 | An edge comes from a chunk's parent list exactly when its child is that chunk and one of its entries resolves to its parent. |
| ChunkOrder.ChunkEdgesSpec | index.js:118-129 | An edge is built exactly for a chunk and one of its parent entries that resolves, so unresolved ids add no edge. |
| ChunkOrder.ResolveById | index.js:124-125 | An id entry resolves exactly when a chunk being sorted carries that id, and then to such a chunk. |
| ChunkOrder.OrderPutsParentsFirst | index.js:126-131 | An order that respects the built edges puts every resolved parent before its child. |
| ChunkOrder.SortChunksSpec | index.js:111-132 | A successful sort is a permutation of the input chunks with every resolved parent first. It fails exactly when no such order exists. |
| ChunkOrder.BuildNodeMap | index.js:115-117 | The loop that fills the lookup produces NodeMap of the chunks, which holds every chunk's id. |
| ChunkOrder.BuildEdges | index.js:118-129 | The nested loops that push edges produce exactly ChunkEdges, the one edge per resolving parent entry. |
| ChunkOrder.SortChunks | index.js:111-132 | The result is the sort of the chunks under the built edges. On success it is a permutation with every resolved parent first, and it fails exactly when no such order exists. |
| ChunkOrder.PairEdges | index.js:118-129 | Two chunks, one naming the other's id as parent, produce exactly one edge, parent to child, whatever their order. |
| ChunkOrder.PairOrder | index.js:131 | For two distinct nodes joined by one edge, the only respecting order puts the parent first. |
| ChunkOrder.PairSort | index.js:131 | Two distinct nodes joined by one edge sort parent first. |
| ChunkOrder.ParentBeforeChildExample | index.js:111-132 | Given a chunk and a child naming its id, in either input order, sortChunks returns parent then child. |
| TopoSort.FirstSource | index.js:131 | The returned index is the first node with no parent among the nodes. No index is returned only when every node has one. |
| TopoSort.SortSound | index.js:131 | A successful sort is a permutation of the nodes in which every edge's parent precedes its child. |
| TopoSort.SortComplete | index.js:131 | Whenever some order respecting the edges exists, the sort succeeds. |
| TopoSort.SortFailsIffNoOrder | index.js:131 | A success is a respecting permutation, and the sort fails exactly when none exists. |
| TopoSort.CycleFails | index.js:131 | A cycle of edges among the nodes makes the sort fail. |

## Left out

- Reading the template with `fs.readFileSync` (index.js:83) is left out: the template text is a parameter of `Emit`.
- Writing the page to disk when `alwaysWriteToDisk` is set (index.js:97-102) is left out. That covers `mkdirp` and `fs.writeFileSync`. The option is kept in the configuration, but nothing reads it.
- The `path.join`, `path.resolve` and `path.dirname` calls (index.js:34, 98-99) are left out, because they are host path handling. The template's timestamp is given directly as part of the compilation.
- Webpack plumbing is left out: the `emit` hook registration and its `callback`, `fileDependencies.push`, and the `source`/`size` closures of the registered asset. A pass returns `Skipped`, `Emitted(filename, html)` or `Failed`. `Failed` is the library's cycle exception escaping the handler.
- `html-minifier` is left out, because it is a foreign library. It is an opaque `string -> string` parameter, applied when `minify` is truthy. The option object passed to it is not modelled.
- The `toposort` library's depth-first algorithm and its tie-breaking are left out. `TopoSort.Sort` is a stand-in with the same contract, so no particular order among unrelated chunks is claimed.
- How `toposort` treats an edge whose parent is not among the nodes is left out. Such a parent can be an inline parent outside the relevant chunks. The stand-in lets that edge constrain nothing.
- JavaScript object identity for inline parent chunks is left out: the model compares chunks by value.
- Object-key coercion is left out. `nodeMap[chunk.id]` and the ledger use property keys, so ids that print the same collide, and a chunk named `__proto__` is never recorded. Ids are integers and names plain strings in the model.
- Partial options objects are left out: explicit `undefined` values, non-boolean `hash` or `minify` values, and an absent options object. `hash` and `minify` stand for their truthiness.
- An absent `parents` property (index.js:119-121) is represented as an empty parent list.
- Timestamps that are `NaN` or non-integer are left out. Timestamps are integers, absent or present, and only `0` and absence are falsy.
- `new Date().getTime()` (index.js:22) is left out: the construction time is a parameter.
- Plugin.SimpleHtmlWebpackPlugin.Emit: the relevant-name set is recomputed on every pass instead of once in `apply` (index.js:27-31). That set depends only on the options, so the outcome is the same.
