# twing-render-loader, modelled in Dafny

This project models the logic-bearing parts of `src/index.ts`, a webpack loader that renders
Twing templates at build time:

- the **candidate-location resolver** (`resolvePotentialDependencyLocations`). When a template
  reference cannot be resolved, it walks the loader composition tree and lists every filesystem
  path where a file could later appear and make the reference resolve. These paths are then
  watched as missing dependencies;
- the **compiled-artifact cache** (`cacheData` and `cache`). It maps keys derived from the
  engine's class names to `{timestamp, data}`, holds at most 1000 entries and evicts the least
  recently used one;
- the **path-supporting array loader** (`PathSupportingArrayLoader.getSourceContext`). It serves
  the file being compiled from memory and addresses it by the requested name;
- **error normalisation** (`castError`) and the **`output` switch**, which either passes the
  rendered text through or wraps it in a CommonJS module.

Modules:

- `Wrappers`: `Option` and `Result`.
- `Paths`: POSIX-style stand-ins for Node's `path.join`, `path.dirname` and `path.isAbsolute`.
- `Loaders`: `Source`, the closed `Loader` datatype (array, chain, filesystem with ordered
  namespaces, relative filesystem), the path-supporting lookup, and the resolver `Candidates`.
  `Candidates` is a recursive function; the source's generator only yields.
- `ResolverProperties` and `ResolverExamples`: what the resolver guarantees, in general and on
  concrete trees.
- `ArtifactCache`: the store as a value `Lru` (entries plus recency order, least recent first),
  the functions `Put`, `Touch`, `Loaded` and `TimestampOf`, and the class `Cache`. The class
  holds the shared map and recency sequence and updates them in place; each of its methods is
  proved to move the state exactly as those functions say.
- `Errors`: `castError` over a tagged view of what was thrown.
- `Json`: `JSON.stringify` of a string (QuoteJSONString, section 25.5.2.3 of ECMA-262) and a
  reader of JSON string literals.
- `Output`: the `output` switch, and what the generated module's function returns.

The default TwingLoaderArray, TwingLoaderChain, TwingLoaderFilesystem and
TwingLoaderRelativeFilesystem classes are four disjoint classes. The resolver has no `return`
after its filesystem branch, so control falls into the relative-filesystem test. No loader is
both kinds, so this changes nothing, and the model treats the four kinds as exclusive cases.

## Model

| member | source | states |
|---|---|---|
| `Loaders.GetSourceContext` | src/index.ts:17-23 | a failed underlying lookup is passed on unchanged; a found source keeps its code and its name, and its resolved name becomes the requested name |
| `Loaders.NamespacePrefix` | src/index.ts:39 | the main namespace `__main__` has the empty prefix; any other namespace `ns` has `"@" + ns + "/"` |
| `Loaders.JoinEach` | src/index.ts:44-46 | one location per namespace directory, in directory order, the j-th being that directory joined with the rest of the request |
| `ResolverProperties.ArrayTreeYieldsNothing` | src/index.ts:26-35 | a tree built only from array loaders and chains of them yields no location, for any request and origin |
| `ResolverProperties.ArrayChainYieldsNothing` | src/index.ts:30-35 | a chain whose members are all array-only trees yields no location |
| `ResolverProperties.ChainCandidatesAppend` | src/index.ts:30-35 | a chain's locations are those of its first loaders followed by those of the rest: concatenation in chain order |
| `ResolverProperties.ChainCandidatesMember` | src/index.ts:30-35 | a path is listed for a chain if and only if one of the chain's loaders lists it |
| `ResolverProperties.FilesystemCandidatesAppend` | src/index.ts:37-48 | a filesystem loader's locations are those of its first namespaces followed by those of the rest: namespace order is kept |
| `ResolverProperties.FilesystemCandidatesMember` | src/index.ts:37-48 | a path is listed for a filesystem loader if and only if some namespace whose prefix the request starts with has a directory that, joined with the request minus that prefix, gives the path |
| `ResolverProperties.MainNamespaceTakesEveryRequest` | src/index.ts:39-46 | the main namespace matches every request and yields each directory joined with the whole request, in order |
| `ResolverProperties.NamedNamespaceTakesPrefixedRequest` | src/index.ts:39-46 | a named namespace given `@ns/rest` yields each directory joined with `rest`, in order |
| `ResolverProperties.NamedNamespaceSkipsOtherRequests` | src/index.ts:39-42 | a named namespace contributes nothing to a request that does not start with `@ns/` |
| `ResolverProperties.RelativeRequestYieldsOne` | src/index.ts:50-55 | a relative loader yields exactly one location for every request that is not absolute: the referring document's directory (trailing separators dropped), one separator, then the request; for an empty request, that directory |
| `ResolverProperties.RelativeCandidateIsSibling` | src/index.ts:50-55 | for a plain file name, that one location's directory is the referring document's directory (the root for a document at the root) |
| `ResolverProperties.RelocatedSourceResolvesFromItsPath` | src/index.ts:17-23 | once the in-memory file is re-addressed by its real path, a relative reference from it is looked for next to that path, whatever name the in-memory lookup gave it |
| `ResolverProperties.AbsoluteRequestIsNotRelative` | src/index.ts:50-53 | a relative loader yields nothing for an absolute request |
| `ResolverProperties.OriginMattersOnlyToRelativeLoaders` | src/index.ts:25-56 | without a relative-filesystem loader in the tree, the referring document has no influence on the locations |
| `ResolverProperties.OriginMattersOnlyToRelativeChains` | src/index.ts:30-35 | the same, for the members of a chain |
| `ResolverProperties.EntryLoaderWatchesContext` | src/index.ts:144-174 | with the loader the entry point installs (in-memory file first, then a filesystem loader rooted at `context`), an unresolved reference is watched at exactly one place: `context` joined with the request |
| `ResolverExamples.ChainOfTwoDirectories` | src/index.ts:30-48 | a chain of filesystem loaders on `/a` and `/b` lists `/a/x.tpl` then `/b/x.tpl` for `x.tpl` |
| `ResolverExamples.NamespaceLibServesPrefixed` | src/index.ts:37-48 | namespace `lib` on `/libs` lists `/libs/x.tpl` for `@lib/x.tpl` |
| `ResolverExamples.NamespaceLibIgnoresUnprefixed` | src/index.ts:37-42 | namespace `lib` on `/libs` lists nothing for `x.tpl` |
| `ResolverExamples.RelativeToPage` | src/index.ts:50-55 | from `/proj/views/page.tpl`, `partial.tpl` gives `/proj/views/partial.tpl` and `/abs/partial.tpl` gives nothing |
| `Paths.Join` | src/index.ts:45 | joining keeps either piece alone when the other is empty, and otherwise puts exactly one separator where the two meet |
| `Paths.LastSeparator` | src/index.ts:54 | finds the position of the last separator, and finds none exactly when the path has no separator |
| `Paths.DirnameOfJoin` | src/index.ts:54 | the directory of a directory joined with a plain file name is that directory, without trailing separators, and the root when the directory is the root |
| `ArtifactCache.Cache.constructor` | src/index.ts:79-81 | the cache starts empty and valid |
| `ArtifactCache.Cache.Load` | src/index.ts:86-95 | returns the stored code's export on a hit and the empty-map producer on a miss; a hit makes the key the most recently used; the entries do not change |
| `ArtifactCache.Cache.Write` | src/index.ts:96-101 | the new state is `Put` of the old one with the item `{now, content}`, and the invariant is kept |
| `ArtifactCache.Cache.GetTimestamp` | src/index.ts:102 | returns the stored timestamp, or 0 when the key is not held; a hit makes the key the most recently used |
| `ArtifactCache.SizeMatchesRecency` | src/index.ts:79-81 | a valid store holds exactly as many entries as its recency order lists keys |
| `ArtifactCache.TouchValid` | src/index.ts:87 | a `get` keeps every entry and the invariant, and makes a held key the most recently used |
| `ArtifactCache.WithoutKeepsOrder` | src/index.ts:87 | taking a key out of the recency order keeps every other two keys in the same order |
| `ArtifactCache.TouchKeepsOrder` | src/index.ts:87 | a `get` changes no other two keys' recency order, so the least recently used key stays first until it is used or evicted |
| `ArtifactCache.PutKeepsOrder` | src/index.ts:96-101 | a write changes no other two remaining keys' recency order |
| `ArtifactCache.PutValid` | src/index.ts:79-81 | a write keeps the invariant, so the cache never holds more than 1000 entries |
| `ArtifactCache.PutStores` | src/index.ts:96-101 | after a write the key holds exactly the written item and is the most recently used |
| `ArtifactCache.PutKeepsOthers` | src/index.ts:96-101 | a write leaves every other key that is still held with its earlier item |
| `ArtifactCache.PutEvictsNothingWithRoom` | src/index.ts:96-101 | replacing an entry, or adding one below capacity, evicts nothing: the keys are the old keys plus the written one |
| `ArtifactCache.PutEvictsLeastRecent` | src/index.ts:79-81 | adding a new key to a full cache evicts exactly the least recently used key and keeps all others |
| `ArtifactCache.TimestampAfterWrite` | src/index.ts:96-102 | right after `write(k, content)` at time `now`, `getTimestamp(k)` is `now` and `load(k)` restores `content` |
| `ArtifactCache.MissingKeyIsStale` | src/index.ts:92-94 | a key that is not held has timestamp 0 and loads as the empty-map producer |
| `ArtifactCache.KeyIgnoresTemplateName` | src/index.ts:83-85 | the key depends only on the class name: two template names with the same class name get the same key |
| `Errors.CastError` | src/index.ts:58-70 | a Twing error becomes an error with the same name, message `name + ": " + message`, an empty hidden stack; any other error is kept; anything else becomes a new `Error` whose message is the value's text (empty for `undefined`) |
| `Errors.CastErrorIdempotent` | src/index.ts:69 | casting what `castError` returned changes nothing |
| `Errors.OnlyTwingErrorsHideStack` | src/index.ts:59-67 | of the errors `castError` creates, only those from Twing errors hide their stack |
| `Json.HexDigit` | src/index.ts:188 | the hexadecimal digit written for a value reads back as that value |
| `Json.ParseEscapedChar` | src/index.ts:188 | reading a character as `JSON.stringify` escapes it gives that character, and reading goes on after it |
| `Json.ParseEscapeBody` | src/index.ts:188 | reading an escaped string body gives the original string |
| `Json.ParseStringify` | src/index.ts:188 | `JSON.stringify` of a string is a string literal denoting exactly that string |
| `Output.HtmlPassesThrough` | src/index.ts:182-185 | with `output` unset or `'html'` the rendered text is returned unchanged |
| `Output.FunctionReturnsRendered` | src/index.ts:187-189 | with `output: 'function'` the result is `module.exports=function(){return <literal>;};` and the function returns exactly the rendered text |
| `Output.OutputDeterminesRendered` | src/index.ts:182-190 | in every mode, different rendered texts give different outputs |

## Left out

- `md5` is a foreign hash library. `Cache` takes it as the function `digest`, and the key is `digest(className)`.
- `Date.now()` is clock I/O. `Write` takes the time as the parameter `now`. The claim that a timestamp read back after a write is positive holds only when `now` is.
- `eval(item.data)` in `load` runs stored text as code. `load` is modelled only as a hit or a miss; the export of a hit is `Restored(code)`, opaque.
- The `lru-cache` library is modelled as a bounded map with a recency order that `get` and `set` update. Its other features (maximum age, `length` functions, `dispose` callbacks) are not modelled; the source uses none of them.
- The inherited TwingLoaderArray lookup is part of the Twing library. `Loaders.GetSourceContext` takes its outcome (a source or a loader error) as input, so the model does not say what resolved name the base loader would have given.
- Node's `path` module is not modelled in full. `Paths.Join` collapses separators only where the two pieces meet. It does not resolve `.` or `..`, does not collapse repeated separators inside a piece, and joins two empty pieces to `""` where Node gives `"."`.
- `Paths.Dirname` does not skip trailing separators and returns `/` rather than `//` for a path rooted at `//`.
- A filesystem loader's directories are taken as its `getPaths` returns them. TwingLoaderFilesystem trims trailing separators when a directory is registered; that trimming is Twing's and is not modelled. A loader built from untrimmed directories therefore gives different locations in two cases: a request whose remainder is empty (`@lib/` on `/libs/` gives `/libs/`, not `/libs`), and the root directory (`/` with `x.tpl` gives `/x.tpl`, where the trimmed `""` gives `x.tpl`).
- Loader classes other than the four kinds are not modelled. The source's resolver yields nothing for them.
- The rest of the default export is not modelled: `this.async`, `this.cacheable`, option schema validation, `addDependency` and `addMissingDependency`, the cache-busting dynamic `import` of `environmentModule`, the `configure` hook, the `'template'` listener that first tries to resolve a reference and falls back to the resolver, and `env.render`. These are host-framework and engine plumbing, I/O and asynchronous control. The only part kept is the loader tree the entry point installs, in `EntryLoader`.
- The Twing engine is not modelled: parsing, compiling, rendering and event dispatch.
- `WebpackError` is not modelled beyond its name, message, stack and `hideStack` fields. A stack captured by the runtime is the opaque value `Captured`.
- Promises and concurrency are not modelled. Every operation is one atomic step, so concurrent writes to one key are last-writer-wins.
- JavaScript strings are UTF-16; Dafny strings hold Unicode scalar values. A lone surrogate, which `JSON.stringify` would write as a `\u` escape, cannot occur in the model, and `Json.Parse` rejects a literal that denotes one.
- `Json.Parse` reads only JSON string syntax, a subset of JavaScript string literals. It is used only to state what the generated module returns.
