/**
 * Template sources, the loader composition tree, the path-rewriting array
 * loader, and the resolver that lists every filesystem location where a
 * template reference that could not be resolved might later appear.
 */
module Loaders {
  import opened Wrappers
  import opened Paths

  /** A located template: its code, its logical name and its resolved name. */
  datatype Source = Source(code: string, name: string, resolvedName: string)

  /** Why a loader could not produce a source (the message Twing reports). */
  datatype LoaderError = LoaderError(message: string)

  /** The name Twing gives the filesystem loader's namespace without a prefix. */
  const MainNamespace: string := "__main__"

  /** A filesystem-loader namespace and its directories, in registration order. */
  datatype Namespace = Namespace(name: string, paths: seq<string>)

  /** The loader kinds a Twing loader tree is built from. */
  datatype Loader =
    | ArrayLoader(templates: map<string, string>)
    | ChainLoader(loaders: seq<Loader>)
    | FilesystemLoader(namespaces: seq<Namespace>)
    | RelativeFilesystemLoader

  /**
   * `PathSupportingArrayLoader.getSourceContext(name, from)`, given what the
   * inherited array-loader lookup settled to: a failed lookup is passed on,
   * a found source keeps its code and name and is re-addressed by `name`.
   */
  function GetSourceContext(looked: Result<Source, LoaderError>, name: string): (r: Result<Source, LoaderError>)
    ensures looked.Failure? ==> r == looked
    ensures looked.Success? ==>
      r.Success? && r.value.code == looked.value.code &&
      r.value.name == looked.value.name && r.value.resolvedName == name
  {
    match looked
    case Failure(e) => Failure(e)
    case Success(s) => Success(Source(s.code, s.name, name))
  }

  /** The prefix a request must carry to be looked up in namespace `ns`. */
  function NamespacePrefix(ns: string): (p: string)
    ensures ns == MainNamespace ==> p == []
    ensures ns != MainNamespace ==> |p| == |ns| + 2 && p == "@" + ns + "/"
  {
    if ns == MainNamespace then "" else "@" + ns + "/"
  }

  /** `dirs[j]` joined with `tail`, for every `j` in order. */
  function JoinEach(dirs: seq<string>, tail: string): (r: seq<string>)
    ensures |r| == |dirs|
    ensures forall j :: 0 <= j < |dirs| ==> r[j] == Join(dirs[j], tail)
  {
    if dirs == [] then [] else [Join(dirs[0], tail)] + JoinEach(dirs[1..], tail)
  }

  /** What one namespace of a filesystem loader contributes for `request`. */
  function NamespaceCandidates(request: string, ns: Namespace): seq<string>
  {
    var prefix := NamespacePrefix(ns.name);
    if !StartsWith(request, prefix) then [] else JoinEach(ns.paths, request[|prefix|..])
  }

  /** What a filesystem loader contributes: each namespace's share, in order. */
  function FilesystemCandidates(request: string, namespaces: seq<Namespace>): seq<string>
  {
    if namespaces == [] then []
    else NamespaceCandidates(request, namespaces[0]) + FilesystemCandidates(request, namespaces[1..])
  }

  /** What a relative-filesystem loader contributes for a request made from `from`. */
  function RelativeCandidates(request: string, from: Source): seq<string>
  {
    if IsAbsolute(request) then [] else [Join(Dirname(from.resolvedName), request)]
  }

  /**
   * `resolvePotentialDependencyLocations(request, from, loader)`: every path
   * at which a file would make `request` resolve through `loader`.
   */
  function Candidates(request: string, from: Source, loader: Loader): seq<string>
    decreases loader, 1
  {
    match loader
    case ArrayLoader(_) => []
    case ChainLoader(loaders) => ChainCandidates(request, from, loaders)
    case FilesystemLoader(namespaces) => FilesystemCandidates(request, namespaces)
    case RelativeFilesystemLoader => RelativeCandidates(request, from)
  }

  /** The candidates of each loader of a chain, concatenated in chain order. */
  function ChainCandidates(request: string, from: Source, loaders: seq<Loader>): seq<string>
    decreases loaders, 0
  {
    if loaders == [] then []
    else Candidates(request, from, loaders[0]) + ChainCandidates(request, from, loaders[1..])
  }
}
