/**
 * What the candidate-location resolver guarantees about the locations it
 * lists: which loaders contribute, in which order, and what each location is.
 */
module ResolverProperties {
  import opened Wrappers
  import opened Paths
  import opened Loaders

  /** A loader tree made of array loaders and chains of such trees only. */
  predicate OnlyArrays(loader: Loader) {
    match loader
    case ArrayLoader(_) => true
    case ChainLoader(loaders) => forall i :: 0 <= i < |loaders| ==> OnlyArrays(loaders[i])
    case _ => false
  }

  /** A loader tree with a relative-filesystem loader somewhere in it. */
  predicate HasRelative(loader: Loader) {
    match loader
    case RelativeFilesystemLoader => true
    case ChainLoader(loaders) => exists i :: 0 <= i < |loaders| && HasRelative(loaders[i])
    case _ => false
  }

  /** An in-memory tree offers no filesystem location, whatever is requested from wherever. */
  lemma {:induction false} ArrayTreeYieldsNothing(request: string, from: Source, loader: Loader)
    requires OnlyArrays(loader)
    ensures Candidates(request, from, loader) == []
    decreases loader, 1
  {
    match loader
    case ArrayLoader(_) =>
    case ChainLoader(loaders) => ArrayChainYieldsNothing(request, from, loaders);
  }

  lemma {:induction false} ArrayChainYieldsNothing(request: string, from: Source, loaders: seq<Loader>)
    requires forall i :: 0 <= i < |loaders| ==> OnlyArrays(loaders[i])
    ensures ChainCandidates(request, from, loaders) == []
    decreases loaders, 0
  {
    if loaders != [] {
      ArrayTreeYieldsNothing(request, from, loaders[0]);
      ArrayChainYieldsNothing(request, from, loaders[1..]);
    }
  }

  /** A chain's locations are those of its first part followed by those of the rest. */
  lemma {:induction false} ChainCandidatesAppend(request: string, from: Source, front: seq<Loader>, back: seq<Loader>)
    ensures ChainCandidates(request, from, front + back) ==
      ChainCandidates(request, from, front) + ChainCandidates(request, from, back)
  {
    if front == [] {
      assert front + back == back;
    } else {
      assert (front + back)[1..] == front[1..] + back;
      ChainCandidatesAppend(request, from, front[1..], back);
    }
  }

  /** A location comes from a chain exactly when it comes from one of its loaders. */
  lemma {:induction false} ChainCandidatesMember(request: string, from: Source, loaders: seq<Loader>, path: string)
    ensures path in ChainCandidates(request, from, loaders) <==>
      exists i :: 0 <= i < |loaders| && path in Candidates(request, from, loaders[i])
  {
    if loaders != [] {
      ChainCandidatesMember(request, from, loaders[1..], path);
      if path in ChainCandidates(request, from, loaders[1..]) {
        var i :| 0 <= i < |loaders[1..]| && path in Candidates(request, from, loaders[1..][i]);
        assert loaders[1..][i] == loaders[i + 1];
      }
      if exists i :: 0 <= i < |loaders| && path in Candidates(request, from, loaders[i]) {
        var i :| 0 <= i < |loaders| && path in Candidates(request, from, loaders[i]);
        if i > 0 {
          assert loaders[1..][i - 1] == loaders[i];
        }
      }
    }
  }

  /** A filesystem loader's locations are those of its first namespaces followed by the rest's. */
  lemma {:induction false} FilesystemCandidatesAppend(request: string, front: seq<Namespace>, back: seq<Namespace>)
    ensures FilesystemCandidates(request, front + back) ==
      FilesystemCandidates(request, front) + FilesystemCandidates(request, back)
  {
    if front == [] {
      assert front + back == back;
    } else {
      assert (front + back)[1..] == front[1..] + back;
      FilesystemCandidatesAppend(request, front[1..], back);
    }
  }

  /**
   * A location comes from a filesystem loader exactly when some namespace
   * whose prefix the request carries has a directory that, joined with the
   * rest of the request, gives that location.
   */
  lemma {:induction false} FilesystemCandidatesMember(request: string, namespaces: seq<Namespace>, path: string)
    ensures path in FilesystemCandidates(request, namespaces) <==>
      exists i, j :: 0 <= i < |namespaces| && 0 <= j < |namespaces[i].paths| &&
        StartsWith(request, NamespacePrefix(namespaces[i].name)) &&
        path == Join(namespaces[i].paths[j], request[|NamespacePrefix(namespaces[i].name)|..])
  {
    if namespaces != [] {
      var rest := namespaces[1..];
      FilesystemCandidatesMember(request, rest, path);
      var here := NamespaceCandidates(request, namespaces[0]);
      if path in here {
        var prefix := NamespacePrefix(namespaces[0].name);
        var j :| 0 <= j < |here| && here[j] == path;
        assert path == Join(namespaces[0].paths[j], request[|prefix|..]);
      }
      if path in FilesystemCandidates(request, rest) {
        var i, j :| 0 <= i < |rest| && 0 <= j < |rest[i].paths| &&
          StartsWith(request, NamespacePrefix(rest[i].name)) &&
          path == Join(rest[i].paths[j], request[|NamespacePrefix(rest[i].name)|..]);
        assert rest[i] == namespaces[i + 1];
      }
      if exists i, j :: 0 <= i < |namespaces| && 0 <= j < |namespaces[i].paths| &&
          StartsWith(request, NamespacePrefix(namespaces[i].name)) &&
          path == Join(namespaces[i].paths[j], request[|NamespacePrefix(namespaces[i].name)|..])
      {
        var i, j :| 0 <= i < |namespaces| && 0 <= j < |namespaces[i].paths| &&
          StartsWith(request, NamespacePrefix(namespaces[i].name)) &&
          path == Join(namespaces[i].paths[j], request[|NamespacePrefix(namespaces[i].name)|..]);
        if i == 0 {
          assert here[j] == path;
        } else {
          assert rest[i - 1] == namespaces[i];
        }
      }
    }
  }

  /** The main namespace takes every request as it is: one location per directory, in order. */
  lemma MainNamespaceTakesEveryRequest(request: string, dirs: seq<string>)
    ensures NamespaceCandidates(request, Namespace(MainNamespace, dirs)) == JoinEach(dirs, request)
  {
    assert request[0..] == request;
  }

  /**
   * Another namespace takes exactly the requests written `@ns/rest`, and
   * joins each of its directories with `rest`.
   */
  lemma NamedNamespaceTakesPrefixedRequest(ns: string, rest: string, dirs: seq<string>)
    requires ns != MainNamespace
    ensures NamespaceCandidates("@" + ns + "/" + rest, Namespace(ns, dirs)) == JoinEach(dirs, rest)
  {
    var request := "@" + ns + "/" + rest;
    var prefix := NamespacePrefix(ns);
    assert request[..|prefix|] == prefix;
    assert request[|prefix|..] == rest;
  }

  lemma NamedNamespaceSkipsOtherRequests(request: string, ns: string, dirs: seq<string>)
    requires ns != MainNamespace
    requires !StartsWith(request, "@" + ns + "/")
    ensures NamespaceCandidates(request, Namespace(ns, dirs)) == []
  {
  }

  /**
   * A relative loader yields exactly one location for every request that is
   * not absolute: the request joined to the referring document's directory,
   * with one separator between them.
   */
  lemma RelativeRequestYieldsOne(request: string, from: Source)
    requires !IsAbsolute(request)
    ensures |Candidates(request, from, RelativeFilesystemLoader)| == 1
    ensures request == [] ==>
      Candidates(request, from, RelativeFilesystemLoader)[0] == Dirname(from.resolvedName)
    ensures request != [] ==>
      Candidates(request, from, RelativeFilesystemLoader)[0] ==
        TrimEnd(Dirname(from.resolvedName)) + [Separator] + request
  {
    if request != [] {
      assert TrimStart(request) == request;
    }
  }

  /**
   * For a plain file name that location is a sibling of the referring
   * document: its directory is the document's directory.
   */
  lemma RelativeCandidateIsSibling(request: string, from: Source)
    requires request != [] && forall i :: 0 <= i < |request| ==> request[i] != Separator
    ensures |Candidates(request, from, RelativeFilesystemLoader)| == 1
    ensures Dirname(Candidates(request, from, RelativeFilesystemLoader)[0]) ==
      var dir := Dirname(from.resolvedName);
      if TrimEnd(dir) == [] then [Separator] else TrimEnd(dir)
  {
    DirnameOfJoin(Dirname(from.resolvedName), request);
  }

  /**
   * The in-memory file is served re-addressed by its real path, so a relative
   * reference from it is looked for next to that path, whatever name the
   * in-memory lookup gave it.
   */
  lemma RelocatedSourceResolvesFromItsPath(looked: Result<Source, LoaderError>, path: string, request: string)
    requires looked.Success?
    ensures GetSourceContext(looked, path).Success?
    ensures Candidates(request, GetSourceContext(looked, path).value, RelativeFilesystemLoader) ==
      if IsAbsolute(request) then [] else [Join(Dirname(path), request)]
  {
  }

  lemma AbsoluteRequestIsNotRelative(request: string, from: Source)
    requires IsAbsolute(request)
    ensures Candidates(request, from, RelativeFilesystemLoader) == []
  {
  }

  /**
   * The document a reference comes from matters only to relative-filesystem
   * loaders: without one in the tree, any two origins give the same locations.
   */
  lemma {:induction false} OriginMattersOnlyToRelativeLoaders(request: string, from: Source, other: Source, loader: Loader)
    requires !HasRelative(loader)
    ensures Candidates(request, from, loader) == Candidates(request, other, loader)
    decreases loader, 1
  {
    match loader
    case ChainLoader(loaders) => OriginMattersOnlyToRelativeChains(request, from, other, loaders);
    case ArrayLoader(_) =>
    case FilesystemLoader(_) =>
  }

  lemma {:induction false} OriginMattersOnlyToRelativeChains(request: string, from: Source, other: Source, loaders: seq<Loader>)
    requires forall i :: 0 <= i < |loaders| ==> !HasRelative(loaders[i])
    ensures ChainCandidates(request, from, loaders) == ChainCandidates(request, other, loaders)
    decreases loaders, 0
  {
    if loaders != [] {
      OriginMattersOnlyToRelativeLoaders(request, from, other, loaders[0]);
      OriginMattersOnlyToRelativeChains(request, from, other, loaders[1..]);
    }
  }

  /**
   * The loader the entry point installs before rendering: the file being
   * compiled served from memory, ahead of the chain holding a filesystem
   * loader rooted at `context`.
   */
  function EntryLoader(resourcePath: string, code: string, context: string): Loader {
    ChainLoader([
      ArrayLoader(map[resourcePath := code]),
      ChainLoader([FilesystemLoader([Namespace(MainNamespace, [context])])])
    ])
  }

  /** With that loader, an unresolved reference is watched at one place: under `context`. */
  lemma EntryLoaderWatchesContext(resourcePath: string, code: string, context: string, request: string, from: Source)
    ensures Candidates(request, from, EntryLoader(resourcePath, code, context)) == [Join(context, request)]
  {
    var fs := FilesystemLoader([Namespace(MainNamespace, [context])]);
    MainNamespaceTakesEveryRequest(request, [context]);
    assert FilesystemCandidates(request, [Namespace(MainNamespace, [context])]) == [Join(context, request)];
    assert ChainCandidates(request, from, [fs]) == [Join(context, request)];
    var outer := [ArrayLoader(map[resourcePath := code]), ChainLoader([fs])];
    assert outer[1..] == [ChainLoader([fs])];
    assert ChainCandidates(request, from, outer[1..]) == [Join(context, request)];
    assert Candidates(request, from, outer[0]) == [];
  }
}
