/** Concrete loader trees and the locations the resolver lists for them. */
module ResolverExamples {
  import opened Wrappers
  import opened Paths
  import opened Loaders
  import opened ResolverProperties

  /** Two filesystem loaders in a chain: each one's directory, in chain order. */
  lemma ChainOfTwoDirectories(from: Source)
    ensures Candidates("x.tpl", from, ChainLoader([
      FilesystemLoader([Namespace(MainNamespace, ["/a"])]),
      FilesystemLoader([Namespace(MainNamespace, ["/b"])])
    ])) == ["/a/x.tpl", "/b/x.tpl"]
  {
    var first := FilesystemLoader([Namespace(MainNamespace, ["/a"])]);
    var second := FilesystemLoader([Namespace(MainNamespace, ["/b"])]);
    MainNamespaceTakesEveryRequest("x.tpl", ["/a"]);
    MainNamespaceTakesEveryRequest("x.tpl", ["/b"]);
    assert TrimEnd("/a") == "/a";
    assert TrimEnd("/b") == "/b";
    assert TrimStart("x.tpl") == "x.tpl";
    assert Join("/a", "x.tpl") == "/a/x.tpl";
    assert Join("/b", "x.tpl") == "/b/x.tpl";
    assert JoinEach(["/a"], "x.tpl") == ["/a/x.tpl"];
    assert JoinEach(["/b"], "x.tpl") == ["/b/x.tpl"];
    assert FilesystemCandidates("x.tpl", [Namespace(MainNamespace, ["/a"])]) == ["/a/x.tpl"];
    assert FilesystemCandidates("x.tpl", [Namespace(MainNamespace, ["/b"])]) == ["/b/x.tpl"];
    assert Candidates("x.tpl", from, first) == ["/a/x.tpl"];
    assert Candidates("x.tpl", from, second) == ["/b/x.tpl"];
    assert [first, second][1..] == [second];
    assert ChainCandidates("x.tpl", from, [second]) == ["/b/x.tpl"];
    assert ChainCandidates("x.tpl", from, [first, second]) == ["/a/x.tpl"] + ["/b/x.tpl"];
  }

  /** A named namespace serves `@lib/...` requests from its directory... */
  lemma NamespaceLibServesPrefixed(from: Source)
    ensures Candidates("@lib/x.tpl", from, FilesystemLoader([Namespace("lib", ["/libs"])])) == ["/libs/x.tpl"]
  {
    var ns := Namespace("lib", ["/libs"]);
    assert NamespacePrefix("lib") == "@lib/";
    assert "@lib/x.tpl" == "@" + "lib" + "/" + "x.tpl";
    NamedNamespaceTakesPrefixedRequest("lib", "x.tpl", ["/libs"]);
    assert NamespaceCandidates("@lib/x.tpl", ns) == JoinEach(["/libs"], "x.tpl");
    assert TrimEnd("/libs") == "/libs";
    assert TrimStart("x.tpl") == "x.tpl";
    assert Join("/libs", "x.tpl") == "/libs/x.tpl";
    assert JoinEach(["/libs"], "x.tpl") == ["/libs/x.tpl"];
    assert FilesystemCandidates("@lib/x.tpl", [ns]) ==
      NamespaceCandidates("@lib/x.tpl", ns) + FilesystemCandidates("@lib/x.tpl", []);
  }

  /** ...and ignores requests without its prefix. */
  lemma NamespaceLibIgnoresUnprefixed(from: Source)
    ensures Candidates("x.tpl", from, FilesystemLoader([Namespace("lib", ["/libs"])])) == []
  {
    var ns := Namespace("lib", ["/libs"]);
    assert NamespacePrefix("lib") == "@lib/";
    assert "x.tpl"[..5] != "@lib/" by {
      assert "x.tpl"[0] != '@';
    }
    assert !StartsWith("x.tpl", "@lib/");
    assert NamespaceCandidates("x.tpl", ns) == [];
    assert FilesystemCandidates("x.tpl", [ns]) ==
      NamespaceCandidates("x.tpl", ns) + FilesystemCandidates("x.tpl", []);
  }

  /** A relative loader looks next to the referring document, and never for absolute requests. */
  lemma RelativeToPage()
    ensures Candidates("partial.tpl", Source("", "page.tpl", "/proj/views/page.tpl"), RelativeFilesystemLoader) ==
      ["/proj/views/partial.tpl"]
    ensures Candidates("/abs/partial.tpl", Source("", "page.tpl", "/proj/views/page.tpl"), RelativeFilesystemLoader) == []
  {
    var p := "/proj/views/page.tpl";
    assert p[11] == '/';
    forall i | 11 < i < |p| ensures p[i] != Separator {}
    assert LastSeparator(p) == Some(11);
    assert Dirname(p) == "/proj/views";
    assert TrimEnd("/proj/views") == "/proj/views";
    assert TrimStart("partial.tpl") == "partial.tpl";
    assert Join("/proj/views", "partial.tpl") == "/proj/views/partial.tpl";
  }
}
