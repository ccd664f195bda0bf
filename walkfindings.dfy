/** Two defects of the recursive walk, shown on one small server: a
    collection "docs" with a single child collection, also named "docs",
    whose href is the server-relative path "/dav/docs/". */
module WalkFindings {
  import opened DavTypes
  import opened Fs
  import opened DavWalk

  const Root: string := "http://h/dav/"
  const DocsHref: string := "/dav/docs/"
  const DocsUrl: string := "http://h/dav/docs/"

  const Docs: Response := Response(DocsHref, [Propstat(Prop("docs", ResourceType(true)), "HTTP/1.1 200 OK")])

  /** The server answers only `Root`, listing the one child; a PROPFIND of
      any other URL fails. The parser accepts the three URLs above. */
  function ExampleEnv(): Env {
    Env(
      u => if u == Root then PropfindReplied(207, Decoded(Multistatus([Docs]))) else PropfindFailed("not found"),
      u => GetFailed("no files"),
      s => if s == Root then Some(Url("http", "h", "/dav/"))
           else if s == DocsHref then Some(Url("", "", DocsHref))
           else if s == DocsUrl then Some(Url("http", "h", DocsHref))
           else None)
  }

  function ExampleRank(u: string): nat {
    if u == Root then 1 else 0
  }

  lemma ExampleWalkable(v: Variant)
    ensures Walkable(ExampleEnv(), v, ExampleRank)
  {
    var env := ExampleEnv();
    forall u | true
      ensures ChildrenRanked(env, v, u, ExampleRank)
    {
      if Listed(env, u) {
        assert u == Root;
        assert Entries(env, u) == [Docs];
        assert [Docs][1..] == [];
        assert ChildUrl(v, Url("http", "h", "/dav/"), DocsHref) != Root;
      }
    }
  }

  const Req: Url := Url("http", "h", "/dav/")

  /** The walk of `Root` is the PROPFIND of `Root` followed by what its one
      child does. */
  lemma OneEntryWalk(v: Variant, st: FsState)
    requires Walkable(ExampleEnv(), v, ExampleRank)
    ensures EntryRanked(ExampleEnv(), v, Docs, Req, Root, ExampleRank)
    ensures var e := EntryEffect(ExampleEnv(), v, st, Docs, Req, Root, ExampleRank);
            Walk(ExampleEnv(), v, st, Root, ExampleRank) == Trace(e.fs, [Propfind(Root)] + e.requests)
  {
    var env := ExampleEnv();
    assert Listed(env, Root) && Entries(env, Root) == [Docs] && RequestUrl(env, Root) == Req;
    assert ChildrenRanked(env, v, Root, ExampleRank);
    assert [Docs][1..] == [];
    var e := EntryEffect(env, v, st, Docs, Req, Root, ExampleRank);
    assert WalkEntries(env, v, st, [Docs], Req, Root, ExampleRank) == Trace(e.fs, e.requests + []);
    assert e.requests + [] == e.requests;
  }

  /** The child is kept, is a collection, and is named "docs". */
  lemma DocsIsChildCollection()
    ensures Kept(ExampleEnv().parse, Docs, Req.path) && IsCollection(Docs)
    ensures WalkName(ExampleEnv().parse, Docs) == "docs"
  {
  }

  /** Mkdir, chdir and chdir ".." for "docs" from `st`, resolved. */
  lemma DocsCalls(st: FsState)
    requires st.dirs == {[], ["home"]} && st.cwd == ["home"] && ["home", "docs"] !in st.dirs
    ensures MkdirTarget(st, "docs") == (if ["home", "docs"] in st.files then None else Some(["home", "docs"]))
    ensures ChdirTarget(st, "docs").None?
    ensures ChdirTarget(st, "..") == Some([])
  {
    PlainElements("docs");
    PlainElements("..");
    assert ["docs"][..0] == [] && [".."][1..] == [] && ["docs"][1..] == [];
    assert Start(st, "docs") == ["home"] && Resolve(st.dirs, ["home"], []) == Some(["home"]);
    assert ["home"] + ["docs"] == ["home", "docs"];
  }

  /** The working directory "/home", holding a file named "docs". */
  const Cluttered: FsState := FsState({[], ["home"]}, map[["home", "docs"] := "notes"], ["home"])

  /** The working directory "/home", empty. */
  const Tidy: FsState := FsState({[], ["home"]}, map[], ["home"])

  lemma ExampleStatesValid()
    ensures Cluttered.Valid() && Tidy.Valid()
  {
    assert Parent(["home"]) == [] && Parent(["home", "docs"]) == ["home"];
  }

  /** A local file named like the child collection: mkdir and chdir into
      "docs" both fail, yet the walk still changes into "..", and ends one
      directory above where it started. The corrected walk stays put. */
  lemma CwdDriftExample()
    ensures Cluttered.Valid()
    ensures Walkable(ExampleEnv(), AsWritten, ExampleRank) && Walkable(ExampleEnv(), Corrected, ExampleRank)
    ensures Walk(ExampleEnv(), AsWritten, Cluttered, Root, ExampleRank).fs.cwd == []
    ensures Walk(ExampleEnv(), Corrected, Cluttered, Root, ExampleRank).fs.cwd == ["home"]
  {
    var st := Cluttered;
    var env := ExampleEnv();
    ExampleStatesValid();
    ExampleWalkable(AsWritten);
    ExampleWalkable(Corrected);
    OneEntryWalk(AsWritten, st);
    DocsIsChildCollection();
    DocsCalls(st);
    assert AfterMkdir(st, "docs") == st && AfterChdir(st, "docs") == st;
    assert !Listed(env, DocsHref);
    assert Walk(env, AsWritten, st, DocsHref, ExampleRank).fs == st;
    CorrectedWalkRestoresCwd(env, st, Root, ExampleRank);
  }

  /** A child whose chdir succeeds, reached from an empty directory. */
  lemma EnterDocs(st: FsState)
    requires st == Tidy
    ensures AfterMkdir(st, "docs") == st.(dirs := {[], ["home"], ["home", "docs"]})
    ensures ChdirTarget(AfterMkdir(st, "docs"), "docs") == Some(["home", "docs"])
  {
    DocsCalls(st);
    var made := AfterMkdir(st, "docs");
    PlainElements("docs");
    assert ["docs"][1..] == [];
    assert Start(made, "docs") == ["home"] && ["home"] + ["docs"] == ["home", "docs"];
  }

  /** An empty local directory: the walk descends into the child by
      sending its PROPFIND to the bare href, while files are fetched at the
      request's scheme and host followed by the href. */
  lemma RawHrefExample()
    ensures Tidy.Valid()
    ensures Walkable(ExampleEnv(), AsWritten, ExampleRank)
    ensures Walk(ExampleEnv(), AsWritten, Tidy, Root, ExampleRank).requests == [Propfind(Root), Propfind(DocsHref)]
  {
    var st := Tidy;
    var env := ExampleEnv();
    ExampleStatesValid();
    ExampleWalkable(AsWritten);
    OneEntryWalk(AsWritten, st);
    DocsIsChildCollection();
    EnterDocs(st);
    assert !Listed(env, DocsHref);
    var inside := AfterChdir(AfterMkdir(st, "docs"), "docs");
    assert Walk(env, AsWritten, inside, DocsHref, ExampleRank).requests == [Propfind(DocsHref)];
  }

  lemma DocsUrlIsFileUrl()
    ensures FileUrl(Req, DocsHref) == DocsUrl
  {
    assert Req.scheme + "://" == "http://";
    assert "http://" + Req.host == "http://h";
  }

  /** The same server and directory: the corrected walk lists the child at
      its absolute URL. */
  lemma AbsoluteUrlExample()
    ensures Walkable(ExampleEnv(), Corrected, ExampleRank)
    ensures Walk(ExampleEnv(), Corrected, Tidy, Root, ExampleRank).requests == [Propfind(Root), Propfind(DocsUrl)]
  {
    var st := Tidy;
    var env := ExampleEnv();
    ExampleWalkable(Corrected);
    OneEntryWalk(Corrected, st);
    DocsIsChildCollection();
    EnterDocs(st);
    DocsUrlIsFileUrl();
    assert !Listed(env, DocsUrl);
    var inside := AfterChdir(AfterMkdir(st, "docs"), "docs");
    assert Walk(env, Corrected, inside, DocsUrl, ExampleRank).requests == [Propfind(DocsUrl)];
  }
}
