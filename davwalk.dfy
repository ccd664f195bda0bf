/** Mirroring a remote collection into the working directory: one PROPFIND
    per collection; every child collection becomes a local directory that
    the walk enters, fills and leaves again; every other child is fetched
    with a GET into a local file. */
module DavWalk {
  import opened DavTypes
  import opened GoPath
  import opened Fs
  import DavList

  /** The local name of a kept entry: its display name, or the last element
      of its href's path when the display name is empty. */
  function WalkName(parse: string -> Option<Url>, r: Response): string
    requires parse(r.href).Some? && |r.propstat| > 0
  {
    var name := r.propstat[0].prop.displayName;
    if name == "" then Base(parse(r.href).value.path) else name
  }

  /** A display name is used unchanged by both the listing and the walk;
      when it is empty the listing falls back to the raw href and the walk
      to `Base` of the href's path, which is a single slash-free
      element unless that path is empty or made only of slashes. */
  lemma NamesByMode(parse: string -> Option<Url>, r: Response)
    requires parse(r.href).Some? && |r.propstat| > 0
    ensures var d := r.propstat[0].prop.displayName;
            var p := parse(r.href).value.path;
            && (d != "" ==> DavList.ListName(r) == d && WalkName(parse, r) == d)
            && (d == "" ==> DavList.ListName(r) == r.href && WalkName(parse, r) == Base(p))
            && (d == "" && p == [] ==> WalkName(parse, r) == ".")
            && (d == "" && p != [] && AllSlashes(p) ==> WalkName(parse, r) == "/")
            && (d == "" && !AllSlashes(p) ==> WalkName(parse, r) != [] && '/' !in WalkName(parse, r))
  {
  }

  /** The URL a file entry is fetched from: scheme and host of the request,
      followed by the href as the server sent it. */
  function FileUrl(req: Url, href: string): string {
    req.scheme + "://" + req.host + href
  }

  /** The walk as the code does it, and the walk with the two defects
      described in the README corrected. */
  datatype Variant = AsWritten | Corrected

  /** The URL the walk descends into for a child collection. */
  function ChildUrl(v: Variant, req: Url, href: string): string {
    match v
    case AsWritten => href
    case Corrected => FileUrl(req, href)
  }

  /** The local filesystem afterwards, and the requests sent, in order. */
  datatype Trace = Trace(fs: FsState, requests: seq<Request>)

  /** A kept entry has a propstat to read, and a kept collection leads the
      walk to a URL of smaller rank (the remote tree is finite). */
  predicate EntryRanked(env: Env, v: Variant, r: Response, req: Url, u: string, rank: string -> nat) {
    Kept(env.parse, r, req.path) ==>
      |r.propstat| > 0 && (IsCollection(r) ==> rank(ChildUrl(v, req, r.href)) < rank(u))
  }

  /** Every entry of `rs` is ranked. */
  predicate AllRanked(env: Env, v: Variant, rs: seq<Response>, req: Url, u: string, rank: string -> nat)
    decreases |rs|
  {
    rs == [] || (EntryRanked(env, v, rs[0], req, u, rank) && AllRanked(env, v, rs[1..], req, u, rank))
  }

  lemma {:induction false} AllRankedAppend(env: Env, v: Variant, a: seq<Response>, b: seq<Response>, req: Url, u: string,
                                           rank: string -> nat)
    ensures AllRanked(env, v, a + b, req, u, rank) <==>
              AllRanked(env, v, a, req, u, rank) && AllRanked(env, v, b, req, u, rank)
    decreases |a|
  {
    if a == [] {
      assert a + b == b;
    } else {
      assert (a + b)[0] == a[0];
      assert (a + b)[1..] == a[1..] + b;
      AllRankedAppend(env, v, a[1..], b, req, u, rank);
    }
  }

  predicate ChildrenRanked(env: Env, v: Variant, u: string, rank: string -> nat) {
    Listed(env, u) ==> AllRanked(env, v, Entries(env, u), RequestUrl(env, u), u, rank)
  }

  /** What the walk needs of the server: `rank` bounds the depth below every
      URL, and every child it acts on can be read. */
  ghost predicate Walkable(env: Env, v: Variant, rank: string -> nat) {
    forall u :: ChildrenRanked(env, v, u, rank)
  }

  /** The walk of the collection at `u`, starting from local state `st`. */
  function Walk(env: Env, v: Variant, st: FsState, u: string, rank: string -> nat): Trace
    requires Walkable(env, v, rank)
    decreases rank(u), 2, 0
  {
    if Listed(env, u) then
      assert ChildrenRanked(env, v, u, rank);
      var rest := WalkEntries(env, v, st, Entries(env, u), RequestUrl(env, u), u, rank);
      Trace(rest.fs, [Propfind(u)] + rest.requests)
    else
      Trace(st, [Propfind(u)])
  }

  /** The entries `rs` of the reply to `u`, handled one after the other. */
  function WalkEntries(env: Env, v: Variant, st: FsState, rs: seq<Response>, req: Url, u: string,
                       rank: string -> nat): Trace
    requires Walkable(env, v, rank)
    requires AllRanked(env, v, rs, req, u, rank)
    decreases rank(u), 1, |rs|
  {
    if rs == [] then Trace(st, [])
    else
      var first := EntryEffect(env, v, st, rs[0], req, u, rank);
      var rest := WalkEntries(env, v, first.fs, rs[1..], req, u, rank);
      Trace(rest.fs, first.requests + rest.requests)
  }

  /** What one entry of the reply to `u` does. */
  function EntryEffect(env: Env, v: Variant, st: FsState, r: Response, req: Url, u: string,
                       rank: string -> nat): Trace
    requires Walkable(env, v, rank)
    requires EntryRanked(env, v, r, req, u, rank)
    decreases rank(u), 0, 0
  {
    if !Kept(env.parse, r, req.path) then Trace(st, [])
    else
      var name := WalkName(env.parse, r);
      if IsCollection(r) then
        var made := AfterMkdir(st, name);
        match v
        case AsWritten =>
          // mkdir and chdir errors are ignored; ".." is entered regardless
          var sub := Walk(env, v, AfterChdir(made, name), ChildUrl(v, req, r.href), rank);
          Trace(AfterChdir(sub.fs, ".."), sub.requests)
        case Corrected =>
          // the entry is skipped when chdir fails; afterwards the walk
          // returns to the directory it was in
          if ChdirTarget(made, name).None? then Trace(made, [])
          else
            var sub := Walk(env, v, AfterChdir(made, name), ChildUrl(v, req, r.href), rank);
            Trace(sub.fs.(cwd := st.cwd), sub.requests)
      else
        var url := FileUrl(req, r.href);
        match env.get(url)
        case GetFailed(_) => Trace(st, [Get(url)])
        case GetReplied(_, body, _) => Trace(AfterCreate(st, name, body), [Get(url)])
  }

  /** The entries from `i` on are the entry at `i`, then the entries after
      it, handled from where that entry left the filesystem. */
  lemma EntriesStep(env: Env, v: Variant, st: FsState, rs: seq<Response>, i: nat, req: Url, u: string,
                    rank: string -> nat)
    requires Walkable(env, v, rank)
    requires i < |rs|
    requires AllRanked(env, v, rs[i..], req, u, rank)
    ensures EntryRanked(env, v, rs[i], req, u, rank)
    ensures AllRanked(env, v, rs[i + 1..], req, u, rank)
    ensures var first := EntryEffect(env, v, st, rs[i], req, u, rank);
            var rest := WalkEntries(env, v, first.fs, rs[i + 1..], req, u, rank);
            WalkEntries(env, v, st, rs[i..], req, u, rank) == Trace(rest.fs, first.requests + rest.requests)
  {
    assert rs[i..][0] == rs[i];
    assert rs[i..][1..] == rs[i + 1..];
  }

  /** Sends a PROPFIND to `urlStr` and mirrors its children into the working
      directory of `fs`, recursing into child collections. Returns the
      requests it sent. */
  method GetRecursive(fs: LocalFs, env: Env, urlStr: string, ghost rank: string -> nat)
    returns (requests: seq<Request>)
    requires Walkable(env, AsWritten, rank)
    modifies fs
    ensures Trace(fs.State(), requests) == Walk(env, AsWritten, old(fs.State()), urlStr, rank)
    decreases rank(urlStr), 1
  {
    requests := [Propfind(urlStr)];
    var resp := env.propfind(urlStr);
    if resp.PropfindFailed? || resp.status != 207 || !resp.body.Decoded? {
      return;
    }
    var reqURL := env.parse(urlStr);
    if reqURL.None? {
      return;
    }
    var req := reqURL.value;
    var rs := resp.body.ms.responses;
    assert Listed(env, urlStr) && Entries(env, urlStr) == rs && RequestUrl(env, urlStr) == req;
    assert ChildrenRanked(env, AsWritten, urlStr, rank);
    ghost var all := WalkEntries(env, AsWritten, fs.State(), rs, req, urlStr, rank);
    ghost var goal := Walk(env, AsWritten, fs.State(), urlStr, rank);
    assert goal == Trace(all.fs, requests + all.requests);
    assert rs[0..] == rs;
    for i := 0 to |rs|
      invariant AllRanked(env, AsWritten, rs[i..], req, urlStr, rank)
      invariant var rest := WalkEntries(env, AsWritten, fs.State(), rs[i..], req, urlStr, rank);
                Trace(rest.fs, requests + rest.requests) == goal
    {
      ghost var before := fs.State();
      EntriesStep(env, AsWritten, before, rs, i, req, urlStr, rank);
      var sent := MirrorEntry(fs, env, rs[i], req, urlStr, rank);
      requests := requests + sent;
    }
  }

  /** Handles one entry of the reply to `u`: skips it, or makes, enters,
      mirrors and leaves a child collection, or downloads a file. Returns the
      requests it sent. */
  method MirrorEntry(fs: LocalFs, env: Env, r: Response, req: Url, u: string, ghost rank: string -> nat)
    returns (requests: seq<Request>)
    requires Walkable(env, AsWritten, rank)
    requires EntryRanked(env, AsWritten, r, req, u, rank)
    modifies fs
    ensures Trace(fs.State(), requests) == EntryEffect(env, AsWritten, old(fs.State()), r, req, u, rank)
    decreases rank(u), 0
  {
    requests := [];
    var respURL := env.parse(r.href);
    if respURL.None? || respURL.value.path == req.path {
      return;
    }
    var prop := r.propstat[0].prop;
    var name := prop.displayName;
    if name == "" {
      name := Base(respURL.value.path);
    }
    assert name == WalkName(env.parse, r);
    if prop.resourceType.collection {
      var _ := fs.Mkdir(name);
      var _ := fs.Chdir(name);
      requests := GetRecursive(fs, env, r.href, rank);
      var _ := fs.Chdir("..");
    } else {
      var fileURL := FileUrl(req, r.href);
      requests := [Get(fileURL)];
      var fileResp := env.get(fileURL);
      if fileResp.GetFailed? {
        return;
      }
      var _ := fs.Create(name, fileResp.body);
    }
  }

  /** The walk with both defects corrected: a child collection that cannot
      be entered is skipped, the walk returns to the saved working directory
      afterwards, and the child is listed at its absolute URL. */
  method GetRecursiveCorrected(fs: LocalFs, env: Env, urlStr: string, ghost rank: string -> nat)
    returns (requests: seq<Request>)
    requires Walkable(env, Corrected, rank)
    modifies fs
    ensures Trace(fs.State(), requests) == Walk(env, Corrected, old(fs.State()), urlStr, rank)
    decreases rank(urlStr), 1
  {
    requests := [Propfind(urlStr)];
    var resp := env.propfind(urlStr);
    if resp.PropfindFailed? || resp.status != 207 || !resp.body.Decoded? {
      return;
    }
    var reqURL := env.parse(urlStr);
    if reqURL.None? {
      return;
    }
    var req := reqURL.value;
    var rs := resp.body.ms.responses;
    assert Listed(env, urlStr) && Entries(env, urlStr) == rs && RequestUrl(env, urlStr) == req;
    assert ChildrenRanked(env, Corrected, urlStr, rank);
    ghost var all := WalkEntries(env, Corrected, fs.State(), rs, req, urlStr, rank);
    ghost var goal := Walk(env, Corrected, fs.State(), urlStr, rank);
    assert goal == Trace(all.fs, requests + all.requests);
    assert rs[0..] == rs;
    for i := 0 to |rs|
      invariant AllRanked(env, Corrected, rs[i..], req, urlStr, rank)
      invariant var rest := WalkEntries(env, Corrected, fs.State(), rs[i..], req, urlStr, rank);
                Trace(rest.fs, requests + rest.requests) == goal
    {
      ghost var before := fs.State();
      EntriesStep(env, Corrected, before, rs, i, req, urlStr, rank);
      var sent := MirrorEntryCorrected(fs, env, rs[i], req, urlStr, rank);
      requests := requests + sent;
    }
  }

  /** One entry of the corrected walk. */
  method MirrorEntryCorrected(fs: LocalFs, env: Env, r: Response, req: Url, u: string, ghost rank: string -> nat)
    returns (requests: seq<Request>)
    requires Walkable(env, Corrected, rank)
    requires EntryRanked(env, Corrected, r, req, u, rank)
    modifies fs
    ensures Trace(fs.State(), requests) == EntryEffect(env, Corrected, old(fs.State()), r, req, u, rank)
    decreases rank(u), 0
  {
    requests := [];
    var respURL := env.parse(r.href);
    if respURL.None? || respURL.value.path == req.path {
      return;
    }
    var prop := r.propstat[0].prop;
    var name := prop.displayName;
    if name == "" {
      name := Base(respURL.value.path);
    }
    assert name == WalkName(env.parse, r);
    if prop.resourceType.collection {
      var saved := fs.Getwd();
      var _ := fs.Mkdir(name);
      var entered := fs.Chdir(name);
      if !entered {
        return;
      }
      requests := GetRecursiveCorrected(fs, env, FileUrl(req, r.href), rank);
      fs.ReturnTo(saved);
    } else {
      var fileURL := FileUrl(req, r.href);
      requests := [Get(fileURL)];
      var fileResp := env.get(fileURL);
      if fileResp.GetFailed? {
        return;
      }
      var _ := fs.Create(name, fileResp.body);
    }
  }

  // ---------------------------------------------------------------------
  // What the walk does and does not do.

  /** Unless the reply is a 207 whose body decodes and the URL parses, the
      walk sends only its PROPFIND and leaves the filesystem as it was: no
      entry is examined. */
  lemma UnlistedWalkChangesNothing(env: Env, v: Variant, st: FsState, u: string, rank: string -> nat)
    requires Walkable(env, v, rank)
    requires !Listed(env, u)
    ensures Walk(env, v, st, u, rank) == Trace(st, [Propfind(u)])
  {
  }

  /** Every walk starts with the PROPFIND of its own URL. */
  lemma WalkStartsWithPropfind(env: Env, v: Variant, st: FsState, u: string, rank: string -> nat)
    requires Walkable(env, v, rank)
    ensures |Walk(env, v, st, u, rank).requests| > 0
    ensures Walk(env, v, st, u, rank).requests[0] == Propfind(u)
  {
  }

  /** An entry that is not a child, because its href does not parse or
      because it is the self-entry, does nothing. */
  lemma SkippedEntryDoesNothing(env: Env, v: Variant, st: FsState, r: Response, req: Url, u: string,
                                rank: string -> nat)
    requires Walkable(env, v, rank)
    requires !Kept(env.parse, r, req.path)
    ensures EntryRanked(env, v, r, req, u, rank)
    ensures EntryEffect(env, v, st, r, req, u, rank) == Trace(st, [])
  {
  }

  /** Entries handled one after the other by an arbitrary per-entry step:
      the shape of `WalkEntries` with the step left abstract. */
  function Fold(step: (FsState, Response) -> Trace, st: FsState, rs: seq<Response>): Trace
    decreases |rs|
  {
    if rs == [] then Trace(st, [])
    else
      var first := step(st, rs[0]);
      var rest := Fold(step, first.fs, rs[1..]);
      Trace(rest.fs, first.requests + rest.requests)
  }

  lemma {:induction false} FoldAppend(step: (FsState, Response) -> Trace, st: FsState, a: seq<Response>, b: seq<Response>)
    ensures var ta := Fold(step, st, a);
            var tb := Fold(step, ta.fs, b);
            Fold(step, st, a + b) == Trace(tb.fs, ta.requests + tb.requests)
    decreases |a|
  {
    if a == [] {
      assert a + b == b;
      assert [] + Fold(step, st, b).requests == Fold(step, st, b).requests;
    } else {
      assert (a + b)[0] == a[0];
      assert (a + b)[1..] == a[1..] + b;
      var first := step(st, a[0]);
      FoldAppend(step, first.fs, a[1..], b);
      var ta1 := Fold(step, first.fs, a[1..]);
      var tb := Fold(step, ta1.fs, b);
      assert first.requests + (ta1.requests + tb.requests) == (first.requests + ta1.requests) + tb.requests;
    }
  }

  /** The step of the walk of `u`: an entry's effect where it is defined. */
  ghost function Step(env: Env, v: Variant, req: Url, u: string, rank: string -> nat): (FsState, Response) -> Trace {
    (st: FsState, r: Response) =>
      if Walkable(env, v, rank) && EntryRanked(env, v, r, req, u, rank) then EntryEffect(env, v, st, r, req, u, rank)
      else Trace(st, [])
  }

  lemma {:induction false} WalkEntriesIsFold(env: Env, v: Variant, st: FsState, rs: seq<Response>, req: Url, u: string,
                                             rank: string -> nat)
    requires Walkable(env, v, rank)
    requires AllRanked(env, v, rs, req, u, rank)
    ensures WalkEntries(env, v, st, rs, req, u, rank) == Fold(Step(env, v, req, u, rank), st, rs)
    decreases |rs|
  {
    if rs != [] {
      var first := EntryEffect(env, v, st, rs[0], req, u, rank);
      assert Step(env, v, req, u, rank)(st, rs[0]) == first;
      WalkEntriesIsFold(env, v, first.fs, rs[1..], req, u, rank);
    }
  }

  /** Handling `a + b` is handling `a`, then handling `b` from where `a` left
      the filesystem. */
  lemma WalkEntriesAppend(env: Env, v: Variant, st: FsState, a: seq<Response>, b: seq<Response>,
                          req: Url, u: string, rank: string -> nat)
    requires Walkable(env, v, rank)
    requires AllRanked(env, v, a, req, u, rank) && AllRanked(env, v, b, req, u, rank)
    ensures AllRanked(env, v, a + b, req, u, rank)
    ensures var ta := WalkEntries(env, v, st, a, req, u, rank);
            var tb := WalkEntries(env, v, ta.fs, b, req, u, rank);
            WalkEntries(env, v, st, a + b, req, u, rank) == Trace(tb.fs, ta.requests + tb.requests)
  {
    AllRankedAppend(env, v, a, b, req, u, rank);
    var ta := WalkEntries(env, v, st, a, req, u, rank);
    WalkEntriesIsFold(env, v, st, a, req, u, rank);
    WalkEntriesIsFold(env, v, ta.fs, b, req, u, rank);
    WalkEntriesIsFold(env, v, st, a + b, req, u, rank);
    FoldAppend(Step(env, v, req, u, rank), st, a, b);
  }

  /** A step that does nothing for `r` can be dropped from any fold. */
  lemma FoldSkip(step: (FsState, Response) -> Trace, st: FsState, a: seq<Response>, r: Response, b: seq<Response>)
    requires forall s :: step(s, r) == Trace(s, [])
    ensures Fold(step, st, a + [r] + b) == Fold(step, st, a + b)
  {
    FoldAppend(step, st, a + [r], b);
    FoldAppend(step, st, a, [r]);
    FoldAppend(step, st, a, b);
    var ta := Fold(step, st, a);
    assert [r][1..] == [];
    assert Fold(step, ta.fs, [r]) == Trace(ta.fs, []);
  }

  /** An entry that is not a child leaves no trace, and the entries after it
      are still handled exactly as they would be without it. */
  lemma SkippedEntryIsInvisible(env: Env, v: Variant, st: FsState, a: seq<Response>, r: Response, b: seq<Response>,
                                req: Url, u: string, rank: string -> nat)
    requires Walkable(env, v, rank)
    requires !Kept(env.parse, r, req.path)
    requires AllRanked(env, v, a, req, u, rank) && AllRanked(env, v, b, req, u, rank)
    ensures AllRanked(env, v, a + [r] + b, req, u, rank) && AllRanked(env, v, a + b, req, u, rank)
    ensures WalkEntries(env, v, st, a + [r] + b, req, u, rank) == WalkEntries(env, v, st, a + b, req, u, rank)
  {
    assert [r][1..] == [];
    assert AllRanked(env, v, [r], req, u, rank);
    AllRankedAppend(env, v, a, [r], req, u, rank);
    AllRankedAppend(env, v, a + [r], b, req, u, rank);
    AllRankedAppend(env, v, a, b, req, u, rank);
    var step := Step(env, v, req, u, rank);
    forall s | true
      ensures step(s, r) == Trace(s, [])
    {
      SkippedEntryDoesNothing(env, v, s, r, req, u, rank);
    }
    WalkEntriesIsFold(env, v, st, a + [r] + b, req, u, rank);
    WalkEntriesIsFold(env, v, st, a + b, req, u, rank);
    FoldSkip(step, st, a, r, b);
  }

  /** A file entry sends exactly one GET, to the request's scheme and host
      followed by the href; it never makes or enters a directory, and it
      changes at most the one file it creates. */
  lemma FileEntryEffect(env: Env, v: Variant, st: FsState, r: Response, req: Url, u: string,
                        rank: string -> nat)
    requires Walkable(env, v, rank)
    requires EntryRanked(env, v, r, req, u, rank)
    requires Kept(env.parse, r, req.path) && !IsCollection(r)
    ensures var t := EntryEffect(env, v, st, r, req, u, rank);
            && t.requests == [Get(req.scheme + "://" + req.host + r.href)]
            && t.fs.dirs == st.dirs
            && t.fs.cwd == st.cwd
            && (|| t.fs.files == st.files
                || (&& CreateTarget(st, WalkName(env.parse, r)).Some?
                    && t.fs.files == st.files[CreateTarget(st, WalkName(env.parse, r)).value := env.get(FileUrl(req, r.href)).body]))
  {
  }

  /** A collection entry sends no GET of its own: everything it sends is the
      walk of the collection, which starts with a PROPFIND of the raw href. */
  lemma CollectionEntryEffect(env: Env, st: FsState, r: Response, req: Url, u: string, rank: string -> nat)
    requires Walkable(env, AsWritten, rank)
    requires EntryRanked(env, AsWritten, r, req, u, rank)
    requires Kept(env.parse, r, req.path) && IsCollection(r)
    ensures var name := WalkName(env.parse, r);
            var inside := AfterChdir(AfterMkdir(st, name), name);
            var t := EntryEffect(env, AsWritten, st, r, req, u, rank);
            && t.requests == Walk(env, AsWritten, inside, r.href, rank).requests
            && t.requests[0] == Propfind(r.href)
  {
  }

  /** The "go back up" step of the walk as written: when the local name of a
      child collection is a single plain element, changing into it succeeds,
      and the walk of the child ends where it began, the walk is back in the
      directory it was in before the entry. */
  lemma GoBackUp(env: Env, st: FsState, r: Response, req: Url, u: string, rank: string -> nat)
    requires Walkable(env, AsWritten, rank)
    requires EntryRanked(env, AsWritten, r, req, u, rank)
    requires Kept(env.parse, r, req.path) && IsCollection(r)
    requires var name := WalkName(env.parse, r);
             && name != [] && '/' !in name && name != "." && name != ".."
             && ChdirTarget(AfterMkdir(st, name), name).Some?
             && var inside := AfterChdir(AfterMkdir(st, name), name);
                Walk(env, AsWritten, inside, r.href, rank).fs.cwd == inside.cwd
    ensures EntryEffect(env, AsWritten, st, r, req, u, rank).fs.cwd == st.cwd
  {
    var name := WalkName(env.parse, r);
    var made := AfterMkdir(st, name);
    IntoPlainChild(made, name);
    var sub := Walk(env, AsWritten, AfterChdir(made, name), r.href, rank);
    UpIsParent(sub.fs);
    assert Parent(made.cwd + [name]) == made.cwd;
  }

  /** With the defects corrected, every walk ends in the directory it
      started in, whatever the server sends and whatever is already on
      disk. */
  lemma CorrectedWalkRestoresCwd(env: Env, st: FsState, u: string, rank: string -> nat)
    requires Walkable(env, Corrected, rank)
    ensures Walk(env, Corrected, st, u, rank).fs.cwd == st.cwd
  {
    if Listed(env, u) {
      assert ChildrenRanked(env, Corrected, u, rank);
      CorrectedEntriesKeepCwd(env, st, Entries(env, u), RequestUrl(env, u), u, rank);
    }
  }

  lemma {:induction false} CorrectedEntriesKeepCwd(env: Env, st: FsState, rs: seq<Response>, req: Url, u: string,
                                                   rank: string -> nat)
    requires Walkable(env, Corrected, rank)
    requires AllRanked(env, Corrected, rs, req, u, rank)
    ensures WalkEntries(env, Corrected, st, rs, req, u, rank).fs.cwd == st.cwd
    decreases |rs|
  {
    if rs != [] {
      var first := EntryEffect(env, Corrected, st, rs[0], req, u, rank);
      assert first.fs.cwd == st.cwd;
      CorrectedEntriesKeepCwd(env, first.fs, rs[1..], req, u, rank);
    }
  }

  /** With the defects corrected, a child collection that could be entered
      is listed at an absolute URL: the request's scheme and host followed by
      the href, as for files. */
  lemma CorrectedDescendsIntoAbsoluteUrl(env: Env, st: FsState, r: Response, req: Url, u: string, rank: string -> nat)
    requires Walkable(env, Corrected, rank)
    requires EntryRanked(env, Corrected, r, req, u, rank)
    requires Kept(env.parse, r, req.path) && IsCollection(r)
    requires ChdirTarget(AfterMkdir(st, WalkName(env.parse, r)), WalkName(env.parse, r)).Some?
    ensures var t := EntryEffect(env, Corrected, st, r, req, u, rank);
            |t.requests| > 0 && t.requests[0] == Propfind(req.scheme + "://" + req.host + r.href)
  {
    var name := WalkName(env.parse, r);
    var inside := AfterChdir(AfterMkdir(st, name), name);
    WalkStartsWithPropfind(env, Corrected, inside, FileUrl(req, r.href), rank);
  }

  predicate Grows(a: FsState, b: FsState) {
    a.dirs <= b.dirs && a.files.Keys <= b.files.Keys
  }

  /** The walk keeps the filesystem well formed and never removes a
      directory or a file. */
  lemma {:induction false} WalkKeepsValid(env: Env, v: Variant, st: FsState, u: string, rank: string -> nat)
    requires Walkable(env, v, rank)
    requires st.Valid()
    ensures Walk(env, v, st, u, rank).fs.Valid()
    ensures Grows(st, Walk(env, v, st, u, rank).fs)
    decreases rank(u), 2, 0
  {
    if Listed(env, u) {
      assert ChildrenRanked(env, v, u, rank);
      EntriesKeepValid(env, v, st, Entries(env, u), RequestUrl(env, u), u, rank);
    }
  }

  lemma {:induction false} EntriesKeepValid(env: Env, v: Variant, st: FsState, rs: seq<Response>, req: Url, u: string,
                                            rank: string -> nat)
    requires Walkable(env, v, rank)
    requires AllRanked(env, v, rs, req, u, rank)
    requires st.Valid()
    ensures WalkEntries(env, v, st, rs, req, u, rank).fs.Valid()
    ensures Grows(st, WalkEntries(env, v, st, rs, req, u, rank).fs)
    decreases rank(u), 1, |rs|
  {
    if rs != [] {
      EntryKeepsValid(env, v, st, rs[0], req, u, rank);
      var first := EntryEffect(env, v, st, rs[0], req, u, rank);
      EntriesKeepValid(env, v, first.fs, rs[1..], req, u, rank);
    }
  }

  lemma {:induction false} EntryKeepsValid(env: Env, v: Variant, st: FsState, r: Response, req: Url, u: string,
                                           rank: string -> nat)
    requires Walkable(env, v, rank)
    requires EntryRanked(env, v, r, req, u, rank)
    requires st.Valid()
    ensures EntryEffect(env, v, st, r, req, u, rank).fs.Valid()
    ensures Grows(st, EntryEffect(env, v, st, r, req, u, rank).fs)
    decreases rank(u), 0, 0
  {
    if Kept(env.parse, r, req.path) {
      var name := WalkName(env.parse, r);
      if IsCollection(r) {
        var made := AfterMkdir(st, name);
        CallsKeepValid(st, name, "");
        CallsKeepValid(made, name, "");
        var inside := AfterChdir(made, name);
        var child := ChildUrl(v, req, r.href);
        WalkKeepsValid(env, v, inside, child, rank);
        var sub := Walk(env, v, inside, child, rank);
        CallsKeepValid(sub.fs, "..", "");
      } else {
        var url := FileUrl(req, r.href);
        if env.get(url).GetReplied? {
          CallsKeepValid(st, name, env.get(url).body);
        }
      }
    }
  }
}
