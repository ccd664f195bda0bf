/** Listing a collection: one PROPFIND, then one line per child entry,
    named by its display name or, when that is empty, by its raw href. */
module DavList {
  import opened DavTypes

  /** The name a kept entry is listed under. */
  function ListName(r: Response): string
    requires |r.propstat| > 0
  {
    var name := r.propstat[0].prop.displayName;
    if name == "" then r.href else name
  }

  /** What one entry adds to the listing. */
  function Line(parse: string -> Option<Url>, r: Response, reqPath: string): string
    requires Kept(parse, r, reqPath) ==> |r.propstat| > 0
  {
    if Kept(parse, r, reqPath) then ListName(r) + "\n" else ""
  }

  /** The listing of the entries `rs`, built in server order. */
  function ListOutput(parse: string -> Option<Url>, rs: seq<Response>, reqPath: string): string
    requires PropstatsPresent(parse, rs, reqPath)
  {
    if rs == [] then ""
    else ListOutput(parse, rs[..|rs| - 1], reqPath) + Line(parse, rs[|rs| - 1], reqPath)
  }

  // ---------------------------------------------------------------------
  // A second description of the listing: select the children, then join
  // their names, one per line.

  /** The entries that are children of the request, in server order. */
  function Children(parse: string -> Option<Url>, rs: seq<Response>, reqPath: string): (ks: seq<Response>)
    ensures forall k <- ks :: k in rs && Kept(parse, k, reqPath)
    ensures |ks| <= |rs|
  {
    if rs == [] then []
    else (if Kept(parse, rs[0], reqPath) then [rs[0]] else []) + Children(parse, rs[1..], reqPath)
  }

  function JoinLines(ks: seq<Response>): string
    requires forall k <- ks :: |k.propstat| > 0
  {
    if ks == [] then "" else ListName(ks[0]) + "\n" + JoinLines(ks[1..])
  }

  function Count(s: string, c: char): nat {
    if s == [] then 0 else (if s[0] == c then 1 else 0) + Count(s[1..], c)
  }

  lemma {:induction false} CountAppend(a: string, b: string, c: char)
    ensures Count(a + b, c) == Count(a, c) + Count(b, c)
  {
    if a != [] {
      assert (a + b)[1..] == a[1..] + b;
      CountAppend(a[1..], b, c);
    } else {
      assert a + b == b;
    }
  }

  lemma {:induction false} ChildrenAppend(parse: string -> Option<Url>, a: seq<Response>, b: seq<Response>, reqPath: string)
    ensures Children(parse, a + b, reqPath) == Children(parse, a, reqPath) + Children(parse, b, reqPath)
  {
    if a != [] {
      assert (a + b)[1..] == a[1..] + b;
      ChildrenAppend(parse, a[1..], b, reqPath);
    } else {
      assert a + b == b;
    }
  }

  lemma {:induction false} JoinLinesAppend(a: seq<Response>, b: seq<Response>)
    requires forall k <- a + b :: |k.propstat| > 0
    ensures JoinLines(a + b) == JoinLines(a) + JoinLines(b)
  {
    if a != [] {
      assert (a + b)[1..] == a[1..] + b;
      JoinLinesAppend(a[1..], b);
    } else {
      assert a + b == b;
    }
  }

  /** The listing is exactly the children's names, each followed by a
      newline, in the order the server sent them. */
  lemma {:induction false} ListOutputIsChildrenJoined(parse: string -> Option<Url>, rs: seq<Response>, reqPath: string)
    requires PropstatsPresent(parse, rs, reqPath)
    ensures ListOutput(parse, rs, reqPath) == JoinLines(Children(parse, rs, reqPath))
  {
    if rs != [] {
      var init, last := rs[..|rs| - 1], rs[|rs| - 1];
      assert rs == init + [last];
      ListOutputIsChildrenJoined(parse, init, reqPath);
      ChildrenAppend(parse, init, [last], reqPath);
      assert [last][1..] == [];
      JoinLinesAppend(Children(parse, init, reqPath), Children(parse, [last], reqPath));
    }
  }

  /** The listing of a concatenation is the concatenation of the listings:
      an entry's line depends on nothing before or after it. */
  lemma {:induction false} ListOutputAppend(parse: string -> Option<Url>, a: seq<Response>, b: seq<Response>, reqPath: string)
    requires PropstatsPresent(parse, a + b, reqPath)
    ensures ListOutput(parse, a + b, reqPath) == ListOutput(parse, a, reqPath) + ListOutput(parse, b, reqPath)
  {
    if b != [] {
      var init, last := b[..|b| - 1], b[|b| - 1];
      assert (a + b)[..|a + b| - 1] == a + init;
      assert (a + b)[|a + b| - 1] == last;
      assert PropstatsPresent(parse, a + init, reqPath) by {
        forall r | r in a + init
          ensures r in a + b
        {
        }
      }
      ListOutputAppend(parse, a, init, reqPath);
      var la, li, ll := ListOutput(parse, a, reqPath), ListOutput(parse, init, reqPath), Line(parse, last, reqPath);
      assert ListOutput(parse, a + b, reqPath) == la + li + ll;
      assert ListOutput(parse, b, reqPath) == li + ll;
      assert la + li + ll == la + (li + ll);
    } else {
      assert a + b == a;
    }
  }

  /** An entry that is not a child (its href does not parse, or it is the
      self-entry) adds nothing and does not stop the entries after it. */
  lemma SkippedEntryAddsNothing(parse: string -> Option<Url>, a: seq<Response>, r: Response, b: seq<Response>, reqPath: string)
    requires !Kept(parse, r, reqPath)
    requires PropstatsPresent(parse, a + b, reqPath)
    ensures PropstatsPresent(parse, a + [r] + b, reqPath)
    ensures ListOutput(parse, a + [r] + b, reqPath) == ListOutput(parse, a + b, reqPath)
  {
    ListOutputAppend(parse, a + [r], b, reqPath);
    ListOutputAppend(parse, a, b, reqPath);
    assert (a + [r])[..|a + [r]| - 1] == a;
  }

  /** When no child's name holds a newline, the listing has one line per
      child. */
  lemma {:induction false} OneLinePerChild(parse: string -> Option<Url>, rs: seq<Response>, reqPath: string)
    requires PropstatsPresent(parse, rs, reqPath)
    requires forall r <- rs :: Kept(parse, r, reqPath) ==> '\n' !in ListName(r)
    ensures Count(ListOutput(parse, rs, reqPath), '\n') == |Children(parse, rs, reqPath)|
  {
    ListOutputIsChildrenJoined(parse, rs, reqPath);
    JoinedLineCount(Children(parse, rs, reqPath));
  }

  lemma {:induction false} JoinedLineCount(ks: seq<Response>)
    requires forall k <- ks :: |k.propstat| > 0 && '\n' !in ListName(k)
    ensures Count(JoinLines(ks), '\n') == |ks|
  {
    if ks != [] {
      JoinedLineCount(ks[1..]);
      CountAppend(ListName(ks[0]), "\n", '\n');
      CountAppend(ListName(ks[0]) + "\n", JoinLines(ks[1..]), '\n');
      NoNewlineCount(ListName(ks[0]));
    }
  }

  lemma {:induction false} NoNewlineCount(s: string)
    requires '\n' !in s
    ensures Count(s, '\n') == 0
  {
    if s != [] {
      NoNewlineCount(s[1..]);
    }
  }

  /** A reply holding the self-entry followed by children lists exactly the
      children, in order. */
  lemma SelfEntryExcluded(parse: string -> Option<Url>, self: Response, children: seq<Response>, reqPath: string)
    requires parse(self.href).Some? && parse(self.href).value.path == reqPath
    requires forall k <- children :: Kept(parse, k, reqPath) && |k.propstat| > 0
    ensures PropstatsPresent(parse, [self] + children, reqPath)
    ensures ListOutput(parse, [self] + children, reqPath) == JoinLines(children)
  {
    ListOutputIsChildrenJoined(parse, [self] + children, reqPath);
    assert ([self] + children)[1..] == children;
    assert ([self] + children)[0] == self;
    assert !Kept(parse, self, reqPath);
    assert Children(parse, [self] + children, reqPath) == [] + Children(parse, children, reqPath);
    AllChildren(parse, children, reqPath);
    assert [] + children == children;
    assert Children(parse, [self] + children, reqPath) == children;
  }

  lemma {:induction false} AllChildren(parse: string -> Option<Url>, ks: seq<Response>, reqPath: string)
    requires forall k <- ks :: Kept(parse, k, reqPath)
    ensures Children(parse, ks, reqPath) == ks
  {
    if ks != [] {
      AllChildren(parse, ks[1..], reqPath);
    }
  }

  /** Everything `List` needs of its inputs: if the reply is listed, every
      child entry has a propstat to read. */
  predicate ListReady(env: Env, urlStr: string) {
    Listed(env, urlStr) ==> PropstatsPresent(env.parse, Entries(env, urlStr), RequestUrl(env, urlStr).path)
  }

  /** Sends a PROPFIND to `urlStr` and lists the children of the reply. */
  method List(env: Env, urlStr: string) returns (result: string, err: Option<Error>)
    requires ListReady(env, urlStr)
    ensures err.None? <==> Listed(env, urlStr)
    ensures err.Some? ==> result == ""
    ensures env.propfind(urlStr).PropfindFailed? ==> err == Some(RequestError(env.propfind(urlStr).reason))
    ensures env.propfind(urlStr).PropfindReplied? && env.propfind(urlStr).status != 207 ==>
              err == Some(UnexpectedStatus(env.propfind(urlStr).status))
    ensures env.propfind(urlStr).PropfindReplied? && env.propfind(urlStr).status == 207 ==>
              && (env.propfind(urlStr).body.ReadFailed? ==> err == Some(ReadError(env.propfind(urlStr).body.reason)))
              && (env.propfind(urlStr).body.Malformed? ==> err == Some(DecodeError(env.propfind(urlStr).body.reason)))
              && (env.propfind(urlStr).body.Decoded? && env.parse(urlStr).None? ==> err == Some(UrlError))
    ensures Listed(env, urlStr) ==>
              result == JoinLines(Children(env.parse, Entries(env, urlStr), RequestUrl(env, urlStr).path))
  {
    var resp := env.propfind(urlStr);
    if resp.PropfindFailed? {
      return "", Some(RequestError(resp.reason));
    }
    if resp.status != 207 {
      return "", Some(UnexpectedStatus(resp.status));
    }
    match resp.body
    case ReadFailed(e) =>
      return "", Some(ReadError(e));
    case Malformed(e) =>
      return "", Some(DecodeError(e));
    case Decoded(ms) =>
      var reqURL := env.parse(urlStr);
      if reqURL.None? {
        return "", Some(UrlError);
      }
      var reqPath := reqURL.value.path;
      var rs := ms.responses;
      result := "";
      for i := 0 to |rs|
        invariant result == ListOutput(env.parse, rs[..i], reqPath)
      {
        assert rs[..i + 1][..i] == rs[..i];
        var r := rs[i];
        var respURL := env.parse(r.href);
        if respURL.None? {
          continue;
        }
        if respURL.value.path == reqPath {
          continue;
        }
        var name := r.propstat[0].prop.displayName;
        if name == "" {
          name := r.href;
        }
        result := result + name + "\n";
      }
      assert rs[..|rs|] == rs;
      ListOutputIsChildrenJoined(env.parse, rs, reqPath);
      err := None;
  }
}
