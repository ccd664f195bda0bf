/** The command line: which operation the two flags and the positional
    argument select, and the single-file download that runs when neither
    flag is given. */
module Cli {
  import opened DavTypes
  import opened GoPath
  import opened Fs

  /** What the command does: report one of the two usage errors, or run one
      operation on the URL argument. */
  datatype Action =
    | MissingUrl
    | ConflictingFlags
    | RunList(url: string)
    | RunRecursive(url: string)
    | RunGetFile(url: string)
  {
    predicate Runs() {
      RunList? || RunRecursive? || RunGetFile?
    }
  }

  /** The decision taken from `-l`, `-r` and the positional arguments left
      after flag parsing. */
  function Dispatch(list: bool, recursive: bool, args: seq<string>): (a: Action)
    ensures a == MissingUrl <==> args == []
    ensures a == ConflictingFlags <==> args != [] && list && recursive
    ensures a.RunList? <==> args != [] && list && !recursive
    ensures a.RunRecursive? <==> args != [] && !list && recursive
    ensures a.RunGetFile? <==> args != [] && !list && !recursive
    ensures a.Runs() ==> a.url == args[0]
  {
    if |args| < 1 then MissingUrl
    else if list && recursive then ConflictingFlags
    else if list then RunList(args[0])
    else if recursive then RunRecursive(args[0])
    else RunGetFile(args[0])
  }

  /** The missing URL is reported before the flags are compared: with both
      flags and no URL, the URL is what is reported. Whenever a URL is
      given, exactly one operation runs unless both flags are set. */
  lemma UrlCheckedFirst(list: bool, recursive: bool, args: seq<string>)
    ensures Dispatch(true, true, []) == MissingUrl
    ensures args != [] ==> (Dispatch(list, recursive, args).Runs() <==> !(list && recursive))
  {
  }

  /** The local name of a single download: what follows the last '/' of the
      URL string. */
  function FileName(urlStr: string): (file: string)
    ensures |file| <= |urlStr| && urlStr[|urlStr| - |file|..] == file
    ensures '/' !in file
    ensures |file| < |urlStr| ==> urlStr[|urlStr| - |file| - 1] == '/'
  {
    var parts := Split(urlStr);
    assert urlStr[..|parts.0|] == parts.0 && urlStr[|parts.0|..] == parts.1;
    parts.1
  }

  /** A URL naming a collection (ending in '/') gives the empty name, which
      no file can be created under. */
  lemma CollectionUrlCannotBeSaved(st: FsState, urlStr: string)
    requires urlStr != [] && urlStr[|urlStr| - 1] == '/'
    ensures FileName(urlStr) == []
    ensures CreateTarget(st, FileName(urlStr)).None?
  {
  }

  /** Fetches `urlStr` and saves its body in the working directory under
      the last element of the URL string. Request, status, create and copy
      errors are returned; nothing is created unless the status is 200. */
  method GetFile(fs: LocalFs, env: Env, urlStr: string) returns (err: Option<Error>)
    modifies fs
    ensures env.get(urlStr).GetFailed? ==>
              err == Some(RequestError(env.get(urlStr).reason)) && fs.State() == old(fs.State())
    ensures env.get(urlStr).GetReplied? && env.get(urlStr).status != 200 ==>
              err == Some(UnexpectedStatus(env.get(urlStr).status)) && fs.State() == old(fs.State())
    ensures env.get(urlStr).GetReplied? && env.get(urlStr).status == 200 ==>
              && fs.State() == AfterCreate(old(fs.State()), FileName(urlStr), env.get(urlStr).body)
              && (CreateTarget(old(fs.State()), FileName(urlStr)).None? ==> err == Some(CreateError(FileName(urlStr))))
              && (CreateTarget(old(fs.State()), FileName(urlStr)).Some? ==>
                    err == match env.get(urlStr).copyError
                           case None => None
                           case Some(e) => Some(CopyError(e)))
  {
    var resp := env.get(urlStr);
    if resp.GetFailed? {
      return Some(RequestError(resp.reason));
    }
    if resp.status != 200 {
      return Some(UnexpectedStatus(resp.status));
    }
    var (_, file) := Split(urlStr);
    var created := fs.Create(file, resp.body);
    if !created {
      return Some(CreateError(file));
    }
    match resp.copyError
    case None =>
      err := None;
    case Some(e) =>
      err := Some(CopyError(e));
  }
}
