/** The local filesystem and working directory as the mirroring code sees
    them through three system calls: make a directory, change into a
    directory, create (or truncate) a file and fill it. Paths are sequences
    of path elements from the root; a name given to a call is resolved
    against the working directory, or against the root when it starts with
    '/', element by element: "." stays, ".." goes up (the root is its own
    parent), and any other element must name an existing directory. There
    are no symbolic links and no permissions. */
module Fs {
  import opened DavTypes

  type Path = seq<string>

  function Parent(p: Path): Path {
    if p == [] then [] else p[..|p| - 1]
  }

  predicate ClosedUnderParent(dirs: set<Path>) {
    forall p :: p in dirs ==> Parent(p) in dirs
  }

  /** Directories, files with their contents, and the working directory. */
  datatype FsState = FsState(dirs: set<Path>, files: map<Path, string>, cwd: Path) {
    /** The root exists, the working directory is a directory, every entry
        sits in an existing directory, and nothing is both file and
        directory. */
    predicate Valid() {
      && [] in dirs
      && cwd in dirs
      && ClosedUnderParent(dirs)
      && (forall p :: p in files ==> p != [] && Parent(p) in dirs && p !in dirs)
    }
  }

  /** Length of the first path element of `s` (up to the first '/'). */
  function ElementEnd(s: string): (n: nat)
    ensures n <= |s|
    ensures forall j :: 0 <= j < n ==> s[j] != '/'
    ensures n < |s| ==> s[n] == '/'
  {
    if s == [] || s[0] == '/' then 0 else 1 + ElementEnd(s[1..])
  }

  /** The non-empty elements of a slash-separated name, in order. */
  function Elements(name: string): (es: seq<string>)
    ensures forall i :: 0 <= i < |es| ==> es[i] != [] && '/' !in es[i]
    decreases |name|
  {
    if name == [] then []
    else if name[0] == '/' then Elements(name[1..])
    else
      var n := ElementEnd(name);
      [name[..n]] + Elements(name[n..])
  }

  /** Walks the elements `es` from directory `from`. */
  function Resolve(dirs: set<Path>, from: Path, es: seq<string>): (r: Option<Path>)
    ensures from in dirs && ClosedUnderParent(dirs) && r.Some? ==> r.value in dirs
    decreases |es|
  {
    if es == [] then Some(from)
    else if es[0] == "." then Resolve(dirs, from, es[1..])
    else if es[0] == ".." then Resolve(dirs, Parent(from), es[1..])
    else if from + [es[0]] in dirs then Resolve(dirs, from + [es[0]], es[1..])
    else None
  }

  function Start(st: FsState, name: string): Path {
    if name != [] && name[0] == '/' then [] else st.cwd
  }

  /** The directory `name` would create, or None when mkdir fails: an empty
      name, a name ending in "." or "..", a missing parent, or something
      already there. */
  function MkdirTarget(st: FsState, name: string): (t: Option<Path>)
    ensures st.Valid() && t.Some? ==>
              t.value != [] && Parent(t.value) in st.dirs && t.value !in st.dirs && t.value !in st.files
  {
    var es := Elements(name);
    if es == [] then None
    else
      var last := es[|es| - 1];
      if last == "." || last == ".." then None
      else match Resolve(st.dirs, Start(st, name), es[..|es| - 1])
        case None => None
        case Some(parent) =>
          var t := parent + [last];
          assert Parent(t) == parent;
          if t in st.dirs || t in st.files then None else Some(t)
  }

  function AfterMkdir(st: FsState, name: string): FsState {
    match MkdirTarget(st, name)
    case Some(t) => st.(dirs := st.dirs + {t})
    case None => st
  }

  /** The directory chdir to `name` lands in, or None when it fails. */
  function ChdirTarget(st: FsState, name: string): (t: Option<Path>)
    ensures st.Valid() && t.Some? ==> t.value in st.dirs
  {
    if name == [] then None else Resolve(st.dirs, Start(st, name), Elements(name))
  }

  function AfterChdir(st: FsState, name: string): FsState {
    match ChdirTarget(st, name)
    case Some(t) => st.(cwd := t)
    case None => st
  }

  /** The file creating `name` writes, or None when it fails: an empty name,
      a trailing slash, a name ending in "." or "..", a missing parent, or a
      directory already there. An existing file is truncated. */
  function CreateTarget(st: FsState, name: string): (t: Option<Path>)
    ensures st.Valid() && t.Some? ==> t.value != [] && Parent(t.value) in st.dirs && t.value !in st.dirs
  {
    var es := Elements(name);
    if name == [] || name[|name| - 1] == '/' || es == [] then None
    else
      var last := es[|es| - 1];
      if last == "." || last == ".." then None
      else match Resolve(st.dirs, Start(st, name), es[..|es| - 1])
        case None => None
        case Some(parent) =>
          var t := parent + [last];
          assert Parent(t) == parent;
          if t in st.dirs then None else Some(t)
  }

  function AfterCreate(st: FsState, name: string, content: string): FsState {
    match CreateTarget(st, name)
    case Some(t) => st.(files := st.files[t := content])
    case None => st
  }

  /** The three calls keep the filesystem well formed and never remove
      anything. */
  lemma CallsKeepValid(st: FsState, name: string, content: string)
    requires st.Valid()
    ensures AfterMkdir(st, name).Valid() && AfterChdir(st, name).Valid() && AfterCreate(st, name, content).Valid()
    ensures st.dirs <= AfterMkdir(st, name).dirs && AfterMkdir(st, name).files == st.files
    ensures AfterMkdir(st, name).cwd == st.cwd && AfterCreate(st, name, content).cwd == st.cwd
    ensures AfterChdir(st, name).dirs == st.dirs && AfterChdir(st, name).files == st.files
    ensures AfterCreate(st, name, content).dirs == st.dirs
    ensures st.files.Keys <= AfterCreate(st, name, content).files.Keys
  {
  }

  /** A single plain element names itself. */
  lemma {:induction false} PlainElements(name: string)
    requires name != [] && '/' !in name
    ensures Elements(name) == [name]
  {
    assert name[0] != '/';
    var n := ElementEnd(name);
    assert n == |name|;
    assert name[..n] == name;
    assert name[n..] == [];
  }

  /** Changing into ".." always succeeds and lands in the parent of the
      working directory (the root is its own parent). */
  lemma UpIsParent(st: FsState)
    ensures ChdirTarget(st, "..") == Some(Parent(st.cwd))
  {
    PlainElements("..");
    assert ".."[0] != '/';
    assert [".."][1..] == [];
    assert Resolve(st.dirs, st.cwd, [".."]) == Resolve(st.dirs, Parent(st.cwd), []);
  }

  /** Changing into a plain name that exists lands in the child of the
      working directory of that name. */
  lemma IntoPlainChild(st: FsState, name: string)
    requires name != [] && '/' !in name && name != "." && name != ".."
    requires ChdirTarget(st, name).Some?
    ensures ChdirTarget(st, name) == Some(st.cwd + [name])
  {
    PlainElements(name);
    assert name[0] != '/';
    assert [name][1..] == [];
    var child := st.cwd + [name];
    assert Resolve(st.dirs, st.cwd, [name]) == if child in st.dirs then Resolve(st.dirs, child, []) else None;
  }

  /** The process's filesystem and working directory, changed in place by
      the system calls the mirroring code makes. */
  class LocalFs {
    var dirs: set<Path>
    var files: map<Path, string>
    var cwd: Path

    function State(): FsState
      reads this
    {
      FsState(dirs, files, cwd)
    }

    constructor (st: FsState)
      ensures State() == st
    {
      dirs, files, cwd := st.dirs, st.files, st.cwd;
    }

    method Mkdir(name: string) returns (ok: bool)
      modifies this
      ensures ok == MkdirTarget(old(State()), name).Some?
      ensures State() == AfterMkdir(old(State()), name)
    {
      var t := MkdirTarget(State(), name);
      ok := t.Some?;
      if ok {
        dirs := dirs + {t.value};
      }
    }

    method Chdir(name: string) returns (ok: bool)
      modifies this
      ensures ok == ChdirTarget(old(State()), name).Some?
      ensures State() == AfterChdir(old(State()), name)
    {
      var t := ChdirTarget(State(), name);
      ok := t.Some?;
      if ok {
        cwd := t.value;
      }
    }

    /** The working directory, to return to later. */
    method Getwd() returns (p: Path)
      ensures p == cwd
    {
      p := cwd;
    }

    /** Returns to a working directory saved earlier (directories are never
        removed here, so it still exists). */
    method ReturnTo(p: Path)
      modifies this
      ensures State() == old(State()).(cwd := p)
    {
      cwd := p;
    }

    method Create(name: string, content: string) returns (ok: bool)
      modifies this
      ensures ok == CreateTarget(old(State()), name).Some?
      ensures State() == AfterCreate(old(State()), name, content)
    {
      var t := CreateTarget(State(), name);
      ok := t.Some?;
      if ok {
        files := files[t.value := content];
      }
    }
  }
}
