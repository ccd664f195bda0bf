# davget in Dafny

A model of the core of `davget`. This small Go WebDAV client does three things:
- it lists a collection (`-l`);
- it mirrors a remote collection tree into the working directory (`-r`);
- by default, it downloads a single file.

Each WebDAV operation is one PROPFIND with `Depth: 1` or one GET. The model starts after the 207 Multi-Status body has been decoded. From there it covers:
- which entries are children;
- what each child is named;
- which URL is built for it;
- what each child does to the local filesystem and working directory.

The modules are:

- `DavTypes` (`davtypes.dfy`): the decoded multistatus and the outcomes of one exchange.
  - The types are `Multistatus`, `Response`, `Propstat`, `Prop` and `ResourceType`.
  - The outside world is `Env`: what the server answers to a PROPFIND or a GET of a URL string, and what `url.Parse` makes of a string.
  - `Error` holds the errors the core reports. An unexpected status is returned as the value `UnexpectedStatus(code)`, which carries the code; `StatusText(code)` is the text the Go error prints for it (davget.go:65, main.go:58).
  - `Kept` is the child rule shared by both walks: the href parses and its path is not the request's path.
- `GoPath` (`gopath.dfy`): `path.Split` and `path.Base` on strings.
- `Fs` (`localfs.dfy`): the local filesystem.
  - `FsState` holds the directories, the files with their contents, and the working directory.
  - Names are resolved element by element: "." stays, ".." goes up, a leading "/" starts at the root.
  - The three system calls the core makes are `MkdirTarget`/`AfterMkdir`, `ChdirTarget`/`AfterChdir` and `CreateTarget`/`AfterCreate`.
  - The class `LocalFs` changes its fields in place through the methods `Mkdir`, `Chdir` and `Create`. Each method is proved equal to its pure counterpart.
- `DavList` (`davlist.dfy`): `List`, a loop that appends one line per child.
  - The loop is proved against `ListOutput`.
  - `ListOutput` is proved equal to a second description: select the children, then join their names.
- `DavWalk` (`davwalk.dfy`): `GetRecursive`, which loops over the entries, mutates a `LocalFs` and recurses.
  - It is proved against the specification `Walk`/`WalkEntries`/`EntryEffect`.
  - The specification returns the final filesystem and the requests sent, in order.
  - `Walk` is parameterised by `Variant`. `AsWritten` is the code as it stands. `Corrected` fixes the two defects listed under Findings.
  - The loop body is the method `MirrorEntry`, which is proved against `EntryEffect`.
  - `GetRecursiveCorrected` and `MirrorEntryCorrected` are the imperative walk with those fixes.
- `WalkFindings` (`walkfindings.dfy`): one concrete server and two local directories, on which the two defects show.
- `Cli` (`cli.dfy`): the decision `main` takes from `-l`, `-r` and the positional arguments, and `davGetFile`, including its status guard and its file name.

Two things the walk does not do:
- It does not act on mkdir and chdir errors. They are neither logged nor a reason to skip the entry: the walk recurses and then changes into ".." regardless.
- It does not check the status of a file GET. Whatever body comes back is written.

## Model

| member | source | states |
|---|---|---|
| `DavTypes.NatDecimalRoundTrip` | davget.go:65 | the decimal rendering of a status code reads back as that code |
| `DavTypes.StatusTextNamesCode` | davget.go:64-66 | the unexpected-status message is the fixed prefix followed by digits that denote the code |
| `GoPath.LastSlash` | main.go:61 | the index found is a '/' and no '/' follows it, or it is -1 and the string has no '/' |
| `GoPath.Split` | main.go:60-61 | the two parts concatenate to the input; the file part has no '/'; the directory part is empty or ends in '/' |
| `GoPath.TrimTrailingSlashes` | davget.go:163 | the result is a prefix of the input that does not end in '/', and everything cut off is '/' |
| `GoPath.Base` | davget.go:161-164 | "." for the empty path and "/" for an all-slash path; otherwise a non-empty slash-free suffix of the trimmed path that starts right after a '/' or at the start |
| `Fs.ElementEnd` | davget.go:168-169 | the first element of a name ends at the first '/' |
| `Fs.Elements` | davget.go:168-169 | the elements of a name are non-empty and slash-free |
| `Fs.Resolve` | davget.go:169 | resolving from an existing directory in a tree closed under parents lands on an existing directory |
| `Fs.MkdirTarget` | davget.go:168 | a new directory sits in an existing parent, where no file and no directory is yet |
| `Fs.ChdirTarget` | davget.go:169 | chdir lands only in an existing directory |
| `Fs.CreateTarget` | davget.go:182 | a created file sits in an existing directory and is not a directory |
| `Fs.CallsKeepValid` | davget.go:168-171 | mkdir, chdir and create keep the filesystem well formed and remove nothing; only chdir moves the working directory |
| `Fs.PlainElements` | davget.go:169 | a non-empty slash-free name is a single element |
| `Fs.UpIsParent` | davget.go:171 | chdir ".." always succeeds and lands in the parent of the working directory |
| `Fs.IntoPlainChild` | davget.go:169 | a chdir into a plain name that succeeds lands in that child of the working directory |
| `Fs.LocalFs.Mkdir` | davget.go:168 | reports success exactly when mkdir is possible; the new state is the mkdir of the old |
| `Fs.LocalFs.Chdir` | davget.go:169 | reports success exactly when chdir is possible; the new state is the chdir of the old |
| `Fs.LocalFs.Create` | davget.go:182 | reports success exactly when create is possible; the new state has the file written |
| `DavList.Children` | davget.go:86-95 | the children are entries of the reply, each with a parsing href whose path is not the request's |
| `DavList.ListOutputIsChildrenJoined` | davget.go:85-104 | the listing is, in server order, each child's name followed by a newline, and nothing else |
| `DavList.ListOutputAppend` | davget.go:86-102 | the listing of a concatenation is the concatenation of the listings |
| `DavList.SkippedEntryAddsNothing` | davget.go:88-95 | an entry with an unparsable href, or the self-entry, adds nothing and does not stop later entries |
| `DavList.OneLinePerChild` | davget.go:85-104 | when no name holds a newline, the listing has exactly one line per child |
| `DavList.SelfEntryExcluded` | davget.go:92-95 | a self-entry before the children is excluded even with a non-empty display name |
| `DavList.List` | davget.go:49-105 | a request failure, a non-207 status, an unreadable or undecodable body, and an unparsable URL each give their own error and an empty result; success holds exactly when the reply was listed, and then the result is the children's names, one per line |
| `DavWalk.GetRecursive` | davget.go:108-191 | the final filesystem and the requests sent are those of the walk as written |
| `DavWalk.GetRecursiveCorrected` | davget.go:166-175 | the final filesystem and the requests sent are those of the corrected walk |
| `DavWalk.MirrorEntry` | davget.go:151-189 | the filesystem after one entry, and the requests it sent, are that entry's effect in the walk as written: nothing for a skipped entry, mkdir, chdir, the child's walk and chdir ".." for a collection, GET and create for a file |
| `DavWalk.MirrorEntryCorrected` | davget.go:166-172 | the same for one entry of the corrected walk |
| `DavWalk.EntriesStep` | davget.go:151 | the entries from one position on are that entry, then the rest handled from where it left the filesystem |
| `DavWalk.NamesByMode` | davget.go:161-164 | both modes use a non-empty display name unchanged; an empty one falls back to the raw href in the listing and to `path.Base` of the parsed path in the walk, a single slash-free element unless the path is empty or made only of slashes |
| `DavWalk.UnlistedWalkChangesNothing` | davget.go:111-148 | a request failure, a non-207 status, a body that does not decode, or an unparsable URL: one PROPFIND is sent, no entry is examined and the filesystem is untouched |
| `DavWalk.WalkStartsWithPropfind` | davget.go:111-123 | every walk starts with the PROPFIND of its own URL |
| `DavWalk.SkippedEntryDoesNothing` | davget.go:152-158 | an unparsable href or the self-entry sends nothing and changes nothing |
| `DavWalk.WalkEntriesAppend` | davget.go:151-190 | handling `a + b` is handling `a`, then `b` from where `a` left the filesystem |
| `DavWalk.SkippedEntryIsInvisible` | davget.go:152-158 | removing a skipped entry from the reply changes neither the final filesystem nor the requests |
| `DavWalk.FileEntryEffect` | davget.go:173-189 | a file entry sends exactly one GET, to scheme + "://" + host + href; it leaves the directories and the working directory alone and writes at most its own file |
| `DavWalk.CollectionEntryEffect` | davget.go:166-172 | a collection entry sends no GET of its own; its requests are the child's walk, which starts with a PROPFIND of the raw href |
| `DavWalk.GoBackUp` | davget.go:166-171 | when the child's name is one plain element, chdir into it succeeds, and the child's walk ends where it began, the walk is back where it was before the entry |
| `DavWalk.CorrectedWalkRestoresCwd` | davget.go:166-172 | the corrected walk always ends in the directory it started in |
| `DavWalk.CorrectedDescendsIntoAbsoluteUrl` | davget.go:170-175 | the corrected walk lists an enterable child collection at scheme + "://" + host + href |
| `DavWalk.WalkKeepsValid` | davget.go:166-189 | the walk keeps the filesystem well formed and never removes a directory or a file |
| `WalkFindings.CwdDriftExample` | davget.go:168-171 | a local file named like a child collection leaves the walk as written one directory above where it started; the corrected walk stays put |
| `WalkFindings.RawHrefExample` | davget.go:170 | the walk as written sends the child's PROPFIND to the bare href "/dav/docs/" |
| `WalkFindings.AbsoluteUrlExample` | davget.go:174-175 | on the same server, the corrected walk sends it to "http://h/dav/docs/" |
| `Cli.Dispatch` | main.go:17-47 | no URL gives the usage error whatever the flags; a URL with both flags gives the conflict error; otherwise `-l` lists, `-r` mirrors and no flag downloads, always on the first positional argument |
| `Cli.UrlCheckedFirst` | main.go:18-27 | with both flags and no URL, the missing URL is reported; with a URL, an operation runs exactly when the flags do not conflict |
| `Cli.FileName` | main.go:60-61 | the file name is the suffix of the URL string after its last '/', and holds no '/' |
| `Cli.CollectionUrlCannotBeSaved` | main.go:61-65 | a URL ending in '/' gives the empty name, under which create fails |
| `Cli.GetFile` | main.go:51-69 | a request error is returned unchanged and a non-200 status is returned as an error, both before any file is created; on 200, the file named by the URL is written, and a create or copy error is returned |

## Left out

- HTTP transport is not modelled. The method, the `Depth: 1` header, the fixed PROPFIND body, the client, redirects and closing bodies are all left out. What a PROPFIND or a GET of a URL string comes back with is a function of `Env`. Failing to build a request and failing to send one are the same outcome.
- `xml.Unmarshal` and `io.ReadAll` are not modelled. Their outcomes are the `Body` of a 207 reply: a read error, a decode error, or the decoded multistatus.
- `url.Parse` is a function of `Env`. The model reads only the scheme, host and path it returns. What happens when a request is sent to a relative URL is up to `Env`.
- File contents are opaque strings. `io.Copy` is modelled only as writing the whole body, plus the copy error the reply carries. A partially written file is not modelled.
- Console output is not modelled: the per-entry messages and the errors `GetRecursive` prints. The model records the requests sent instead.
- `flag.Parse` is not modelled. `Cli.Dispatch` takes both flags and the remaining positional arguments.
- `main` is modelled only as the decision it takes. It calls `davList` and `davGetRecursive`, and neither is defined in the two source files. The exported `List` and `GetRecursive` are modelled on their own.
- File permissions (0755), symbolic links, and operating-system errors other than a missing parent or an entry already in the way are not modelled.
- `DavWalk.GetRecursive`: `Walkable` requires a ghost `rank` that decreases along every child collection of every URL the server lists, not only of the URLs the walk reaches. The Go code recurses without bound on a server whose listings form a cycle, and the model does not cover that case. It also does not cover a server with a cycle or an unbounded chain of collections outside the mirrored subtree, where the Go walk does finish.
- `DavList.List` and `DavWalk.GetRecursive` require every kept entry to carry at least one propstat. The Go code panics on `r.Propstat[0]` when a kept entry has none, and that panic is not modelled.

## Findings

| source | as written | input that shows it | evidently intended | confidence | as-written member | corrected member |
|---|---|---|---|---|---|---|
| davget.go:168-171 | `os.Chdir("..")` runs even when `os.Chdir(name)` failed, and also when it succeeded on a name that is not a single plain element (a display name "a/b" where "a" exists, or the fallback names "." and "/"), so the walk does not return to where the entry started | working directory "/home" holds a file "docs"; the server lists one child collection named "docs" | come back to the directory the entry started in, and skip the entry when it cannot be entered | high; not executed | `WalkFindings.CwdDriftExample` | `DavWalk.CorrectedWalkRestoresCwd` |
| davget.go:170 | the recursive call gets the raw href, e.g. "/dav/docs/", which has no scheme or host | request "http://h/dav/" listing a child collection with href "/dav/docs/" | descend into scheme + "://" + host + href, as file downloads do (davget.go:174-175) | high; not executed | `WalkFindings.RawHrefExample` | `DavWalk.CorrectedDescendsIntoAbsoluteUrl` |
